/** The gatherer stage (`gatherer_node`): one search per sub-question, results taken
    back in sub-question order (what `executor.map` yields), and every search result
    turned into one finding and one citation at the same index. */
module Gatherer {
  import opened Wrappers
  import opened Text
  import opened Search

  /** `state.get("pdf_text", "")[:6000]` */
  const PdfBudget: nat := 6000

  /** The state `gatherer_node` reads: the topic, the sub-questions and, when the
      caller put one there, `pdf_text`. */
  datatype GatherInput = GatherInput(topic: string, subquestions: seq<string>, pdfText: Option<string>)

  /** The state `gatherer_node` returns. */
  datatype GatherState = GatherState(topic: string, subquestions: seq<string>, findings: seq<string>,
                                     citations: seq<string>, pdfText: string)

  /** `f"Q: {question}\nA: {item['content']}"` */
  function FindingText(question: string, content: string): string {
    "Q: " + question + "\nA: " + content
  }

  /** What `executor.map(fetch, subquestions)` yields, in sub-question order. */
  function Outcomes(questions: seq<string>, search: SearchService): (os: seq<Result<seq<SearchResult>>>)
    ensures |os| == |questions|
    ensures forall j :: 0 <= j < |os| ==> (os[j].Failure? <==> search(questions[j]).Failed?)
  {
    seq(|questions|, j requires 0 <= j < |questions| => SearchOutcome(questions[j], search))
  }

  /** Consuming the mapped results in order: the first search that raised makes the
      whole stage raise; otherwise the results, concatenated group after group. */
  function Collect(os: seq<Result<seq<SearchResult>>>): (r: Result<seq<SearchResult>>)
    ensures r.Success? ==> |r.value| == Total(os)
    decreases |os|
  {
    if |os| == 0 then Success([])
    else
      match Collect(os[..|os| - 1])
      case Failure(e) => Failure(e)
      case Success(acc) =>
        match os[|os| - 1]
        case Failure(e) => Failure(e)
        case Success(rs) => Success(acc + rs)
  }

  /** The number of results in one outcome (none for a failed search). */
  function Size(o: Result<seq<SearchResult>>): nat {
    if o.Success? then |o.value| else 0
  }

  /** The number of results in all the outcomes of `os`. */
  function Total(os: seq<Result<seq<SearchResult>>>): nat
    decreases |os|
  {
    if |os| == 0 then 0 else Total(os[..|os| - 1]) + Size(os[|os| - 1])
  }

  /** Where the results of sub-question `j` start in the concatenation. */
  function Offset(os: seq<Result<seq<SearchResult>>>, j: nat): nat
    requires j <= |os|
  {
    Total(os[..j])
  }

  /** One finding per result, in order, each naming the result's question. */
  function Findings(flat: seq<SearchResult>): (fs: seq<string>)
    ensures |fs| == |flat|
    ensures forall i :: 0 <= i < |flat| ==> "Q: " + flat[i].question + "\nA: " <= fs[i]
  {
    seq(|flat|, i requires 0 <= i < |flat| => FindingText(flat[i].question, flat[i].content))
  }

  /** One citation per result, in order. */
  function Citations(flat: seq<SearchResult>): (cs: seq<string>)
    ensures |cs| == |flat|
  {
    seq(|flat|, i requires 0 <= i < |flat| => flat[i].url)
  }

  /** What `gatherer_node` returns or raises. Topic and sub-questions pass through,
      findings and citations have one entry per search result, and `pdf_text` is
      the first 6000 characters of the input's, or "" when it has none. */
  function GatherSpec(state: GatherInput, search: SearchService): (r: Result<GatherState>)
    ensures r.Success? ==>
              r.value.topic == state.topic && r.value.subquestions == state.subquestions
              && |r.value.findings| == |r.value.citations|
              && r.value.pdfText <= state.pdfText.GetOr("")
              && |r.value.pdfText| == (if |state.pdfText.GetOr("")| <= PdfBudget
                                       then |state.pdfText.GetOr("")| else PdfBudget)
    ensures state.pdfText.None? && r.Success? ==> r.value.pdfText == ""
  {
    match Collect(Outcomes(state.subquestions, search))
    case Failure(e) => Failure(e)
    case Success(flat) =>
      Success(GatherState(state.topic, state.subquestions, Findings(flat), Citations(flat),
                          Truncate(state.pdfText.GetOr(""), PdfBudget)))
  }

  /** `gatherer_node`: the fan-out as a sequential map, then the nested loop that
      appends one finding and one citation per result. */
  method GathererNode(state: GatherInput, search: SearchService) returns (r: Result<GatherState>)
    ensures r == GatherSpec(state, search)
  {
    var questions := state.subquestions;
    var outcomes: seq<Result<seq<SearchResult>>> := [];
    for j := 0 to |questions|
      invariant outcomes == Outcomes(questions, search)[..j]
    {
      var o := TavilySearch(questions[j], search);
      outcomes := outcomes + [o];
    }
    assert outcomes == Outcomes(questions, search);

    var findings: seq<string> := [];
    var citations: seq<string> := [];
    ghost var flat: seq<SearchResult> := [];
    for j := 0 to |outcomes|
      invariant Collect(outcomes[..j]) == Success(flat)
      invariant findings == Findings(flat) && citations == Citations(flat)
    {
      var question := questions[j];
      assert outcomes[..j + 1][..j] == outcomes[..j];
      match outcomes[j] {
        case Failure(e) =>
          CollectStopsAtFailure(outcomes, j);
          return Failure(e);
        case Success(results) =>
          assert forall k :: 0 <= k < |results| ==> results[k].question == question;
          ghost var done := flat;
          for k := 0 to |results|
            invariant done == flat + results[..k]
            invariant findings == Findings(done) && citations == Citations(done)
          {
            AppendOne(done, results[k]);
            findings := findings + [FindingText(question, results[k].content)];
            citations := citations + [results[k].url];
            done := done + [results[k]];
            assert results[..k + 1] == results[..k] + [results[k]];
          }
          assert results[..|results|] == results;
          flat := done;
      }
    }
    assert outcomes[..|outcomes|] == outcomes;
    r := Success(GatherState(state.topic, questions, findings, citations,
                             Truncate(state.pdfText.GetOr(""), PdfBudget)));
  }

  lemma AppendOne(flat: seq<SearchResult>, x: SearchResult)
    ensures Findings(flat + [x]) == Findings(flat) + [FindingText(x.question, x.content)]
    ensures Citations(flat + [x]) == Citations(flat) + [x.url]
  {
    assert (flat + [x])[|flat|] == x;
  }

  /** Once a search in the sequence has raised, nothing after it matters. */
  lemma {:induction false} CollectStopsAtFailure(os: seq<Result<seq<SearchResult>>>, j: nat)
    requires j < |os| && Collect(os[..j]).Success? && os[j].Failure?
    ensures Collect(os) == Failure(os[j].error)
    decreases |os|
  {
    var init := os[..|os| - 1];
    if |os| == j + 1 {
      assert init == os[..j];
    } else {
      assert init[..j] == os[..j] && init[j] == os[j];
      CollectStopsAtFailure(init, j);
    }
  }

  /** The collected outcomes fail exactly when some search raised, and then with the
      message of the FIRST search that raised. */
  lemma {:induction false} CollectFailsAtFirstFailure(os: seq<Result<seq<SearchResult>>>)
    ensures Collect(os).Failure? <==> exists j :: 0 <= j < |os| && os[j].Failure?
    ensures Collect(os).Failure? ==>
              exists j :: 0 <= j < |os| && os[j].Failure? && Collect(os).error == os[j].error
                          && forall k :: 0 <= k < j ==> os[k].Success?
    decreases |os|
  {
    if |os| > 0 {
      var n := |os| - 1;
      var init := os[..n];
      CollectFailsAtFirstFailure(init);
      assert forall k :: 0 <= k < n ==> init[k] == os[k];
      if Collect(init).Success? && os[n].Failure? {
        assert forall k :: 0 <= k < n ==> os[k].Success?;
      }
    }
  }

  /** On success every search answered, and the collected list is as long as all
      the groups together. */
  lemma {:induction false} CollectLength(os: seq<Result<seq<SearchResult>>>, flat: seq<SearchResult>)
    requires Collect(os) == Success(flat)
    ensures |flat| == Total(os)
    ensures forall j :: 0 <= j < |os| ==> os[j].Success?
    decreases |os|
  {
    if |os| > 0 {
      var n := |os| - 1;
      var init := os[..n];
      CollectLength(init, Collect(init).value);
      assert forall j :: 0 <= j < n ==> init[j] == os[j];
    }
  }

  /** On success, result k of sub-question j sits at position Offset(os, j) + k. */
  lemma {:induction false} CollectAt(os: seq<Result<seq<SearchResult>>>, flat: seq<SearchResult>, j: nat, k: nat)
    requires Collect(os) == Success(flat)
    requires j < |os| && k < Size(os[j])
    ensures Offset(os, j) + k < |flat| && flat[Offset(os, j) + k] == os[j].value[k]
    decreases |os|
  {
    var n := |os| - 1;
    var init := os[..n];
    var acc := Collect(init).value;
    assert flat == acc + os[n].value;
    CollectLength(init, acc);
    if j < n {
      assert os[..j] == init[..j];
      assert init[j] == os[j];
      CollectAt(init, acc, j, k);
    } else {
      assert os[..j] == init;
    }
  }

  /** Index alignment and grouping: on success, findings and citations both hold one
      entry per search result, and result k of sub-question j gives, at the same
      position Offset + k, the finding "Q: <sub-question>\nA: <content>" and the
      citation <url>, each field "" when the result lacks it. */
  lemma GatherAligned(state: GatherInput, search: SearchService, j: nat, k: nat)
    requires GatherSpec(state, search).Success?
    requires j < |state.subquestions|
    ensures search(state.subquestions[j]).Answered?
    ensures var g, os := GatherSpec(state, search).value, Outcomes(state.subquestions, search);
            |g.findings| == |g.citations| == Total(os)
    ensures var g, os, q := GatherSpec(state, search).value, Outcomes(state.subquestions, search), state.subquestions[j];
            var items := Items(search(q).body);
            k < |items| ==>
              Offset(os, j) + k < |g.findings|
              && g.findings[Offset(os, j) + k] == FindingText(q, items[k].content.GetOr(""))
              && g.citations[Offset(os, j) + k] == items[k].url.GetOr("")
  {
    var os := Outcomes(state.subquestions, search);
    var flat := Collect(os).value;
    CollectLength(os, flat);
    var q := state.subquestions[j];
    assert os[j] == SearchOutcome(q, search) && os[j].Success?;
    var items := Items(search(q).body);
    if k < |items| {
      CollectAt(os, flat, j, k);
      var i := Offset(os, j) + k;
      assert flat[i] == os[j].value[k] == NormaliseItem(q, items[k]);
    }
  }

  /** The stage raises exactly when the search of some sub-question raised, and
      with the message of the first such sub-question in order. */
  lemma GatherFailsAtFirstFailedSearch(state: GatherInput, search: SearchService)
    ensures var qs := state.subquestions;
            GatherSpec(state, search).Failure? <==> exists j :: 0 <= j < |qs| && search(qs[j]).Failed?
    ensures var qs, r := state.subquestions, GatherSpec(state, search);
            r.Failure? ==>
              exists j :: 0 <= j < |qs| && search(qs[j]).Failed? && r.error == search(qs[j]).message
                          && forall k :: 0 <= k < j ==> search(qs[k]).Answered?
  {
    var os := Outcomes(state.subquestions, search);
    CollectFailsAtFirstFailure(os);
  }
}
