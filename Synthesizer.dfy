/** The synthesizer stage (`synthesizer_node` and `detect_question_type`): one
    partial summary per finding, whatever the model does; the partial summaries
    joined and cut to 6000 characters; the topic classified; one final prompt
    chosen by that class; its completion returned as both summary and report. */
module Synthesizer {
  import opened Wrappers
  import opened Text
  import opened Completions
  import opened Gatherer

  /** `"\n\n".join(partial_summaries)[:6000]` */
  const CombinedBudget: nat := 6000

  /** What a partial summary lacking a confidence gets appended. */
  const DefaultConfidence: string := " [50%]"

  /** The per-finding prompt, before the finding. */
  const SummaryPromptHead: string :=
    "Summarize this finding in 1-3 sentences and rate confidence (0\U{2013}100).\n\n"
    + "Respond in this exact format:\n"
    + "<summary text> [XX%]\n\n"
    + "Do NOT add labels or extra text.\n\n"
    + "Finding:\n"

  /** The placeholder that stands for a partial summary whose call raised, around
      the exception message. */
  const SummaryErrorHead: string := "[Error summarizing: "
  const SummaryErrorTail: string := "] [50%]"

  function SummaryPrompt(finding: string): string {
    SummaryPromptHead + finding
  }

  /** The partial summary appended for one finding: the stripped reply when it holds
      a '%'; otherwise the stripped reply without its trailing digits, followed by
      " [50%]"; and a placeholder naming the exception when the call raised. Either
      way it carries a '%'. */
  function PartialSummary(c: Completion): (s: string)
    ensures '%' in s
  {
    match c
    case Raised(e) =>
      var s := SummaryErrorHead + e + SummaryErrorTail;
      assert s[|s| - 2] == '%';
      s
    case Reply(text) =>
      var content := Strip(text, Whitespace);
      if '%' in content then content
      else
        var s := TrimEnd(content, AsciiDigits) + DefaultConfidence;
        assert s[|s| - 2] == '%';
        s
  }

  /** A reply that already holds a '%' is kept, only stripped of outer whitespace. */
  lemma PartialSummaryKeepsRated(text: string)
    requires '%' in Strip(text, Whitespace)
    ensures PartialSummary(Reply(text)) == Strip(text, Whitespace)
  {
  }

  /** A reply without a '%' becomes a prefix of its stripped text, followed by
      " [50%]"; what the prefix leaves out is all ASCII digits, and the prefix does
      not end in one. */
  lemma PartialSummaryAddsDefault(text: string)
    requires '%' !in Strip(text, Whitespace)
    ensures var content, s := Strip(text, Whitespace), PartialSummary(Reply(text));
            |s| >= |DefaultConfidence| && s[|s| - |DefaultConfidence|..] == DefaultConfidence
            && s[..|s| - |DefaultConfidence|] <= content
            && AllIn(content[|s| - |DefaultConfidence|..], AsciiDigits)
            && (|s| > |DefaultConfidence| ==> !Strips(AsciiDigits, s[|s| - |DefaultConfidence| - 1]))
  {
    var content, s := Strip(text, Whitespace), PartialSummary(Reply(text));
    var base := TrimEnd(content, AsciiDigits);
    assert s == base + DefaultConfidence;
    assert s[..|base|] == base;
    assert s[|base|..] == DefaultConfidence;
  }

  /** A raised call leaves the exception message between fixed text, with the
      default confidence. */
  lemma PartialSummaryOfError(message: string)
    ensures var s := PartialSummary(Raised(message));
            s[..20] == "[Error summarizing: " && s[20..20 + |message|] == message
            && s[20 + |message|..] == "] [50%]"
  {
    var s := PartialSummary(Raised(message));
    assert |SummaryErrorHead| == 20;
    assert s[..20] == SummaryErrorHead;
    assert s[20..] == message + SummaryErrorTail;
  }

  /** The per-finding loop of `synthesizer_node`: exactly one partial summary per
      finding, in order, including for findings whose call raised; each carries a '%'. */
  method SummariseFindings(findings: seq<string>, model: Model) returns (partials: seq<string>)
    ensures |partials| == |findings|
    ensures forall i :: 0 <= i < |findings| ==> partials[i] == PartialSummary(model(SummaryPrompt(findings[i])))
    ensures forall i :: 0 <= i < |findings| ==> '%' in partials[i]
  {
    partials := [];
    for i := 0 to |findings|
      invariant partials == Partials(findings, model)[..i]
    {
      var response := model(SummaryPrompt(findings[i]));
      partials := partials + [PartialSummary(response)];
    }
    assert partials == Partials(findings, model);
  }

  /** The partial summaries as a function of the findings and the model. */
  function Partials(findings: seq<string>, model: Model): (ps: seq<string>)
    ensures |ps| == |findings|
  {
    seq(|findings|, i requires 0 <= i < |findings| => PartialSummary(model(SummaryPrompt(findings[i]))))
  }

  /** The text the final prompt carries: a prefix of the "\n\n"-join of the partial
      summaries, of length min(6000, length of the join). */
  function Combined(partials: seq<string>): (c: string)
    ensures c <= Join(partials, "\n\n")
    ensures |c| == if |Join(partials, "\n\n")| <= CombinedBudget then |Join(partials, "\n\n")| else CombinedBudget
  {
    Truncate(Join(partials, "\n\n"), CombinedBudget)
  }

  /** The classifier's prompt, around the topic. */
  const ClassifierPromptHead: string :=
    "Classify the following topic into one category:\n"
    + "- summary\n- comparison\n- pros_cons\n- timeline\n\n"
    + "Topic: "
  const ClassifierPromptTail: string := "\nRespond with only one category."

  function ClassifierPrompt(topic: string): string {
    ClassifierPromptHead + topic + ClassifierPromptTail
  }

  /** `response...content.strip().lower()`: as long as the stripped reply, and with
      no ASCII upper-case letter left. */
  function QuestionType(reply: string): (t: string)
    ensures |t| == |Strip(reply, Whitespace)|
    ensures forall i :: 0 <= i < |t| ==> !('A' <= t[i] <= 'Z')
  {
    Lower(Strip(reply, Whitespace))
  }

  /** `detect_question_type`: one completion call; an exception propagates. */
  function DetectQuestionType(topic: string, model: Model): (r: Result<string>)
    ensures r.Failure? <==> model(ClassifierPrompt(topic)).Raised?
    ensures r.Failure? ==> r.error == model(ClassifierPrompt(topic)).message
    ensures r.Success? ==> r.value == Lower(Strip(model(ClassifierPrompt(topic)).text, Whitespace))
  {
    match model(ClassifierPrompt(topic))
    case Raised(e) => Failure(e)
    case Reply(text) => Success(QuestionType(text))
  }

  /** Whitespace around the classifier's answer and its capitals do not matter: a
      reply that is a word padded with whitespace classifies as the lower-cased word. */
  lemma ClassifierIgnoresPaddingAndCase(topic: string, model: Model, before: string, word: string, after: string)
    requires model(ClassifierPrompt(topic)) == Reply(before + word + after)
    requires AllIn(before, Whitespace) && AllIn(after, Whitespace)
    requires word != [] ==> !IsPySpace(word[0]) && !IsPySpace(word[|word| - 1])
    ensures DetectQuestionType(topic, model) == Success(Lower(word))
  {
    StripPadded(before, word, after, Whitespace);
  }

  /** For instance, the reply "  Comparison\n" selects the comparison table. */
  lemma CapitalisedComparisonSelectsTable(topic: string, model: Model, before: string, after: string)
    requires model(ClassifierPrompt(topic)) == Reply(before + "Comparison" + after)
    requires AllIn(before, Whitespace) && AllIn(after, Whitespace)
    ensures DetectQuestionType(topic, model).Success?
    ensures StyleOf(DetectQuestionType(topic, model).value) == Table
  {
    var w := "Comparison";
    assert !IsPySpace(w[0]) && !IsPySpace(w[|w| - 1]);
    ClassifierIgnoresPaddingAndCase(topic, model, before, w, after);
    LowerComparison();
  }

  lemma LowerComparison()
    ensures Lower("Comparison") == "comparison"
  {
    var w, l := "Comparison", Lower("Comparison");
    assert l[0] == LowerChar('C') == 'c';
    assert forall i :: 1 <= i < |w| ==> 'a' <= w[i] <= 'z' && l[i] == w[i];
  }

  /** The four final prompts of `synthesizer_node`. */
  datatype ReportStyle = Table | ProsCons | Timeline | StructuredReport

  /** The `if`/`elif` chain on `q_type`: exact matches only; every other string,
      "summary" included, selects the structured report. */
  function StyleOf(qType: string): (k: ReportStyle)
    ensures k == Table <==> qType == "comparison"
    ensures k == ProsCons <==> qType == "pros_cons"
    ensures k == Timeline <==> qType == "timeline"
    ensures k == StructuredReport <==> qType != "comparison" && qType != "pros_cons" && qType != "timeline"
  {
    if qType == "comparison" then Table
    else if qType == "pros_cons" then ProsCons
    else if qType == "timeline" then Timeline
    else StructuredReport
  }

  /** The header of each final prompt; the style can be read back from it. */
  function Header(k: ReportStyle): (h: string)
    ensures |h| >= 10 && StyleOfPrompt(h) == k
  {
    match k
    case Table => "Compare and present as a table:\n\n"
    case ProsCons => "Create pros and cons list:\n\n"
    case Timeline => "Create a chronological timeline:\n\n"
    case StructuredReport => "Create a structured research report:\n\n"
  }

  /** Reads the report style back from the start of a final prompt: the headers
      differ at position 1, 7 or 9. The pipeline never does this; it is the proof
      device by which `FinalPromptDetermines` shows that the four headers are told
      apart. */
  function StyleOfPrompt(prompt: string): ReportStyle
    requires |prompt| >= 10
  {
    if prompt[1] == 'o' then Table
    else if prompt[7] == 'p' then ProsCons
    else if prompt[9] == 'c' then Timeline
    else StructuredReport
  }

  /** The final prompt: the header of the style chosen on `q_type`, followed by the
      combined text; the style can be read back from it. */
  function FinalPrompt(qType: string, combined: string): (p: string)
    ensures |p| == |Header(StyleOf(qType))| + |combined|
    ensures Header(StyleOf(qType)) <= p
    ensures StyleOfPrompt(p) == StyleOf(qType)
    ensures p[|p| - |combined|..] == combined
  {
    var h := Header(StyleOf(qType));
    var p := h + combined;
    assert p[1] == h[1] && p[7] == h[7] && p[9] == h[9];
    p
  }

  /** The final prompt gives away the choice made on `q_type`: from the prompt alone
      one recovers the report style and the combined text. */
  lemma FinalPromptDetermines(q1: string, c1: string, q2: string, c2: string)
    requires FinalPrompt(q1, c1) == FinalPrompt(q2, c2)
    ensures StyleOf(q1) == StyleOf(q2) && c1 == c2
  {
  }

  /** The prompt of the final call, for the findings and the classifier's answer. */
  function ReportPrompt(findings: seq<string>, qType: string, model: Model): string {
    FinalPrompt(qType, Combined(Partials(findings, model)))
  }

  /** The state `synthesizer_node` returns. */
  datatype SynthOutput = SynthOutput(summary: string, report: string, citations: seq<string>)

  /** What `synthesizer_node` returns or raises. Only the classification call and
      the final call can make it raise; the per-finding calls never do. On success
      summary and report are the same stripped completion and the citations pass
      through unchanged. */
  function SynthSpec(state: GatherState, model: Model): (r: Result<SynthOutput>)
    ensures var classified := model(ClassifierPrompt(state.topic));
            r.Failure? <==>
              classified.Raised?
              || model(ReportPrompt(state.findings, QuestionType(classified.text), model)).Raised?
    ensures var classified := model(ClassifierPrompt(state.topic));
            classified.Raised? ==> r == Failure(classified.message)
    ensures var classified := model(ClassifierPrompt(state.topic));
            classified.Reply? ==>
              var final := model(ReportPrompt(state.findings, QuestionType(classified.text), model));
              final.Raised? ==> r == Failure(final.message)
    ensures var classified := model(ClassifierPrompt(state.topic));
            r.Success? ==>
              classified.Reply?
              && var final := model(ReportPrompt(state.findings, QuestionType(classified.text), model));
              final.Reply? && r.value.summary == Strip(final.text, Whitespace)
              && r.value.report == r.value.summary
              && r.value.citations == state.citations
  {
    var combined := Combined(Partials(state.findings, model));
    match DetectQuestionType(state.topic, model)
    case Failure(e) => Failure(e)
    case Success(qType) =>
      match model(FinalPrompt(qType, combined))
      case Raised(e) => Failure(e)
      case Reply(text) =>
        var full := Strip(text, Whitespace);
        Success(SynthOutput(full, full, state.citations))
  }

  /** `synthesizer_node`. */
  method SynthesizerNode(state: GatherState, model: Model) returns (r: Result<SynthOutput>)
    ensures r == SynthSpec(state, model)
  {
    var partials := SummariseFindings(state.findings, model);
    assert partials == Partials(state.findings, model);
    var combined := Combined(partials);
    var classified := DetectQuestionType(state.topic, model);
    if classified.Failure? {
      return Failure(classified.error);
    }
    var response := model(FinalPrompt(classified.value, combined));
    match response {
      case Raised(e) =>
        r := Failure(e);
      case Reply(text) =>
        var full := Strip(text, Whitespace);
        r := Success(SynthOutput(full, full, state.citations));
    }
  }
}
