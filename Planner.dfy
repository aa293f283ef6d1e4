/** The planner stage (`planner_node`): one completion is asked for a bullet list of
    sub-questions, and its text is cut into at most five cleaned, non-blank lines. */
module Planner {
  import opened Wrappers
  import opened Text
  import opened Completions

  /** `subquestions[:5]` */
  const MaxSubquestions: nat := 5

  /** The argument of `q.strip("- ")`. */
  const BulletChars: StripChars := Chars({'-', ' '})

  /** The planner's prompt, around the topic. */
  const PlannerPromptHead: string :=
    "You are a research agent with access to Tavily's real-time web search. "
    + "Generate 3-5 sub-questions to get the **latest information** on '"
  const PlannerPromptTail: string :=
    "'. Focus on recent events and trends. Return as a bullet list starting with '-'."

  function PlannerPrompt(topic: string): string {
    PlannerPromptHead + topic + PlannerPromptTail
  }

  /** A line the comprehension's `if q.strip()` drops: nothing but whitespace. */
  predicate IsBlank(line: string) {
    Strip(line, Whitespace) == ""
  }

  /** Neither the first nor the last character is whitespace. */
  predicate HasNoOuterSpace(q: string) {
    q != [] ==> !IsPySpace(q[0]) && !IsPySpace(q[|q| - 1])
  }

  /** `q.strip("- ").strip()`: bullets and spaces off both ends, then whitespace. The
      result never begins or ends with whitespace, and may be empty (a line "-"). */
  function CleanLine(line: string): (q: string)
    ensures |q| <= |line|
    ensures HasNoOuterSpace(q)
  {
    var unbulleted := Strip(line, BulletChars);
    var q := Strip(unbulleted, Whitespace);
    assert q != [] ==> !Strips(Whitespace, q[0]) && !Strips(Whitespace, q[|q| - 1]);
    q
  }

  /** The lines of `lines` that are not blank, in their original order. */
  function NonBlankLines(lines: seq<string>): (kept: seq<string>)
    ensures |kept| <= |lines|
    ensures forall i :: 0 <= i < |kept| ==> !IsBlank(kept[i])
  {
    if |lines| == 0 then []
    else (if IsBlank(lines[0]) then [] else [lines[0]]) + NonBlankLines(lines[1..])
  }

  /** The filter keeps exactly the non-blank lines: nothing is invented, nothing
      non-blank is lost. */
  lemma {:induction false} NonBlankLinesMembers(lines: seq<string>)
    ensures forall l :: l in NonBlankLines(lines) <==> l in lines && !IsBlank(l)
    decreases |lines|
  {
    if |lines| > 0 {
      NonBlankLinesMembers(lines[1..]);
      assert lines == [lines[0]] + lines[1..];
    }
  }

  /** Every line cleaned: one entry per line, none longer than its line, none with
      outer whitespace. */
  function CleanLines(lines: seq<string>): (qs: seq<string>)
    ensures |qs| == |lines|
    ensures forall i :: 0 <= i < |qs| ==> |qs[i]| <= |lines[i]| && HasNoOuterSpace(qs[i])
  {
    seq(|lines|, i requires 0 <= i < |lines| => CleanLine(lines[i]))
  }

  /** `[q.strip("- ").strip() for q in kept][:5]` */
  function FirstSubquestions(kept: seq<string>): (qs: seq<string>)
    ensures |qs| == (if |kept| <= MaxSubquestions then |kept| else MaxSubquestions)
    ensures forall i :: 0 <= i < |qs| ==> qs[i] == CleanLine(kept[i]) && HasNoOuterSpace(qs[i])
  {
    var cleaned := CleanLines(kept);
    var qs := if |cleaned| <= MaxSubquestions then cleaned else cleaned[..MaxSubquestions];
    assert forall i :: 0 <= i < |qs| ==> qs[i] == cleaned[i] by {
      assert |qs| <= |cleaned| && qs <= cleaned;
    }
    qs
  }

  /** The parse of `planner_node`: split the completion on "\n", drop blank lines,
      clean the rest, keep the first five. Entry i is the i-th non-blank line,
      cleaned, and there are min(5, number of non-blank lines) entries. */
  function ParseSubquestions(completion: string): (qs: seq<string>)
    ensures var kept := NonBlankLines(Split(completion, '\n'));
            |qs| == (if |kept| <= MaxSubquestions then |kept| else MaxSubquestions)
            && forall i :: 0 <= i < |qs| ==> qs[i] == CleanLine(kept[i])
    ensures forall i :: 0 <= i < |qs| ==> HasNoOuterSpace(qs[i])
  {
    FirstSubquestions(NonBlankLines(Split(completion, '\n')))
  }

  /** Dropping blank lines keeps the order of the rest: it distributes over
      concatenation. */
  lemma {:induction false} NonBlankLinesAppend(a: seq<string>, b: seq<string>)
    ensures NonBlankLines(a + b) == NonBlankLines(a) + NonBlankLines(b)
    decreases |a|
  {
    if |a| > 0 {
      var head := if IsBlank(a[0]) then [] else [a[0]];
      assert (a + b)[0] == a[0] && (a + b)[1..] == a[1..] + b;
      assert NonBlankLines(a + b) == head + NonBlankLines(a[1..] + b);
      NonBlankLinesAppend(a[1..], b);
      assert NonBlankLines(a) == head + NonBlankLines(a[1..]);
    } else {
      assert a + b == b;
    }
  }

  /** The filter keeps order: a non-blank line at index i lands at the position
      given by the number of non-blank lines before it. */
  lemma NonBlankLinesKeepsOrder(lines: seq<string>, i: nat)
    requires i < |lines| && !IsBlank(lines[i])
    ensures var kept, p := NonBlankLines(lines), |NonBlankLines(lines[..i])|;
            p < |kept| && kept[p] == lines[i]
  {
    var tail := [lines[i]] + lines[i + 1..];
    assert lines == lines[..i] + tail;
    NonBlankLinesAppend(lines[..i], tail);
    assert tail[1..] == lines[i + 1..];
  }

  /** A list of blank lines keeps nothing. */
  lemma {:induction false} NonBlankLinesOfBlanks(lines: seq<string>)
    requires forall i :: 0 <= i < |lines| ==> IsBlank(lines[i])
    ensures NonBlankLines(lines) == []
    decreases |lines|
  {
    if |lines| > 0 {
      NonBlankLinesOfBlanks(lines[1..]);
    }
  }

  /** A completion written as lines joined by "\n" parses to the first five of its
      non-blank lines, cleaned. */
  lemma ParseLines(lines: seq<string>)
    requires |lines| >= 1
    requires forall i :: 0 <= i < |lines| ==> '\n' !in lines[i]
    ensures ParseSubquestions(Join(lines, "\n")) == FirstSubquestions(NonBlankLines(lines))
  {
    SplitJoin(lines, '\n');
  }

  lemma FirstSubquestionsAppend(k1: seq<string>, k2: seq<string>)
    requires |k1| >= MaxSubquestions
    ensures FirstSubquestions(k1 + k2) == FirstSubquestions(k1)
  {
    var a, b := FirstSubquestions(k1 + k2), FirstSubquestions(k1);
    assert |a| == |b|;
    forall i | 0 <= i < |a| ensures a[i] == b[i] {
      assert (k1 + k2)[i] == k1[i];
    }
  }

  /** Once five non-blank lines have been seen, later lines change nothing: the
      planner keeps the FIRST five. */
  lemma FirstFiveWin(lines: seq<string>, more: seq<string>)
    requires |lines| >= 1
    requires forall i :: 0 <= i < |lines| ==> '\n' !in lines[i]
    requires forall i :: 0 <= i < |more| ==> '\n' !in more[i]
    requires |NonBlankLines(lines)| >= MaxSubquestions
    ensures ParseSubquestions(Join(lines + more, "\n")) == ParseSubquestions(Join(lines, "\n"))
  {
    var all := lines + more;
    assert forall i :: 0 <= i < |all| ==> '\n' !in all[i] by {
      assert forall i :: |lines| <= i < |all| ==> all[i] == more[i - |lines|];
    }
    ParseLines(lines);
    ParseLines(all);
    NonBlankLinesAppend(lines, more);
    FirstSubquestionsAppend(NonBlankLines(lines), NonBlankLines(more));
  }

  /** A completion that is a single line of dashes and spaces, holding at least one
      dash, is not blank, so it yields one EMPTY sub-question (for instance "-"). */
  lemma BulletOnlyLineGivesEmptyEntry(line: string)
    requires AllIn(line, BulletChars) && '-' in line
    ensures ParseSubquestions(line) == [""]
  {
    BulletLineIsNotBlank(line);
    assert NonBlankLines([line]) == [line];
    ParseOneLine(line);
    OneEmptyEntry(line);
  }

  lemma BulletLineIsNotBlank(line: string)
    requires AllIn(line, BulletChars) && '-' in line
    ensures !IsBlank(line) && '\n' !in line
  {
    assert !Strips(Whitespace, '-');
    assert !AllIn(line, Whitespace);
    assert forall c :: c in line ==> c == '-' || c == ' ';
  }

  /** A blank completion ("", "\n", "  \n\t", ...) yields no sub-questions at all:
      every line of it is blank. */
  lemma BlankReplyGivesNoSubquestions(completion: string)
    requires IsBlank(completion)
    ensures ParseSubquestions(completion) == []
  {
    var lines := Split(completion, '\n');
    SplitKeepsAllIn(completion, '\n', Whitespace);
    NonBlankLinesOfBlanks(lines);
  }

  lemma OneEmptyEntry(line: string)
    requires AllIn(line, BulletChars)
    ensures FirstSubquestions([line]) == [""]
  {
    assert CleanLine(line) == "";
  }

  lemma ParseOneLine(line: string)
    requires '\n' !in line
    ensures ParseSubquestions(line) == FirstSubquestions(NonBlankLines([line]))
  {
    ParseLines([line]);
  }

  /** The planner's output state: the topic and its sub-questions. */
  datatype PlanState = PlanState(topic: string, subquestions: seq<string>)

  /** `planner_node`: one completion call; an exception from it propagates. */
  function PlannerNode(topic: string, model: Model): (r: Result<PlanState>)
    ensures r.Failure? <==> model(PlannerPrompt(topic)).Raised?
    ensures r.Failure? ==> r.error == model(PlannerPrompt(topic)).message
    ensures r.Success? ==> r.value.topic == topic
                           && r.value.subquestions == ParseSubquestions(model(PlannerPrompt(topic)).text)
                           && |r.value.subquestions| <= MaxSubquestions
  {
    match model(PlannerPrompt(topic))
    case Raised(e) => Failure(e)
    case Reply(text) => Success(PlanState(topic, ParseSubquestions(text)))
  }
}
