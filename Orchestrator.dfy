/** `run_research_agent`: the three stages run in turn, planner, gatherer,
    synthesizer, each on the previous stage's output, and the result assembled
    from their outputs. An exception in any stage propagates. */
module Orchestrator {
  import opened Wrappers
  import opened Text
  import opened Completions
  import opened Search
  import opened Planner
  import opened Gatherer
  import opened Synthesizer

  /** The dictionary `run_research_agent` returns; it has no confidence scores. */
  datatype ResearchResult = ResearchResult(topic: string, subquestions: seq<string>, findings: seq<string>,
                                           citations: seq<string>, summary: string, report: string)

  /** The gatherer's input is the planner's output, which has no `pdf_text`. */
  function GatherInputOf(plan: PlanState): GatherInput {
    GatherInput(plan.topic, plan.subquestions, None)
  }

  /** What `run_research_agent(topic, pdf_text)` returns or raises. The `pdf_text`
      argument reaches no stage, so it is not a parameter here. On success the
      result carries the topic, at most five sub-questions, findings and citations
      of equal length, and one text as both summary and report. */
  function ResearchSpec(topic: string, model: Model, search: SearchService): (r: Result<ResearchResult>)
    ensures r.Success? ==>
              r.value.topic == topic
              && |r.value.subquestions| <= MaxSubquestions
              && |r.value.findings| == |r.value.citations|
              && r.value.summary == r.value.report
    ensures model(PlannerPrompt(topic)).Raised? ==> r == Failure(model(PlannerPrompt(topic)).message)
  {
    match PlannerNode(topic, model)
    case Failure(e) => Failure(e)
    case Success(plan) =>
      assert |plan.subquestions| <= MaxSubquestions;
      match GatherSpec(GatherInputOf(plan), search)
      case Failure(e) => Failure(e)
      case Success(gathered) =>
        assert |gathered.findings| == |gathered.citations|;
        match SynthSpec(gathered, model)
        case Failure(e) => Failure(e)
        case Success(out) =>
          assert out.citations == gathered.citations && out.summary == out.report;
          Success(ResearchResult(topic, plan.subquestions, gathered.findings, out.citations,
                                 out.summary, out.report))
  }

  /** `run_research_agent`: the stages called one after the other; the progress
      messages are left out. */
  method RunResearchAgent(topic: string, pdfText: string, model: Model, search: SearchService)
    returns (r: Result<ResearchResult>)
    ensures r == ResearchSpec(topic, model, search)
  {
    var plan := PlannerNode(topic, model);
    if plan.Failure? {
      return Failure(plan.error);
    }
    var gathered := GathererNode(GatherInputOf(plan.value), search);
    if gathered.Failure? {
      return Failure(gathered.error);
    }
    var out := SynthesizerNode(gathered.value, model);
    if out.Failure? {
      return Failure(out.error);
    }
    r := Success(ResearchResult(topic, plan.value.subquestions, gathered.value.findings,
                                out.value.citations, out.value.summary, out.value.report));
  }

  /** Pass-through: on success the sub-questions are the planner's parse of its
      completion, the findings and citations are the gatherer's, the synthesizer
      having handed the citations on unchanged, and summary and report are both the
      synthesizer's stripped final reply. The gatherer saw no `pdf_text`. */
  lemma ResearchPassesThrough(topic: string, model: Model, search: SearchService)
    requires ResearchSpec(topic, model, search).Success?
    ensures var r, plan := ResearchSpec(topic, model, search).value, PlannerNode(topic, model);
            plan.Success?
            && r.subquestions == plan.value.subquestions
            && r.subquestions == ParseSubquestions(model(PlannerPrompt(topic)).text)
            && GatherSpec(GatherInputOf(plan.value), search).Success?
            && r.findings == GatherSpec(GatherInputOf(plan.value), search).value.findings
            && r.citations == GatherSpec(GatherInputOf(plan.value), search).value.citations
            && GatherSpec(GatherInputOf(plan.value), search).value.pdfText == ""
    ensures var r, plan := ResearchSpec(topic, model, search).value, PlannerNode(topic, model).value;
            var g := GatherSpec(GatherInputOf(plan), search).value;
            var classified := model(ClassifierPrompt(topic));
            SynthSpec(g, model).Success? && classified.Reply?
            && r.summary == SynthSpec(g, model).value.summary
            && r.report == r.summary
            && r.summary == Strip(model(ReportPrompt(g.findings, QuestionType(classified.text), model)).text, Whitespace)
  {
  }

  /** Where the run can raise: the planner call; else the search of some
      sub-question; else the classification call or the final report call. A
      per-finding summary call that raises never makes the run raise. The run then
      raises with the failing stage's message. */
  lemma ResearchFailsOnlyAtStageCalls(topic: string, model: Model, search: SearchService)
    requires PlannerNode(topic, model).Success?
    ensures var qs := PlannerNode(topic, model).value.subquestions;
            var g := GatherSpec(GatherInput(topic, qs, None), search);
            var classified := model(ClassifierPrompt(topic));
            ResearchSpec(topic, model, search).Failure? <==>
              (exists j :: 0 <= j < |qs| && search(qs[j]).Failed?)
              || (g.Success? && classified.Raised?)
              || (g.Success? && classified.Reply?
                  && model(ReportPrompt(g.value.findings, QuestionType(classified.text), model)).Raised?)
    ensures var qs := PlannerNode(topic, model).value.subquestions;
            var g := GatherSpec(GatherInput(topic, qs, None), search);
            g.Failure? ==> ResearchSpec(topic, model, search) == Failure(g.error)
    ensures var qs := PlannerNode(topic, model).value.subquestions;
            var g := GatherSpec(GatherInput(topic, qs, None), search);
            g.Success? && SynthSpec(g.value, model).Failure? ==>
              ResearchSpec(topic, model, search) == Failure(SynthSpec(g.value, model).error)
  {
    var plan := PlannerNode(topic, model).value;
    GatherFailsAtFirstFailedSearch(GatherInputOf(plan), search);
  }
}
