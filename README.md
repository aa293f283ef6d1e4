# Research agent pipeline: a verified model

This project models the research pipeline of `langgraph_graph.py`:

- `planner_node` asks the language model for sub-questions and parses its reply.
- `tavily_search` turns a web-search response into result records.
- `gatherer_node` searches every sub-question and lays the results out as findings and citations.
- `synthesizer_node` summarises each finding, classifies the topic (`detect_question_type`) and asks for one final report.
- `run_research_agent` chains the three stages and assembles the result.

The language model and the search service are parameters. `Completions.Model` maps a prompt to a completion text, or to the exception the client call raised. `Search.SearchService` maps a query to a decoded response body, or to the exception the POST raised. Everything the pipeline does around those calls is modelled as written: the string handling, the loops, the prompt texts and the error propagation.

Modules, in pipeline order:

- `Text`: the Python string operations the pipeline uses.
  - `strip()` with no argument (whitespace is `str.isspace`).
  - `strip(chars)` and `rstrip(chars)`.
  - `split("\n")`, `"\n\n".join`, the slice `[:n]`, and `lower()`.
- `Completions`: the model as a parameter.
- `Planner`: `planner_node` and its sub-question parser.
- `Search`: `tavily_search` after the HTTP exchange.
- `Gatherer`: `gatherer_node`. The concurrent map becomes a sequential map in sub-question order, which is the order `executor.map` yields.
- `Synthesizer`: `synthesizer_node` and `detect_question_type`.
- `Orchestrator`: `run_research_agent`.

Each loop in the source is a method proved equal to a specification function:

- `Search.NormaliseResults`, the results loop;
- `Gatherer.GathererNode`, the fan-out and the nested append loop;
- `Synthesizer.SummariseFindings`, the per-finding loop.

The stage methods built on them are `Search.TavilySearch`, `Synthesizer.SynthesizerNode` and `Orchestrator.RunResearchAgent`. The properties are lemmas about those specification functions.

Facts about the code that the model keeps as they are:

- There is no replanning. Sparse search results are not detected and no stage runs twice.
- No confidence scores are computed or returned. `confidence_scores` is declared in the state type and never set. A partial summary only carries a "%" somewhere in its text.
- A sub-question can be empty, for example from a reply line that is just "-". A reply can also yield no sub-questions at all.
- Findings and citations come in sub-question order, not in the order the searches complete.
- The `pdf_text` argument of `run_research_agent` reaches no stage. The planner's output has no `pdf_text`, so the gatherer keeps "". The synthesizer never reads it.

## Model

| member | source | states |
|---|---|---|
| Text.Strip | langgraph_graph.py:58 | `s.strip(chars)` has neither end in the stripped set, and is empty exactly when every character of `s` is in the set |
| Text.StripIsInfix | langgraph_graph.py:58 | what `strip` keeps is a contiguous piece of `s`, with only stripped characters before and after it |
| Text.StripPadded | langgraph_graph.py:41 | `strip` undoes padding: a text with unstripped ends, padded with stripped characters on both sides, strips back to itself |
| Text.TrimEnd | langgraph_graph.py:139 | `rstrip(chars)` keeps a prefix whose removed tail is all in the set and whose last character is not |
| Text.Split | langgraph_graph.py:57 | `split("\n")` always yields at least one piece, and no piece contains the separator |
| Text.SplitKeepsAllIn | langgraph_graph.py:57 | every piece of a split is made of characters of the text |
| Text.Join | langgraph_graph.py:146 | `sep.join` of no parts is ""; otherwise it starts with the first part, followed by the separator when there are more |
| Text.JoinSplit | langgraph_graph.py:57 | joining the pieces of a split with the separator gives back the text |
| Text.SplitJoin | langgraph_graph.py:57 | splitting a join of separator-free pieces gives back the pieces |
| Text.Truncate | langgraph_graph.py:112 | `s[:n]` is a prefix of `s` of length min(n, len(s)) |
| Text.Lower | langgraph_graph.py:41 | `lower()` keeps the length and maps 'A'..'Z' to 'a'..'z' position by position, leaving other ASCII unchanged |
| Planner.CleanLine | langgraph_graph.py:58 | `q.strip("- ").strip()` is no longer than the line and has no outer whitespace |
| Planner.CleanLines | langgraph_graph.py:58 | the comprehension cleans every line: one entry per line, none longer than its line, none with outer whitespace |
| Planner.NonBlankLines | langgraph_graph.py:58 | the filter `if q.strip()` keeps no more lines than it is given, and none of them blank |
| Planner.NonBlankLinesMembers | langgraph_graph.py:58 | a line is kept exactly when it is one of the lines and is not blank |
| Planner.NonBlankLinesKeepsOrder | langgraph_graph.py:58 | a non-blank line at index i is kept at the position given by the number of non-blank lines before it, so the order is kept |
| Planner.NonBlankLinesAppend | langgraph_graph.py:58 | the blank-line filter distributes over concatenation of line lists |
| Planner.NonBlankLinesOfBlanks | langgraph_graph.py:58 | a list of blank lines keeps nothing |
| Planner.FirstSubquestions | langgraph_graph.py:59 | `[:5]` of the cleaned lines has min(5, n) entries, entry i being the cleaned line i |
| Planner.ParseSubquestions | langgraph_graph.py:57-59 | the sub-questions are the first at most 5 non-blank lines of the reply, each cleaned, in line order, with no outer whitespace |
| Planner.ParseLines | langgraph_graph.py:57-59 | parsing a reply built from lines is the first five cleaned non-blank lines of those lines |
| Planner.FirstFiveWin | langgraph_graph.py:59 | once 5 non-blank lines have appeared, anything the model writes after them changes nothing |
| Planner.BulletOnlyLineGivesEmptyEntry | langgraph_graph.py:58 | a reply line of dashes and spaces survives the blank filter and becomes an empty sub-question |
| Planner.BlankReplyGivesNoSubquestions | langgraph_graph.py:57-59 | any blank reply, with or without newlines, yields no sub-questions |
| Planner.PlannerNode | langgraph_graph.py:46-59 | the planner fails exactly when its completion call raises, with that message; otherwise it returns the topic and the parsed reply, at most 5 sub-questions |
| Search.Items | langgraph_graph.py:80 | an absent `results` key yields no items |
| Search.Normalised | langgraph_graph.py:79-87 | one record per item |
| Search.NormaliseResults | langgraph_graph.py:79-87 | one record per item, in item order, each tagged with the query, with each absent title, url or content as "" |
| Search.SearchOutcome | langgraph_graph.py:64-87 | the search fails exactly when the service raised, with its message; otherwise it returns the normalised records |
| Search.TavilySearch | langgraph_graph.py:64-87 | computes the search outcome above |
| Gatherer.Outcomes | langgraph_graph.py:100 | the mapped searches, one per sub-question in order; entry j failed exactly when the search of sub-question j raised |
| Gatherer.Collect | langgraph_graph.py:99-102 | consuming the mapped results in order; on success it holds as many results as all the groups together |
| Gatherer.Findings | langgraph_graph.py:104 | one finding per result, in order, each starting "Q: " + its question + "\nA: " |
| Gatherer.Citations | langgraph_graph.py:105 | one citation per result, in order |
| Gatherer.GatherSpec | langgraph_graph.py:92-113 | on success, topic and sub-questions pass through, findings and citations have equal length, and `pdf_text` is the prefix of min(6000, len) of the input's, or "" when absent |
| Gatherer.GathererNode | langgraph_graph.py:92-113 | the fan-out and nested append loop compute the gatherer specification |
| Gatherer.CollectStopsAtFailure | langgraph_graph.py:102 | once a search in the sequence raised, later searches do not matter |
| Gatherer.CollectFailsAtFirstFailure | langgraph_graph.py:99-102 | consuming the mapped results fails exactly when some search raised, with the message of the first in order, all earlier ones having answered |
| Gatherer.CollectLength | langgraph_graph.py:102-105 | on success every search answered, and the collected list is as long as all result groups together |
| Gatherer.CollectAt | langgraph_graph.py:102-105 | result k of sub-question j sits at position Offset(j) + k, so the results stay grouped by sub-question in sub-question order |
| Gatherer.GatherAligned | langgraph_graph.py:102-105 | findings and citations both have one entry per search result; at the same index they hold "Q: question\nA: content" and the url of the same result |
| Gatherer.GatherFailsAtFirstFailedSearch | langgraph_graph.py:99-105 | the gatherer raises exactly when the search of some sub-question raised, with the message of the first such sub-question |
| Synthesizer.PartialSummary | langgraph_graph.py:135-144 | the partial summary for one finding, from a reply or a raised call; it always contains '%' |
| Synthesizer.PartialSummaryKeepsRated | langgraph_graph.py:135-141 | a reply that contains '%' is kept, only stripped |
| Synthesizer.PartialSummaryAddsDefault | langgraph_graph.py:137-139 | a reply without '%' becomes a prefix of the stripped reply, whose removed tail is all digits and which does not end in one, followed by " [50%]" |
| Synthesizer.PartialSummaryOfError | langgraph_graph.py:143-144 | a raised call gives "[Error summarizing: " + message + "] [50%]" |
| Synthesizer.SummariseFindings | langgraph_graph.py:122-144 | exactly one partial summary per finding, in finding order, including for calls that raised; every one contains '%' |
| Synthesizer.Combined | langgraph_graph.py:146 | the combined text is the prefix of the "\n\n"-join of the partial summaries of length min(6000, length of the join) |
| Synthesizer.QuestionType | langgraph_graph.py:41 | `strip().lower()` is as long as the stripped reply and has no ASCII upper-case letter left |
| Synthesizer.DetectQuestionType | langgraph_graph.py:31-41 | classification fails exactly when its call raises, with that message; otherwise it returns the stripped, lower-cased reply |
| Synthesizer.ClassifierIgnoresPaddingAndCase | langgraph_graph.py:41 | a classifier reply that is a word padded with whitespace classifies as the lower-cased word |
| Synthesizer.CapitalisedComparisonSelectsTable | langgraph_graph.py:41-151 | a reply "Comparison" with any whitespace around it selects the comparison-table prompt |
| Synthesizer.StyleOf | langgraph_graph.py:150-157 | the table, pros/cons and timeline prompts are chosen by exact match of "comparison", "pros_cons" and "timeline"; any other string, "summary" included, chooses the structured report |
| Synthesizer.Header | langgraph_graph.py:150-157 | each of the four prompt headers identifies its style |
| Synthesizer.FinalPrompt | langgraph_graph.py:150-157 | the final prompt is that style's header followed by the combined text, and the chosen style can be read back from it |
| Synthesizer.FinalPromptDetermines | langgraph_graph.py:150-157 | two final prompts are equal only if they chose the same style over the same combined text |
| Synthesizer.SynthSpec | langgraph_graph.py:118-169 | the synthesizer raises exactly when the classification call or the final call raises, with that call's message, never because of a per-finding call; on success summary and report are both the stripped reply to the final prompt chosen by the classifier's answer, and citations pass through |
| Synthesizer.SynthesizerNode | langgraph_graph.py:118-169 | the per-finding loop, join, dispatch and final call compute the synthesizer specification |
| Orchestrator.ResearchSpec | langgraph_graph.py:174-194 | a planner call that raises makes the run raise with its message; on success the result has the topic, at most 5 sub-questions, equally long findings and citations, and summary equal to report |
| Orchestrator.RunResearchAgent | langgraph_graph.py:174-194 | the stages run in order on each other's outputs and compute the run specification, whatever `pdf_text` is |
| Orchestrator.ResearchPassesThrough | langgraph_graph.py:187-194 | the result carries the planner's sub-questions, the gatherer's findings and citations, and as summary and report the synthesizer's stripped final reply; the gatherer saw no `pdf_text` |
| Orchestrator.ResearchFailsOnlyAtStageCalls | langgraph_graph.py:176-184 | after planning, the run raises exactly when a sub-question's search raised, or the classification or the final call raised, and then with the failing stage's message |

## Left out

- The Groq completion calls (langgraph_graph.py:37-41, 53-56, 131-135, 159-163) and the Tavily POST with its headers, body and timeout (langgraph_graph.py:65-78) are external services. Their replies or exceptions are the parameters `Model` and `SearchService`. JSON decoding is part of the search service.
- Because the services are functions, two identical prompts in one run get the same reply. The real model may answer them differently. No property here relies on two calls with the same prompt.
- The thread pool (langgraph_graph.py:99-100) is modelled as a sequential map in sub-question order. With concurrency only latency changes, and `executor.map` yields in input order. The model, like the source, runs every search before any result is consumed. What it leaves out is the timing of those calls and any side effects they have.
- The Streamlit progress messages (langgraph_graph.py:175-185) and all of `main.py` are presentation: `main.py` is not part of this model.
- Loading credentials and creating the client (langgraph_graph.py:11-12, 65) are environment set-up.
- The imported LangGraph `StateGraph` is never used by the code: no graph is built, so there is none to model.
- Search item fields are `Option<string>`, where `None` means an absent key. A JSON `null` or a non-string value, and items that are not objects, are not modelled.
- A completion whose content is `None` (which would make `.strip()` raise) is not modelled: a reply always carries a string.
- A Python `str` can hold lone surrogate code points, for instance from a JSON `"\ud800"` escape in search content. A Dafny `string` holds Unicode scalar values only, so such strings cannot be represented.
- An exception is modelled by its message only, that is `str(e)`. Exception types are not modelled.
- Text.Lower: lower-cases 'A'..'Z' and KELVIN SIGN (to 'k') and leaves every other character unchanged. Python also lower-cases other non-ASCII letters, and turns U+0130 into "i" followed by U+0307. Each such result contains a non-ASCII character, in the model and in Python alike, so the exact matches against "comparison", "pros_cons" and "timeline" decide as in Python.
- Replanning and per-finding confidence scores do not exist in the code and are not modelled.
