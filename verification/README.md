# Browser agent bookkeeping, modelled in Dafny

Browser_AI_agent is an LLM-driven browser agent. Each step of its control loop does five things:

1. It takes an observation of the current page: the URL, the title, the truncated body text, a capped table of clickable elements and a capped table of input fields.
2. It shows that observation and a short digest of the previous steps to a language model.
3. It executes the first tool call of the model's reply through a dispatcher with a confirmation gate.
4. It records the step in a bounded memory.
5. It stops when a tool result carries the `TASK_FINISHED:` sentinel, or when the step budget runs out.

This project models that bookkeeping. It leaves out the browser engine and the model itself:

* `Browser`: the `BrowserController` of browser_controller.py.
  * Every Playwright query becomes a value in a `PageSnapshot`: the open pages, and the elements each locator would enumerate, in DOM order, together with what each per-element query returns.
  * What the controller does to a page (navigate, click, fill, press) is appended to a ghost log `actions`.
  * A failing browser call is given as the message of the exception it would raise.
  * The list-building loops of `get_observation` are methods with loop invariants. They are proved against the functions `Collected`, `ClickablesOf` and `InputsOf`.
* `Tools`: tools.py.
  * `is_potentially_destructive` is the substring predicate.
  * `get_tool_schemas` is the six-tool vocabulary.
  * `execute_tool` is the gate, the dispatch over the six names and the wrapping of every exception into an `ERROR executing …` result. The operator's answer and the browser's failure are parameters.
* `Memory`: the `ConversationMemory` of memory.py, a FIFO window over every step ever added, with its numbered digest.
* `Agent`: `AutonomousAgent.run` of agent.py.
  * The model is given as one `StepWorld` per step. A `StepWorld` holds the page snapshot, the model's response, the operator's answer and the browser fault.
  * The loop is proved against a three-state outcome `Phase`: running, finished at a step, or exhausted.
  * The observation text of agent.py:96-120 is rendered by loops proved against `ObservationText`.
* `Config`: the constants of config.py are fields of a `Config` value that every operation takes as a parameter. `Shipped` holds the shipped values.
* `Json` and `Text`: the parts of Python's `str`, `repr`, `json.loads` dicts and f-strings that the above relies on.

Several behaviours of the code are modelled as written, and lemmas state them:

* The truncation marker is the three code points the source literally holds (`TruncateBody`).
* An overlay's clickables are enumerated again by the whole-page pass, and the overlay record's `nth` counts from the overlay root while its selector is page-wide (`OverlayElementsRecordedTwice`).
* `type_into_input_index` addresses the dense table ordinal and not the raw DOM position (`InputOrdinalVersusRawPosition`, `TypeIndexUsesDenseOrdinal`).
* An index compares with Python's `<`: a boolean counts as 0 or 1, any other non-integer raises `TypeError`, and the `IndexError` message shows the value as passed (`BooleanIndexShownAsGiven`).
* A zero memory cap keeps every step, because `steps[-0:]` is the whole list (`ZeroCapKeepsEverything`).
* The shipped sensitive words never gate any of the six real tool names (`ShippedWordsNeverGateTools`).

## Model

| member | source | states |
|---|---|---|
| Browser.OpenPages | browser_controller.py:25 | the filtered page list is no longer than the context's list and holds only pages that are not closed |
| Browser.OpenPagesEmpty | browser_controller.py:25-30 | the filtered list is empty exactly when every page of the context is closed |
| Browser.OpenPagesLast | browser_controller.py:25-32 | the last entry of a non-empty filtered list is an open page after which every page is closed |
| Browser.LatestPageIsLastOpen | browser_controller.py:23-34 | the page selected is the id of the last open page; the current page is kept when enumeration raises or every page is closed |
| Browser.BrowserController.SyncToLatestPage | browser_controller.py:23-34 | `page` becomes `LatestPage` of the old page and the enumeration; nothing else changes |
| Browser.TruncateBody | browser_controller.py:95-97 | the text is kept when it fits the limit; otherwise the result is the first `limit` characters followed by the marker; both directions of "cut iff too long"; length at most limit plus the marker |
| Browser.Collected | browser_controller.py:111-150 | one pass adds at most the room left under the cap, and numbers its records densely from the existing count |
| Browser.AddClickables | browser_controller.py:101-150 | the `add_clickables` loop, which breaks when the table is full and skips elements not shown, appends exactly `Collected` of its root's candidates |
| Browser.DisplayTextFallback | browser_controller.py:121-129 | a record's text is the stripped inner text when that is non-empty; otherwise the stripped `aria-label` when present and non-empty, else the stripped `title` when present and non-empty, else empty; it never begins or ends with whitespace |
| Browser.CollectedKeepsVisible | browser_controller.py:111-150 | every record comes from a candidate whose visibility check succeeded with true; it records that candidate's raw position under its root as `nth`, its text fallback cut to 120 characters, its href and its tag |
| Browser.CollectedInDomOrder | browser_controller.py:111-114 | the records of one pass are in increasing raw position |
| Browser.CollectedMissesNoneUnlessCapped | browser_controller.py:111-119 | a pass that ends below the cap has a record for every visible candidate |
| Browser.CollectedIsFirstVisible | browser_controller.py:111-119 | a pass that breaks at the cap kept the first visible candidates in DOM order: a visible candidate before a recorded one was itself recorded earlier in the pass |
| Browser.ClickablesOf | browser_controller.py:152-163 | the clickable table holds at most `MAX_ELEMENTS` entries, whose `index` fields are exactly 0..n-1 |
| Browser.OverlayElementsRecordedTwice | browser_controller.py:152-159 | when the table has room, a shown element at position p of the overlay and q of the page gets two records: one in the overlay pass with `nth` p and one in the page pass with `nth` q, both carrying the page-wide selector |
| Browser.CollectClickables | browser_controller.py:152-159 | the overlay pass runs first, then the whole-page pass only while room is left; the result is `ClickablesOf` |
| Browser.Reindex | browser_controller.py:161-162 | entry k gets index k and is otherwise unchanged; on a densely indexed table the loop changes nothing |
| Browser.InspectInput | browser_controller.py:173-205 | one input makes the pass raise exactly when a read of it fails; it is kept exactly when it is listed (a failed visibility check does not skip it) and does not raise; a kept input's placeholder, name and label are cut to 120 characters |
| Browser.InputsOf | browser_controller.py:167-207 | the input table holds at most `MAX_INPUT_ELEMENTS` entries, indexed densely from 0 |
| Browser.CollectInputs | browser_controller.py:167-207 | the input loop scans the first `min(count, MAX_INPUT_ELEMENTS)` inputs and yields exactly `InputsOf`, including the empty table when the pass raises |
| Browser.InputsOfFailure | browser_controller.py:168-207 | a failing count, or a failing read among the scanned inputs, empties the input table |
| Browser.InputsOfSound | browser_controller.py:170-205 | otherwise every entry describes a scanned input that is listed: not of type hidden, submit, button or image after lower-casing, and not reported invisible |
| Browser.InputsOfComplete | browser_controller.py:170-205 | and every listed scanned input has an entry |
| Browser.InputOrdinalVersusRawPosition | browser_controller.py:62-67 | entry k describes raw input `ps[k] >= k`; `type_into_input_index(k)` addresses raw input k, and the two agree exactly when no earlier input was left out |
| Browser.Observe | browser_controller.py:78-217 | an observation's body text, clickable table and input table respect their caps and are densely indexed; a failing URL read gives `about:blank` |
| Browser.BrowserController.GetObservation | browser_controller.py:78-217 | it returns `Observe` of the snapshot, syncs to the latest page, and replaces both tables wholesale with the observation's |
| Browser.BrowserController.constructor | browser_controller.py:15-21 | the controller starts on the given page with empty clickable and input tables, an empty page log and no observation taken |
| Browser.ClickEffect | browser_controller.py:40-47 | no click is issued exactly when the index is not in range; a value that does not compare with `int` raises `TypeError`; an integer or boolean out of range raises `IndexError` whose message shows the value as passed; otherwise exactly one click at the recorded selector and `nth`, with the status of that click |
| Browser.BrowserController.ClickByElementIndex | browser_controller.py:40-48 | the status and the page log are those of `ClickEffect` on the current table: `TypeError` for a non-numeric index, `IndexError` out of range, else one click |
| Browser.TypeIndexEffect | browser_controller.py:62-73 | nothing is filled exactly when the index is not in range; `TypeError` for a value that does not compare with `int`, `IndexError` showing the value as passed when out of range; otherwise one fill of `input, textarea` at the entry's recorded index |
| Browser.BrowserController.TypeIntoInputIndex | browser_controller.py:62-75 | on a controller whose two tables are densely indexed, the status and the page log are those of `TypeIndexEffect`; an in-range index i fills raw input i of `input, textarea` |
| Browser.TypeIndexUsesDenseOrdinal | browser_controller.py:66-67 | on an observed table, an in-range index fills the raw ordinal equal to the index given |
| Browser.BrowserController.Goto | browser_controller.py:37-38 | one navigation is logged; the status is the given fault |
| Browser.BrowserController.TypeText | browser_controller.py:51-57 | one fill of the selector's first match is logged, with the Enter flag |
| Browser.BrowserController.PressKey | browser_controller.py:59-60 | one key press is logged |
| Tools.AnyContained | tools.py:11 | true exactly when some word of the list occurs in the name |
| Tools.IsPotentiallyDestructive | tools.py:6-11 | false for `finish_task`; otherwise true exactly when the lower-cased name contains a sensitive word; the arguments play no part |
| Tools.FinishTaskAlwaysCleared | tools.py:7-8 | `finish_task` always passes the gate, whatever the words and the answer |
| Tools.ShippedWordsMiss | tools.py:6-11 | a lower-case ASCII name that lacks one letter of each Latin sensitive word is never gated by the shipped words |
| Tools.NavigateNameMisses | tools.py:6-11 | `navigate` is never gated with the shipped words |
| Tools.ClickElementNameMisses | tools.py:6-11 | `click_element` is never gated with the shipped words |
| Tools.PressKeyNameMisses | tools.py:6-11 | `press_key` is never gated with the shipped words |
| Tools.SelectorToolNameMisses | tools.py:6-11 | `type_into_selector` is never gated with the shipped words |
| Tools.InputIndexToolNameMisses | tools.py:6-11 | `type_into_input_index` is never gated with the shipped words |
| Tools.ShippedWordsNeverGateTools | tools.py:6-11 | no name of the six-tool vocabulary is gated with the shipped words, whatever the arguments |
| Tools.InventedNameIsGated | tools.py:10-11 | a lower-case name outside the vocabulary that begins with `delete` is gated with the shipped words |
| Tools.BlankDeniesAffirmativesApprove | tools.py:148-152 | a blank answer denies; `Y`, `Yes`, `YES`, `Д`, `Да` and `ДА` (after stripping) approve |
| Tools.ToolSchemas | tools.py:16-141 | exactly six descriptors, named as the vocabulary in order; every required parameter is declared |
| Tools.Attempt | tools.py:155-195 | the body of the `try` performs at most one interaction, none for `finish_task` or a name outside the vocabulary; an unknown name returns `Unknown tool <name>` |
| Tools.Dispatch | tools.py:147-198 | a call the gate stops is denied with no interaction; an interaction happens only for a cleared call of a vocabulary tool other than `finish_task` |
| Tools.TryTool | tools.py:155-198 | the `try` block returns the outcome of `Attempt` and appends exactly its interactions to the browser log |
| Tools.ExecuteTool | tools.py:144-198 | the result and the interactions are those of `Dispatch` under the gate's decision from the answer |
| Tools.DenialTouchesNothing | tools.py:147-153 | a call the gate stops returns exactly `User denied destructive action.` and performs no interaction |
| Tools.PassedGate | tools.py:155-198 | a call the gate lets through reports how its attempt ended and performs that attempt's interactions |
| Tools.AttemptLead | tools.py:156-195 | a call that does not raise returns a text that begins with its tool's fixed lead |
| Tools.LeadVersusSentinel | tools.py:156-195 | of all the leads, only `finish_task`'s begins with the sentinel |
| Tools.SentinelOnlyFromFinish | tools.py:153-198 | a result starts with `TASK_FINISHED:` exactly when the tool is `finish_task` and a summary is given |
| Tools.FinishTaskResult | tools.py:191-192 | `finish_task` with summary s returns `TASK_FINISHED: ` followed by s and performs no interaction |
| Tools.ErrorsBecomeResults | tools.py:155-198 | every exception in the dispatch, from the browser or from a missing or ill-typed argument, becomes `ERROR executing <name>: <message>` with the attempt's interactions; a result has that prefix only then |
| Tools.UnknownToolReported | tools.py:194-195 | once the gate clears it, an unknown name returns `Unknown tool <name>` and touches no page |
| Tools.AtMostOneInteraction | tools.py:155-198 | a dispatch performs at most one interaction, and none for `finish_task` or an unknown name |
| Tools.ClickElementResult | tools.py:160-162 | once the gate clears it, `click_element(v)` in range clicks the recorded element once and returns `Clicked element with index v` with v shown as passed; out of range it returns the wrapped `IndexError`, and for a non-numeric v the wrapped `TypeError`, clicking nothing |
| Tools.BooleanIndexShownAsGiven | tools.py:160-162 | `click_element(True)` on an empty table reports `Element index True is out of range`, which differs from the message for index 1 |
| Tools.PressEnterDefaultsToFalse | tools.py:164-185 | without `press_enter` the typing tools fill without pressing Enter |
| Memory.ConversationMemory.constructor | memory.py:5-7 | the cap is the one given and the buffer starts empty |
| Memory.ConversationMemory.AddStep | memory.py:9-21 | the step appended keeps only the URL, the title, the action as given and the first 200 characters of the result; the oldest steps are evicted to the cap; the buffer stays `Retained` of the whole history |
| Memory.RetainedIsLastWindow | memory.py:10-21 | with a cap of at least one, the buffer holds the last `max_steps` steps added (all of them while fewer), in the order they were added |
| Memory.EvictDropsOldest | memory.py:20-21 | one step over a positive cap, eviction drops exactly the oldest step |
| Memory.RetainedWithinCap | memory.py:20-21 | with a cap of at least one, the buffer never holds more than the cap, and is full once that many steps were added |
| Memory.ZeroCapKeepsEverything | memory.py:20-21 | with a cap of zero every step is kept |
| Memory.NegativeCapKeepsNothing | memory.py:20-21 | with a negative cap the buffer is always empty |
| Memory.LineShowsNumberAndUrl | memory.py:28-31 | the k-th line of the digest begins `Step k+1: URL=` followed by the k-th stored step's URL |
| Memory.ConversationMemory.AsText | memory.py:23-33 | `as_text` returns the digest of the stored steps |
| Memory.DigestPlaceholderOnlyWhenEmpty | memory.py:24-25 | the digest is `no previous steps yet` exactly when no step is stored |
| Memory.ActionReprIsOneLine | memory.py:31 | the repr of an action dict holds no line break |
| Memory.StepLineIsOneLine | memory.py:29-32 | a step's line holds no line break when its URL and result hold none |
| Memory.DigestHasOneLinePerStep | memory.py:27-33 | when steps are stored and no stored URL or result holds a line break, splitting the digest at line breaks gives back one line per stored step, numbered from 1 in stored order |
| Agent.AppendClickables | agent.py:107-111 | the clickable loop appends one line per clickable, in list order |
| Agent.AppendInputs | agent.py:113-120 | the input loop appends one line per input, in list order |
| Agent.RenderObservation | agent.py:96-120 | the observation message is the header, then the clickable lines, then the input heading and the input lines |
| Agent.RenderedClickableIndexIsPosition | agent.py:107-111 | on a densely indexed table the k-th clickable line begins `  [k] <tag`: the index shown is the one `click_element` resolves |
| Agent.RenderedInputIndexIsPosition | agent.py:114-120 | the k-th input line begins `  [k] type=<type>` |
| Agent.EndingWith | agent.py:92-180 | a run that reaches a step can only finish at that step or a later one within the budget |
| Agent.Ending | agent.py:92-182 | a finished run finished at a step within the budget |
| Agent.AutonomousAgent.constructor | agent.py:12-15 | the agent keeps the browser and a new empty memory of 10 steps |
| Agent.Transcript | agent.py:92-175 | the messages of steps 1..n: for each step the rendered observation with that step's memory digest, the assistant message, and the tool message when a call ran; two per step plus one per memory entry |
| Agent.AutonomousAgent.TakeStep | agent.py:93-175 | the browser syncs to the latest page and holds the observation's tables; the messages appended are exactly the observation text over the digest of the memory before the step, the assistant message, and the tool message with the executed result when a tool ran; the page log and the memory grow by exactly that step's interactions and entries |
| Agent.AutonomousAgent.RunStep | agent.py:92-180 | after step s the messages are the start followed by `Transcript` of steps 1..s; the page log and the memory history are those of steps 1..s; the browser is on `PageAfter` of steps 1..s and holds the clickable and input tables of step s's observation; the loop stops at s exactly when the run ends there |
| Agent.AutonomousAgent.Run | agent.py:76-182 | `run` ends in `Ending(world)`, having taken one observation per step up to the finishing step or the budget; the messages are the system prompt, the task message, then `Transcript` of the steps taken; the browser log and the memory are those of those steps; the browser is on `PageAfter` of the steps taken; the report is the finishing step's result |
| Agent.PageAfterWasOpen | agent.py:93 | after any number of steps (so after the run) the browser is on the page it started on, or on a page some step's enumeration listed as open |
| Agent.SentinelMeansFinish | agent.py:159-177 | an executed call's result starts with the sentinel exactly when the response's first call is `finish_task` with a summary |
| Agent.FinishesIffSentinel | agent.py:149-177 | a step's loop test fires exactly when its response finishes |
| Agent.EndingWithFinishes | agent.py:92-182 | from any step on, a run never stays running, and finishes exactly when some remaining step finishes |
| Agent.EndingWithIsFirstFinish | agent.py:177-180 | it stops at the first finishing step from there on |
| Agent.RunEndsAtFirstFinish | agent.py:92-182 | a run finishes exactly when some step finishes, at the first such step; its report is that step's tool result and carries the sentinel; otherwise it is exhausted |
| Agent.OnlyFirstCallCounts | agent.py:154-159 | calls after the first in a response change neither the dispatch nor the memory entry |
| Agent.ExecutedAtMostOne | agent.py:154-159 | an executed call performs at most one page interaction |
| Agent.StepActionsAtMostOne | agent.py:149-159 | a step performs at most one page interaction |
| Agent.AtMostOneEntryPerStep | agent.py:149-166 | n steps add at most n memory entries |
| Agent.AtMostOneInteractionPerStep | agent.py:149-159 | n steps perform at most n page interactions |
| Agent.SilentStepChangesNothing | agent.py:149-152 | a response without tool calls adds no memory entry and touches no page |
| Agent.EntryRecordsCall | agent.py:162-166 | a memory entry records the first call's name and arguments and the first 200 characters of its result: the whole result when it is at most 200 characters, otherwise a prefix of exactly 200 |

## Left out

- Playwright itself is not modelled: launching, timeouts, `wait_for_timeout`, and the effect of clicking, filling, typing and pressing on the page. The controller's calls are logged in the ghost `actions`, and a failing call's exception message is the `fault` parameter.
- Browser.Candidate: the reads of `href`, `aria-label` and `title` are not modelled as able to raise. In the source such an exception in the overlay pass would be swallowed after a partial pass, and in the page pass it would escape `get_observation`.
- BeautifulSoup's `stripped_strings` extraction is not modelled. The joined page text is an input string of the snapshot.
- The OpenAI client and `_make_model_call` are not modelled. The model's replies are the `response` of each `StepWorld`.
- `json.loads` of the arguments is not modelled. Arguments arrive decoded, as an ordered list of key/value pairs whose last duplicate wins.
- A malformed argument string, which makes `json.loads` raise out of `run` and end the loop with an exception, is not represented: every modelled step has decoded arguments.
- Json.Value: argument values are limited to strings, integers, booleans and null. Floats, lists and nested objects are not modelled.
- The system prompt is not modelled; it is the `prompt` parameter of `Run`. `get_tool_schemas` keeps only names, parameter types and required lists, not the descriptions and not the `"default": False` declared for `press_enter`.
- Console `input()` and `print` are not modelled. The operator's answer is a parameter. Run returns the finishing result as `report` instead of printing it.
- main.py and login_yandex_eda.py are not part of this model. They only set up and tear down the browser.
- config.py's environment loading is not modelled. The numeric limits and the word list are fields of `Config`.
- Text.Lower: `str.lower` is modelled for ASCII and Cyrillic capitals only, which covers the sensitive words, the tool names and the input types.
- Text.IsSpace: `strip()` is modelled over the characters Python's `isspace` accepts, written out as a fixed table.
- Json.StrRepr: `repr` escapes only ASCII control characters; Python's escaping of non-printable non-ASCII characters is not modelled.
- Agent.AutonomousAgent.Run: the outside world is supplied as exactly one `StepWorld` per budgeted step. Worlds for steps after the finishing step are never consulted.
- Agent.AutonomousAgent.Run: does not state the clickable and input tables the browser holds when the run ends. `RunStep` states them for every step: they are those of that step's observation. Carrying them through the loop made the proof of `Run` too costly for the verifier.
- Agent.RenderedClickableIndexIsPosition: states the rendered line's prefix up to the tag, not the `>` after it.
