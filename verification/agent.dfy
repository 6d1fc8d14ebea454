/**
 * agent.py: the control loop of `AutonomousAgent.run`. Each step observes
 * the page, shows the model the observation and the memory digest, executes
 * the first tool call of the model's response, records it, and stops on the
 * finish sentinel or after the configured number of steps.
 */
module Agent {
  import opened Wrappers
  import opened Text
  import opened Json
  import opened Config
  import opened Browser
  import opened Tools
  import opened Memory

  /** A tool call in the model's response; its arguments arrive already decoded. */
  datatype ToolCall = ToolCall(id: string, name: string, args: Args)

  /** The model's message: optional text and the tool calls, in order. */
  datatype Response = Response(content: Option<string>, calls: seq<ToolCall>)

  /** Everything outside the program that one step depends on. */
  datatype StepWorld = StepWorld(
    snapshot: PageSnapshot,   // what the browser shows when the step observes
    response: Response,       // the model's reply to the step's observation
    answer: string,           // the operator's reply, should the gate ask
    fault: Option<string>)    // the exception the browser raises, if any

  /** The chat history `run` sends to the model. */
  datatype Message =
    | SystemMsg(content: string)
    | UserMsg(content: string)
    | AssistantMsg(content: string, toolCalls: seq<ToolCall>)
    | ToolMsg(name: string, toolCallId: string, content: string)

  /** The control loop's state: still stepping, stopped by the sentinel at a step, or out of steps. */
  datatype Phase = Running | Finished(step: nat) | Exhausted

  function TaskMessage(task: string): string {
    "User task: " + task + "\nYou will receive observations of the current page and must use tools to achieve the goal."
  }

  // ---------------------------------------------------------------- rendering

  /** `f"{el['href']}"`: a missing href shows as `None`. */
  function HrefText(href: Option<string>): string {
    if href.Some? then href.value else "None"
  }

  function ClickableLine(el: Clickable): string {
    "  [" + IntToString(el.index) + "] <" + el.tag + "> text='" + el.text + "' href=" + HrefText(el.href) + "\n"
  }

  function InputLine(inp: InputField): string {
    "  [" + IntToString(inp.index) + "] type=" + inp.kind + " placeholder='" + inp.placeholder
      + "' label='" + inp.labelText + "' name='" + inp.name + "'\n"
  }

  function Header(step: int, task: string, memoryText: string, obs: Observation): string {
    "STEP " + IntToString(step) + ".\nTask: " + task + "\n\nShort memory of previous steps:\n" + memoryText
      + "\n\nCurrent page:\nURL: " + obs.url + "\nTitle: " + obs.title + "\nBody (truncated): " + obs.bodyText
      + "\n\nClickable elements (index, tag, text, href):\n"
  }

  const InputsHeading := "\nInput elements (index, type, placeholder, label, name):\n"

  function ClickableLines(cs: seq<Clickable>): (lines: seq<string>)
    ensures |lines| == |cs| && forall k :: 0 <= k < |cs| ==> lines[k] == ClickableLine(cs[k])
  {
    seq(|cs|, k requires 0 <= k < |cs| => ClickableLine(cs[k]))
  }

  function InputLines(ins: seq<InputField>): (lines: seq<string>)
    ensures |lines| == |ins| && forall k :: 0 <= k < |ins| ==> lines[k] == InputLine(ins[k])
  {
    seq(|ins|, k requires 0 <= k < |ins| => InputLine(ins[k]))
  }

  /** The user message of a step: the header, one line per clickable, then one line per input. */
  function ObservationText(step: int, task: string, memoryText: string, obs: Observation): string {
    Header(step, task, memoryText, obs) + Concat(ClickableLines(obs.clickables))
      + InputsHeading + Concat(InputLines(obs.inputs))
  }

  /** The first loop of the rendering: one line per clickable, in list order. */
  method AppendClickables(content: string, cs: seq<Clickable>) returns (out: string)
    ensures out == content + Concat(ClickableLines(cs))
  {
    out := content;
    ghost var lines := ClickableLines(cs);
    var i := 0;
    while i < |cs|
      invariant 0 <= i <= |cs|
      invariant out == content + Concat(lines[..i])
    {
      ConcatSnoc(lines, i);
      AppendAssociates(content, Concat(lines[..i]), lines[i]);
      out := out + ClickableLine(cs[i]);
      i := i + 1;
    }
    assert lines[..i] == lines;
  }

  /** The second loop of the rendering: one line per input, in list order. */
  method AppendInputs(content: string, ins: seq<InputField>) returns (out: string)
    ensures out == content + Concat(InputLines(ins))
  {
    out := content;
    ghost var lines := InputLines(ins);
    var i := 0;
    while i < |ins|
      invariant 0 <= i <= |ins|
      invariant out == content + Concat(lines[..i])
    {
      ConcatSnoc(lines, i);
      AppendAssociates(content, Concat(lines[..i]), lines[i]);
      out := out + InputLine(ins[i]);
      i := i + 1;
    }
    assert lines[..i] == lines;
  }

  /** Building `obs_content`. */
  method RenderObservation(step: int, task: string, memoryText: string, obs: Observation) returns (content: string)
    ensures content == ObservationText(step, task, memoryText, obs)
  {
    content := Header(step, task, memoryText, obs);
    content := AppendClickables(content, obs.clickables);
    content := AppendInputs(content + InputsHeading, obs.inputs);
  }

  /**
   * On a densely indexed observation the k-th rendered clickable line shows
   * index k, the position `click_element` resolves: the model is shown the
   * index that acts on that element.
   */
  lemma RenderedClickableIndexIsPosition(obs: Observation, k: nat)
    requires forall j :: 0 <= j < |obs.clickables| ==> obs.clickables[j].index == j
    requires k < |obs.clickables|
    ensures StartsWith(ClickableLines(obs.clickables)[k], "  [" + IntToString(k) + "] <" + obs.clickables[k].tag)
  {
    var el := obs.clickables[k];
    var p := "  [" + IntToString(k) + "] <" + el.tag;
    var a := p + "> text='" + el.text;
    var b := a + "' href=" + HrefText(el.href);
    StartsWithAppend(b, "\n");
    StartsWithAppend(a, "' href=" + HrefText(el.href));
    StartsWithAppend(p, "> text='" + el.text);
    StartsWithTransitive(b + "\n", b, a);
    StartsWithTransitive(b + "\n", a, p);
  }

  /**
   * Likewise the k-th rendered input line shows index k, the dense ordinal
   * `type_into_input_index` resolves.
   */
  lemma RenderedInputIndexIsPosition(obs: Observation, k: nat)
    requires forall j :: 0 <= j < |obs.inputs| ==> obs.inputs[j].index == j
    requires k < |obs.inputs|
    ensures StartsWith(InputLines(obs.inputs)[k], "  [" + IntToString(k) + "] type=" + obs.inputs[k].kind)
  {
    var inp := obs.inputs[k];
    var p := "  [" + IntToString(k) + "] type=" + inp.kind;
    var a := p + " placeholder='" + inp.placeholder;
    var b := a + "' label='" + inp.labelText + "' name='" + inp.name;
    StartsWithAppend(b, "'\n");
    StartsWithAppend(a, "' label='" + inp.labelText + "' name='" + inp.name);
    StartsWithAppend(p, " placeholder='" + inp.placeholder);
    StartsWithTransitive(b + "'\n", b, a);
    StartsWithTransitive(b + "'\n", a, p);
  }

  // ---------------------------------------------------------------- one step, as a specification

  /** Whether a response ends the run: its first call is `finish_task` with a summary. */
  predicate Finishes(r: Response) {
    r.calls != [] && r.calls[0].name == FinishTask && Lookup(r.calls[0].args, "summary").Some?
  }

  /** What executing the first call of the step's response yields, against the step's own observation. */
  function Executed(w: StepWorld, cfg: Config): Dispatched
    requires w.response.calls != []
  {
    var obs := Observe(w.snapshot, cfg);
    var call := w.response.calls[0];
    Dispatch(call.name, call.args, Cleared(call.name, call.args, w.answer, cfg.confirmWords),
             obs.clickables, obs.inputs, w.fault)
  }

  /** The memory entry of a step that executed a call. */
  function Entry(w: StepWorld, cfg: Config): Step
    requires w.response.calls != []
  {
    var obs := Observe(w.snapshot, cfg);
    var call := w.response.calls[0];
    Step(obs.url, obs.title, Action(call.name, call.args), Take(Executed(w, cfg).result, ResultLimit))
  }

  /** The page interactions of one step: none when the response has no call. */
  function StepActions(w: StepWorld, cfg: Config): seq<PageAction> {
    if w.response.calls == [] then [] else Executed(w, cfg).actions
  }

  /** The memory entries of one step: one when the response has a call. */
  function StepEntries(w: StepWorld, cfg: Config): seq<Step> {
    if w.response.calls == [] then [] else [Entry(w, cfg)]
  }

  /** The tool result of one step, when a tool ran. */
  function StepResult(w: StepWorld, cfg: Config): Option<string> {
    if w.response.calls == [] then None else Some(Executed(w, cfg).result)
  }

  /**
   * What steps 1..n contribute, in step order, when step s sees `world[s - 1]`
   * and contributes `f(world[s - 1], cfg)`.
   */
  function Accumulated<T>(world: seq<StepWorld>, cfg: Config, f: (StepWorld, Config) -> seq<T>, n: nat): seq<T>
    requires n <= |world|
  {
    if n == 0 then [] else Accumulated(world, cfg, f, n - 1) + f(world[n - 1], cfg)
  }

  /** The memory entries of steps 1..n, one per step whose response had a call. */
  function Entries(world: seq<StepWorld>, cfg: Config, n: nat): seq<Step>
    requires n <= |world|
  {
    Accumulated(world, cfg, StepEntries, n)
  }

  /** The page interactions of steps 1..n. */
  function Interactions(world: seq<StepWorld>, cfg: Config, n: nat): seq<PageAction>
    requires n <= |world|
  {
    Accumulated(world, cfg, StepActions, n)
  }

  /** The tool result a step reports: empty when the response has no call. */
  function StepReport(w: StepWorld, cfg: Config): string {
    if w.response.calls == [] then "" else Executed(w, cfg).result
  }

  /**
   * How a run ends once it reaches step `step`: at the first finishing step
   * from `step` on, or exhausted once every step of `world` has been taken.
   */
  function EndingWith(world: seq<StepWorld>, step: nat): (e: Phase)
    requires step >= 1
    decreases |world| + 1 - step
    ensures e.Finished? ==> step <= e.step <= |world|
  {
    if step > |world| then Exhausted
    else if Finishes(world[step - 1].response) then Finished(step)
    else EndingWith(world, step + 1)
  }

  /** How the run ends: at the first finishing step, or exhausted. */
  function Ending(world: seq<StepWorld>): (e: Phase)
    ensures e.Finished? ==> 1 <= e.step <= |world|
  {
    EndingWith(world, 1)
  }

  /**
   * The messages one step appends: the rendered observation, the model's
   * reply with its calls, and the tool's result when a tool ran.
   */
  function StepMessages(step: nat, task: string, memoryText: string, w: StepWorld, cfg: Config): seq<Message> {
    [UserMsg(ObservationText(step, task, memoryText, Observe(w.snapshot, cfg))),
     AssistantMsg(w.response.content.GetOr(""), w.response.calls)]
    + (if w.response.calls == [] then [] else [ToolMsg(w.response.calls[0].name, w.response.calls[0].id, Executed(w, cfg).result)])
  }

  /**
   * The messages steps 1..n append, when the memory held `history0` under a
   * cap of `cap` before step 1: step s shows the digest of what the memory
   * retains after the entries of steps 1..s-1.
   */
  function Transcript(world: seq<StepWorld>, cfg: Config, task: string, history0: seq<Step>, cap: int, n: nat)
    : (ms: seq<Message>)
    requires n <= |world|
    ensures |ms| == 2 * n + |Entries(world, cfg, n)|
  {
    if n == 0 then []
    else
      Transcript(world, cfg, task, history0, cap, n - 1)
      + StepMessages(n, task, Digest(Retained(history0 + Entries(world, cfg, n - 1), cap)), world[n - 1], cfg)
  }

  /** The page after steps 1..n, each syncing to the latest open page. */
  function PageAfter(page0: nat, world: seq<StepWorld>, n: nat): nat
    requires n <= |world|
  {
    if n == 0 then page0 else LatestPage(PageAfter(page0, world, n - 1), world[n - 1].snapshot.pages)
  }

  /** Step `w`'s page enumeration lists `page` as an open page. */
  predicate SawOpen(w: StepWorld, page: nat) {
    w.snapshot.pages.Some?
    && exists j :: 0 <= j < |w.snapshot.pages.value|
         && !w.snapshot.pages.value[j].closed && w.snapshot.pages.value[j].id == page
  }

  /** The browser ends on its starting page or on a page some step listed as open. */
  lemma {:induction false} PageAfterWasOpen(page0: nat, world: seq<StepWorld>, n: nat)
    requires n <= |world|
    ensures var p := PageAfter(page0, world, n);
      p == page0 || exists i :: 0 <= i < n && SawOpen(world[i], p)
  {
    if n > 0 {
      PageAfterWasOpen(page0, world, n - 1);
      var pages := world[n - 1].snapshot.pages;
      if pages.Some? && OpenPages(pages.value) != [] {
        OpenPagesLast(pages.value);
        assert SawOpen(world[n - 1], PageAfter(page0, world, n));
      }
    }
  }

  /** The number of steps a run takes before it stops, out of a budget of `budget`. */
  function Taken(phase: Phase, budget: nat): nat {
    if phase.Finished? then phase.step else budget
  }

  // ---------------------------------------------------------------- the loop

  class AutonomousAgent {
    const browser: BrowserController
    const memory: ConversationMemory

    /** The model client is not part of this model; the memory keeps the shipped number of steps. */
    constructor (browser: BrowserController)
      ensures this.browser == browser
      ensures fresh(memory) && memory.maxSteps == MemorySteps && memory.steps == [] && memory.history == []
      ensures memory.Valid()
    {
      this.browser := browser;
      memory := new ConversationMemory(MemorySteps);
    }

    /**
     * One iteration of the loop of `run`: observe, render, ask, and execute
     * the first tool call if there is one. Returns the messages it appends
     * and the tool's result, when a tool ran.
     */
    method TakeStep(step: nat, task: string, cfg: Config, w: StepWorld) returns (added: seq<Message>, result: Option<string>)
      requires memory.Valid()
      modifies browser, memory
      ensures memory.maxSteps == old(memory.maxSteps) && memory.Valid()
      ensures browser.observations == old(browser.observations) + 1
      ensures browser.page == LatestPage(old(browser.page), w.snapshot.pages)
      ensures browser.currentElements == Observe(w.snapshot, cfg).clickables
      ensures browser.currentInputs == Observe(w.snapshot, cfg).inputs
      ensures result == StepResult(w, cfg)
      ensures added == StepMessages(step, task, Digest(old(memory.steps)), w, cfg)
      ensures browser.actions == old(browser.actions) + StepActions(w, cfg)
      ensures memory.history == old(memory.history) + StepEntries(w, cfg)
    {
      var observation := browser.GetObservation(w.snapshot, cfg);
      var memoryText := memory.AsText();
      var content := RenderObservation(step, task, memoryText, observation);
      added := [UserMsg(content), AssistantMsg(w.response.content.GetOr(""), w.response.calls)];
      if w.response.calls == [] {
        assert browser.actions == old(browser.actions) + [];
        assert memory.history == old(memory.history) + [];
        assert added == added + [];
        return added, None;
      }
      var call := w.response.calls[0];
      var text := ExecuteTool(browser, call.name, call.args, w.answer, cfg.confirmWords, w.fault);
      memory.AddStep(observation, Action(call.name, call.args), text);
      added := added + [ToolMsg(call.name, call.id, text)];
      result := Some(text);
    }

    /**
     * Step `step` of `run` against the whole run's `world`: the browser log,
     * the memory history and the messages grow from their state after step
     * `step - 1` to their state after step `step`; `finished` is the
     * sentinel test the loop makes.
     */
    method RunStep(step: nat, task: string, cfg: Config, world: seq<StepWorld>,
                   ghost actions0: seq<PageAction>, ghost history0: seq<Step>, ghost cap: int,
                   ghost start: seq<Message>, ghost page0: nat, messages: seq<Message>)
      returns (finished: bool, report: string, out: seq<Message>)
      requires 1 <= step <= |world|
      requires memory.Valid() && memory.maxSteps == cap
      requires browser.actions == actions0 + Interactions(world, cfg, step - 1)
      requires memory.history == history0 + Entries(world, cfg, step - 1)
      requires messages == start + Transcript(world, cfg, task, history0, cap, step - 1)
      requires browser.page == PageAfter(page0, world, step - 1)
      modifies browser, memory
      ensures memory.maxSteps == cap && memory.Valid()
      ensures browser.observations == old(browser.observations) + 1
      ensures browser.actions == actions0 + Interactions(world, cfg, step)
      ensures memory.history == history0 + Entries(world, cfg, step)
      ensures if finished then EndingWith(world, step) == Finished(step) && report == StepReport(world[step - 1], cfg)
        else EndingWith(world, step) == EndingWith(world, step + 1)
      ensures out == start + Transcript(world, cfg, task, history0, cap, step)
      ensures browser.page == PageAfter(page0, world, step)
      ensures browser.currentElements == Observe(world[step - 1].snapshot, cfg).clickables
      ensures browser.currentInputs == Observe(world[step - 1].snapshot, cfg).inputs
    {
      var w := world[step - 1];
      ghost var memoryText := Digest(memory.steps);
      var added, result := TakeStep(step, task, cfg, w);
      out := messages + added;
      AppendAssociates(actions0, Interactions(world, cfg, step - 1), StepActions(w, cfg));
      AppendAssociates(history0, Entries(world, cfg, step - 1), StepEntries(w, cfg));
      AppendAssociates(start, Transcript(world, cfg, task, history0, cap, step - 1), added);
      assert Interactions(world, cfg, step) == Interactions(world, cfg, step - 1) + StepActions(w, cfg);
      assert Entries(world, cfg, step) == Entries(world, cfg, step - 1) + StepEntries(w, cfg);
      assert memoryText == Digest(Retained(history0 + Entries(world, cfg, step - 1), cap));
      FinishesIffSentinel(w, cfg);
      finished := result.Some? && StartsWith(result.value, Sentinel);
      report := if result.Some? then result.value else "";
    }

    /**
     * `run`, where step s sees `world[s - 1]`: the page, the model's reply
     * and the operator's answer; one is supplied for each of the
     * `cfg.maxSteps` steps the loop may take. `report` is the finishing
     * step's tool result, which `run` prints.
     */
    method Run(task: string, prompt: string, cfg: Config, world: seq<StepWorld>)
      returns (phase: Phase, report: string, messages: seq<Message>)
      requires |world| == cfg.maxSteps
      requires memory.Valid()
      modifies browser, memory
      ensures phase == Ending(world)
      ensures phase.Finished? ==> report == StepReport(world[phase.step - 1], cfg)
      ensures browser.observations == old(browser.observations) + Taken(phase, |world|)
      ensures browser.page == PageAfter(old(browser.page), world, Taken(phase, |world|))
      ensures browser.actions == old(browser.actions) + Interactions(world, cfg, Taken(phase, |world|))
      ensures memory.history == old(memory.history) + Entries(world, cfg, Taken(phase, |world|))
      ensures memory.maxSteps == old(memory.maxSteps) && memory.Valid()
      ensures messages == [SystemMsg(prompt), UserMsg(TaskMessage(task))]
        + Transcript(world, cfg, task, old(memory.history), old(memory.maxSteps), Taken(phase, |world|))
    {
      var start := [SystemMsg(prompt), UserMsg(TaskMessage(task))];
      messages := start;
      phase, report := Running, "";
      var step := 1;
      while step <= cfg.maxSteps
        invariant 1 <= step <= cfg.maxSteps + 1
        invariant Ending(world) == EndingWith(world, step)
        invariant browser.observations == old(browser.observations) + (step - 1)
        invariant browser.actions == old(browser.actions) + Interactions(world, cfg, step - 1)
        invariant memory.history == old(memory.history) + Entries(world, cfg, step - 1)
        invariant memory.maxSteps == old(memory.maxSteps) && memory.Valid()
        invariant messages == start + Transcript(world, cfg, task, old(memory.history), old(memory.maxSteps), step - 1)
        invariant browser.page == PageAfter(old(browser.page), world, step - 1)
      {
        var finished;
        finished, report, messages := RunStep(step, task, cfg, world, old(browser.actions), old(memory.history),
                                              old(memory.maxSteps), start, old(browser.page), messages);
        if finished {
          phase := Finished(step);
          return;
        }
        step := step + 1;
      }
      assert step - 1 == cfg.maxSteps;
      phase := Exhausted;
    }
  }

  // ---------------------------------------------------------------- properties

  /** A step's result carries the finish sentinel exactly when its response finishes. */
  lemma SentinelMeansFinish(w: StepWorld, cfg: Config)
    requires w.response.calls != []
    ensures StartsWith(Executed(w, cfg).result, Sentinel) <==> Finishes(w.response)
  {
    var obs := Observe(w.snapshot, cfg);
    var call := w.response.calls[0];
    FinishTaskAlwaysCleared(call.args, w.answer, cfg.confirmWords);
    SentinelOnlyFromFinish(call.name, call.args, Cleared(call.name, call.args, w.answer, cfg.confirmWords),
                           obs.clickables, obs.inputs, w.fault);
  }

  /** From step `from` on, the run finishes exactly when some remaining step finishes. */
  lemma {:induction false} EndingWithFinishes(world: seq<StepWorld>, from: nat)
    requires from >= 1
    decreases |world| + 1 - from
    ensures !EndingWith(world, from).Running?
    ensures EndingWith(world, from).Finished? <==> exists i :: from - 1 <= i < |world| && Finishes(world[i].response)
  {
    if from <= |world| && !Finishes(world[from - 1].response) {
      EndingWithFinishes(world, from + 1);
      if exists i :: from - 1 <= i < |world| && Finishes(world[i].response) {
        var i :| from - 1 <= i < |world| && Finishes(world[i].response);
        assert from <= i;
      }
    }
  }

  /** A run that finishes from step `from` on stops at the first finishing step. */
  lemma {:induction false} EndingWithIsFirstFinish(world: seq<StepWorld>, from: nat)
    requires from >= 1
    decreases |world| + 1 - from
    ensures var e := EndingWith(world, from);
      e.Finished? ==>
        && Finishes(world[e.step - 1].response)
        && (forall i :: from - 1 <= i < e.step - 1 ==> !Finishes(world[i].response))
  {
    if from <= |world| && !Finishes(world[from - 1].response) {
      EndingWithIsFirstFinish(world, from + 1);
    }
  }

  /**
   * A run finishes exactly when some step finishes; it then stops at the
   * first such step, whose report is its tool's result and carries the
   * finish sentinel.
   */
  lemma RunEndsAtFirstFinish(world: seq<StepWorld>, cfg: Config)
    ensures var e := Ending(world);
      && !e.Running?
      && (e.Finished? <==> exists i :: 0 <= i < |world| && Finishes(world[i].response))
      && (e.Finished? ==>
        && 1 <= e.step <= |world|
        && Finishes(world[e.step - 1].response)
        && (forall i :: 0 <= i < e.step - 1 ==> !Finishes(world[i].response))
        && StepReport(world[e.step - 1], cfg) == Executed(world[e.step - 1], cfg).result
        && StartsWith(StepReport(world[e.step - 1], cfg), Sentinel))
  {
    EndingWithFinishes(world, 1);
    EndingWithIsFirstFinish(world, 1);
    var e := Ending(world);
    if e.Finished? {
      SentinelMeansFinish(world[e.step - 1], cfg);
    }
  }

  /** A step's result, if any, carries the finish sentinel exactly when its response finishes. */
  lemma FinishesIffSentinel(w: StepWorld, cfg: Config)
    ensures Finishes(w.response) <==> (StepResult(w, cfg).Some? && StartsWith(StepResult(w, cfg).value, Sentinel))
  {
    if w.response.calls != [] {
      SentinelMeansFinish(w, cfg);
    }
  }

  /** Only the first tool call of a response is executed: the others change nothing. */
  lemma OnlyFirstCallCounts(w: StepWorld, cfg: Config, extra: seq<ToolCall>)
    requires w.response.calls != []
    ensures var w' := w.(response := w.response.(calls := [w.response.calls[0]] + extra));
      Executed(w', cfg) == Executed(w, cfg) && Entry(w', cfg) == Entry(w, cfg)
  {
  }

  /** An executed call performs at most one page interaction. */
  lemma ExecutedAtMostOne(w: StepWorld, cfg: Config)
    requires w.response.calls != []
    ensures |Executed(w, cfg).actions| <= 1
  {
    var obs := Observe(w.snapshot, cfg);
    var call := w.response.calls[0];
    AtMostOneInteraction(call.name, call.args, Cleared(call.name, call.args, w.answer, cfg.confirmWords),
                         obs.clickables, obs.inputs, w.fault);
  }

  /** When every step contributes at most one item, n steps contribute at most n. */
  lemma {:induction false} AccumulatedAtMostOnePerStep<T>(world: seq<StepWorld>, cfg: Config, f: (StepWorld, Config) -> seq<T>, n: nat)
    requires n <= |world|
    requires forall s :: 0 <= s < n ==> |f(world[s], cfg)| <= 1
    ensures |Accumulated(world, cfg, f, n)| <= n
  {
    if n > 0 {
      AccumulatedAtMostOnePerStep(world, cfg, f, n - 1);
    }
  }

  /** A step performs at most one page interaction. */
  lemma StepActionsAtMostOne(w: StepWorld, cfg: Config)
    ensures |StepActions(w, cfg)| <= 1
  {
    if w.response.calls != [] {
      ExecutedAtMostOne(w, cfg);
    }
  }

  /** Each step adds at most one memory entry. */
  lemma AtMostOneEntryPerStep(world: seq<StepWorld>, cfg: Config, n: nat)
    requires n <= |world|
    ensures |Entries(world, cfg, n)| <= n
  {
    AccumulatedAtMostOnePerStep(world, cfg, StepEntries, n);
  }

  /** Each step performs at most one page interaction. */
  lemma AtMostOneInteractionPerStep(world: seq<StepWorld>, cfg: Config, n: nat)
    requires n <= |world|
    ensures |Interactions(world, cfg, n)| <= n
  {
    forall s | 0 <= s < n
      ensures |StepActions(world[s], cfg)| <= 1
    {
      StepActionsAtMostOne(world[s], cfg);
    }
    AccumulatedAtMostOnePerStep(world, cfg, StepActions, n);
  }

  /** A response without tool calls adds no entry and touches no page. */
  lemma SilentStepChangesNothing(world: seq<StepWorld>, cfg: Config, n: nat)
    requires 1 <= n <= |world| && world[n - 1].response.calls == []
    ensures Entries(world, cfg, n) == Entries(world, cfg, n - 1)
    ensures Interactions(world, cfg, n) == Interactions(world, cfg, n - 1)
  {
    assert Entries(world, cfg, n - 1) + [] == Entries(world, cfg, n - 1);
    assert Interactions(world, cfg, n - 1) + [] == Interactions(world, cfg, n - 1);
  }

  /** Each entry stores the first 200 characters of the step's result and the call as given. */
  lemma EntryRecordsCall(w: StepWorld, cfg: Config)
    requires w.response.calls != []
    ensures var e := Entry(w, cfg);
      && e.action == Action(w.response.calls[0].name, w.response.calls[0].args)
      && |e.result| <= ResultLimit
      && StartsWith(Executed(w, cfg).result, e.result)
      && (|Executed(w, cfg).result| <= ResultLimit ==> e.result == Executed(w, cfg).result)
      && (|Executed(w, cfg).result| > ResultLimit ==> |e.result| == ResultLimit)
  {
    var r := Executed(w, cfg).result;
    assert r[..|Take(r, ResultLimit)|] == Take(r, ResultLimit);
  }
}
