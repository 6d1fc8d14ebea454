/**
 * The confirmation gate and the dispatcher of tools.py: which tool names
 * need the operator's approval, the six advertised tools, and how one tool
 * call becomes browser interactions and a result string.
 */
module Tools {
  import opened Wrappers
  import opened Text
  import opened Json
  import opened Browser
  import opened Config

  const FinishTask := "finish_task"
  /** The prefix by which the control loop recognises a finished task. */
  const Sentinel := "TASK_FINISHED:"
  const Denied := "User denied destructive action."
  const ErrorPrefix := "ERROR executing "

  /** The closed vocabulary, in the order `get_tool_schemas` lists it. */
  const Vocabulary := ["navigate", "click_element", "type_into_selector", "type_into_input_index", "press_key", "finish_task"]

  // ---------------------------------------------------------------- gate

  /** `any(word in name for word in words)`. */
  function AnyContained(words: seq<string>, name: string): (r: bool)
    ensures r <==> exists w :: w in words && Contains(name, w)
  {
    if words == [] then false
    else
      assert words[0] in words;
      assert forall w :: w in words[1..] ==> w in words;
      assert forall w :: w in words ==> w == words[0] || w in words[1..];
      Contains(name, words[0]) || AnyContained(words[1..], name)
  }

  /**
   * `is_potentially_destructive`: `finish_task` is never gated; any other
   * name is gated exactly when its lower-cased form contains a sensitive
   * word. The arguments play no part.
   */
  function IsPotentiallyDestructive(name: string, params: Args, words: seq<string>): (r: bool)
    ensures r <==> name != FinishTask && exists w :: w in words && Contains(Lower(name), w)
  {
    if name == FinishTask then false
    else AnyContained(words, Lower(name))
  }

  /** The operator's answer, stripped and lower-cased, is one of the accepted affirmatives. */
  predicate Approves(answer: string) {
    var a := Lower(Strip(answer));
    a == "y" || a == "yes" || a == "д" || a == "да"
  }

  /**
   * The prompt's default is No: an empty or blank answer denies. The answer is
   * compared after stripping and lower-casing, so any capitalisation of the
   * affirmatives approves.
   */
  lemma BlankDeniesAffirmativesApprove(answer: string)
    ensures Strip(answer) == "" ==> !Approves(answer)
    ensures Strip(answer) in ["Y", "Yes", "YES", "Д", "Да", "ДА"] ==> Approves(answer)
  {
  }

  // ---------------------------------------------------------------- schemas

  datatype Param = Param(name: string, kind: string)
  datatype ToolSchema = ToolSchema(name: string, params: seq<Param>, required: seq<string>)

  /** `get_tool_schemas`: one function descriptor per tool. */
  function ToolSchemas(): (r: seq<ToolSchema>)
    ensures |r| == |Vocabulary|
    ensures forall i :: 0 <= i < |r| ==> r[i].name == Vocabulary[i]
    ensures forall i :: 0 <= i < |r| ==> forall q :: q in r[i].required ==> exists p :: p in r[i].params && p.name == q
  {
    [ ToolSchema("navigate", [Param("url", "string")], ["url"]),
      ToolSchema("click_element", [Param("index", "integer")], ["index"]),
      ToolSchema("type_into_selector",
        [Param("selector", "string"), Param("text", "string"), Param("press_enter", "boolean")], ["selector", "text"]),
      ToolSchema("type_into_input_index",
        [Param("index", "integer"), Param("text", "string"), Param("press_enter", "boolean")], ["index", "text"]),
      ToolSchema("press_key", [Param("key", "string")], ["key"]),
      ToolSchema("finish_task", [Param("summary", "string")], ["summary"]) ]
  }

  // ---------------------------------------------------------------- dispatch

  /** How the `try` block of `execute_tool` ends. */
  datatype Outcome = Returned(text: string) | Threw(message: string)

  /** `str(KeyError(key))`. */
  function KeyError(key: string): string {
    "'" + key + "'"
  }

  /** A controller call's effect, followed by the success text when it did not raise. */
  function After(e: Effect, text: string): (Outcome, seq<PageAction>) {
    (if e.status.Raised? then Threw(e.status.message) else Returned(text), e.actions)
  }

  /** `tool_args.get("press_enter", False)`. */
  function EnterOf(args: Args): Value {
    Lookup(args, "press_enter").GetOr(Bool(false))
  }

  /** The tail of the typing tools' success text. */
  function TypedDetail(target: Value, text: Value, enter: Value): string {
    Show(target) + " text='" + Show(text) + "' press_enter=" + Show(enter)
  }

  /** The fixed text with which a successful call of each tool begins its result. */
  function Lead(name: string): string {
    if name == "navigate" then "Navigated to "
    else if name == "click_element" then "Clicked element with index "
    else if name == "type_into_selector" then "Typed into "
    else if name == "type_into_input_index" then "Typed into input index "
    else if name == "press_key" then "Pressed key "
    else if name == FinishTask then "TASK_FINISHED: "
    else "Unknown tool "
  }

  function NavigateCall(args: Args, fault: Option<string>): (Outcome, seq<PageAction>) {
    match Lookup(args, "url")
    case None => (Threw(KeyError("url")), [])
    case Some(url) => After(Effect(StatusOf(fault), [Navigate(url)]), Lead("navigate") + Show(url))
  }

  function ClickCall(args: Args, elements: seq<Clickable>, fault: Option<string>): (Outcome, seq<PageAction>) {
    match Lookup(args, "index")
    case None => (Threw(KeyError("index")), [])
    case Some(index) =>
      After(ClickEffect(elements, index, fault), Lead("click_element") + Show(index))
  }

  function TypeSelectorCall(args: Args, fault: Option<string>): (Outcome, seq<PageAction>) {
    match Lookup(args, "selector")
    case None => (Threw(KeyError("selector")), [])
    case Some(selector) =>
      match Lookup(args, "text")
      case None => (Threw(KeyError("text")), [])
      case Some(text) =>
        After(Effect(StatusOf(fault), [FillFirst(selector, text, Truthy(EnterOf(args)))]),
              Lead("type_into_selector") + TypedDetail(selector, text, EnterOf(args)))
  }

  /** The index and the text are both read before the index is compared. */
  function TypeIndexCall(args: Args, inputs: seq<InputField>, fault: Option<string>): (Outcome, seq<PageAction>) {
    match Lookup(args, "index")
    case None => (Threw(KeyError("index")), [])
    case Some(index) =>
      match Lookup(args, "text")
      case None => (Threw(KeyError("text")), [])
      case Some(text) =>
        After(TypeIndexEffect(inputs, index, text, Truthy(EnterOf(args)), fault),
              Lead("type_into_input_index") + TypedDetail(index, text, EnterOf(args)))
  }

  function PressKeyCall(args: Args, fault: Option<string>): (Outcome, seq<PageAction>) {
    match Lookup(args, "key")
    case None => (Threw(KeyError("key")), [])
    case Some(key) => After(Effect(StatusOf(fault), [Keystroke(key)]), Lead("press_key") + Show(key))
  }

  /** `finish_task` touches no page: its result carries the sentinel and the summary. */
  function FinishCall(args: Args): (Outcome, seq<PageAction>) {
    match Lookup(args, "summary")
    case None => (Threw(KeyError("summary")), [])
    case Some(summary) => (Returned(Lead(FinishTask) + Show(summary)), [])
  }

  /**
   * The `try` block of `execute_tool`: arguments are read in the order the
   * source reads them, a missing one raising `KeyError`, and at most one
   * controller method is called, failing with `fault` when it is given.
   */
  function Attempt(name: string, args: Args, elements: seq<Clickable>, inputs: seq<InputField>, fault: Option<string>)
    : (r: (Outcome, seq<PageAction>))
    ensures |r.1| <= 1
    ensures r.1 != [] ==> name in Vocabulary && name != FinishTask
    ensures name !in Vocabulary ==> r == (Returned("Unknown tool " + name), [])
  {
    if name == "navigate" then NavigateCall(args, fault)
    else if name == "click_element" then ClickCall(args, elements, fault)
    else if name == "type_into_selector" then TypeSelectorCall(args, fault)
    else if name == "type_into_input_index" then TypeIndexCall(args, inputs, fault)
    else if name == "press_key" then PressKeyCall(args, fault)
    else if name == FinishTask then FinishCall(args)
    else (Returned(Lead(name) + name), [])
  }

  /** The result string for how the `try` block ended. */
  function Report(name: string, outcome: Outcome): string {
    if outcome.Returned? then outcome.text else ErrorPrefix + name + ": " + outcome.message
  }

  /** The result string of `execute_tool` and the interactions it caused. */
  datatype Dispatched = Dispatched(result: string, actions: seq<PageAction>)

  /** Whether the gate lets a call through: it is not destructive, or the operator approved it. */
  predicate Cleared(name: string, args: Args, answer: string, words: seq<string>) {
    !IsPotentiallyDestructive(name, args, words) || Approves(answer)
  }

  /** `execute_tool` over the controller's current tables, once the gate has decided. */
  function Dispatch(name: string, args: Args, cleared: bool,
                    elements: seq<Clickable>, inputs: seq<InputField>, fault: Option<string>): (d: Dispatched)
    ensures !cleared ==> d == Dispatched(Denied, [])
    ensures d.actions != [] ==> cleared && name in Vocabulary && name != FinishTask
  {
    if !cleared then Dispatched(Denied, [])
    else
      var (outcome, actions) := Attempt(name, args, elements, inputs, fault);
      Dispatched(Report(name, outcome), actions)
  }

  /** The `try` block of `execute_tool`, calling the controller. */
  method TryTool(browser: BrowserController, name: string, args: Args, fault: Option<string>) returns (outcome: Outcome)
    requires browser.Valid()
    modifies browser`actions
    ensures var a := Attempt(name, args, browser.currentElements, browser.currentInputs, fault);
      outcome == a.0 && browser.actions == old(browser.actions) + a.1
  {
    var status: Status;
    var text: string;
    if name == "navigate" {
      var url := Lookup(args, "url");
      if url.None? { return Threw(KeyError("url")); }
      status := browser.Goto(url.value, fault);
      text := Lead(name) + Show(url.value);
    } else if name == "click_element" {
      var index := Lookup(args, "index");
      if index.None? { return Threw(KeyError("index")); }
      status := browser.ClickByElementIndex(index.value, fault);
      text := Lead(name) + Show(index.value);
    } else if name == "type_into_selector" {
      var selector := Lookup(args, "selector");
      if selector.None? { return Threw(KeyError("selector")); }
      var typed := Lookup(args, "text");
      if typed.None? { return Threw(KeyError("text")); }
      var enter := Lookup(args, "press_enter").GetOr(Bool(false));
      status := browser.TypeText(selector.value, typed.value, Truthy(enter), fault);
      text := Lead(name) + TypedDetail(selector.value, typed.value, enter);
    } else if name == "type_into_input_index" {
      var index := Lookup(args, "index");
      if index.None? { return Threw(KeyError("index")); }
      var typed := Lookup(args, "text");
      if typed.None? { return Threw(KeyError("text")); }
      var enter := Lookup(args, "press_enter").GetOr(Bool(false));
      status := browser.TypeIntoInputIndex(index.value, typed.value, Truthy(enter), fault);
      text := Lead(name) + TypedDetail(index.value, typed.value, enter);
    } else if name == "press_key" {
      var key := Lookup(args, "key");
      if key.None? { return Threw(KeyError("key")); }
      status := browser.PressKey(key.value, fault);
      text := Lead(name) + Show(key.value);
    } else if name == FinishTask {
      var summary := Lookup(args, "summary");
      if summary.None? { return Threw(KeyError("summary")); }
      return Returned(Lead(name) + Show(summary.value));
    } else {
      return Returned(Lead(name) + name);
    }
    outcome := if status.Raised? then Threw(status.message) else Returned(text);
  }

  /** `execute_tool`: the gate, then the dispatch, with every exception turned into a result string. */
  method ExecuteTool(browser: BrowserController, name: string, args: Args, answer: string, words: seq<string>,
                     fault: Option<string>) returns (result: string)
    requires browser.Valid()
    modifies browser`actions
    ensures var d := Dispatch(name, args, Cleared(name, args, answer, words),
                              browser.currentElements, browser.currentInputs, fault);
      result == d.result && browser.actions == old(browser.actions) + d.actions
  {
    if IsPotentiallyDestructive(name, args, words) && !Approves(answer) {
      return Denied;
    }
    var outcome := TryTool(browser, name, args, fault);
    result := Report(name, outcome);
  }

  // ---------------------------------------------------------------- properties

  /** A text that starts with `p` does not start with a `q` that differs from `p` at position `j`. */
  lemma PrefixesClash(s: string, p: string, q: string, j: nat)
    requires StartsWith(s, p) && j < |p| && j < |q| && p[j] != q[j]
    ensures !StartsWith(s, q)
  {
    assert s[j] == s[..|p|][j];
  }

  /** Only the lead of `finish_task` begins with the sentinel. */
  lemma LeadVersusSentinel(s: string, name: string)
    requires StartsWith(s, Lead(name))
    ensures StartsWith(s, Sentinel) <==> name == FinishTask
  {
    if name == FinishTask {
      assert "TASK_FINISHED: "[..|Sentinel|] == Sentinel;
      StartsWithTransitive(s, Lead(name), Sentinel);
    } else if name == "type_into_selector" || name == "type_into_input_index" {
      PrefixesClash(s, Lead(name), Sentinel, 1);
    } else {
      PrefixesClash(s, Lead(name), Sentinel, 0);
    }
  }

  /** A call that does not raise returns its tool's fixed lead followed by the details. */
  lemma AttemptLead(name: string, args: Args, elements: seq<Clickable>, inputs: seq<InputField>, fault: Option<string>)
    ensures var a := Attempt(name, args, elements, inputs, fault);
      a.0.Returned? ==> StartsWith(a.0.text, Lead(name))
  {
    var a := Attempt(name, args, elements, inputs, fault);
    if a.0.Returned? {
      var rest: string;
      if name == "navigate" {
        rest := Show(Lookup(args, "url").value);
      } else if name == "click_element" {
        rest := Show(Lookup(args, "index").value);
      } else if name == "type_into_selector" {
        rest := TypedDetail(Lookup(args, "selector").value, Lookup(args, "text").value, EnterOf(args));
      } else if name == "type_into_input_index" {
        rest := TypedDetail(Lookup(args, "index").value, Lookup(args, "text").value, EnterOf(args));
      } else if name == "press_key" {
        rest := Show(Lookup(args, "key").value);
      } else if name == FinishTask {
        rest := Show(Lookup(args, "summary").value);
      } else {
        rest := name;
      }
      assert a.0.text == Lead(name) + rest;
      StartsWithAppend(Lead(name), rest);
    }
  }

  /** With the gate passed, the dispatch reports how the attempt ended and performs its interactions. */
  lemma PassedGate(name: string, args: Args, cleared: bool,
                   elements: seq<Clickable>, inputs: seq<InputField>, fault: Option<string>)
    requires cleared
    ensures var a := Attempt(name, args, elements, inputs, fault);
      Dispatch(name, args, cleared, elements, inputs, fault) == Dispatched(Report(name, a.0), a.1)
  {
  }

  /** A denied gated call returns the fixed denial string and touches no page. */
  lemma DenialTouchesNothing(name: string, args: Args, cleared: bool,
                             elements: seq<Clickable>, inputs: seq<InputField>, fault: Option<string>)
    requires !cleared
    ensures Dispatch(name, args, cleared, elements, inputs, fault) == Dispatched(Denied, [])
  {
  }

  /** Whatever the inputs, one dispatch performs at most one page interaction, and none for `finish_task` or an unknown name. */
  lemma AtMostOneInteraction(name: string, args: Args, cleared: bool,
                             elements: seq<Clickable>, inputs: seq<InputField>, fault: Option<string>)
    ensures |Dispatch(name, args, cleared, elements, inputs, fault).actions| <= 1
    ensures name !in Vocabulary ==> Dispatch(name, args, cleared, elements, inputs, fault).actions == []
    ensures name == FinishTask ==> Dispatch(name, args, cleared, elements, inputs, fault).actions == []
  {
  }

  /**
   * The finish sentinel comes from `finish_task` and from nothing else: a
   * result starts with it exactly when the tool is `finish_task` and a
   * summary was given, and then no page is touched.
   */
  lemma SentinelOnlyFromFinish(name: string, args: Args, cleared: bool,
                               elements: seq<Clickable>, inputs: seq<InputField>, fault: Option<string>)
    requires name == FinishTask ==> cleared
    ensures var d := Dispatch(name, args, cleared, elements, inputs, fault);
      StartsWith(d.result, Sentinel) <==> name == FinishTask && Lookup(args, "summary").Some?
  {
    var d := Dispatch(name, args, cleared, elements, inputs, fault);
    var a := Attempt(name, args, elements, inputs, fault);
    if !cleared {
      StartsWithAppend(Denied, []);
      PrefixesClash(Denied + [], Denied, Sentinel, 0);
    } else {
      PassedGate(name, args, cleared, elements, inputs, fault);
      if a.0.Threw? {
        StartsWithAppend(ErrorPrefix, name + ": " + a.0.message);
        PrefixesClash(d.result, ErrorPrefix, Sentinel, 0);
      } else {
        AttemptLead(name, args, elements, inputs, fault);
        LeadVersusSentinel(d.result, name);
      }
    }
  }

  /** A cleared `finish_task` with a summary returns the sentinel line and touches no page. */
  lemma FinishTaskResult(args: Args, cleared: bool,
                         elements: seq<Clickable>, inputs: seq<InputField>, fault: Option<string>)
    requires cleared && Lookup(args, "summary").Some?
    ensures Dispatch(FinishTask, args, cleared, elements, inputs, fault)
      == Dispatched(Sentinel + " " + Show(Lookup(args, "summary").value), [])
  {
    assert Lead(FinishTask) == Sentinel + " ";
  }

  /**
   * Every exception inside the dispatch, from the controller or from a
   * missing or ill-typed argument, surfaces as `ERROR executing <name>: <message>`
   * with the attempt's interactions, and only an exception produces that prefix.
   */
  lemma ErrorsBecomeResults(name: string, args: Args, cleared: bool,
                            elements: seq<Clickable>, inputs: seq<InputField>, fault: Option<string>)
    ensures var d := Dispatch(name, args, cleared, elements, inputs, fault);
      var a := Attempt(name, args, elements, inputs, fault);
      var passed := cleared;
      && (passed && a.0.Threw? ==> d.result == ErrorPrefix + name + ": " + a.0.message && d.actions == a.1)
      && (StartsWith(d.result, ErrorPrefix) <==> passed && a.0.Threw?)
  {
    var d := Dispatch(name, args, cleared, elements, inputs, fault);
    var a := Attempt(name, args, elements, inputs, fault);
    if !cleared {
      StartsWithAppend(Denied, []);
      PrefixesClash(Denied + [], Denied, ErrorPrefix, 0);
    } else {
      PassedGate(name, args, cleared, elements, inputs, fault);
      if a.0.Threw? {
        StartsWithAppend(ErrorPrefix, name + ": " + a.0.message);
      } else {
        AttemptLead(name, args, elements, inputs, fault);
        PrefixesClash(d.result, Lead(name), ErrorPrefix, 0);
      }
    }
  }

  /** An unknown tool name is reported as such, without touching the page. */
  lemma UnknownToolReported(name: string, args: Args, cleared: bool,
                            elements: seq<Clickable>, inputs: seq<InputField>, fault: Option<string>)
    requires name !in Vocabulary
    requires cleared
    ensures Dispatch(name, args, cleared, elements, inputs, fault) == Dispatched("Unknown tool " + name, [])
  {
    PassedGate(name, args, cleared, elements, inputs, fault);
  }

  /**
   * `click_element` with index value `v`: in range it clicks the recorded
   * element once and reports the index as given; otherwise it reports the
   * `IndexError` or `TypeError` of the comparison and clicks nothing.
   */
  lemma ClickElementResult(args: Args, cleared: bool,
                           elements: seq<Clickable>, inputs: seq<InputField>, v: Value)
    requires Lookup(args, "index") == Some(v)
    requires cleared
    ensures InRange(v, |elements|) ==>
      var el := elements[AsIndex(v).value];
      Dispatch("click_element", args, cleared, elements, inputs, None)
        == Dispatched("Clicked element with index " + Show(v), [ClickAt(el.selector, el.nth)])
    ensures AsIndex(v).Some? && !InRange(v, |elements|) ==>
      Dispatch("click_element", args, cleared, elements, inputs, None)
        == Dispatched(ErrorPrefix + "click_element: " + IndexError("Element", v), [])
    ensures AsIndex(v).None? ==>
      Dispatch("click_element", args, cleared, elements, inputs, None)
        == Dispatched(ErrorPrefix + "click_element: " + CompareError(v), [])
  {
    PassedGate("click_element", args, cleared, elements, inputs, None);
    assert ErrorPrefix + "click_element" + ": " == ErrorPrefix + "click_element: ";
  }

  /**
   * A boolean index is reported as Python prints it: `True` on an empty table
   * is out of range as `True`, which is not how the integer 1 would read.
   */
  lemma BooleanIndexShownAsGiven(args: Args, inputs: seq<InputField>)
    requires Lookup(args, "index") == Some(Bool(true))
    ensures Dispatch("click_element", args, true, [], inputs, None).result
      == ErrorPrefix + "click_element: " + IndexError("Element", Bool(true))
    ensures IndexError("Element", Bool(true)) != IndexError("Element", Int(1))
  {
    ClickElementResult(args, true, [], inputs, Bool(true));
    assert |Show(Bool(true))| == 4;
    assert |IntToString(1)| == 1;
  }

  /** The typing tools press Enter only when asked: a missing `press_enter` means False. */
  lemma PressEnterDefaultsToFalse(name: string, args: Args, cleared: bool,
                                  elements: seq<Clickable>, inputs: seq<InputField>, fault: Option<string>)
    requires name == "type_into_selector" || name == "type_into_input_index"
    requires Lookup(args, "press_enter").None?
    ensures forall a :: a in Dispatch(name, args, cleared, elements, inputs, fault).actions ==>
      (a.FillFirst? || a.FillAt?) && !a.enter
  {
  }

  /**
   * The shipped words miss a name of lower-case ASCII letters and underscores
   * when each Latin word has a letter the name lacks (the Cyrillic words have
   * no ASCII letter at all).
   */
  lemma ShippedWordsMiss(name: string, pay: nat, order: nat, delete: nat)
    requires pay < 3 && order < 5 && delete < 6
    requires forall d :: d in name ==> 'a' <= d <= 'z' || d == '_'
    requires "pay"[pay] !in name && "order"[order] !in name && "delete"[delete] !in name
    ensures forall args :: !IsPotentiallyDestructive(name, args, Shipped.confirmWords)
  {
    LowerAvoids(name, "pay", pay);
    LowerAvoids(name, "order", order);
    LowerAvoids(name, "delete", delete);
    LowerAvoids(name, "оплат", 0);
    LowerAvoids(name, "заказ", 0);
    LowerAvoids(name, "удал", 0);
  }

  lemma NavigateNameMisses()
    ensures forall args :: !IsPotentiallyDestructive("navigate", args, Shipped.confirmWords)
  {
    ShippedWordsMiss("navigate", 0, 0, 0);
  }

  lemma ClickElementNameMisses()
    ensures forall args :: !IsPotentiallyDestructive("click_element", args, Shipped.confirmWords)
  {
    ShippedWordsMiss("click_element", 0, 0, 0);
  }

  lemma PressKeyNameMisses()
    ensures forall args :: !IsPotentiallyDestructive("press_key", args, Shipped.confirmWords)
  {
    ShippedWordsMiss("press_key", 1, 0, 0);
  }

  lemma SelectorToolNameMisses()
    ensures forall args :: !IsPotentiallyDestructive("type_into_selector", args, Shipped.confirmWords)
  {
    ShippedWordsMiss("type_into_selector", 1, 2, 0);
  }

  lemma InputIndexToolNameMisses()
    ensures forall args :: !IsPotentiallyDestructive("type_into_input_index", args, Shipped.confirmWords)
  {
    ShippedWordsMiss("type_into_input_index", 1, 1, 2);
  }

  /**
   * With the shipped configuration the gate never fires on any of the six
   * tool names, whatever the arguments: only a name outside the vocabulary
   * can be gated.
   */
  lemma ShippedWordsNeverGateTools(name: string, args: Args)
    requires name in Vocabulary
    ensures !IsPotentiallyDestructive(name, args, Shipped.confirmWords)
  {
    NavigateNameMisses();
    ClickElementNameMisses();
    PressKeyNameMisses();
    SelectorToolNameMisses();
    InputIndexToolNameMisses();
  }

  /** `finish_task` is never gated, whatever the words and the answer. */
  lemma FinishTaskAlwaysCleared(args: Args, answer: string, words: seq<string>)
    ensures Cleared(FinishTask, args, answer, words)
  {
  }

  /** A name outside the vocabulary can be gated: a lower-case name such as `delete_order` that begins with `delete`. */
  lemma InventedNameIsGated(name: string, args: Args)
    requires StartsWith(name, "delete")
    requires forall k :: 0 <= k < |name| ==> 'a' <= name[k] <= 'z' || name[k] == '_'
    ensures IsPotentiallyDestructive(name, args, Shipped.confirmWords)
  {
    LowerKeepsSmall(name);
    assert name[0] != FinishTask[0];
    assert Contains(Lower(name), "delete");
    assert "delete" in Shipped.confirmWords;
  }
}
