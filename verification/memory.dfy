/**
 * memory.py: the bounded history of (page, action, result) steps the agent
 * shows the model, and its numbered text digest.
 */
module Memory {
  import opened Text
  import opened Json
  import opened Browser

  /** The action dict `{"tool": name, "args": args}` the control loop records. */
  datatype Action = Action(tool: string, args: Args)

  /** One stored step: only the page's URL and title are kept from the observation. */
  datatype Step = Step(url: string, title: string, action: Action, result: string)

  const ResultLimit := 200
  const NoSteps := "no previous steps yet"

  /** `steps[start:]` with Python's clamping of a negative or overlong start. */
  function SliceFrom(steps: seq<Step>, start: int): seq<Step> {
    var i := if start < 0 then (if start + |steps| < 0 then 0 else start + |steps|)
             else (if start > |steps| then |steps| else start);
    steps[i..]
  }

  /** The eviction in `add_step`: `if len(steps) > max_steps: steps = steps[-max_steps:]`. */
  function Evict(steps: seq<Step>, maxSteps: int): seq<Step> {
    if |steps| > maxSteps then SliceFrom(steps, -maxSteps) else steps
  }

  /** What the buffer holds after every step of `history` was added in turn. */
  function Retained(history: seq<Step>, maxSteps: int): seq<Step> {
    if history == [] then []
    else Evict(Retained(history[..|history| - 1], maxSteps) + [history[|history| - 1]], maxSteps)
  }

  /** `repr({"tool": name, "args": args})`. */
  function ActionRepr(a: Action): string {
    "{'tool': " + StrRepr(a.tool) + ", 'args': " + DictRepr(a.args) + "}"
  }

  /** The digest line of the step numbered `n`. */
  function StepLine(n: int, s: Step): string {
    "Step " + IntToString(n) + ": URL=" + s.url + ", Action=" + ActionRepr(s.action) + ", Result=" + s.result
  }

  /** The digest's lines, numbered from 1 in stored order. */
  function Lines(steps: seq<Step>): (lines: seq<string>)
    ensures |lines| == |steps|
    ensures forall k :: 0 <= k < |steps| ==> lines[k] == StepLine(k + 1, steps[k])
  {
    seq(|steps|, k requires 0 <= k < |steps| => StepLine(k + 1, steps[k]))
  }

  /** What `as_text` returns. */
  function Digest(steps: seq<Step>): string {
    if steps == [] then NoSteps else Join(Lines(steps), "\n")
  }

  class ConversationMemory {
    var maxSteps: int
    var steps: seq<Step>
    /** Every step ever added, evicted or not. */
    ghost var history: seq<Step>

    ghost predicate Valid()
      reads this
    {
      steps == Retained(history, maxSteps)
    }

    constructor (maxStepsInMemory: int)
      ensures maxSteps == maxStepsInMemory && steps == [] && history == []
      ensures Valid()
    {
      maxSteps := maxStepsInMemory;
      steps := [];
      history := [];
    }

    /** `add_step`: append the step, then evict from the front down to the cap. */
    method AddStep(observation: Observation, action: Action, result: string)
      requires Valid()
      modifies this`steps, this`history
      ensures history == old(history) + [Step(observation.url, observation.title, action, Take(result, ResultLimit))]
      ensures steps == Evict(old(steps) + [history[|history| - 1]], maxSteps)
      ensures Valid()
    {
      var step := Step(observation.url, observation.title, action, Take(result, ResultLimit));
      steps := steps + [step];
      if |steps| > maxSteps {
        steps := SliceFrom(steps, -maxSteps);
      }
      history := history + [step];
      assert history[..|history| - 1] == old(history);
    }

    /** `as_text`. */
    method AsText() returns (text: string)
      ensures text == Digest(steps)
    {
      if |steps| == 0 {
        return NoSteps;
      }
      ghost var all := Lines(steps);
      var lines: seq<string> := [];
      var i := 0;
      while i < |steps|
        invariant 0 <= i <= |steps|
        invariant lines == all[..i]
      {
        PrefixSnoc(all, i);
        lines := lines + [StepLine(i + 1, steps[i])];
        i := i + 1;
      }
      assert all[..i] == all;
      text := Join(lines, "\n");
    }
  }

  // ---------------------------------------------------------------- properties

  /**
   * With a cap of at least one, the buffer is a FIFO window: it holds the
   * last `maxSteps` steps ever added (all of them while there are fewer),
   * in the order they were added.
   */
  lemma {:induction false} RetainedIsLastWindow(history: seq<Step>, maxSteps: int)
    requires maxSteps >= 1
    ensures var n := if |history| <= maxSteps then |history| else maxSteps;
      Retained(history, maxSteps) == history[|history| - n..]
  {
    if history != [] {
      var front, last := history[..|history| - 1], history[|history| - 1];
      RetainedIsLastWindow(front, maxSteps);
      var n := if |front| <= maxSteps then |front| else maxSteps;
      WindowSlides(history, n);
      if |front| >= maxSteps {
        EvictDropsOldest(front[|front| - n..] + [last], maxSteps);
      }
    }
  }

  /** The window of the last `n` steps, plus the next step, is the window of the last `n + 1`. */
  lemma WindowSlides(history: seq<Step>, n: nat)
    requires 0 < |history| && n < |history|
    ensures var front := history[..|history| - 1];
      front[|front| - n..] + [history[|history| - 1]] == history[|history| - n - 1..]
  {
  }

  /** One step over a positive cap: eviction drops exactly the oldest step. */
  lemma EvictDropsOldest(steps: seq<Step>, maxSteps: int)
    requires maxSteps >= 1 && |steps| == maxSteps + 1
    ensures Evict(steps, maxSteps) == steps[1..]
  {
  }

  /** So with a cap of at least one the buffer never holds more than the cap. */
  lemma RetainedWithinCap(history: seq<Step>, maxSteps: int)
    requires maxSteps >= 1
    ensures |Retained(history, maxSteps)| <= maxSteps
    ensures |Retained(history, maxSteps)| == if |history| <= maxSteps then |history| else maxSteps
  {
    RetainedIsLastWindow(history, maxSteps);
  }

  /** A cap of zero evicts nothing, since `steps[-0:]` is the whole list. */
  lemma {:induction false} ZeroCapKeepsEverything(history: seq<Step>)
    ensures Retained(history, 0) == history
  {
    if history != [] {
      ZeroCapKeepsEverything(history[..|history| - 1]);
      assert history[..|history| - 1] + [history[|history| - 1]] == history;
    }
  }

  /** A negative cap `-k` drops the first `k` steps after every append, so the buffer stays empty. */
  lemma {:induction false} NegativeCapKeepsNothing(history: seq<Step>, maxSteps: int)
    requires maxSteps < 0
    ensures Retained(history, maxSteps) == []
  {
    if history != [] {
      NegativeCapKeepsNothing(history[..|history| - 1], maxSteps);
    }
  }

  /** The digest is the fixed placeholder exactly when there are no steps. */
  lemma DigestPlaceholderOnlyWhenEmpty(steps: seq<Step>)
    ensures Digest(steps) == NoSteps <==> steps == []
  {
    if steps != [] {
      var first := Lines(steps)[0];
      LineStartsWithStep(1, steps[0]);
      JoinStartsWithFirst(Lines(steps), "\n");
      assert Digest(steps)[0] == first[0] == 'S';
    }
  }

  lemma LineStartsWithStep(n: int, s: Step)
    ensures |StepLine(n, s)| > 0 && StepLine(n, s)[0] == 'S'
  {
  }

  lemma JoinStartsWithFirst(parts: seq<string>, sep: string)
    requires |parts| > 0 && |parts[0]| > 0
    ensures |Join(parts, sep)| > 0 && Join(parts, sep)[0] == parts[0][0]
  {
  }

  /** The k-th line of the digest names step k + 1 and the URL it was taken on. */
  lemma LineShowsNumberAndUrl(steps: seq<Step>, k: nat)
    requires k < |steps|
    ensures StartsWith(Lines(steps)[k], "Step " + IntToString(k + 1) + ": URL=" + steps[k].url)
  {
    var s := steps[k];
    StartsWithAppends("Step " + IntToString(k + 1) + ": URL=" + s.url, ", Action=", ActionRepr(s.action), ", Result=", s.result);
  }

  /** A step's line holds no line break when its URL and result hold none: the action's repr never does. */
  lemma StepLineIsOneLine(n: int, s: Step)
    requires '\n' !in s.url && '\n' !in s.result
    ensures '\n' !in StepLine(n, s)
  {
    ActionReprIsOneLine(s.action);
    NumeralIsOneLine(n);
    var head := "Step " + IntToString(n) + ": URL=";
    assert '\n' !in head;
    var middle := head + s.url + ", Action=" + ActionRepr(s.action);
    assert '\n' !in middle;
    assert StepLine(n, s) == middle + ", Result=" + s.result;
  }

  /** The repr of an action holds no line break: the reprs of its name and arguments hold no control character. */
  lemma ActionReprIsOneLine(a: Action)
    ensures '\n' !in ActionRepr(a)
  {
    StrReprPrintable(a.tool);
    DictReprPrintable(a.args);
    NoControlIsOneLine(StrRepr(a.tool));
    NoControlIsOneLine(DictRepr(a.args));
  }

  lemma NoControlIsOneLine(s: string)
    requires NoControl(s)
    ensures '\n' !in s
  {
  }

  lemma NumeralIsOneLine(n: int)
    ensures '\n' !in IntToString(n)
  {
    assert forall k :: 0 <= k < |IntToString(n)| ==> IntToString(n)[k] == '-' || '0' <= IntToString(n)[k] <= '9';
  }

  /**
   * When no stored URL or result holds a line break, splitting the digest
   * at line breaks gives back exactly one line per stored step, the k-th
   * numbered k+1, whatever was evicted before.
   */
  lemma DigestHasOneLinePerStep(steps: seq<Step>)
    requires steps != []
    requires forall k :: 0 <= k < |steps| ==> '\n' !in steps[k].url && '\n' !in steps[k].result
    ensures Split(Digest(steps), '\n') == Lines(steps)
    ensures |Split(Digest(steps), '\n')| == |steps|
  {
    forall k | 0 <= k < |steps|
      ensures '\n' !in Lines(steps)[k]
    {
      StepLineIsOneLine(k + 1, steps[k]);
    }
    SplitJoin(Lines(steps), '\n');
  }
}
