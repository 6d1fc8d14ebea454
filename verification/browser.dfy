/**
 * The bookkeeping half of `BrowserController` (browser_controller.py).
 *
 * Every Playwright query is replaced by the values it would have produced:
 * a `PageSnapshot` lists the open pages, the URL, the title, the text of the
 * document and, for each locator the controller enumerates, the candidate
 * elements in DOM order with the outcome of each per-element query. What the
 * controller does to the page (navigate, click, fill, press) is recorded in
 * the ghost log `actions`; an engine failure is given as the message of the
 * exception the call would raise.
 */
module Browser {
  import opened Wrappers
  import opened Text
  import opened Json
  import opened Config

  const ClickableSelector := "a, button, [role=button], input[type=submit], input[type=button]"
  const InputSelector := "input, textarea"
  /** The marker appended to cut body text, as the source spells it (three code points). */
  const TruncationMarker := "\U{E2}\U{20AC}\U{A6}"
  /** Length kept of a clickable's text and of an input's placeholder, name and label. */
  const FieldLimit := 120

  /** Outcome of `is_visible()` on one element. */
  datatype Visibility = Shown | NotShown | CheckFails

  /** One element matched by the clickable selector, with what each query on it returns. */
  datatype Candidate = Candidate(
    visibility: Visibility,
    innerText: Option<string>,   // None: inner_text() raised
    ariaLabel: Option<string>,   // None: attribute absent
    title: Option<string>,       // None: attribute absent
    href: Option<string>,        // None: attribute absent
    tagName: Option<string>)     // lower-case tag; None: evaluate() raised

  /** Result of `get_attribute(...)`: missing, a value, or an exception. */
  datatype Attr = Absent | Present(value: string) | ReadFails

  /** One element matched by `input, textarea`. */
  datatype InputCandidate = InputCandidate(
    typeAttr: Attr,
    visibility: Visibility,
    placeholder: Attr,
    name: Attr,
    firstLabel: Option<string>)   // text of its first label; None: no label, or evaluate() raised

  datatype PageHandle = PageHandle(id: nat, closed: bool)

  /** What the live browser answers while one observation is taken. */
  datatype PageSnapshot = PageSnapshot(
    pages: Option<seq<PageHandle>>,        // context.pages in opening order; None: enumeration raised
    url: Option<string>,                   // None: reading page.url raised
    title: Option<string>,                 // None: page.title() raised
    text: string,                          // the page's stripped strings joined by single spaces
    overlay: Option<seq<Candidate>>,       // clickables under the first dialog; None: no dialog or a query raised
    clickables: Option<seq<Candidate>>,    // clickables of the whole page; None: count() raised
    inputs: Option<seq<InputCandidate>>)   // None: count() raised

  /** An entry of `current_elements`. */
  datatype Clickable = Clickable(index: int, tag: string, text: string, href: Option<string>, selector: string, nth: nat)

  /** An entry of `current_inputs`. */
  datatype InputField = InputField(index: int, kind: string, placeholder: string, name: string, labelText: string)

  /** The dictionary `get_observation` returns. */
  datatype Observation = Observation(
    url: string, title: string, bodyText: string,
    clickables: seq<Clickable>, inputs: seq<InputField>)

  /** An interaction the controller performs on the current page. */
  datatype PageAction =
    | Navigate(url: Value)
    | ClickAt(selector: string, nth: int)
    | FillFirst(query: Value, text: Value, enter: bool)
    | FillAt(selector: string, nth: int, text: Value, enter: bool)
    | Keystroke(key: Value)

  /** How a controller call ends: normally, or with an exception carrying `message`. */
  datatype Status = Completed | Raised(message: string)

  /** The status of a controller call together with the interactions it performed. */
  datatype Effect = Effect(status: Status, actions: seq<PageAction>)

  function StatusOf(fault: Option<string>): Status {
    if fault.Some? then Raised(fault.value) else Completed
  }

  function Min(a: nat, b: nat): nat { if a <= b then a else b }

  // ---------------------------------------------------------------- pages

  /** `[p for p in pages if not p.is_closed()]`. */
  function OpenPages(ps: seq<PageHandle>): (r: seq<PageHandle>)
    ensures |r| <= |ps|
    ensures forall k :: 0 <= k < |r| ==> !r[k].closed
  {
    if ps == [] then []
    else OpenPages(ps[..|ps| - 1]) + (if ps[|ps| - 1].closed then [] else [ps[|ps| - 1]])
  }

  /** The page `_sync_to_latest_page` leaves selected. */
  function LatestPage(current: nat, pages: Option<seq<PageHandle>>): nat {
    if pages.None? then current
    else
      var open := OpenPages(pages.value);
      if open == [] then current else open[|open| - 1].id
  }

  /** The filtered list is empty exactly when every page is closed. */
  lemma {:induction false} OpenPagesEmpty(ps: seq<PageHandle>)
    ensures OpenPages(ps) == [] <==> forall j :: 0 <= j < |ps| ==> ps[j].closed
  {
    if ps != [] {
      var init := ps[..|ps| - 1];
      OpenPagesEmpty(init);
      assert forall i :: 0 <= i < |init| ==> ps[i] == init[i];
    }
  }

  /** Otherwise its last entry is the last open page: every page after it is closed. */
  lemma {:induction false} OpenPagesLast(ps: seq<PageHandle>)
    requires OpenPages(ps) != []
    ensures exists j :: 0 <= j < |ps| && ps[j] == OpenPages(ps)[|OpenPages(ps)| - 1]
                     && !ps[j].closed && forall k :: j < k < |ps| ==> ps[k].closed
  {
    var init := ps[..|ps| - 1];
    if ps[|ps| - 1].closed {
      assert OpenPages(ps) == OpenPages(init) + [];
      OpenPagesLast(init);
      var j :| 0 <= j < |init| && init[j] == OpenPages(init)[|OpenPages(init)| - 1]
        && !init[j].closed && forall k :: j < k < |init| ==> init[k].closed;
      assert ps[j] == init[j];
      forall k | j < k < |ps|
        ensures ps[k].closed
      {
        if k < |init| {
          assert ps[k] == init[k];
        }
      }
    } else {
      assert OpenPages(ps)[|OpenPages(ps)| - 1] == ps[|ps| - 1];
    }
  }

  /**
   * `_sync_to_latest_page` selects the last page that is still open; it keeps
   * the current page when enumeration fails or every page is closed.
   */
  lemma LatestPageIsLastOpen(current: nat, pages: Option<seq<PageHandle>>)
    ensures pages.None? ==> LatestPage(current, pages) == current
    ensures pages.Some? && (forall j :: 0 <= j < |pages.value| ==> pages.value[j].closed) ==>
      LatestPage(current, pages) == current
    ensures pages.Some? && (exists j :: 0 <= j < |pages.value| && !pages.value[j].closed) ==>
      exists j :: 0 <= j < |pages.value| && !pages.value[j].closed
        && pages.value[j].id == LatestPage(current, pages)
        && forall k :: j < k < |pages.value| ==> pages.value[k].closed
  {
    if pages.Some? {
      OpenPagesEmpty(pages.value);
      if OpenPages(pages.value) != [] {
        OpenPagesLast(pages.value);
      }
    }
  }

  // ---------------------------------------------------------------- body text

  /** The body text after the length cut of `get_observation`. */
  function TruncateBody(text: string, limit: nat): (r: string)
    ensures |r| <= limit + |TruncationMarker|
    ensures StartsWith(r, Take(text, limit))
    ensures |text| <= limit ==> r == text
    ensures |text| > limit <==> |r| == limit + |TruncationMarker| && r[limit..] == TruncationMarker
  {
    if |text| > limit then text[..limit] + TruncationMarker else text
  }

  // ---------------------------------------------------------------- positions

  /** The positions `i < n` of `s` whose element `keep` accepts, in increasing order. */
  function Positions<T>(s: seq<T>, n: nat, keep: T -> bool): (ps: seq<nat>)
    requires n <= |s|
    ensures |ps| <= n
    ensures forall k :: 0 <= k < |ps| ==> ps[k] < n && keep(s[ps[k]])
  {
    if n == 0 then [] else Positions(s, n - 1, keep) + (if keep(s[n - 1]) then [n - 1] else [])
  }

  /** One more element adds its own position when accepted and nothing otherwise. */
  lemma PositionsStep<T>(s: seq<T>, n: nat, keep: T -> bool)
    requires n < |s|
    ensures keep(s[n]) ==> Positions(s, n + 1, keep) == Positions(s, n, keep) + [n]
    ensures !keep(s[n]) ==> Positions(s, n + 1, keep) == Positions(s, n, keep)
  {
    assert Positions(s, n, keep) + [] == Positions(s, n, keep);
  }

  /** A scan that met no rejected element so far and accepts the next one still has met none. */
  lemma NoneRejectedStep<T>(s: seq<T>, n: nat, bad: T -> bool)
    requires n < |s| && !bad(s[n])
    requires forall j :: 0 <= j < n ==> !bad(s[j])
    ensures forall j :: 0 <= j < n + 1 ==> !bad(s[j])
  {
  }

  /** The positions come in increasing order and miss no accepted element. */
  lemma {:induction false} PositionsSortedComplete<T>(s: seq<T>, n: nat, keep: T -> bool)
    requires n <= |s|
    ensures forall k, j :: 0 <= k < j < |Positions(s, n, keep)| ==> Positions(s, n, keep)[k] < Positions(s, n, keep)[j]
    ensures forall i :: 0 <= i < n && keep(s[i]) ==> i in Positions(s, n, keep)
  {
    if n > 0 {
      PositionsSortedComplete(s, n - 1, keep);
    }
  }

  /** Scanning further only appends positions. */
  lemma {:induction false} PositionsPrefix<T>(s: seq<T>, i: nat, n: nat, keep: T -> bool)
    requires i <= n <= |s|
    ensures |Positions(s, i, keep)| <= |Positions(s, n, keep)|
    ensures Positions(s, i, keep) == Positions(s, n, keep)[..|Positions(s, i, keep)|]
    decreases n - i
  {
    if i < n {
      PositionsPrefix(s, i, n - 1, keep);
      var p := Positions(s, n - 1, keep);
      assert Positions(s, n, keep)[..|p|] == p;
    }
  }

  /**
   * The k-th accepted position is at least k, and equals k exactly when no
   * element before it was rejected.
   */
  lemma {:induction false} PositionsOffset<T>(s: seq<T>, n: nat, keep: T -> bool, k: nat)
    requires n <= |s| && k < |Positions(s, n, keep)|
    ensures Positions(s, n, keep)[k] >= k
    ensures Positions(s, n, keep)[k] == k <==> forall j :: 0 <= j < Positions(s, n, keep)[k] ==> keep(s[j])
    decreases n
  {
    var ps := Positions(s, n, keep);
    var init := Positions(s, n - 1, keep);
    if k < |init| {
      PositionsOffset(s, n - 1, keep, k);
      assert ps[k] == init[k];
    } else {
      assert k == |init| && ps[k] == n - 1;
      PositionsSkip(s, n - 1, keep);
    }
  }

  /** When fewer positions than the scan length are accepted, something was rejected. */
  lemma {:induction false} PositionsSkip<T>(s: seq<T>, n: nat, keep: T -> bool)
    requires n <= |s|
    ensures |Positions(s, n, keep)| < n <==> exists j :: 0 <= j < n && !keep(s[j])
    decreases n
  {
    if n > 0 {
      PositionsSkip(s, n - 1, keep);
    }
  }

  // ---------------------------------------------------------------- clickables

  predicate IsShown(c: Candidate) { c.visibility == Shown }

  /**
   * The displayed text of a clickable: its stripped inner text, or when that
   * is empty the stripped `aria-label`, or when that is missing or empty the
   * stripped `title`.
   */
  function DisplayText(c: Candidate): string {
    var text := if c.innerText.Some? then Strip(c.innerText.value) else "";
    if text != "" then text
    else
      var fallback := if c.ariaLabel.Some? && c.ariaLabel.value != "" then c.ariaLabel else c.title;
      if fallback.Some? && fallback.value != "" then Strip(fallback.value) else text
  }

  /**
   * The displayed text is the stripped inner text unless that is empty; then
   * the stripped `aria-label` when it is present and not empty, else the
   * stripped `title` when it is, else nothing. Either way it neither starts
   * nor ends with white space.
   */
  lemma DisplayTextFallback(c: Candidate)
    ensures var inner := if c.innerText.Some? then Strip(c.innerText.value) else "";
      var labelled := c.ariaLabel.Some? && c.ariaLabel.value != "";
      var titled := c.title.Some? && c.title.value != "";
      && (inner != "" ==> DisplayText(c) == inner)
      && (inner == "" && labelled ==> DisplayText(c) == Strip(c.ariaLabel.value))
      && (inner == "" && !labelled && titled ==> DisplayText(c) == Strip(c.title.value))
      && (inner == "" && !labelled && !titled ==> DisplayText(c) == "")
    ensures var d := DisplayText(c);
      d == [] || (!IsSpace(d[0]) && !IsSpace(d[|d| - 1]))
  {
    if c.innerText.Some? {
      StripTrims(c.innerText.value);
    }
    if c.ariaLabel.Some? {
      StripTrims(c.ariaLabel.value);
    }
    if c.title.Some? {
      StripTrims(c.title.value);
    }
  }

  /** The record `add_clickables` appends for candidate `c` found at raw position `nth`. */
  function Record(c: Candidate, index: int, nth: nat): Clickable {
    Clickable(index, c.tagName.GetOr("unknown"), Take(DisplayText(c), FieldLimit), c.href, ClickableSelector, nth)
  }

  function Room(used: nat, limit: nat): nat { if used < limit then limit - used else 0 }

  /** The records of the candidates at raw positions `ps`, numbered from `base`. */
  function Records(cands: seq<Candidate>, ps: seq<nat>, base: nat): seq<Clickable>
    requires forall k :: 0 <= k < |ps| ==> ps[k] < |cands|
  {
    seq(|ps|, k requires 0 <= k < |ps| => Record(cands[ps[k]], base + k, ps[k]))
  }

  /** One more candidate extends the records by its own record when it is visible, and leaves them alone otherwise. */
  lemma RecordsStep(cands: seq<Candidate>, i: nat, base: nat)
    requires i < |cands|
    ensures var ps := Positions(cands, i, IsShown);
      !IsShown(cands[i]) ==> Records(cands, Positions(cands, i + 1, IsShown), base) == Records(cands, ps, base)
    ensures var ps := Positions(cands, i, IsShown);
      IsShown(cands[i]) ==>
        Records(cands, Positions(cands, i + 1, IsShown), base) == Records(cands, ps, base) + [Record(cands[i], base + |ps|, i)]
  {
    PositionsStep(cands, i, IsShown);
  }

  /** The records one `add_clickables` pass appends after `base` existing ones. */
  function Collected(cands: seq<Candidate>, base: nat, limit: nat): (r: seq<Clickable>)
    ensures |r| <= Room(base, limit)
    ensures forall k :: 0 <= k < |r| ==> r[k].index == base + k
  {
    var all := Positions(cands, |cands|, IsShown);
    Records(cands, all[..Min(|all|, Room(base, limit))], base)
  }

  /**
   * A pass keeps only candidates whose visibility check succeeded with true,
   * each recorded with its raw position under its root as `nth`.
   */
  lemma CollectedKeepsVisible(cands: seq<Candidate>, base: nat, limit: nat)
    ensures var r := Collected(cands, base, limit);
      forall k :: 0 <= k < |r| ==>
        r[k].nth < |cands| && IsShown(cands[r[k].nth]) && r[k] == Record(cands[r[k].nth], base + k, r[k].nth)
  {
    var all := Positions(cands, |cands|, IsShown);
    var r := Collected(cands, base, limit);
    forall k | 0 <= k < |r|
      ensures r[k].nth < |cands| && IsShown(cands[r[k].nth]) && r[k] == Record(cands[r[k].nth], base + k, r[k].nth)
    {
      assert r[k] == Record(cands[all[k]], base + k, all[k]);
    }
  }

  /** A pass records candidates in DOM order. */
  lemma CollectedInDomOrder(cands: seq<Candidate>, base: nat, limit: nat)
    ensures var r := Collected(cands, base, limit);
      forall k, j :: 0 <= k < j < |r| ==> r[k].nth < r[j].nth
  {
    var all := Positions(cands, |cands|, IsShown);
    var r := Collected(cands, base, limit);
    PositionsSortedComplete(cands, |cands|, IsShown);
    forall k, j | 0 <= k < j < |r|
      ensures r[k].nth < r[j].nth
    {
      assert r[k].nth == all[k] && r[j].nth == all[j];
    }
  }

  /** A pass that stops short of the cap has recorded every visible candidate. */
  lemma CollectedMissesNoneUnlessCapped(cands: seq<Candidate>, base: nat, limit: nat, p: nat)
    requires p < |cands| && IsShown(cands[p])
    requires |Collected(cands, base, limit)| < Room(base, limit)
    ensures exists k :: 0 <= k < |Collected(cands, base, limit)| && Collected(cands, base, limit)[k].nth == p
  {
    var all := Positions(cands, |cands|, IsShown);
    PositionsSortedComplete(cands, |cands|, IsShown);
    var k :| 0 <= k < |all| && all[k] == p;
    assert Collected(cands, base, limit)[k].nth == p;
  }

  /**
   * A pass that stops at the cap kept the first visible candidates: a visible
   * candidate before a recorded one was recorded earlier in the same pass.
   */
  lemma CollectedIsFirstVisible(cands: seq<Candidate>, base: nat, limit: nat, k: nat, p: nat)
    requires k < |Collected(cands, base, limit)|
    requires p < Collected(cands, base, limit)[k].nth && IsShown(cands[p])
    ensures exists j :: 0 <= j < k && Collected(cands, base, limit)[j].nth == p
  {
    var all := Positions(cands, |cands|, IsShown);
    var r := Collected(cands, base, limit);
    CollectedNth(cands, base, limit);
    PositionsSortedComplete(cands, |cands|, IsShown);
    var j := SmallerComesFirst(all, k, p);
    assert r[j].nth == p;
  }

  /** Record k of a pass is at the k-th visible position. */
  lemma CollectedNth(cands: seq<Candidate>, base: nat, limit: nat)
    ensures var r := Collected(cands, base, limit);
      var all := Positions(cands, |cands|, IsShown);
      |r| <= |all| && forall j :: 0 <= j < |r| ==> r[j].nth == all[j]
  {
  }

  /** In a strictly increasing sequence, an element below entry k sits at an earlier index. */
  lemma SmallerComesFirst(s: seq<nat>, k: nat, x: nat) returns (j: nat)
    requires forall i, i' :: 0 <= i < i' < |s| ==> s[i] < s[i']
    requires k < |s| && x < s[k] && x in s
    ensures j < k && s[j] == x
  {
    j :| 0 <= j < |s| && s[j] == x;
  }

  /** The clickable table of an observation: the first dialog's pass, then the whole page's. */
  function ClickablesOf(overlay: Option<seq<Candidate>>, page: Option<seq<Candidate>>, limit: nat): (r: seq<Clickable>)
    ensures |r| <= limit
    ensures forall k :: 0 <= k < |r| ==> r[k].index == k
  {
    var first := if overlay.Some? then Collected(overlay.value, 0, limit) else [];
    if |first| < limit && page.Some? then first + Collected(page.value, |first|, limit) else first
  }

  /**
   * While the cap is not reached, a visible candidate found both under the
   * first dialog and in the whole page is recorded twice, once by each pass.
   * The first record's `nth` is its position under the dialog, yet it carries
   * the page-wide selector that clicks resolve it against.
   */
  lemma OverlayElementsRecordedTwice(overlay: seq<Candidate>, page: seq<Candidate>, limit: nat, p: nat, q: nat)
    requires p < |overlay| && q < |page| && overlay[p] == page[q] && IsShown(page[q])
    requires |Positions(overlay, |overlay|, IsShown)| + |Positions(page, |page|, IsShown)| < limit
    ensures var r := ClickablesOf(Some(overlay), Some(page), limit);
      exists k1, k2 :: 0 <= k1 < |Collected(overlay, 0, limit)| <= k2 < |r|
        && r[k1] == Record(page[q], k1, p) && r[k2] == Record(page[q], k2, q)
        && r[k1].selector == r[k2].selector == ClickableSelector
  {
    var first := Collected(overlay, 0, limit);
    CollectedWhole(overlay, 0, limit);
    var second := Collected(page, |first|, limit);
    CollectedWhole(page, |first|, limit);
    BothPasses(overlay, page, limit);
    var k1 := RecordOf(overlay, 0, limit, p);
    var j := RecordOf(page, |first|, limit, q);
    BothRecorded(ClickablesOf(Some(overlay), Some(page), limit), first, second, page[q], k1, p, j, q);
  }
  /** Splitting a concatenation: one hit in each part gives the two witnesses. */
  lemma BothRecorded(r: seq<Clickable>, first: seq<Clickable>, second: seq<Clickable>, c: Candidate, k1: nat, p: nat, j: nat, q: nat)
    requires r == first + second && k1 < |first| && j < |second|
    requires first[k1] == Record(c, k1, p) && second[j] == Record(c, |first| + j, q)
    ensures exists a, b :: (0 <= a < |first| <= b < |r|
      && r[a] == Record(c, a, p) && r[b] == Record(c, b, q)
      && r[a].selector == r[b].selector == ClickableSelector)
  {
    IndexConcat(first, second, k1, |first| + j);
    assert r[|first| + j] == Record(c, |first| + j, q);
  }
  lemma BothPasses(overlay: seq<Candidate>, page: seq<Candidate>, limit: nat)
    requires |Collected(overlay, 0, limit)| < limit
    ensures ClickablesOf(Some(overlay), Some(page), limit)
      == Collected(overlay, 0, limit) + Collected(page, |Collected(overlay, 0, limit)|, limit)
  {
  }

  lemma IndexConcat<T>(a: seq<T>, b: seq<T>, i: nat, j: nat)
    requires i < |a| <= j < |a| + |b|
    ensures (a + b)[i] == a[i] && (a + b)[j] == b[j - |a|]
  {
  }

  /** A pass with room for every visible candidate records them all. */
  lemma CollectedWhole(cands: seq<Candidate>, base: nat, limit: nat)
    requires base + |Positions(cands, |cands|, IsShown)| < limit
    ensures |Collected(cands, base, limit)| == |Positions(cands, |cands|, IsShown)|
  {
  }

  /** Where such a pass records the visible candidate at raw position `p`. */
  lemma RecordOf(cands: seq<Candidate>, base: nat, limit: nat, p: nat) returns (k: nat)
    requires p < |cands| && IsShown(cands[p])
    requires |Collected(cands, base, limit)| < Room(base, limit)
    ensures k < |Collected(cands, base, limit)| && Collected(cands, base, limit)[k] == Record(cands[p], base + k, p)
  {
    CollectedMissesNoneUnlessCapped(cands, base, limit, p);
    CollectedKeepsVisible(cands, base, limit);
    k :| 0 <= k < |Collected(cands, base, limit)| && Collected(cands, base, limit)[k].nth == p;
  }

  /** `add_clickables`: appends to `elements` the records of one root's candidates. */
  method AddClickables(elements: seq<Clickable>, root: Option<seq<Candidate>>, limit: nat) returns (out: seq<Clickable>)
    ensures out == elements + (if root.Some? then Collected(root.value, |elements|, limit) else [])
  {
    out := elements;
    if root.None? {
      assert out == elements + [];
      return;
    }
    var cands := root.value;
    ghost var base := |elements|;
    var i := 0;
    // the loop of `add_clickables` breaks as soon as the table is full
    while i < |cands| && |out| < limit
      invariant 0 <= i <= |cands|
      invariant |Positions(cands, i, IsShown)| <= Room(base, limit)
      invariant |out| == base + |Positions(cands, i, IsShown)|
      invariant out == elements + Records(cands, Positions(cands, i, IsShown), base)
    {
      var el := cands[i];
      AddClickablesStep(elements, cands, i, limit, out);
      if el.visibility == Shown {
        out := out + [Record(el, |out|, i)];
      }
      i := i + 1;
    }
    CollectedFrom(cands, base, limit, i);
  }

  /** One turn of the loop of `AddClickables` keeps its invariant. */
  lemma AddClickablesStep(elements: seq<Clickable>, cands: seq<Candidate>, i: nat, limit: nat, out: seq<Clickable>)
    requires i < |cands| && |out| < limit
    requires out == elements + Records(cands, Positions(cands, i, IsShown), |elements|)
    ensures var next := if IsShown(cands[i]) then out + [Record(cands[i], |out|, i)] else out;
      && |Positions(cands, i + 1, IsShown)| <= Room(|elements|, limit)
      && |next| == |elements| + |Positions(cands, i + 1, IsShown)|
      && next == elements + Records(cands, Positions(cands, i + 1, IsShown), |elements|)
  {
    var ps := Positions(cands, i, IsShown);
    RecordsStep(cands, i, |elements|);
    if IsShown(cands[i]) {
      AppendAssociates(elements, Records(cands, ps, |elements|), [Record(cands[i], |out|, i)]);
    }
  }

  /** Where the loop of `AddClickables` stops, its records are those of `Collected`. */
  lemma CollectedFrom(cands: seq<Candidate>, base: nat, limit: nat, i: nat)
    requires i <= |cands|
    requires |Positions(cands, i, IsShown)| <= Room(base, limit)
    requires i == |cands| || base + |Positions(cands, i, IsShown)| >= limit
    ensures Records(cands, Positions(cands, i, IsShown), base) == Collected(cands, base, limit)
  {
    var all := Positions(cands, |cands|, IsShown);
    PositionsPrefix(cands, i, |cands|, IsShown);
    assert Positions(cands, i, IsShown) == all[..Min(|all|, Room(base, limit))];
  }

  // ---------------------------------------------------------------- inputs

  /** The lower-cased `type` attribute, empty when missing. */
  function KindOf(c: InputCandidate): string {
    Lower(if c.typeAttr.Present? then c.typeAttr.value else "")
  }

  predicate SkippedKind(kind: string) {
    kind == "hidden" || kind == "submit" || kind == "button" || kind == "image"
  }

  /** Reaches the end of the loop body: a failed visibility check does not skip. */
  predicate Listed(c: InputCandidate) {
    !c.typeAttr.ReadFails? && !SkippedKind(KindOf(c)) && c.visibility != NotShown
  }

  /** Makes the input pass raise, which empties the whole input table. */
  predicate Raises(c: InputCandidate) {
    c.typeAttr.ReadFails?
    || (!SkippedKind(KindOf(c)) && c.visibility != NotShown && (c.placeholder.ReadFails? || c.name.ReadFails?))
  }

  /** `get_attribute(...) or ""` for an attribute whose read succeeded. */
  function AttrText(a: Attr): string {
    if a.Present? then a.value else ""
  }

  function Field(c: InputCandidate, index: int): InputField {
    InputField(index, KindOf(c), Take(AttrText(c.placeholder), FieldLimit), Take(AttrText(c.name), FieldLimit),
               Take(Strip(c.firstLabel.GetOr("")), FieldLimit))
  }

  /** The input table of an observation. */
  function InputsOf(query: Option<seq<InputCandidate>>, limit: nat): (r: seq<InputField>)
    ensures |r| <= limit
    ensures forall k :: 0 <= k < |r| ==> r[k].index == k
  {
    if query.None? then []
    else
      var q := query.value;
      var n := Min(|q|, limit);
      if exists i :: 0 <= i < n && Raises(q[i]) then []
      else Fields(q, Positions(q, n, Listed))
  }

  /** The entries of the inputs at raw positions `ps`, numbered densely from 0. */
  function Fields(q: seq<InputCandidate>, ps: seq<nat>): seq<InputField>
    requires forall k :: 0 <= k < |ps| ==> ps[k] < |q|
  {
    seq(|ps|, k requires 0 <= k < |ps| => Field(q[ps[k]], k))
  }

  /** One turn of the loop of `CollectInputs` keeps its invariant. */
  lemma CollectInputsStep(q: seq<InputCandidate>, i: nat, fields: seq<InputField>)
    requires i < |q| && fields == Fields(q, Positions(q, i, Listed))
    ensures Listed(q[i]) ==> fields + [Field(q[i], |fields|)] == Fields(q, Positions(q, i + 1, Listed))
    ensures !Listed(q[i]) ==> fields == Fields(q, Positions(q, i + 1, Listed))
  {
    PositionsStep(q, i, Listed);
  }

  /** A failing count, or a failing attribute read among the scanned inputs, empties the input table. */
  lemma InputsOfFailure(query: Option<seq<InputCandidate>>, limit: nat)
    requires query.Some? ==> exists i :: 0 <= i < Min(|query.value|, limit) && Raises(query.value[i])
    ensures InputsOf(query, limit) == []
  {
  }

  /**
   * Otherwise the pass scans only the first `min(count, limit)` inputs, and
   * every entry comes from a listed one: not of the hidden/submit/button/image
   * types and not reported invisible (a failed visibility check does not skip).
   */
  lemma InputsOfSound(q: seq<InputCandidate>, limit: nat, k: nat)
    requires forall i :: 0 <= i < Min(|q|, limit) ==> !Raises(q[i])
    requires k < |InputsOf(Some(q), limit)|
    ensures exists p :: 0 <= p < Min(|q|, limit) && Listed(q[p]) && InputsOf(Some(q), limit)[k] == Field(q[p], k)
  {
    var n := Min(|q|, limit);
    var ps := Positions(q, n, Listed);
    assert !exists i :: 0 <= i < n && Raises(q[i]);
    var p := ps[k];
    assert InputsOf(Some(q), limit)[k] == Field(q[p], k);
  }

  /** ... and every listed input among those scanned has an entry. */
  lemma InputsOfComplete(q: seq<InputCandidate>, limit: nat, p: nat)
    requires forall i :: 0 <= i < Min(|q|, limit) ==> !Raises(q[i])
    requires p < Min(|q|, limit) && Listed(q[p])
    ensures exists k :: 0 <= k < |InputsOf(Some(q), limit)| && InputsOf(Some(q), limit)[k] == Field(q[p], k)
  {
    var n := Min(|q|, limit);
    var ps := Positions(q, n, Listed);
    PositionsSortedComplete(q, n, Listed);
    assert !exists i :: 0 <= i < n && Raises(q[i]);
    var k :| 0 <= k < |ps| && ps[k] == p;
    assert InputsOf(Some(q), limit)[k] == Field(q[p], k);
  }

  /**
   * `type_into_input_index(k)` addresses raw input `k` of `input, textarea`,
   * while the k-th entry describes raw input `Positions(...)[k]`: the two
   * coincide exactly when no input before that one was left out.
   */
  lemma InputOrdinalVersusRawPosition(q: seq<InputCandidate>, limit: nat, k: nat)
    requires forall i :: 0 <= i < Min(|q|, limit) ==> !Raises(q[i])
    requires k < |InputsOf(Some(q), limit)|
    ensures var ps := Positions(q, Min(|q|, limit), Listed);
      && k < |ps|
      && InputsOf(Some(q), limit)[k] == Field(q[ps[k]], k)
      && ps[k] >= k
      && (ps[k] == k <==> forall j :: 0 <= j < ps[k] ==> Listed(q[j]))
  {
    PositionsOffset(q, Min(|q|, limit), Listed, k);
  }

  /** What one iteration of the input loop makes of one input. */
  datatype Inspection = Skipped | Failed | Kept(field: InputField)

  /**
   * The body of the input loop for input `el`, which would get entry number
   * `ordinal`: a failed read raises, a hidden/submit/button/image type or a
   * negative visibility check skips, anything else is kept.
   */
  method InspectInput(el: InputCandidate, ordinal: nat) returns (r: Inspection)
    ensures r.Failed? <==> Raises(el)
    ensures r.Kept? <==> Listed(el) && !Raises(el)
    ensures r.Kept? ==> r.field == Field(el, ordinal)
  {
    if el.typeAttr.ReadFails? {
      return Failed;
    }
    var kind := Lower(if el.typeAttr.Present? then el.typeAttr.value else "");
    if kind == "hidden" || kind == "submit" || kind == "button" || kind == "image" {
      return Skipped;
    }
    if el.visibility == NotShown {
      return Skipped;
    }
    if el.placeholder.ReadFails? || el.name.ReadFails? {
      return Failed;
    }
    var placeholder := AttrText(el.placeholder);
    var name := AttrText(el.name);
    var labelText := el.firstLabel.GetOr("");
    r := Kept(InputField(ordinal, kind, Take(placeholder, FieldLimit), Take(name, FieldLimit),
                         Take(Strip(labelText), FieldLimit)));
  }

  /** The loop of `get_observation` that builds `input_elements`. */
  method CollectInputs(query: Option<seq<InputCandidate>>, limit: nat) returns (fields: seq<InputField>)
    ensures fields == InputsOf(query, limit)
  {
    fields := [];
    if query.None? {
      return;
    }
    var q := query.value;
    var count := Min(|q|, limit);
    var i := 0;
    while i < count
      invariant 0 <= i <= count
      invariant forall j :: 0 <= j < i ==> !Raises(q[j])
      invariant fields == Fields(q, Positions(q, i, Listed))
    {
      var inspected := InspectInput(q[i], |fields|);
      if inspected.Failed? {
        InputsOfFailure(query, limit);
        return [];
      }
      CollectInputsStep(q, i, fields);
      NoneRejectedStep(q, i, Raises);
      if inspected.Kept? {
        fields := fields + [inspected.field];
      }
      i := i + 1;
    }
    assert !exists j :: 0 <= j < count && Raises(q[j]);
  }

  // ---------------------------------------------------------------- observation

  /** The observation `get_observation` returns for a snapshot. */
  function Observe(snap: PageSnapshot, cfg: Config): (obs: Observation)
    ensures |obs.bodyText| <= cfg.maxPageTextChars + |TruncationMarker|
    ensures |obs.clickables| <= cfg.maxElements && |obs.inputs| <= cfg.maxInputElements
    ensures forall k :: 0 <= k < |obs.clickables| ==> obs.clickables[k].index == k
    ensures forall k :: 0 <= k < |obs.inputs| ==> obs.inputs[k].index == k
    ensures snap.url.None? ==> obs.url == "about:blank"
  {
    Observation(
      snap.url.GetOr("about:blank"),
      snap.title.GetOr(""),
      TruncateBody(snap.text, cfg.maxPageTextChars),
      ClickablesOf(snap.overlay, snap.clickables, cfg.maxElements),
      InputsOf(snap.inputs, cfg.maxInputElements))
  }

  // ---------------------------------------------------------------- index resolution

  /** `index < 0` on a value: Python compares booleans as 0 and 1 and rejects strings and None. */
  function AsIndex(v: Value): Option<int> {
    match v
    case Int(i) => Some(i)
    case Bool(b) => Some(if b then 1 else 0)
    case _ => None
  }

  /** The message of the `TypeError` raised by `index < 0` when `AsIndex` fails. */
  function CompareError(v: Value): string {
    "'<' not supported between instances of '" + TypeName(v) + "' and 'int'"
  }

  /** The message of the `IndexError`, which shows the index as it was passed. */
  function IndexError(kind: string, index: Value): string {
    kind + " index " + Show(index) + " is out of range"
  }

  /** The index passes both comparisons against a table of `n` entries. */
  predicate InRange(index: Value, n: nat) {
    AsIndex(index).Some? && 0 <= AsIndex(index).value < n
  }

  /** What `click_by_element_index` does against the clickable table. */
  function ClickEffect(elements: seq<Clickable>, index: Value, fault: Option<string>): (e: Effect)
    ensures e.actions == [] <==> !InRange(index, |elements|)
    ensures AsIndex(index).None? ==> e.status == Raised(CompareError(index))
    ensures AsIndex(index).Some? && !InRange(index, |elements|) ==> e.status == Raised(IndexError("Element", index))
    ensures InRange(index, |elements|) ==>
      var i := AsIndex(index).value;
      e.actions == [ClickAt(elements[i].selector, elements[i].nth)] && e.status == StatusOf(fault)
  {
    match AsIndex(index)
    case None => Effect(Raised(CompareError(index)), [])
    case Some(i) =>
      if i < 0 || i >= |elements| then Effect(Raised(IndexError("Element", index)), [])
      else Effect(StatusOf(fault), [ClickAt(elements[i].selector, elements[i].nth)])
  }

  /** What `type_into_input_index` does against the input table. */
  function TypeIndexEffect(inputs: seq<InputField>, index: Value, text: Value, enter: bool, fault: Option<string>): (e: Effect)
    ensures e.actions == [] <==> !InRange(index, |inputs|)
    ensures AsIndex(index).None? ==> e.status == Raised(CompareError(index))
    ensures AsIndex(index).Some? && !InRange(index, |inputs|) ==> e.status == Raised(IndexError("Input", index))
    ensures InRange(index, |inputs|) ==>
      e.actions == [FillAt(InputSelector, inputs[AsIndex(index).value].index, text, enter)] && e.status == StatusOf(fault)
  {
    match AsIndex(index)
    case None => Effect(Raised(CompareError(index)), [])
    case Some(i) =>
      if i < 0 || i >= |inputs| then Effect(Raised(IndexError("Input", index)), [])
      else Effect(StatusOf(fault), [FillAt(InputSelector, inputs[i].index, text, enter)])
  }

  /** An in-range input index is located at that same ordinal, since the table is densely indexed. */
  lemma TypeIndexUsesDenseOrdinal(snap: PageSnapshot, cfg: Config, index: Value, text: Value, enter: bool, fault: Option<string>)
    requires InRange(index, |Observe(snap, cfg).inputs|)
    ensures TypeIndexEffect(Observe(snap, cfg).inputs, index, text, enter, fault).actions
      == [FillAt(InputSelector, AsIndex(index).value, text, enter)]
  {
  }

  /** The two `add_clickables` passes of `get_observation`: the first dialog's, then the whole page's. */
  method CollectClickables(overlay: Option<seq<Candidate>>, page: Option<seq<Candidate>>, limit: nat)
    returns (elements: seq<Clickable>)
    ensures elements == ClickablesOf(overlay, page, limit)
  {
    elements := [];
    ghost var first := if overlay.Some? then Collected(overlay.value, 0, limit) else [];
    if overlay.Some? {
      elements := AddClickables(elements, overlay, limit);
      assert elements == [] + first;
    }
    assert elements == first;
    if |elements| < limit {
      elements := AddClickables(elements, page, limit);
      if page.None? {
        assert elements == first + [];
      }
    }
  }

  /** The renumbering loop of `get_observation`; on a densely indexed table it changes nothing. */
  method Reindex(elements: seq<Clickable>) returns (r: seq<Clickable>)
    ensures |r| == |elements|
    ensures forall k :: 0 <= k < |r| ==> r[k] == elements[k].(index := k)
    ensures (forall k :: 0 <= k < |elements| ==> elements[k].index == k) ==> r == elements
  {
    r := elements;
    var idx := 0;
    while idx < |r|
      invariant 0 <= idx <= |r| == |elements|
      invariant forall k :: 0 <= k < idx ==> r[k] == elements[k].(index := k)
      invariant forall k :: idx <= k < |r| ==> r[k] == elements[k]
    {
      r := r[idx := r[idx].(index := idx)];
      idx := idx + 1;
    }
  }

  /** The controller's own state: the selected page and the two index tables. */
  class BrowserController {
    var page: nat
    var currentElements: seq<Clickable>
    var currentInputs: seq<InputField>
    /** Every interaction performed on a page, oldest first. */
    ghost var actions: seq<PageAction>
    /** How many observations have been taken. */
    ghost var observations: nat

    /** Both tables are densely indexed. */
    ghost predicate Valid()
      reads this`currentElements, this`currentInputs
    {
      && (forall k :: 0 <= k < |currentElements| ==> currentElements[k].index == k)
      && (forall k :: 0 <= k < |currentInputs| ==> currentInputs[k].index == k)
    }

    constructor (first: nat)
      ensures Valid()
      ensures page == first && currentElements == [] && currentInputs == []
      ensures actions == [] && observations == 0
    {
      page := first;
      currentElements := [];
      currentInputs := [];
      actions := [];
      observations := 0;
    }

    /** `_sync_to_latest_page`. */
    method SyncToLatestPage(pages: Option<seq<PageHandle>>)
      modifies this`page
      ensures page == LatestPage(old(page), pages)
    {
      if pages.None? {
        return;
      }
      var open := OpenPages(pages.value);
      if open == [] {
        return;
      }
      var latest := open[|open| - 1];
      if latest.id != page {
        page := latest.id;
      }
    }

    /** `get_observation`: both tables are replaced wholesale by the new snapshot's. */
    method GetObservation(snap: PageSnapshot, cfg: Config) returns (obs: Observation)
      modifies this`page, this`currentElements, this`currentInputs, this`observations
      ensures obs == Observe(snap, cfg)
      ensures page == LatestPage(old(page), snap.pages)
      ensures currentElements == obs.clickables && currentInputs == obs.inputs
      ensures observations == old(observations) + 1
      ensures Valid()
    {
      SyncToLatestPage(snap.pages);
      observations := observations + 1;
      var url := snap.url.GetOr("about:blank");
      var title := snap.title.GetOr("");

      var bodyText := snap.text;
      if |bodyText| > cfg.maxPageTextChars {
        bodyText := bodyText[..cfg.maxPageTextChars] + TruncationMarker;
      }

      var elements := CollectClickables(snap.overlay, snap.clickables, cfg.maxElements);
      elements := Reindex(elements);
      elements := elements[..Min(|elements|, cfg.maxElements)];
      currentElements := elements;

      var inputs := CollectInputs(snap.inputs, cfg.maxInputElements);
      currentInputs := inputs;
      obs := Observation(url, title, bodyText, elements, inputs);
    }

    /** `goto`. */
    method Goto(url: Value, fault: Option<string>) returns (status: Status)
      modifies this`actions
      ensures actions == old(actions) + [Navigate(url)] && status == StatusOf(fault)
    {
      actions := actions + [Navigate(url)];
      status := StatusOf(fault);
    }

    /** `click_by_element_index`: compared with the current table before the page is touched. */
    method ClickByElementIndex(index: Value, fault: Option<string>) returns (status: Status)
      modifies this`actions
      ensures var e := ClickEffect(currentElements, index, fault);
        status == e.status && actions == old(actions) + e.actions
    {
      var i := AsIndex(index);
      if i.None? {
        return Raised(CompareError(index));
      }
      if i.value < 0 || i.value >= |currentElements| {
        return Raised(IndexError("Element", index));
      }
      var element := currentElements[i.value];
      actions := actions + [ClickAt(element.selector, element.nth)];
      status := StatusOf(fault);
    }

    /** `type_text`: the first match of `selector` is cleared and typed into. */
    method TypeText(selector: Value, text: Value, enter: bool, fault: Option<string>) returns (status: Status)
      modifies this`actions
      ensures actions == old(actions) + [FillFirst(selector, text, enter)] && status == StatusOf(fault)
    {
      actions := actions + [FillFirst(selector, text, enter)];
      status := StatusOf(fault);
    }

    /** `press_key`. */
    method PressKey(key: Value, fault: Option<string>) returns (status: Status)
      modifies this`actions
      ensures actions == old(actions) + [Keystroke(key)] && status == StatusOf(fault)
    {
      actions := actions + [Keystroke(key)];
      status := StatusOf(fault);
    }

    /**
     * `type_into_input_index`: compared with the current input table; since the
     * table is densely indexed, an accepted index `i` fills raw input `i`.
     */
    method TypeIntoInputIndex(index: Value, text: Value, enter: bool, fault: Option<string>) returns (status: Status)
      requires Valid()
      modifies this`actions
      ensures var e := TypeIndexEffect(currentInputs, index, text, enter, fault);
        status == e.status && actions == old(actions) + e.actions
      ensures InRange(index, |currentInputs|) ==>
        actions == old(actions) + [FillAt(InputSelector, AsIndex(index).value, text, enter)]
    {
      var i := AsIndex(index);
      if i.None? {
        return Raised(CompareError(index));
      }
      if i.value < 0 || i.value >= |currentInputs| {
        return Raised(IndexError("Input", index));
      }
      var meta := currentInputs[i.value];
      actions := actions + [FillAt(InputSelector, meta.index, text, enter)];
      status := StatusOf(fault);
    }
  }
}
