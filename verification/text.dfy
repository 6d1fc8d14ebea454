/**
 * String operations of Python's `str` that the agent relies on: prefix
 * tests, substring search, slicing with `[:n]`, `strip()`, `lower()`,
 * decimal formatting of integers and `"\n".join(...)`.
 */
module Text {

  /** `s.startswith(p)`. */
  predicate StartsWith(s: string, p: string) {
    |p| <= |s| && s[..|p|] == p
  }

  lemma StartsWithAppend(p: string, rest: string)
    ensures StartsWith(p + rest, p)
  {
    assert (p + rest)[..|p|] == p;
  }

  lemma StartsWithTransitive(s: string, p: string, q: string)
    requires StartsWith(s, p) && StartsWith(p, q)
    ensures StartsWith(s, q)
  {
    assert s[..|q|] == s[..|p|][..|q|];
  }

  /** `w` occurs in `s` at offset `i`. */
  predicate OccursAt(s: string, w: string, i: int) {
    0 <= i <= |s| - |w| && s[i..i + |w|] == w
  }

  /** `w in s` for strings, as a search from the left. */
  predicate Contains(s: string, w: string)
    decreases |s|
  {
    StartsWith(s, w) || (|s| > 0 && Contains(s[1..], w))
  }

  /** A text built by appending four pieces to `p` starts with `p`. */
  lemma StartsWithAppends(p: string, a: string, b: string, c: string, d: string)
    ensures StartsWith(p + a + b + c + d, p)
  {
    assert p + a + b + c + d == p + (a + b + c + d);
    StartsWithAppend(p, a + b + c + d);
  }

  /** `s[:n]` for a non-negative `n`. */
  function Take(s: string, n: nat): (r: string)
    ensures |r| == if |s| <= n then |s| else n
    ensures r == s[..|r|]
  {
    if |s| <= n then s else s[..n]
  }

  /** The characters Python's `str.isspace()` accepts, which `strip()` removes. */
  predicate IsSpace(c: char) {
    c == ' ' || ('\t' <= c <= '\r') || ('\U{1C}' <= c <= '\U{1F}') || c == '\U{85}' || c == '\U{A0}'
    || c == '\U{1680}' || ('\U{2000}' <= c <= '\U{200A}') || c == '\U{2028}' || c == '\U{2029}'
    || c == '\U{202F}' || c == '\U{205F}' || c == '\U{3000}'
  }

  function StripLeft(s: string): string {
    if |s| > 0 && IsSpace(s[0]) then StripLeft(s[1..]) else s
  }

  function StripRight(s: string): string {
    if |s| > 0 && IsSpace(s[|s| - 1]) then StripRight(s[..|s| - 1]) else s
  }

  /** `s.strip()`. */
  function Strip(s: string): string {
    StripRight(StripLeft(s))
  }

  /** `strip()` leaves a contiguous piece of `s` that neither starts nor ends with white space. */
  lemma {:induction false} StripTrims(s: string)
    ensures var r := Strip(s);
      && (r == [] || (!IsSpace(r[0]) && !IsSpace(r[|r| - 1])))
      && exists i :: OccursAt(s, r, i)
  {
    var left := StripLeft(s);
    var i := StripLeftSuffix(s);
    var r := StripRight(left);
    StripRightPrefix(left);
    if r != [] {
      assert r[0] == left[0];
    }
    assert r == s[i..][..|r|] == s[i..i + |r|];
    assert OccursAt(s, r, i);
  }

  lemma {:induction false} StripLeftSuffix(s: string) returns (i: nat)
    ensures i <= |s| && StripLeft(s) == s[i..]
    ensures StripLeft(s) == [] || !IsSpace(StripLeft(s)[0])
    decreases |s|
  {
    if |s| > 0 && IsSpace(s[0]) {
      var j := StripLeftSuffix(s[1..]);
      i := j + 1;
      assert s[1..][j..] == s[i..];
    } else {
      i := 0;
    }
  }

  lemma {:induction false} StripRightPrefix(s: string)
    ensures |StripRight(s)| <= |s| && StripRight(s) == s[..|StripRight(s)|]
    ensures StripRight(s) == [] || !IsSpace(StripRight(s)[|StripRight(s)| - 1])
    decreases |s|
  {
    if |s| > 0 && IsSpace(s[|s| - 1]) {
      StripRightPrefix(s[..|s| - 1]);
      var r := StripRight(s);
      assert s[..|s| - 1][..|r|] == s[..|r|];
    }
  }

  /**
   * `c.lower()` for the letters the agent's vocabulary and input types use:
   * Latin A-Z and the Cyrillic capitals U+0400-U+042F.
   */
  function LowerChar(c: char): (r: char)
    ensures 'A' <= c <= 'Z' ==> 'a' <= r <= 'z'
    ensures !('A' <= c <= 'Z') && !('\U{400}' <= c <= '\U{42F}') ==> r == c
  {
    if 'A' <= c <= 'Z' then (c as int + 32) as char
    else if '\U{400}' <= c <= '\U{40F}' then (c as int + 0x50) as char
    else if '\U{410}' <= c <= '\U{42F}' then (c as int + 0x20) as char
    else c
  }

  /** `s.lower()`, character by character. */
  function Lower(s: string): string {
    if s == [] then [] else [LowerChar(s[0])] + Lower(s[1..])
  }

  /** `lower()` maps each character on its own and keeps the length. */
  lemma {:induction false} LowerPointwise(s: string)
    ensures |Lower(s)| == |s|
    ensures forall i :: 0 <= i < |s| ==> Lower(s)[i] == LowerChar(s[i])
  {
    if s != [] {
      LowerPointwise(s[1..]);
      assert forall i :: 1 <= i < |s| ==> Lower(s)[i] == Lower(s[1..])[i - 1];
    }
  }

  /** Text without capitals is its own lower-cased form. */
  lemma LowerKeepsSmall(s: string)
    requires forall k :: 0 <= k < |s| ==> 'a' <= s[k] <= 'z' || s[k] == '_'
    ensures Lower(s) == s
  {
    LowerPointwise(s);
  }

  /** Every character of a contained word is a character of the text. */
  lemma {:induction false} ContainsChars(s: string, w: string)
    requires Contains(s, w)
    ensures forall k :: 0 <= k < |w| ==> w[k] in s
    decreases |s|
  {
    if !StartsWith(s, w) {
      ContainsChars(s[1..], w);
      assert forall c :: c in s[1..] ==> c in s;
    } else {
      assert forall k :: 0 <= k < |w| ==> w[k] == s[..|w|][k];
    }
  }

  /**
   * A word is not found in the lower-cased text when one of its characters
   * is the lower-case form of no character of the text.
   */
  lemma LowerAvoids(s: string, w: string, k: nat)
    requires k < |w|
    requires forall d :: d in s ==> LowerChar(d) != w[k]
    ensures !Contains(Lower(s), w)
  {
    if Contains(Lower(s), w) {
      ContainsChars(Lower(s), w);
      LowerPointwise(s);
    }
  }

  function DigitChar(d: nat): (c: char)
    requires d < 10
  {
    "0123456789"[d]
  }

  /** `str(n)` for a non-negative integer: decimal digits, no leading zero. */
  function NatToString(n: nat): (r: string)
    ensures |r| >= 1
    ensures forall i :: 0 <= i < |r| ==> '0' <= r[i] <= '9'
    ensures n >= 10 ==> r[0] != '0'
  {
    if n < 10 then [DigitChar(n)] else NatToString(n / 10) + [DigitChar(n % 10)]
  }

  /** `str(i)` for any integer. */
  function IntToString(i: int): (r: string)
    ensures |r| >= 1
    ensures i < 0 <==> r[0] == '-'
  {
    if i < 0 then "-" + NatToString(-i) else NatToString(i)
  }

  /** `"".join(parts)`, as repeated `+=` builds it. */
  function Concat(parts: seq<string>): string {
    if parts == [] then "" else Concat(parts[..|parts| - 1]) + parts[|parts| - 1]
  }

  lemma ConcatSnoc(parts: seq<string>, i: nat)
    requires i < |parts|
    ensures Concat(parts[..i + 1]) == Concat(parts[..i]) + parts[i]
  {
    assert parts[..i + 1][..i] == parts[..i];
  }

  lemma AppendAssociates<T>(a: seq<T>, b: seq<T>, c: seq<T>)
    ensures (a + b) + c == a + (b + c)
  {
  }

  /** A prefix one longer is the prefix followed by the next element. */
  lemma PrefixSnoc<T>(s: seq<T>, i: nat)
    requires i < |s|
    ensures s[..i + 1] == s[..i] + [s[i]]
  {
  }

  /** `sep.join(parts)`. */
  function Join(parts: seq<string>, sep: string): string {
    if |parts| == 0 then "" else if |parts| == 1 then parts[0] else parts[0] + sep + Join(parts[1..], sep)
  }

  /** `s.split("\n")` with a single-character separator. */
  function Split(s: string, sep: char): (r: seq<string>)
    ensures |r| >= 1
    decreases |s|
  {
    if |s| == 0 then [""]
    else
      var rest := Split(s[1..], sep);
      if s[0] == sep then [""] + rest else [[s[0]] + rest[0]] + rest[1..]
  }

  /** Splitting at a separator that occurs in no part undoes `Join`. */
  lemma {:induction false} SplitJoin(parts: seq<string>, sep: char)
    requires |parts| >= 1
    requires forall k, j :: 0 <= k < |parts| && 0 <= j < |parts[k]| ==> parts[k][j] != sep
    ensures Split(Join(parts, [sep]), sep) == parts
    decreases |parts|, |parts[0]|
  {
    if |parts| == 1 {
      SplitPlain(parts[0], [], sep);
      assert parts[0] + [] == parts[0];
      assert Split([], sep) == [""];
      assert parts[0] + "" == parts[0];
      assert Join(parts, [sep]) == parts[0];
    } else {
      SplitJoin(parts[1..], sep);
      var tail := Join(parts[1..], [sep]);
      SplitPlain(parts[0], [sep] + tail, sep);
      assert Join(parts, [sep]) == parts[0] + ([sep] + tail);
      var sp := Split([sep] + tail, sep);
      assert sp == [""] + parts[1..] by {
        assert ([sep] + tail)[1..] == tail;
      }
      assert sp[0] == "" && sp[1..] == parts[1..];
      assert parts[0] + "" == parts[0];
      assert [parts[0]] + parts[1..] == parts;
    }
  }

  /** A separator-free prefix is glued onto the first piece of what follows. */
  lemma {:induction false} SplitPlain(w: string, rest: string, sep: char)
    requires forall j :: 0 <= j < |w| ==> w[j] != sep
    ensures Split(w + rest, sep) == [w + Split(rest, sep)[0]] + Split(rest, sep)[1..]
    decreases |w|
  {
    var sp := Split(rest, sep);
    if |w| > 0 {
      SplitPlain(w[1..], rest, sep);
      assert w + rest == [w[0]] + (w[1..] + rest);
      SplitCons(w[0], w[1..] + rest, sep);
      assert [w[0]] + (w[1..] + sp[0]) == w + sp[0];
    } else {
      assert w + rest == rest;
      assert w + sp[0] == sp[0];
      assert sp == [sp[0]] + sp[1..];
    }
  }

  /** One character other than the separator joins the first piece. */
  lemma SplitCons(c: char, t: string, sep: char)
    requires c != sep
    ensures Split([c] + t, sep) == [[c] + Split(t, sep)[0]] + Split(t, sep)[1..]
  {
    assert ([c] + t)[1..] == t;
  }
}
