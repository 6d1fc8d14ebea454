/**
 * The primitive JSON values that reach the dispatcher as tool arguments,
 * and how Python's f-strings, `if` and ordered dicts treat them.
 */
module Json {
  import opened Wrappers
  import opened Text

  datatype Value = Str(s: string) | Int(i: int) | Bool(b: bool) | Null

  /** Arguments as `json.loads` yields them: keys in document order. */
  type Args = seq<(string, Value)>

  /** `args.get(key)`: a repeated key takes its last value, as `json.loads` does. */
  function Lookup(args: Args, key: string): (r: Option<Value>)
    ensures r.Some? <==> exists k :: 0 <= k < |args| && args[k].0 == key
    ensures r.Some? ==> exists k :: 0 <= k < |args| && args[k] == (key, r.value)
  {
    if |args| == 0 then None
    else if args[|args| - 1].0 == key then Some(args[|args| - 1].1)
    else Lookup(args[..|args| - 1], key)
  }

  /** `str(v)` / `f"{v}"`. */
  function Show(v: Value): string {
    match v
    case Str(s) => s
    case Int(i) => IntToString(i)
    case Bool(b) => if b then "True" else "False"
    case Null => "None"
  }

  /** Python truthiness, as `if press_enter:` reads it. */
  predicate Truthy(v: Value) {
    match v
    case Str(s) => s != ""
    case Int(i) => i != 0
    case Bool(b) => b
    case Null => false
  }

  /** `type(v).__name__`. */
  function TypeName(v: Value): string {
    match v
    case Str(_) => "str"
    case Int(_) => "int"
    case Bool(_) => "bool"
    case Null => "NoneType"
  }

  // ---------------------------------------------------------------- repr

  /** A character `repr` never shows as itself: the ASCII control characters. */
  predicate IsControl(c: char) {
    c < ' ' || c == '\U{7F}'
  }

  predicate NoControl(s: string) {
    forall k :: 0 <= k < |s| ==> !IsControl(s[k])
  }

  /** `repr` quotes with `"` only when the text holds `'` and no `"`. */
  function QuoteFor(s: string): char {
    if '\'' in s && '"' !in s then '"' else '\''
  }

  function HexDigit(d: nat): (c: char)
    requires d < 16
    ensures !IsControl(c)
  {
    "0123456789abcdef"[d]
  }

  /** How `repr` writes one character inside quotes `q`. */
  function EscapeChar(c: char, q: char): (r: string)
    requires !IsControl(q)
    ensures |r| >= 1 && NoControl(r)
    ensures !IsControl(c) && c != q && c != '\\' ==> r == [c]
  {
    if c == q || c == '\\' then ['\\', c]
    else if c == '\t' then "\\t"
    else if c == '\n' then "\\n"
    else if c == '\r' then "\\r"
    else if IsControl(c) then "\\x" + [HexDigit(c as int / 16), HexDigit(c as int % 16)]
    else [c]
  }

  function Escape(s: string, q: char): string
    requires !IsControl(q)
  {
    if s == [] then [] else EscapeChar(s[0], q) + Escape(s[1..], q)
  }

  /** `repr(s)` for a string. */
  function StrRepr(s: string): string {
    var q := QuoteFor(s);
    [q] + Escape(s, q) + [q]
  }

  /** `repr(v)`: strings quoted, the rest as `str` shows them. */
  function Repr(v: Value): string {
    match v
    case Str(s) => StrRepr(s)
    case _ => Show(v)
  }

  /** The keys of `json.loads`' dict: each key once, in order of first appearance. */
  function Keys(args: Args): (ks: seq<string>)
    ensures forall k :: k in ks <==> exists i :: 0 <= i < |args| && args[i].0 == k
    ensures forall j :: 0 <= j < |ks| ==> Lookup(args, ks[j]).Some?
    ensures forall i, j :: 0 <= i < j < |ks| ==> ks[i] != ks[j]
  {
    if args == [] then []
    else
      var ks := Keys(args[..|args| - 1]);
      assert forall i :: 0 <= i < |args| - 1 ==> args[..|args| - 1][i] == args[i];
      if args[|args| - 1].0 in ks then ks else ks + [args[|args| - 1].0]
  }

  /** The `'key': value` items of a dict repr, for keys the arguments hold. */
  function Items(args: Args, ks: seq<string>): seq<string>
    requires forall j :: 0 <= j < |ks| ==> Lookup(args, ks[j]).Some?
  {
    if ks == [] then []
    else [StrRepr(ks[0]) + ": " + Repr(Lookup(args, ks[0]).value)] + Items(args, ks[1..])
  }

  /** `repr(json.loads(...))`: the value shown for a key is its last one. */
  function DictRepr(args: Args): string {
    "{" + Join(Items(args, Keys(args)), ", ") + "}"
  }

  // ---------------------------------------------------------------- repr properties

  lemma {:induction false} EscapeHasNoControl(s: string, q: char)
    requires !IsControl(q)
    ensures NoControl(Escape(s, q))
  {
    if s != [] {
      EscapeHasNoControl(s[1..], q);
      NoControlAppend(EscapeChar(s[0], q), Escape(s[1..], q));
    }
  }

  lemma NoControlAppend(a: string, b: string)
    requires NoControl(a) && NoControl(b)
    ensures NoControl(a + b)
  {
    assert forall k :: |a| <= k < |a + b| ==> (a + b)[k] == b[k - |a|];
  }

  /**
   * `repr` of a string is one printable line: it opens and closes with the
   * quote `QuoteFor` picks and holds no control character, line breaks included.
   */
  lemma StrReprPrintable(s: string)
    ensures var r := StrRepr(s);
      |r| >= 2 && r[0] == QuoteFor(s) && r[|r| - 1] == QuoteFor(s) && NoControl(r)
    ensures QuoteFor(s) == '"' <==> '\'' in s && '"' !in s
  {
    var q := QuoteFor(s);
    EscapeHasNoControl(s, q);
    NoControlAppend([q], Escape(s, q));
    NoControlAppend([q] + Escape(s, q), [q]);
  }

  lemma ReprPrintable(v: Value)
    ensures NoControl(Repr(v))
  {
    match v
    case Str(s) => StrReprPrintable(s);
    case Int(i) => 
      assert forall k :: 0 <= k < |IntToString(i)| ==> IntToString(i)[k] == '-' || '0' <= IntToString(i)[k] <= '9';
    case _ =>
  }

  lemma {:induction false} JoinNoControl(parts: seq<string>, sep: string)
    requires forall k :: 0 <= k < |parts| ==> NoControl(parts[k])
    requires NoControl(sep)
    ensures NoControl(Join(parts, sep))
  {
    if |parts| > 1 {
      JoinNoControl(parts[1..], sep);
      NoControlAppend(parts[0], sep);
      NoControlAppend(parts[0] + sep, Join(parts[1..], sep));
    }
  }

  lemma {:induction false} ItemsNoControl(args: Args, ks: seq<string>)
    requires forall j :: 0 <= j < |ks| ==> Lookup(args, ks[j]).Some?
    ensures forall k :: 0 <= k < |Items(args, ks)| ==> NoControl(Items(args, ks)[k])
  {
    if ks != [] {
      ItemsNoControl(args, ks[1..]);
      StrReprPrintable(ks[0]);
      ReprPrintable(Lookup(args, ks[0]).value);
      NoControlAppend(StrRepr(ks[0]), ": ");
      NoControlAppend(StrRepr(ks[0]) + ": ", Repr(Lookup(args, ks[0]).value));
    }
  }

  /** The repr of a whole argument dict is one printable line as well. */
  lemma DictReprPrintable(args: Args)
    ensures NoControl(DictRepr(args))
  {
    ItemsNoControl(args, Keys(args));
    JoinNoControl(Items(args, Keys(args)), ", ");
    NoControlAppend("{", Join(Items(args, Keys(args)), ", "));
    NoControlAppend("{" + Join(Items(args, Keys(args)), ", "), "}");
  }
}
