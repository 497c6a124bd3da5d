/**
 * The JavaScript built-ins the controllers and the pagination middleware
 * depend on, stated on Dafny's unbounded integers and sequences:
 * `parseInt(s, 10)`, `Array.prototype.slice` with integer arguments,
 * `Array.prototype.findIndex` / `find` (first match) and `Math.ceil(n / d)`
 * for a natural `n` and a positive integer `d`; and the selection a store
 * query (`Model.find`, `Model.paginate`) makes from a collection, in stored order.
 */
module JsBuiltins {
  import opened Wrappers

  // ---------------------------------------------------------------------
  // parseInt(s, 10)
  // ---------------------------------------------------------------------

  /** The characters `parseInt` strips from the front of its argument:
      ECMAScript WhiteSpace (TAB, VT, FF, ZWNBSP and the Zs space separators)
      and LineTerminator (LF, CR, LS, PS). */
  predicate IsJsWhitespace(c: char) {
    c == '\t' || c == '\U{000B}' || c == '\U{000C}' || c == ' ' || c == '\U{00A0}' || c == '\U{FEFF}'
    || c == '\U{1680}' || ('\U{2000}' <= c <= '\U{200A}') || c == '\U{202F}' || c == '\U{205F}'
    || c == '\U{3000}' || c == '\n' || c == '\r' || c == '\U{2028}' || c == '\U{2029}'
  }

  predicate IsDigit(c: char) {
    '0' <= c <= '9'
  }

  predicate AllDigits(s: string) {
    forall i :: 0 <= i < |s| ==> IsDigit(s[i])
  }

  function DigitValue(c: char): (v: nat)
    requires IsDigit(c)
    ensures v < 10
  {
    c as int - '0' as int
  }

  /** `s` without its leading whitespace. */
  function TrimStart(s: string): (r: string)
    ensures |r| <= |s| && r == s[|s| - |r|..]
    ensures forall i :: 0 <= i < |s| - |r| ==> IsJsWhitespace(s[i])
    ensures r == [] || !IsJsWhitespace(r[0])
  {
    if s != [] && IsJsWhitespace(s[0]) then
      var r := TrimStart(s[1..]);
      assert forall i :: 1 <= i < |s| ==> s[i] == s[1..][i - 1];
      r
    else s
  }

  /** Length of the longest prefix of `s` made of decimal digits. */
  function DigitPrefixLength(s: string): (k: nat)
    ensures k <= |s|
    ensures AllDigits(s[..k])
    ensures k == |s| || !IsDigit(s[k])
  {
    if s != [] && IsDigit(s[0]) then
      var k := 1 + DigitPrefixLength(s[1..]);
      assert s[..k] == [s[0]] + s[1..][..k - 1];
      k
    else 0
  }

  /** The number a string of decimal digits denotes, most significant digit first. */
  function DigitsValue(d: string): nat
    requires AllDigits(d)
  {
    if d == [] then 0 else 10 * DigitsValue(d[..|d| - 1]) + DigitValue(d[|d| - 1])
  }

  /** `s` after leading whitespace and at most one sign character. */
  function Unsigned(s: string): string {
    var t := TrimStart(s);
    if t != [] && (t[0] == '-' || t[0] == '+') then t[1..] else t
  }

  /** `parseInt(s, 10)`: `None` stands for NaN, which the source gets when
      no digit follows the whitespace and the optional sign. */
  function ParseInt(s: string): (r: Option<int>)
    ensures r.Some? <==> (Unsigned(s) != [] && IsDigit(Unsigned(s)[0]))
    ensures r.Some? && !(TrimStart(s) != [] && TrimStart(s)[0] == '-') ==> r.value >= 0
  {
    var t := TrimStart(s);
    var sign := if t != [] && t[0] == '-' then -1 else 1;
    var u := Unsigned(s);
    var k := DigitPrefixLength(u);
    if k == 0 then None else Some(sign * DigitsValue(u[..k]))
  }

  /** Decimal notation of a natural number, without leading zeros. */
  function DecimalNat(n: nat): (d: string)
    ensures d != [] && AllDigits(d)
    ensures |d| > 1 ==> d[0] != '0'
  {
    var last := ['0' + (n % 10) as char];
    if n < 10 then last else DecimalNat(n / 10) + last
  }

  /** Decimal notation of an integer: what `String(n)` produces for a safe integer. */
  function Decimal(n: int): string {
    if n < 0 then "-" + DecimalNat(-n) else DecimalNat(n)
  }

  lemma {:induction false} DecimalNatValue(n: nat)
    ensures DigitsValue(DecimalNat(n)) == n
  {
    var d := DecimalNat(n);
    if n >= 10 {
      DecimalNatValue(n / 10);
      assert d[..|d| - 1] == DecimalNat(n / 10);
    }
  }

  lemma {:induction false} DigitPrefixOfDigits(d: string, rest: string)
    requires AllDigits(d)
    requires rest == [] || !IsDigit(rest[0])
    ensures DigitPrefixLength(d + rest) == |d|
  {
    if d != [] {
      assert (d + rest)[1..] == d[1..] + rest;
      DigitPrefixOfDigits(d[1..], rest);
    }
  }

  /** Decimal notation starts with a sign or a digit, so only the sign is stripped. */
  lemma DecimalUnsigned(n: int, rest: string)
    ensures TrimStart(Decimal(n) + rest) == Decimal(n) + rest
    ensures Unsigned(Decimal(n) + rest) == DecimalNat(if n < 0 then -n else n) + rest
  {
    var d := DecimalNat(if n < 0 then -n else n);
    var s := Decimal(n) + rest;
    assert s[0] == '-' || IsDigit(s[0]);
    assert !IsJsWhitespace(s[0]);
    if n < 0 {
      assert s == "-" + (d + rest);
      assert s[1..] == d + rest;
    } else {
      assert s == d + rest;
    }
  }

  /** Round trip: `parseInt` reads back the decimal notation of any integer,
      whatever non-digit text follows it (so `"12abc"` parses to 12). */
  lemma ParseIntDecimal(n: int, rest: string)
    requires rest == [] || !IsDigit(rest[0])
    ensures ParseInt(Decimal(n) + rest) == Some(n)
  {
    var m: nat := if n < 0 then -n else n;
    var d := DecimalNat(m);
    var s := Decimal(n) + rest;
    DecimalUnsigned(n, rest);
    DigitPrefixOfDigits(d, rest);
    assert (d + rest)[..|d|] == d;
    DecimalNatValue(m);
    var sign := if n < 0 then -1 else 1;
    assert ParseInt(s) == Some(sign * DigitsValue(d));
  }

  /** Leading whitespace never changes what `parseInt` returns. */
  lemma ParseIntSkipsWhitespace(c: char, s: string)
    requires IsJsWhitespace(c)
    ensures ParseInt([c] + s) == ParseInt(s)
  {
    assert ([c] + s)[1..] == s;
  }

  // ---------------------------------------------------------------------
  // Array.prototype.slice(start, end) with integer arguments
  // ---------------------------------------------------------------------

  /** How `slice` turns an integer argument into a position in `[0, len]`:
      a negative argument counts back from the end, and both are clamped. */
  function RelativeIndex(k: int, len: nat): (r: nat)
    ensures r <= len
    ensures k >= 0 ==> r == if k < len then k else len
  {
    if k < 0 then (if len + k < 0 then 0 else len + k)
    else if k < len then k else len
  }

  function Min(a: int, b: int): int {
    if a < b then a else b
  }

  function Slice<T>(s: seq<T>, start: int, end: int): (r: seq<T>)
    ensures 0 <= start <= end ==> r == s[Min(start, |s|)..Min(end, |s|)]
    ensures start <= end ==> |r| <= end - start
  {
    var from := RelativeIndex(start, |s|);
    var to := RelativeIndex(end, |s|);
    if from < to then s[from..to] else []
  }

  // ---------------------------------------------------------------------
  // Array.prototype.findIndex / find
  // ---------------------------------------------------------------------

  /** Index of the first element satisfying `p` (what `findIndex` returns
      when it is not -1); `find` returns the element at that index. */
  function FindIndex<T>(s: seq<T>, p: T -> bool): (r: Option<nat>)
    ensures r.Some? ==> r.value < |s| && p(s[r.value])
    ensures r.Some? ==> forall j :: 0 <= j < r.value ==> !p(s[j])
    ensures r.None? <==> forall j :: 0 <= j < |s| ==> !p(s[j])
  {
    if s == [] then None
    else if p(s[0]) then Some(0)
    else match FindIndex(s[1..], p)
      case None => None
      case Some(i) => Some(i + 1)
  }

  // ---------------------------------------------------------------------
  // A store query's selection (`find`, `paginate`), in stored order
  // ---------------------------------------------------------------------

  /** `r` holds each element of `s` satisfying `p` exactly as often as `s` does, and nothing else. */
  ghost predicate Selects<T(!new)>(s: seq<T>, p: T -> bool, r: seq<T>)
  {
    forall x :: multiset(r)[x] == if p(x) then multiset(s)[x] else 0
  }

  /** The documents a store query with predicate `p` selects from the
      collection `s`: those satisfying `p`, in stored order. */
  function Filter<T(!new)>(s: seq<T>, p: T -> bool): (r: seq<T>)
    ensures |r| <= |s|
    ensures Selects(s, p, r)
    ensures forall i :: 0 <= i < |r| ==> r[i] in s && p(r[i])
    ensures forall i :: 0 <= i < |s| && p(s[i]) ==> s[i] in r
    ensures |s| == 1 ==> r == if p(s[0]) then s else []
  {
    if s == [] then []
    else
      var rest := Filter(s[1..], p);
      var r := if p(s[0]) then [s[0]] + rest else rest;
      SelectsCons(s, p, rest, r);
      SelectsMembers(s, p, r);
      r
  }

  /** Selecting from `s` is selecting its head, then selecting from its tail. */
  lemma SelectsCons<T(!new)>(s: seq<T>, p: T -> bool, rest: seq<T>, r: seq<T>)
    requires s != []
    requires Selects(s[1..], p, rest)
    requires r == if p(s[0]) then [s[0]] + rest else rest
    ensures Selects(s, p, r)
  {
    assert s == [s[0]] + s[1..];
    assert multiset(s) == multiset{s[0]} + multiset(s[1..]);
    if p(s[0]) {
      assert multiset(r) == multiset{s[0]} + multiset(rest);
    }
  }

  /** A selection holds exactly the qualifying elements. */
  lemma SelectsMembers<T(!new)>(s: seq<T>, p: T -> bool, r: seq<T>)
    requires Selects(s, p, r)
    ensures forall i :: 0 <= i < |r| ==> r[i] in s && p(r[i])
    ensures forall i :: 0 <= i < |s| && p(s[i]) ==> s[i] in r
  {
    forall i | 0 <= i < |r|
      ensures r[i] in s && p(r[i])
    {
      assert r[i] in multiset(r);
    }
    forall i | 0 <= i < |s| && p(s[i])
      ensures s[i] in r
    {
      assert s[i] in multiset(s);
    }
  }

  lemma {:induction false} FilterConcat<T(!new)>(s: seq<T>, t: seq<T>, p: T -> bool)
    ensures Filter(s + t, p) == Filter(s, p) + Filter(t, p)
  {
    if s == [] {
      assert s + t == t;
    } else {
      assert (s + t)[1..] == s[1..] + t;
      FilterConcat(s[1..], t, p);
    }
  }

  /** Filtering keeps everything when every element qualifies. */
  lemma {:induction false} FilterKeepsAll<T(!new)>(s: seq<T>, p: T -> bool)
    requires forall i :: 0 <= i < |s| ==> p(s[i])
    ensures Filter(s, p) == s
  {
    if s != [] {
      FilterKeepsAll(s[1..], p);
    }
  }

  // ---------------------------------------------------------------------
  // Math.ceil(n / d)
  // ---------------------------------------------------------------------

  /** `Math.ceil(n / d)`: the least integer `r` with `n <= r * d`. */
  function CeilDiv(n: nat, d: int): (r: nat)
    requires d >= 1
    ensures (r - 1) * d < n <= r * d
  {
    var q := (n + d - 1) / d;
    assert n + d - 1 == q * d + (n + d - 1) % d;
    q
  }
}
