/** The slice of JavaScript value and string semantics the handlers rely on:
    truthiness, `String.prototype.trim` and the `\s` class, lower-casing,
    case-insensitive substring search, `String(v)` and `parseInt`. */
module JsText {
  import opened Base

  /** A JSON value as it arrives in a request body. Objects and arrays are
      not modelled; numbers are integers. */
  datatype JsValue = Undefined | Null | Bool(b: bool) | Num(n: int) | Str(s: string)

  predicate Truthy(v: JsValue) {
    match v
    case Undefined => false
    case Null => false
    case Bool(b) => b
    case Num(n) => n != 0
    case Str(s) => s != ""
  }

  /** ECMAScript WhiteSpace and LineTerminator code points: what `trim`
      removes and what the regular-expression class `\s` matches. */
  predicate IsSpace(c: char) {
    var n := c as int;
    || n == 0x09 || n == 0x0A || n == 0x0B || n == 0x0C || n == 0x0D
    || n == 0x20 || n == 0xA0 || n == 0x1680 || (0x2000 <= n <= 0x200A)
    || n == 0x2028 || n == 0x2029 || n == 0x202F || n == 0x205F
    || n == 0x3000 || n == 0xFEFF
  }

  predicate AllSpace(s: string) {
    forall i :: 0 <= i < |s| ==> IsSpace(s[i])
  }

  /** Length of the run of white space that starts `s`. */
  function LeadingSpaces(s: string): (k: nat)
    ensures k <= |s|
    ensures AllSpace(s[..k])
    ensures k < |s| ==> !IsSpace(s[k])
  {
    if s == [] || !IsSpace(s[0]) then 0
    else
      var k := 1 + LeadingSpaces(s[1..]);
      assert AllSpace(s[..k]) by {
        var head, rest := s[..k], s[1..][..k - 1];
        forall i | 0 <= i < |head| ensures IsSpace(head[i]) {
          if i > 0 { assert head[i] == rest[i - 1]; }
        }
      }
      k
  }

  /** Length of the run of white space that ends `s`. */
  function TrailingSpaces(s: string): (k: nat)
    ensures k <= |s|
    ensures AllSpace(s[|s| - k..])
    ensures k < |s| ==> !IsSpace(s[|s| - k - 1])
  {
    if s == [] || !IsSpace(s[|s| - 1]) then 0
    else
      var init := s[..|s| - 1];
      var k := 1 + TrailingSpaces(init);
      assert AllSpace(s[|s| - k..]) by {
        var tail, rest := s[|s| - k..], init[|init| - (k - 1)..];
        forall i | 0 <= i < |tail| ensures IsSpace(tail[i]) {
          if i < |rest| {
            assert tail[i] == s[|s| - k + i] == init[|s| - k + i] == rest[i];
          }
        }
      }
      k
  }

  /** `String.prototype.trim`: `s` without its leading and trailing white space. */
  function Trim(s: string): (r: string)
    ensures |r| <= |s|
    ensures r == [] <==> AllSpace(s)
    ensures r != [] ==> !IsSpace(r[0]) && !IsSpace(r[|r| - 1])
    ensures exists i :: TrimmedAt(s, r, i)
  {
    var i := LeadingSpaces(s);
    if i == |s| then
      assert TrimmedAt(s, [], |s|);
      []
    else
      var j := |s| - TrailingSpaces(s);
      assert !AllSpace(s) by { assert !IsSpace(s[i]); }
      assert TrimmedAt(s, s[i..j], i);
      s[i..j]
  }

  /** `r` sits at offset `i` of `s` with only white space around it. */
  ghost predicate TrimmedAt(s: string, r: string, i: int) {
    0 <= i && i + |r| <= |s| && s[i..i + |r|] == r && AllSpace(s[..i]) && AllSpace(s[i + |r|..])
  }

  /** `v` is a string and `v.trim().length !== 0`: the name check of the handlers. */
  predicate NonBlankString(v: JsValue) {
    v.Str? && |Trim(v.s)| != 0
  }

  /** Trimming twice is trimming once. */
  lemma TrimIdempotent(s: string)
    ensures Trim(Trim(s)) == Trim(s)
  {
    var r := Trim(s);
    if r != [] {
      assert LeadingSpaces(r) == 0;
      assert TrailingSpaces(r) == 0;
      assert r[0..|r|] == r;
    }
  }

  /** ASCII lower-casing of one character. */
  function LowerChar(c: char): (d: char)
    ensures 'A' <= c <= 'Z' ==> d as int == c as int + 32
    ensures !('A' <= c <= 'Z') ==> d == c
  {
    if 'A' <= c <= 'Z' then (c as int + 32) as char else c
  }

  /** `String.prototype.toLowerCase`, restricted to the ASCII letters. */
  function Lower(s: string): (r: string)
    ensures |r| == |s|
    ensures forall i :: 0 <= i < |s| ==> r[i] == LowerChar(s[i])
  {
    seq(|s|, i requires 0 <= i < |s| => LowerChar(s[i]))
  }

  /** Lower-casing is idempotent, so a stored lower-cased email looks itself up. */
  lemma LowerIdempotent(s: string)
    ensures Lower(Lower(s)) == Lower(s)
  {
  }

  /** `needle` occurs in `hay` starting at `i`. */
  ghost predicate InfixAt(needle: string, hay: string, i: int) {
    0 <= i && i + |needle| <= |hay| && hay[i..i + |needle|] == needle
  }

  /** Substring search, scanning the start positions left to right. */
  function HasInfix(needle: string, hay: string): (r: bool)
    ensures r <==> exists i :: InfixAt(needle, hay, i)
    decreases |hay|
  {
    if needle <= hay then
      assert InfixAt(needle, hay, 0);
      true
    else if hay == [] then
      assert forall i :: !InfixAt(needle, hay, i);
      false
    else
      var r := HasInfix(needle, hay[1..]);
      assert forall i :: InfixAt(needle, hay[1..], i) ==> InfixAt(needle, hay, i + 1) by {
        forall i | InfixAt(needle, hay[1..], i) ensures InfixAt(needle, hay, i + 1) {
          var a, b := hay[1..][i..i + |needle|], hay[i + 1..i + 1 + |needle|];
          assert |a| == |b| && forall k :: 0 <= k < |a| ==> a[k] == b[k];
        }
      }
      assert forall i :: InfixAt(needle, hay, i) ==> InfixAt(needle, hay[1..], i - 1) by {
        forall i | InfixAt(needle, hay, i) ensures InfixAt(needle, hay[1..], i - 1) {
          assert i != 0 by { assert hay[..|needle|] == hay[0..0 + |needle|]; }
          assert hay[1..][i - 1..i - 1 + |needle|] == hay[i..i + |needle|];
        }
      }
      r
  }

  /** The match of `new RegExp(q, 'i')` against `s` for a query `q` with no
      regular-expression metacharacters: a case-insensitive substring test. */
  predicate MatchesIgnoringCase(s: string, q: string) {
    HasInfix(Lower(q), Lower(s))
  }

  function DigitChar(d: nat): (c: char)
    requires d < 10
    ensures '0' <= c <= '9' && c as int - '0' as int == d
  {
    ('0' as int + d) as char
  }

  /** Decimal digits of `n`, most significant first, as `Number.prototype.toString` writes them. */
  function NatString(n: nat): (s: string)
    ensures |s| >= 1
    ensures forall i :: 0 <= i < |s| ==> '0' <= s[i] <= '9'
  {
    if n < 10 then [DigitChar(n)] else NatString(n / 10) + [DigitChar(n % 10)]
  }

  function NumberString(n: int): string {
    if n < 0 then "-" + NatString(-n) else NatString(n)
  }

  /** `String(v)`. */
  function ToJsString(v: JsValue): string {
    match v
    case Undefined => "undefined"
    case Null => "null"
    case Bool(b) => if b then "true" else "false"
    case Num(n) => NumberString(n)
    case Str(s) => s
  }

  /** Value of `c` as a digit in base 10 or 16, or -1 if it is not one. */
  function DigitValue(c: char, radix: nat): (d: int)
    requires radix == 10 || radix == 16
    ensures -1 <= d < radix as int
  {
    if '0' <= c <= '9' then c as int - '0' as int
    else if radix == 16 && 'a' <= c <= 'f' then c as int - 'a' as int + 10
    else if radix == 16 && 'A' <= c <= 'F' then c as int - 'A' as int + 10
    else -1
  }

  /** Length of the longest prefix of `s` made of digits in `radix`. */
  function DigitRun(s: string, radix: nat): (k: nat)
    requires radix == 10 || radix == 16
    ensures k <= |s|
    ensures forall i :: 0 <= i < k ==> DigitValue(s[i], radix) >= 0
    ensures k < |s| ==> DigitValue(s[k], radix) < 0
  {
    if s == [] || DigitValue(s[0], radix) < 0 then 0
    else 1 + DigitRun(s[1..], radix)
  }

  /** Value of a run of digits, most significant first. */
  function DigitsValue(ds: string, radix: nat): nat
    requires radix == 10 || radix == 16
    requires forall i :: 0 <= i < |ds| ==> DigitValue(ds[i], radix) >= 0
  {
    if ds == [] then 0
    else DigitsValue(ds[..|ds| - 1], radix) * radix + DigitValue(ds[|ds| - 1], radix)
  }

  /** `parseInt(s)` with no radix: leading white space, an optional sign, then
      the digits `ParseDigits` reads; `None` stands for NaN. */
  function ParseIntString(s: string): (r: Option<int>)
    ensures r.None? ==> forall n :: s != NumberString(n)
  {
    var t := s[LeadingSpaces(s)..];
    var negative := t != [] && t[0] == '-';
    match ParseDigits(Unsigned(t))
    case None =>
      assert forall n :: s != NumberString(n) by {
        forall n ensures s != NumberString(n) {
          NumberParses(n);
        }
      }
      None
    case Some(v) =>
      var x: int := v;
      Some(if negative then -x else x)
  }

  /** The text after an optional leading sign. */
  function Unsigned(t: string): (u: string)
    ensures |u| <= |t|
  {
    if t != [] && (t[0] == '-' || t[0] == '+') then t[1..] else t
  }

  /** An optional `0x`/`0X` prefix selecting base 16, then the longest run of
      digits in that base; `None` when the run is empty. */
  function ParseDigits(u: string): (r: Option<nat>)
    ensures r.None? <==> (if |u| >= 2 && u[0] == '0' && (u[1] == 'x' || u[1] == 'X')
                          then |u| == 2 || DigitValue(u[2], 16) < 0
                          else u == [] || DigitValue(u[0], 10) < 0)
  {
    var hex := |u| >= 2 && u[0] == '0' && (u[1] == 'x' || u[1] == 'X');
    var radix := if hex then 16 else 10;
    var body := if hex then u[2..] else u;
    var k := DigitRun(body, radix);
    if k == 0 then None else Some(DigitsValue(body[..k], radix))
  }

  /** `parseInt(v)`: the argument is first converted with `String(v)`. */
  function ParseInt(v: JsValue): Option<int> {
    ParseIntString(ToJsString(v))
  }

  lemma {:induction false} NatStringValue(n: nat)
    ensures DigitsValue(NatString(n), 10) == n
  {
    var s := NatString(n);
    if n >= 10 {
      NatStringValue(n / 10);
      assert s[..|s| - 1] == NatString(n / 10);
    }
  }

  /** Internal step of the round trip: the decimal rendering of `n` has no
      leading white space, starts with '-' exactly when `n` is negative, and
      its unsigned part is the decimal rendering of `|n|`. */
  lemma DecimalParses(n: int)
    ensures var s := NumberString(n);
            var t := s[LeadingSpaces(s)..];
            LeadingSpaces(s) == 0
            && (t != [] && t[0] == '-' <==> n < 0)
            && Unsigned(t) == NatString(if n < 0 then -n else n)
  {
    var s := NumberString(n);
    var m: nat := if n < 0 then -n else n;
    assert !IsSpace(s[0]);
    assert LeadingSpaces(s) == 0;
    assert s[0..] == s;
    if n < 0 {
      assert s[1..] == NatString(m);
    }
  }

  /** The decimal rendering of a natural number reads back as that number. */
  lemma NatStringParses(m: nat)
    ensures ParseDigits(NatString(m)) == Some(m)
  {
    var u := NatString(m);
    assert !(|u| >= 2 && (u[1] == 'x' || u[1] == 'X'));
    assert forall i :: 0 <= i < |u| ==> DigitValue(u[i], 10) >= 0;
    var k := DigitRun(u, 10);
    assert k == |u|;
    assert u[..k] == u;
    NatStringValue(m);
  }

  /** The text after the white space and the sign of a number's decimal
      rendering has digits to read. */
  lemma NumberParses(n: int)
    ensures var s := NumberString(n);
            ParseDigits(Unsigned(s[LeadingSpaces(s)..])).Some?
  {
    DecimalParses(n);
    NatStringParses(if n < 0 then -n else n);
  }

  /** Internal step of the round trip: the decimal text of `n` parses back to `n`. */
  lemma DecimalRoundTrip(n: int)
    ensures ParseIntString(NumberString(n)) == Some(n)
  {
    DecimalParses(n);
    NatStringParses(if n < 0 then -n else n);
  }

  /** `parseInt` undoes `String`: a whole number sent as text (the client sends
      `file.size.toString()`) or as a number parses back to itself. */
  lemma ParseIntRoundTrip(n: int)
    ensures ParseInt(Num(n)) == Some(n)
    ensures ParseInt(Str(NumberString(n))) == Some(n)
  {
    DecimalRoundTrip(n);
    assert ToJsString(Num(n)) == NumberString(n) == ToJsString(Str(NumberString(n)));
  }
}
