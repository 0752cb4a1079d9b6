// The JavaScript helpers that pytboss/grills.py places in front of every
// per-model snippet: formatHex and formatDecimal in the command template,
// convertTemperature, parseHexMessage and a startsWith polyfill in the
// controller template. JavaScript numbers are modelled as integers or NaN.
module GrillTemplates {
  import opened Json

  /** A JavaScript number as these helpers produce it. */
  datatype JsNum = Num(n: int) | NaN

  // ---- digits ----

  /** The digit character `toString(radix)` uses for d (lower-case). */
  function DigitChar(d: nat): char
    requires d < 16
  {
    if d < 10 then ('0' as int + d) as char else ('a' as int + d - 10) as char
  }

  /** The value of a digit character in the given radix, if it is one. */
  function DigitValue(c: char, radix: nat): Option<nat> {
    var v :=
      if '0' <= c <= '9' then c as int - '0' as int
      else if 'a' <= c <= 'z' then c as int - 'a' as int + 10
      else if 'A' <= c <= 'Z' then c as int - 'A' as int + 10
      else radix;
    if v < radix then Some(v) else None
  }

  predicate AllDigits(s: string, radix: nat) {
    forall k :: 0 <= k < |s| ==> DigitValue(s[k], radix).Some?
  }

  /** The number a string of digits denotes. */
  function DigitsValue(s: string, radix: nat): nat
    requires AllDigits(s, radix)
  {
    if s == [] then 0
    else DigitsValue(s[..|s| - 1], radix) * radix + DigitValue(s[|s| - 1], radix).value
  }

  /** `Number.prototype.toString(radix)` of a non-negative integer. */
  function ToBase(n: nat, radix: nat): (s: string)
    requires 2 <= radix <= 16
    ensures 1 <= |s|
    decreases n
  {
    if n < radix then [DigitChar(n)]
    else ToBase(n / radix, radix) + [DigitChar(n % radix)]
  }

  /** `toString(radix)` of any integer: a minus sign before the magnitude. */
  function JsToString(n: int, radix: nat): string
    requires 2 <= radix <= 16
  {
    if n < 0 then "-" + ToBase(-n, radix) else ToBase(n, radix)
  }

  /** `t.substring(t.length - k)`: a negative start counts as 0. */
  function Last(t: string, k: nat): string {
    if |t| <= k then t else t[|t| - k..]
  }

  /** `formatHex(n)`: the last two characters of '0' + hex(n). */
  function FormatHex(n: int): string {
    Last("0" + JsToString(n, 16), 2)
  }

  /** `formatDecimal(n)`: the last three characters of '000' + decimal(n). */
  function FormatDecimal(n: int): string {
    Last("000" + JsToString(n, 10), 3)
  }

  lemma TwoDigits(t: string, radix: nat)
    requires |t| == 2 && AllDigits(t, radix)
    ensures DigitsValue(t, radix) == DigitValue(t[0], radix).value * radix + DigitValue(t[1], radix).value
  {
    assert t[..1][..0] == [];
    assert DigitsValue(t[..1], radix) == DigitValue(t[0], radix).value;
  }

  lemma ThreeDecimalDigits(t: string)
    requires |t| == 3 && AllDigits(t, 10)
    ensures DigitsValue(t, 10) ==
      DigitValue(t[0], 10).value * 100 + DigitValue(t[1], 10).value * 10 + DigitValue(t[2], 10).value
  {
    TwoDigits(t[..2], 10);
    assert t[..2][0] == t[0] && t[..2][1] == t[1];
  }

  lemma HexLowDigits(n: nat)
    ensures n % 256 == ((n / 16) % 16) * 16 + n % 16
  {
    var q := n / 16;
    var q2 := q / 16;
    assert n == 16 * q + n % 16;
    assert q == 16 * q2 + q % 16;
    var low := (q % 16) * 16 + n % 16;
    assert n == 256 * q2 + low;
    ModOf256(n, q2, low);
  }

  lemma DecimalLowDigits(n: nat)
    ensures n % 1000 == ((n / 100) % 10) * 100 + ((n / 10) % 10) * 10 + n % 10
  {
    var q := n / 10;
    var q2 := q / 10;
    var q3 := q2 / 10;
    DivTenTen(n);
    assert n == 10 * q + n % 10;
    assert q == 10 * q2 + q % 10;
    assert q2 == 10 * q3 + q2 % 10;
    var low := (q2 % 10) * 100 + (q % 10) * 10 + n % 10;
    assert n == 1000 * q3 + low;
    ModOf1000(n, q3, low);
  }

  lemma ModOf256(n: nat, q: nat, low: nat)
    requires low < 256 && n == 256 * q + low
    ensures n % 256 == low
  {
  }

  lemma ModOf1000(n: nat, q: nat, low: nat)
    requires low < 1000 && n == 1000 * q + low
    ensures n % 1000 == low
  {
  }

  lemma DigitCharValue(d: nat, radix: nat)
    requires d < radix <= 16
    ensures DigitValue(DigitChar(d), radix) == Some(d)
  {
  }

  /** The last digit `toString(radix)` writes is n mod radix. */
  lemma ToBaseLast(n: nat, radix: nat)
    requires 2 <= radix <= 16
    ensures ToBase(n, radix)[|ToBase(n, radix)| - 1] == DigitChar(n % radix)
  {
    if n < radix {
      SmallMod(n, radix);
    }
  }

  /** Dropping the last digit of a zero-padded numeral leaves a
      zero-padded numeral of n / radix. */
  lemma Peel(n: nat, radix: nat, pad: string) returns (rest: string)
    requires 2 <= radix <= 16
    requires |pad| >= 1 && forall k :: 0 <= k < |pad| ==> pad[k] == '0'
    ensures forall k :: 0 <= k < |rest| ==> rest[k] == '0'
    ensures |rest| + 1 >= |pad|
    ensures (pad + ToBase(n, radix))[..|pad + ToBase(n, radix)| - 1] == rest + ToBase(n / radix, radix)
  {
    var s := ToBase(n, radix);
    if n < radix {
      rest := pad[..|pad| - 1];
      assert n / radix == 0;
      assert ToBase(0, radix) == "0" == [pad[|pad| - 1]];
      assert (pad + s)[..|pad + s| - 1] == pad == rest + [pad[|pad| - 1]];
    } else {
      rest := pad;
      assert s == ToBase(n / radix, radix) + [DigitChar(n % radix)];
      assert (pad + s)[..|pad + s| - 1] == pad + ToBase(n / radix, radix);
    }
  }

  lemma DivTenTen(n: nat)
    ensures n / 10 / 10 == n / 100
  {
    var q := n / 10;
    assert n == 10 * q + n % 10;
    assert q == 10 * (q / 10) + q % 10;
    assert n == 100 * (q / 10) + (10 * (q % 10) + n % 10);
  }

  /** For n >= 0, formatHex gives the two low hex digits of n. */
  lemma FormatHexDigits(n: nat)
    ensures FormatHex(n) == [DigitChar((n / 16) % 16), DigitChar(n % 16)]
  {
    var t0 := "0" + ToBase(n, 16);
    var p1 := Peel(n, 16, "0");
    var t1 := p1 + ToBase(n / 16, 16);
    assert t1 == t0[..|t0| - 1];
    ToBaseLast(n, 16);
    assert t0[|t0| - 1] == DigitChar(n % 16);
    ToBaseLast(n / 16, 16);
    assert t1[|t1| - 1] == DigitChar((n / 16) % 16);
    assert t0[|t0| - 2] == t1[|t1| - 1];
    assert Last(t0, 2) == [t0[|t0| - 2], t0[|t0| - 1]];
  }

  /** For n >= 0, formatDecimal gives the three low decimal digits of n. */
  lemma FormatDecimalDigits(n: nat)
    ensures FormatDecimal(n) == [DigitChar((n / 100) % 10), DigitChar((n / 10) % 10), DigitChar(n % 10)]
  {
    var t0 := "000" + ToBase(n, 10);
    var p1 := Peel(n, 10, "000");
    var t1 := p1 + ToBase(n / 10, 10);
    assert t1 == t0[..|t0| - 1];
    var p2 := Peel(n / 10, 10, p1);
    var t2 := p2 + ToBase(n / 10 / 10, 10);
    assert t2 == t1[..|t1| - 1];
    ToBaseLast(n, 10);
    ToBaseLast(n / 10, 10);
    ToBaseLast(n / 10 / 10, 10);
    DivTenTen(n);
    assert t0[|t0| - 1] == DigitChar(n % 10);
    assert t0[|t0| - 2] == t1[|t1| - 1] == DigitChar((n / 10) % 10);
    assert t0[|t0| - 3] == t2[|t2| - 1] == DigitChar((n / 100) % 10);
    assert Last(t0, 3) == [t0[|t0| - 3], t0[|t0| - 2], t0[|t0| - 1]];
  }

  /** formatHex always gives two characters; for n >= 0 they are hex
      digits worth n mod 256. */
  lemma FormatHexValue(n: int)
    ensures |FormatHex(n)| == 2
    ensures n >= 0 ==> AllDigits(FormatHex(n), 16) && DigitsValue(FormatHex(n), 16) == n % 256
  {
    if n >= 0 {
      FormatHexDigits(n);
      var t := FormatHex(n);
      DigitCharValue((n / 16) % 16, 16);
      DigitCharValue(n % 16, 16);
      var a, b := (n / 16) % 16, n % 16;
      TwoDigits(t, 16);
      HexLowDigits(n);
    }
  }

  /** formatDecimal always gives three characters; for n >= 0 they are
      decimal digits worth n mod 1000. */
  lemma FormatDecimalValue(n: int)
    ensures |FormatDecimal(n)| == 3
    ensures n >= 0 ==> AllDigits(FormatDecimal(n), 10) && DigitsValue(FormatDecimal(n), 10) == n % 1000
  {
    if n >= 0 {
      FormatDecimalDigits(n);
      var t := FormatDecimal(n);
      DigitCharValue((n / 100) % 10, 10);
      DigitCharValue((n / 10) % 10, 10);
      DigitCharValue(n % 10, 10);
      var a, b, c := (n / 100) % 10, (n / 10) % 10, n % 10;
      ThreeDecimalDigits(t);
      DecimalLowDigits(n);
    }
  }

  lemma FormatExamples()
    ensures FormatHex(11) == "0b"
    ensures FormatHex(255) == "ff"
    ensures FormatDecimal(7) == "007"
  {
    FormatHexDigits(11);
    FormatHexDigits(255);
    FormatDecimalDigits(7);
  }

  // ---- parseInt(s, 16) ----

  /** The white space and line terminators `parseInt` skips: tab, the
      line terminators, VT, FF, the BOM and every space separator (Zs) of
      Unicode. */
  predicate IsJsSpace(c: char) {
    c as int in {0x09, 0x0A, 0x0B, 0x0C, 0x0D, 0x20, 0xA0, 0x1680, 0x202F, 0x205F, 0x3000, 0x2028, 0x2029, 0xFEFF}
    || 0x2000 <= c as int <= 0x200A
  }

  function TrimStart(s: string): (t: string)
    ensures |t| <= |s|
  {
    if s != [] && IsJsSpace(s[0]) then TrimStart(s[1..]) else s
  }

  /** The longest prefix of s made of digits of the radix. */
  function DigitPrefix(s: string, radix: nat): (p: string)
    ensures AllDigits(p, radix) && |p| <= |s| && p == s[..|p|]
  {
    if s != [] && DigitValue(s[0], radix).Some? then [s[0]] + DigitPrefix(s[1..], radix) else []
  }

  /** `parseInt(s, 16)`: skip white space, read a sign and an optional
      "0x", then as many hex digits as there are; none gives NaN. */
  function ParseHexInt(s: string): JsNum {
    var t := TrimStart(s);
    var neg := t != [] && t[0] == '-';
    var u := if t != [] && (t[0] == '-' || t[0] == '+') then t[1..] else t;
    var w := if |u| >= 2 && u[0] == '0' && (u[1] == 'x' || u[1] == 'X') then u[2..] else u;
    var digits := DigitPrefix(w, 16);
    var value: int := DigitsValue(digits, 16);
    if digits == [] then NaN else Num(if neg then -value else value)
  }

  /** `s.substring(a, b)`: both ends clamped to the string, swapped if out
      of order. */
  function Substring(s: string, a: int, b: int): string {
    var x := if a < 0 then 0 else if a > |s| then |s| else a;
    var y := if b < 0 then 0 else if b > |s| then |s| else b;
    if x <= y then s[x..y] else s[y..x]
  }

  /** What `parseHexMessage` returns: one number per two characters (the
      last piece of an odd-length input has one). */
  function ParsedHex(data: string): (r: seq<JsNum>)
    ensures |r| == (|data| + 1) / 2
  {
    seq((|data| + 1) / 2, k requires 0 <= k < (|data| + 1) / 2 => ParseHexInt(Substring(data, 2 * k, 2 * k + 2)))
  }

  /** `parseHexMessage`. */
  method ParseHexMessage(data: string) returns (parsed: seq<JsNum>)
    ensures parsed == ParsedHex(data)
  {
    parsed := [];
    ghost var want := ParsedHex(data);
    var i := 0;
    while i < |data|
      invariant i == 2 * |parsed| && |parsed| <= |want|
      invariant parsed == want[..|parsed|]
      decreases |data| - i
    {
      assert want[|parsed|] == ParseHexInt(Substring(data, i, i + 2));
      assert want[..|parsed| + 1] == want[..|parsed|] + [want[|parsed|]];
      parsed := parsed + [ParseHexInt(Substring(data, i, i + 2))];
      i := i + 2;
    }
    assert parsed == want;
  }

  /** A string of two digits of the radix parses to its value. */
  lemma ParseTwoHex(t: string)
    requires |t| == 2 && AllDigits(t, 16)
    ensures ParseHexInt(t) == Num(DigitsValue(t, 16))
  {
    assert DigitValue(t[0], 16).Some? && DigitValue(t[1], 16).Some?;
    assert !IsJsSpace(t[0]) && t[0] != '-' && t[0] != '+';
    assert t[1] != 'x' && t[1] != 'X';
    assert TrimStart(t) == t;
    assert DigitPrefix(t[1..], 16) == [t[1]];
    assert DigitPrefix(t, 16) == t;
  }

  /** The hex text of a byte sequence, as a command built with formatHex. */
  function HexOf(bytes: seq<nat>): (s: string)
    ensures |s| == 2 * |bytes|
  {
    if bytes == [] then [] else HexOf(bytes[..|bytes| - 1]) + FormatHexLen(bytes[|bytes| - 1])
  }

  function FormatHexLen(n: nat): (s: string)
    ensures |s| == 2
  {
    FormatHexValue(n);
    FormatHex(n)
  }

  lemma {:induction false} HexOfAt(bytes: seq<nat>, k: nat)
    requires k < |bytes|
    ensures HexOf(bytes)[2 * k..2 * k + 2] == FormatHex(bytes[k])
    decreases |bytes|
  {
    var init := bytes[..|bytes| - 1];
    if k < |bytes| - 1 {
      HexOfAt(init, k);
      assert HexOf(bytes)[2 * k..2 * k + 2] == HexOf(init)[2 * k..2 * k + 2];
      assert init[k] == bytes[k];
    }
  }

  lemma SmallMod(v: nat, m: nat)
    requires v < m
    ensures v % m == v
  {
  }

  /** parseHexMessage reads back bytes written with formatHex. */
  lemma HexRoundTrip(bytes: seq<nat>)
    requires forall k :: 0 <= k < |bytes| ==> bytes[k] < 256
    ensures ParsedHex(HexOf(bytes)) == seq(|bytes|, k requires 0 <= k < |bytes| => Num(bytes[k]))
  {
    forall k | 0 <= k < |bytes|
      ensures ParsedHex(HexOf(bytes))[k] == Num(bytes[k])
    {
      HexRoundTripAt(bytes, k);
    }
  }

  /** The k-th number parseHexMessage returns reads characters 2k and 2k+1. */
  lemma ParsedHexAt(data: string, k: nat)
    requires 2 * k + 2 <= |data|
    ensures ParsedHex(data)[k] == ParseHexInt(data[2 * k..2 * k + 2])
  {
    assert Substring(data, 2 * k, 2 * k + 2) == data[2 * k..2 * k + 2];
  }

  /** parseInt(formatHex(v), 16) == v for a byte value v. */
  lemma ParseFormatHex(v: nat)
    requires v < 256
    ensures ParseHexInt(FormatHex(v)) == Num(v)
  {
    FormatHexValue(v);
    SmallMod(v, 256);
    ParseTwoHex(FormatHex(v));
  }

  lemma HexRoundTripAt(bytes: seq<nat>, k: nat)
    requires k < |bytes| && bytes[k] < 256
    ensures ParsedHex(HexOf(bytes))[k] == Num(bytes[k])
  {
    HexOfAt(bytes, k);
    ParsedHexAt(HexOf(bytes), k);
    ParseFormatHex(bytes[k]);
  }

  // ---- convertTemperature ----

  /** `parts[i]`, undefined (NaN in arithmetic) outside the array. */
  function Part(parts: seq<JsNum>, i: int): JsNum {
    if 0 <= i < |parts| then parts[i] else NaN
  }

  function Scale(x: JsNum, f: int): JsNum {
    if x.Num? then Num(x.n * f) else NaN
  }

  function Plus(x: JsNum, y: JsNum): JsNum {
    if x.Num? && y.Num? then Num(x.n + y.n) else NaN
  }

  /** The sentinel reading a controller sends for "no probe". */
  const NO_READING: int := 960

  /** `convertTemperature(parts, i)`: three decimal digits read as one
      number; None stands for null. */
  function ConvertTemperature(parts: seq<JsNum>, i: int): Option<JsNum> {
    var temp := Plus(Plus(Scale(Part(parts, i), 100), Scale(Part(parts, i + 1), 10)), Part(parts, i + 2));
    if temp == Num(NO_READING) then None else Some(temp)
  }

  /** The result is null exactly for a reading of 960, a number for any
      other reading in range, and NaN when a part is missing or NaN. */
  lemma ConvertTemperatureCases(parts: seq<JsNum>, i: int)
    ensures var inRange := 0 <= i && i + 2 < |parts| && parts[i].Num? && parts[i + 1].Num? && parts[i + 2].Num?;
      var value := if inRange then parts[i].n * 100 + parts[i + 1].n * 10 + parts[i + 2].n else 0;
      (ConvertTemperature(parts, i) == None <==> inRange && value == NO_READING) &&
      (inRange && value != NO_READING ==> ConvertTemperature(parts, i) == Some(Num(value))) &&
      (!inRange ==> ConvertTemperature(parts, i) == Some(NaN))
  {
  }

  lemma ConvertTemperatureExamples()
    ensures ConvertTemperature([Num(1), Num(9), Num(1)], 0) == Some(Num(191))
    ensures ConvertTemperature([Num(0), Num(9), Num(6), Num(0)], 1) == None
  {
  }

  // ---- the startsWith polyfill ----

  /** `s.slice(start, end)`: negative positions count from the end, both
      are clamped to the string, and an empty range gives "". */
  function Slice(s: string, start: int, end: int): string {
    var from := if start < 0 then (if |s| + start < 0 then 0 else |s| + start) else if start > |s| then |s| else start;
    var to := if end < 0 then (if |s| + end < 0 then 0 else |s| + end) else if end > |s| then |s| else end;
    if from < to then s[from..to] else []
  }

  /** `pos || 0`: an absent or zero position is 0. */
  function StartPos(pos: Option<int>): int {
    if pos.Some? then pos.value else 0
  }

  /** The polyfill as written: the second argument of `slice` is the
      search length, used as an end index. */
  function StartsWithAsWritten(s: string, search: string, pos: Option<int>): bool {
    Slice(s, StartPos(pos), |search|) == search
  }

  /** The polyfill as evidently intended (ECMAScript's String.prototype.
      startsWith): the |search| characters from the clamped position. */
  function StartsWith(s: string, search: string, pos: Option<int>): bool {
    var p := StartPos(pos);
    var start := if p < 0 then 0 else if p > |s| then |s| else p;
    start + |search| <= |s| && s[start..start + |search|] == search
  }

  /** The intended polyfill answers whether search occurs at the clamped
      position. */
  lemma StartsWithMeansOccursAt(s: string, search: string, pos: Option<int>, start: nat)
    requires start == (if StartPos(pos) < 0 then 0 else if StartPos(pos) > |s| then |s| else StartPos(pos))
    ensures StartsWith(s, search, pos) <==>
      (|search| <= |s| - start && forall k :: 0 <= k < |search| ==> s[start + k] == search[k])
  {
    if start + |search| <= |s| {
      assert (forall k :: 0 <= k < |search| ==> s[start + k] == search[k]) ==> s[start..start + |search|] == search;
    }
  }

  /** Without a position the two agree. */
  lemma StartsWithAgreeAtZero(s: string, search: string)
    ensures StartsWithAsWritten(s, search, None) == StartsWith(s, search, None)
  {
  }

  /** With a position the one as written misses an occurrence:
      "abc".startsWith("bc", 1) is false. */
  lemma StartsWithAsWrittenMisses()
    ensures !StartsWithAsWritten("abc", "bc", Some(1))
    ensures StartsWith("abc", "bc", Some(1))
  {
    assert Slice("abc", 1, 2) == "b";
    assert "abc"[1..3] == "bc";
  }
}
