/**
  Offsets on the wire (src/protocol/offset.rs): `-1`, `now`, or two 16-digit
  lowercase hexadecimal numbers joined by an underscore.
 */
module OffsetCodec {
  import opened Types
  import opened LogSpec

  const START: seq<byte> := [45, 49]
  const NOW: seq<byte> := [110, 111, 119]
  const UNDERSCORE: byte := 95

  predicate Fits64(o: Offset) {
    o.At? ==> o.readSeq < TWO64 && o.byteOffset < TWO64
  }

  // ------------------------------------------------------ hexadecimal numbers

  function Pow16(n: nat): (p: nat)
    ensures p > 0
  {
    if n == 0 then 1 else 16 * Pow16(n - 1)
  }

  lemma Pow16At16()
    ensures Pow16(16) == TWO64
  {
    assert Pow16(4) == 0x1_0000;
    assert Pow16(8) == 0x1_0000_0000 by { assert Pow16(6) == 0x100_0000; }
    assert Pow16(12) == 0x1_0000_0000_0000 by { assert Pow16(10) == 0x100_0000_0000; }
    assert Pow16(14) == 0x100_0000_0000_0000;
  }

  lemma {:induction false} Pow16Grows(a: nat, b: nat)
    requires a <= b
    ensures Pow16(a) <= Pow16(b)
    decreases b
  {
    if a < b { Pow16Grows(a, b - 1); }
  }

  predicate IsHex(b: byte) {
    48 <= b <= 57 || 97 <= b <= 102
  }

  function HexDigit(d: nat): (b: byte)
    requires d < 16
    ensures IsHex(b)
  {
    if d < 10 then 48 + d else 87 + d
  }

  function DigitValue(b: byte): (d: nat)
    requires IsHex(b)
    ensures d < 16 && HexDigit(d) == b
  {
    if b <= 57 then b - 48 else b - 87
  }

  /** The `n` lowest hexadecimal digits of `v`, most significant first. */
  function Hex(v: nat, n: nat): (h: seq<byte>)
    ensures |h| == n && forall i :: 0 <= i < n ==> IsHex(h[i])
  {
    if n == 0 then [] else Hex(v / 16, n - 1) + [HexDigit(v % 16)]
  }

  function Value(h: seq<byte>): nat
    requires forall i :: 0 <= i < |h| ==> IsHex(h[i])
  {
    if h == [] then 0 else Value(h[..|h| - 1]) * 16 + DigitValue(h[|h| - 1])
  }

  lemma {:induction false} ValueOfHex(v: nat, n: nat)
    requires v < Pow16(n)
    ensures Value(Hex(v, n)) == v
  {
    if n > 0 {
      ValueOfHex(v / 16, n - 1);
      ValueOfPush(Hex(v / 16, n - 1), v % 16);
    }
  }

  lemma ValueOfPush(h: seq<byte>, d: nat)
    requires d < 16 && forall i :: 0 <= i < |h| ==> IsHex(h[i])
    ensures Value(h + [HexDigit(d)]) == Value(h) * 16 + d
  {
    var g := h + [HexDigit(d)];
    assert g[..|g| - 1] == h && g[|g| - 1] == HexDigit(d);
    assert DigitValue(HexDigit(d)) == d;
  }

  lemma HexOfSum(v: nat, d: nat, n: nat)
    requires d < 16 && n > 0
    ensures Hex(v * 16 + d, n) == Hex(v, n - 1) + [HexDigit(d)]
  {
    assert (v * 16 + d) / 16 == v && (v * 16 + d) % 16 == d;
  }

  /** Printing a value gives back the digits it was read from. */
  lemma {:induction false} HexOfValue(h: seq<byte>)
    requires forall i :: 0 <= i < |h| ==> IsHex(h[i])
    ensures Value(h) < Pow16(|h|) && Hex(Value(h), |h|) == h
  {
    if h != [] {
      HexOfValue(h[..|h| - 1]);
      HexOfSum(Value(h[..|h| - 1]), DigitValue(h[|h| - 1]), |h|);
      assert h == h[..|h| - 1] + [h[|h| - 1]];
    }
  }

  /** `v >> (4 * k)`. */
  function ShiftRight4(v: nat, k: nat): nat {
    if k == 0 then v else ShiftRight4(v / 16, k - 1)
  }

  /** Digit `i` of the printed number is the one the source extracts by shift and mask. */
  lemma {:induction false} HexAt(v: nat, n: nat, i: nat)
    requires i < n
    ensures Hex(v, n)[i] == HexDigit(ShiftRight4(v, n - 1 - i) % 16)
  {
    if i < n - 1 { HexAt(v / 16, n - 1, i); }
  }

  // ------------------------------------------------------------- printing

  function Show(o: Offset): (s: seq<byte>)
    requires Fits64(o)
  {
    match o
    case Start => START
    case Now => NOW
    case At(r, b) => Hex(r, 16) + [UNDERSCORE] + Hex(b, 16)
  }

  /** The bytes as ASCII text. */
  function Chars(bs: seq<byte>): (s: string)
    ensures |s| == |bs|
  {
    seq(|bs|, i requires 0 <= i < |bs| => bs[i] as char)
  }

  lemma CharsConcat(a: seq<byte>, b: seq<byte>)
    ensures Chars(a + b) == Chars(a) + Chars(b)
  {}

  lemma CharsInjective(a: seq<byte>, b: seq<byte>)
    requires Chars(a) == Chars(b)
    ensures a == b
  {
    forall i | 0 <= i < |a| ensures a[i] == b[i] { assert Chars(a)[i] == Chars(b)[i]; }
  }

  const DIGITS := "0123456789abcdef"

  /** What a client sees: `-1`, `now`, or two numbers around an underscore. */
  lemma ShowPrinted(o: Offset)
    requires Fits64(o)
    ensures o.Start? ==> Chars(Show(o)) == "-1"
    ensures o.Now? ==> Chars(Show(o)) == "now"
    ensures o.At? ==> |Show(o)| == 33 && Chars(Show(o))[16] == '_'
  {}

  /** Both numbers in sixteen lowercase digits, the highest first. */
  lemma DigitsPrinted(r: nat, b: nat, i: nat)
    requires Fits64(At(r, b)) && i < 16
    ensures Chars(Show(At(r, b)))[i] == DIGITS[ShiftRight4(r, 15 - i) % 16]
    ensures Chars(Show(At(r, b)))[17 + i] == DIGITS[ShiftRight4(b, 15 - i) % 16]
  {
    HexAt(r, 16, i);
    HexAt(b, 16, i);
    DigitPrinted(ShiftRight4(r, 15 - i) % 16);
    DigitPrinted(ShiftRight4(b, 15 - i) % 16);
  }

  lemma DigitPrinted(d: nat)
    requires d < 16
    ensures HexDigit(d) as char == DIGITS[d]
  {}

  method EncodeOffset(readSeq: nat, byteOffset: nat) returns (raw: array<byte>)
    requires readSeq < TWO64 && byteOffset < TWO64
    ensures fresh(raw) && raw[..] == Show(At(readSeq, byteOffset))
  {
    raw := new byte[33](_ => 0);
    for i := 0 to 16
      invariant forall k :: 0 <= k < i ==> raw[k] == Hex(readSeq, 16)[k]
    {
      HexAt(readSeq, 16, i);
      raw[i] := HexDigit(ShiftRight4(readSeq, 15 - i) % 16);
    }
    raw[16] := UNDERSCORE;
    for i := 0 to 16
      invariant forall k :: 0 <= k < 16 ==> raw[k] == Hex(readSeq, 16)[k]
      invariant raw[16] == UNDERSCORE
      invariant forall k :: 17 <= k < 17 + i ==> raw[k] == Hex(byteOffset, 16)[k - 17]
    {
      HexAt(byteOffset, 16, i);
      raw[17 + i] := HexDigit(ShiftRight4(byteOffset, 15 - i) % 16);
    }
  }

  // -------------------------------------------------------------- parsing

  /** Sixteen digits never overflow the 64-bit accumulator. */
  method DecodeHex16(bytes: seq<byte>) returns (r: Option<nat>)
    ensures r.Some? <==> |bytes| == 16 && forall i :: 0 <= i < 16 ==> IsHex(bytes[i])
    ensures r.Some? ==> r.value == Value(bytes) && r.value < TWO64
  {
    if |bytes| != 16 { return None; }
    var value := 0;
    for i := 0 to 16
      invariant forall k :: 0 <= k < i ==> IsHex(bytes[k])
      invariant value == Value(bytes[..i]) < Pow16(i)
    {
      var b := bytes[i];
      if !IsHex(b) { return None; }
      assert bytes[..i + 1][..i] == bytes[..i];
      Pow16Grows(i + 1, 16);
      Pow16At16();
      value := (value * 16) % TWO64 + DigitValue(b);
    }
    assert bytes[..16] == bytes;
    Pow16At16();
    r := Some(value);
  }

  predicate Canonical(s: seq<byte>) {
    |s| == 33 && s[16] == UNDERSCORE && forall i :: 0 <= i < 33 && i != 16 ==> IsHex(s[i])
  }

  predicate Accepted(s: seq<byte>) {
    s == START || s == NOW || Canonical(s)
  }

  predicate IsUpper(b: byte) {
    65 <= b <= 90
  }

  /** `i` is the first place where a digit was expected and something else stands. */
  predicate FirstBad(s: seq<byte>, i: int) {
    && 0 <= i < |s| == 33 && i != 16 && !IsHex(s[i])
    && forall k :: 0 <= k < i && k != 16 ==> IsHex(s[k])
  }

  datatype ParseResult = Parsed(offset: Offset) | BadShape | NotLowercase | BadDigit(part: nat)

  /** Parsing accepts exactly the canonical strings and the two sentinels, and undoes printing. */
  method FromStr(s: seq<byte>) returns (r: ParseResult)
    ensures r.Parsed? <==> Accepted(s)
    ensures r.Parsed? ==> Fits64(r.offset) && Show(r.offset) == s
    ensures r.BadShape? <==> !Accepted(s) && (|s| != 33 || s[16] != UNDERSCORE)
    ensures r.NotLowercase? ==> exists i :: FirstBad(s, i) && IsUpper(s[i])
    ensures r.BadDigit? ==> exists i :: FirstBad(s, i) && !IsUpper(s[i]) && r.part == if i < 16 then 1 else 2
  {
    if s == START { return Parsed(Start); }
    if s == NOW { return Parsed(Now); }
    if |s| != 33 || s[16] != UNDERSCORE { return BadShape; }
    for i := 0 to 33
      invariant forall k :: 0 <= k < i && k != 16 ==> IsHex(s[k])
    {
      if i != 16 {
        if !IsHex(s[i]) { assert FirstBad(s, i); }
        if IsUpper(s[i]) { return NotLowercase; }
        if !IsHex(s[i]) { return BadDigit(if i < 16 then 1 else 2); }
      }
    }
    var hi := DecodeHex16(s[..16]);
    var lo := DecodeHex16(s[17..]);
    Pow16At16();
    HexOfValue(s[..16]);
    HexOfValue(s[17..]);
    assert s == s[..16] + [UNDERSCORE] + s[17..];
    r := Parsed(At(hi.value, lo.value));
  }

  lemma ShowAccepted(o: Offset)
    requires Fits64(o)
    ensures Accepted(Show(o))
  {
    Pow16At16();
  }

  lemma ShowInjective(a: Offset, b: Offset)
    requires Fits64(a) && Fits64(b) && Show(a) == Show(b)
    ensures a == b
  {
    Pow16At16();
    if a.At? && b.At? {
      var s := Show(a);
      assert s[..16] == Hex(a.readSeq, 16) == Hex(b.readSeq, 16);
      assert s[17..] == Hex(a.byteOffset, 16) == Hex(b.byteOffset, 16);
      ValueOfHex(a.readSeq, 16);
      ValueOfHex(b.readSeq, 16);
      ValueOfHex(a.byteOffset, 16);
      ValueOfHex(b.byteOffset, 16);
    } else {
      assert |Show(a)| == |Show(b)|;
    }
  }

  /** Print, then parse: every offset comes back. */
  method PrintThenParse(o: Offset) returns (r: ParseResult)
    requires Fits64(o)
    ensures r == Parsed(o)
  {
    ShowAccepted(o);
    r := FromStr(Show(o));
    ShowInjective(r.offset, o);
  }

  // --------------------------------------------------------------- order

  datatype Ordering = Less | Equal | Greater

  function CompareBytes(a: seq<byte>, b: seq<byte>): Ordering {
    if a == [] then (if b == [] then Equal else Less)
    else if b == [] then Greater
    else if a[0] < b[0] then Less
    else if a[0] > b[0] then Greater
    else CompareBytes(a[1..], b[1..])
  }

  function CompareNat(a: nat, b: nat): Ordering {
    if a < b then Less else if a > b then Greater else Equal
  }

  /** `Ord for Offset`: numeric on two concrete offsets, on the strings otherwise. */
  function Compare(a: Offset, b: Offset): Ordering
    requires Fits64(a) && Fits64(b)
  {
    if a.At? && b.At? then
      if a.readSeq != b.readSeq then CompareNat(a.readSeq, b.readSeq)
      else CompareNat(a.byteOffset, b.byteOffset)
    else CompareBytes(Show(a), Show(b))
  }

  lemma CompareHead(x: seq<byte>, y: seq<byte>, b: byte)
    ensures CompareBytes([b] + x, [b] + y) == CompareBytes(x, y)
  {
    assert ([b] + x)[1..] == x && ([b] + y)[1..] == y;
  }

  /** Equally long hexadecimal numbers compare like the numbers, then like what follows them. */
  lemma {:induction false} CompareHex(v: nat, w: nat, n: nat, x: seq<byte>, y: seq<byte>)
    requires v < Pow16(n) && w < Pow16(n)
    ensures CompareBytes(Hex(v, n) + x, Hex(w, n) + y) ==
            if v != w then CompareNat(v, w) else CompareBytes(x, y)
  {
    if n == 0 {
      assert Hex(v, 0) + x == x && Hex(w, 0) + y == y;
    } else {
      var dv, dw := HexDigit(v % 16), HexDigit(w % 16);
      assert Hex(v, n) + x == Hex(v / 16, n - 1) + ([dv] + x);
      assert Hex(w, n) + y == Hex(w / 16, n - 1) + ([dw] + y);
      CompareHex(v / 16, w / 16, n - 1, [dv] + x, [dw] + y);
      if dv == dw { CompareHead(x, y, dv); }
    }
  }

  /** The mixed comparison is byte order of the printed strings, on every pair of offsets. */
  lemma CompareIsByteOrder(a: Offset, b: Offset)
    requires Fits64(a) && Fits64(b)
    ensures Compare(a, b) == CompareBytes(Show(a), Show(b))
  {
    if a.At? && b.At? {
      Pow16At16();
      var x, y := Hex(a.byteOffset, 16), Hex(b.byteOffset, 16);
      var ux, uy := [UNDERSCORE] + x, [UNDERSCORE] + y;
      assert Show(a) == Hex(a.readSeq, 16) + ux;
      assert Show(b) == Hex(b.readSeq, 16) + uy;
      CompareHex(a.readSeq, b.readSeq, 16, ux, uy);
      CompareHead(x, y, UNDERSCORE);
      assert x == x + [] && y == y + [];
      CompareHex(a.byteOffset, b.byteOffset, 16, [], []);
    }
  }

  /** It is also the order of positions in a log: `-1` first, `now` last. */
  lemma CompareIsBefore(a: Offset, b: Offset)
    requires Fits64(a) && Fits64(b)
    ensures Compare(a, b) == Less <==> Before(a, b)
    ensures Compare(a, b) == Equal <==> a == b
    ensures Compare(a, b) == Greater <==> Before(b, a)
  {
    Pow16At16();
    if a == b && !a.At? { CompareSelf(Show(a)); }
  }

  lemma {:induction false} CompareSelf(s: seq<byte>)
    ensures CompareBytes(s, s) == Equal
  {
    if s != [] { CompareSelf(s[1..]); }
  }

  /** One total order on all offsets. */
  lemma CompareTotalOrder(a: Offset, b: Offset, c: Offset)
    requires Fits64(a) && Fits64(b) && Fits64(c)
    ensures Compare(a, b) == Less && Compare(b, c) == Less ==> Compare(a, c) == Less
    ensures Compare(a, b) == Less <==> Compare(b, a) == Greater
    ensures a != Start ==> Compare(Start, a) == Less
    ensures a != Now ==> Compare(a, Now) == Less
  {
    CompareIsBefore(a, b);
    CompareIsBefore(b, c);
    CompareIsBefore(a, c);
    CompareIsBefore(b, a);
    CompareIsBefore(Start, a);
    CompareIsBefore(a, Now);
  }
}
