/** Base64 as section 4 of RFC 4648 defines it, and the buffered loops that encode and decode it. */
module Base64 {

  type byte = x: int | 0 <= x < 256

  /** A 6-bit group. */
  type sextet = x: int | 0 <= x < 64

  const BASE64_CHARS: string := "ABCDEFGHIJKLMNOPQRSTUVWXYZ" + "abcdefghijklmnopqrstuvwxyz" + "0123456789+/"

  const INT_MAX := 0x7fff_ffff
  const UINT_MAX := 0xffff_ffff

  // ---------- the alphabet ----------

  /** The character of a 6-bit value, by ranges. */
  function Digit(v: sextet): char
  {
    if v < 26 then 'A' + v as char
    else if v < 52 then 'a' + (v - 26) as char
    else if v < 62 then '0' + (v - 52) as char
    else if v == 62 then '+' else '/'
  }

  /** `IsBase64`: isalnum in the C locale, plus and slash. */
  predicate IsBase64(c: char)
  {
    'A' <= c <= 'Z' || 'a' <= c <= 'z' || '0' <= c <= '9' || c == '+' || c == '/'
  }

  function Value(c: char): sextet
    requires IsBase64(c)
  {
    if 'A' <= c <= 'Z' then c as int - 65
    else if 'a' <= c <= 'z' then c as int - 97 + 26
    else if '0' <= c <= '9' then c as int - 48 + 52
    else if c == '+' then 62 else 63
  }

  lemma DigitValue(v: sextet)
    ensures IsBase64(Digit(v)) && Value(Digit(v)) == v
  {
  }

  lemma TableIsDigit(v: sextet)
    ensures |BASE64_CHARS| == 64 && BASE64_CHARS[v] == Digit(v)
  {
    var upper, lower := "ABCDEFGHIJKLMNOPQRSTUVWXYZ", "abcdefghijklmnopqrstuvwxyz";
    if v < 26 {
      assert BASE64_CHARS[v] == upper[v];
    } else if v < 52 {
      assert BASE64_CHARS[v] == lower[v - 26];
    } else {
      assert BASE64_CHARS[v] == "0123456789+/"[v - 52];
    }
  }

  /** `base64_chars.find(c)` is Value(c): the only position of c in the table. */
  lemma FindIsValue(c: char)
    requires IsBase64(c)
    ensures |BASE64_CHARS| == 64 && BASE64_CHARS[Value(c)] == c
    ensures forall i | 0 <= i < 64 && BASE64_CHARS[i] == c :: i == Value(c)
  {
    TableIsDigit(Value(c));
    forall i: sextet | BASE64_CHARS[i] == c ensures i == Value(c) {
      TableIsDigit(i);
      DigitValue(i);
    }
  }

  /** The characters of a list of 6-bit values. */
  function Digits(vs: seq<sextet>): (s: string)
    ensures |s| == |vs| && forall i | 0 <= i < |vs| :: s[i] == Digit(vs[i])
  {
    seq(|vs|, i requires 0 <= i < |vs| => Digit(vs[i]))
  }

  predicate AllBase64(s: string)
  {
    forall i | 0 <= i < |s| :: IsBase64(s[i])
  }

  function Values(s: string): (vs: seq<sextet>)
    requires AllBase64(s)
    ensures |vs| == |s| && forall i | 0 <= i < |s| :: vs[i] == Value(s[i])
  {
    seq(|s|, i requires 0 <= i < |s| => Value(s[i]))
  }

  /** The length of the longest leading run of alphabet characters. */
  function LeadingRun(s: string): (k: nat)
    ensures k <= |s| && AllBase64(s[..k])
    ensures k < |s| ==> !IsBase64(s[k])
  {
    if s == [] || !IsBase64(s[0]) then 0 else 1 + LeadingRun(s[1..])
  }

  // ---------- the definition: 24-bit groups ----------

  /** Three octets as one 24-bit group. */
  function Group(a: byte, b: byte, c: byte): int
  {
    0x1_0000 * a + 0x100 * b + c
  }

  /** A 24-bit group as four 6-bit groups. */
  function SextetsOf(n: int): seq<sextet>
  {
    [n / 0x4_0000 % 64, n / 0x1000 % 64, n / 0x40 % 64, n % 64]
  }

  /** Octets to 6-bit groups; a last group of one or two octets is filled up with zero bits. */
  function Sextets(bs: seq<byte>): seq<sextet>
  {
    if bs == [] then []
    else if |bs| == 1 then SextetsOf(Group(bs[0], 0, 0))[..2]
    else if |bs| == 2 then SextetsOf(Group(bs[0], bs[1], 0))[..3]
    else SextetsOf(Group(bs[0], bs[1], bs[2])) + Sextets(bs[3..])
  }

  function Padding(n: nat): string
  {
    if n % 3 == 1 then "==" else if n % 3 == 2 then "=" else ""
  }

  function Encoded(bs: seq<byte>): string
  {
    Digits(Sextets(bs)) + Padding(|bs|)
  }

  /** Four 6-bit groups as one 24-bit group. */
  function Join(a: sextet, b: sextet, c: sextet, d: sextet): int
  {
    0x4_0000 * a + 0x1000 * b + 0x40 * c + d
  }

  /** A 24-bit group as three octets. */
  function OctetsOf(n: int): seq<byte>
  {
    [n / 0x1_0000 % 256, n / 0x100 % 256, n % 256]
  }

  /** Whole octets of a list of 6-bit groups; bits left over are dropped. */
  function Octets(vs: seq<sextet>): seq<byte>
  {
    if |vs| <= 1 then []
    else if |vs| == 2 then OctetsOf(Join(vs[0], vs[1], 0, 0))[..1]
    else if |vs| == 3 then OctetsOf(Join(vs[0], vs[1], vs[2], 0))[..2]
    else OctetsOf(Join(vs[0], vs[1], vs[2], vs[3])) + Octets(vs[4..])
  }

  function Decoded(s: string): seq<byte>
  {
    Octets(Values(s[..LeadingRun(s)]))
  }

  // ---------- byte expressions ----------

  /** A byte masked and shifted to the right. */
  function Right(v: bv8, mask: bv8, n: bv3): byte
  {
    ((v & mask) >> n) as int
  }

  /** A byte masked and shifted to the left, for masks whose bits stay inside the byte. */
  function Left(v: bv8, mask: bv8, n: bv3): byte
  {
    ((v & mask) << n) as int
  }

  /** The eight binary digits of a byte. */
  function Bits(x: byte): (v: bv8)
    ensures v as int == x
  {
    if x == 0 then 0 else if x % 2 == 1 then (Bits(x / 2) << 1) | 1 else Bits(x / 2) << 1
  }

  lemma RightFcBy2(v: bv8)
    ensures Right(v, 0xfc, 2) == v as int / 4
  {
  }

  lemma RightF0By4(v: bv8)
    ensures Right(v, 0xf0, 4) == v as int / 16
  {
  }

  lemma RightC0By6(v: bv8)
    ensures Right(v, 0xc0, 6) == v as int / 64
  {
  }

  lemma Right3fBy0(v: bv8)
    ensures Right(v, 0x3f, 0) == v as int % 64
  {
  }

  lemma Right30By4(v: bv8)
    ensures Right(v, 0x30, 4) == v as int / 16 % 4
  {
    MaskThenShift(v);
    RightF0By4(v);
    Low2((v & 0xf0) >> 4);
  }

  lemma Right3cBy2(v: bv8)
    ensures Right(v, 0x3c, 2) == v as int / 4 % 16
  {
    MaskThenShift(v);
    RightFcBy2(v);
    Low4((v & 0xfc) >> 2);
  }

  lemma MaskThenShift(v: bv8)
    ensures (v & 0x30) >> 4 == ((v & 0xf0) >> 4) & 0x03 && (v & 0x3c) >> 2 == ((v & 0xfc) >> 2) & 0x0f
  {
  }

  lemma Low2(v: bv8)
    ensures (v & 0x03) as int == v as int % 4
  {
  }

  lemma Low4(v: bv8)
    ensures (v & 0x0f) as int == v as int % 16
  {
  }

  lemma Left03By4(v: bv8)
    ensures Left(v, 0x03, 4) == v as int % 4 * 16
  {
  }

  lemma Left0fBy2(v: bv8)
    ensures Left(v, 0x0f, 2) == v as int % 16 * 4
  {
  }

  lemma Left0fBy4(v: bv8)
    ensures Left(v, 0x0f, 4) == v as int % 16 * 16
  {
  }

  lemma Left03By6(v: bv8)
    ensures Left(v, 0x03, 6) == v as int % 4 * 64
  {
  }

  /** A quotient and a remainder that fit are the quotient and the remainder. */
  lemma QuotientIs(n: int, d: int, q: int, r: int)
    requires d > 0 && n == d * q + r && 0 <= r < d
    ensures n / d == q && n % d == r
  {
    var x := n / d - q;
    assert d * x == r - n % d;
    assert x >= 1 ==> d * x >= d;
    assert x <= -1 ==> d * x <= -d;
  }

  lemma SextetsByBytes(a: byte, b: byte, c: byte)
    ensures SextetsOf(Group(a, b, c)) == [a / 4, (a % 4) * 16 + b / 16, (b % 16) * 4 + c / 64, c % 64]
  {
    var n := Group(a, b, c);
    QuotientIs(n, 0x4_0000, a / 4, (a % 4) * 0x1_0000 + 0x100 * b + c);
    QuotientIs(n, 0x1000, a * 16 + b / 16, (b % 16) * 0x100 + c);
    QuotientIs(a * 16 + b / 16, 64, a / 4, (a % 4) * 16 + b / 16);
    QuotientIs(n, 0x40, a * 0x400 + b * 4 + c / 64, c % 64);
    QuotientIs(a * 0x400 + b * 4 + c / 64, 64, a * 16 + b / 16, (b % 16) * 4 + c / 64);
  }

  lemma OctetsBySextets(a: sextet, b: sextet, c: sextet, d: sextet)
    ensures OctetsOf(Join(a, b, c, d)) == [a * 4 + b / 16, (b % 16) * 16 + c / 4, (c % 4) * 64 + d]
  {
    var n := Join(a, b, c, d);
    QuotientIs(n, 0x1_0000, a * 4 + b / 16, (b % 16) * 0x1000 + c * 64 + d);
    QuotientIs(n, 0x100, a * 0x400 + b * 16 + c / 4, (c % 4) * 64 + d);
    QuotientIs(a * 0x400 + b * 16 + c / 4, 256, a * 4 + b / 16, (b % 16) * 16 + c / 4);
  }

  // ---------- laws ----------

  /** Three octets come back from their four 6-bit groups. */
  lemma GroupRoundTrip(a: byte, b: byte, c: byte)
    ensures var v := SextetsOf(Group(a, b, c)); Join(v[0], v[1], v[2], v[3]) == Group(a, b, c)
    ensures OctetsOf(Group(a, b, c)) == [a, b, c]
  {
    SextetsByBytes(a, b, c);
    OctetsOfGroup(a, b, c);
    hide SextetsOf, OctetsOf;
  }

  lemma OctetsOfGroup(a: byte, b: byte, c: byte)
    ensures OctetsOf(Group(a, b, c)) == [a, b, c]
  {
    var n := Group(a, b, c);
    QuotientIs(n, 0x1_0000, a, 0x100 * b + c);
    QuotientIs(n, 0x100, 0x100 * a + b, c);
    QuotientIs(0x100 * a + b, 256, a, b);
  }

  lemma {:induction false} SextetsRoundTrip(bs: seq<byte>)
    ensures Octets(Sextets(bs)) == bs
  {
    if |bs| == 1 {
      GroupRoundTrip(bs[0], 0, 0);
      SextetsByBytes(bs[0], 0, 0);
    } else if |bs| == 2 {
      GroupRoundTrip(bs[0], bs[1], 0);
      SextetsByBytes(bs[0], bs[1], 0);
    } else if |bs| >= 3 {
      GroupRoundTrip(bs[0], bs[1], bs[2]);
      SextetsRoundTrip(bs[3..]);
      var vs := Sextets(bs);
      assert vs[4..] == Sextets(bs[3..]);
      assert bs == [bs[0], bs[1], bs[2]] + bs[3..];
    }
  }

  lemma {:induction false} RunOf(a: string, b: string)
    requires AllBase64(a) && (b == [] || !IsBase64(b[0]))
    ensures LeadingRun(a + b) == |a| && (a + b)[..|a|] == a
  {
    if a == [] {
      assert a + b == b;
    } else {
      RunOf(a[1..], b);
      assert (a + b)[1..] == a[1..] + b;
    }
  }

  lemma ValuesOfDigits(vs: seq<sextet>)
    ensures AllBase64(Digits(vs)) && Values(Digits(vs)) == vs
  {
    forall i | 0 <= i < |vs| ensures IsBase64(Digits(vs)[i]) && Value(Digits(vs)[i]) == vs[i] {
      DigitValue(vs[i]);
    }
  }

  /** Decoding undoes encoding, for every byte sequence. */
  lemma RoundTrip(bs: seq<byte>)
    ensures Decoded(Encoded(bs)) == bs
  {
    var vs := Sextets(bs);
    ValuesOfDigits(vs);
    RunOf(Digits(vs), Padding(|bs|));
    SextetsRoundTrip(bs);
  }

  lemma {:induction false} SextetsLength(bs: seq<byte>)
    ensures |Sextets(bs)| == |bs| + (|bs| + 2) / 3
  {
    if |bs| >= 3 {
      SextetsLength(bs[3..]);
    }
  }

  lemma PaddedLength(n: nat)
    ensures n + (n + 2) / 3 == (4 * n + 2) / 3
    ensures n + (n + 2) / 3 + |Padding(n)| == 4 * ((n + 2) / 3)
  {
  }

  /** The encoding has 4 * ceil(n / 3) characters: ceil(4n / 3) of the alphabet, then only '='. */
  lemma EncodedShape(bs: seq<byte>)
    ensures |Encoded(bs)| == 4 * ((|bs| + 2) / 3)
    ensures LeadingRun(Encoded(bs)) == (4 * |bs| + 2) / 3
    ensures forall i | LeadingRun(Encoded(bs)) <= i < |Encoded(bs)| :: Encoded(bs)[i] == '='
  {
    var digits, padding := Digits(Sextets(bs)), Padding(|bs|);
    SextetsLength(bs);
    PaddedLength(|bs|);
    ValuesOfDigits(Sextets(bs));
    RunOf(digits, padding);
    assert Encoded(bs) == digits + padding;
    assert forall i | 0 <= i < |padding| :: padding[i] == '=';
  }

  lemma {:induction false} OctetsLength(vs: seq<sextet>)
    ensures |Octets(vs)| == 3 * |vs| / 4
  {
    if |vs| >= 4 {
      OctetsLength(vs[4..]);
    }
  }

  /**
   Decoding an arbitrary string depends only on its longest leading run of k alphabet characters, whatever follows, and
   yields floor(3k / 4) bytes.
   */
  lemma DecodeDependsOnRun(s: string, junk: string)
    requires junk == [] || !IsBase64(junk[0])
    ensures Decoded(s[..LeadingRun(s)] + junk) == Decoded(s)
    ensures |Decoded(s)| == 3 * LeadingRun(s) / 4
  {
    var run := s[..LeadingRun(s)];
    RunOf(run, junk);
    OctetsLength(Values(run));
  }

  // ---------- the encoder ----------

  /** Appends the characters of the first `count` values in the buffer. */
  method AppendDigits(ret: string, a4: array<byte>, count: nat, ghost done: seq<sextet>, ghost more: seq<sextet>) returns (out: string)
    requires ret == Digits(done) && count == |more| <= a4.Length && forall j | 0 <= j < count :: a4[j] == more[j]
    ensures out == Digits(done + more)
  {
    out := ret;
    var j := 0;
    while j < count
      invariant 0 <= j <= count && out == Digits(done + more[..j])
    {
      TableIsDigit(a4[j]);
      out := out + [BASE64_CHARS[a4[j]]];
      j := j + 1;
      assert done + more[..j] == done + more[..j - 1] + [more[j - 1]];
    }
    assert more[..count] == more;
  }

  /** What has been encoded goes on with the 6-bit groups of the input from `start`. */
  ghost predicate EncodedTo(done: seq<sextet>, input: seq<byte>, start: nat)
  {
    start <= |input| && done + Sextets(input[start..]) == Sextets(input)
  }

  lemma EncodedNothing(input: seq<byte>)
    ensures EncodedTo([], input, 0)
  {
    assert input[0..] == input;
  }

  /** The loop's invariant moves past one full group. */
  lemma GroupDone(done: seq<sextet>, input: seq<byte>, at: nat)
    requires at + 3 <= |input| && EncodedTo(done, input, at)
    ensures EncodedTo(done + SextetsOf(Group(input[at], input[at + 1], input[at + 2])), input, at + 3)
  {
    hide SextetsOf, Group;
    var rest := input[at..];
    assert rest[3..] == input[at + 3..];
    assert Sextets(rest) == SextetsOf(Group(rest[0], rest[1], rest[2])) + Sextets(rest[3..]);
  }

  /** The encoder's masks and shifts on three bytes are the 6-bit groups of their 24-bit group. */
  lemma SpreadIs(a: byte, b: byte, c: byte)
    ensures Left(Bits(a), 0x03, 4) + Right(Bits(b), 0xf0, 4) < 64 && Left(Bits(b), 0x0f, 2) + Right(Bits(c), 0xc0, 6) < 64
    ensures SextetsOf(Group(a, b, c)) ==
      [Right(Bits(a), 0xfc, 2), Left(Bits(a), 0x03, 4) + Right(Bits(b), 0xf0, 4), Left(Bits(b), 0x0f, 2) + Right(Bits(c), 0xc0, 6), Right(Bits(c), 0x3f, 0)]
  {
    hide Right, Left, Bits, SextetsOf, Group;
    SextetsByBytes(a, b, c);
    RightFcBy2(Bits(a));
    Left03By4(Bits(a));
    RightF0By4(Bits(b));
    Left0fBy2(Bits(b));
    RightC0By6(Bits(c));
    Right3fBy0(Bits(c));
  }

  /** The four assignments that spread three bytes over four 6-bit values. */
  method Spread(a3: array<byte>, a4: array<byte>)
    requires a3.Length == 3 && a4.Length == 4 && a3 != a4
    modifies a4
    ensures a4[..] == SextetsOf(Group(a3[0], a3[1], a3[2]))
  {
    hide Right, Left, Bits, SextetsOf, Group;
    SpreadIs(a3[0], a3[1], a3[2]);
    a4[0] := Right(Bits(a3[0]), 0xfc, 2);
    a4[1] := Left(Bits(a3[0]), 0x03, 4) + Right(Bits(a3[1]), 0xf0, 4);
    a4[2] := Left(Bits(a3[1]), 0x0f, 2) + Right(Bits(a3[2]), 0xc0, 6);
    a4[3] := Right(Bits(a3[2]), 0x3f, 0);
    assert a4[..] == [a4[0], a4[1], a4[2], a4[3]];
  }

  method EncodeGroup(ret: string, a3: array<byte>, a4: array<byte>, ghost done: seq<sextet>, ghost input: seq<byte>, ghost at: nat)
    returns (out: string, ghost done': seq<sextet>)
    requires a3.Length == 3 && a4.Length == 4 && a3 != a4 && ret == Digits(done) && at + 3 <= |input|
    requires forall j | 0 <= j < 3 :: a3[j] == input[at + j]
    requires EncodedTo(done, input, at)
    modifies a4
    ensures out == Digits(done') && EncodedTo(done', input, at + 3)
  {
    Spread(a3, a4);
    ghost var group := a4[..];
    out := AppendDigits(ret, a4, 4, done, group);
    GroupDone(done, input, at);
    done' := done + group;
  }

  lemma WholeGroups(done: seq<sextet>, input: seq<byte>, groups: nat)
    requires |input| == 3 * groups && EncodedTo(done, input, |input|)
    ensures Digits(done) == Encoded(input)
  {
    hide SextetsOf, Group, Digit;
    assert input[|input|..] == [];
  }

  /** `Encode`: three bytes at a time through two fixed buffers whose initial contents are unknown. */
  method Encode(bytesToEncode: array<byte>, length: nat) returns (ret: string)
    requires length <= bytesToEncode.Length && length <= UINT_MAX
    ensures ret == Encoded(bytesToEncode[..length])
  {
    assert Digits([]) == "";
    hide SextetsOf, Group, Digit, Digits, Sextets, Padding, Encoded, EncodedTo;
    ret := "";
    var i, at := 0, 0;
    var inLen := length;
    var a3, a4 := new byte[3], new byte[4];
    ghost var input := bytesToEncode[..length];
    ghost var done: seq<sextet> := [];
    ghost var groups := 0;
    EncodedNothing(input);
    while inLen != 0
      invariant at + inLen == length && 0 <= i < 3 && i <= at && at - i == 3 * groups
      invariant bytesToEncode[..length] == input
      invariant forall j | 0 <= j < i :: a3[j] == input[at - i + j]
      invariant ret == Digits(done) && EncodedTo(done, input, at - i)
    {
      inLen := inLen - 1;
      a3[i] := bytesToEncode[at];
      i, at := i + 1, at + 1;
      if i == 3 {
        ret, done := EncodeGroup(ret, a3, a4, done, input, at - 3);
        i, groups := 0, groups + 1;
      }
    }
    if i != 0 {
      ret := AppendTail(ret, a3, a4, i, done, input, groups);
    } else {
      WholeGroups(done, input, groups);
    }
  }

  /** The same three assignments without the last, on one or two bytes filled up with zero bytes. */
  method SpreadTail(a3: array<byte>, a4: array<byte>, ghost tail: seq<byte>)
    requires a3.Length == 3 && a4.Length == 4 && a3 != a4 && 1 <= |tail| <= 2
    requires forall k | 0 <= k < 3 :: a3[k] == if k < |tail| then tail[k] else 0
    modifies a4
    ensures |Sextets(tail)| == |tail| + 1 && forall j | 0 <= j < |tail| + 1 :: a4[j] == Sextets(tail)[j]
  {
    hide Right, Left, Bits, SextetsOf, Group;
    SpreadIs(a3[0], a3[1], a3[2]);
    a4[0] := Right(Bits(a3[0]), 0xfc, 2);
    a4[1] := Left(Bits(a3[0]), 0x03, 4) + Right(Bits(a3[1]), 0xf0, 4);
    a4[2] := Left(Bits(a3[1]), 0x0f, 2) + Right(Bits(a3[2]), 0xc0, 6);
    assert Sextets(tail) == SextetsOf(Group(a3[0], a3[1], a3[2]))[..|tail| + 1];
  }

  /** One or two bytes are left: fill the buffer up with zero bytes, write i + 1 characters, then '='. */
  method AppendTail(ret: string, a3: array<byte>, a4: array<byte>, i: nat, ghost done: seq<sextet>, ghost input: seq<byte>, ghost groups: nat) returns (out: string)
    requires a3.Length == 3 && a4.Length == 4 && a3 != a4 && ret == Digits(done)
    requires 1 <= i <= 2 && |input| == 3 * groups + i
    requires forall j | 0 <= j < i :: a3[j] == input[|input| - i + j]
    requires EncodedTo(done, input, |input| - i)
    modifies a3, a4
    ensures out == Encoded(input)
  {
    ghost var tail := input[|input| - i..];
    var j := i;
    while j < 3
      invariant i <= j <= 3
      invariant forall k | 0 <= k < i :: a3[k] == tail[k]
      invariant forall k | i <= k < j :: a3[k] == 0
    {
      a3[j] := 0;
      j := j + 1;
    }
    SpreadTail(a3, a4, tail);
    out := AppendDigits(ret, a4, i + 1, done, Sextets(tail));
    out := Pad(out, i, groups);
  }

  /** Fills the last group up with '='. */
  method Pad(ret: string, i: nat, ghost groups: nat) returns (out: string)
    requires 1 <= i <= 2
    ensures out == ret + Padding(3 * groups + i)
  {
    out := ret;
    var k := i;
    while k < 3
      invariant i <= k <= 3
      invariant out == ret + seq(k - i, _ => '=')
    {
      out := out + "=";
      k := k + 1;
    }
    assert out == ret + Padding(3 * groups + i);
  }

  // ---------- the decoder ----------

  /** The table search: the first position of the character. */
  method FindInTable(c: char) returns (i: sextet)
    requires IsBase64(c)
    ensures i == Value(c)
  {
    FindIsValue(c);
    hide Value, IsBase64, Digit;
    var at := 0;
    while BASE64_CHARS[at] != c
      invariant 0 <= at <= Value(c)
      decreases 64 - at
    {
      at := at + 1;
    }
    i := at;
  }

  /** Replaces the first `count` characters in the buffer by their 6-bit values. */
  method LookUp(a4: array<byte>, count: nat, ghost chars: string)
    requires a4.Length == 4 && count == |chars| <= 4 && AllBase64(chars)
    requires forall j | 0 <= j < count :: a4[j] == chars[j] as int
    modifies a4
    ensures forall j | 0 <= j < count :: a4[j] == Values(chars)[j]
  {
    var j := 0;
    while j < count
      invariant 0 <= j <= count
      invariant forall m | 0 <= m < j :: a4[m] == Values(chars)[m]
      invariant forall m | j <= m < count :: a4[m] == chars[m] as int
    {
      assert a4[j] as char == chars[j] && IsBase64(chars[j]);
      a4[j] := FindInTable(a4[j] as char);
      j := j + 1;
    }
  }

  method AppendBytes(ret: seq<byte>, a3: array<byte>, count: nat) returns (out: seq<byte>)
    requires count <= a3.Length
    ensures out == ret + a3[..count]
  {
    out := ret;
    var j := 0;
    while j < count
      invariant 0 <= j <= count
      invariant out == ret + a3[..j]
    {
      out := out + [a3[j]];
      j := j + 1;
    }
  }

  /** On 6-bit values, masking before shifting and truncating to a byte lose nothing. */
  lemma NothingLost(a: sextet, b: sextet, c: sextet)
    ensures (a * 4 + b / 16 % 4) % 256 == a * 4 + b / 16
    ensures ((b % 16) * 16 + c / 4 % 16) % 256 == (b % 16) * 16 + c / 4
    ensures ((b % 4) * 64 + c) % 256 == (b % 4) * 64 + c
  {
    assert b / 16 % 4 == b / 16;
    assert c / 4 % 16 == c / 4;
  }

  lemma GatherFirst(a: sextet, b: sextet)
    ensures (a * 4 + Right(Bits(b), 0x30, 4)) % 256 == a * 4 + b / 16
  {
    hide Right, Bits;
    Right30By4(Bits(b));
    NothingLost(a, b, 0);
  }

  lemma GatherSecond(b: sextet, c: sextet)
    ensures (Left(Bits(b), 0x0f, 4) + Right(Bits(c), 0x3c, 2)) % 256 == (b % 16) * 16 + c / 4
  {
    hide Right, Left, Bits;
    Left0fBy4(Bits(b));
    Right3cBy2(Bits(c));
    NothingLost(0, b, c);
  }

  lemma GatherThird(c: sextet, d: sextet)
    ensures (Left(Bits(c), 0x03, 6) + d) % 256 == (c % 4) * 64 + d
  {
    hide Left, Bits;
    Left03By6(Bits(c));
    NothingLost(0, c, d);
  }

  /** The decoder's masks and shifts on four 6-bit values are the octets of their 24-bit group. */
  lemma GatherIs(a: sextet, b: sextet, c: sextet, d: sextet)
    ensures OctetsOf(Join(a, b, c, d)) ==
      [(a * 4 + Right(Bits(b), 0x30, 4)) % 256, (Left(Bits(b), 0x0f, 4) + Right(Bits(c), 0x3c, 2)) % 256, (Left(Bits(c), 0x03, 6) + d) % 256]
  {
    hide *;
    OctetsBySextets(a, b, c, d);
    GatherFirst(a, b);
    GatherSecond(b, c);
    GatherThird(c, d);
  }

  /** The three assignments that gather four 6-bit values into three bytes. */
  method Gather(a4: array<byte>, a3: array<byte>)
    requires a4.Length == 4 && a3.Length == 3 && a3 != a4 && a4[0] < 64 && a4[1] < 64 && a4[2] < 64 && a4[3] < 64
    modifies a3
    ensures a3[..] == OctetsOf(Join(a4[0], a4[1], a4[2], a4[3]))
  {
    hide OctetsOf, Join, Right, Left, Bits;
    GatherIs(a4[0], a4[1], a4[2], a4[3]);
    a3[0] := (a4[0] * 4 + Right(Bits(a4[1]), 0x30, 4)) % 256;
    a3[1] := (Left(Bits(a4[1]), 0x0f, 4) + Right(Bits(a4[2]), 0x3c, 2)) % 256;
    a3[2] := (Left(Bits(a4[2]), 0x03, 6) + a4[3]) % 256;
    assert a3[..] == [a3[0], a3[1], a3[2]];
  }

  /** What has been decoded goes on with the octets of the values from `start`. */
  ghost predicate DecodedTo(ret: seq<byte>, vs: seq<sextet>, start: nat)
  {
    start <= |vs| && ret + Octets(vs[start..]) == Octets(vs)
  }

  lemma DecodedEnds(ret: seq<byte>, vs: seq<sextet>)
    ensures DecodedTo([], vs, 0)
    ensures DecodedTo(ret, vs, |vs|) ==> ret == Octets(vs)
  {
    assert vs[0..] == vs && vs[|vs|..] == [];
    assert Octets([]) == [];
  }

  lemma OctetGroupDone(ret: seq<byte>, vs: seq<sextet>, at: nat)
    requires at + 4 <= |vs| && DecodedTo(ret, vs, at)
    ensures DecodedTo(ret + OctetsOf(Join(vs[at], vs[at + 1], vs[at + 2], vs[at + 3])), vs, at + 4)
  {
    hide OctetsOf, Join;
    var rest := vs[at..];
    assert rest[4..] == vs[at + 4..];
    assert Octets(rest) == OctetsOf(Join(rest[0], rest[1], rest[2], rest[3])) + Octets(rest[4..]);
  }

  method DecodeGroup(ret: seq<byte>, a4: array<byte>, a3: array<byte>, ghost run: string, ghost at: nat) returns (out: seq<byte>)
    requires a4.Length == 4 && a3.Length == 3 && a3 != a4 && AllBase64(run) && at + 4 <= |run|
    requires forall j | 0 <= j < 4 :: a4[j] == run[at + j] as int
    requires DecodedTo(ret, Values(run), at)
    modifies a3, a4
    ensures DecodedTo(out, Values(run), at + 4)
  {
    LookUp(a4, 4, run[at..at + 4]);
    assert forall j | 0 <= j < 4 :: a4[j] == Values(run)[at + j];
    Gather(a4, a3);
    OctetGroupDone(ret, Values(run), at);
    out := AppendBytes(ret, a3, 3);
    assert a3[..3] == a3[..];
  }

  /**
   `Decode`. The buffers start with unknown contents, and the tail step reads entries that were never written or hold an
   older group; the result is a function of the input string alone.
   */
  method Decode(encoded: string) returns (ret: seq<byte>)
    requires |encoded| <= INT_MAX
    ensures ret == Decoded(encoded)
  {
    var a4, a3 := new byte[4], new byte[3];
    ghost var run := encoded[..LeadingRun(encoded)];
    hide Octets, Value, Values, IsBase64, AllBase64, LeadingRun, DecodedTo;
    var i: nat;
    ret, i := DecodeGroups(encoded, a4, a3, run);
    if i != 0 {
      ret := DecodeTail(ret, a4, a3, i, run);
    } else {
      DecodedEnds(ret, Values(run));
    }
  }

  /** The scan: a full buffer is decoded at once; the characters of the last, incomplete group stay in it. */
  method DecodeGroups(encoded: string, a4: array<byte>, a3: array<byte>, ghost run: string) returns (ret: seq<byte>, i: nat)
    requires a4.Length == 4 && a3.Length == 3 && a3 != a4 && run == encoded[..LeadingRun(encoded)]
    modifies a3, a4
    ensures i < 4 && i <= |run| && forall j | 0 <= j < i :: a4[j] == run[|run| - i + j] as int
    ensures DecodedTo(ret, Values(run), |run| - i)
  {
    hide Octets, Value, Values, IsBase64, AllBase64, LeadingRun, DecodedTo;
    ret, i := [], 0;
    DecodedEnds(ret, Values(run));
    var inLen, at := |encoded|, 0;
    ghost var start := 0;
    while inLen != 0 && encoded[at] != '=' && IsBase64(encoded[at])
      invariant at + inLen == |encoded| && at == start + i <= |run| && i < 4
      invariant forall j | 0 <= j < i :: a4[j] == run[start + j] as int
      invariant DecodedTo(ret, Values(run), start)
    {
      InRun(encoded, at);
      inLen := inLen - 1;
      a4[i] := encoded[at] as int;
      i, at := i + 1, at + 1;
      if i == 4 {
        ret := DecodeGroup(ret, a4, a3, run, start);
        i, start := 0, at;
      }
    }
    AtRunEnd(encoded, at);
  }

  /** The scan has not left the run while it finds alphabet characters, all of them one-byte codes. */
  lemma InRun(s: string, at: nat)
    requires at < |s| && at <= LeadingRun(s) && IsBase64(s[at])
    ensures at < LeadingRun(s) && s[at] as int < 256
  {
    hide LeadingRun;
  }

  /** The scan stops exactly at the end of the run; the separate test for '=' never matters. */
  lemma AtRunEnd(s: string, at: nat)
    requires at <= LeadingRun(s) && (at == |s| || s[at] == '=' || !IsBase64(s[at]))
    ensures at == LeadingRun(s)
  {
    hide LeadingRun;
    var run := s[..LeadingRun(s)];
    assert forall i | 0 <= i < |run| :: run[i] == s[i] && IsBase64(run[i]);
    assert !IsBase64('=');
  }

  method DecodeTail(ret: seq<byte>, a4: array<byte>, a3: array<byte>, i: nat, ghost run: string) returns (out: seq<byte>)
    requires a4.Length == 4 && a3.Length == 3 && a3 != a4 && 1 <= i <= 3 && i <= |run| && AllBase64(run)
    requires forall j | 0 <= j < i :: a4[j] == run[|run| - i + j] as int
    requires DecodedTo(ret, Values(run), |run| - i)
    modifies a3, a4
    ensures out == Octets(Values(run))
  {
    hide Octets, Value, IsBase64;
    ghost var tail := Values(run)[|run| - i..];
    LookUp(a4, i, run[|run| - i..]);
    assert forall j | 0 <= j < i :: a4[j] == tail[j];
    hide Values, AllBase64;
    GatherTail(a4, a3, tail);
    out := AppendBytes(ret, a3, i - 1);
  }

  /** The first two of the three assignments, on a buffer of which only the first |tail| entries are known. */
  method GatherTail(a4: array<byte>, a3: array<byte>, ghost tail: seq<sextet>)
    requires a4.Length == 4 && a3.Length == 3 && a3 != a4 && 1 <= |tail| <= 3 && forall j | 0 <= j < |tail| :: a4[j] == tail[j]
    modifies a3
    ensures a3[..|tail| - 1] == Octets(tail)
  {
    hide Right, Left, Bits, Octets;
    a3[0] := (a4[0] * 4 + Right(Bits(a4[1]), 0x30, 4)) % 256;
    a3[1] := (Left(Bits(a4[1]), 0x0f, 4) + Right(Bits(a4[2]), 0x3c, 2)) % 256;
    TailOctets(tail, a3[0], a3[1], a4[1], a4[2]);
    assert a3[..|tail| - 1] == [a3[0], a3[1]][..|tail| - 1];
  }

  /** Of the two bytes the tail computes from possibly stale entries, those kept are the octets of the tail. */
  lemma TailOctets(tail: seq<sextet>, b0: byte, b1: byte, x1: byte, x2: byte)
    requires 1 <= |tail| <= 3 && (|tail| >= 2 ==> x1 == tail[1]) && (|tail| >= 3 ==> x2 == tail[2])
    requires b0 == (tail[0] * 4 + Right(Bits(x1), 0x30, 4)) % 256
    requires b1 == (Left(Bits(x1), 0x0f, 4) + Right(Bits(x2), 0x3c, 2)) % 256
    ensures Octets(tail) == [b0, b1][..|tail| - 1]
  {
    hide OctetsOf, Join, Right, Left, Bits;
    if |tail| == 2 {
      GatherIs(tail[0], tail[1], 0, 0);
    } else if |tail| == 3 {
      GatherIs(tail[0], tail[1], tail[2], 0);
    }
  }
}
