/** Base64 as positional notation: what the digits and the octets are worth as numbers, whatever way they were computed. */
module Base64Values {
  import opened Base64

  /** Octets as the digits of a number in base 256, most significant first. */
  function Number256(bs: seq<byte>): nat
  {
    if bs == [] then 0 else 256 * Number256(bs[..|bs| - 1]) + bs[|bs| - 1]
  }

  /** 6-bit values as the digits of a number in base 64. */
  function Number64(vs: seq<sextet>): nat
  {
    if vs == [] then 0 else 64 * Number64(vs[..|vs| - 1]) + vs[|vs| - 1]
  }

  function Pow(b: nat, n: nat): nat
  {
    if n == 0 then 1 else b * Pow(b, n - 1)
  }

  /** A product, by name. */
  function Times(x: nat, y: nat): nat
  {
    x * y
  }

  lemma {:induction false} Number256Append(a: seq<byte>, b: seq<byte>)
    ensures Number256(a + b) == Times(Number256(a), Pow(256, |b|)) + Number256(b)
  {
    if b == [] {
      assert a + b == a;
    } else {
      var init, last := b[..|b| - 1], b[|b| - 1];
      Number256Append(a, init);
      assert (a + b)[..|a + b| - 1] == a + init && (a + b)[|a + b| - 1] == last;
      Distribute(256, Number256(a), Pow(256, |init|), Number256(init));
    }
  }

  lemma {:induction false} Number64Append(a: seq<sextet>, b: seq<sextet>)
    ensures Number64(a + b) == Times(Number64(a), Pow(64, |b|)) + Number64(b)
  {
    if b == [] {
      assert a + b == a;
    } else {
      var init, last := b[..|b| - 1], b[|b| - 1];
      Number64Append(a, init);
      assert (a + b)[..|a + b| - 1] == a + init && (a + b)[|a + b| - 1] == last;
      Distribute(64, Number64(a), Pow(64, |init|), Number64(init));
    }
  }

  lemma Distribute(k: nat, x: nat, p: nat, y: nat)
    ensures k * (x * p + y) == x * (k * p) + k * y
  {
  }

  lemma Number64Of2(a: sextet, b: sextet)
    ensures Number64([a]) == a && Number64([a, b]) == 64 * a + b
  {
    assert [a][..0] == [] && [a, b][..1] == [a];
    assert Number64([]) == 0;
  }

  lemma Number64Of3(a: sextet, b: sextet, c: sextet)
    ensures Number64([a, b, c]) == 4096 * a + 64 * b + c
  {
    Number64Of2(a, b);
    assert [a, b, c][..2] == [a, b];
  }

  lemma Number64Of4(a: sextet, b: sextet, c: sextet, d: sextet)
    ensures Number64([a, b, c, d]) == Join(a, b, c, d)
  {
    Number64Of3(a, b, c);
    assert [a, b, c, d][..3] == [a, b, c];
  }

  lemma Number256Of2(a: byte, b: byte)
    ensures Number256([a]) == a && Number256([a, b]) == 256 * a + b
  {
    assert [a][..0] == [] && [a, b][..1] == [a];
    assert Number256([]) == 0;
  }

  lemma Number256Of3(a: byte, b: byte, c: byte)
    ensures Number256([a, b, c]) == Group(a, b, c)
  {
    Number256Of2(a, b);
    assert [a, b, c][..2] == [a, b];
  }

  // ---------- the encoder ----------

  /** What the zero bits that fill up the last group are worth. */
  function Fill(n: nat): nat
  {
    if n % 3 == 1 then 16 else if n % 3 == 2 then 4 else 1
  }

  lemma Pow3(n: nat)
    ensures Pow(256, n + 3) == 0x100_0000 * Pow(256, n)
  {
    assert Pow(256, n + 3) == 256 * Pow(256, n + 2) && Pow(256, n + 2) == 256 * Pow(256, n + 1) && Pow(256, n + 1) == 256 * Pow(256, n);
  }

  lemma Pow4(n: nat)
    ensures Pow(64, n + 4) == 0x100_0000 * Pow(64, n)
  {
    assert Pow(64, n + 4) == 64 * Pow(64, n + 3) && Pow(64, n + 3) == 64 * Pow(64, n + 2);
    assert Pow(64, n + 2) == 64 * Pow(64, n + 1) && Pow(64, n + 1) == 64 * Pow(64, n);
  }

  /** The digits of n octets have room for exactly the octets and the filling. */
  lemma {:induction false} RoomOfOctets(n: nat)
    ensures Pow(64, n + (n + 2) / 3) == Times(Pow(256, n), Fill(n))
  {
    if n < 3 {
      SmallPowers();
      hide Pow;
    } else {
      RoomOfOctets(n - 3);
      var k := n - 3 + (n - 3 + 2) / 3;
      assert n + (n + 2) / 3 == k + 4 && Fill(n) == Fill(n - 3);
      Pow4(k);
      Pow3(n - 3);
      hide Pow, Fill;
      Scale(0x100_0000, Pow(256, n - 3), Fill(n));
    }
  }

  lemma SmallPowers()
    ensures Pow(64, 0) == 1 && Pow(64, 1) == 64 && Pow(64, 2) == 4096 && Pow(64, 3) == 262144
    ensures Pow(256, 0) == 1 && Pow(256, 1) == 256 && Pow(256, 2) == 65536
  {
    assert Pow(64, 0) == 1 && Pow(256, 0) == 1;
    assert Pow(64, 1) == 64 && Pow(256, 1) == 256;
    assert Pow(64, 2) == 4096;
  }

  lemma Scale(k: nat, p: nat, f: nat)
    ensures k * (p * f) == k * p * f
  {
  }

  lemma Regroup(g: nat, p: nat, f: nat, x: nat)
    ensures Times(g, Times(p, f)) + Times(x, f) == Times(Times(g, p) + x, f)
  {
    Scale(g, p, f);
  }

  lemma GroupValue(a: byte, b: byte, c: byte)
    ensures Number64(SextetsOf(Group(a, b, c))) == Group(a, b, c)
  {
    var v := SextetsOf(Group(a, b, c));
    GroupRoundTrip(a, b, c);
    Number64Of4(v[0], v[1], v[2], v[3]);
    assert v == [v[0], v[1], v[2], v[3]];
    hide SextetsOf, Group, Join, Number64;
  }

  lemma OneOctet(a: byte)
    ensures Number64(Sextets([a])) == Number256([a]) * 16
  {
    SextetsByBytes(a, 0, 0);
    assert Sextets([a]) == [a / 4, a % 4 * 16];
    hide SextetsOf, Group, Sextets, Number64, Number256;
    Number64Of2(a / 4, a % 4 * 16);
    Number256Of2(a, 0);
  }

  lemma TwoOctets(a: byte, b: byte)
    ensures Number64(Sextets([a, b])) == Number256([a, b]) * 4
  {
    SextetsByBytes(a, b, 0);
    assert Sextets([a, b]) == [a / 4, a % 4 * 16 + b / 16, b % 16 * 4];
    hide SextetsOf, Group, Sextets, Number64, Number256;
    Number64Of3(a / 4, a % 4 * 16 + b / 16, b % 16 * 4);
    Number256Of2(a, b);
  }

  lemma {:induction false} SextetsValue(bs: seq<byte>)
    ensures Number64(Sextets(bs)) == Times(Number256(bs), Fill(|bs|))
  {
    if bs == [] {
    } else if |bs| == 1 {
      assert bs == [bs[0]];
      OneOctet(bs[0]);
    } else if |bs| == 2 {
      assert bs == [bs[0], bs[1]];
      TwoOctets(bs[0], bs[1]);
    } else {
      assert bs == [bs[0], bs[1], bs[2]] + bs[3..];
      hide *;
      SextetsValue(bs[3..]);
      SextetsMore(bs[0], bs[1], bs[2], bs[3..]);
    }
  }

  lemma FillRepeats(n: nat)
    ensures Fill(3 + n) == Fill(n)
  {
  }

  /** Three octets more in front. */
  lemma SextetsMore(a: byte, b: byte, c: byte, rest: seq<byte>)
    requires Number64(Sextets(rest)) == Times(Number256(rest), Fill(|rest|))
    ensures var bs := [a, b, c] + rest; Number64(Sextets(bs)) == Times(Number256(bs), Fill(|bs|))
  {
    hide *;
    var g, bs := Group(a, b, c), [a, b, c] + rest;
    SextetsSplit(a, b, c, rest);
    FillRepeats(|rest|);
    GroupValue(a, b, c);
    Number256Of3(a, b, c);
    Number64Append(SextetsOf(g), Sextets(rest));
    Number256Append([a, b, c], rest);
    SextetsLength(rest);
    RoomOfOctets(|rest|);
    Regroup(g, Pow(256, |rest|), Fill(|rest|), Number256(rest));
  }

  lemma SextetsSplit(a: byte, b: byte, c: byte, rest: seq<byte>)
    ensures Sextets([a, b, c] + rest) == SextetsOf(Group(a, b, c)) + Sextets(rest)
  {
    assert ([a, b, c] + rest)[3..] == rest;
    hide SextetsOf, Group;
  }

  /**
   The encoding as a number. Read in base 64 by their places in the alphabet, the characters before the padding are worth
   the octets read in base 256, shifted left by the four, two or no zero bits that fill up the last character.
   */
  lemma EncodedValue(bs: seq<byte>)
    ensures var s := Encoded(bs); var digits := s[..LeadingRun(s)];
      Number64(Values(digits)) == Number256(bs) * (if |bs| % 3 == 1 then 16 else if |bs| % 3 == 2 then 4 else 1)
  {
    var vs := Sextets(bs);
    ValuesOfDigits(vs);
    RunOf(Digits(vs), Padding(|bs|));
    SextetsValue(bs);
    hide Sextets, Number64, Number256;
  }

  // ---------- the decoder ----------

  /** What the bits that make no whole octet are worth. */
  function Spare(k: nat): nat
  {
    if k % 4 == 1 then 64 else if k % 4 == 2 then 16 else if k % 4 == 3 then 4 else 1
  }

  lemma {:induction false} RoomOfDigits(k: nat)
    ensures Pow(64, k) == Times(Pow(256, 3 * k / 4), Spare(k))
  {
    if k < 4 {
      SmallPowers();
      hide Pow;
    } else {
      RoomOfDigits(k - 4);
      Pow4(k - 4);
      Pow3(3 * (k - 4) / 4);
      assert 3 * k / 4 == 3 * (k - 4) / 4 + 3;
      Scale(0x100_0000, Pow(256, 3 * (k - 4) / 4), Spare(k));
    }
  }

  lemma JoinValue(a: sextet, b: sextet, c: sextet, d: sextet)
    ensures Number256(OctetsOf(Join(a, b, c, d))) == Join(a, b, c, d)
  {
    OctetsBySextets(a, b, c, d);
    var o := OctetsOf(Join(a, b, c, d));
    assert o == [o[0], o[1], o[2]];
    Number256Of3(o[0], o[1], o[2]);
    hide OctetsOf, Number256;
  }

  lemma TwoDigits(a: sextet, b: sextet)
    ensures Number256(Octets([a, b])) * 16 <= Number64([a, b]) < (Number256(Octets([a, b])) + 1) * 16
  {
    OctetsBySextets(a, b, 0, 0);
    var o: seq<byte> := [a * 4 + b / 16];
    assert Octets([a, b]) == o;
    hide OctetsOf, Join, Octets, Number64, Number256;
    Number64Of2(a, b);
    Number256Of2(a * 4 + b / 16, 0);
  }

  lemma ThreeDigits(a: sextet, b: sextet, c: sextet)
    ensures Number256(Octets([a, b, c])) * 4 <= Number64([a, b, c]) < (Number256(Octets([a, b, c])) + 1) * 4
  {
    OctetsBySextets(a, b, c, 0);
    var o: seq<byte> := [a * 4 + b / 16, b % 16 * 16 + c / 4];
    assert Octets([a, b, c]) == o;
    hide OctetsOf, Join, Octets, Number64, Number256;
    Number64Of3(a, b, c);
    Number256Of2(a * 4 + b / 16, b % 16 * 16 + c / 4);
  }

  /** The octets of k digits are worth the digits without the spare bits. */
  predicate Truncates(octets: nat, digits: nat, spare: nat)
  {
    octets * spare <= digits < (octets + 1) * spare
  }

  lemma Regrouped(octets: nat, digits: nat, g: nat, p: nat, q: nat, f: nat, x: nat, y: nat)
    requires octets == Times(g, p) + x && digits == Times(g, q) + y && q == Times(p, f) && Truncates(x, y, f)
    ensures Truncates(octets, digits, f)
  {
    Regroup(g, p, f, x);
    Regroup(g, p, f, x + 1);
  }

  lemma {:induction false} OctetsValue(vs: seq<sextet>)
    ensures Truncates(Number256(Octets(vs)), Number64(vs), Spare(|vs|))
  {
    if vs == [] {
    } else if |vs| == 1 {
      assert vs == [vs[0]];
      Number64Of2(vs[0], 0);
    } else if |vs| == 2 {
      assert vs == [vs[0], vs[1]];
      TwoDigits(vs[0], vs[1]);
    } else if |vs| == 3 {
      assert vs == [vs[0], vs[1], vs[2]];
      ThreeDigits(vs[0], vs[1], vs[2]);
    } else {
      assert vs == [vs[0], vs[1], vs[2], vs[3]] + vs[4..];
      hide *;
      OctetsValue(vs[4..]);
      OctetsMore(vs[0], vs[1], vs[2], vs[3], vs[4..]);
    }
  }

  lemma SpareRepeats(n: nat)
    ensures Spare(4 + n) == Spare(n)
  {
  }

  /** Four digits more in front. */
  lemma OctetsMore(a: sextet, b: sextet, c: sextet, d: sextet, rest: seq<sextet>)
    requires Truncates(Number256(Octets(rest)), Number64(rest), Spare(|rest|))
    ensures var vs := [a, b, c, d] + rest; Truncates(Number256(Octets(vs)), Number64(vs), Spare(|vs|))
  {
    hide *;
    var j, vs := Join(a, b, c, d), [a, b, c, d] + rest;
    OctetsSplit(a, b, c, d, rest);
    SpareRepeats(|rest|);
    Number64Of4(a, b, c, d);
    JoinValue(a, b, c, d);
    Number64Append([a, b, c, d], rest);
    Number256Append(OctetsOf(j), Octets(rest));
    OctetsLength(rest);
    RoomOfDigits(|rest|);
    Regrouped(Number256(Octets(vs)), Number64(vs), j, Pow(256, |Octets(rest)|), Pow(64, |rest|), Spare(|rest|), Number256(Octets(rest)), Number64(rest));
  }

  lemma OctetsSplit(a: sextet, b: sextet, c: sextet, d: sextet, rest: seq<sextet>)
    ensures Octets([a, b, c, d] + rest) == OctetsOf(Join(a, b, c, d)) + Octets(rest)
  {
    assert ([a, b, c, d] + rest)[4..] == rest;
    hide OctetsOf, Join;
  }

  /**
   Decoding as a number. The octets read in base 256 are the leading alphabet characters read in base 64 without the six,
   four, two or no last bits that make no whole octet; with the length 3k / 4 this determines every octet.
   */
  lemma DecodedValue(s: string)
    ensures var digits := s[..LeadingRun(s)]; var k := LeadingRun(s);
      var spare := if k % 4 == 1 then 64 else if k % 4 == 2 then 16 else if k % 4 == 3 then 4 else 1;
      |Decoded(s)| == 3 * k / 4 && Number256(Decoded(s)) * spare <= Number64(Values(digits)) < (Number256(Decoded(s)) + 1) * spare
  {
    var vs := Values(s[..LeadingRun(s)]);
    OctetsValue(vs);
    OctetsLength(vs);
    hide Octets, Number64, Number256;
  }

  // ---------- test vectors ----------

  lemma VectorOne()
    ensures Encoded([0x66]) == "Zg=="
  {
    SextetsByBytes(0x66, 0, 0);
    assert Sextets([0x66]) == [25, 32];
    hide Sextets;
    assert Digits([25, 32]) == "Zg";
  }

  lemma VectorTwo()
    ensures Encoded([0x66, 0x6f]) == "Zm8="
  {
    SextetsByBytes(0x66, 0x6f, 0);
    assert Sextets([0x66, 0x6f]) == [25, 38, 60];
    hide Sextets;
    assert Digits([25, 38, 60]) == "Zm8";
  }

  lemma VectorThree()
    ensures Encoded([0x66, 0x6f, 0x6f]) == "Zm9v"
  {
    SextetsByBytes(0x66, 0x6f, 0x6f);
    assert [0x66, 0x6f, 0x6f][3..] == [];
    assert Sextets([0x66, 0x6f, 0x6f]) == [25, 38, 61, 47];
    hide Sextets;
    assert Digits([25, 38, 61, 47]) == "Zm9v";
  }

  lemma VectorLast()
    ensures Encoded([0xfb, 0xff]) == "+/8="
  {
    SextetsByBytes(0xfb, 0xff, 0);
    assert Sextets([0xfb, 0xff]) == [62, 63, 60];
    hide Sextets;
    assert Digits([62, 63, 60]) == "+/8";
  }

  /** The first test vectors of section 10 of RFC 4648 ("f", "fo", "foo"), and two octets that use the last two characters of the alphabet. */
  lemma TestVectors()
    ensures Encoded([0x66]) == "Zg==" && Encoded([0x66, 0x6f]) == "Zm8=" && Encoded([0x66, 0x6f, 0x6f]) == "Zm9v"
    ensures Encoded([0xfb, 0xff]) == "+/8="
  {
    VectorOne();
    VectorTwo();
    VectorThree();
    VectorLast();
    hide *;
  }
}
