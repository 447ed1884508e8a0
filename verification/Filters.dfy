/** Subscription filters and the test that decides whether a receiver gets a message. */
module Filters {
  import opened Common

  /** One entry of a subscription. A type or subtype of "*" is a wildcard; a mask of 0 lets every message through. */
  datatype FilterEntry = FilterEntry(msgType: string, subtype: string, flagmask: bv32)

  /** The header fields the router looks at; type and subtype may be null. */
  datatype Message = Message(msgType: Option<string>, subtype: Option<string>, flags: bv32)

  const WILDCARD := "*"

  /** A mask and a flag word, both unsigned 32-bit, share a set bit, or the mask is empty. */
  predicate FlagsPass(mask: bv32, flags: bv32)
  {
    mask == 0 || mask & flags != 0
  }

  /** What it means for a message to pass one entry, as the filter notes of the router interface describe it. */
  predicate Matches(f: FilterEntry, m: Message)
  {
    && FlagsPass(f.flagmask, m.flags)
    && (f.msgType == WILDCARD
        || (m.msgType == Some(f.msgType) && (f.subtype == WILDCARD || m.subtype == Some(f.subtype))))
  }

  ghost predicate AnyMatch(fs: seq<FilterEntry>, m: Message)
  {
    exists i | 0 <= i < |fs| :: Matches(fs[i], m)
  }

  /** Bit i of a word is set. */
  predicate Bit(x: bv32, i: bv5)
  {
    (x >> i) & 1 == 1
  }

  /** A word that is not zero from bit n on has a bit set there. */
  lemma {:induction false} SomeBit(x: bv32, n: bv5, left: nat)
    requires Above(x, n) != 0 && n as int + left == 31
    ensures exists i :: Bit(x, i)
    decreases left
  {
    hide Bit, Above;
    if !Bit(x, n) {
      if n == 31 {
        LastBit(x);
      } else {
        NextBit(x, n);
        NextPlace(n);
        SomeBit(x, n + 1, left - 1);
      }
    }
  }

  function Above(x: bv32, n: bv5): bv32
  {
    x >> n
  }

  lemma NextPlace(n: bv5)
    requires n != 31
    ensures (n + 1) as int == n as int + 1 && n as int < 31
  {
  }

  lemma LastBit(x: bv32)
    requires Above(x, 31) != 0
    ensures Bit(x, 31)
  {
  }

  lemma NextBit(x: bv32, n: bv5)
    requires Above(x, n) != 0 && !Bit(x, n) && n != 31
    ensures Above(x, n + 1) != 0
  {
  }

  lemma BitsOfBoth(a: bv32, b: bv32, i: bv5)
    ensures Bit(a & b, i) <==> Bit(a, i) && Bit(b, i)
  {
  }

  lemma NoBit(i: bv5)
    ensures !Bit(0, i)
  {
  }

  /** The flag test, bit by bit: the mask is empty, or some bit is set in both. */
  lemma FlagsPassIff(mask: bv32, flags: bv32)
    ensures FlagsPass(mask, flags) <==> mask == 0 || exists i :: Bit(mask, i) && Bit(flags, i)
  {
    var both := mask & flags;
    if both != 0 {
      assert Above(both, 0) != 0;
      SomeBit(both, 0, 31);
      var i :| Bit(both, i);
      BitsOfBoth(mask, flags, i);
    }
    if i :| Bit(mask, i) && Bit(flags, i) {
      BitsOfBoth(mask, flags, i);
      NoBit(i);
    }
  }

  /**
   What an entry lets through: with the type "*" every message, one without type or subtype included; with another type
   only messages of that type, and of the entry's subtype unless that is "*"; and in both cases only if the mask is empty or
   some bit is set in the mask and in the message's flags.
   */
  lemma MatchesIff(f: FilterEntry, m: Message)
    ensures Matches(f, m) <==>
      && (f.flagmask == 0 || exists i :: Bit(f.flagmask, i) && Bit(m.flags, i))
      && (f.msgType != "*" ==> m.msgType.Some? && m.msgType.value == f.msgType)
      && (f.msgType != "*" && f.subtype != "*" ==> m.subtype.Some? && m.subtype.value == f.subtype)
  {
    FlagsPassIff(f.flagmask, m.flags);
    hide FlagsPass, Bit;
  }

  /** The inner loop of a broadcast: stop at the first entry that passes. */
  method FirstMatch(fs: seq<FilterEntry>, m: Message) returns (hit: bool, at: nat)
    ensures hit <==> AnyMatch(fs, m)
    ensures hit ==> at < |fs| && Matches(fs[at], m) && !AnyMatch(fs[..at], m)
  {
    hit, at := false, 0;
    while at < |fs|
      invariant at <= |fs|
      invariant forall i | 0 <= i < at :: !Matches(fs[i], m)
    {
      var f := fs[at];
      if f.msgType == WILDCARD {
        if FlagsPass(f.flagmask, m.flags) {
          hit := true;
          return;
        }
      } else if m.msgType.Some? && f.msgType == m.msgType.value {
        if f.subtype == WILDCARD || (m.subtype.Some? && f.subtype == m.subtype.value) {
          if FlagsPass(f.flagmask, m.flags) {
            hit := true;
            return;
          }
        }
      }
      at := at + 1;
    }
  }
}
