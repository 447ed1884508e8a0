/**
 The framing of plugin messages on the sockets between plugins and core: STX, text, ETX, reassembled in place in one
 fixed buffer. Both receive loops (core and client) drive the framer the same way.
 */
module MsgFramer {
  import opened Common

  const NUL: char := '\U{0000}'
  const STX: char := '\U{0002}'
  const ETX: char := '\U{0003}'

  /** MSG_FRAMER_MAX_BUF_SIZE; the buffer has one more character for the terminator. */
  const MAX: nat := 20000

  // ---------- what one call of msgFramer_getNextMsg does to the unread text ----------

  /** Where `strstr` finds a character: the search ends at the first NUL. */
  ghost predicate FoundAt(s: string, c: char, i: nat)
  {
    i < |s| && s[i] == c && forall k | 0 <= k < i :: s[k] != c && s[k] != NUL
  }

  ghost function Find(s: string, c: char): (r: Option<nat>)
    ensures r.Some? ==> FoundAt(s, c, r.value)
    ensures r.None? ==> forall i: nat :: !FoundAt(s, c, i)
  {
    if i: nat :| FoundAt(s, c, i) then Some(i) else None
  }

  ghost function Next(unread: string): (r: (Option<string>, string))
    ensures r.0.Some? ==> |r.1| < |unread|
    ensures r.0.None? && |unread| <= MAX ==> |r.1| < MAX
  {
    match Find(unread, STX)
    case None => (None, [])
    case Some(i) =>
      var t := unread[i..];
      match Find(t, ETX)
      case None => (None, if |t| == MAX then [] else t)
      case Some(j) => (Some(t[1..j]), t[j + 1..])
  }

  /** The `while` loop of both receivers: all messages that are complete, and the text left. */
  ghost function Drain(unread: string): (r: (seq<string>, string))
    ensures |unread| <= MAX ==> |r.1| < MAX
    decreases |unread|
  {
    var (msg, rest) := Next(unread);
    if msg.None? then ([], rest)
    else
      var (msgs, left) := Drain(rest);
      ([msg.value] + msgs, left)
  }

  lemma DrainMore(unread: string)
    ensures var r, d := Next(unread), Drain(unread);
      if r.0.None? then d.0 == [] && d.1 == r.1 else d.0 == [r.0.value] + Drain(r.1).0 && d.1 == Drain(r.1).1
  {
    hide Next;
  }

  // ---------- the framer ----------

  class MsgFramer {
    const buf: array<char>
    var bufpos: nat
    var readpos: nat

    ghost predicate Valid()
      reads this
    {
      buf.Length == MAX + 1 && readpos <= bufpos <= MAX
    }

    ghost function Unread(): string
      requires Valid()
      reads this, buf
    {
      buf[readpos..bufpos]
    }

    /** The text ends where the string functions stop. */
    ghost predicate Terminated()
      reads this, buf
    {
      Valid() && buf[bufpos] == NUL
    }

    constructor ()
      ensures Valid() && fresh(buf) && readpos == 0 && Unread() == []
    {
      buf := new char[MAX + 1];
      bufpos, readpos := 0, 0;
    }

    /** The copying loop, terminator included. */
    method Shift(shift: nat)
      requires Terminated() && shift <= bufpos
      modifies this`bufpos, buf
      ensures buf.Length == MAX + 1 && bufpos == old(bufpos) - shift
      ensures buf[..bufpos] == old(buf[shift..bufpos]) && buf[bufpos] == NUL
    {
      ghost var was := buf[..];
      var i := 0;
      while i < bufpos + 1 - shift
        invariant bufpos == old(bufpos) && i <= bufpos + 1 - shift
        invariant forall k | 0 <= k < i :: buf[k] == was[k + shift]
        invariant forall k | i + shift <= k <= bufpos :: buf[k] == was[k]
      {
        buf[i] := buf[i + shift];
        i := i + 1;
      }
      assert buf[..bufpos - shift] == was[shift..bufpos];
      bufpos := bufpos - shift;
    }

    /** `strstr(framer->buf, ...)` for one character. */
    method Strstr(c: char) returns (r: Option<nat>)
      requires Terminated() && c != NUL
      ensures r == Find(buf[..bufpos], c)
    {
      ghost var s := buf[..bufpos];
      var i := 0;
      while buf[i] != NUL && buf[i] != c
        invariant i <= bufpos
        invariant forall k | 0 <= k < i :: s[k] != NUL && s[k] != c
        decreases bufpos - i
      {
        i := i + 1;
      }
      if buf[i] == c {
        assert FoundAt(s, c, i);
        r := Some(i);
      } else {
        assert i < |s| ==> s[i] == NUL;
        r := None;
      }
    }

    /** The buffer starts with STX: look for ETX and cut the message there. */
    method CutFrame() returns (results: Option<string>)
      requires Terminated() && readpos == 0 && bufpos > 0 && buf[0] == STX
      modifies this`readpos, buf
      ensures Terminated() && results.Some? == Find(old(buf[..bufpos]), ETX).Some?
      ensures results.None? ==> readpos == 0 && buf[..bufpos] == old(buf[..bufpos])
      ensures results.Some? ==>
        var t, j := old(buf[..bufpos]), Find(old(buf[..bufpos]), ETX).value;
        0 < j && results.value == t[1..j] && Unread() == t[j + 1..]
    {
      results := None;
      ghost var t := buf[..bufpos];
      var msgEnd := Strstr(ETX);
      if msgEnd.Some? {
        assert FoundAt(t, ETX, msgEnd.value);
        buf[msgEnd.value] := NUL;
        results := Some(buf[1..msgEnd.value]);
        readpos := msgEnd.value + 1;
        assert buf[readpos..bufpos] == t[readpos..];
        assert buf[1..msgEnd.value] == t[1..msgEnd.value];
      }
    }

    /** `msgFramer_getNextMsg`; with no message there is always room left to receive into. */
    method GetNextMsg() returns (results: Option<string>)
      requires Terminated()
      modifies this, buf
      ensures Valid() && results == Next(old(Unread())).0 && Unread() == Next(old(Unread())).1
      ensures results.Some? ==> Terminated()
      ensures results.None? ==> readpos == 0 && bufpos < MAX
    {
      results := None;
      if readpos != 0 {
        Shift(readpos);
        readpos := 0;
      }
      ghost var unread := buf[..bufpos];
      assert unread == old(Unread());
      var msgStart := Strstr(STX);
      if msgStart.None? {
        bufpos := 0;
      } else {
        if msgStart.value != 0 {
          Shift(msgStart.value);
        }
        assert buf[..bufpos] == unread[msgStart.value..];
        results := CutFrame();
      }
      if bufpos == MAX && results == None {
        bufpos, readpos := 0, 0;
      }
    }

    /** `recv` into the free part of the buffer, then `msgFramer_incrementBufPos`. */
    method Append(chunk: string)
      requires Valid() && readpos == 0 && |chunk| <= MAX - bufpos
      modifies this`bufpos, buf
      ensures Terminated() && Unread() == old(Unread()) + chunk
    {
      var i := 0;
      while i < |chunk|
        invariant i <= |chunk| && bufpos == old(bufpos)
        invariant buf[..bufpos] == old(buf[..bufpos])
        invariant buf[bufpos..bufpos + i] == chunk[..i]
      {
        buf[bufpos + i] := chunk[i];
        i := i + 1;
        assert chunk[..i] == chunk[..i - 1] + [chunk[i - 1]];
      }
      bufpos := bufpos + |chunk|;
      buf[bufpos] := NUL;
      assert buf[..bufpos] == buf[..old(bufpos)] + buf[old(bufpos)..bufpos];
    }

    /** One turn of a receive loop: a chunk comes in, every complete message goes out. */
    method Receive(chunk: string) returns (msgs: seq<string>)
      requires Valid() && readpos == 0 && |chunk| <= MAX - bufpos
      modifies this, buf
      ensures Valid() && readpos == 0 && bufpos < MAX
      ensures msgs == Drain(old(Unread()) + chunk).0 && Unread() == Drain(old(Unread()) + chunk).1
    {
      hide Next, Drain;
      Append(chunk);
      msgs := [];
      ghost var all := Unread();
      var msg := GetNextMsg();
      ghost var unread := all;
      while msg.Some?
        invariant Valid() && msg == Next(unread).0 && Unread() == Next(unread).1
        invariant Drain(all).0 == msgs + Drain(unread).0 && Drain(all).1 == Drain(unread).1
        invariant msg.Some? ==> Terminated()
        invariant msg.None? ==> readpos == 0 && bufpos < MAX
        decreases |unread|
      {
        DrainMore(unread);
        msgs := msgs + [msg.value];
        unread := Unread();
        msg := GetNextMsg();
      }
      DrainMore(unread);
    }
  }

  // ---------- the same, one character at a time ----------

  /** A frame is being read when `p` is not empty; it is given up when it fills the buffer. */
  function Push(p: string, c: char): (Option<string>, string)
  {
    if p == [] then (None, if c == STX then [STX] else [])
    else if c == ETX then (Some(p[1..]), [])
    else if |p| + 1 == MAX then (None, [])
    else (None, p + [c])
  }

  function OneOrNone(m: Option<string>): seq<string>
  {
    if m.Some? then [m.value] else []
  }

  function Machine(p: string, s: string): (seq<string>, string)
    decreases |s|
  {
    if s == [] then ([], p)
    else
      var (m, p') := Push(p, s[0]);
      var (ms, q) := Machine(p', s[1..]);
      (OneOrNone(m) + ms, q)
  }

  lemma {:induction false} MachineAppend(p: string, a: string, b: string)
    ensures Machine(p, a + b).0 == Machine(p, a).0 + Machine(Machine(p, a).1, b).0
    ensures Machine(p, a + b).1 == Machine(Machine(p, a).1, b).1
    decreases |a|
  {
    if a == [] {
      assert a + b == b;
    } else {
      hide Push, OneOrNone;
      MachineAppend(Push(p, a[0]).1, a[1..], b);
      assert (a + b)[1..] == a[1..] + b && (a + b)[0] == a[0];
    }
  }

  lemma MachineOne(p: string, c: char)
    ensures Machine(p, [c]).0 == OneOrNone(Push(p, c).0) && Machine(p, [c]).1 == Push(p, c).1
  {
    assert [c][1..] == [];
    assert Machine(Push(p, c).1, []) == ([], Push(p, c).1);
  }

  /** Text outside frames is skipped. */
  lemma {:induction false} Skips(s: string)
    requires STX !in s
    ensures Machine([], s).0 == [] && Machine([], s).1 == []
  {
    if s != [] {
      assert s[0] in s && forall c :: c in s[1..] ==> c in s;
      Skips(s[1..]);
    }
  }

  /** An open frame is kept until it fills the buffer. */
  lemma {:induction false} Accumulates(t: string)
    requires t != [] && t[0] == STX && ETX !in t && |t| <= MAX
    ensures Machine([], t).0 == [] && Machine([], t).1 == if |t| == MAX then [] else t
  {
    var init, c := t[..|t| - 1], t[|t| - 1];
    assert t == init + [c] && c in t;
    if init == [] {
      MachineOne([], c);
    } else {
      assert forall x :: x in init ==> x in t;
      Accumulates(init);
      MachineAppend([], init, [c]);
      MachineOne(init, c);
    }
  }

  lemma FindNone(s: string, c: char)
    requires NUL !in s && Find(s, c).None?
    ensures c !in s
  {
    if c in s {
      var k :| 0 <= k < |s| && s[k] == c;
      FirstOccurrence(s, c, k);
    }
  }

  lemma {:induction false} FirstOccurrence(s: string, c: char, k: nat)
    requires NUL !in s && k < |s| && s[k] == c
    ensures exists i: nat :: FoundAt(s, c, i)
  {
    if j :| 0 <= j < k && s[j] == c {
      FirstOccurrence(s, c, j);
    } else {
      assert FoundAt(s, c, k);
    }
  }

  /** Up to the first STX nothing happens. */
  lemma SkipsTo(s: string, i: nat)
    requires FoundAt(s, STX, i)
    ensures Machine([], s).0 == Machine([], s[i..]).0 && Machine([], s).1 == Machine([], s[i..]).1
  {
    assert s == s[..i] + s[i..];
    Skips(s[..i]);
    MachineAppend([], s[..i], s[i..]);
  }

  /** From STX to ETX one message. */
  lemma ReadsFrame(t: string, j: nat)
    requires t != [] && t[0] == STX && FoundAt(t, ETX, j) && |t| <= MAX
    ensures Machine([], t).0 == [t[1..j]] + Machine([], t[j + 1..]).0 && Machine([], t).1 == Machine([], t[j + 1..]).1
  {
    var p, rest := t[..j], t[j + 1..];
    assert t == p + ([ETX] + rest) && p[0] == STX;
    Accumulates(p);
    MachineAppend([], p, [ETX] + rest);
    MachineAppend(p, [ETX], rest);
    MachineOne(p, ETX);
    assert p[1..] == t[1..j];
  }

  lemma {:induction false} DrainIsMachine(s: string)
    requires NUL !in s && |s| <= MAX
    ensures Drain(s).0 == Machine([], s).0 && Drain(s).1 == Machine([], s).1
    decreases |s|
  {
    hide Machine;
    if Find(s, STX).None? {
      FindNone(s, STX);
      Skips(s);
    } else {
      var i := Find(s, STX).value;
      var t := s[i..];
      SkipsTo(s, i);
      assert t[0] == STX && forall c :: c in t ==> c in s;
      if Find(t, ETX).None? {
        FindNone(t, ETX);
        Accumulates(t);
      } else {
        var j := Find(t, ETX).value;
        assert forall c :: c in t[j + 1..] ==> c in t;
        ReadsFrame(t, j);
        DrainIsMachine(t[j + 1..]);
      }
    }
  }

  // ---------- whole streams ----------

  function Flat(chunks: seq<string>): string
  {
    if chunks == [] then [] else chunks[0] + Flat(chunks[1..])
  }

  /** All messages of a run of the receive loop, and the text left in the buffer. */
  ghost function Feed(p: string, chunks: seq<string>): (seq<string>, string)
    decreases |chunks|
  {
    if chunks == [] then ([], p)
    else
      var (ms, q) := Drain(p + chunks[0]);
      var (more, left) := Feed(q, chunks[1..]);
      (ms + more, left)
  }

  /** What `recv` may return: at least one character, and never more than the free part of the buffer. */
  ghost predicate Admissible(p: string, chunks: seq<string>)
    decreases |chunks|
  {
    chunks == [] || (0 < |chunks[0]| <= MAX - |p| && Admissible(Drain(p + chunks[0]).1, chunks[1..]))
  }

  /** Between two receives: nothing, or an open frame that still has room to grow. */
  predicate Open(p: string)
  {
    p == [] || (p[0] == STX && ETX !in p && NUL !in p && |p| < MAX)
  }

  lemma {:induction false} MachineKeepsOpen(p: string, s: string)
    requires Open(p) && NUL !in s
    ensures Open(Machine(p, s).1)
    decreases |s|
  {
    if s != [] {
      assert s[0] in s && forall c :: c in s[1..] ==> c in s;
      MachineKeepsOpen(Push(p, s[0]).1, s[1..]);
    }
  }

  lemma OneChunk(p: string, chunk: string)
    requires Open(p) && NUL !in chunk && |p| + |chunk| <= MAX
    ensures Drain(p + chunk).0 == Machine(p, chunk).0 && Drain(p + chunk).1 == Machine(p, chunk).1 && Open(Drain(p + chunk).1)
  {
    DrainIsMachine(p + chunk);
    MachineAppend([], p, chunk);
    if p != [] {
      Accumulates(p);
    }
    MachineKeepsOpen(p, chunk);
  }

  /**
   The messages and the buffer left depend only on the stream, not on how `recv` cut it, for every stream without NUL;
   and the buffer is never full before a receive, so a length of zero, which would read as a closed connection, is never
   asked for.
   */
  lemma {:induction false} ReceiveIsMachine(p: string, chunks: seq<string>)
    requires Open(p) && NUL !in Flat(chunks) && Admissible(p, chunks)
    ensures Feed(p, chunks).0 == Machine(p, Flat(chunks)).0 && Feed(p, chunks).1 == Machine(p, Flat(chunks)).1
    ensures |Feed(p, chunks).1| < MAX
    decreases |chunks|
  {
    if chunks != [] {
      var c := chunks[0];
      assert forall x :: x in c || x in Flat(chunks[1..]) ==> x in Flat(chunks);
      OneChunk(p, c);
      ReceiveIsMachine(Drain(p + c).1, chunks[1..]);
      MachineAppend(p, c, Flat(chunks[1..]));
    }
  }

  // ---------- frames ----------

  /** `msgFramer_createFramedMsg`. */
  function Frame(msg: string): string
  {
    [STX] + msg + [ETX]
  }

  function Frames(msgs: seq<string>): string
  {
    if msgs == [] then [] else Frame(msgs[0]) + Frames(msgs[1..])
  }

  /** What the sender asserts of a C string. */
  predicate Clean(msg: string)
  {
    STX !in msg && ETX !in msg && NUL !in msg
  }

  predicate Fits(msg: string)
  {
    |msg| + 2 <= MAX
  }

  function Fitting(msgs: seq<string>): seq<string>
  {
    if msgs == [] then []
    else if Fits(msgs[0]) then [msgs[0]] + Fitting(msgs[1..])
    else Fitting(msgs[1..])
  }

  lemma FrameThatFits(msg: string)
    requires Clean(msg) && Fits(msg)
    ensures Machine([], Frame(msg)).0 == [msg] && Machine([], Frame(msg)).1 == []
  {
    var p := [STX] + msg;
    Accumulates(p);
    MachineAppend([], p, [ETX]);
    MachineOne(p, ETX);
    assert p[1..] == msg;
  }

  lemma FrameTooLong(msg: string)
    requires Clean(msg) && !Fits(msg)
    ensures Machine([], Frame(msg)).0 == [] && Machine([], Frame(msg)).1 == []
  {
    var p, rest := [STX] + msg[..MAX - 1], msg[MAX - 1..] + [ETX];
    assert msg == msg[..MAX - 1] + msg[MAX - 1..];
    assert forall c :: c in msg[..MAX - 1] || c in msg[MAX - 1..] ==> c in msg;
    assert Frame(msg) == p + rest;
    Accumulates(p);
    Skips(rest);
    MachineAppend([], p, rest);
  }

  lemma {:induction false} FramesMachine(msgs: seq<string>)
    requires forall i | 0 <= i < |msgs| :: Clean(msgs[i])
    ensures Machine([], Frames(msgs)).0 == Fitting(msgs) && Machine([], Frames(msgs)).1 == [] && NUL !in Frames(msgs)
  {
    if msgs != [] {
      assert Clean(msgs[0]);
      FramesMachine(msgs[1..]);
      if Fits(msgs[0]) {
        FrameThatFits(msgs[0]);
      } else {
        FrameTooLong(msgs[0]);
      }
      MachineAppend([], Frame(msgs[0]), Frames(msgs[1..]));
    }
  }

  /** At most 19998 characters. */
  function ShortEnough(): string -> bool
  {
    (msg: string) => |msg| <= 19998
  }

  function SameMsg(): string -> string
  {
    (msg: string) => msg
  }

  lemma {:induction false} FittingMore(msgs: seq<string>, msg: string)
    ensures Fitting(msgs + [msg]) == Fitting(msgs) + (if Fits(msg) then [msg] else [])
  {
    var all := msgs + [msg];
    if msgs == [] {
      assert all[1..] == [];
    } else {
      FittingMore(msgs[1..], msg);
      assert all[0] == msgs[0] && all[1..] == msgs[1..] + [msg];
    }
  }

  lemma {:induction false} FittingPicks(msgs: seq<string>)
    ensures Picks(msgs, ShortEnough(), SameMsg(), Fitting(msgs))
  {
    if msgs == [] {
      PicksNothing(ShortEnough(), SameMsg());
    } else {
      var init, last := msgs[..|msgs| - 1], msgs[|msgs| - 1];
      assert msgs == init + [last];
      FittingPicks(init);
      FittingMore(init, last);
      PicksMore(init, ShortEnough(), SameMsg(), Fitting(init), last);
      hide Picks, Fitting;
    }
  }

  lemma {:induction false} FittingAll(msgs: seq<string>)
    ensures |Fitting(msgs)| <= |msgs|
    ensures Fitting(msgs) == msgs <==> forall i | 0 <= i < |msgs| :: Fits(msgs[i])
  {
    if msgs != [] {
      FittingAll(msgs[1..]);
      assert msgs == [msgs[0]] + msgs[1..];
      if !Fits(msgs[0]) {
        assert |Fitting(msgs)| < |msgs|;
      }
    }
  }

  /**
   Delivery over a byte stream: however a stream of frames is cut by `recv`, exactly the messages whose frame fits the
   buffer come out, in order and unchanged, and a frame that does not fit takes no other message with it. So every message
   arrives if and only if each one is at most 19998 characters long.
   */
  lemma MessagesArrive(msgs: seq<string>, chunks: seq<string>)
    requires forall i | 0 <= i < |msgs| :: Clean(msgs[i])
    requires Flat(chunks) == Frames(msgs) && Admissible([], chunks)
    ensures Picks(msgs, ShortEnough(), SameMsg(), Feed([], chunks).0) && Feed([], chunks).1 == []
    ensures Feed([], chunks).0 == msgs <==> forall i | 0 <= i < |msgs| :: |msgs[i]| <= 19998
  {
    FramesMachine(msgs);
    ReceiveIsMachine([], chunks);
    FittingAll(msgs);
    FittingPicks(msgs);
    hide Picks, Feed, Fitting, Machine, Frames, Flat, Admissible;
  }
}
