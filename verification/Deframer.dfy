/** The web client's reassembly of ETX-terminated messages from WebSocket chunks, and the frames `sendCommand` makes. */
module Deframer {
  import opened Common

  const STX: char := '\U{0002}'
  const ETX: char := '\U{0003}'

  // ---------- the character-level definition ----------

  /** The text since the last ETX. */
  function Pending(s: string): string
  {
    if s == [] then []
    else if s[|s| - 1] == ETX then []
    else Pending(s[..|s| - 1]) + [s[|s| - 1]]
  }

  function Nonempty(piece: string): seq<string>
  {
    if piece == [] then [] else [piece]
  }

  /** The non-empty ETX-terminated segments, in order. */
  function Segments(s: string): seq<string>
  {
    if s == [] then []
    else if s[|s| - 1] == ETX then Segments(s[..|s| - 1]) + Nonempty(Pending(s[..|s| - 1]))
    else Segments(s[..|s| - 1])
  }

  lemma OneMore(s: string, c: char)
    ensures Pending(s + [c]) == if c == ETX then [] else Pending(s) + [c]
    ensures Segments(s + [c]) == if c == ETX then Segments(s) + Nonempty(Pending(s)) else Segments(s)
  {
    assert (s + [c])[..|s|] == s;
  }

  /** Only the pending text of what came before matters for what comes after. */
  lemma {:induction false} Continue(a: string, b: string)
    ensures Pending(a + b) == Pending(Pending(a) + b)
    ensures Segments(a + b) == Segments(a) + Segments(Pending(a) + b)
  {
    hide Pending, Segments;
    if b == [] {
      assert a + b == a && Pending(a) + b == Pending(a);
      PendingIsPending(a);
    } else {
      var init, c := b[..|b| - 1], b[|b| - 1];
      Continue(a, init);
      OneMore(a + init, c);
      OneMore(Pending(a) + init, c);
      assert b == init + [c];
      assert a + init + [c] == a + b && Pending(a) + init + [c] == Pending(a) + b;
    }
  }

  lemma {:induction false} PendingIsPending(s: string)
    ensures ETX !in Pending(s) && Pending(Pending(s)) == Pending(s) && Segments(Pending(s)) == []
  {
    if s != [] {
      PendingIsPending(s[..|s| - 1]);
      OneMore(Pending(s[..|s| - 1]), s[|s| - 1]);
    }
  }

  // ---------- String.prototype.split and endsWith ----------

  /** `s.split(ETX)`: one piece more than there are separators. */
  function Split(s: string): (pieces: seq<string>)
    ensures |pieces| >= 1
  {
    if s == [] then [[]]
    else
      var before := Split(s[..|s| - 1]);
      if s[|s| - 1] == ETX then before + [[]]
      else before[..|before| - 1] + [before[|before| - 1] + [s[|s| - 1]]]
  }

  function JoinPieces(pieces: seq<string>): string
    requires |pieces| >= 1
  {
    if |pieces| == 1 then pieces[0]
    else JoinPieces(pieces[..|pieces| - 1]) + [ETX] + pieces[|pieces| - 1]
  }

  /** What makes it a split: no piece contains the separator, and joining the pieces with it gives the text back. */
  lemma SplitIsSplit(s: string)
    ensures forall i | 0 <= i < |Split(s)| :: ETX !in Split(s)[i]
    ensures JoinPieces(Split(s)) == s
  {
    PiecesClean(s);
    PiecesJoin(s);
  }

  lemma {:induction false} PiecesClean(s: string)
    ensures forall i | 0 <= i < |Split(s)| :: ETX !in Split(s)[i]
  {
    if s != [] {
      PiecesClean(s[..|s| - 1]);
    }
  }

  lemma {:induction false} PiecesJoin(s: string)
    ensures JoinPieces(Split(s)) == s
  {
    if s != [] {
      var init, c := s[..|s| - 1], s[|s| - 1];
      PiecesJoin(init);
      assert s == init + [c];
      hide JoinPieces;
      if c == ETX {
        JoinNewPiece(Split(init));
      } else {
        JoinLongerPiece(Split(init), c);
      }
    }
  }

  lemma JoinNewPiece(before: seq<string>)
    requires |before| >= 1
    ensures JoinPieces(before + [[]]) == JoinPieces(before) + [ETX]
  {
    assert (before + [[]])[..|before|] == before;
  }

  lemma JoinLongerPiece(before: seq<string>, c: char)
    requires |before| >= 1
    ensures JoinPieces(before[..|before| - 1] + [before[|before| - 1] + [c]]) == JoinPieces(before) + [c]
  {
    var pieces := before[..|before| - 1] + [before[|before| - 1] + [c]];
    assert pieces[..|pieces| - 1] == before[..|before| - 1];
  }

  function NonemptyOf(pieces: seq<string>): seq<string>
  {
    if pieces == [] then [] else NonemptyOf(pieces[..|pieces| - 1]) + Nonempty(pieces[|pieces| - 1])
  }

  /** The last piece is the pending text; the non-empty others are the segments. */
  lemma {:induction false} SplitParses(s: string)
    ensures Split(s)[|Split(s)| - 1] == Pending(s)
    ensures NonemptyOf(Split(s)[..|Split(s)| - 1]) == Segments(s)
  {
    if s != [] {
      var init, c := s[..|s| - 1], s[|s| - 1];
      SplitParses(init);
      var before, pieces := Split(init), Split(s);
      if c == ETX {
        assert pieces[..|pieces| - 1] == before;
        assert NonemptyOf(before) == NonemptyOf(before[..|before| - 1]) + Nonempty(before[|before| - 1]);
      } else {
        assert pieces[..|pieces| - 1] == before[..|before| - 1];
      }
    }
  }

  function NotEmpty(): string -> bool
  {
    (piece: string) => piece != ""
  }

  function SamePiece(): string -> string
  {
    (piece: string) => piece
  }

  lemma {:induction false} NonemptyPicks(pieces: seq<string>)
    ensures Picks(pieces, NotEmpty(), SamePiece(), NonemptyOf(pieces))
  {
    if pieces == [] {
      PicksNothing(NotEmpty(), SamePiece());
    } else {
      var init, last := pieces[..|pieces| - 1], pieces[|pieces| - 1];
      assert pieces == init + [last];
      NonemptyPicks(init);
      PicksMore(init, NotEmpty(), SamePiece(), NonemptyOf(init), last);
      hide Picks;
    }
  }

  /** Of the pieces between separators, the last is the pending text, and the segments are exactly the non-empty ones before it, in order. */
  lemma SegmentsPick(s: string)
    ensures |Split(s)| >= 1 && Split(s)[|Split(s)| - 1] == Pending(s)
    ensures Picks(Split(s)[..|Split(s)| - 1], NotEmpty(), SamePiece(), Segments(s))
  {
    SplitParses(s);
    NonemptyPicks(Split(s)[..|Split(s)| - 1]);
    hide Picks;
  }

  lemma {:induction false} NoSeparator(s: string)
    requires ETX !in s
    ensures Pending(s) == s && Segments(s) == []
  {
    if s != [] {
      NoSeparator(s[..|s| - 1]);
      assert s == s[..|s| - 1] + [s[|s| - 1]];
    }
  }

  // ---------- the socket's message handler ----------

  /** The state of one connection. `stream` and `handled` are history: all characters received, all messages handed over. */
  class Connection {
    var msgBuffer: string
    ghost var stream: string
    ghost var handled: seq<string>

    /** The buffer is the unterminated rest of the stream and every complete non-empty segment has been handed over, once. */
    ghost predicate Valid()
      reads this
    {
      msgBuffer == Pending(stream) && handled == Segments(stream)
    }

    constructor ()
      ensures Valid() && stream == [] && handled == []
    {
      msgBuffer, stream, handled := "", [], [];
    }

    /** The loop over the pieces: hand over the non-empty ones before the last, and keep the last for later. */
    method HandlePieces(newMessages: seq<string>, endsWithNewline: bool) returns (out: seq<string>, rest: string)
      requires newMessages != [] && (endsWithNewline ==> newMessages[|newMessages| - 1] == "")
      ensures out == NonemptyOf(newMessages[..|newMessages| - 1]) && rest == newMessages[|newMessages| - 1]
    {
      out, rest := [], "";
      var i := 0;
      while i < |newMessages|
        invariant 0 <= i <= |newMessages|
        invariant i < |newMessages| ==> out == NonemptyOf(newMessages[..i])
        invariant i == |newMessages| ==> out == NonemptyOf(newMessages[..i - 1]) && rest == newMessages[i - 1]
      {
        var piece := newMessages[i];
        if i < |newMessages| - 1 {
          if |piece| > 0 {
            out := out + [piece];
          }
          assert newMessages[..i + 1][..i] == newMessages[..i];
        } else if endsWithNewline {
          if |piece| > 0 {
            out := out + [piece];
          }
          rest := "";
        } else {
          rest := piece;
        }
        i := i + 1;
      }
    }

    /** `onmessage` for a decoded chunk; returns the messages passed to the handler. */
    method OnMessage(decode: string) returns (out: seq<string>)
      requires Valid()
      modifies this
      ensures Valid()
      ensures stream == old(stream) + decode && handled == old(handled) + out
    {
      hide Pending, Segments;
      Continue(stream, decode);
      stream := stream + decode;
      out := [];
      msgBuffer := msgBuffer + decode;
      ghost var whole := msgBuffer;
      var endsWithNewline := msgBuffer != [] && msgBuffer[|msgBuffer| - 1] == ETX;
      if ETX in msgBuffer {
        SplitParses(whole);
        out, msgBuffer := HandlePieces(Split(msgBuffer), endsWithNewline);
      } else {
        NoSeparator(whole);
      }
      handled := handled + out;
    }
  }

  // ---------- whole streams ----------

  function Concat(chunks: seq<string>): string
  {
    if chunks == [] then [] else Concat(chunks[..|chunks| - 1]) + chunks[|chunks| - 1]
  }

  /** The messages handed over and the buffer left after a list of chunks, chunk by chunk as OnMessage does it. */
  function AfterChunks(chunks: seq<string>): (seq<string>, string)
  {
    if chunks == [] then ([], "")
    else
      var (done, buffer) := AfterChunks(chunks[..|chunks| - 1]);
      var whole := buffer + chunks[|chunks| - 1];
      (done + Segments(whole), Pending(whole))
  }

  /** However a stream is cut into chunks, the messages are its non-empty ETX-terminated segments and the buffer is the rest. */
  lemma {:induction false} ChunkingDoesNotMatter(chunks: seq<string>)
    ensures AfterChunks(chunks) == (Segments(Concat(chunks)), Pending(Concat(chunks)))
  {
    if chunks != [] {
      ChunkingDoesNotMatter(chunks[..|chunks| - 1]);
      Continue(Concat(chunks[..|chunks| - 1]), chunks[|chunks| - 1]);
    }
  }

  // ---------- frames ----------

  /** The class [\x00-\x1F\x7F-\x9F]. */
  predicate IsControl(c: char)
  {
    c <= '\U{001F}' || '\U{007F}' <= c <= '\U{009F}'
  }

  /** `msg.replace(/[\x00-\x1F\x7F-\x9F]/g, "")`. */
  function Strip(s: string): string
  {
    if s == [] then []
    else if IsControl(s[|s| - 1]) then Strip(s[..|s| - 1])
    else Strip(s[..|s| - 1]) + [s[|s| - 1]]
  }

  function StripAll(ms: seq<string>): seq<string>
  {
    if ms == [] then [] else StripAll(ms[..|ms| - 1]) + [Strip(ms[|ms| - 1])]
  }

  /** The text `sendCommand` encodes. */
  function Frame(msg: string): string
  {
    [STX] + msg + [ETX]
  }

  function Frames(msgs: seq<string>): string
  {
    if msgs == [] then [] else Frames(msgs[..|msgs| - 1]) + Frame(msgs[|msgs| - 1])
  }

  /** The characters that stay: codes 0x20 to 0x7E, and from 0xA0 on. */
  function Ordinary(): char -> bool
  {
    (c: char) => 0x20 <= c as int <= 0x7e || 0xa0 <= c as int
  }

  function SameChar(): char -> char
  {
    (c: char) => c
  }

  predicate ControlFree(msg: string)
  {
    forall i | 0 <= i < |msg| :: 0x20 <= msg[i] as int <= 0x7e || 0xa0 <= msg[i] as int
  }

  /** Stripping keeps exactly the ordinary characters, in order. */
  lemma {:induction false} StripPicks(s: string)
    ensures Picks(s, Ordinary(), SameChar(), Strip(s))
  {
    if s == [] {
      PicksNothing(Ordinary(), SameChar());
    } else {
      var init, c := s[..|s| - 1], s[|s| - 1];
      assert s == init + [c];
      StripPicks(init);
      PicksMore(init, Ordinary(), SameChar(), Strip(init), c);
      hide Picks;
    }
  }

  lemma {:induction false} StripFrame(msg: string)
    requires ControlFree(msg)
    ensures Strip([STX] + msg) == msg
  {
    var s := [STX] + msg;
    if msg == [] {
      assert s[..0] == [];
    } else {
      StripFrame(msg[..|msg| - 1]);
      assert s[..|s| - 1] == [STX] + msg[..|msg| - 1];
    }
  }

  lemma StripOneMore(ms: seq<string>, m: string)
    ensures StripAll(ms + [m]) == StripAll(ms) + [Strip(m)]
  {
    assert (ms + [m])[..|ms|] == ms;
  }

  lemma OneFrame(msg: string)
    requires ControlFree(msg)
    ensures Segments(Frame(msg)) == [[STX] + msg] && Pending(Frame(msg)) == []
  {
    var body := [STX] + msg;
    assert ETX !in body by {
      assert forall i | 0 <= i < |msg| :: msg[i] != ETX;
    }
    NoSeparator(body);
    OneMore(body, ETX);
  }

  /** Framed control-free messages, an empty one included, come back in order after stripping, with nothing left over. */
  lemma {:induction false} FramesRoundTrip(msgs: seq<string>)
    requires forall i | 0 <= i < |msgs| :: ControlFree(msgs[i])
    ensures StripAll(Segments(Frames(msgs))) == msgs && Pending(Frames(msgs)) == []
  {
    if msgs != [] {
      var init, last := msgs[..|msgs| - 1], msgs[|msgs| - 1];
      assert msgs == init + [last] && Frames(msgs) == Frames(init) + Frame(last);
      hide *;
      FramesRoundTrip(init);
      Continue(Frames(init), Frame(last));
      OneFrame(last);
      StripFrame(last);
      assert Pending(Frames(init)) + Frame(last) == Frame(last);
      StripOneMore(Segments(Frames(init)), [STX] + last);
    }
  }

  /** The same for the chunks that actually arrive: any cutting of the framed stream delivers the original messages. */
  lemma FramesSurviveChunking(msgs: seq<string>, chunks: seq<string>)
    requires forall i | 0 <= i < |msgs| :: ControlFree(msgs[i])
    requires Concat(chunks) == Frames(msgs)
    ensures StripAll(AfterChunks(chunks).0) == msgs && AfterChunks(chunks).1 == []
  {
    ChunkingDoesNotMatter(chunks);
    FramesRoundTrip(msgs);
  }
}
