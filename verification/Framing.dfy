/** Length-prefixed messages between the client and the agent, over a stream that hands out bytes in any portions. */
module Framing {
  import opened Sequences

  type Byte = x: int | 0 <= x < 256

  const MAX_MESSAGE: nat := 50_000_000

  // ---- headers

  /** The four bytes of a length, largest first, as both sides write it. */
  function Header(n: nat): (h: seq<Byte>)
    ensures |h| == 4
  {
    [n / 0x100_0000 % 0x100, n / 0x1_0000 % 0x100, n / 0x100 % 0x100, n % 0x100]
  }

  /** The length as the client reads it, an unsigned number. */
  function Length(h: seq<Byte>): nat
    requires |h| == 4
  {
    var a: nat, b: nat, c: nat, d: nat := h[0], h[1], h[2], h[3];
    a * 0x100_0000 + b * 0x1_0000 + c * 0x100 + d
  }

  /** The length as the agent reads it, a signed number. */
  function SignedLength(h: seq<Byte>): int
    requires |h| == 4
  {
    if Length(h) < 0x8000_0000 then Length(h) else Length(h) - 0x1_0000_0000
  }

  lemma DivideTwice(n: nat)
    ensures n / 0x1_0000 == n / 0x100 / 0x100 && n / 0x100_0000 == n / 0x1_0000 / 0x100
  {
  }

  lemma LastDigit(n: nat, high: nat)
    requires high == n / 0x100
    ensures n == 0x100 * high + n % 0x100
  {
  }

  lemma LengthOfDigits(h: seq<Byte>, n: nat, a: nat, b: nat, c: nat, d0: nat, d1: nat, d2: nat)
    requires |h| == 4 && h[0] == c && h[1] == d2 && h[2] == d1 && h[3] == d0
    requires n == 0x100 * a + d0 && a == 0x100 * b + d1 && b == 0x100 * c + d2
    ensures Length(h) == n
  {
  }

  lemma HeaderRoundTrip(n: nat)
    requires n < 0x1_0000_0000
    ensures Length(Header(n)) == n
    ensures n < 0x8000_0000 ==> SignedLength(Header(n)) == n
  {
    hide Length;
    var a, b, c := n / 0x100, n / 0x1_0000, n / 0x100_0000;
    DivideTwice(n);
    LastDigit(n, a);
    LastDigit(a, b);
    LastDigit(b, c);
    assert c % 0x100 == c;
    LengthOfDigits(Header(n), n, a, b, c, n % 0x100, a % 0x100, b % 0x100);
  }

  // ---- frames

  function Frame(body: seq<Byte>): seq<Byte> {
    Header(|body|) + body
  }

  function Frames(bodies: seq<seq<Byte>>): seq<Byte> {
    if bodies == [] then [] else Frames(bodies[..|bodies| - 1]) + Frame(bodies[|bodies| - 1])
  }

  datatype Received = Message(body: seq<Byte>, rest: seq<Byte>) | EndOfStream | TooLarge | NegativeSize | Truncated

  /** A header cut short by the end of the stream is filled up with zeros. */
  function PaddedHeader(s: seq<Byte>): (h: seq<Byte>)
    ensures |h| == 4
  {
    seq(4, k requires 0 <= k < 4 => if k < |s| then s[k] else 0)
  }

  function AfterHeader(s: seq<Byte>): seq<Byte> {
    if |s| < 4 then [] else s[4..]
  }

  /** What the agent's reader makes of a stream. */
  function AgentRead(s: seq<Byte>): Received {
    if s == [] then EndOfStream
    else
      var len := SignedLength(PaddedHeader(s));
      var rest := AfterHeader(s);
      if len > MAX_MESSAGE then TooLarge
      else if len < 0 then NegativeSize
      else if |rest| < len then Truncated
      else Message(rest[..len], rest[len..])
  }

  /** What the client's reader makes of a stream. */
  function ClientRead(s: seq<Byte>): Received {
    if |s| < 4 then Truncated
    else
      var len := Length(s[..4]);
      var rest := s[4..];
      if len > MAX_MESSAGE then TooLarge
      else if |rest| < len then Truncated
      else Message(rest[..len], rest[len..])
  }

  lemma HeaderFirst(body: seq<Byte>, tail: seq<Byte>)
    ensures
      var s := Frame(body) + tail;
      && |s| >= 4 && s[..4] == Header(|body|) && PaddedHeader(s) == Header(|body|)
      && s[4..] == body + tail && AfterHeader(s) == body + tail
  {
    var s := Frame(body) + tail;
    hide Header;
    assert forall k :: 0 <= k < 4 ==> s[k] == Header(|body|)[k];
  }

  /** Either reader takes exactly one frame off the front. */
  lemma FrameIsRead(body: seq<Byte>, tail: seq<Byte>)
    requires |body| <= MAX_MESSAGE
    ensures AgentRead(Frame(body) + tail) == Message(body, tail)
    ensures ClientRead(Frame(body) + tail) == Message(body, tail)
  {
    hide Frame, Header, Length, SignedLength, PaddedHeader, AfterHeader;
    HeaderFirst(body, tail);
    LengthOfBody(|body|);
    assert (body + tail)[..|body|] == body && (body + tail)[|body|..] == tail;
  }

  lemma LengthOfBody(n: nat)
    requires n <= MAX_MESSAGE
    ensures Length(Header(n)) == n && SignedLength(Header(n)) == n
  {
    HeaderRoundTrip(n);
  }

  lemma MessageIsShorter(s: seq<Byte>)
    ensures AgentRead(s).Message? ==> |AgentRead(s).rest| < |s|
    ensures ClientRead(s).Message? ==> |ClientRead(s).rest| < |s|
  {
  }

  /** All messages of a stream, and how it ends. */
  datatype Conversation = Conversation(bodies: seq<seq<Byte>>, end: Received)

  function AgentReadAll(s: seq<Byte>): Conversation
    decreases |s|
  {
    MessageIsShorter(s);
    match AgentRead(s)
    case Message(body, rest) =>
      var later := AgentReadAll(rest);
      Conversation([body] + later.bodies, later.end)
    case end => Conversation([], end)
  }

  function ClientReadAll(s: seq<Byte>): Conversation
    decreases |s|
  {
    MessageIsShorter(s);
    match ClientRead(s)
    case Message(body, rest) =>
      var later := ClientReadAll(rest);
      Conversation([body] + later.bodies, later.end)
    case end => Conversation([], end)
  }

  predicate Sendable(bodies: seq<seq<Byte>>) {
    forall k :: 0 <= k < |bodies| ==> |bodies[k]| <= MAX_MESSAGE
  }

  function Preceded(bodies: seq<seq<Byte>>, c: Conversation): Conversation {
    Conversation(bodies + c.bodies, c.end)
  }

  lemma AgentReadsOne(body: seq<Byte>, tail: seq<Byte>)
    requires |body| <= MAX_MESSAGE
    ensures AgentReadAll(Frame(body) + tail) == Preceded([body], AgentReadAll(tail))
  {
    hide Frame, AgentRead;
    FrameIsRead(body, tail);
  }

  lemma ClientReadsOne(body: seq<Byte>, tail: seq<Byte>)
    requires |body| <= MAX_MESSAGE
    ensures ClientReadAll(Frame(body) + tail) == Preceded([body], ClientReadAll(tail))
  {
    hide Frame, ClientRead;
    FrameIsRead(body, tail);
  }

  /** Whatever follows, frames in front are read first, one by one; the agent then reads on as from a fresh stream. */
  lemma {:induction false} AgentReadsFramesFirst(bodies: seq<seq<Byte>>, tail: seq<Byte>)
    requires Sendable(bodies)
    ensures AgentReadAll(Frames(bodies) + tail) == Preceded(bodies, AgentReadAll(tail))
  {
    hide Frame, AgentRead, AgentReadAll;
    if bodies == [] {
      assert [] + tail == tail;
      assert [] + AgentReadAll(tail).bodies == AgentReadAll(tail).bodies;
    } else {
      var n := |bodies| - 1;
      var last := bodies[n];
      assert Frames(bodies) + tail == Frames(bodies[..n]) + (Frame(last) + tail);
      AgentReadsFramesFirst(bodies[..n], Frame(last) + tail);
      AgentReadsOne(last, tail);
      assert bodies[..n] + ([last] + AgentReadAll(tail).bodies) == bodies + AgentReadAll(tail).bodies;
    }
  }

  lemma {:induction false} ClientReadsFramesFirst(bodies: seq<seq<Byte>>, tail: seq<Byte>)
    requires Sendable(bodies)
    ensures ClientReadAll(Frames(bodies) + tail) == Preceded(bodies, ClientReadAll(tail))
  {
    hide Frame, ClientRead, ClientReadAll;
    if bodies == [] {
      assert [] + tail == tail;
      assert [] + ClientReadAll(tail).bodies == ClientReadAll(tail).bodies;
    } else {
      var n := |bodies| - 1;
      var last := bodies[n];
      assert Frames(bodies) + tail == Frames(bodies[..n]) + (Frame(last) + tail);
      ClientReadsFramesFirst(bodies[..n], Frame(last) + tail);
      ClientReadsOne(last, tail);
      assert bodies[..n] + ([last] + ClientReadAll(tail).bodies) == bodies + ClientReadAll(tail).bodies;
    }
  }

  /** Any list of messages arrives as sent, and the agent then sees a clean end of stream. */
  lemma FramesRoundTrip(bodies: seq<seq<Byte>>)
    requires Sendable(bodies)
    ensures AgentReadAll(Frames(bodies)) == Conversation(bodies, EndOfStream)
    ensures ClientReadAll(Frames(bodies)) == Conversation(bodies, Truncated)
  {
    hide Frames;
    assert Frames(bodies) + [] == Frames(bodies);
    AgentReadsFramesFirst(bodies, []);
    ClientReadsFramesFirst(bodies, []);
    assert bodies + [] == bodies;
  }

  // ---- headers cut short

  predicate AllZero(s: seq<Byte>) {
    forall k :: 0 <= k < |s| ==> s[k] == 0
  }

  predicate IsCutHeader(s: seq<Byte>) {
    0 < |s| < 4
  }

  lemma PaddedLength(s: seq<Byte>)
    ensures
      var h := PaddedHeader(s);
      (Length(h) == 0 <==> AllZero(h)) && (|s| < 4 ==> (AllZero(h) <==> AllZero(s)))
  {
    var h := PaddedHeader(s);
    if |s| < 4 && AllZero(h) {
      assert forall k :: 0 <= k < |s| ==> h[k] == s[k];
    }
  }

  /** The agent takes a header cut short for an empty message exactly if the bytes that came are zeros. */
  lemma CutHeaderIsTakenForEmpty(s: seq<Byte>)
    requires IsCutHeader(s)
    ensures AgentRead(s) == Message([], []) <==> AllZero(s)
    ensures AgentRead(s).Message? ==> AgentRead(s) == Message([], [])
    ensures AgentRead(s) != EndOfStream && ClientRead(s) == Truncated
  {
    PaddedLength(s);
    hide PaddedHeader, AllZero;
  }

  /** Both sides refuse messages longer than fifty million bytes, by their header alone. */
  lemma LongMessagesAreRefused(n: nat, rest: seq<Byte>)
    requires n < 0x8000_0000
    ensures AgentRead(Header(n) + rest).TooLarge? <==> n > 50_000_000
    ensures ClientRead(Header(n) + rest).TooLarge? <==> n > 50_000_000
  {
    hide Header, Length;
    HeaderRoundTrip(n);
    var s := Header(n) + rest;
    assert s[..4] == Header(n) && PaddedHeader(s) == Header(n);
  }


  /** Agent and client find the same message in every stream, except in a cut header of zeros. */
  lemma ReadersAgree(s: seq<Byte>)
    ensures
      (AgentRead(s).Message? || ClientRead(s).Message? ==> AgentRead(s) == ClientRead(s))
      <==> !(IsCutHeader(s) && AllZero(s))
  {
    if IsCutHeader(s) {
      CutHeaderIsTakenForEmpty(s);
    } else if |s| >= 4 {
      assert PaddedHeader(s) == s[..4];
    }
  }

  /** So a connection lost inside a header can add one empty message, and no other damage adds any. */
  lemma LostConnection(bodies: seq<seq<Byte>>, cut: seq<Byte>)
    requires Sendable(bodies) && IsCutHeader(cut)
    ensures AgentReadAll(Frames(bodies) + cut).bodies == if AllZero(cut) then bodies + [[]] else bodies
  {
    hide Frames, AgentRead, AllZero;
    AgentReadsFramesFirst(bodies, cut);
    CutHeaderIsTakenForEmpty(cut);
    AgentReadsFramesFirst([], []);
    NothingToRead();
  }

  lemma NothingToRead()
    ensures AgentReadAll([]) == Conversation([], EndOfStream)
  {
  }

  // ---- the code

  /** A stream that hands out what is left in portions of any size. */
  class InputStream {
    var remaining: seq<Byte>

    constructor (bytes: seq<Byte>)
      ensures remaining == bytes
    {
      remaining := bytes;
    }

    method Read(data: array<Byte>, off: nat, len: nat) returns (read: int)
      requires off + len <= data.Length && len > 0
      modifies this, data
      ensures old(remaining) == [] ==> read == -1 && remaining == [] && data[..] == old(data[..])
      ensures old(remaining) != [] ==>
        && 1 <= read <= len && read <= |old(remaining)| && remaining == old(remaining)[read..]
        && data[off..off + read] == old(remaining)[..read]
        && data[..off] == old(data[..off]) && data[off + read..] == old(data[off + read..])
    {
      if remaining == [] {
        return -1;
      }
      var most := if |remaining| < len then |remaining| else len;
      read :| 1 <= read <= most;
      forall k | 0 <= k < read {
        data[off + k] := remaining[k];
      }
      remaining := remaining[read..];
    }
  }

  /** Fills the array from the stream as far as it goes; -1 if nothing is left at the start. */
  method ReadFullyOrEof(input: InputStream, data: array<Byte>) returns (count: int)
    modifies input, data
    ensures data.Length > 0 && old(input.remaining) == [] ==> count == -1
    ensures data.Length == 0 || old(input.remaining) != [] ==> count == Least(data.Length, |old(input.remaining)|)
    ensures
      var n := Least(data.Length, |old(input.remaining)|);
      && data[..n] == old(input.remaining)[..n] && data[n..] == old(data[n..])
      && input.remaining == old(input.remaining)[n..]
  {
    var off := 0;
    ghost var all := input.remaining;
    ghost var before := data[..];
    while off < data.Length
      invariant 0 <= off <= data.Length && off <= |all|
      invariant input.remaining == all[off..]
      invariant data[..off] == all[..off] && data[off..] == before[off..]
      decreases data.Length - off
    {
      label portion:
      var read := input.Read(data, off, data.Length - off);
      if read < 0 {
        return if off == 0 then -1 else off;
      }
      PortionAdded(all, before, old@portion(data[..]), data[..], off, read);
      off := off + read;
    }
    return off;
  }

  lemma PortionAdded(all: seq<Byte>, before: seq<Byte>, earlier: seq<Byte>, now: seq<Byte>, off: nat, read: nat)
    requires |before| == |earlier| == |now| && off + read <= |now| && off + read <= |all|
    requires earlier[..off] == all[..off] && earlier[off..] == before[off..]
    requires now[off..off + read] == all[off..][..read]
    requires now[..off] == earlier[..off] && now[off + read..] == earlier[off + read..]
    ensures now[..off + read] == all[..off + read] && now[off + read..] == before[off + read..]
    ensures all[off..][read..] == all[off + read..]
  {
    assert now[..off + read] == now[..off] + now[off..off + read];
    assert all[..off + read] == all[..off] + all[off..][..read];
    assert earlier[off + read..] == earlier[off..][read..];
    assert before[off + read..] == before[off..][read..];
  }

  /** The agent's reader. */
  method ReadMessage(input: InputStream) returns (r: Received)
    modifies input
    ensures r == AgentRead(old(input.remaining))
    ensures r.Message? ==> input.remaining == r.rest
  {
    ghost var s := input.remaining;
    var lenBytes := new Byte[4](_ => 0);
    var read := ReadFullyOrEof(input, lenBytes);
    if read < 0 {
      return EndOfStream;
    }
    HeaderCame(s, lenBytes[..]);
    var len := SignedLength(lenBytes[..]);
    if len > MAX_MESSAGE {
      return TooLarge;
    }
    if len < 0 {
      return NegativeSize;
    }
    var data := new Byte[len](_ => 0);
    read := ReadFullyOrEof(input, data);
    if read < len {
      return Truncated;
    }
    assert data[..] == AfterHeader(s)[..len];
    r := Message(data[..], input.remaining);
  }

  lemma HeaderCame(s: seq<Byte>, h: seq<Byte>)
    requires |h| == 4 && h[..Least(4, |s|)] == s[..Least(4, |s|)]
    requires forall k :: Least(4, |s|) <= k < 4 ==> h[k] == 0
    ensures h == PaddedHeader(s) && s[Least(4, |s|)..] == AfterHeader(s)
  {
    var n := Least(4, |s|);
    forall k | 0 <= k < n
      ensures h[k] == s[k]
    {
      assert h[..n][k] == s[..n][k];
    }
  }

  class OutputStream {
    var written: seq<Byte>

    constructor ()
      ensures written == []
    {
      written := [];
    }

    /** Either side's writer. */
    method WriteMessage(data: seq<Byte>)
      modifies this
      ensures written == old(written) + Frame(data)
    {
      var len := |data|;
      written := written + [len / 0x100_0000 % 0x100];
      written := written + [len / 0x1_0000 % 0x100];
      written := written + [len / 0x100 % 0x100];
      written := written + [len % 0x100];
      written := written + data;
    }
  }

  // ---- a whole connection

  /** What the agent answers to each command; an answer may depend on every command so far. */
  function Replies(answer: seq<seq<Byte>> -> seq<Byte>, commands: seq<seq<Byte>>): (r: seq<seq<Byte>>)
    ensures |r| == |commands|
  {
    seq(|commands|, k requires 0 <= k < |commands| => answer(commands[..k + 1]))
  }

  lemma RepliesAppend(answer: seq<seq<Byte>> -> seq<Byte>, commands: seq<seq<Byte>>, command: seq<Byte>)
    ensures Replies(answer, commands + [command]) == Replies(answer, commands) + [answer(commands + [command])]
  {
    var all := commands + [command];
    forall k | 0 <= k < |commands| ensures Replies(answer, all)[k] == Replies(answer, commands)[k] {
      assert all[..k + 1] == commands[..k + 1];
    }
    assert all[..|all|] == all;
  }

  lemma ConversationGoesOn(s: seq<Byte>, done: seq<seq<Byte>>, remaining: seq<Byte>)
    requires AgentReadAll(s) == Preceded(done, AgentReadAll(remaining))
    ensures AgentRead(remaining).Message? ==>
      var r := AgentRead(remaining);
      AgentReadAll(s) == Preceded(done + [r.body], AgentReadAll(r.rest))
    ensures !AgentRead(remaining).Message? ==> AgentReadAll(s) == Conversation(done, AgentRead(remaining))
  {
    hide AgentRead;
    var r := AgentRead(remaining);
    if r.Message? {
      assert done + ([r.body] + AgentReadAll(r.rest).bodies) == (done + [r.body]) + AgentReadAll(r.rest).bodies;
    } else {
      assert done + [] == done;
    }
  }

  /** The agent's loop over one connection, over any split of the stream; it returns what ended it. */
  method HandleClient(input: InputStream, output: OutputStream, answer: seq<seq<Byte>> -> seq<Byte>)
    returns (end: Received)
    modifies input, output
    ensures
      var c := AgentReadAll(old(input.remaining));
      end == c.end && output.written == old(output.written) + Frames(Replies(answer, c.bodies))
  {
    hide AgentRead, AgentReadAll, Frame, Replies;
    ghost var s, written := input.remaining, output.written;
    var commands: seq<seq<Byte>> := [];
    assert Preceded([], AgentReadAll(s)) == AgentReadAll(s);
    while true
      invariant AgentReadAll(s) == Preceded(commands, AgentReadAll(input.remaining))
      invariant output.written == written + Frames(Replies(answer, commands))
      decreases |input.remaining|
    {
      ConversationGoesOn(s, commands, input.remaining);
      MessageIsShorter(input.remaining);
      end := ReadMessage(input);
      if !end.Message? {
        return;
      }
      RepliesAppend(answer, commands, end.body);
      commands := commands + [end.body];
      output.WriteMessage(answer(commands));
    }
  }

  /** Both ways: every command sent is answered once, in order, and the client reads exactly the answers. */
  lemma EveryCommandIsAnswered(answer: seq<seq<Byte>> -> seq<Byte>, commands: seq<seq<Byte>>)
    requires Sendable(commands) && Sendable(Replies(answer, commands))
    ensures
      var served := AgentReadAll(Frames(commands));
      && served.end == EndOfStream
      && var got := ClientReadAll(Frames(Replies(answer, served.bodies))).bodies;
      |got| == |commands| && forall k :: 0 <= k < |commands| ==> got[k] == answer(commands[..k + 1])
  {
    FramesRoundTrip(commands);
    FramesRoundTrip(Replies(answer, commands));
  }
}
