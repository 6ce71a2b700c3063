/** The framing of messages between client, manager and servers: a message is a list of
    parts, sent with its total length, the number of parts, and the length of each. */
module Framing {

  type Byte = b: int | 0 <= b < 256

  type Message = seq<seq<Byte>>

  datatype Option<T> = None | Some(value: T)

  // --- Numbers, most significant byte first --------------------------------------------

  function Power(n: nat): (p: int)
    ensures p > 0
  {
    if n == 0 then 1 else 256 * Power(n - 1)
  }

  function BigEndian(x: nat, n: nat): (bytes: seq<Byte>)
    ensures |bytes| == n
  {
    if n == 0 then [] else BigEndian(x / 256, n - 1) + [x % 256]
  }

  function Value(bytes: seq<Byte>): nat {
    if bytes == [] then 0
    else
      var last: int := bytes[|bytes| - 1];
      256 * Value(bytes[..|bytes| - 1]) + last
  }

  lemma {:induction false} ValueBigEndian(x: nat, n: nat)
    requires x < Power(n)
    ensures Value(BigEndian(x, n)) == x
  {
    if n > 0 {
      ValueBigEndian(x / 256, n - 1);
      var bytes := BigEndian(x, n);
      assert bytes[..n - 1] == BigEndian(x / 256, n - 1);
    }
  }

  lemma {:induction false} ValueBound(bytes: seq<Byte>)
    ensures Value(bytes) < Power(|bytes|)
  {
    if bytes != [] {
      ValueBound(bytes[..|bytes| - 1]);
    }
  }

  lemma FourBytes()
    ensures Power(4) == 0x1_0000_0000 && Power(2) == 0x1_0000
  {
    assert Power(1) == 256 && Power(2) == 256 * Power(1) && Power(3) == 256 * Power(2) && Power(4) == 256 * Power(3);
  }

  // --- The encoding ----------------------------------------------------------------------

  function PartsLength(msg: Message): nat {
    if msg == [] then 0 else 4 + |msg[0]| + PartsLength(msg[1..])
  }

  function EncodeParts(msg: Message): (bytes: seq<Byte>)
    ensures |bytes| == PartsLength(msg)
  {
    if msg == [] then [] else BigEndian(|msg[0]|, 4) + msg[0] + EncodeParts(msg[1..])
  }

  function Body(msg: Message): (bytes: seq<Byte>)
    ensures |bytes| == 2 + PartsLength(msg)
  {
    BigEndian(|msg|, 2) + EncodeParts(msg)
  }

  function Encode(msg: Message): seq<Byte> {
    BigEndian(2 + PartsLength(msg), 4) + Body(msg)
  }

  /** The limits the two and the four byte counts set. */
  predicate Fits(msg: Message) {
    |msg| < Power(2) && 2 + PartsLength(msg) < Power(4)
  }

  function EncodeAll(msgs: seq<Message>): seq<Byte> {
    if msgs == [] then [] else Encode(msgs[0]) + EncodeAll(msgs[1..])
  }

  /** The two low bytes of a length come last, the higher one of them first. */
  lemma ShortLength(high: Byte, low: Byte)
    ensures BigEndian(256 * high + low, 4) == [0, 0, high, low]
  {
    var h: int, l: int := high, low;
    var x := 256 * h + l;
    assert x / 256 == h && x % 256 == l && h / 256 == 0 && h % 256 == h;
    assert BigEndian(0, 1) == [0] && BigEndian(0, 2) == [0, 0];
    assert BigEndian(h, 3) == [0, 0] + [h];
    assert BigEndian(x, 4) == BigEndian(h, 3) + [l];
  }

  /** Every part goes behind its own length. */
  lemma ShortPart(part: seq<Byte>, more: Message)
    requires |part| < 256
    ensures EncodeParts([part] + more) == [0, 0, 0, |part|] + part + EncodeParts(more)
    ensures PartsLength([part] + more) == 4 + |part| + PartsLength(more)
  {
    ShortLength(0, |part|);
    assert ([part] + more)[1..] == more;
  }

  lemma LowLength(n: nat)
    requires n < 256
    ensures BigEndian(n, 2) == [0, n] && BigEndian(n, 4) == [0, 0, 0, n]
  {
    assert BigEndian(0, 1) == [0];
    ShortLength(0, n);
  }

  /** A short message as it goes over the wire: the length of all that follows, the number of
      parts, and the parts. */
  lemma ShortMessage(msg: Message)
    requires PartsLength(msg) < 254 && |msg| < 256
    ensures Body(msg) == [0, |msg|] + EncodeParts(msg)
    ensures Encode(msg) == [0, 0, 0, 2 + PartsLength(msg)] + Body(msg)
  {
    LowLength(|msg|);
    LowLength(2 + PartsLength(msg));
  }

  // --- What a receiver makes of bytes --------------------------------------------------------

  /** The parts from an offset on; a length that runs out of the message is cut off, one
      that is not there at all is an error. */
  function Parts(body: seq<Byte>, offset: nat, count: nat): Option<Message>
    decreases count
  {
    if count == 0 then Some([])
    else if offset + 4 > |body| then None
    else
      var end := offset + 4 + Value(body[offset..offset + 4]);
      match Parts(body, end, count - 1)
      case None => None
      case Some(rest) => Some([body[offset + 4..if end <= |body| then end else |body|]] + rest)
  }

  function FromBytes(body: seq<Byte>): Option<Message> {
    if |body| < 2 then None else Parts(body, 2, Value(body[..2]))
  }

  /** The stream holds a whole frame: a length and as many bytes. */
  predicate HasFrame(s: seq<Byte>) {
    |s| >= 4 && |s| >= 4 + Value(s[..4])
  }

  function FrameEnd(s: seq<Byte>): (n: nat)
    requires HasFrame(s)
    ensures 4 <= n <= |s|
  {
    4 + Value(s[..4])
  }

  /** The messages the first frame stands for: none if it is empty. */
  function FirstFrame(s: seq<Byte>): Option<seq<Message>>
    requires HasFrame(s)
  {
    if FrameEnd(s) == 4 then Some([])
    else
      match FromBytes(s[4..FrameEnd(s)])
      case None => None
      case Some(msg) => Some([msg])
  }

  /** The messages in a stream of bytes, what is left over, and whether all of them could be
      taken apart. */
  datatype Scan = Scan(messages: seq<Message>, rest: seq<Byte>, ok: bool)

  function Parse(s: seq<Byte>): Scan
    decreases |s|
  {
    if !HasFrame(s) then Scan([], s, true)
    else
      match FirstFrame(s)
      case None => Scan([], s, false)
      case Some(messages) => After(messages, Parse(s[FrameEnd(s)..]))
  }

  function After(messages: seq<Message>, r: Scan): Scan {
    r.(messages := messages + r.messages)
  }

  // --- Round trip -----------------------------------------------------------------------------

  lemma {:induction false} PartsRoundTrip(before: seq<Byte>, msg: Message)
    requires PartsLength(msg) < Power(4)
    ensures Parts(before + EncodeParts(msg), |before|, |msg|) == Some(msg)
    decreases |msg|
  {
    if msg != [] {
      var body := before + EncodeParts(msg);
      var head := BigEndian(|msg[0]|, 4);
      var before' := before + head + msg[0];
      assert body == before' + EncodeParts(msg[1..]);
      assert body[|before|..|before| + 4] == head;
      assert body[|before| + 4..|before'|] == msg[0];
      ValueBigEndian(|msg[0]|, 4);
      PartsRoundTrip(before', msg[1..]);
      assert [msg[0]] + msg[1..] == msg;
    }
  }

  lemma BodyRoundTrip(msg: Message)
    requires Fits(msg)
    ensures FromBytes(Body(msg)) == Some(msg)
  {
    var count := BigEndian(|msg|, 2);
    assert Body(msg)[..2] == count;
    ValueBigEndian(|msg|, 2);
    PartsRoundTrip(count, msg);
  }

  /** A stream that starts with an encoded message starts with that message. */
  lemma ParseEncoded(msg: Message, more: seq<Byte>)
    requires Fits(msg)
    ensures Parse(Encode(msg) + more) == After([msg], Parse(more))
  {
    var s, len := Encode(msg) + more, BigEndian(2 + PartsLength(msg), 4);
    ValueBigEndian(2 + PartsLength(msg), 4);
    assert s == len + (Body(msg) + more);
    assert s[..4] == len;
    assert s[4..4 + |Body(msg)|] == Body(msg);
    assert s[4 + |Body(msg)|..] == more;
    BodyRoundTrip(msg);
  }

  lemma {:induction false} ParseEncodedAll(msgs: seq<Message>)
    requires forall i :: 0 <= i < |msgs| ==> Fits(msgs[i])
    ensures Parse(EncodeAll(msgs)) == Scan(msgs, [], true)
  {
    if msgs != [] {
      ParseEncodedAll(msgs[1..]);
      ParseEncoded(msgs[0], EncodeAll(msgs[1..]));
      assert [msgs[0]] + msgs[1..] == msgs;
    }
  }

  // --- Chunks ---------------------------------------------------------------------------------

  lemma FrameStays(a: seq<Byte>, b: seq<Byte>)
    requires HasFrame(a)
    ensures HasFrame(a + b) && FrameEnd(a + b) == FrameEnd(a) && FirstFrame(a + b) == FirstFrame(a)
    ensures (a + b)[FrameEnd(a)..] == a[FrameEnd(a)..] + b
  {
    assert (a + b)[..4] == a[..4];
    assert (a + b)[4..FrameEnd(a)] == a[4..FrameEnd(a)];
  }

  lemma AfterAfter(x: seq<Message>, y: seq<Message>, r: Scan)
    ensures After(x + y, r) == After(x, After(y, r))
  {
    assert (x + y) + r.messages == x + (y + r.messages);
  }

  /** Bytes may come in pieces: what is left over of one piece goes before the next. */
  lemma {:induction false} ParseInPieces(a: seq<Byte>, b: seq<Byte>)
    requires Parse(a).ok
    ensures Parse(a + b) == After(Parse(a).messages, Parse(Parse(a).rest + b))
    decreases |a|
  {
    if HasFrame(a) {
      var more := a[FrameEnd(a)..];
      FrameStays(a, b);
      ParseInPieces(more, b);
      AfterAfter(FirstFrame(a).value, Parse(more).messages, Parse(Parse(more).rest + b));
    } else {
      var r := Parse(a + b);
      assert [] + r.messages == r.messages;
    }
  }

  function Flatten(chunks: seq<seq<Byte>>): seq<Byte> {
    if chunks == [] then [] else Flatten(chunks[..|chunks| - 1]) + chunks[|chunks| - 1]
  }

  // --- The receiving protocol -----------------------------------------------------------------

  class MessageProtocol {
    const lenBuff: array<Byte>
    var lenOffset: nat
    /** Zero counts as no length. */
    var msgLen: nat
    var msgData: seq<Byte>
    var position: nat
    /** The messages handed to `process_msg` so far. */
    var delivered: seq<Message>

    ghost predicate Valid()
      reads this, lenBuff
    {
      && lenBuff.Length == 4 && lenOffset < 4 && position <= |msgData|
      && (msgLen > 0 ==> position < msgLen && lenOffset == 0 && Value(lenBuff[..]) == msgLen)
    }

    /** The bytes that have arrived but do not make up a message yet. */
    ghost function Pending(): seq<Byte>
      requires Valid()
      reads this, lenBuff
    {
      if msgLen == 0 then lenBuff[..lenOffset] else lenBuff[..] + msgData[..position]
    }

    constructor ()
      ensures Valid() && Pending() == [] && delivered == [] && fresh(lenBuff)
    {
      lenBuff := new Byte[4](_ => 0);
      lenOffset, msgLen, msgData, position, delivered := 0, 0, [], 0, [];
    }

    /** Writing into the reused buffer leaves what an earlier, longer message has left
        behind the end. */
    method Write(data: seq<Byte>)
      requires position <= |msgData|
      modifies this`msgData, this`position
      ensures position == old(position) + |data| <= |msgData|
      ensures msgData[..position] == old(msgData)[..old(position)] + data
    {
      var end := position + |data|;
      msgData := msgData[..position] + data + if end < |msgData| then msgData[end..] else [];
      position := end;
    }

    /** Some bytes of a length; a complete one opens a message, unless it is zero. */
    method TakeLength(piece: seq<Byte>)
      requires Valid() && msgLen == 0 && 0 < |piece| <= 4 - lenOffset
      modifies this`lenOffset, this`msgLen, this`position, lenBuff
      ensures Valid()
      ensures var all := old(Pending()) + piece;
        Pending() == if HasFrame(all) then [] else all
    {
      ghost var before := Pending();
      CopyIn(piece);
      if lenOffset == 4 {
        msgLen := Value(lenBuff[..]);
        lenOffset := 0;
        position := 0;
        assert lenBuff[..] == before + piece;
        assert (before + piece)[..4] == before + piece;
        assert Pending() == if msgLen == 0 then [] else before + piece;
      } else {
        assert Pending() == before + piece;
      }
    }

    method CopyIn(piece: seq<Byte>)
      requires lenBuff.Length == 4 && lenOffset + |piece| <= 4
      modifies this`lenOffset, lenBuff
      ensures lenOffset == old(lenOffset) + |piece|
      ensures lenBuff[..lenOffset] == old(lenBuff[..lenOffset]) + piece
    {
      var k := 0;
      while k < |piece|
        invariant k <= |piece| && lenOffset == old(lenOffset)
        invariant lenBuff[..lenOffset + k] == old(lenBuff[..lenOffset]) + piece[..k]
      {
        lenBuff[lenOffset + k] := piece[k];
        k := k + 1;
      }
      assert piece[..k] == piece;
      lenOffset := lenOffset + |piece|;
    }

    /** Some bytes of a message; a complete one is taken apart and handed on. */
    method TakeData(piece: seq<Byte>) returns (ok: bool)
      requires Valid() && 0 < msgLen && 0 < |piece| <= msgLen - position
      modifies this`msgLen, this`msgData, this`position, this`delivered
      ensures var all := old(Pending()) + piece;
        if HasFrame(all) then
          && FrameEnd(all) == |all| && ok == FirstFrame(all).Some?
          && (ok ==> Valid() && Pending() == [] && delivered == old(delivered) + FirstFrame(all).value)
        else ok && Valid() && Pending() == all && delivered == old(delivered)
    {
      ghost var all := Pending() + piece;
      assert all[..4] == lenBuff[..];
      assert all == lenBuff[..] + (msgData[..position] + piece);
      Write(piece);
      assert all == lenBuff[..] + msgData[..position];
      if position == msgLen {
        assert all[4..] == msgData[..msgLen];
        assert all[4..FrameEnd(all)] == all[4..];
        var msg := FromBytes(msgData[..msgLen]);
        if msg == None {
          return false;
        }
        delivered := delivered + [msg.value];
        msgLen := 0;
      }
      return true;
    }

    /** The next piece, up to the end of the length or of the message; `more` follows it. */
    method Take(piece: seq<Byte>, ghost more: seq<Byte>) returns (ok: bool, ghost taken: seq<Message>)
      requires Valid() && 0 < |piece| <= if msgLen == 0 then 4 - lenOffset else msgLen - position
      modifies this, lenBuff
      ensures var r := Parse((old(Pending()) + piece) + more);
        if ok then Valid() && r == After(taken, Parse(Pending() + more)) && delivered == old(delivered) + taken else !r.ok
    {
      ghost var before := Pending();
      taken := [];
      if msgLen == 0 {
        TakeLength(piece);
        LengthTaken(before, piece, more);
        assert [] + Parse(Pending() + more).messages == Parse(Pending() + more).messages;
        ok := true;
      } else {
        ok := TakeData(piece);
        DataTaken(before, piece, more);
        if ok && HasFrame(before + piece) {
          taken := FirstFrame(before + piece).value;
        }
      }
    }

    /** One turn of the loop below. */
    method TakeNext(data: seq<Byte>, offset: nat) returns (ok: bool, offset': nat, ghost taken: seq<Message>)
      requires Valid() && offset < |data|
      modifies this, lenBuff
      ensures ok ==> Valid() && offset < offset' <= |data| && delivered == old(delivered) + taken
      ensures var r := Parse(old(Pending()) + data[offset..]);
        if ok then r == After(taken, Parse(Pending() + data[offset'..])) else !r.ok
    {
      var remaining := if msgLen == 0 then 4 - lenOffset else msgLen - position;
      var toAdd := if remaining <= |data| - offset then remaining else |data| - offset;
      var piece := data[offset..offset + toAdd];
      SplitAt(Pending(), data, offset, toAdd);
      ok, taken := Take(piece, data[offset + toAdd..]);
      offset' := offset + toAdd;
    }

    /** However the bytes of a stream are cut into pieces, the messages delivered are those
        of the stream, and what is pending is its rest. */
    method DataReceived(data: seq<Byte>) returns (ok: bool)
      requires Valid()
      modifies this, lenBuff
      ensures var r := Parse(old(Pending()) + data);
        ok == r.ok && (ok ==> Valid() && Pending() == r.rest && delivered == old(delivered) + r.messages)
    {
      var offset := 0;
      ghost var goal := After(delivered, Parse(Pending() + data));
      assert data[offset..] == data;
      while offset != |data|
        invariant Valid() && offset <= |data|
        invariant Reaches(goal, delivered, Pending() + data[offset..])
      {
        ghost var whole, before := Pending() + data[offset..], delivered;
        ghost var taken;
        ok, offset, taken := TakeNext(data, offset);
        if !ok {
          return;
        }
        TakeOn(goal, before, taken, whole, Pending() + data[offset..]);
      }
      NothingPending(data[offset..]);
      return true;
    }

    lemma NothingPending(more: seq<Byte>)
      requires Valid() && more == []
      ensures Parse(Pending() + more) == Scan([], Pending(), true)
    {
      assert Pending() + more == Pending();
      if msgLen > 0 {
        assert Pending()[..4] == lenBuff[..];
      }
    }
  }

  lemma LengthTaken(before: seq<Byte>, piece: seq<Byte>, more: seq<Byte>)
    requires |before + piece| <= 4
    ensures Parse((before + piece) + more) == Parse((if HasFrame(before + piece) then [] else before + piece) + more)
  {
    var all := before + piece;
    if HasFrame(all) {
      FrameStays(all, more);
      assert [] + more == more && all[4..] + more == more;
      assert [] + Parse(more).messages == Parse(more).messages;
    }
  }

  /** Having delivered `got`, the rest of the stream is `left`. */
  ghost predicate Reaches(goal: Scan, got: seq<Message>, left: seq<Byte>) {
    goal == After(got, Parse(left))
  }

  lemma SplitAt(p: seq<Byte>, data: seq<Byte>, offset: nat, k: nat)
    requires offset + k <= |data|
    ensures p + data[offset..] == (p + data[offset..offset + k]) + data[offset + k..]
  {
  }

  lemma TakeOn(goal: Scan, got: seq<Message>, taken: seq<Message>, whole: seq<Byte>, left: seq<Byte>)
    requires Reaches(goal, got, whole) && Parse(whole) == After(taken, Parse(left))
    ensures Reaches(goal, got + taken, left)
  {
    AfterAfter(got, taken, Parse(left));
  }

  lemma DataTaken(before: seq<Byte>, piece: seq<Byte>, more: seq<Byte>)
    requires HasFrame(before + piece) ==> FrameEnd(before + piece) == |before + piece|
    ensures var all := before + piece;
      var r := Parse(all + more);
      if !HasFrame(all) then r == After([], r)
      else if FirstFrame(all) == None then !r.ok
      else r == After(FirstFrame(all).value, Parse([] + more))
  {
    var all := before + piece;
    assert [] + Parse(all + more).messages == Parse(all + more).messages;
    if HasFrame(all) {
      FrameStays(all, more);
      assert all[|all|..] + more == more && [] + more == more;
    }
  }

  // --- Feeding a stream in pieces ----------------------------------------------------------------

  /** Whatever messages are sent and wherever the network cuts their bytes, exactly these
      messages arrive, in order. */
  method Receive(chunks: seq<seq<Byte>>, ghost msgs: seq<Message>) returns (protocol: MessageProtocol)
    requires forall i :: 0 <= i < |msgs| ==> Fits(msgs[i])
    requires Flatten(chunks) == EncodeAll(msgs)
    ensures protocol.Valid() && protocol.delivered == msgs && protocol.Pending() == []
  {
    protocol := new MessageProtocol();
    ParseEncodedAll(msgs);
    assert chunks[..|chunks|] == chunks;
    assert Parse([]) == Scan([], [], true);
    var i := 0;
    while i < |chunks|
      invariant i <= |chunks| && fresh(protocol) && fresh(protocol.lenBuff) && protocol.Valid()
      invariant Parse(Flatten(chunks[..i])) == Scan(protocol.delivered, protocol.Pending(), true)
    {
      PrefixParses(chunks, i + 1);
      ghost var before := Flatten(chunks[..i]);
      assert chunks[..i + 1][..i] == chunks[..i];
      ParseInPieces(before, chunks[i]);
      var ok := protocol.DataReceived(chunks[i]);
      i := i + 1;
    }
  }

  /** No piece of a well-formed stream fails. */
  lemma {:induction false} PrefixParses(chunks: seq<seq<Byte>>, i: nat)
    requires i <= |chunks| && Parse(Flatten(chunks)).ok
    ensures Parse(Flatten(chunks[..i])).ok
    decreases |chunks| - i
  {
    if i == |chunks| {
      assert chunks[..i] == chunks;
    } else {
      PrefixParses(chunks, i + 1);
      assert chunks[..i + 1][..i] == chunks[..i];
      PrefixOk(Flatten(chunks[..i]), chunks[i]);
    }
  }

  lemma {:induction false} PrefixOk(a: seq<Byte>, b: seq<Byte>)
    requires Parse(a + b).ok
    ensures Parse(a).ok
    decreases |a|
  {
    if HasFrame(a) {
      FrameStays(a, b);
      PrefixOk(a[FrameEnd(a)..], b);
    }
  }
}
