/** The client's own sender and receiver of messages, which speak the same encoding. */
module ClientFraming {
  import opened Framing

  // --- Numbers ---------------------------------------------------------------------------------

  lemma DivideTwice(x: nat, p: int)
    requires p > 0
    ensures x / 256 / p == x / (256 * p)
  {
    var q, r := x / 256, x % 256;
    var a, b := q / p, q % p;
    assert x == 256 * (p * a + b) + r;
    assert 256 * (p * a + b) + r == (256 * p) * a + (256 * b + r);
    assert 0 <= 256 * b + r < 256 * p;
    QuotientOf(x, 256 * p, a, 256 * b + r);
  }

  lemma QuotientOf(x: int, d: int, q: int, r: int)
    requires d > 0 && x == d * q + r && 0 <= r < d
    ensures x / d == q
  {
    var q', r' := x / d, x % d;
    assert x == d * q' + r';
    Multiple(d, q - q', r' - r);
  }

  lemma RemainderOf(x: int, d: int, q: int, r: int)
    requires d > 0 && x == d * q + r && 0 <= r < d
    ensures x % d == r
  {
    QuotientOf(x, d, q, r);
  }

  lemma Multiple(d: int, k: int, r: int)
    requires d > 0 && d * k == r && -d < r < d
    ensures k == 0
  {
    AtLeast(d, k);
  }

  lemma AtLeast(d: int, k: int)
    requires d > 0
    ensures k >= 1 ==> d * k >= d
    ensures k <= -1 ==> d * k <= -d
  {
    if k >= 1 {
      assert d * k == d + d * (k - 1);
      assert d * (k - 1) >= 0;
    } else if k <= -1 {
      assert d * k == -d + d * (k + 1);
      assert d * (k + 1) <= 0;
    }
  }

  /** The byte at place `k` is what a shift by the places behind it leaves. */
  lemma {:induction false} BigEndianAt(x: nat, n: nat, k: nat)
    requires k < n
    ensures BigEndian(x, n)[k] == x / Power(n - 1 - k) % 256
  {
    if k < n - 1 {
      BigEndianAt(x / 256, n - 1, k);
      DivideTwice(x, Power(n - 2 - k));
    }
  }

  lemma {:induction false} BigEndianValue(bytes: seq<Byte>)
    ensures BigEndian(Value(bytes), |bytes|) == bytes
  {
    if bytes != [] {
      var front := bytes[..|bytes| - 1];
      BigEndianValue(front);
      assert Value(bytes) / 256 == Value(front);
      assert front + [bytes[|bytes| - 1]] == bytes;
    }
  }

  method ToByteArray(val: nat, result: array<Byte>)
    modifies result
    ensures result[..] == BigEndian(val, result.Length)
  {
    var x := 0;
    while x < result.Length
      invariant x <= result.Length
      invariant forall k :: 0 <= k < x ==> result[k] == BigEndian(val, result.Length)[k]
    {
      var index := result.Length - x - 1;
      BigEndianAt(val, result.Length, x);
      result[x] := val / Power(index) % 256;
      x := x + 1;
    }
  }

  lemma ShiftFits(v: nat, x: nat, len: nat)
    requires x < len && v < Power(x)
    ensures v * 256 % Power(len) == v * 256
  {
    PowerGrows(x + 1, len);
    assert Power(x + 1) == 256 * Power(x);
    SmallRemainder(v * 256, Power(len));
  }

  lemma SmallRemainder(a: int, p: int)
    requires 0 <= a < p
    ensures a % p == a
  {
  }

  /** The shifts do not lose anything: the number fits its type throughout. */
  method FromByteArray(value: seq<Byte>, len: nat) returns (result: nat)
    requires 0 < len <= |value|
    ensures result == Value(value[..len]) < Power(len)
  {
    result := value[0];
    var x := 1;
    assert value[..1][..0] == [];
    while x < len
      invariant 1 <= x <= len
      invariant result == Value(value[..x]) < Power(x)
    {
      assert value[..x + 1][..x] == value[..x];
      ShiftFits(result, x, len);
      result := result * 256 % Power(len);
      result := result + value[x];
      ValueBound(value[..x + 1]);
      x := x + 1;
    }
  }

  lemma {:induction false} PowerGrows(a: nat, b: nat)
    requires a <= b
    ensures Power(a) <= Power(b)
    decreases b
  {
    if a < b {
      PowerGrows(a, b - 1);
    }
  }

  // --- The sender --------------------------------------------------------------------------------

  function Joined(buffers: seq<seq<Byte>>): seq<Byte> {
    if buffers == [] then [] else Joined(buffers[..|buffers| - 1]) + buffers[|buffers| - 1]
  }

  lemma JoinedPush(buffers: seq<seq<Byte>>, b: seq<Byte>)
    ensures Joined(buffers + [b]) == Joined(buffers) + b
  {
    assert (buffers + [b])[..|buffers|] == buffers;
  }

  lemma {:induction false} PartsPush(msg: Message, part: seq<Byte>)
    ensures PartsLength(msg + [part]) == PartsLength(msg) + 4 + |part|
    ensures EncodeParts(msg + [part]) == EncodeParts(msg) + (BigEndian(|part|, 4) + part)
  {
    if msg == [] {
      assert [part][1..] == [];
      assert EncodeParts([]) == [] && PartsLength([]) == 0;
    } else {
      assert (msg + [part])[1..] == msg[1..] + [part];
      PartsPush(msg[1..], part);
    }
  }

  /** What is sent for any list of parts: the total and the count wrap around. */
  function EncodeWrapped(msg: Message): seq<Byte> {
    BigEndian((2 + PartsLength(msg)) % Power(4), 4) + (BigEndian(|msg| % Power(2), 2) + EncodeParts(msg))
  }

  lemma FittingIsNotWrapped(msg: Message)
    requires Fits(msg)
    ensures EncodeWrapped(msg) == Encode(msg)
  {
    assert (2 + PartsLength(msg)) % Power(4) == 2 + PartsLength(msg) && |msg| % Power(2) == |msg|;
  }

  lemma Associate(a: seq<Byte>, b: seq<Byte>, c: seq<Byte>)
    ensures (a + b) + c == a + (b + c)
    ensures c == [] ==> (a + b) + c == a + b
  {
  }

  class MsgSender {
    var totalLength: nat
    var partCount: nat
    var buffers: seq<seq<Byte>>
    ghost var parts: Message

    ghost predicate Valid()
      reads this
    {
      && totalLength == (2 + PartsLength(parts)) % Power(4) && partCount == |parts| % Power(2)
      && Joined(buffers) == EncodeParts(parts)
    }

    constructor ()
      ensures Valid() && parts == []
    {
      FourBytes();
      totalLength, partCount, buffers, parts := 2, 0, [], [];
    }

    method AddBuffer(bytes: seq<Byte>)
      modifies this`buffers
      ensures Joined(buffers) == Joined(old(buffers)) + bytes
    {
      JoinedPush(buffers, bytes);
      buffers := buffers + [bytes];
    }

    method AddBuffers(part: seq<Byte>)
      modifies this`buffers
      ensures Joined(buffers) == Joined(old(buffers)) + (BigEndian(|part|, 4) + part)
    {
      ghost var before := Joined(buffers);
      var ar := new Byte[4](_ => 0);
      ToByteArray(|part|, ar);
      AddBuffer(ar[..]);
      if |part| != 0 {
        AddBuffer(part);
      }
      Associate(before, BigEndian(|part|, 4), part);
    }

    /** A part larger than its length field would be announced wrongly. */
    method AddPart(part: seq<Byte>)
      requires Valid() && |part| < Power(4)
      modifies this
      ensures Valid() && parts == old(parts) + [part]
    {
      PartsPush(parts, part);
      AddModulo(2 + PartsLength(parts), 4 + |part|, Power(4));
      AddModulo(|parts|, 1, Power(2));
      AddBuffers(part);
      totalLength := (totalLength + (4 + |part|)) % Power(4);
      partCount := (partCount + 1) % Power(2);
      parts := parts + [part];
    }

    /** The message goes out in the common encoding, and the next one starts empty. */
    method Send() returns (bytes: seq<Byte>)
      requires Valid()
      modifies this
      ensures bytes == EncodeWrapped(old(parts)) && (Fits(old(parts)) ==> bytes == Encode(old(parts)))
      ensures Valid() && parts == []
    {
      var totalLengthBuffer := new Byte[4](_ => 0);
      var partCountBuffer := new Byte[2](_ => 0);
      ToByteArray(totalLength, totalLengthBuffer);
      ToByteArray(partCount, partCountBuffer);
      bytes := totalLengthBuffer[..] + (partCountBuffer[..] + Joined(buffers));
      if Fits(parts) {
        FittingIsNotWrapped(parts);
      }
      FourBytes();
      totalLength, partCount, buffers, parts := 2, 0, [], [];
    }
  }

  lemma AddModulo(a: nat, b: nat, m: int)
    requires m > 0
    ensures (a % m + b) % m == (a + b) % m
  {
    var k := a / m;
    assert a + b == (a % m + b) + m * k;
    var x := a % m + b;
    QuotientOf(a + b, m, x / m + k, x % m);
  }

  // --- The receiver ------------------------------------------------------------------------------

  /** The parts in a buffer that they must fill exactly. */
  function ReceiveParts(buf: seq<Byte>): Option<Message>
    decreases |buf|
  {
    if buf == [] then Some([])
    else if |buf| < 4 || 4 + Value(buf[..4]) > |buf| then None
    else
      var end := 4 + Value(buf[..4]);
      match ReceiveParts(buf[end..])
      case None => None
      case Some(rest) => Some([buf[4..end]] + rest)
  }

  /** Exactly the encodings of parts are accepted, and give those parts back. */
  lemma {:induction false} ReceivesEncoded(msg: Message)
    requires forall i :: 0 <= i < |msg| ==> |msg[i]| < Power(4)
    ensures ReceiveParts(EncodeParts(msg)) == Some(msg)
  {
    if msg != [] {
      var head, buf := BigEndian(|msg[0]|, 4), EncodeParts(msg);
      ValueBigEndian(|msg[0]|, 4);
      assert buf == head + (msg[0] + EncodeParts(msg[1..]));
      assert buf[..4] == head && buf[4..4 + |msg[0]|] == msg[0] && buf[4 + |msg[0]|..] == EncodeParts(msg[1..]);
      ReceivesEncoded(msg[1..]);
      assert [msg[0]] + msg[1..] == msg;
    }
  }

  lemma {:induction false} ReceivedIsEncoded(buf: seq<Byte>)
    requires ReceiveParts(buf).Some?
    ensures EncodeParts(ReceiveParts(buf).value) == buf
    decreases |buf|
  {
    if buf != [] {
      var end := 4 + Value(buf[..4]);
      var rest := ReceiveParts(buf[end..]).value;
      ReceivedIsEncoded(buf[end..]);
      BigEndianValue(buf[..4]);
      EncodeCons(buf[4..end], rest);
      InParts(buf, end);
    }
  }

  lemma EncodeCons(part: seq<Byte>, rest: Message)
    ensures EncodeParts([part] + rest) == BigEndian(|part|, 4) + part + EncodeParts(rest)
  {
    assert ([part] + rest)[1..] == rest;
  }

  lemma InParts(buf: seq<Byte>, end: nat)
    requires 4 <= end <= |buf|
    ensures buf[..4] + buf[4..end] + buf[end..] == buf
  {
  }

  function TotalSize(stream: seq<Byte>): nat
    requires |stream| >= 6
  {
    (Value(stream[..4]) - 2) % Power(4)
  }

  function Received(stream: seq<Byte>): Option<Message> {
    if |stream| < 6 || |stream| < 6 + TotalSize(stream) then None
    else
      match ReceiveParts(stream[6..6 + TotalSize(stream)])
      case None => None
      case Some(msg) => if |msg| == Value(stream[4..6]) then Some(msg) else None
  }

  /** The stream starts with the encoding of the message. */
  predicate Encodes(msg: Message, stream: seq<Byte>) {
    PartsLength(msg) < Power(4) && |msg| < Power(2) && EncodeWrapped(msg) <= stream
  }

  lemma {:induction false} PartsBound(msg: Message, i: nat)
    requires i < |msg|
    ensures |msg[i]| <= PartsLength(msg)
  {
    if i > 0 {
      PartsBound(msg[1..], i - 1);
    }
  }

  lemma TotalMinusTwo(n: nat, p: int)
    requires n < p && p > 2
    ensures ((2 + n) % p - 2) % p == n
  {
    if 2 + n >= p {
      RemainderOf(2 + n, p, 1, 2 + n - p);
      RemainderOf(n - p, p, -1, n);
    } else {
      RemainderOf(2 + n, p, 0, 2 + n);
      RemainderOf(n, p, 0, n);
    }
  }

  predicate InThreeParts(s: seq<Byte>, a: seq<Byte>, b: seq<Byte>, c: seq<Byte>) {
    |a| == 4 && |b| == 2 && |s| >= 6 + |c| && s[..4] == a && s[4..6] == b && s[6..6 + |c|] == c
  }

  lemma PrefixInThree(a: seq<Byte>, b: seq<Byte>, c: seq<Byte>, whole: seq<Byte>, s: seq<Byte>)
    requires |a| == 4 && |b| == 2 && whole == a + (b + c) && whole <= s
    ensures InThreeParts(s, a, b, c)
  {
    assert s[..4] == whole[..4] && s[4..6] == whole[4..6] && s[6..6 + |c|] == whole[6..6 + |c|];
  }

  lemma WrappedParts(msg: Message, a: seq<Byte>, b: seq<Byte>)
    requires |msg| < Power(2) && a == BigEndian((2 + PartsLength(msg)) % Power(4), 4) && b == BigEndian(|msg|, 2)
    ensures EncodeWrapped(msg) == a + (b + EncodeParts(msg))
  {
    SmallRemainder(|msg|, Power(2));
  }

  lemma ReceivedInThree(msg: Message, stream: seq<Byte>, a: seq<Byte>, b: seq<Byte>, c: seq<Byte>)
    requires InThreeParts(stream, a, b, c) && (Value(a) - 2) % Power(4) == |c|
    requires Value(b) == |msg| && ReceiveParts(c) == Some(msg)
    ensures Received(stream) == Some(msg)
  {
  }

  lemma EncodedIsReceived(msg: Message, stream: seq<Byte>)
    requires Encodes(msg, stream)
    ensures Received(stream) == Some(msg)
  {
    var total := (2 + PartsLength(msg)) % Power(4);
    var a, b := BigEndian(total, 4), BigEndian(|msg|, 2);
    WrappedParts(msg, a, b);
    PrefixInThree(a, b, EncodeParts(msg), EncodeWrapped(msg), stream);
    ValueBigEndian(total, 4);
    ValueBigEndian(|msg|, 2);
    FourBytes();
    TotalMinusTwo(PartsLength(msg), Power(4));
    PartsReceived(msg);
    ReceivedInThree(msg, stream, a, b, EncodeParts(msg));
  }

  lemma PartsReceived(msg: Message)
    requires PartsLength(msg) < Power(4)
    ensures ReceiveParts(EncodeParts(msg)) == Some(msg)
  {
    forall i | 0 <= i < |msg|
      ensures |msg[i]| < Power(4)
    {
      PartsBound(msg, i);
    }
    ReceivesEncoded(msg);
  }

  lemma ReceivedIsEncodedMessage(stream: seq<Byte>)
    requires Received(stream).Some?
    ensures Encodes(Received(stream).value, stream)
  {
    var msg, n := Received(stream).value, TotalSize(stream);
    var a, b, c := stream[..4], stream[4..6], stream[6..6 + n];
    ReceivedIsEncoded(c);
    ReceivedHeader(stream, n, |msg|);
    WrappedParts(msg, a, b);
    InThree(stream, n);
  }

  lemma InThree(stream: seq<Byte>, n: nat)
    requires 6 + n <= |stream|
    ensures stream[..4] + (stream[4..6] + stream[6..6 + n]) == stream[..6 + n]
  {
  }

  lemma ReceivedHeader(stream: seq<Byte>, n: nat, count: nat)
    requires |stream| >= 6 && n == TotalSize(stream) && count == Value(stream[4..6])
    ensures BigEndian((2 + n) % Power(4), 4) == stream[..4] && BigEndian(count, 2) == stream[4..6]
    ensures n < Power(4) && count < Power(2)
  {
    FourBytes();
    ValueBound(stream[..4]);
    ValueBound(stream[4..6]);
    BigEndianValue(stream[..4]);
    BigEndianValue(stream[4..6]);
    TotalBack(Value(stream[..4]), Power(4));
  }

  lemma TotalBack(v: nat, p: int)
    requires v < p && p > 2
    ensures (2 + (v - 2) % p) % p == v
  {
    if v < 2 {
      RemainderOf(v - 2, p, -1, v - 2 + p);
      RemainderOf(v + p, p, 1, v);
    } else {
      RemainderOf(v - 2, p, 0, v - 2);
      RemainderOf(v, p, 0, v);
    }
  }

  /** The receiver accepts a stream exactly if it starts with the encoding of a message, and
      then has that message; so it undoes the sender, and two messages never look alike. */
  lemma ReceivedExactly(stream: seq<Byte>, msg: Message)
    ensures Received(stream) == Some(msg) <==> Encodes(msg, stream)
  {
    if Received(stream).Some? {
      ReceivedIsEncodedMessage(stream);
    }
    if Encodes(msg, stream) {
      EncodedIsReceived(msg, stream);
    }
  }

  /** Client and servers understand each other: both read a message of the other side. */
  lemma BothReadTheSame(msg: Message, more: seq<Byte>)
    requires Fits(msg)
    ensures Received(Encode(msg) + more) == Some(msg)
    ensures Parse(Encode(msg) + more) == After([msg], Parse(more))
  {
    FittingIsNotWrapped(msg);
    ReceivedExactly(Encode(msg) + more, msg);
    ParseEncoded(msg, more);
  }

  /** With `parts` split off, `left` is still to be split. */
  predicate Splits(goal: Option<Message>, parts: Message, left: seq<Byte>) {
    match ReceiveParts(left)
    case None => goal == None
    case Some(rest) => goal == Some(parts + rest)
  }

  lemma SplitStep(goal: Option<Message>, parts: Message, left: seq<Byte>)
    requires Splits(goal, parts, left) && |left| >= 4 && 4 + Value(left[..4]) <= |left|
    ensures var end := 4 + Value(left[..4]); Splits(goal, parts + [left[4..end]], left[end..])
  {
    var end := 4 + Value(left[..4]);
    var rest := ReceiveParts(left[end..]);
    if rest.Some? {
      assert parts + ([left[4..end]] + rest.value) == (parts + [left[4..end]]) + rest.value;
    }
  }

  class MsgReceiver {
    var parts: Message

    constructor () {
      parts := [];
    }

    method SplitParts(buf: seq<Byte>) returns (ok: bool)
      modifies this
      ensures ok == ReceiveParts(buf).Some? && (ok ==> parts == ReceiveParts(buf).value)
    {
      parts := [];
      var offset := 0;
      assert buf[0..] == buf;
      ghost var goal := ReceiveParts(buf);
      assert goal.Some? ==> parts + goal.value == goal.value;
      while offset < |buf|
        invariant offset <= |buf|
        invariant Splits(goal, parts, buf[offset..])
      {
        var left := buf[offset..];
        if |left| < 4 {
          return false;
        }
        var partLen := FromByteArray(left, 4);
        if 4 + partLen > |left| {
          return false;
        }
        SplitStep(goal, parts, left);
        assert left[4 + partLen..] == buf[offset + (4 + partLen)..];
        parts := parts + [left[4..4 + partLen]];
        offset := offset + (4 + partLen);
      }
      assert parts + [] == parts;
      return true;
    }

    /** `stream` is what can be read. */
    method GetMessage(stream: seq<Byte>) returns (ok: bool, used: nat)
      modifies this
      ensures ok == Received(stream).Some?
      ensures ok ==> parts == Received(stream).value && used == 6 + TotalSize(stream)
    {
      parts := [];
      used := 0;
      if |stream| < 6 {
        return false, 0;
      }
      FourBytes();
      var total := FromByteArray(stream[..4], 4);
      var totalSize := (total - 2) % Power(4);
      var partCount := FromByteArray(stream[4..6], 2);
      assert stream[..4][..4] == stream[..4] && stream[4..6][..2] == stream[4..6];
      if |stream| < 6 + totalSize {
        return false, 0;
      }
      used := 6 + totalSize;
      ok := SplitParts(stream[6..used]);
      ok := ok && |parts| == partCount;
    }
  }
}
