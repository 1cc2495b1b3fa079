/**
 * The WebSocket framing of examples/home_assistant/hampws.py: frames sent by
 * the client (FIN set, always masked, three length tiers), the receiver's
 * header parsing and unmasking, control-frame handling, the message id
 * counter and the host name parsing.
 *
 * The socket is a pair of byte streams: `inbox` holds what the server has sent
 * and not yet been read, `outbox` everything the client has written.  The
 * random masking key is a parameter.
 */
module WebSocket {
  import opened Wrappers
  import opened Bits

  /** 2^64: struct.pack('>Q') accepts lengths below this. */
  const MAX_PAYLOAD: nat := 0x1_0000_0000_0000_0000

  const OP_TEXT: Opcode := 0x1
  const OP_CLOSE: Opcode := 0x8
  const OP_PING: Opcode := 0x9
  const OP_PONG: Opcode := 0xA

  // ---------------------------------------------------------------------------
  // Bytes and big-endian integers (struct formats '>H' and '>Q').
  // ---------------------------------------------------------------------------

  /** A byte as Python sees it: an int in 0..255. */
  type Byte = b: int | 0 <= b < 256

  /** The 4-bit opcode field. */
  type Opcode = op: int | 0 <= op < 16

  function Pow256(k: nat): (r: nat)
    ensures r > 0
  {
    if k == 0 then 1 else 256 * Pow256(k - 1)
  }

  /** The low `k` bytes of `n`, most significant first. */
  function BigEndian(n: nat, k: nat): (r: seq<Byte>)
    ensures |r| == k
  {
    if k == 0 then [] else BigEndian(n / 256, k - 1) + [n % 256]
  }

  /** The unsigned integer whose big-endian bytes are `s`. */
  function FromBigEndian(s: seq<Byte>): (r: nat)
    ensures r < Pow256(|s|)
  {
    if |s| == 0 then 0
    else 256 * FromBigEndian(s[..|s| - 1]) + s[|s| - 1]
  }

  lemma {:induction false} BigEndianRoundTrip(n: nat, k: nat)
    requires n < Pow256(k)
    ensures FromBigEndian(BigEndian(n, k)) == n
  {
    if k > 0 {
      var r := BigEndian(n, k);
      var q := n / 256;
      DivBound(n, Pow256(k - 1));
      BigEndianRoundTrip(q, k - 1);
      assert r[..k - 1] == BigEndian(q, k - 1);
      assert r[k - 1] == n % 256;
      assert FromBigEndian(r) == 256 * q + n % 256;
    }
  }

  lemma DivBound(n: nat, p: nat)
    requires n < 256 * p
    ensures n / 256 < p
  {}

  // ---------------------------------------------------------------------------
  // Masking (section 5.3 of RFC 6455).
  // ---------------------------------------------------------------------------

  /** `a ^ b` on bytes. */
  function Xor(a: Byte, b: Byte): Byte
  {
    XorBitsBound(a, b, 8);
    assert Pow2(8) == 256;
    XorBits(a, b, 8)
  }

  lemma XorTwice(x: Byte, k: Byte)
    ensures Xor(Xor(x, k), k) == x
  {
    assert Pow2(8) == 256;
    XorBitsTwice(x, k, 8);
  }

  /** Byte i XOR-ed with key byte i mod 4. */
  function Mask(data: seq<Byte>, key: seq<Byte>): (r: seq<Byte>)
    requires |key| == 4
    ensures |r| == |data|
    ensures forall i :: 0 <= i < |data| ==> r[i] == Xor(data[i], key[i % 4])
  {
    seq(|data|, i requires 0 <= i < |data| => Xor(data[i], key[i % 4]))
  }

  /** Unmasking with the same key gives the original bytes back. */
  lemma MaskInvolution(data: seq<Byte>, key: seq<Byte>)
    requires |key| == 4
    ensures Mask(Mask(data, key), key) == data
  {
    var m := Mask(Mask(data, key), key);
    forall i | 0 <= i < |data|
      ensures m[i] == data[i]
    {
      XorTwice(data[i], key[i % 4]);
    }
  }

  // ---------------------------------------------------------------------------
  // Sending (_send_frame).  `0x80 | x` for x below 0x80 is 0x80 + x.
  // ---------------------------------------------------------------------------

  /** The payload length and its mask bit, in the shortest of three tiers. */
  function LengthField(n: nat): (r: seq<Byte>)
    requires n < MAX_PAYLOAD
    ensures |r| == (if n < 126 then 1 else if n < 65536 then 3 else 9)
  {
    if n < 126 then [0x80 + n]
    else if n < 65536 then [0x80 + 126] + BigEndian(n, 2)
    else [0x80 + 127] + BigEndian(n, 8)
  }

  /** The frame _send_frame writes: FIN and opcode, length, key, masked payload. */
  function EncodeFrame(data: seq<Byte>, opcode: Opcode, key: seq<Byte>): (r: seq<Byte>)
    requires |data| < MAX_PAYLOAD && |key| == 4
    ensures |r| == 1 + |LengthField(|data|)| + 4 + |data|
    ensures HighBit(r[0]) && HighBit(r[1])
    ensures r[1 + |LengthField(|data|)|..][..4] == key
  {
    var f := [0x80 + opcode] + LengthField(|data|) + key + Mask(data, key);
    assert f[1] == LengthField(|data|)[0];
    assert f[1 + |LengthField(|data|)|..][..4] == key;
    f
  }

  /** _send_frame's frame construction, with the masking loop. */
  method BuildFrame(data: seq<Byte>, opcode: Opcode, key: seq<Byte>) returns (frame: seq<Byte>)
    requires |data| < MAX_PAYLOAD && |key| == 4
    ensures frame == EncodeFrame(data, opcode, key)
  {
    var length := |data|;
    frame := [0x80 + opcode];
    if length < 126 {
      frame := frame + [0x80 + length];
    } else if length < 65536 {
      frame := frame + [0x80 + 126];
      frame := frame + BigEndian(length, 2);
    } else {
      frame := frame + [0x80 + 127];
      frame := frame + BigEndian(length, 8);
    }
    assert frame == [0x80 + opcode] + LengthField(length);
    ghost var header := frame;
    frame := frame + key;
    var masked := new Byte[length];
    for i := 0 to length
      invariant forall k :: 0 <= k < i ==> masked[k] == Xor(data[k], key[k % 4])
    {
      masked[i] := Xor(data[i], key[i % 4]);
    }
    assert masked[..] == Mask(data, key);
    frame := frame + masked[..];
    assert frame == header + key + Mask(data, key);
  }

  // ---------------------------------------------------------------------------
  // Receiving (_recv_frame), as a function of the bytes the server sent.
  // `b & 0x80 == 0x80` is b >= 0x80 and `b & 0x7F`, `b & 0x0F` are b % 128, b % 16.
  // ---------------------------------------------------------------------------

  /** A received frame, payload already unmasked. */
  datatype Frame = Frame(fin: bool, opcode: Opcode, masked: bool, payload: seq<Byte>)

  predicate HighBit(b: Byte)
  {
    b >= 0x80
  }

  /** The 7-bit length in the second header byte. */
  function ShortLength(b: Byte): (n: nat)
    ensures n < 128
  {
    b % 128
  }

  /** The payload length and the index just after the length fields, or None when truncated. */
  function ParseLength(input: seq<Byte>): (r: Option<(nat, nat)>)
    requires |input| >= 2
    ensures r.Some? ==> 2 <= r.value.1 <= |input|
  {
    var short := ShortLength(input[1]);
    if short == 126 then
      if |input| < 4 then None else Some((FromBigEndian(input[2..4]), 4))
    else if short == 127 then
      if |input| < 10 then None else Some((FromBigEndian(input[2..10]), 10))
    else Some((short, 2))
  }

  /**
   * The payload after the length fields, unmasked with the key in front of it
   * when `masked`; None when the key or payload is cut short.
   */
  function TakePayload(t: seq<Byte>, masked: bool, length: nat): (r: Option<seq<Byte>>)
    ensures r.Some? ==> |r.value| == length && KeyLength(masked) + length <= |t|
  {
    var keyEnd := KeyLength(masked);
    if |t| < keyEnd || |t| - keyEnd < length then None
    else
      var raw := t[keyEnd..keyEnd + length];
      Some(if masked then Mask(raw, t[..4]) else raw)
  }

  function KeyLength(masked: bool): nat
  {
    if masked then 4 else 0
  }

  /**
   * One frame read from `input`, with the number of bytes it used; None when
   * the header, extended length, key or payload is cut short.
   */
  function ParseFrame(input: seq<Byte>): (r: Option<(Frame, nat)>)
    ensures r.Some? ==> 2 <= r.value.1 <= |input|
  {
    if |input| < 2 then None
    else
      var fin := HighBit(input[0]);
      var opcode := input[0] % 16;
      var masked := HighBit(input[1]);
      match ParseLength(input)
      case None => None
      case Some((length, at)) =>
        match TakePayload(input[at..], masked, length)
        case None => None
        case Some(payload) => Some((Frame(fin, opcode, masked, payload), at + KeyLength(masked) + length))
  }

  /** The length fields written for `n` read back as `n`, ending where the key starts. */
  lemma LengthRoundTrip(n: nat, rest: seq<Byte>)
    requires n < MAX_PAYLOAD && |rest| >= 4
    ensures var input := [0x80] + LengthField(n) + rest;
      ParseLength(input) == Some((n, 1 + |LengthField(n)|))
  {
    var input := [0x80] + LengthField(n) + rest;
    assert input[1] == LengthField(n)[0];
    if n < 126 {
    } else if n < 65536 {
      assert ShortLength(input[1]) == 126;
      assert input[2..4] == BigEndian(n, 2);
      assert Pow256(2) == 65536;
      BigEndianRoundTrip(n, 2);
    } else {
      assert ShortLength(input[1]) == 127;
      assert input[2..10] == BigEndian(n, 8);
      assert Pow256(8) == MAX_PAYLOAD;
      BigEndianRoundTrip(n, 8);
    }
  }

  /**
   * The receiver reads back what the sender wrote: FIN, the opcode, the mask
   * bit and the original payload, using exactly the frame's bytes.
   */
  lemma FrameRoundTrip(data: seq<Byte>, opcode: Opcode, key: seq<Byte>, rest: seq<Byte>)
    requires |data| < MAX_PAYLOAD && |key| == 4
    ensures var f := EncodeFrame(data, opcode, key);
      ParseFrame(f + rest) == Some((Frame(true, opcode, true, data), |f|))
  {
    var lf := LengthField(|data|);
    var tail := key + Mask(data, key) + rest;
    var first: Byte := 0x80 + opcode;
    FrameSplit(data, opcode, key, rest);
    LengthAfter(first, |data|, tail);
    PayloadRoundTrip(data, key, rest);
    ParseAssembled(first, lf, tail, |data|, data);
  }

  /** A sent frame followed by more bytes: first byte, length fields, then key, payload and the rest. */
  lemma FrameSplit(data: seq<Byte>, opcode: Opcode, key: seq<Byte>, rest: seq<Byte>)
    requires |data| < MAX_PAYLOAD && |key| == 4
    ensures var lf := LengthField(|data|);
      EncodeFrame(data, opcode, key) + rest == [0x80 + opcode] + lf + (key + Mask(data, key) + rest) &&
      |EncodeFrame(data, opcode, key)| == 1 + |lf| + 4 + |data| && HighBit(lf[0])
  {
    var lf := LengthField(|data|);
    var head: seq<Byte> := [0x80 + opcode] + lf;
    var m := Mask(data, key);
    assert EncodeFrame(data, opcode, key) == head + key + m;
    Assoc(head, key, m);
    Assoc(head, key + m, rest);
    Assoc(key, m, rest);
  }

  /** The length fields read back whatever the first byte is. */
  lemma LengthAfter(first: Byte, n: nat, tail: seq<Byte>)
    requires n < MAX_PAYLOAD && |tail| >= 4
    ensures ParseLength([first] + LengthField(n) + tail) == Some((n, 1 + |LengthField(n)|))
  {
    LengthRoundTrip(n, tail);
    ParseLengthTail([first] + LengthField(n) + tail, [0x80] + LengthField(n) + tail);
  }

  /** A frame assembled from a first byte, masked length fields and the key and payload after them. */
  lemma ParseAssembled(first: Byte, lf: seq<Byte>, tail: seq<Byte>, n: nat, payload: seq<Byte>)
    requires |lf| >= 1 && HighBit(lf[0])
    requires ParseLength([first] + lf + tail) == Some((n, 1 + |lf|))
    requires TakePayload(tail, true, n) == Some(payload)
    ensures ParseFrame([first] + lf + tail) ==
      Some((Frame(HighBit(first), first % 16, true, payload), 1 + |lf| + 4 + n))
  {
    var input := [first] + lf + tail;
    assert input[1] == lf[0];
    assert input[1 + |lf|..] == tail;
  }

  /** ParseFrame step by step, as the receiver reads it. */
  lemma ParseFrameSteps(input: seq<Byte>)
    ensures |input| < 2 ==> ParseFrame(input) == None
    ensures |input| >= 2 && ParseLength(input).None? ==> ParseFrame(input) == None
    ensures |input| >= 2 && ParseLength(input).Some? ==>
      var (length, at) := ParseLength(input).value;
      var masked := HighBit(input[1]);
      var p := TakePayload(input[at..], masked, length);
      ParseFrame(input) ==
        if p.None? then None
        else Some((Frame(HighBit(input[0]), input[0] % 16, masked, p.value), at + KeyLength(masked) + length))
  {}

  /** The key and masked payload read back as the original payload. */
  lemma PayloadRoundTrip(data: seq<Byte>, key: seq<Byte>, rest: seq<Byte>)
    requires |key| == 4
    ensures TakePayload(key + Mask(data, key) + rest, true, |data|) == Some(data)
  {
    var t := key + Mask(data, key) + rest;
    assert t[..4] == key && t[4..4 + |data|] == Mask(data, key);
    MaskInvolution(data, key);
  }

  /** ParseLength does not look at byte 0. */
  lemma ParseLengthTail(a: seq<Byte>, b: seq<Byte>)
    requires |a| >= 2 && |b| >= 2 && a[1..] == b[1..]
    ensures ParseLength(a) == ParseLength(b)
  {
    assert a[1] == b[1];
    if |a| >= 4 { assert a[2..4] == b[2..4]; }
    if |a| >= 10 { assert a[2..10] == b[2..10]; }
  }

  /** The length fields a server writes: those of LengthField with the mask bit clear. */
  function ServerLengthField(n: nat): (r: seq<Byte>)
    requires n < MAX_PAYLOAD
    ensures |r| == |LengthField(n)| && !HighBit(r[0])
  {
    if n < 126 then [n]
    else if n < 65536 then [126] + BigEndian(n, 2)
    else [127] + BigEndian(n, 8)
  }

  /**
   * A frame as the server sends it (section 5.1 of RFC 6455): FIN and the
   * opcode, the length with the mask bit clear, no key, the payload as is.
   */
  function ServerFrame(data: seq<Byte>, opcode: Opcode): (r: seq<Byte>)
    requires |data| < MAX_PAYLOAD
    ensures |r| == 1 + |ServerLengthField(|data|)| + |data|
    ensures HighBit(r[0]) && !HighBit(r[1])
  {
    var f := [0x80 + opcode] + ServerLengthField(|data|) + data;
    assert f[1] == ServerLengthField(|data|)[0];
    f
  }

  /** A server's length fields read back, whatever the first byte is. */
  lemma ServerLengthRoundTrip(first: Byte, n: nat, tail: seq<Byte>)
    requires n < MAX_PAYLOAD
    ensures ParseLength([first] + ServerLengthField(n) + tail) == Some((n, 1 + |ServerLengthField(n)|))
  {
    var lf := ServerLengthField(n);
    var input := [first] + lf + tail;
    assert input[1] == lf[0];
    if n < 126 {
    } else if n < 65536 {
      assert ShortLength(input[1]) == 126;
      assert input[2..4] == BigEndian(n, 2);
      assert Pow256(2) == 65536;
      BigEndianRoundTrip(n, 2);
    } else {
      assert ShortLength(input[1]) == 127;
      assert input[2..10] == BigEndian(n, 8);
      assert Pow256(8) == MAX_PAYLOAD;
      BigEndianRoundTrip(n, 8);
    }
  }

  /**
   * The client reads back what a server wrote: FIN, the opcode, the mask bit
   * clear and the payload, using exactly the frame's bytes.
   */
  lemma ServerFrameRoundTrip(data: seq<Byte>, opcode: Opcode, rest: seq<Byte>)
    requires |data| < MAX_PAYLOAD
    ensures var f := ServerFrame(data, opcode);
      ParseFrame(f + rest) == Some((Frame(true, opcode, false, data), |f|))
  {
    var lf := ServerLengthField(|data|);
    var first: Byte := 0x80 + opcode;
    var tail := data + rest;
    var input := ServerFrame(data, opcode) + rest;
    assert input == [first] + lf + tail;
    ServerLengthRoundTrip(first, |data|, tail);
    assert input[1] == lf[0];
    assert input[1 + |lf|..] == tail;
    assert tail[0..|data|] == data;
    assert TakePayload(tail, false, |data|) == Some(data);
  }

  /** A frame on the wire: masked with the key as the client sends it, or unmasked as a server sends it. */
  function Sent(data: seq<Byte>, opcode: Opcode, key: Option<seq<Byte>>): seq<Byte>
    requires |data| < MAX_PAYLOAD && (key.Some? ==> |key.value| == 4)
  {
    if key.Some? then EncodeFrame(data, opcode, key.value) else ServerFrame(data, opcode)
  }

  /** Either kind of frame parses back to its opcode and payload, consuming exactly the frame. */
  lemma SentRoundTrip(data: seq<Byte>, opcode: Opcode, key: Option<seq<Byte>>, rest: seq<Byte>)
    requires |data| < MAX_PAYLOAD && (key.Some? ==> |key.value| == 4)
    ensures var f := Sent(data, opcode, key);
      ParseFrame(f + rest) == Some((Frame(true, opcode, key.Some?, data), |f|)) &&
      (f + rest)[|f|..] == rest
  {
    if key.Some? {
      FrameRoundTrip(data, opcode, key.value, rest);
    } else {
      ServerFrameRoundTrip(data, opcode, rest);
    }
  }

  /** What one _recv_frame call delivers, and what it leaves and sends. */
  datatype Delivery = Delivery(message: Option<seq<Byte>>, rest: seq<Byte>, pongs: seq<seq<Byte>>, closed: bool)

  /**
   * _recv_frame over the unread bytes `inbox`: pings are answered with a pong
   * carrying the same payload and skipped, like pongs; a close frame ends the
   * connection; a data frame's payload is the result.
   */
  function Deliver(inbox: seq<Byte>, blocking: bool): (d: Delivery)
    ensures forall p :: p in d.pongs ==> |p| < MAX_PAYLOAD
    decreases |inbox|
  {
    if !blocking && |inbox| == 0 then Delivery(None, inbox, [], false)
    else match ParseFrame(inbox)
      case None => Delivery(None, [], [], false)
      case Some((frame, used)) =>
        PayloadFits(inbox);
        if frame.opcode == OP_CLOSE then Delivery(None, inbox[used..], [], true)
        else if frame.opcode == OP_PING then
          var d := Deliver(inbox[used..], blocking);
          d.(pongs := [frame.payload] + d.pongs)
        else if frame.opcode == OP_PONG then Deliver(inbox[used..], blocking)
        else Delivery(Some(frame.payload), inbox[used..], [], false)
  }

  /**
   * A receive from inbox hands back a non-empty message: the `if response:`
   * the request methods test before decoding the reply.
   */
  predicate Answered(inbox: seq<Byte>, blocking: bool)
  {
    var m := Deliver(inbox, blocking).message;
    m.Some? && |m.value| > 0
  }

  /**
   * A non-empty text reply at the head of the stream answers a request,
   * blocking or not, whether the frame is masked or not.
   */
  lemma TextAnswers(data: seq<Byte>, key: Option<seq<Byte>>, rest: seq<Byte>, blocking: bool)
    requires 0 < |data| < MAX_PAYLOAD && (key.Some? ==> |key.value| == 4)
    ensures Answered(Sent(data, OP_TEXT, key) + rest, blocking)
  {
    DeliverText(data, key, rest, blocking);
  }

  /** A text frame, masked or not, is delivered with its payload and nothing sent. */
  lemma DeliverText(data: seq<Byte>, key: Option<seq<Byte>>, rest: seq<Byte>, blocking: bool)
    requires |data| < MAX_PAYLOAD && (key.Some? ==> |key.value| == 4)
    ensures Deliver(Sent(data, OP_TEXT, key) + rest, blocking) == Delivery(Some(data), rest, [], false)
  {
    SentRoundTrip(data, OP_TEXT, key, rest);
  }

  /** A ping, masked or not, is answered with a pong of the same payload before the next frame is read. */
  lemma DeliverPing(data: seq<Byte>, key: Option<seq<Byte>>, rest: seq<Byte>, blocking: bool)
    requires |data| < MAX_PAYLOAD && (key.Some? ==> |key.value| == 4)
    ensures var d := Deliver(rest, blocking);
      Deliver(Sent(data, OP_PING, key) + rest, blocking) == d.(pongs := [data] + d.pongs)
  {
    SentRoundTrip(data, OP_PING, key, rest);
  }

  /** A close frame, masked or not, ends the connection: nothing is delivered and the bytes after it stay unread. */
  lemma DeliverClose(key: Option<seq<Byte>>, rest: seq<Byte>, blocking: bool)
    requires key.Some? ==> |key.value| == 4
    ensures Deliver(Sent([], OP_CLOSE, key) + rest, blocking) == Delivery(None, rest, [], true)
  {
    SentRoundTrip([], OP_CLOSE, key, rest);
  }

  /** The frames answering `pongs`, in order. */
  function PongFrames(pongs: seq<seq<Byte>>, key: seq<Byte>): seq<Byte>
    requires |key| == 4 && forall p :: p in pongs ==> |p| < MAX_PAYLOAD
  {
    if |pongs| == 0 then [] else EncodeFrame(pongs[0], OP_PONG, key) + PongFrames(pongs[1..], key)
  }

  /** The pongs for one more ping in front: its frame, then the others. */
  lemma PongFramesCons(p: seq<Byte>, ps: seq<seq<Byte>>, key: seq<Byte>)
    requires |key| == 4 && |p| < MAX_PAYLOAD && forall q :: q in ps ==> |q| < MAX_PAYLOAD
    ensures PongFrames([p] + ps, key) == EncodeFrame(p, OP_PONG, key) + PongFrames(ps, key)
  {
    assert ([p] + ps)[1..] == ps;
  }

  lemma Assoc(a: seq<Byte>, b: seq<Byte>, c: seq<Byte>)
    ensures a + b + c == a + (b + c)
  {}

  /** A parsed payload is no longer than 2^64 - 1. */
  lemma PayloadFits(input: seq<Byte>)
    requires ParseFrame(input).Some?
    ensures |ParseFrame(input).value.0.payload| < MAX_PAYLOAD
  {
    var l := ParseLength(input).value;
    assert Pow256(2) == 65536 && Pow256(8) == MAX_PAYLOAD;
    assert l.0 < MAX_PAYLOAD;
  }

  // ---------------------------------------------------------------------------
  // Host parsing in __init__.
  // ---------------------------------------------------------------------------

  /** str.replace(pat, ''): every non-overlapping occurrence, left to right, removed. */
  function RemoveAll(s: string, pat: string): (r: string)
    requires |pat| > 0
    ensures |r| <= |s|
    decreases |s|
  {
    if |s| < |pat| then s
    else if s[..|pat|] == pat then RemoveAll(s[|pat|..], pat)
    else [s[0]] + RemoveAll(s[1..], pat)
  }

  /** A string that lacks one of the pattern's characters is left alone. */
  lemma {:induction false} RemoveAllFree(s: string, pat: string, k: nat)
    requires k < |pat| && pat[k] !in s
    ensures RemoveAll(s, pat) == s
    decreases |s|
  {
    if |s| >= |pat| {
      assert s[..|pat|][k] == s[k];
      RemoveAllFree(s[1..], pat, k);
      assert s == [s[0]] + s[1..];
    }
  }

  /** str.split(':')[0]: everything before the first colon. */
  function BeforeColon(s: string): (r: string)
    ensures r <= s && ':' !in r
    ensures |r| < |s| ==> s[|r|] == ':'
  {
    if |s| == 0 then ""
    else if s[0] == ':' then ""
    else [s[0]] + BeforeColon(s[1..])
  }

  /** host.replace('http://', '').split(':')[0]. */
  function Host(url: string): (h: string)
    ensures ':' !in h
  {
    BeforeColon(RemoveAll(url, "http://"))
  }

  /** The host of "http://<h>:<port>" is <h>, for any host name (no ':' or '/') and any port without '/'. */
  lemma HostOfUrl(h: string, port: string)
    requires ':' !in h && '/' !in h && '/' !in port
    ensures Host("http://" + h + ":" + port) == h
  {
    var url := "http://" + h + ":" + port;
    var tail := h + ":" + port;
    assert url[..7] == "http://" && url[7..] == tail;
    RemoveAllFree(tail, "http://", 5);
    BeforeColonOf(h, port);
  }

  lemma {:induction false} BeforeColonOf(h: string, port: string)
    requires ':' !in h
    ensures BeforeColon(h + ":" + port) == h
  {
    if |h| > 0 {
      assert (h + ":" + port)[1..] == h[1..] + ":" + port;
      BeforeColonOf(h[1..], port);
    }
  }

  // ---------------------------------------------------------------------------
  // The client object.
  // ---------------------------------------------------------------------------

  class Client {
    const host: string
    const token: string
    var connected: bool
    var authenticated: bool
    var messageId: int
    /** Bytes the server has sent that have not been read. */
    var inbox: seq<Byte>
    /** Every byte the client has written to the socket. */
    var outbox: seq<Byte>

    /** __init__, with the bytes the server will send. */
    constructor (url: string, token: string, incoming: seq<Byte>)
      ensures host == Host(url) && this.token == token
      ensures !connected && !authenticated && messageId == 1
      ensures inbox == incoming && outbox == []
    {
      host := Host(url);
      this.token := token;
      connected := false;
      authenticated := false;
      messageId := 1;
      inbox := incoming;
      outbox := [];
    }

    /** socket.recv(n): up to `n` of the waiting bytes; none once the stream has ended. */
    method Recv(n: nat) returns (chunk: seq<Byte>)
      modifies this
      ensures chunk == old(inbox)[..if n < |old(inbox)| then n else |old(inbox)|]
      ensures inbox == old(inbox)[|chunk|..]
      ensures outbox == old(outbox) && connected == old(connected)
      ensures authenticated == old(authenticated) && messageId == old(messageId)
    {
      var k := if n < |inbox| then n else |inbox|;
      chunk := inbox[..k];
      inbox := inbox[k..];
    }

    /** _send_frame: the frame goes out whole. */
    method SendFrame(data: seq<Byte>, opcode: Opcode, key: seq<Byte>)
      requires |data| < MAX_PAYLOAD && |key| == 4
      modifies this
      ensures outbox == old(outbox) + EncodeFrame(data, opcode, key)
      ensures inbox == old(inbox) && connected == old(connected)
      ensures authenticated == old(authenticated) && messageId == old(messageId)
    {
      var frame := BuildFrame(data, opcode, key);
      outbox := outbox + frame;
    }

    /**
     * _recv_frame: waits for data only when `blocking`, reads one frame, and
     * handles control frames, sending pongs with `pongKey`.
     */
    method RecvFrame(blocking: bool, pongKey: seq<Byte>) returns (r: Option<seq<Byte>>)
      requires |pongKey| == 4
      modifies this
      ensures var d := Deliver(old(inbox), blocking);
        r == d.message && inbox == d.rest &&
        outbox == old(outbox) + PongFrames(d.pongs, pongKey) &&
        connected == (if d.closed then false else old(connected))
      ensures authenticated == old(authenticated) && messageId == old(messageId)
      decreases |inbox|, 0
    {
      ghost var input := inbox;
      if !blocking && |inbox| == 0 {
        return None;
      }
      var frame := ReadFrame();
      if frame.None? {
        return None;
      }
      var payload := frame.value.payload;
      if frame.value.opcode == OP_CLOSE {
        connected := false;
        return None;
      } else if frame.value.opcode == OP_PING {
        PayloadFits(input);
        r := AnswerPing(payload, blocking, pongKey);
        return;
      } else if frame.value.opcode == OP_PONG {
        r := RecvFrame(blocking, pongKey);
        return;
      }
      return Some(payload);
    }

    /** The ping branch of _recv_frame: a pong with the ping's payload, then the next frame. */
    method AnswerPing(payload: seq<Byte>, blocking: bool, pongKey: seq<Byte>) returns (r: Option<seq<Byte>>)
      requires |pongKey| == 4 && |payload| < MAX_PAYLOAD
      modifies this
      ensures var d := Deliver(old(inbox), blocking);
        r == d.message && inbox == d.rest &&
        outbox == old(outbox) + PongFrames([payload] + d.pongs, pongKey) &&
        connected == (if d.closed then false else old(connected))
      ensures authenticated == old(authenticated) && messageId == old(messageId)
      decreases |inbox|, 1
    {
      ghost var sent := outbox;
      ghost var pong := EncodeFrame(payload, OP_PONG, pongKey);
      SendFrame(payload, OP_PONG, pongKey);
      ghost var d := Deliver(inbox, blocking);
      r := RecvFrame(blocking, pongKey);
      ghost var later := PongFrames(d.pongs, pongKey);
      assert outbox == sent + pong + later;
      PongFramesCons(payload, d.pongs, pongKey);
      Assoc(sent, pong, later);
    }

    /**
     * The reading part of _recv_frame: header, extended length, key and
     * payload, piece by piece.  Every way of running out of bytes leaves the
     * stream empty.
     */
    method ReadFrame() returns (f: Option<Frame>)
      modifies this
      ensures ParseFrame(old(inbox)).None? ==> f == None && inbox == []
      ensures ParseFrame(old(inbox)).Some? ==>
        f == Some(ParseFrame(old(inbox)).value.0) && inbox == old(inbox)[ParseFrame(old(inbox)).value.1..]
      ensures outbox == old(outbox) && connected == old(connected)
      ensures authenticated == old(authenticated) && messageId == old(messageId)
    {
      ghost var input := inbox;
      ParseFrameSteps(input);
      var header := Recv(2);
      if |header| < 2 {
        return None;
      }
      assert header == input[..2] && inbox == input[2..];
      var fin := HighBit(header[0]);
      var opcode := header[0] % 16;
      var masked := HighBit(header[1]);
      ParseLengthTail(input, [0] + [header[1]] + input[2..]);
      var length, at := ReadLength(header[1]);
      if at == 0 {
        return None;
      }
      assert ParseLength(input) == Some((length, at)) && inbox == input[at..];
      var payload := ReadPayload(masked, length);
      if payload.None? {
        return None;
      }
      assert inbox == input[at..][KeyLength(masked) + length..] == input[at + KeyLength(masked) + length..];
      return Some(Frame(fin, opcode, masked, payload.value));
    }

    /**
     * The extended payload length, after the two header bytes: the count and
     * the frame offset just past it, or `at` == 0 when the stream ran out.
     */
    method ReadLength(second: Byte) returns (length: nat, at: nat)
      modifies this
      ensures var input := [0] + [second] + old(inbox);
        ParseLength(input).None? ==> at == 0 && inbox == []
      ensures var input := [0] + [second] + old(inbox);
        ParseLength(input).Some? ==> (length, at) == ParseLength(input).value && inbox == input[at..]
      ensures outbox == old(outbox) && connected == old(connected)
      ensures authenticated == old(authenticated) && messageId == old(messageId)
    {
      ghost var input := [0] + [second] + inbox;
      assert input[2..] == inbox;
      length := ShortLength(second);
      at := 2;
      if length == 126 {
        var bytes := Recv(2);
        if |bytes| < 2 {
          return 0, 0;
        }
        assert bytes == input[2..4];
        length := FromBigEndian(bytes);
        at := 4;
      } else if length == 127 {
        var bytes := Recv(8);
        if |bytes| < 8 {
          return 0, 0;
        }
        assert bytes == input[2..10];
        length := FromBigEndian(bytes);
        at := 10;
      }
    }

    /**
     * The key, when `masked`, then the payload loop: chunks of at most 4096
     * bytes until `length` bytes have arrived, unmasked at the end.
     */
    method ReadPayload(masked: bool, length: nat) returns (r: Option<seq<Byte>>)
      modifies this
      ensures r == TakePayload(old(inbox), masked, length)
      ensures r.None? ==> inbox == []
      ensures r.Some? ==> inbox == old(inbox)[KeyLength(masked) + length..]
      ensures outbox == old(outbox) && connected == old(connected)
      ensures authenticated == old(authenticated) && messageId == old(messageId)
    {
      ghost var input := inbox;
      var key: seq<Byte> := [];
      if masked {
        key := Recv(4);
        if |key| < 4 {
          return None;
        }
      }
      assert inbox == input[KeyLength(masked)..];
      var payload := ReadChunks(length);
      if payload.None? {
        return None;
      }
      if masked {
        assert key == input[..4];
        assert payload.value == input[4..4 + length];
        var unmasked := Unmask(payload.value, key);
        return Some(unmasked);
      }
      return payload;
    }

    /** The payload loop: chunks of at most 4096 bytes until `length` bytes have arrived. */
    method ReadChunks(length: nat) returns (r: Option<seq<Byte>>)
      modifies this
      ensures length <= |old(inbox)| ==> r == Some(old(inbox)[..length]) && inbox == old(inbox)[length..]
      ensures length > |old(inbox)| ==> r == None && inbox == []
      ensures outbox == old(outbox) && connected == old(connected)
      ensures authenticated == old(authenticated) && messageId == old(messageId)
    {
      ghost var start := inbox;
      var payload := [];
      var remaining := length;
      while remaining > 0
        invariant payload + inbox == start
        invariant remaining == length - |payload| && |payload| <= length
        invariant outbox == old(outbox) && connected == old(connected)
        invariant authenticated == old(authenticated) && messageId == old(messageId)
        decreases remaining
      {
        var chunk := Recv(if remaining < 4096 then remaining else 4096);
        if |chunk| == 0 {
          return None;
        }
        payload := payload + chunk;
        remaining := remaining - |chunk|;
      }
      assert payload == start[..length];
      assert inbox == start[length..];
      return Some(payload);
    }

    /**
     * read_message: nothing unless connected, otherwise one frame read
     * without blocking; an empty message counts as none.  The message is
     * the JSON text, whose decoding is not modelled.
     */
    method ReadMessage(pongKey: seq<Byte>) returns (r: Option<seq<Byte>>)
      requires |pongKey| == 4
      modifies this
      ensures !old(connected) ==> r == None && inbox == old(inbox) && outbox == old(outbox)
      ensures old(connected) ==> var d := Deliver(old(inbox), false);
        r == (if d.message == Some([]) then None else d.message) && inbox == d.rest &&
        outbox == old(outbox) + PongFrames(d.pongs, pongKey) && connected == !d.closed
      ensures authenticated == old(authenticated) && messageId == old(messageId)
    {
      if !connected {
        return None;
      }
      r := RecvFrame(false, pongKey);
      if r == Some([]) {
        r := None;
      }
    }

    /**
     * get_state: refused before authentication; otherwise the get_states
     * request is sent, the id advances, and the reply is read blocking.
     * The reply is the JSON text; picking the entity out of it is not
     * modelled.
     */
    method GetState(request: seq<Byte>, key: seq<Byte>) returns (reply: Option<seq<Byte>>)
      requires |request| < MAX_PAYLOAD && |key| == 4
      modifies this
      ensures !old(authenticated) ==> reply == None && messageId == old(messageId) && outbox == old(outbox)
      ensures !old(authenticated) ==> inbox == old(inbox) && connected == old(connected)
      ensures old(authenticated) ==> var d := Deliver(old(inbox), true);
        messageId == old(messageId) + 1 && reply == d.message && inbox == d.rest &&
        outbox == old(outbox) + EncodeFrame(request, OP_TEXT, key) + PongFrames(d.pongs, key) &&
        connected == (if d.closed then false else old(connected))
      ensures authenticated == old(authenticated)
    {
      if !authenticated {
        return None;
      }
      SendFrame(request, OP_TEXT, key);
      messageId := messageId + 1;
      reply := RecvFrame(true, key);
    }

    /** close: a close frame with no payload goes out, and the client is neither connected nor authenticated. */
    method Close(key: seq<Byte>)
      requires |key| == 4
      modifies this
      ensures outbox == old(outbox) + EncodeFrame([], OP_CLOSE, key)
      ensures !connected && !authenticated
      ensures inbox == old(inbox) && messageId == old(messageId)
    {
      SendFrame([], OP_CLOSE, key);
      connected := false;
      authenticated := false;
    }

    /**
     * call_service: refused before authentication; otherwise the request is
     * sent and the id advances whatever the reply.  `success` is the reply's
     * "success" field, whose JSON decoding is not modelled.
     */
    method CallService(request: seq<Byte>, key: seq<Byte>, success: bool) returns (ok: bool)
      requires |request| < MAX_PAYLOAD && |key| == 4
      modifies this
      ensures !old(authenticated) ==> !ok && messageId == old(messageId) && outbox == old(outbox)
      ensures !old(authenticated) ==> inbox == old(inbox) && connected == old(connected)
      ensures old(authenticated) ==> var d := Deliver(old(inbox), false);
        messageId == old(messageId) + 1 && inbox == d.rest &&
        outbox == old(outbox) + EncodeFrame(request, OP_TEXT, key) + PongFrames(d.pongs, key) &&
        connected == (if d.closed then false else old(connected))
      ensures authenticated == old(authenticated)
      ensures ok <==> old(authenticated) && success && Answered(old(inbox), false)
    {
      if !authenticated {
        return false;
      }
      SendFrame(request, OP_TEXT, key);
      messageId := messageId + 1;
      var response := RecvFrame(false, key);
      ok := response.Some? && |response.value| > 0 && success;
    }

    /**
     * subscribe_events: on a successful reply the subscription takes the
     * current id, which only then advances.
     */
    method SubscribeEvents(request: seq<Byte>, key: seq<Byte>, success: bool) returns (id: Option<int>)
      requires |request| < MAX_PAYLOAD && |key| == 4
      modifies this
      ensures !old(authenticated) ==> id == None && outbox == old(outbox)
      ensures !old(authenticated) ==> inbox == old(inbox) && connected == old(connected)
      ensures old(authenticated) ==> var d := Deliver(old(inbox), true);
        inbox == d.rest && outbox == old(outbox) + EncodeFrame(request, OP_TEXT, key) + PongFrames(d.pongs, key) &&
        connected == (if d.closed then false else old(connected))
      ensures authenticated == old(authenticated)
      ensures id.Some? <==> old(authenticated) && success && Answered(old(inbox), true)
      ensures id.Some? ==> id.value == old(messageId) && messageId == old(messageId) + 1
      ensures id == None ==> messageId == old(messageId)
    {
      id := Subscribe(request, key, success, true);
    }

    /** subscribe_trigger: as subscribe_events, reading the reply without blocking. */
    method SubscribeTrigger(request: seq<Byte>, key: seq<Byte>, success: bool) returns (id: Option<int>)
      requires |request| < MAX_PAYLOAD && |key| == 4
      modifies this
      ensures !old(authenticated) ==> id == None && outbox == old(outbox)
      ensures !old(authenticated) ==> inbox == old(inbox) && connected == old(connected)
      ensures old(authenticated) ==> var d := Deliver(old(inbox), false);
        inbox == d.rest && outbox == old(outbox) + EncodeFrame(request, OP_TEXT, key) + PongFrames(d.pongs, key) &&
        connected == (if d.closed then false else old(connected))
      ensures authenticated == old(authenticated)
      ensures id.Some? <==> old(authenticated) && success && Answered(old(inbox), false)
      ensures id.Some? ==> id.value == old(messageId) && messageId == old(messageId) + 1
      ensures id == None ==> messageId == old(messageId)
    {
      id := Subscribe(request, key, success, false);
    }

    /** The part subscribe_events and subscribe_trigger share. */
    method Subscribe(request: seq<Byte>, key: seq<Byte>, success: bool, blocking: bool) returns (id: Option<int>)
      requires |request| < MAX_PAYLOAD && |key| == 4
      modifies this
      ensures !old(authenticated) ==> id == None && outbox == old(outbox)
      ensures !old(authenticated) ==> inbox == old(inbox) && connected == old(connected)
      ensures old(authenticated) ==> var d := Deliver(old(inbox), blocking);
        inbox == d.rest && outbox == old(outbox) + EncodeFrame(request, OP_TEXT, key) + PongFrames(d.pongs, key) &&
        connected == (if d.closed then false else old(connected))
      ensures authenticated == old(authenticated)
      ensures id.Some? <==> old(authenticated) && success && Answered(old(inbox), blocking)
      ensures id.Some? ==> id.value == old(messageId) && messageId == old(messageId) + 1
      ensures id == None ==> messageId == old(messageId)
    {
      if !authenticated {
        return None;
      }
      SendFrame(request, OP_TEXT, key);
      var response := RecvFrame(blocking, key);
      if response.Some? && |response.value| > 0 && success {
        id := Some(messageId);
        messageId := messageId + 1;
      } else {
        id := None;
      }
    }
  }

  /** The unmasking loop of _recv_frame. */
  method Unmask(payload: seq<Byte>, key: seq<Byte>) returns (r: seq<Byte>)
    requires |key| == 4
    ensures r == Mask(payload, key)
  {
    var unmasked := new Byte[|payload|];
    for i := 0 to |payload|
      invariant forall k :: 0 <= k < i ==> unmasked[k] == Xor(payload[k], key[k % 4])
    {
      unmasked[i] := Xor(payload[i], key[i % 4]);
    }
    r := unmasked[..];
  }
}
