/** Frames: one frame in a byte sequence, and the size and kind checks on datagrams. */
module Wire {
  import opened Common
  import Varint

  const KIND_PUB: Byte := 1

  datatype Frame = Frame(kind: Byte, topic: Bytes, payload: Bytes)

  /** `TooLong` stands for the panic of `quicvarint` on a length of 2^62 or more. */
  datatype Error =
    | KindRequired | TopicRequired | TooLong
    | ShortFrame | KindInvalid | BadLength(error: Varint.Error) | TopicOverrun

  function Encode(f: Frame): Result<Bytes, Error> {
    if f.kind == 0 then Err(KindRequired)
    else if f.topic == [] then Err(TopicRequired)
    else if |f.topic| >= Varint.MAX_VARINT then Err(TooLong)
    else Ok([f.kind] + Varint.Encoded(|f.topic|) + f.topic + f.payload)
  }

  function Decode(data: Bytes): Result<Frame, Error> {
    if |data| < 2 then Err(ShortFrame)
    else if data[0] == 0 then Err(KindInvalid)
    else
      match Varint.Parse(data[1..])
      case Err(e) => Err(BadLength(e))
      case Ok((length, n)) =>
        var start := 1 + n;
        var end := start + length;
        if end > |data| then Err(TopicOverrun)
        else if data[start..end] == [] then Err(TopicRequired)
        else Ok(Frame(data[0], data[start..end], data[end..]))
  }

  /** A frame that can be encoded. */
  predicate Sound(f: Frame) { f.kind != 0 && f.topic != [] && |f.topic| < Varint.MAX_VARINT }

  lemma EncodeParts(f: Frame)
    ensures Encode(f).Ok? <==> Sound(f)
    ensures Sound(f) ==>
      var e := Encode(f).value; var n := Varint.Length(|f.topic|);
      && |e| == 1 + n + |f.topic| + |f.payload|
      && e[0] == f.kind && e[1..] == Varint.Encoded(|f.topic|) + (f.topic + f.payload)
      && e[1 + n..1 + n + |f.topic|] == f.topic && e[1 + n + |f.topic|..] == f.payload
  {
  }

  /** What was encoded decodes to the same frame. */
  lemma DecodeEncoded(f: Frame)
    requires Sound(f)
    ensures Decode(Encode(f).value) == Ok(f)
  {
    hide Encode;
    EncodeParts(f);
    Varint.ParseEncoded(|f.topic|, f.topic + f.payload);
  }

  /** What decodes can be encoded again, not longer than it was, to the same frame; and it comes
      back byte for byte exactly if its topic length was written in the shortest way. */
  lemma EncodeDecoded(data: Bytes)
    requires Decode(data).Ok?
    ensures var f := Decode(data).value;
      && Sound(f) && |Encode(f).value| <= |data|
      && Decode(Encode(f).value) == Ok(f)
      && (Encode(f).value == data <==> |Encode(f).value| == |data|)
  {
    hide Decode, Encode, Varint.Encoded, Varint.Parse;
    var f := Decode(data).value;
    var head := DecodedParts(data, f);
    Varint.ParseNormal(head);
    EncodeParts(f);
    DecodeEncoded(f);
    if |Encode(f).value| == |data| {
      var e := Encode(f).value;
      assert head[..|head|] == head;
      assert data == [f.kind] + (head + (f.topic + f.payload)) && e == [e[0]] + e[1..];
    }
  }

  /** The format: data decodes to a frame if and only if it is the frame's kind, not 0, then the length of
      its topic as an integer of any width, the topic, not empty, and the payload. */
  lemma DecodesIff(data: Bytes, f: Frame)
    ensures Decode(data) == Ok(f) <==>
      && f.kind != 0 && f.topic != []
      && exists head :: Varint.Parse(head) == Ok((|f.topic|, |head|)) && data == [f.kind] + head + f.topic + f.payload
  {
    hide Varint.Parse, Decode;
    if Decode(data) == Ok(f) { var head := DecodedParts(data, f); }
    if f.kind != 0 && f.topic != [] {
      forall head | Varint.Parse(head) == Ok((|f.topic|, |head|)) && data == [f.kind] + head + f.topic + f.payload
        ensures Decode(data) == Ok(f)
      {
        PartsDecode(head, f);
      }
    }
  }

  lemma DecodedParts(data: Bytes, f: Frame) returns (head: Bytes)
    requires Decode(data) == Ok(f)
    ensures f.kind != 0 && f.topic != []
    ensures Varint.Parse(head) == Ok((|f.topic|, |head|)) && data == [f.kind] + head + f.topic + f.payload
  {
    hide Varint.Parse;
    var (length, n) := Varint.Parse(data[1..]).value;
    head := data[1..1 + n];
    var rest := data[1 + n..];
    assert data[1..] == head + rest;
    Varint.ParseLocal(head, rest, length);
  }

  lemma PartsDecode(head: Bytes, f: Frame)
    requires f.kind != 0 && f.topic != [] && Varint.Parse(head) == Ok((|f.topic|, |head|))
    ensures Decode([f.kind] + head + f.topic + f.payload) == Ok(f)
  {
    hide Varint.Parse;
    var data, n := [f.kind] + head + f.topic + f.payload, |head|;
    Varint.ParseLocal(head, f.topic + f.payload, |f.topic|);
    assert data[1..] == head + (f.topic + f.payload);
    assert data[1 + n..1 + n + |f.topic|] == f.topic && data[1 + n + |f.topic|..] == f.payload;
  }

  /** What is wrong with data that does not decode, and with a frame that does not encode. */
  lemma CodecErrors(data: Bytes, f: Frame)
    ensures Decode(data) == Err(ShortFrame) <==> |data| < 2
    ensures Decode(data) == Err(KindInvalid) <==> |data| >= 2 && data[0] == 0
    ensures Decode(data) == Err(TopicRequired) <==>
      |data| >= 2 && data[0] != 0 && Varint.Parse(data[1..]).Ok? && Varint.Parse(data[1..]).value.0 == 0
    ensures Decode(data) == Err(TopicOverrun) <==>
      |data| >= 2 && data[0] != 0 && Varint.Parse(data[1..]).Ok?
      && 1 + Varint.Parse(data[1..]).value.1 + Varint.Parse(data[1..]).value.0 > |data|
    ensures forall e :: Decode(data) == Err(BadLength(e)) <==>
      |data| >= 2 && data[0] != 0 && Varint.Parse(data[1..]) == Err(e)
    ensures Encode(f) == Err(KindRequired) <==> f.kind == 0
    ensures Encode(f) == Err(TopicRequired) <==> f.kind != 0 && f.topic == []
  {
    hide Varint.Parse;
  }

  // ---------- datagrams ----------

  const MAX_DATAGRAM: nat := 1024

  datatype Received = IncomingOversize | IncomingInvalid | IncomingNonPub | Accepted(frame: Frame)

  /** What `datagramReader` makes of one datagram. */
  function Receive(data: Bytes): Received {
    if |data| > MAX_DATAGRAM then IncomingOversize
    else match Decode(data)
      case Err(_) => IncomingInvalid
      case Ok(frame) => if frame.kind != KIND_PUB then IncomingNonPub else Accepted(frame)
  }

  datatype Outgoing = EncodeFailed | OutgoingOversize | Send(data: Bytes)

  /** What `datagramWriter` makes of one frame. */
  function Forward(f: Frame): Outgoing {
    match Encode(f)
    case Err(_) => EncodeFailed
    case Ok(data) => if |data| > MAX_DATAGRAM then OutgoingOversize else Send(data)
  }

  /** Every datagram that the reader accepts, the writer sends: its encode-error and oversize
      branches are unreachable, and the receiver decodes the same frame from no more bytes. */
  lemma AcceptedIsSent(data: Bytes)
    requires Receive(data).Accepted?
    ensures var f := Receive(data).frame;
      && Forward(f).Send? && |Forward(f).data| <= |data|
      && Decode(Forward(f).data) == Decode(data) && Receive(Forward(f).data) == Receive(data)
  {
    hide Encode, Decode;
    EncodeDecoded(data);
    EncodeParts(Receive(data).frame);
  }

  /** What becomes of a datagram: more than 1024 bytes are oversize; of the others, what does not decode is
      invalid, and what decodes is published if and only if its kind is 1, PUB. */
  lemma DatagramFate(data: Bytes)
    ensures Receive(data) == IncomingOversize <==> |data| > 1024
    ensures Receive(data) == IncomingInvalid <==> |data| <= 1024 && Decode(data).Err?
    ensures Receive(data) == IncomingNonPub <==> |data| <= 1024 && Decode(data).Ok? && Decode(data).value.kind != 1
    ensures forall f :: Receive(data) == Accepted(f) <==> |data| <= 1024 && Decode(data) == Ok(f) && f.kind == 1
  {
    hide Decode;
  }

  /** And of an encoded frame, at the sender and at the receiver. */
  lemma FrameFate(f: Frame)
    requires Sound(f)
    ensures var e := Encode(f).value;
      if |e| > 1024 then Forward(f) == OutgoingOversize && Receive(e) == IncomingOversize
      else Forward(f) == Send(e) && Receive(e) == if f.kind == 1 then Accepted(f) else IncomingNonPub
  {
    hide Encode, Decode;
    EncodeParts(f);
    DecodeEncoded(f);
  }

  /** A frame without kind or topic, or with a topic of 2^62 bytes or more, is not sent. */
  lemma UnsoundIsNotSent(f: Frame)
    ensures Forward(f) == EncodeFailed <==> f.kind == 0 || f.topic == [] || |f.topic| >= 0x4000_0000_0000_0000
  {
  }
}
