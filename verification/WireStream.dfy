/** Frames on a byte stream: a length, then the frame. */
module WireStream {
  import opened Common
  import Varint
  import opened Wire

  /** Why reading stopped. `BodyMissing` and `BodyCut` are the two ways a body can be too short. */
  datatype ReadError = Eof | HeaderCut | BodyMissing | BodyCut | Malformed(error: Error)

  /** A frame that `WriteStreamFrame` can write. */
  predicate Writable(f: Frame) {
    Sound(f) && |Encode(f).value| < Varint.MAX_VARINT
  }

  /** What `WriteStreamFrame` writes. */
  function Written(f: Frame): (r: Bytes)
    requires Writable(f)
    ensures |r| > |Encode(f).value|
  {
    Varint.Encoded(|Encode(f).value|) + Encode(f).value
  }

  /** `ReadStreamFrame`: the frame or an error, and what is left unread. */
  function ReadFrame(bs: Bytes): (r: (Result<Frame, ReadError>, Bytes))
    ensures r.0.Ok? ==> |r.1| < |bs|
  {
    match Varint.Parse(bs)
    case Err(Empty) => (Err(Eof), [])
    case Err(Short) => (Err(HeaderCut), [])
    case Ok((size, n)) =>
      if n == |bs| && size > 0 then (Err(BodyMissing), [])
      else if n + size > |bs| then (Err(BodyCut), [])
      else
        match Decode(bs[n..n + size])
        case Err(e) => (Err(Malformed(e)), bs[n + size..])
        case Ok(f) => (Ok(f), bs[n + size..])
  }

  /** `readControl`: frames until the first error. */
  function ReadAll(bs: Bytes): (seq<Frame>, ReadError)
    decreases |bs|
  {
    var (r, rest) := ReadFrame(bs);
    match r
    case Err(e) => ([], e)
    case Ok(f) =>
      var (fs, e) := ReadAll(rest);
      ([f] + fs, e)
  }

  function WriteAll(fs: seq<Frame>): Bytes
    requires forall f :: f in fs ==> Writable(f)
  {
    if fs == [] then [] else Written(fs[0]) + WriteAll(fs[1..])
  }

  lemma ReadWritten(f: Frame, rest: Bytes)
    requires Writable(f)
    ensures ReadFrame(Written(f) + rest) == (Ok(f), rest)
  {
    var e := Encode(f).value;
    var n := Varint.Length(|e|);
    var bs := Written(f) + rest;
    hide Varint.Parse, Varint.Encoded, Encode, Decode;
    Varint.ParseEncoded(|e|, e + rest);
    assert bs == Varint.Encoded(|e|) + (e + rest);
    assert bs[n..n + |e|] == e && bs[n + |e|..] == rest;
    DecodeEncoded(f);
  }

  /** A proper prefix of one written frame ends the stream: cleanly only before its first byte. */
  lemma ReadCut(f: Frame, k: nat)
    requires Writable(f) && k < |Written(f)|
    ensures var (r, rest) := ReadFrame(Written(f)[..k]);
      r.Err? && rest == [] && !r.error.Malformed? && (r.error == Eof <==> k == 0)
    ensures ReadFrame(Written(f)[..k]).0 == Err(BodyMissing) <==> k == Varint.Length(|Encode(f).value|)
  {
    var e := Encode(f).value;
    var n := Varint.Length(|e|);
    var bs := Written(f)[..k];
    hide Varint.Parse, Varint.Encoded, Encode, Decode;
    if k < n {
      Varint.ParsePrefix(|e|, k);
      assert bs == Varint.Encoded(|e|)[..k];
    } else {
      Varint.ParseEncoded(|e|, e[..k - n]);
      assert bs == Varint.Encoded(|e|) + e[..k - n];
    }
  }

  /** How many frames lie wholly within the first `k` bytes. */
  function Whole(fs: seq<Frame>, k: int): (n: nat)
    requires forall f :: f in fs ==> Writable(f)
    ensures n <= |fs|
  {
    if fs == [] || |Written(fs[0])| > k then 0 else 1 + Whole(fs[1..], k - |Written(fs[0])|)
  }

  /** `Whole` is the greatest number of frames whose written form fits. */
  lemma {:induction false} WholeIsGreatest(fs: seq<Frame>, k: nat, n: nat)
    requires (forall f :: f in fs ==> Writable(f)) && n <= |fs|
    ensures |WriteAll(fs[..n])| <= k <==> n <= Whole(fs, k)
  {
    hide Written, Writable;
    if n > 0 {
      assert fs[..n][0] == fs[0] && fs[..n][1..] == fs[1..][..n - 1];
      if |Written(fs[0])| <= k {
        WholeIsGreatest(fs[1..], k - |Written(fs[0])|, n - 1);
      }
    }
  }

  /** A stream of written frames cut after `k` bytes gives exactly the frames wholly within it, then
      an error. The error is a clean end of stream exactly when the cut falls between two frames, and
      `BodyMissing`, which wraps `io.EOF` and so also ends `readControl` silently, exactly when the
      cut falls right behind a frame's length. */
  lemma {:induction false} ReadTruncated(fs: seq<Frame>, k: nat)
    requires (forall f :: f in fs ==> Writable(f)) && k <= |WriteAll(fs)|
    ensures Whole(fs, k) < |fs| ==> Writable(fs[Whole(fs, k)])
    ensures var (got, e) := ReadAll(WriteAll(fs)[..k]); var n := Whole(fs, k);
      && got == fs[..n] && !e.Malformed?
      && (e == Eof <==> |WriteAll(fs[..n])| == k)
      && (e == BodyMissing <==> n < |fs| && k == |WriteAll(fs[..n])| + Varint.Length(|Encode(fs[n]).value|))
    decreases |fs|
  {
    hide ReadFrame, Written, Writable;
    if fs == [] {
      assert WriteAll(fs)[..k] == [];
      ReadNothing();
    } else {
      var w := Written(fs[0]);
      var bs := WriteAll(fs)[..k];
      if |w| > k {
        ReadCut(fs[0], k);
        assert bs == w[..k];
        assert WriteAll(fs[..0]) == [];
      } else {
        var rest := WriteAll(fs[1..])[..k - |w|];
        assert bs == w + rest;
        ReadWritten(fs[0], rest);
        ReadAllStep(bs, fs[0], rest);
        ReadTruncated(fs[1..], k - |w|);
        hide ReadAll;
        WriteAllStep(fs, Whole(fs, k));
      }
    }
  }

  /** The written form of the first `n` frames, first frame apart. */
  lemma WriteAllStep(fs: seq<Frame>, n: nat)
    requires (forall f :: f in fs ==> Writable(f)) && 0 < n <= |fs|
    ensures fs[..n] == [fs[0]] + fs[1..][..n - 1]
    ensures WriteAll(fs[..n]) == Written(fs[0]) + WriteAll(fs[1..][..n - 1])
  {
    assert fs[..n][0] == fs[0] && fs[..n][1..] == fs[1..][..n - 1];
  }

  lemma ReadNothing()
    ensures ReadFrame([]) == (Err(Eof), [])
  {
  }

  lemma ReadAllStep(bs: Bytes, f: Frame, rest: Bytes)
    requires ReadFrame(bs) == (Ok(f), rest)
    ensures ReadAll(bs) == ([f] + ReadAll(rest).0, ReadAll(rest).1)
  {
  }

  /** Whole-stream round trip: reading the concatenation of written frames gives those frames, then
      a clean end of stream. */
  lemma StreamRoundTrip(fs: seq<Frame>)
    requires forall f :: f in fs ==> Writable(f)
    ensures ReadAll(WriteAll(fs)) == (fs, Eof)
  {
    hide ReadAll, WriteAll, Whole;
    var k := |WriteAll(fs)|;
    assert WriteAll(fs)[..k] == WriteAll(fs) && fs[..|fs|] == fs;
    WholeIsGreatest(fs, k, |fs|);
    ReadTruncated(fs, k);
  }

  /** Written streams are unambiguous. */
  lemma StreamsInjective(fs: seq<Frame>, gs: seq<Frame>)
    requires (forall f :: f in fs ==> Writable(f)) && (forall g :: g in gs ==> Writable(g))
    requires WriteAll(fs) == WriteAll(gs)
    ensures fs == gs
  {
    hide WriteAll, ReadAll;
    StreamRoundTrip(fs);
    StreamRoundTrip(gs);
  }

  lemma ReadFrameNormal(bs: Bytes)
    requires ReadFrame(bs).0.Ok?
    ensures var (r, rest) := ReadFrame(bs);
      Writable(r.value) && |Written(r.value)| + |rest| <= |bs|
  {
    var (size, n) := Varint.Parse(bs).value;
    Varint.ParseNormal(bs);
    hide Varint.Parse, Varint.Encoded, Encode, Decode;
    EncodeDecoded(bs[n..n + size]);
    var f := ReadFrame(bs).0.value;
    LengthMonotone(|Encode(f).value|, size);
  }

  lemma LengthMonotone(v: nat, w: nat)
    requires v <= w < Varint.MAX_VARINT
    ensures Varint.Length(v) <= Varint.Length(w)
  {
  }

  /** Whatever bytes arrive, the frames read from them can be written again in no more bytes, and
      that normal form reads back as the same frames and a clean end. */
  lemma {:induction false} ReadAllNormal(bs: Bytes)
    ensures var fs := ReadAll(bs).0;
      && (forall f :: f in fs ==> Writable(f))
      && |WriteAll(fs)| <= |bs| && ReadAll(WriteAll(fs)) == (fs, Eof)
    decreases |bs|
  {
    hide ReadFrame, Written, Writable;
    var (r, rest) := ReadFrame(bs);
    if r.Ok? {
      ReadFrameNormal(bs);
      ReadAllNormal(rest);
      var fs := ReadAll(rest).0;
      ReadAllStep(bs, r.value, rest);
      assert ([r.value] + fs)[1..] == fs;
    }
    StreamRoundTrip(ReadAll(bs).0);
  }

  /** One frame, good or bad: behind a length, of any width, and a body of that length, the body decides
      and exactly the rest is left. */
  lemma ReadBody(head: Bytes, body: Bytes, rest: Bytes)
    requires Varint.Parse(head) == Ok((|body|, |head|))
    ensures ReadFrame(head + body + rest) ==
      (match Decode(body) case Ok(f) => Ok(f) case Err(e) => Err(Malformed(e)), rest)
  {
    hide Varint.Parse, Decode;
    Varint.ParseLocal(head, body + rest, |body|);
    var bs := head + body + rest;
    assert bs == head + (body + rest);
    assert bs[|head|..|head| + |body|] == body && bs[|head| + |body|..] == rest;
  }

  /** What is missing when no body can be had: everything, bytes of the length, all or part of the body;
      then nothing is left unread. */
  lemma ReadMissing(bs: Bytes)
    ensures ReadFrame(bs).0 == Err(Eof) <==> bs == []
    ensures ReadFrame(bs).0 == Err(HeaderCut) <==> bs != [] && Varint.Parse(bs).Err?
    ensures ReadFrame(bs).0 == Err(BodyMissing) <==>
      Varint.Parse(bs).Ok? && Varint.Parse(bs).value.1 == |bs| && Varint.Parse(bs).value.0 > 0
    ensures ReadFrame(bs).0 == Err(BodyCut) <==>
      Varint.Parse(bs).Ok? && Varint.Parse(bs).value.1 < |bs| < Varint.Parse(bs).value.1 + Varint.Parse(bs).value.0
    ensures ReadFrame(bs).0.Err? && !ReadFrame(bs).0.error.Malformed? ==> ReadFrame(bs).1 == []
  {
    Varint.ParseBytes(bs);
    hide Decode, Varint.FromBigEndian;
  }

  // ---------- readers and writers ----------

  /** The bytes written to a stream and not read yet; writing fails only on I/O errors, left out. */
  class ByteStream {
    var pending: Bytes

    constructor ()
      ensures pending == []
    {
      pending := [];
    }

    method Write(data: Bytes)
      modifies this
      ensures pending == old(pending) + data
    {
      pending := pending + data;
    }

    method ReadByte() returns (b: Option<Byte>)
      modifies this
      ensures old(pending) == [] ==> b == None && pending == []
      ensures old(pending) != [] ==> b == Some(old(pending)[0]) && pending == old(pending)[1..]
    {
      if pending == [] { return None; }
      b := Some(pending[0]);
      pending := pending[1..];
    }

    /** `io.ReadFull` into a buffer of `size` bytes. */
    method ReadFull(size: nat) returns (r: Result<Bytes, ReadError>)
      modifies this
      ensures size <= |old(pending)| ==> r == Ok(old(pending)[..size]) && pending == old(pending)[size..]
      ensures size > |old(pending)| ==>
        pending == [] && r == Err(if old(pending) == [] then BodyMissing else BodyCut)
    {
      if size <= |pending| {
        r := Ok(pending[..size]);
        pending := pending[size..];
      } else {
        r := Err(if pending == [] then BodyMissing else BodyCut);
        pending := [];
      }
    }

    /** `quicvarint.Read`, one byte at a time. */
    method ReadVarint() returns (r: Result<nat, ReadError>)
      modifies this
      ensures match Varint.Parse(old(pending))
        case Err(Empty) => r == Err(Eof) && pending == []
        case Err(Short) => r == Err(HeaderCut) && pending == []
        case Ok((v, n)) => r == Ok(v) && pending == old(pending)[n..]
    {
      hide Varint.FromBigEndian;
      ghost var was := pending;
      var first := ReadByte();
      if first.None? { return Err(Eof); }
      var n := Varint.Announced(first.value);
      var bytes := [first.value % 64];
      for i := 1 to n
        invariant i <= |was| && pending == was[i..]
        invariant bytes == [was[0] % 64] + was[1..i]
      {
        var next := ReadByte();
        if next.None? { return Err(HeaderCut); }
        assert was[i..][0] == was[i];
        bytes := bytes + [next.value];
      }
      r := Ok(Varint.FromBigEndian(bytes));
    }

    /** `WriteStreamFrame`. */
    method WriteStreamFrame(f: Frame) returns (error: Option<Error>)
      modifies this
      ensures Writable(f) ==> error == None && pending == old(pending) + Written(f)
      ensures !Writable(f) ==> pending == old(pending)
      ensures !Writable(f) ==> error == Some(if Encode(f).Err? then Encode(f).error else TooLong)
    {
      EncodeParts(f);
      var data := Encode(f);
      if data.Err? { return Some(data.error); }
      if |data.value| >= Varint.MAX_VARINT { return Some(TooLong); }
      Write(Varint.Encoded(|data.value|));
      Write(data.value);
      return None;
    }

    /** `ReadStreamFrame`. */
    method ReadStreamFrame() returns (r: Result<Frame, ReadError>)
      modifies this
      ensures (r, pending) == ReadFrame(old(pending))
    {
      hide Varint.Parse, Decode;
      ghost var was := pending;
      var size := ReadVarint();
      if size.Err? { return Err(size.error); }
      ghost var n := Varint.Parse(was).value.1;
      var data := ReadFull(size.value);
      if data.Err? { return Err(data.error); }
      assert was[n..][size.value..] == was[n + size.value..];
      assert data.value == was[n..n + size.value];
      match Decode(data.value) {
        case Err(e) => return Err(Malformed(e));
        case Ok(f) => return Ok(f);
      }
    }

    /** The loop of `readControl`: every frame it handles, and the error that ends it. */
    method ReadControl() returns (frames: seq<Frame>, error: ReadError)
      modifies this
      ensures (frames, error) == ReadAll(old(pending))
    {
      hide ReadFrame;
      frames := [];
      ghost var left := ReadAll(pending).0;
      assert frames + left == left;
      while true
        invariant ReadAll(old(pending)) == (frames + left, ReadAll(pending).1) && left == ReadAll(pending).0
        decreases |pending|
      {
        var r := ReadStreamFrame();
        if r.Err? {
          assert left == [] && frames + left == frames;
          return frames, r.error;
        }
        assert frames + left == (frames + [r.value]) + left[1..];
        frames, left := frames + [r.value], left[1..];
      }
    }
  }
}
