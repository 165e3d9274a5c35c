/** QUIC variable-length integers, section 16 of RFC 9000, as `quicvarint` writes and parses them. */
module Varint {
  import opened Common

  const MAX_VARINT: int := 0x4000_0000_0000_0000  // exclusive

  function Pow256(n: nat): nat { if n == 0 then 1 else 256 * Pow256(n - 1) }

  function BigEndian(v: nat, n: nat): (r: Bytes)
    ensures |r| == n
  {
    if n == 0 then [] else BigEndian(v / 256, n - 1) + [(v % 256) as Byte]
  }

  function FromBigEndian(bs: Bytes): nat {
    if bs == [] then 0 else 256 * FromBigEndian(bs[..|bs| - 1]) + bs[|bs| - 1] as nat
  }

  lemma {:induction false} BigEndianValue(v: nat, n: nat)
    requires v < Pow256(n)
    ensures FromBigEndian(BigEndian(v, n)) == v
  {
    if n > 0 {
      var init := BigEndian(v / 256, n - 1);
      assert BigEndian(v, n)[..n - 1] == init;
      BigEndianValue(v / 256, n - 1);
    }
  }

  lemma {:induction false} BigEndianBytes(bs: Bytes)
    ensures FromBigEndian(bs) < Pow256(|bs|)
    ensures BigEndian(FromBigEndian(bs), |bs|) == bs
  {
    if bs != [] {
      var n, last := |bs| - 1, bs[|bs| - 1] as nat;
      BigEndianBytes(bs[..n]);
      var v := FromBigEndian(bs[..n]);
      assert (256 * v + last) / 256 == v && (256 * v + last) % 256 == last;
      assert bs == bs[..n] + [bs[n]];
    }
  }

  lemma PowValues()
    ensures Pow256(1) == 0x100 && Pow256(2) == 0x1_0000 && Pow256(4) == 0x1_0000_0000
    ensures Pow256(3) == 0x100_0000 && Pow256(7) == 0x100_0000_0000_0000
    ensures Pow256(8) == 0x1_0000_0000_0000_0000
  {
    assert Pow256(5) == 256 * Pow256(4) && Pow256(6) == 256 * Pow256(5);
  }

  /** `quicvarint.Len`. */
  function Length(v: nat): nat
    requires v < MAX_VARINT
  {
    if v < 0x40 then 1 else if v < 0x4000 then 2 else if v < 0x4000_0000 then 4 else 8
  }

  /** How many bytes the two top bits of a first byte announce. */
  function Announced(b: Byte): (n: nat)
    ensures n == 1 || n == 2 || n == 4 || n == 8
  {
    if b < 64 then 1 else if b < 128 then 2 else if b < 192 then 4 else 8
  }

  /** The two top bits for `n` bytes, in their place. */
  function Mark(n: nat): nat {
    if n == 2 then 0x4000 else if n == 4 then 0x8000_0000 else if n == 8 then 0xC000_0000_0000_0000 else 0
  }

  /** `quicvarint.Append` to an empty slice. */
  function Encoded(v: nat): (r: Bytes)
    requires v < MAX_VARINT
    ensures |r| == Length(v)
  {
    BigEndian(v + Mark(Length(v)), Length(v))
  }

  datatype Error = Empty | Short

  /** `quicvarint.Parse`: the value and how many bytes it took. */
  function Parse(bs: Bytes): (r: Result<(nat, nat), Error>)
    ensures r.Ok? ==> 0 < r.value.1 <= |bs|
  {
    if bs == [] then Err(Empty)
    else
      var n := Announced(bs[0]);
      if |bs| < n then Err(Short)
      else Ok((FromBigEndian([bs[0] % 64] + bs[1..n]), n))
  }

  lemma {:induction false} FromBigEndianCons(b: Byte, bs: Bytes)
    ensures FromBigEndian([b] + bs) == b as nat * Pow256(|bs|) + FromBigEndian(bs)
  {
    if bs == [] {
      assert [b][..0] == [];
    } else {
      var n := |bs| - 1;
      assert ([b] + bs)[..n + 1] == [b] + bs[..n];
      FromBigEndianCons(b, bs[..n]);
      assert Pow256(|bs|) == 256 * Pow256(n);
      hide Pow256;
      Scale(b as nat, Pow256(n), FromBigEndian(bs[..n]));
    }
  }

  lemma Scale(x: nat, p: nat, rest: nat)
    ensures 256 * (x * p + rest) == x * (256 * p) + 256 * rest
  {
  }

  /** The bytes with their mark are the value plus the mark. */
  lemma Unmark(bs: Bytes)
    requires bs != [] && |bs| == Announced(bs[0])
    ensures FromBigEndian([bs[0] % 64] + bs[1..]) + Mark(|bs|) == FromBigEndian(bs)
    ensures FromBigEndian([bs[0] % 64] + bs[1..]) < MAX_VARINT
    ensures Length(FromBigEndian([bs[0] % 64] + bs[1..])) <= |bs|
  {
    hide FromBigEndian, BigEndian, Pow256, Mark, Length, Announced;
    var b, top, tail := bs[0] as nat, (bs[0] % 64) as nat, FromBigEndian(bs[1..]);
    assert FromBigEndian(bs) == b * Pow256(|bs| - 1) + tail by {
      FromBigEndianCons(bs[0], bs[1..]);
      assert bs == [bs[0]] + bs[1..];
    }
    assert FromBigEndian([bs[0] % 64] + bs[1..]) == top * Pow256(|bs| - 1) + tail by {
      FromBigEndianCons(bs[0] % 64, bs[1..]);
    }
    BigEndianBytes(bs[1..]);
    MarkedByte(b, top, |bs|, tail);
  }

  lemma MarkedByte(b: nat, top: nat, n: nat, tail: nat)
    requires b < 256 && top == b % 64 && n == Announced(b as Byte) && tail < Pow256(n - 1)
    ensures top * Pow256(n - 1) + tail + Mark(n) == b * Pow256(n - 1) + tail
    ensures top * Pow256(n - 1) + tail < MAX_VARINT && Length(top * Pow256(n - 1) + tail) <= n
  {
    PowValues();
    assert Pow256(0) == 1;
    hide Pow256;
    if n == 1 {
    } else if n == 2 {
      assert b == 64 + top;
    } else if n == 4 {
      assert b == 128 + top;
    } else {
      assert b == 192 + top;
    }
  }

  /** The first byte of a marked value announces its length. */
  lemma EncodedAnnounces(v: nat)
    requires v < MAX_VARINT
    ensures Announced(Encoded(v)[0]) == Length(v)
    ensures FromBigEndian(Encoded(v)) == v + Mark(Length(v))
  {
    PowValues();
    var n := Length(v);
    var bs := Encoded(v);
    BigEndianValue(v + Mark(n), n);
    assert bs == [bs[0]] + bs[1..];
    FromBigEndianCons(bs[0], bs[1..]);
    BigEndianBytes(bs[1..]);
    assert Pow256(0) == 1;
  }

  /** A written integer reads back, whatever follows it. */
  lemma ParseEncoded(v: nat, rest: Bytes)
    requires v < MAX_VARINT
    ensures Parse(Encoded(v) + rest) == Ok((v, Length(v)))
  {
    hide FromBigEndian, Encoded, Mark;
    var bs := Encoded(v);
    EncodedAnnounces(v);
    Unmark(bs);
    assert (bs + rest)[0] == bs[0] && (bs + rest)[1..|bs|] == bs[1..];
  }

  /** What parses is an integer below 2^62, not written shorter than it could be; it was written in
      the shortest way exactly if it took as many bytes as that. */
  lemma ParseNormal(bs: Bytes)
    requires Parse(bs).Ok?
    ensures var (v, n) := Parse(bs).value;
      v < MAX_VARINT && Length(v) <= n && (Length(v) == n ==> Encoded(v) == bs[..n])
  {
    hide FromBigEndian, BigEndian, Mark;
    var (v, n) := Parse(bs).value;
    var used := bs[..n];
    assert used[1..] == bs[1..n];
    Unmark(used);
    BigEndianBytes(used);
  }

  /** A proper prefix of a written integer does not parse. */
  lemma ParsePrefix(v: nat, k: nat)
    requires v < MAX_VARINT && k < Length(v)
    ensures Parse(Encoded(v)[..k]) == Err(if k == 0 then Empty else Short)
  {
    EncodedAnnounces(v);
  }

  // ---------- byte by byte ----------

  /** Four bytes, most significant first. */
  function Word(a: nat, b: nat, c: nat, d: nat): nat { a * 0x100_0000 + b * 0x1_0000 + c * 0x100 + d }

  lemma FromBytes(bs: Bytes)
    ensures |bs| == 1 ==> FromBigEndian(bs) == bs[0] as nat
    ensures |bs| == 2 ==> FromBigEndian(bs) == bs[0] as nat * 0x100 + bs[1] as nat
    ensures |bs| == 4 ==> FromBigEndian(bs) == Word(bs[0] as nat, bs[1] as nat, bs[2] as nat, bs[3] as nat)
    decreases |bs|
  {
    if |bs| == 1 {
      assert bs[..0] == [];
    } else if |bs| == 2 {
      FromBytes(bs[..1]);
    } else if |bs| == 4 {
      FromBytes(bs[..2]);
      assert bs[..3][..2] == bs[..2];
      assert FromBigEndian(bs[..3]) == 256 * FromBigEndian(bs[..2]) + bs[2] as nat;
    }
  }

  lemma FromEightBytes(bs: Bytes)
    requires |bs| == 8
    ensures FromBigEndian(bs) == FromBigEndian(bs[..4]) * 0x1_0000_0000 + FromBigEndian(bs[4..])
  {
    FromBytes(bs[4..]);
    assert bs[..7][..6] == bs[..6] && bs[..6][..5] == bs[..5] && bs[..5][..4] == bs[..4];
    assert FromBigEndian(bs[..5]) == 256 * FromBigEndian(bs[..4]) + bs[4] as nat;
    assert FromBigEndian(bs[..6]) == 256 * FromBigEndian(bs[..5]) + bs[5] as nat;
    assert FromBigEndian(bs[..7]) == 256 * FromBigEndian(bs[..6]) + bs[6] as nat;
    assert FromBigEndian(bs) == 256 * FromBigEndian(bs[..7]) + bs[7] as nat;
  }

  /** A first byte without its mark. */
  lemma Unmarked(b: Byte)
    ensures (b % 64) as nat == b as nat - (if b < 0x40 then 0 else if b < 0x80 then 0x40 else if b < 0xC0 then 0x80 else 0xC0)
    ensures Announced(b) == if b < 0x40 then 1 else if b < 0x80 then 2 else if b < 0xC0 then 4 else 8
  {
  }

  lemma ParseParts(bs: Bytes)
    requires bs != []
    ensures var n := Announced(bs[0]);
      Parse(bs) == if |bs| < n then Err(Short) else Ok((FromBigEndian([bs[0] % 64] + bs[1..n]), n))
  {
  }

  lemma ParseTwo(bs: Bytes)
    requires |bs| >= 2 && 0x40 <= bs[0] < 0x80
    ensures Parse(bs) == Ok(((bs[0] as nat - 0x40) * 0x100 + bs[1] as nat, 2))
  {
    hide FromBigEndian, Parse, Announced;
    Unmarked(bs[0]);
    ParseParts(bs);
    FromBytes([bs[0] % 64] + bs[1..2]);
  }

  lemma ParseFour(bs: Bytes)
    requires |bs| >= 4 && 0x80 <= bs[0] < 0xC0
    ensures Parse(bs) == Ok((Word(bs[0] as nat - 0x80, bs[1] as nat, bs[2] as nat, bs[3] as nat), 4))
  {
    hide FromBigEndian, Parse, Announced, Word;
    Unmarked(bs[0]);
    ParseParts(bs);
    FromBytes([bs[0] % 64] + bs[1..4]);
  }

  lemma ParseEight(bs: Bytes)
    requires |bs| >= 8 && 0xC0 <= bs[0]
    ensures Parse(bs) == Ok((Word(bs[0] as nat - 0xC0, bs[1] as nat, bs[2] as nat, bs[3] as nat) * 0x1_0000_0000
                             + Word(bs[4] as nat, bs[5] as nat, bs[6] as nat, bs[7] as nat), 8))
  {
    hide FromBigEndian, Parse, Announced, Word;
    Unmarked(bs[0]);
    ParseParts(bs);
    var used := [bs[0] % 64] + bs[1..8];
    FromEightBytes(used);
    FromBytes(used[..4]);
    FromBytes(used[4..]);
    assert used[..4][1] == bs[1] && used[..4][2] == bs[2] && used[..4][3] == bs[3];
    assert used[4..][0] == bs[4] && used[4..][1] == bs[5] && used[4..][2] == bs[6] && used[4..][3] == bs[7];
  }

  /** Parsing on bytes: the first byte says how many bytes there are, 1 below 0x40, 2 below 0x80, 4 below
      0xC0 and 8 from there on; what it has above that is the most significant part of the value; and
      nothing else can go wrong than that bytes are missing. */
  lemma ParseBytes(bs: Bytes)
    ensures Parse([]) == Err(Empty)
    ensures bs != [] ==>
      var b, n := bs[0] as nat, if bs[0] < 0x40 then 1 else if bs[0] < 0x80 then 2 else if bs[0] < 0xC0 then 4 else 8;
      if |bs| < n then Parse(bs) == Err(Short)
      else if n == 1 then Parse(bs) == Ok((b, 1))
      else if n == 2 then Parse(bs) == Ok(((b - 0x40) * 0x100 + bs[1] as nat, 2))
      else if n == 4 then Parse(bs) == Ok((Word(b - 0x80, bs[1] as nat, bs[2] as nat, bs[3] as nat), 4))
      else Parse(bs) == Ok((Word(b - 0xC0, bs[1] as nat, bs[2] as nat, bs[3] as nat) * 0x1_0000_0000
                            + Word(bs[4] as nat, bs[5] as nat, bs[6] as nat, bs[7] as nat), 8))
  {
    hide FromBigEndian, Parse, Announced, Word;
    assert Parse([]) == Err(Empty) by { ParseNone(); }
    if bs != [] {
      Unmarked(bs[0]);
      ParseParts(bs);
      if |bs| >= Announced(bs[0]) {
        if bs[0] < 0x40 { FromBytes([bs[0] % 64] + bs[1..1]); }
        else if bs[0] < 0x80 { ParseTwo(bs); }
        else if bs[0] < 0xC0 { ParseFour(bs); }
        else { ParseEight(bs); }
      }
    }
  }

  lemma ParseNone()
    ensures Parse([]) == Err(Empty)
  {
  }

  /** The examples of section A.1 of RFC 9000. */
  lemma Examples()
    ensures Parse([0xc2, 0x19, 0x7c, 0x5e, 0xff, 0x14, 0xe8, 0x8c]) == Ok((151_288_809_941_952_652, 8))
    ensures Parse([0x9d, 0x7f, 0x3e, 0x7d]) == Ok((494_878_333, 4))
    ensures Parse([0x7b, 0xbd]) == Ok((15_293, 2)) && Parse([0x25]) == Ok((37, 1)) && Parse([0x40, 0x25]) == Ok((37, 2))
    ensures Encoded(494_878_333) == [0x9d, 0x7f, 0x3e, 0x7d] && Encoded(15_293) == [0x7b, 0xbd] && Encoded(37) == [0x25]
  {
    ParseBytes([0xc2, 0x19, 0x7c, 0x5e, 0xff, 0x14, 0xe8, 0x8c]);
    ParseBytes([0x9d, 0x7f, 0x3e, 0x7d]);
    ParseBytes([0x7b, 0xbd]);
    ParseBytes([0x25]);
    ParseBytes([0x40, 0x25]);
    ParseNormal([0x9d, 0x7f, 0x3e, 0x7d]);
    ParseNormal([0x7b, 0xbd]);
    ParseNormal([0x25]);
    hide Parse;
  }

  /** What follows an integer does not matter. */
  lemma ParseLocal(head: Bytes, rest: Bytes, v: nat)
    ensures Parse(head) == Ok((v, |head|)) ==> Parse(head + rest) == Ok((v, |head|))
    ensures head != [] && Parse(head + rest) == Ok((v, |head|)) ==> Parse(head) == Ok((v, |head|))
  {
    hide FromBigEndian;
    if head != [] {
      assert (head + rest)[0] == head[0] && (head + rest)[1..|head|] == head[1..] == head[1..|head|];
    }
  }
}
