/** The field codecs that the tests of the crate use: numbers are big-endian `u64`, and
    strings follow their length as a big-endian `u32`. They keep the law that the record
    codec asks for. */
module TestFormats {
  import opened RaftTypes
  import opened Codecs
  import opened RecordCodecs

  lemma {:induction false} NumberBound(b: seq<Byte>)
    ensures Number(b) < Bound(|b|)
  {
    if b != [] {
      NumberBound(b[..|b| - 1]);
    }
  }

  lemma Bounds()
    ensures Bound(4) == 0x1_0000_0000 && Bound(8) == U64_MAX + 1
  {
    assert Bound(8) == 0x100 * (0x100 * (0x100 * (0x100 * Bound(4))));
    assert Bound(4) == 0x100 * (0x100 * (0x100 * (0x100 * Bound(0))));
  }

  function U64At(b: seq<Byte>): U64
    requires |b| == 8
  {
    Bounds();
    NumberBound(b);
    Number(b)
  }

  function DecodeU64(b: seq<Byte>): Parsed<U64> {
    if |b| < 8 then NeedMore else Done(U64At(b[..8]), 8)
  }

  function U64Codec(): Codec<U64> {
    Codec((n: U64) => BigEndian(n, 8), DecodeU64)
  }

  lemma U64Lawful()
    ensures Lawful(U64Codec()) && Within(U64Codec().dec)
  {
    var c := U64Codec();
    forall n: U64 ensures Reads(c.dec, c.enc(n), n) {
      Bounds();
      NumberOfBytes(n, 8);
      forall rest: seq<Byte> ensures c.dec(c.enc(n) + rest) == Done(n, 8) {
        assert (c.enc(n) + rest)[..8] == c.enc(n);
      }
    }
  }

  function VoteCodec(): Codec<Vote> {
    var pair := Pair(U64Codec(), U64Codec());
    Codec((v: Vote) => pair.enc((v.term, v.node)), b => Mapped(pair.dec(b), (p: (U64, U64)) => Vote(p.0, p.1)))
  }

  lemma VoteLawful()
    ensures Lawful(VoteCodec()) && Within(VoteCodec().dec)
  {
    var c, pair := VoteCodec(), Pair(U64Codec(), U64Codec());
    U64Lawful();
    PairLawful(U64Codec(), U64Codec());
    forall v: Vote ensures Reads(c.dec, c.enc(v), v) {
      assert Reads(pair.dec, pair.enc((v.term, v.node)), (v.term, v.node));
      MappedReads(pair.dec, c.enc(v), (v.term, v.node), (p: (U64, U64)) => Vote(p.0, p.1), c.dec);
    }
    forall b: seq<Byte> | c.dec(b).Done? ensures c.dec(b).used <= |b| {
      assert pair.dec(b).Done?;
    }
  }

  function IdCodec(): Codec<LogId> {
    Codec((id: LogId) => BigEndian(id.term, 8) + BigEndian(id.index, 8), DecodeId)
  }

  /** An index of `u64::MAX` has no next index; no log id carries it. */
  function DecodeId(b: seq<Byte>): Parsed<LogId> {
    match Sequence(DecodeU64, DecodeU64, b)
    case NeedMore => NeedMore
    case Malformed => Malformed
    case Done(p, n) => if p.1 == U64_MAX then Malformed else Done(LogId(p.0, p.1), n)
  }

  lemma IdLawful()
    ensures Lawful(IdCodec()) && Within(IdCodec().dec)
  {
    var c, pair := IdCodec(), Pair(U64Codec(), U64Codec());
    U64Lawful();
    PairLawful(U64Codec(), U64Codec());
    forall id: LogId ensures Reads(c.dec, c.enc(id), id) {
      assert Reads(pair.dec, pair.enc((id.term, id.index)), (id.term, id.index));
      assert c.enc(id) == pair.enc((id.term, id.index));
    }
  }

  function StringCodec(): Codec<Bytes> {
    Codec((s: Bytes) => BigEndian(|s|, 4) + s, DecodeString)
  }

  function DecodeString(b: seq<Byte>): Parsed<Bytes> {
    if |b| < 4 then NeedMore
    else
      var n := Number(b[..4]);
      Bounds();
      NumberBound(b[..4]);
      if |b| < 4 + n then NeedMore else Done(b[4..4 + n], 4 + n)
  }

  lemma StringLawful()
    ensures Lawful(StringCodec()) && Within(StringCodec().dec)
  {
    var c := StringCodec();
    forall s: Bytes ensures Reads(c.dec, c.enc(s), s) {
      Bounds();
      NumberOfBytes(|s|, 4);
      forall rest: seq<Byte> ensures c.dec(c.enc(s) + rest) == Done(s, |c.enc(s)|) {
        assert (c.enc(s) + rest)[..4] == BigEndian(|s|, 4);
        assert (c.enc(s) + rest)[4..4 + |s|] == s;
      }
      forall n: int | 0 <= n < |c.enc(s)| ensures c.dec(c.enc(s)[..n]) == NeedMore {
        if 4 <= n {
          assert c.enc(s)[..n][..4] == BigEndian(|s|, 4);
        }
      }
    }
  }

  function TestFormat(sum: Checksum): Format {
    Format(VoteCodec(), IdCodec(), StringCodec(), StringCodec(), sum)
  }

  /** Any checksum of the right width makes a sound format. */
  lemma TestFormatIsSound(sum: Checksum)
    requires FixedWidth(sum)
    ensures Sound(TestFormat(sum))
  {
    VoteLawful();
    IdLawful();
    StringLawful();
  }

  lemma PairOfNumbers(a: Byte, b: Byte)
    ensures BigEndian(a, 8) + BigEndian(b, 8) == TwoNumbers(a, b)
  {
    SmallNumber(a);
    SmallNumber(b);
  }

  /** A tag below 256 in four bytes, the payload, and the checksum of both. */
  function Framed(sum: Checksum, tag: Byte, payload: seq<Byte>): seq<Byte> {
    var body := [0, 0, 0, tag] + payload;
    body + sum(body)
  }

  /** Two small numbers as two big-endian `u64`. */
  function TwoNumbers(a: Byte, b: Byte): seq<Byte> {
    [0, 0, 0, 0, 0, 0, 0, a, 0, 0, 0, 0, 0, 0, 0, b]
  }

  lemma FrameVector(sum: Checksum, rec: Record, payload: seq<Byte>)
    requires EncodePayload(TestFormat(sum), rec) == payload
    ensures RecordCodec(TestFormat(sum)).enc(rec) == Framed(sum, TagNumber(rec), payload)
  {
    SmallNumber(Tag(rec));
  }

  lemma VoteBytes(sum: Checksum, a: Byte, b: Byte)
    ensures RecordCodec(TestFormat(sum)).enc(Act(SaveVote(Vote(a, b)))) == Framed(sum, 0, TwoNumbers(a, b))
  {
    PairOfNumbers(a, b);
    FrameVector(sum, Act(SaveVote(Vote(a, b))), TwoNumbers(a, b));
  }

  lemma CommitBytes(sum: Checksum, a: Byte, b: Byte)
    ensures RecordCodec(TestFormat(sum)).enc(Act(Commit(LogId(a, b)))) == Framed(sum, 2, TwoNumbers(a, b))
  {
    PairOfNumbers(a, b);
    FrameVector(sum, Act(Commit(LogId(a, b))), TwoNumbers(a, b));
  }

  lemma PurgeBytes(sum: Checksum, a: Byte, b: Byte)
    ensures RecordCodec(TestFormat(sum)).enc(Act(PurgeUpto(LogId(a, b)))) == Framed(sum, 4, TwoNumbers(a, b))
  {
    PairOfNumbers(a, b);
    FrameVector(sum, Act(PurgeUpto(LogId(a, b))), TwoNumbers(a, b));
  }

  lemma TruncateBytes(sum: Checksum, a: Byte, b: Byte)
    ensures RecordCodec(TestFormat(sum)).enc(Act(TruncateAfter(Some(LogId(a, b))))) ==
              Framed(sum, 3, [1] + TwoNumbers(a, b))
  {
    PairOfNumbers(a, b);
    FrameVector(sum, Act(TruncateAfter(Some(LogId(a, b)))), [1] + TwoNumbers(a, b));
  }

  /** A truncation that keeps nothing. */
  lemma TruncateAllBytes(sum: Checksum)
    ensures RecordCodec(TestFormat(sum)).enc(Act(TruncateAfter(None))) == Framed(sum, 3, [0])
  {
    FrameVector(sum, Act(TruncateAfter(None)), [0]);
  }

  /** An append of any short text, such as that of the test vector. */
  lemma AppendBytes(sum: Checksum, a: Byte, b: Byte, text: Bytes)
    requires |text| < 0x100
    ensures RecordCodec(TestFormat(sum)).enc(Act(Append(LogId(a, b), text))) ==
              Framed(sum, 1, TwoNumbers(a, b) + ([0, 0, 0, |text|] + text))
  {
    PairOfNumbers(a, b);
    SmallNumber(|text|);
    FrameVector(sum, Act(Append(LogId(a, b), text)), TwoNumbers(a, b) + ([0, 0, 0, |text|] + text));
  }

  /** The records of the crate's own test vectors, byte by byte: tag, fields, and then the
      checksum of both. */
  lemma TestVectors(sum: Checksum)
    ensures var c := RecordCodec(TestFormat(sum));
            && c.enc(Act(SaveVote(Vote(1, 2)))) == Framed(sum, 0, TwoNumbers(1, 2))
            && c.enc(Act(Commit(LogId(1, 2)))) == Framed(sum, 2, TwoNumbers(1, 2))
            && c.enc(Act(TruncateAfter(Some(LogId(1, 2))))) == Framed(sum, 3, [1] + TwoNumbers(1, 2))
            && c.enc(Act(PurgeUpto(LogId(1, 2)))) == Framed(sum, 4, TwoNumbers(1, 2))
  {
    VoteBytes(sum, 1, 2);
    CommitBytes(sum, 1, 2);
    TruncateBytes(sum, 1, 2);
    PurgeBytes(sum, 1, 2);
  }

  lemma PresentPair(sum: Checksum, a: Byte, b: Byte)
    ensures Optional(TestFormat(sum).vote).enc(Some(Vote(a, b))) == [1] + TwoNumbers(a, b)
    ensures Optional(TestFormat(sum).id).enc(Some(LogId(a, b))) == [1] + TwoNumbers(a, b)
  {
    PairOfNumbers(a, b);
  }

  lemma PresentString(sum: Checksum, s: Bytes)
    requires |s| < 0x100
    ensures Optional(TestFormat(sum).userData).enc(Some(s)) == [1] + ([0, 0, 0, |s|] + s)
  {
    SmallNumber(|s|);
  }

  /** So is the checkpoint of the test vectors, in which all five fields of the state are
      present, whatever short text the last of them is. */
  lemma CheckpointVector(sum: Checksum, text: Bytes)
    requires |text| < 0x100
    ensures var s := RaftLogState(Some(Vote(1, 2)), Some(LogId(2, 3)), Some(LogId(4, 5)), Some(LogId(6, 7)),
                                  Some(text));
            RecordCodec(TestFormat(sum)).enc(Checkpoint(s)) ==
              Framed(sum, 5, StateBytes(1, 2, 2, 3, 4, 5, 6, 7, [0, 0, 0, |text|] + text))
  {
    var s := RaftLogState(Some(Vote(1, 2)), Some(LogId(2, 3)), Some(LogId(4, 5)), Some(LogId(6, 7)), Some(text));
    PresentState(sum, 1, 2, 2, 3, 4, 5, 6, 7, text);
    FrameVector(sum, Checkpoint(s), StateBytes(1, 2, 2, 3, 4, 5, 6, 7, [0, 0, 0, |text|] + text));
  }

  /** Format version 1, then five fields that are present. */
  function StateBytes(a: Byte, b: Byte, c: Byte, d: Byte, e: Byte, g: Byte, h: Byte, i: Byte,
                      text: seq<Byte>): seq<Byte> {
    [1] + ([1] + TwoNumbers(a, b) + ([1] + TwoNumbers(c, d)) + ([1] + TwoNumbers(e, g))
           + ([1] + TwoNumbers(h, i)) + ([1] + text))
  }

  lemma PresentState(sum: Checksum, a: Byte, b: Byte, c: Byte, d: Byte, e: Byte, g: Byte, h: Byte, i: Byte,
                     data: Bytes)
    requires |data| < 0x100
    ensures var s := RaftLogState(Some(Vote(a, b)), Some(LogId(c, d)), Some(LogId(e, g)), Some(LogId(h, i)),
                                  Some(data));
            EncodePayload(TestFormat(sum), Checkpoint(s)) ==
              StateBytes(a, b, c, d, e, g, h, i, [0, 0, 0, |data|] + data)
  {
    var s := RaftLogState(Some(Vote(a, b)), Some(LogId(c, d)), Some(LogId(e, g)), Some(LogId(h, i)), Some(data));
    StateInPieces(TestFormat(sum), s);
    PresentPair(sum, a, b);
    PresentPair(sum, c, d);
    PresentPair(sum, e, g);
    PresentPair(sum, h, i);
    PresentString(sum, data);
  }
}
