/** The bytes of a record: a 4-byte tag, the fields, and an 8-byte checksum over both.
    The codecs of votes, log ids, payloads and user data belong to the user of the crate, and
    the checksum is any function with 8-byte results; what follows holds for all of them that
    are self-delimiting. */
module RecordCodecs {
  import opened RaftTypes
  import opened Codecs

  /** The codecs of the user's types, and the checksum. */
  datatype Format = Format(
    vote: Codec<Vote>,
    id: Codec<LogId>,
    payload: Codec<Bytes>,
    userData: Codec<Bytes>,
    sum: Checksum)

  ghost predicate Sound(f: Format) {
    && Lawful(f.vote) && Lawful(f.id) && Lawful(f.payload) && Lawful(f.userData)
    && Within(f.vote.dec) && Within(f.id.dec) && Within(f.payload.dec) && Within(f.userData.dec)
    && FixedWidth(f.sum)
  }

  const CHECKPOINT_TAG: nat := 5
  const STATE_VERSION: Byte := 1

  function ActionTag(a: Action): nat {
    match a
    case SaveVote(_) => 0
    case Append(_, _) => 1
    case Commit(_) => 2
    case TruncateAfter(_) => 3
    case PurgeUpto(_) => 4
  }

  function Tag(rec: Record): nat {
    match rec
    case Act(a) => ActionTag(a)
    case Checkpoint(_) => CHECKPOINT_TAG
  }

  type StateFields = ((((Option<Vote>, Option<LogId>), Option<LogId>), Option<LogId>), Option<Bytes>)

  function FieldsCodec(f: Format): Codec<StateFields> {
    Pair(Pair(Pair(Pair(Optional(f.vote), Optional(f.id)), Optional(f.id)), Optional(f.id)), Optional(f.userData))
  }

  function Fields(s: RaftLogState): StateFields {
    ((((s.vote, s.last), s.committed), s.purged), s.userData)
  }

  function FromFields(v: StateFields): RaftLogState {
    RaftLogState(v.0.0.0.0, v.0.0.0.1, v.0.0.1, v.0.1, v.1)
  }

  /** A state starts with its format version; other versions are not understood. */
  function StateCodec(f: Format): Codec<RaftLogState> {
    Codec((s: RaftLogState) => [STATE_VERSION] + FieldsCodec(f).enc(Fields(s)),
          s => ByFirst(version => b => StateBody(f, version, b), s))
  }

  function StateBody(f: Format, version: Byte, b: seq<Byte>): Parsed<RaftLogState> {
    if version == STATE_VERSION then Mapped(FieldsCodec(f).dec(b), FromFields) else Malformed
  }

  function EncodePayload(f: Format, rec: Record): seq<Byte> {
    match rec
    case Act(SaveVote(vote)) => f.vote.enc(vote)
    case Act(Append(id, payload)) => f.id.enc(id) + f.payload.enc(payload)
    case Act(Commit(id)) => f.id.enc(id)
    case Act(TruncateAfter(keep)) => Optional(f.id).enc(keep)
    case Act(PurgeUpto(id)) => f.id.enc(id)
    case Checkpoint(s) => StateCodec(f).enc(s)
  }

  function DecodePayload(f: Format, tag: nat, b: seq<Byte>): Parsed<Record> {
    if tag == 0 then Mapped(f.vote.dec(b), (vote: Vote) => Act(SaveVote(vote)))
    else if tag == 1 then Mapped(Sequence(f.id.dec, f.payload.dec, b), (v: (LogId, Bytes)) => Act(Append(v.0, v.1)))
    else if tag == 2 then Mapped(f.id.dec(b), (id: LogId) => Act(Commit(id)))
    else if tag == 3 then Mapped(Optional(f.id).dec(b), (keep: Option<LogId>) => Act(TruncateAfter(keep)))
    else if tag == 4 then Mapped(f.id.dec(b), (id: LogId) => Act(PurgeUpto(id)))
    else if tag == CHECKPOINT_TAG then Mapped(StateCodec(f).dec(b), (s: RaftLogState) => Checkpoint(s))
    else Malformed
  }

  function PayloadDecoder(f: Format): nat -> Decoder<Record> {
    tag => b => DecodePayload(f, tag, b)
  }

  function RecordCodec(f: Format): Codec<Record> {
    Codec((rec: Record) => Frame(f.sum, Tag(rec), EncodePayload(f, rec)), b => Unframe(f.sum, PayloadDecoder(f), b))
  }

  lemma StateInPieces(f: Format, s: RaftLogState)
    ensures StateCodec(f).enc(s) ==
              [STATE_VERSION] + (Optional(f.vote).enc(s.vote) + Optional(f.id).enc(s.last)
                                 + Optional(f.id).enc(s.committed) + Optional(f.id).enc(s.purged)
                                 + Optional(f.userData).enc(s.userData))
  {
    assert FieldsCodec(f).enc(Fields(s)) ==
           Optional(f.vote).enc(s.vote) + Optional(f.id).enc(s.last) + Optional(f.id).enc(s.committed)
           + Optional(f.id).enc(s.purged) + Optional(f.userData).enc(s.userData);
  }

  lemma FieldsLawful(f: Format)
    requires Sound(f)
    ensures Lawful(FieldsCodec(f))
  {
    var vote, id, userData := Optional(f.vote), Optional(f.id), Optional(f.userData);
    OptionalLawful(f.vote);
    OptionalLawful(f.id);
    OptionalLawful(f.userData);
    PairLawful(vote, id);
    PairLawful(Pair(vote, id), id);
    PairLawful(Pair(Pair(vote, id), id), id);
    PairLawful(Pair(Pair(Pair(vote, id), id), id), userData);
  }

  lemma StateReads(f: Format, s: RaftLogState)
    requires Sound(f)
    ensures Reads(StateCodec(f).dec, StateCodec(f).enc(s), s)
  {
    var c, code := FieldsCodec(f), FieldsCodec(f).enc(Fields(s));
    var dec := (version: Byte) => (b: seq<Byte>) => StateBody(f, version, b);
    FieldsLawful(f);
    assert Reads(c.dec, c.enc(Fields(s)), Fields(s));
    MappedReads(c.dec, code, Fields(s), FromFields, dec(STATE_VERSION));
    ByFirstReads(dec, STATE_VERSION, code, s);
  }

  lemma IdReads(f: Format, id: LogId)
    requires Sound(f)
    ensures Reads(PayloadDecoder(f)(2), f.id.enc(id), Act(Commit(id)))
    ensures Reads(PayloadDecoder(f)(4), f.id.enc(id), Act(PurgeUpto(id)))
  {
    assert Reads(f.id.dec, f.id.enc(id), id);
    MappedReads(f.id.dec, f.id.enc(id), id, (x: LogId) => Act(Commit(x)), PayloadDecoder(f)(2));
    MappedReads(f.id.dec, f.id.enc(id), id, (x: LogId) => Act(PurgeUpto(x)), PayloadDecoder(f)(4));
  }

  lemma AppendReads(f: Format, id: LogId, payload: Bytes)
    requires Sound(f)
    ensures Reads(PayloadDecoder(f)(1), f.id.enc(id) + f.payload.enc(payload), Act(Append(id, payload)))
  {
    var pair, code := Pair(f.id, f.payload), f.id.enc(id) + f.payload.enc(payload);
    PairLawful(f.id, f.payload);
    assert Reads(pair.dec, pair.enc((id, payload)), (id, payload));
    MappedReads(pair.dec, code, (id, payload), (v: (LogId, Bytes)) => Act(Append(v.0, v.1)), PayloadDecoder(f)(1));
  }

  lemma TruncateReads(f: Format, keep: Option<LogId>)
    requires Sound(f)
    ensures Reads(PayloadDecoder(f)(3), Optional(f.id).enc(keep), Act(TruncateAfter(keep)))
  {
    var c := Optional(f.id);
    OptionalLawful(f.id);
    assert Reads(c.dec, c.enc(keep), keep);
    MappedReads(c.dec, c.enc(keep), keep, (x: Option<LogId>) => Act(TruncateAfter(x)), PayloadDecoder(f)(3));
  }

  lemma CheckpointReads(f: Format, s: RaftLogState)
    requires Sound(f)
    ensures Reads(PayloadDecoder(f)(CHECKPOINT_TAG), StateCodec(f).enc(s), Checkpoint(s))
  {
    var c := StateCodec(f);
    StateReads(f, s);
    MappedReads(c.dec, c.enc(s), s, (x: RaftLogState) => Checkpoint(x), PayloadDecoder(f)(CHECKPOINT_TAG));
  }

  lemma VoteReads(f: Format, vote: Vote)
    requires Sound(f)
    ensures Reads(PayloadDecoder(f)(0), f.vote.enc(vote), Act(SaveVote(vote)))
  {
    assert Reads(f.vote.dec, f.vote.enc(vote), vote);
    MappedReads(f.vote.dec, f.vote.enc(vote), vote, (x: Vote) => Act(SaveVote(x)), PayloadDecoder(f)(0));
  }

  lemma PayloadReads(f: Format, rec: Record)
    requires Sound(f)
    ensures Reads(PayloadDecoder(f)(Tag(rec)), EncodePayload(f, rec), rec)
  {
    match rec
    case Act(SaveVote(vote)) => VoteReads(f, vote);
    case Act(Append(id, payload)) => AppendReads(f, id, payload);
    case Act(Commit(id)) => IdReads(f, id);
    case Act(TruncateAfter(keep)) => TruncateReads(f, keep);
    case Act(PurgeUpto(id)) => IdReads(f, id);
    case Checkpoint(s) => CheckpointReads(f, s);
  }

  /** Whatever follows a record, decoding returns that record and takes exactly its bytes;
      and a record cut anywhere runs out of bytes. */
  lemma RecordsAreSelfDelimiting(f: Format)
    requires Sound(f)
    ensures Lawful(RecordCodec(f)) && NeverEmpty(RecordCodec(f))
  {
    var c := RecordCodec(f);
    forall rec: Record ensures Reads(c.dec, c.enc(rec), rec) {
      PayloadReads(f, rec);
      assert Tag(rec) < 0x100 * Bound(3) == Bound(TAG_WIDTH);
      FrameReads(f.sum, PayloadDecoder(f), Tag(rec), EncodePayload(f, rec), rec);
    }
  }

  /** A record stream cut at any byte decodes to exactly the records that are wholly there. */
  lemma CutRecordsDecode(f: Format, recs: seq<Record>, n: nat)
    requires Sound(f) && n <= |EncodeAll(RecordCodec(f), recs)|
    ensures var c := RecordCodec(f);
            var k := Whole(c, recs, n);
            DecodeAll(c.dec, EncodeAll(c, recs)[..n]) ==
              (recs[..k], if n == |EncodeAll(c, recs[..k])| then Clean else Torn)
  {
    RecordsAreSelfDelimiting(f);
    CutStreamDecodes(RecordCodec(f), recs, n);
  }

  /** The records, and a torn one behind them: exactly the records come back. */
  lemma TornRecord(f: Format, recs: seq<Record>, last: Record, n: nat)
    requires Sound(f) && n < |RecordCodec(f).enc(last)|
    ensures var c := RecordCodec(f);
            DecodeAll(c.dec, EncodeAll(c, recs) + c.enc(last)[..n]) == (recs, if n == 0 then Clean else Torn)
  {
    RecordsAreSelfDelimiting(f);
    TornTail(RecordCodec(f), recs, last, n);
  }

  lemma TagDecides(f: Format, tag: nat, b: seq<Byte>)
    requires DecodePayload(f, tag, b).Done?
    ensures Tag(DecodePayload(f, tag, b).value) == tag
  {
  }

  /** What decodes has a known tag, and the checksum of its tag and payload right behind them. */
  lemma DecodedIsVerified(f: Format, b: seq<Byte>)
    requires RecordCodec(f).dec(b).Done?
    ensures var n, rec := RecordCodec(f).dec(b).used, RecordCodec(f).dec(b).value;
            && TAG_WIDTH + CHECKSUM_WIDTH <= n <= |b|
            && Number(b[..TAG_WIDTH]) == Tag(rec) <= CHECKPOINT_TAG
            && b[n - CHECKSUM_WIDTH..n] == f.sum(b[..n - CHECKSUM_WIDTH])
  {
    AcceptedIsVerified(f.sum, PayloadDecoder(f), b);
    TagDecides(f, Number(b[..TAG_WIDTH]), b[TAG_WIDTH..]);
  }

  /** Records, then one that is wholly there but has another checksum: it is corrupt, with
      whatever comes behind it, and not torn. */
  lemma WrongChecksumIsCorrupt(f: Format, recs: seq<Record>, rec: Record, stored: seq<Byte>, rest: seq<Byte>)
    requires Sound(f) && |stored| == 8
    requires stored != f.sum([0, 0, 0, TagNumber(rec)] + EncodePayload(f, rec))
    ensures var c, bad := RecordCodec(f), [0, 0, 0, TagNumber(rec)] + EncodePayload(f, rec) + stored + rest;
            c.dec(bad) == Malformed && DecodeAll(c.dec, EncodeAll(c, recs) + bad) == (recs, Corrupt)
  {
    RecordsAreSelfDelimiting(f);
    PayloadReads(f, rec);
    SmallNumber(Tag(rec));
    assert Tag(rec) < 0x100 * Bound(3) == Bound(TAG_WIDTH);
    WrongChecksum(f.sum, PayloadDecoder(f), Tag(rec), EncodePayload(f, rec), rec, stored, rest);
    CorruptTail(RecordCodec(f), recs, BigEndian(Tag(rec), 4) + EncodePayload(f, rec) + stored + rest);
  }

  /** Records, then a tag that none has: corrupt as soon as the tag is there. */
  lemma UnknownTagIsCorrupt(f: Format, recs: seq<Record>, tag: nat, rest: seq<Byte>)
    requires Sound(f) && 5 < tag < 0x1_0000_0000
    ensures var c, bad := RecordCodec(f), BigEndian(tag, 4) + rest;
            c.dec(bad) == Malformed && DecodeAll(c.dec, EncodeAll(c, recs) + bad) == (recs, Corrupt)
  {
    RecordsAreSelfDelimiting(f);
    assert Bound(TAG_WIDTH) == 0x100 * (0x100 * (0x100 * (0x100 * Bound(0))));
    WrongPayload(f.sum, PayloadDecoder(f), tag, rest);
    CorruptTail(RecordCodec(f), recs, BigEndian(tag, 4) + rest);
  }

  /** Records, then a checkpoint in another format version: corrupt as soon as the version is there. */
  lemma UnknownVersionIsCorrupt(f: Format, recs: seq<Record>, version: Byte, rest: seq<Byte>)
    requires Sound(f) && version != 1
    ensures var c, bad := RecordCodec(f), BigEndian(5, 4) + ([version] + rest);
            c.dec(bad) == Malformed && DecodeAll(c.dec, EncodeAll(c, recs) + bad) == (recs, Corrupt)
  {
    RecordsAreSelfDelimiting(f);
    assert 5 < 0x100 * Bound(3) == Bound(TAG_WIDTH);
    WrongPayload(f.sum, PayloadDecoder(f), 5, [version] + rest);
    CorruptTail(RecordCodec(f), recs, BigEndian(5, 4) + ([version] + rest));
  }

  /** Tags are numbered from 0 in the order of the actions; the checkpoint comes last. */
  function TagNumber(rec: Record): Byte {
    match rec
    case Act(SaveVote(_)) => 0
    case Act(Append(_, _)) => 1
    case Act(Commit(_)) => 2
    case Act(TruncateAfter(_)) => 3
    case Act(PurgeUpto(_)) => 4
    case Checkpoint(_) => 5
  }

  /** The bytes of a record: four of the tag, the payload, and eight of the checksum over both. */
  lemma RecordLayout(f: Format, rec: Record)
    requires Sound(f)
    ensures var body := [0, 0, 0, TagNumber(rec)] + EncodePayload(f, rec);
            RecordCodec(f).enc(rec) == body + f.sum(body) && |f.sum(body)| == 8
  {
    SmallNumber(Tag(rec));
  }
}
