/** Encoding into a writer and decoding from a reader, step by step as the source does it. */
module RecordStreams {
  import opened RaftTypes
  import opened Codecs
  import opened RecordCodecs

  datatype IoError = UnexpectedEof | InvalidData

  // ---- writing ----

  class Writer {
    var out: seq<Byte>

    constructor ()
      ensures out == []
    {
      out := [];
    }

    method Write(b: seq<Byte>) returns (n: nat)
      modifies this
      ensures out == old(out) + b && n == |b|
    {
      out := out + b;
      n := |b|;
    }
  }

  /** Passes bytes on, and remembers them for the checksum. */
  class ChecksumWriter {
    const sum: Checksum
    const w: Writer
    var hashed: seq<Byte>
    ghost const before: seq<Byte>

    ghost predicate Valid()
      reads this, w
    {
      w.out == before + hashed
    }

    constructor (sum: Checksum, w: Writer)
      ensures Valid() && this.sum == sum && this.w == w && hashed == [] && before == w.out
    {
      this.sum, this.w, hashed, before := sum, w, [], w.out;
    }

    method Write(b: seq<Byte>) returns (n: nat)
      requires Valid()
      modifies this`hashed, w
      ensures Valid() && hashed == old(hashed) + b && n == |b|
    {
      n := w.Write(b);
      hashed := hashed + b;
    }

    method WriteChecksum() returns (n: nat)
      requires Valid()
      modifies w
      ensures w.out == before + (hashed + sum(hashed)) && n == |sum(hashed)|
    {
      n := w.Write(sum(hashed));
    }

    /** The fields of a state, behind its format version. */
    method WriteState(f: Format, s: RaftLogState) returns (n: nat)
      requires Valid()
      modifies this`hashed, w
      ensures Valid() && hashed == old(hashed) + StateCodec(f).enc(s) && n == |StateCodec(f).enc(s)|
    {
      n := Write([STATE_VERSION]);
      var k := Write(Optional(f.vote).enc(s.vote));
      n := n + k;
      k := Write(Optional(f.id).enc(s.last));
      n := n + k;
      k := Write(Optional(f.id).enc(s.committed));
      n := n + k;
      k := Write(Optional(f.id).enc(s.purged));
      n := n + k;
      k := Write(Optional(f.userData).enc(s.userData));
      n := n + k;
      StateAppended(f, s, old(hashed));
    }

    method WritePayload(f: Format, rec: Record) returns (n: nat)
      requires Valid()
      modifies this`hashed, w
      ensures Valid() && hashed == old(hashed) + EncodePayload(f, rec) && n == |EncodePayload(f, rec)|
    {
      match rec
      case Act(SaveVote(vote)) => n := Write(f.vote.enc(vote));
      case Act(Append(id, payload)) =>
        n := Write(f.id.enc(id));
        var k := Write(f.payload.enc(payload));
        n := n + k;
      case Act(Commit(id)) => n := Write(f.id.enc(id));
      case Act(TruncateAfter(keep)) => n := Write(Optional(f.id).enc(keep));
      case Act(PurgeUpto(id)) => n := Write(f.id.enc(id));
      case Checkpoint(s) => n := WriteState(f, s);
    }
  }

  lemma StateAppended(f: Format, s: RaftLogState, h: seq<Byte>)
    ensures var a, b, c := Optional(f.vote).enc(s.vote), Optional(f.id).enc(s.last), Optional(f.id).enc(s.committed);
            var d, e := Optional(f.id).enc(s.purged), Optional(f.userData).enc(s.userData);
            h + [STATE_VERSION] + a + b + c + d + e == h + StateCodec(f).enc(s)
  {
    var a, b, c := Optional(f.vote).enc(s.vote), Optional(f.id).enc(s.last), Optional(f.id).enc(s.committed);
    var d, e := Optional(f.id).enc(s.purged), Optional(f.userData).enc(s.userData);
    StateInPieces(f, s);
    Regroup(h, [STATE_VERSION], a, b, c, d, e);
  }

  lemma Regroup<T>(h: seq<T>, v: seq<T>, a: seq<T>, b: seq<T>, c: seq<T>, d: seq<T>, e: seq<T>)
    ensures h + v + a + b + c + d + e == h + (v + (a + b + c + d + e))
  {
  }

  /** Appends exactly the encoding of the record, and says how long it is. */
  method WriteRecord(f: Format, rec: Record, w: Writer) returns (n: nat)
    modifies w
    ensures w.out == old(w.out) + RecordCodec(f).enc(rec) && n == |RecordCodec(f).enc(rec)|
  {
    n := 0;
    var cw := new ChecksumWriter(f.sum, w);
    var tag := Tag(rec);
    if rec.Act? && tag == CHECKPOINT_TAG {
      // No action has the reserved tag.
      assert false;
    }
    var k := cw.Write(BigEndian(tag, TAG_WIDTH));
    n := n + k;
    k := cw.WritePayload(f, rec);
    n := n + k;
    assert cw.hashed == BigEndian(tag, TAG_WIDTH) + EncodePayload(f, rec);
    k := cw.WriteChecksum();
    n := n + k;
  }

  // ---- reading ----

  /** What a decoding of the bytes at `from` returns, and where it leaves the reader; after a
      failure the position is open. */
  ghost predicate Taken<T>(p: Parsed<T>, r: Result<T, IoError>, from: nat, pos: nat) {
    match p
    case Done(v, n) => r == Ok(v) && pos == from + n
    case NeedMore => r == Err(UnexpectedEof)
    case Malformed => r == Err(InvalidData)
  }

  function Exactly(k: nat, b: seq<Byte>): Parsed<seq<Byte>> {
    if |b| < k then NeedMore else Done(b[..k], k)
  }

  class Reader {
    const data: seq<Byte>
    var pos: nat

    ghost predicate Valid()
      reads this
    {
      pos <= |data|
    }

    constructor (data: seq<Byte>)
      ensures Valid() && this.data == data && pos == 0
    {
      this.data, pos := data, 0;
    }

    /** A field decodes itself from what is left. */
    method Read<T(!new)>(dec: Decoder<T>) returns (r: Result<T, IoError>)
      requires Valid() && Within(dec)
      modifies this`pos
      ensures Valid() && Taken(dec(data[old(pos)..]), r, old(pos), pos)
    {
      match dec(data[pos..])
      case Done(v, n) =>
        pos := pos + n;
        r := Ok(v);
      case NeedMore => r := Err(UnexpectedEof);
      case Malformed => r := Err(InvalidData);
    }

    /** Reads one more field behind what was read from `from` on. */
    method Then<A(!new), B(!new)>(ghost a: Decoder<A>, x: A, b: Decoder<B>, ghost from: nat)
      returns (r: Result<(A, B), IoError>)
      requires Valid() && from <= pos && a(data[from..]) == Done(x, pos - from) && Within(b)
      modifies this`pos
      ensures Valid() && Taken(Sequence(a, b, data[from..]), r, from, pos)
    {
      assert data[from..][pos - from..] == data[pos..];
      var y := Read(b);
      if y.Err? {
        return Err(y.error);
      }
      r := Ok((x, y.value));
    }

    /** Five fields, one behind the other. */
    method ReadFive<A(!new), B(!new), C(!new), D(!new), E(!new)>(
      a: Codec<A>, b: Codec<B>, c: Codec<C>, d: Codec<D>, e: Codec<E>)
      returns (r: Result<((((A, B), C), D), E), IoError>)
      requires Valid() && Within(a.dec) && Within(b.dec) && Within(c.dec) && Within(d.dec) && Within(e.dec)
      modifies this`pos
      ensures Valid() && Taken(Pair(Pair(Pair(Pair(a, b), c), d), e).dec(data[old(pos)..]), r, old(pos), pos)
    {
      ghost var from := pos;
      var v1 := Read(a.dec);
      if v1.Err? {
        return Err(v1.error);
      }
      var v2 := Then(a.dec, v1.value, b.dec, from);
      if v2.Err? {
        return Err(v2.error);
      }
      var v3 := Then(Pair(a, b).dec, v2.value, c.dec, from);
      if v3.Err? {
        return Err(v3.error);
      }
      var v4 := Then(Pair(Pair(a, b), c).dec, v3.value, d.dec, from);
      if v4.Err? {
        return Err(v4.error);
      }
      r := Then(Pair(Pair(Pair(a, b), c), d).dec, v4.value, e.dec, from);
    }

    /** The fields of a state, behind its format version. */
    method ReadState(f: Format) returns (r: Result<RaftLogState, IoError>)
      requires Valid() && Sound(f)
      modifies this`pos
      ensures Valid() && Taken(StateCodec(f).dec(data[old(pos)..]), r, old(pos), pos)
    {
      OptionalWithin(f.vote);
      OptionalWithin(f.id);
      OptionalWithin(f.userData);
      var version := Read(b => Exactly(1, b));
      if version.Err? {
        return Err(version.error);
      }
      if version.value[0] != STATE_VERSION {
        return Err(InvalidData);
      }
      assert data[old(pos)..][1..] == data[pos..];
      var v := ReadFive(Optional(f.vote), Optional(f.id), Optional(f.id), Optional(f.id), Optional(f.userData));
      if v.Err? {
        return Err(v.error);
      }
      r := Ok(FromFields(v.value));
    }

    method ReadPayload(f: Format, tag: nat) returns (r: Result<Record, IoError>)
      requires Valid() && Sound(f)
      modifies this`pos
      ensures Valid() && Taken(DecodePayload(f, tag, data[old(pos)..]), r, old(pos), pos)
    {
      match tag
      case 0 =>
        var vote := Read(f.vote.dec);
        r := if vote.Ok? then Ok(Act(SaveVote(vote.value))) else Err(vote.error);
      case 1 =>
        var id := Read(f.id.dec);
        if id.Err? {
          return Err(id.error);
        }
        var entry := Then(f.id.dec, id.value, f.payload.dec, old(pos));
        r := if entry.Ok? then Ok(Act(Append(entry.value.0, entry.value.1))) else Err(entry.error);
      case 2 =>
        var id := Read(f.id.dec);
        r := if id.Ok? then Ok(Act(Commit(id.value))) else Err(id.error);
      case 3 =>
        OptionalWithin(f.id);
        var keep := Read(Optional(f.id).dec);
        r := if keep.Ok? then Ok(Act(TruncateAfter(keep.value))) else Err(keep.error);
      case 4 =>
        var id := Read(f.id.dec);
        r := if id.Ok? then Ok(Act(PurgeUpto(id.value))) else Err(id.error);
      case 5 =>
        var s := ReadState(f);
        r := if s.Ok? then Ok(Checkpoint(s.value)) else Err(s.error);
      case _ =>
        r := Err(InvalidData);
    }

    /** The tag and the payload of a record. */
    method ReadTagged(f: Format) returns (r: Result<Record, IoError>)
      requires Valid() && Sound(f)
      modifies this`pos
      ensures Valid() && Taken(Tagged(PayloadDecoder(f), data[old(pos)..]), r, old(pos), pos)
    {
      var tag := Read(b => Exactly(TAG_WIDTH, b));
      if tag.Err? {
        return Err(tag.error);
      }
      assert data[old(pos)..][TAG_WIDTH..] == data[pos..];
      r := ReadPayload(f, Number(tag.value));
    }

    /** The checksum has to match everything read since `start`. */
    method VerifyChecksum<T(!new)>(sum: Checksum, ghost dec: nat -> Decoder<T>, v: T, start: nat)
      returns (r: Result<T, IoError>)
      requires Valid() && start <= pos && FixedWidth(sum)
      requires Tagged(dec, data[start..]) == Done(v, pos - start)
      modifies this`pos
      ensures Valid() && Taken(Unframe(sum, dec, data[start..]), r, start, pos)
      ensures |data| < old(pos) + 8 ==> r == Err(UnexpectedEof)
      ensures old(pos) + 8 <= |data| && data[old(pos)..old(pos) + 8] != sum(data[start..old(pos)]) ==>
                r == Err(InvalidData)
    {
      var hashed := data[start..pos];
      ghost var b, n := data[start..], pos - start;
      assert b[..n] == hashed && b[n..] == data[pos..];
      assert Unframe(sum, dec, b) == Verify(sum, b, v, n);
      var stored := Read(rest => Exactly(CHECKSUM_WIDTH, rest));
      if stored.Err? {
        return Err(stored.error);
      }
      assert b[n..n + CHECKSUM_WIDTH] == b[n..][..CHECKSUM_WIDTH] == stored.value;
      r := if stored.value == sum(hashed) then Ok(v) else Err(InvalidData);
    }

    /** Returns the record that starts here, and stops right behind it. */
    method ReadRecord(f: Format) returns (r: Result<Record, IoError>)
      requires Valid() && Sound(f)
      modifies this`pos
      ensures Valid() && Taken(RecordCodec(f).dec(data[old(pos)..]), r, old(pos), pos)
    {
      var start := pos;
      r := ReadTagged(f);
      if r.Ok? {
        r := VerifyChecksum(f.sum, PayloadDecoder(f), r.value, start);
      }
    }
  }
}
