/** A crash as the disk sees it: the files end at some byte. What opening finds in them is a
    whole number of records, so the crash is a cut between two records after all. */
module ByteCrashes {
  import opened RaftTypes
  import opened Codecs
  import opened RecordCodecs
  import opened Histories
  import opened Stores
  import opened Invariants
  import opened Recovery
  import opened Runs
  import opened Guarantees

  /** A chunk file as bytes. */
  datatype Image = Image(id: nat, bytes: seq<Byte>)

  function Images(c: Codec<Record>, files: seq<File>): seq<Image> {
    if files == [] then [] else [Image(files[0].id, EncodeAll(c, files[0].recs))] + Images(c, files[1..])
  }

  /** The first `n` bytes of the files; nothing of later ones. */
  function Tear(images: seq<Image>, n: nat): seq<Image> {
    if images == [] || n == 0 then []
    else if n < |images[0].bytes| then [images[0].(bytes := images[0].bytes[..n])]
    else [images[0]] + Tear(images[1..], n - |images[0].bytes|)
  }

  /** An incomplete record at the end of a file is dropped, and so is a file without a complete one. */
  function Recovered(dec: Decoder<Record>, images: seq<Image>): seq<File> {
    if images == [] then []
    else
      var recs := DecodeAll(dec, images[0].bytes).0;
      if recs == [] then [] else [File(images[0].id, recs)] + Recovered(dec, images[1..])
  }

  function Records(files: seq<File>): seq<Record> {
    if files == [] then [] else files[0].recs + Records(files[1..])
  }

  lemma {:induction false} RecordsFlat(files: seq<File>)
    ensures |Records(files)| == |Flatten(files)|
  {
    if files != [] {
      RecordsFlat(files[1..]);
    }
  }

  lemma {:induction false} WholeConcat<T>(c: Codec<T>, a: seq<T>, b: seq<T>, n: nat)
    ensures Whole(c, a + b, n) ==
              if |EncodeAll(c, a)| <= n then |a| + Whole(c, b, n - |EncodeAll(c, a)|) else Whole(c, a, n)
  {
    if a == [] {
      assert a + b == b;
    } else {
      assert (a + b)[1..] == a[1..] + b;
      if |c.enc(a[0])| <= n {
        WholeConcat(c, a[1..], b, n - |c.enc(a[0])|);
      }
    }
  }

  /** One file, cut within. */
  lemma TornFile(c: Codec<Record>, files: seq<File>, at: nat, n: nat)
    requires Lawful(c) && NeverEmpty(c) && Adjacent(files, at)
    requires files != [] && 0 < n < |EncodeAll(c, files[0].recs)|
    ensures Recovered(c.dec, Tear(Images(c, files), n)) == CutFiles(files, at + Whole(c, Records(files), n))
  {
    var f, k := files[0], Whole(c, files[0].recs, n);
    CutStreamDecodes(c, f.recs, n);
    WholeConcat(c, f.recs, Records(files[1..]), n);
    WholeIsMost(c, f.recs, n, |f.recs|);
    assert f.recs[..|f.recs|] == f.recs;
    var torn := Tear(Images(c, files), n);
    assert torn == [Image(f.id, EncodeAll(c, f.recs)[..n])] && torn[1..] == [];
    assert CutFiles(files[1..], at + k) == [];
  }

  lemma WholeFile(c: Codec<Record>, recs: seq<Record>)
    requires Lawful(c) && NeverEmpty(c)
    ensures DecodeAll(c.dec, EncodeAll(c, recs)) == (recs, Clean)
  {
    var n := |EncodeAll(c, recs)|;
    assert EncodeAll(c, recs)[..n] == EncodeAll(c, recs) && recs[..|recs|] == recs;
    WholeIsMost(c, recs, n, |recs|);
    CutStreamDecodes(c, recs, n);
  }

  /** Whatever byte the files end at, what is recovered is a cut of the record stream: behind
      the last record that is wholly there. */
  lemma {:induction false} ByteCutIsRecordCut(c: Codec<Record>, files: seq<File>, at: nat, n: nat)
    requires Lawful(c) && NeverEmpty(c) && Adjacent(files, at)
    ensures Recovered(c.dec, Tear(Images(c, files), n)) == CutFiles(files, at + Whole(c, Records(files), n))
  {
    if files != [] && n > 0 {
      var f, rest, size := files[0], files[1..], |EncodeAll(c, files[0].recs)|;
      if n < size {
        TornFile(c, files, at, n);
      } else {
        var torn := Tear(Images(c, files), n);
        assert torn == [Image(f.id, EncodeAll(c, f.recs))] + Tear(Images(c, rest), n - size);
        assert torn[1..] == Tear(Images(c, rest), n - size);
        WholeFile(c, f.recs);
        WholeConcat(c, f.recs, Records(rest), n);
        ByteCutIsRecordCut(c, rest, at + |f.recs|, n - size);
      }
    }
  }

  /** How many bytes of the files on disk are synced. */
  function SyncedBytes(c: Codec<Record>, w: Wal): nat {
    var recs, k := Records(Files(w)), w.synced - Base(w);
    if 0 <= k <= |recs| then |EncodeAll(c, recs[..k])| else 0
  }

  /** The record cut that a byte cut amounts to. */
  function RecordCut(c: Codec<Record>, w: Wal, n: nat): nat {
    Base(w) + Whole(c, Records(Files(w)), n)
  }

  lemma SyncedOnDisk(y: System)
    requires Inv(y)
    ensures var w := y.store.wal;
            && Adjacent(Files(w), Base(w))
            && Base(w) + |Flatten(Files(w))| == |Hist(y)|
            && Base(w) <= w.synced <= |Hist(y)|
  {
    DiskHolds(y);
    if Base(y.store.wal) > 0 {
      BaseIsSynced(y);
    }
  }

  lemma RecordCutInRange(c: Codec<Record>, w: Wal, n: nat)
    requires Base(w) <= w.synced <= Base(w) + |Records(Files(w))| && SyncedBytes(c, w) <= n
    ensures w.synced <= RecordCut(c, w, n) <= Base(w) + |Records(Files(w))|
  {
    WholeIsMost(c, Records(Files(w)), n, w.synced - Base(w));
  }

  lemma RecoveredCut(c: Codec<Record>, w: Wal, n: nat)
    requires Lawful(c) && NeverEmpty(c) && SyncedBytes(c, w) <= n
    requires Adjacent(Files(w), Base(w)) && Base(w) <= w.synced <= Base(w) + |Flatten(Files(w))|
    ensures w.synced <= RecordCut(c, w, n) <= Base(w) + |Flatten(Files(w))|
    ensures Recovered(c.dec, Tear(Images(c, Files(w)), n)) == CutFiles(Files(w), RecordCut(c, w, n))
  {
    RecordsFlat(Files(w));
    RecordCutInRange(c, w, n);
    ByteCutIsRecordCut(c, Files(w), Base(w), n);
  }

  /** A crash may end the files at any byte that is not synced. Opening what decodes never
      fails, and the opened store has the state and answers every read of the first records
      of the stream, all synced ones among them. */
  lemma ByteCrashLosesOnlyTheTail(y: System, f: Format, cfg: Config, n: nat, reuse: bool, from: nat, to: nat)
    requires Reachable(y) && Sound(f) && SyncedBytes(RecordCodec(f), y.store.wal) <= n
    ensures var c, w := RecordCodec(f), y.store.wal;
            var cut := RecordCut(c, w, n);
            var r := Open(cfg, Recovered(c.dec, Tear(Images(c, Files(w)), n)), w.synced, reuse);
            && w.synced <= cut <= |Hist(y)|
            && r.Ok?
            && r.value.sm.state == StateOf(Hist(y)[..cut])
            && Read(r.value, from, to) == Found(Slice(EntriesOf(Hist(y)[..cut]), from, to))
  {
    RecordsAreSelfDelimiting(f);
    ByteCrashWith(y, RecordCodec(f), cfg, n, reuse, from, to);
  }

  lemma ByteCrashWith(y: System, c: Codec<Record>, cfg: Config, n: nat, reuse: bool, from: nat, to: nat)
    requires Reachable(y) && Lawful(c) && NeverEmpty(c) && SyncedBytes(c, y.store.wal) <= n
    ensures var w := y.store.wal;
            var cut := RecordCut(c, w, n);
            var r := Open(cfg, Recovered(c.dec, Tear(Images(c, Files(w)), n)), w.synced, reuse);
            && w.synced <= cut <= |Hist(y)|
            && r.Ok?
            && r.value.sm.state == StateOf(Hist(y)[..cut])
            && Read(r.value, from, to) == Found(Slice(EntriesOf(Hist(y)[..cut]), from, to))
  {
    ReachableInv(y);
    SyncedOnDisk(y);
    RecoveredCut(c, y.store.wal, n);
    CrashLosesOnlyTheTail(y, cfg, RecordCut(c, y.store.wal, n), reuse, from, to);
  }
}
