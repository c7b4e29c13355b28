/** Facts about chunk files and the record stream they hold. */
module ChunkFiles {
  import opened RaftTypes
  import opened Histories
  import opened Stores

  lemma {:induction false} FlattenConcat(a: seq<File>, b: seq<File>)
    ensures Flatten(a + b) == Flatten(a) + Flatten(b)
  {
    if a == [] {
      assert a + b == b;
    } else {
      assert (a + b)[1..] == a[1..] + b;
      FlattenConcat(a[1..], b);
    }
  }

  lemma FlattenOne(f: File)
    ensures Flatten([f]) == Place(f)
  {
    assert [f][1..] == [];
  }

  lemma {:induction false} AdjacentConcat(a: seq<File>, b: seq<File>, at: nat)
    ensures Adjacent(a + b, at) <==> Adjacent(a, at) && Adjacent(b, at + |Flatten(a)|)
  {
    if a == [] {
      assert a + b == b;
    } else {
      assert (a + b)[1..] == a[1..] + b;
      AdjacentConcat(a[1..], b, at + |a[0].recs|);
    }
  }

  /** The open file ends where the stream ends, and the last record is in the open chunk. */
  lemma OpenAtEnd(files: seq<File>, open: File, at: nat)
    requires Adjacent(files + [open], at)
    ensures Flatten(files + [open]) == Flatten(files) + Place(open)
    ensures open.id == at + |Flatten(files)| && open.recs != []
    ensures Final(Flatten(files + [open])).chunk == open.id
  {
    FlattenConcat(files, [open]);
    FlattenOne(open);
    AdjacentConcat(files, [open], at);
  }

  lemma PushFile(files: seq<File>, open: File, rec: Record, at: nat)
    requires Adjacent(files + [open], at)
    ensures var grown := open.(recs := open.recs + [rec]);
            && Adjacent(files + [grown], at)
            && Flatten(files + [grown]) == Flatten(files + [open]) + [Placed(rec, open.id)]
  {
    var grown := open.(recs := open.recs + [rec]);
    OpenAtEnd(files, open, at);
    AdjacentConcat(files, [open], at);
    AdjacentConcat(files, [grown], at);
    assert Adjacent([grown], at + |Flatten(files)|) by {
      assert [grown][1..] == [];
      assert Adjacent([grown][1..], at + |Flatten(files)| + |grown.recs|);
    }
    FlattenConcat(files, [grown]);
    FlattenOne(grown);
    assert Place(grown) == Place(open) + [Placed(rec, open.id)];
  }

  lemma NewFile(files: seq<File>, rec: Record, at: nat)
    requires Adjacent(files, at)
    ensures var f := File(at + |Flatten(files)|, [rec]);
            && Adjacent(files + [f], at)
            && Flatten(files + [f]) == Flatten(files) + [Placed(rec, f.id)]
  {
    var f := File(at + |Flatten(files)|, [rec]);
    AdjacentConcat(files, [f], at);
    FlattenConcat(files, [f]);
    FlattenOne(f);
    assert Place(f) == [Placed(rec, f.id)];
  }

  lemma {:induction false} FlattenChunks(files: seq<File>, at: nat)
    requires Adjacent(files, at)
    ensures forall i :: 0 <= i < |Flatten(files)| ==> at <= Flatten(files)[i].chunk
  {
    if files != [] {
      FlattenChunks(files[1..], at + |files[0].recs|);
    }
  }

  /** A location inside the files loads the record the stream has there. */
  lemma {:induction false} LoadFinds(files: seq<File>, at: nat, segment: nat)
    requires Adjacent(files, at) && at <= segment < at + |Flatten(files)|
    ensures Load(files, Flatten(files)[segment - at].chunk, segment) == Some(Flatten(files)[segment - at].rec)
  {
    var f, d := files[0], Flatten(files);
    if segment < at + |f.recs| {
      assert d[segment - at] == Place(f)[segment - at];
    } else {
      var next := at + |f.recs|;
      FlattenChunks(files[1..], next);
      LoadFinds(files[1..], next, segment);
      assert d[segment - at] == Flatten(files[1..])[segment - next];
    }
  }

  /** A crash at `cut` leaves adjacent files that hold the stream up to `cut`. */
  lemma {:induction false} CutStream(files: seq<File>, at: nat, cut: nat)
    requires Adjacent(files, at) && at <= cut <= at + |Flatten(files)|
    ensures Adjacent(CutFiles(files, cut), at)
    ensures Flatten(CutFiles(files, cut)) == Flatten(files)[..cut - at]
  {
    if files != [] && at < cut {
      var f, rest := files[0], files[1..];
      var next := at + |f.recs|;
      if cut <= next {
        assert CutFiles(rest, cut) == [];
        var g := f.(recs := f.recs[..cut - at]);
        assert f.recs[..|f.recs|] == f.recs;
        assert CutFiles(files, cut) == [g];
        FlattenOne(g);
        assert Place(g) == Place(f)[..cut - at];
      } else {
        CutStream(rest, next, cut);
        assert CutFiles(files, cut) == [f] + CutFiles(rest, cut);
        assert CutFiles(files, cut)[1..] == CutFiles(rest, cut);
      }
    }
  }

  /** The first `k` files hold the stream up to the start of file `k`. */
  lemma FilesBefore(files: seq<File>, at: nat, k: nat)
    requires Adjacent(files, at) && k < |files|
    ensures at <= files[k].id < at + |Flatten(files)| && files[k].recs != []
    ensures Flatten(files[..k]) == Flatten(files)[..files[k].id - at]
    ensures Flatten(files)[files[k].id - at].chunk == files[k].id
    ensures files[k].id + |files[k].recs| <= at + |Flatten(files)|
    ensures forall i :: files[k].id - at <= i < files[k].id - at + |files[k].recs| ==>
              Flatten(files)[i].chunk == files[k].id
  {
    assert files == files[..k] + files[k..];
    FlattenConcat(files[..k], files[k..]);
    AdjacentConcat(files[..k], files[k..], at);
    assert Flatten(files[k..]) == Place(files[k]) + Flatten(files[k..][1..]);
  }

  lemma NextStart(files: seq<File>, at: nat, k: nat)
    requires Adjacent(files, at) && k + 1 < |files|
    ensures files[k + 1].id == files[k].id + |files[k].recs|
  {
    FilesBefore(files, at, k);
    FilesBefore(files, at, k + 1);
    assert files[..k + 1] == files[..k] + [files[k]];
    FlattenConcat(files[..k], [files[k]]);
    FlattenOne(files[k]);
  }

  lemma {:induction false} LoadCut(files: seq<File>, at: nat, cut: nat, chunk: nat, segment: nat)
    requires Adjacent(files, at)
    ensures Load(CutFiles(files, cut), chunk, segment) == if segment < cut then Load(files, chunk, segment) else None
  {
    if files != [] {
      var rest, next := files[1..], at + |files[0].recs|;
      LoadCut(rest, next, cut, chunk, segment);
      if cut <= at {
        if segment < cut {
          LoadFrom(files, at, chunk, segment);
        }
      } else {
        assert CutFiles(files, cut)[1..] == CutFiles(rest, cut);
      }
    }
  }

  lemma {:induction false} LoadFrom(files: seq<File>, at: nat, chunk: nat, segment: nat)
    requires Adjacent(files, at) && segment < at
    ensures Load(files, chunk, segment) == None
  {
    if files != [] {
      LoadFrom(files[1..], at + |files[0].recs|, chunk, segment);
    }
  }
}
