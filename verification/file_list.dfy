/**
 * The list of loaded files and its three writers: upload appends pending
 * records, geometry extraction fills one record in, and removal drops a
 * record by id. Each is a pure function from the old list to the new one.
 */
module FileList {
  import opened Types
  import opened Wrappers
  import opened Seqs
  import CostModel

  /** One file the operator picked, with the id and object URL the browser
      generated for it (`crypto.randomUUID`, `URL.createObjectURL`). */
  datatype PickedFile = PickedFile(id: string, name: string, url: string)

  /** A record whose geometry has not been extracted yet. */
  predicate IsPending(f: StlFile)
  {
    f.volumeCm3 == 0.0 && f.heightMm == 0.0 && f.weightG == 0.0 && f.printTimeHours == 0.0
  }

  /** The record created for a freshly picked file. */
  function NewRecord(p: PickedFile): StlFile
  {
    StlFile(p.id, p.name, p.url, 0.0, 0.0, 0.0, 0.0)
  }

  /** Handles the file input's change event. `picked` is `None` when the
      event carries no file list; otherwise every picked file is appended,
      in order, after the existing records. */
  function Upload(files: seq<StlFile>, picked: Option<seq<PickedFile>>): (r: seq<StlFile>)
    ensures picked.None? ==> r == files
    ensures picked.Some? ==> |r| == |files| + |picked.value|
    ensures r[..|files|] == files
    ensures picked.Some? ==> forall i :: 0 <= i < |picked.value| ==>
              && r[|files| + i].id == picked.value[i].id
              && r[|files| + i].name == picked.value[i].name
              && r[|files| + i].url == picked.value[i].url
              && IsPending(r[|files| + i])
  {
    match picked
    case None => files
    case Some(ps) => files + seq(|ps|, i requires 0 <= i < |ps| => NewRecord(ps[i]))
  }

  /** Ids of the picked files are pairwise distinct and not already in use. */
  predicate FreshIds(files: seq<StlFile>, ps: seq<PickedFile>)
  {
    && (forall i, j :: 0 <= i < j < |ps| ==> ps[i].id != ps[j].id)
    && (forall i :: 0 <= i < |ps| ==> ps[i].id !in Ids(files))
  }

  /** Upload keeps ids unique when the new ids are fresh. */
  lemma UploadKeepsIdsUnique(files: seq<StlFile>, ps: seq<PickedFile>)
    requires UniqueIds(files) && FreshIds(files, ps)
    ensures UniqueIds(Upload(files, Some(ps)))
  {
    var r := Upload(files, Some(ps));
    forall i, j | 0 <= i < j < |r|
      ensures r[i].id != r[j].id
    {
      if j >= |files| && i < |files| {
        assert r[i] == files[i];
        assert files[i].id in Ids(files);
        assert r[j].id == ps[j - |files|].id;
      }
    }
  }

  /** Records that all weigh nothing add up to nothing. */
  lemma {:induction false} WeightlessTotal(fs: seq<StlFile>)
    requires forall i :: 0 <= i < |fs| ==> fs[i].weightG == 0.0
    ensures CostModel.TotalWeight(fs) == 0.0
  {
    if |fs| > 0 {
      WeightlessTotal(fs[..|fs| - 1]);
    }
  }

  /** Pending records weigh nothing, so uploading leaves the batch weight unchanged. */
  lemma UploadAddsNoWeight(files: seq<StlFile>, picked: Option<seq<PickedFile>>)
    ensures CostModel.TotalWeight(Upload(files, picked)) == CostModel.TotalWeight(files)
  {
    if picked.Some? {
      var r := Upload(files, picked);
      var added := r[|files|..];
      assert r == files + added;
      assert forall i :: 0 <= i < |added| ==> added[i] == r[|files| + i];
      WeightlessTotal(added);
      CostModel.TotalWeightAppend(files, added);
    }
  }

  // ---------------------------------------------------------------------
  // Geometry update

  /** The record once extraction reported `volumeCm3` and `heightMm`;
      the weight is taken with the density in force at that moment. */
  function WithGeometry(f: StlFile, volumeCm3: real, heightMm: real, density: real): StlFile
  {
    f.(volumeCm3 := volumeCm3, heightMm := heightMm, weightG := volumeCm3 * density)
  }

  /** Delivers an extraction result to every record carrying `id`. */
  function UpdateGeometry(files: seq<StlFile>, id: string, volumeCm3: real, heightMm: real,
                          density: real): (r: seq<StlFile>)
    ensures |r| == |files|
    ensures forall i :: 0 <= i < |files| && files[i].id != id ==> r[i] == files[i]
    ensures forall i :: 0 <= i < |files| && files[i].id == id ==>
              && r[i].id == id && r[i].name == files[i].name && r[i].url == files[i].url
              && r[i].volumeCm3 == volumeCm3 && r[i].heightMm == heightMm
              && r[i].weightG == volumeCm3 * density
              && r[i].printTimeHours == files[i].printTimeHours
  {
    if |files| == 0 then []
    else
      var f := files[0];
      var g := if f.id == id then WithGeometry(f, volumeCm3, heightMm, density) else f;
      [g] + UpdateGeometry(files[1..], id, volumeCm3, heightMm, density)
  }

  /** An extraction result for an id that is not (or no longer) in the list changes nothing. */
  lemma UpdateAbsentIdIsNoOp(files: seq<StlFile>, id: string, v: real, h: real, d: real)
    requires id !in Ids(files)
    ensures UpdateGeometry(files, id, v, h, d) == files
  {
    var r := UpdateGeometry(files, id, v, h, d);
    forall i | 0 <= i < |files| ensures r[i] == files[i] {
      assert files[i].id in Ids(files);
    }
  }

  /** The update keeps every id where it was, so unique ids stay unique. */
  lemma UpdateKeepsIds(files: seq<StlFile>, id: string, v: real, h: real, d: real)
    ensures var r := UpdateGeometry(files, id, v, h, d);
      (forall i :: 0 <= i < |r| ==> r[i].id == files[i].id)
      && (UniqueIds(files) ==> UniqueIds(r))
  {
  }

  /** Delivering the same result twice is the same as delivering it once. */
  lemma UpdateIdempotent(files: seq<StlFile>, id: string, v: real, h: real, d: real)
    ensures var r := UpdateGeometry(files, id, v, h, d);
      UpdateGeometry(r, id, v, h, d) == r
  {
  }

  /** With unique ids, an update to a present id changes the batch weight
      by exactly the difference between the new and the old weight. */
  lemma {:induction false} UpdateShiftsWeight(files: seq<StlFile>, k: nat, v: real, h: real, d: real)
    requires UniqueIds(files) && k < |files|
    ensures CostModel.TotalWeight(UpdateGeometry(files, files[k].id, v, h, d))
            == CostModel.TotalWeight(files) - files[k].weightG + v * d
  {
    var id := files[k].id;
    var r := UpdateGeometry(files, id, v, h, d);
    assert files == files[..k] + [files[k]] + files[k + 1..];
    assert r == r[..k] + [r[k]] + r[k + 1..];
    assert r[..k] == files[..k];
    assert r[k + 1..] == files[k + 1..];
    CostModel.TotalWeightAppend(files[..k] + [files[k]], files[k + 1..]);
    CostModel.TotalWeightAppend(files[..k], [files[k]]);
    CostModel.TotalWeightAppend(r[..k] + [r[k]], r[k + 1..]);
    CostModel.TotalWeightAppend(r[..k], [r[k]]);
    assert [files[k]][..0] == [] && [r[k]][..0] == [];
  }

  // ---------------------------------------------------------------------
  // Removal

  /** Keeps the records whose id differs from `id`, in their original order. */
  function Remove(files: seq<StlFile>, id: string): (r: seq<StlFile>)
    ensures forall f :: f in r <==> f in files && f.id != id
    ensures |r| <= |files|
  {
    if |files| == 0 then []
    else if files[0].id != id then [files[0]] + Remove(files[1..], id)
    else Remove(files[1..], id)
  }

  /** Removal distributes over concatenation, so it keeps the relative order of what survives. */
  lemma {:induction false} RemoveAppend(a: seq<StlFile>, b: seq<StlFile>, id: string)
    ensures Remove(a + b, id) == Remove(a, id) + Remove(b, id)
  {
    if |a| == 0 {
      assert a + b == b;
    } else {
      assert (a + b)[1..] == a[1..] + b;
      RemoveAppend(a[1..], b, id);
    }
  }

  /** Removing an id that is not in the list changes nothing. */
  lemma {:induction false} RemoveAbsentIsNoOp(files: seq<StlFile>, id: string)
    requires id !in Ids(files)
    ensures Remove(files, id) == files
  {
    if |files| > 0 {
      assert files[0] in files;
      assert Ids(files[1..]) <= Ids(files);
      RemoveAbsentIsNoOp(files[1..], id);
    }
  }

  /** Removing the same id a second time changes nothing further. */
  lemma RemoveIdempotent(files: seq<StlFile>, id: string)
    ensures Remove(Remove(files, id), id) == Remove(files, id)
  {
    RemoveAbsentIsNoOp(Remove(files, id), id);
  }

  lemma {:induction false} RemoveAt(files: seq<StlFile>, k: nat)
    requires UniqueIds(files) && k < |files|
    ensures Remove(files, files[k].id) == files[..k] + files[k + 1..]
  {
    RemoveAround(files, k);
  }

  /** Removing the one record that carries an id out of the middle of a list. */
  lemma RemoveAround(files: seq<StlFile>, k: nat)
    requires k < |files|
    requires forall i :: 0 <= i < |files| && i != k ==> files[i].id != files[k].id
    ensures Remove(files, files[k].id) == files[..k] + files[k + 1..]
  {
    var id, pre, post := files[k].id, files[..k], files[k + 1..];
    forall f: StlFile | f in pre + post
      ensures f.id != id
    {
      var j :| 0 <= j < |pre + post| && (pre + post)[j] == f;
      assert f == files[if j < k then j else j + 1];
    }
    RemoveAbsentIsNoOp(pre, id);
    RemoveAbsentIsNoOp(post, id);
    SplitAt(files, k);
    RemoveAppend(pre, [files[k]] + post, id);
    assert ([files[k]] + post)[1..] == post;
  }

  /** With unique ids, removing a present id drops exactly one record and keeps ids unique. */
  lemma {:induction false} RemovePresentDropsOne(files: seq<StlFile>, id: string)
    requires UniqueIds(files) && id in Ids(files)
    ensures |Remove(files, id)| == |files| - 1
    ensures UniqueIds(Remove(files, id))
  {
    var k := IndexOfId(files, id);
    RemoveAt(files, k);
    DropKeepsIdsUnique(files, k);
  }

  lemma IndexOfId(files: seq<StlFile>, id: string) returns (k: nat)
    requires id in Ids(files)
    ensures k < |files| && files[k].id == id
  {
    var f :| f in files && f.id == id;
    k :| 0 <= k < |files| && files[k] == f;
  }

  lemma DropKeepsIdsUnique(files: seq<StlFile>, k: nat)
    requires UniqueIds(files) && k < |files|
    ensures UniqueIds(files[..k] + files[k + 1..])
  {
    var r := files[..k] + files[k + 1..];
    forall i, j | 0 <= i < j < |r| ensures r[i].id != r[j].id {
      var i', j' := if i < k then i else i + 1, if j < k then j else j + 1;
      assert r[i] == files[i'] && r[j] == files[j'];
    }
  }

  /** A late extraction result for a removed file does not bring it back. */
  lemma ExtractionAfterRemovalIsDiscarded(files: seq<StlFile>, id: string, v: real, h: real, d: real)
    ensures UpdateGeometry(Remove(files, id), id, v, h, d) == Remove(files, id)
  {
    UpdateAbsentIdIsNoOp(Remove(files, id), id, v, h, d);
  }
}
