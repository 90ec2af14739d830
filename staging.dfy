/** The staging folders `Good_Raw` and `Bad_Raw` and the archive of rejected
    files, for both pipelines (Prediction_Raw_Data_Validation/
    predictionDataValidation.py and Training_Raw_data_validation/
    rawValidation.py), and the prediction pipeline's copy of each batch file
    into one of the two staging folders.

    Every log call of the two classes is taken as writing nothing and never
    failing. */
module Staging {
  import opened Common
  import opened Files
  import opened FileNames

  /*************************************************************************
   * Creating and deleting the staging folders
   *************************************************************************/

  /** `createDirectoryForGoodBadRawData`: each staging folder is made only
      when it is missing. */
  function CreatedGoodBad(t: Tree, v: Variant): Tree
  {
    EnsureDir(EnsureDir(t, GoodDir(v)), BadDir(v))
  }

  /** Afterwards both folders exist, everything that existed is kept as it
      was, nothing else appears, and a second call changes nothing. */
  lemma CreatedGoodBadKeeps(t: Tree, v: Variant)
    ensures var r := CreatedGoodBad(t, v);
      GoodDir(v) in r && BadDir(v) in r
      && (forall p :: p in t ==> p in r && r[p] == t[p])
      && (forall p :: p in r ==> p in t || p == GoodDir(v) || p == BadDir(v))
      && CreatedGoodBad(r, v) == r
  {
    StagingAndArchiveDistinct(v, Timestamp("", ""));
  }

  method CreateDirectoryForGoodBadRawData(fs: FileSystem, v: Variant)
    modifies fs
    ensures fs.dirs == CreatedGoodBad(old(fs.dirs), v)
  {
    if GoodDir(v) !in fs.dirs {
      fs.dirs := fs.dirs[GoodDir(v) := map[]];
    }
    if BadDir(v) !in fs.dirs {
      fs.dirs := fs.dirs[BadDir(v) := map[]];
    }
  }

  /** `deleteExistingGoodDataTrainingFolder`: `rmtree` only when present. */
  method DeleteExistingGoodDataTrainingFolder(fs: FileSystem, v: Variant)
    modifies fs
    ensures fs.dirs == RemoveDir(old(fs.dirs), GoodDir(v))
  {
    if GoodDir(v) in fs.dirs {
      fs.dirs := RemoveDir(fs.dirs, GoodDir(v));
    }
  }

  /** `deleteExistingBadDataTrainingFolder`: `rmtree` only when present. */
  method DeleteExistingBadDataTrainingFolder(fs: FileSystem, v: Variant)
    modifies fs
    ensures fs.dirs == RemoveDir(old(fs.dirs), BadDir(v))
  {
    if BadDir(v) in fs.dirs {
      fs.dirs := RemoveDir(fs.dirs, BadDir(v));
    }
  }

  /** Deleting a folder removes it with its files when it exists and leaves
      every other folder as it was; deleting an absent folder changes
      nothing. */
  lemma RemoveDirEffect(t: Tree, p: Path)
    ensures p !in RemoveDir(t, p)
    ensures forall q :: q != p ==> (q in RemoveDir(t, p) <==> q in t)
    ensures forall q :: q != p && q in t ==> RemoveDir(t, p)[q] == t[q]
    ensures p !in t ==> RemoveDir(t, p) == t
  {
  }

  /** The first three steps of `validationFileNameRaw`: delete `Bad_Raw`,
      delete `Good_Raw`, create both. */
  function ResetStaging(t: Tree): (r: Tree)
  {
    CreatedGoodBad(RemoveDir(RemoveDir(t, BadDir(Prediction)), GoodDir(Prediction)), Prediction)
  }

  /** Both staging folders start empty whatever they held before, and no
      other folder is touched. */
  lemma ResetStagingEmpties(t: Tree)
    ensures var r := ResetStaging(t);
      GoodDir(Prediction) in r && r[GoodDir(Prediction)] == map[]
      && BadDir(Prediction) in r && r[BadDir(Prediction)] == map[]
      && forall p :: p != GoodDir(Prediction) && p != BadDir(Prediction) ==>
           (p in r <==> p in t) && (p in t ==> r[p] == t[p])
  {
    StagingAndArchiveDistinct(Prediction, Timestamp("", ""));
  }

  /*************************************************************************
   * Classifying the batch (prediction pipeline)
   *************************************************************************/

  /** The classification of a batch file by its name, for the schema's
      lengths of the date and time stamps. */
  function Classifier(dateLen: int, timeLen: int): string -> Result<Verdict>
  {
    name => NameVerdict(name, dateLen, timeLen)
  }

  /** The files of batch folder `d`, among `names`, whose verdict is `verdict`. */
  function WithVerdict(d: Dir, names: seq<string>, classify: string -> Result<Verdict>, verdict: Verdict): Dir
  {
    map x | x in d && x in names && classify(x) == Ok(verdict) :: d[x]
  }

  /** Position of the first name whose classification raises, or `|names|`. */
  function FirstRaising(names: seq<string>, classify: string -> Result<Verdict>): (i: nat)
    ensures i <= |names|
    ensures i < |names| ==> classify(names[i]).Err?
    ensures forall m :: 0 <= m < i ==> classify(names[m]).Ok?
  {
    if names == [] then 0
    else if classify(names[0]).Err? then 0
    else 1 + FirstRaising(names[1..], classify)
  }

  /** The tree once the batch files `names` have each been copied to the
      staging folder of their verdict. */
  function Copied(t: Tree, batch: Path, names: seq<string>, classify: string -> Result<Verdict>): Tree
    requires batch in t && GoodDir(Prediction) in t && BadDir(Prediction) in t
  {
    var good, bad := GoodDir(Prediction), BadDir(Prediction);
    t[good := t[good] + WithVerdict(t[batch], names, classify, Good)]
     [bad := t[bad] + WithVerdict(t[batch], names, classify, Bad)]
  }

  /** The copy loop over listing `listed` of the batch folder: the listed
      files are copied one by one until the first whose classification
      raises, which ends the loop with that error. */
  function CopySpec(t: Tree, batch: Path, listed: seq<string>, classify: string -> Result<Verdict>): (Tree, Outcome)
    requires batch in t && GoodDir(Prediction) in t && BadDir(Prediction) in t
  {
    var n := FirstRaising(listed, classify);
    (Copied(t, batch, listed[..n], classify),
     if n < |listed| then Fail(classify(listed[n]).error) else Pass)
  }

  /** `validationFileNameRaw` for listing `listed` of the batch folder: the
      staging folders are reset, then the copy loop runs. A missing batch
      folder makes `listdir` raise. */
  function ValidationSpec(t: Tree, batch: Path, listed: seq<string>, dateLen: int, timeLen: int): (Tree, Outcome)
  {
    var t0 := ResetStaging(t);
    ResetStagingEmpties(t);
    if batch !in t0 then (t0, Fail(OsError(batch)))
    else CopySpec(t0, batch, listed, Classifier(dateLen, timeLen))
  }

  lemma WithVerdictOneMore(d: Dir, p: seq<string>, x: string, classify: string -> Result<Verdict>, verdict: Verdict)
    requires x in d
    ensures WithVerdict(d, p + [x], classify, verdict)
         == if classify(x) == Ok(verdict)
            then WithVerdict(d, p, classify, verdict)[x := d[x]]
            else WithVerdict(d, p, classify, verdict)
  {
    assert forall y :: y in p + [x] <==> y in p || y == x;
  }

  /** Copying the next listed file extends the copied prefix by that file. */
  lemma CopiedStep(t: Tree, batch: Path, names: seq<string>, i: nat, classify: string -> Result<Verdict>)
    requires batch in t && GoodDir(Prediction) in t && BadDir(Prediction) in t
    requires batch != GoodDir(Prediction) && batch != BadDir(Prediction)
    requires i < |names| && names[i] in t[batch] && classify(names[i]).Ok?
    ensures var c := Copied(t, batch, names[..i], classify);
      var dst := if classify(names[i]).value == Good then GoodDir(Prediction) else BadDir(Prediction);
      batch in c && dst in c && c[batch] == t[batch]
      && CopyFile(c, batch, dst, names[i]) == Copied(t, batch, names[..i + 1], classify)
  {
    StagingAndArchiveDistinct(Prediction, Timestamp("", ""));
    var x := names[i];
    var good, bad := GoodDir(Prediction), BadDir(Prediction);
    var d := t[batch];
    var p := names[..i];
    assert names[..i + 1] == p + [x];
    var sg := WithVerdict(d, p, classify, Good);
    var sb := WithVerdict(d, p, classify, Bad);
    WithVerdictOneMore(d, p, x, classify, Good);
    WithVerdictOneMore(d, p, x, classify, Bad);
    if classify(x).value == Good {
      UpdateUnion(t[good], sg, x, d[x]);
      UpdateTwice(t, good, bad, t[good] + sg, t[bad] + sb, t[good] + sg[x := d[x]]);
    } else {
      UpdateUnion(t[bad], sb, x, d[x]);
    }
  }

  /** Re-updating the first of two distinct keys. */
  lemma UpdateTwice(t: Tree, p: Path, q: Path, a: Dir, b: Dir, a2: Dir)
    requires p != q
    ensures t[p := a][q := b][p := a2] == t[p := a2][q := b]
  {
  }

  lemma {:induction false} FirstRaisingIs(names: seq<string>, i: nat, classify: string -> Result<Verdict>)
    requires i <= |names|
    requires forall m :: 0 <= m < i ==> classify(names[m]).Ok?
    requires i < |names| ==> classify(names[i]).Err?
    ensures FirstRaising(names, classify) == i
  {
    if i > 0 {
      FirstRaisingIs(names[1..], i - 1, classify);
    }
  }

  /** Copying no file changes nothing. */
  lemma CopiedNothing(t: Tree, batch: Path, classify: string -> Result<Verdict>)
    requires batch in t && GoodDir(Prediction) in t && BadDir(Prediction) in t
    ensures Copied(t, batch, [], classify) == t
  {
    assert WithVerdict(t[batch], [], classify, Good) == map[];
    assert WithVerdict(t[batch], [], classify, Bad) == map[];
    assert t[GoodDir(Prediction)] + map[] == t[GoodDir(Prediction)];
    assert t[BadDir(Prediction)] + map[] == t[BadDir(Prediction)];
  }

  /** Starting from empty staging folders, the files copied so far are
      exactly the listed ones, each in the folder its name selects. */
  lemma CopiedContents(t: Tree, batch: Path, names: seq<string>, classify: string -> Result<Verdict>)
    requires batch in t && GoodDir(Prediction) in t && BadDir(Prediction) in t
    requires t[GoodDir(Prediction)] == map[] && t[BadDir(Prediction)] == map[]
    requires forall m :: 0 <= m < |names| ==> names[m] in t[batch] && classify(names[m]).Ok?
    ensures var r := Copied(t, batch, names, classify);
      forall x :: x in r[GoodDir(Prediction)] || x in r[BadDir(Prediction)] <==> x in names
  {
    StagingAndArchiveDistinct(Prediction, Timestamp("", ""));
    var r := Copied(t, batch, names, classify);
    forall x | x in names
      ensures x in r[GoodDir(Prediction)] || x in r[BadDir(Prediction)]
    {
      var k :| 0 <= k < |names| && names[k] == x;
      VerdictCases(classify(names[k]));
    }
  }

  lemma VerdictCases(v: Result<Verdict>)
    requires v.Ok?
    ensures v == Ok(Good) || v == Ok(Bad)
  {
    match v.value
    case Good =>
    case Bad =>
  }

  /** The copy loop of `validationFileNameRaw`. */
  method CopyListed(fs: FileSystem, batch: Path, listed: seq<string>, classify: string -> Result<Verdict>)
    returns (r: Outcome)
    requires batch in fs.dirs && GoodDir(Prediction) in fs.dirs && BadDir(Prediction) in fs.dirs
    requires forall m :: 0 <= m < |listed| ==> listed[m] in fs.dirs[batch]
    requires |listed| > 0 ==> batch != GoodDir(Prediction) && batch != BadDir(Prediction)
    modifies fs
    ensures (fs.dirs, r) == CopySpec(old(fs.dirs), batch, listed, classify)
  {
    var t0 := fs.dirs;
    CopiedNothing(t0, batch, classify);
    assert listed[..0] == [];
    var i := 0;
    while i < |listed| && classify(listed[i]).Ok?
      invariant i <= |listed|
      invariant i <= FirstRaising(listed, classify)
      invariant fs.dirs == Copied(t0, batch, listed[..i], classify)
    {
      CopyOne(fs, t0, batch, listed, i, classify);
      i := i + 1;
    }
    CopySpecAt(t0, batch, listed, i, classify);
    r := if i < |listed| then Fail(classify(listed[i]).error) else Pass;
  }

  /** Where the copy loop stops, the copy specification holds: the files
      before the stopping point are copied, and the outcome is the error
      of the name there, if any. */
  lemma CopySpecAt(t: Tree, batch: Path, listed: seq<string>, i: nat, classify: string -> Result<Verdict>)
    requires batch in t && GoodDir(Prediction) in t && BadDir(Prediction) in t
    requires i <= |listed| && i <= FirstRaising(listed, classify)
    requires i < |listed| ==> classify(listed[i]).Err?
    ensures CopySpec(t, batch, listed, classify)
         == (Copied(t, batch, listed[..i], classify), if i < |listed| then Fail(classify(listed[i]).error) else Pass)
  {
    var n := FirstRaising(listed, classify);
    if i < |listed| {
      assert n <= i;
    }
    assert n == i;
  }

  /** One turn of the copy loop: `shutil.copy` to the folder of the verdict. */
  method CopyOne(fs: FileSystem, t0: Tree, batch: Path, listed: seq<string>, i: nat, classify: string -> Result<Verdict>)
    requires batch in t0 && GoodDir(Prediction) in t0 && BadDir(Prediction) in t0
    requires batch != GoodDir(Prediction) && batch != BadDir(Prediction)
    requires i < |listed| && listed[i] in t0[batch] && classify(listed[i]).Ok?
    requires fs.dirs == Copied(t0, batch, listed[..i], classify)
    modifies fs
    ensures fs.dirs == Copied(t0, batch, listed[..i + 1], classify)
  {
    var name := listed[i];
    var dst := if classify(name).value == Good then GoodDir(Prediction) else BadDir(Prediction);
    CopiedStep(t0, batch, listed, i, classify);
    fs.dirs := CopyFile(fs.dirs, batch, dst, name);
  }

  /** `validationFileNameRaw` (prediction): reset the staging folders, then
      copy each listed batch file to `Good_Raw` or `Bad_Raw` by its name,
      stopping at the first name whose classification raises. */
  method ValidationFileNameRaw(fs: FileSystem, batch: Path, dateLen: int, timeLen: int)
    returns (r: Outcome, listed: seq<string>)
    modifies fs
    ensures batch in ResetStaging(old(fs.dirs)) ==> IsListing(listed, ResetStaging(old(fs.dirs))[batch])
    ensures (fs.dirs, r) == ValidationSpec(old(fs.dirs), batch, listed, dateLen, timeLen)
  {
    DeleteExistingBadDataTrainingFolder(fs, Prediction);
    DeleteExistingGoodDataTrainingFolder(fs, Prediction);
    CreateDirectoryForGoodBadRawData(fs, Prediction);
    ResetStagingEmpties(old(fs.dirs));
    listed := [];
    if batch !in fs.dirs {
      r := Fail(OsError(batch));
      return;
    }
    listed := ListDir(fs, batch);
    assert |listed| > 0 ==> listed[0] in fs.dirs[batch];
    r := CopyListed(fs, batch, listed, Classifier(dateLen, timeLen));
  }

  /** When no name raises, every batch file is copied, with its content, to
      exactly one staging folder, the one its name selects; the staging
      folders hold nothing else, and every other folder, the batch folder
      included, is unchanged. */
  lemma ValidationPartitions(t: Tree, batch: Path, listed: seq<string>, dateLen: int, timeLen: int)
    requires batch in t && batch != GoodDir(Prediction) && batch != BadDir(Prediction)
    requires IsListing(listed, t[batch])
    requires ValidationSpec(t, batch, listed, dateLen, timeLen).1 == Pass
    ensures var r := ValidationSpec(t, batch, listed, dateLen, timeLen).0;
      var good, bad := GoodDir(Prediction), BadDir(Prediction);
      good in r && bad in r
      && (forall x :: x in t[batch] ==>
            (NameVerdict(x, dateLen, timeLen) == Ok(Good) && x in r[good] && r[good][x] == t[batch][x] && x !in r[bad])
            || (NameVerdict(x, dateLen, timeLen) == Ok(Bad) && x in r[bad] && r[bad][x] == t[batch][x] && x !in r[good]))
      && (forall x :: x in r[good] || x in r[bad] ==> x in t[batch])
      && (forall p :: p != good && p != bad ==> (p in r <==> p in t) && (p in t ==> r[p] == t[p]))
  {
    ResetStagingEmpties(t);
    var t0 := ResetStaging(t);
    var n := FirstRaising(listed, Classifier(dateLen, timeLen));
    assert n == |listed|;
    assert listed[..n] == listed;
    CopiedPartitions(t0, batch, listed, Classifier(dateLen, timeLen));
  }

  /** Copying a whole listing into empty staging folders, with no name
      raising, puts each batch file in the one folder its verdict names. */
  lemma CopiedPartitions(t: Tree, batch: Path, listed: seq<string>, classify: string -> Result<Verdict>)
    requires batch in t && GoodDir(Prediction) in t && BadDir(Prediction) in t
    requires batch != GoodDir(Prediction) && batch != BadDir(Prediction)
    requires t[GoodDir(Prediction)] == map[] && t[BadDir(Prediction)] == map[]
    requires IsListing(listed, t[batch])
    requires forall m :: 0 <= m < |listed| ==> classify(listed[m]).Ok?
    ensures var r := Copied(t, batch, listed, classify);
      var good, bad := GoodDir(Prediction), BadDir(Prediction);
      (forall x :: x in t[batch] ==>
         (classify(x) == Ok(Good) && x in r[good] && r[good][x] == t[batch][x] && x !in r[bad])
         || (classify(x) == Ok(Bad) && x in r[bad] && r[bad][x] == t[batch][x] && x !in r[good]))
      && (forall x :: x in r[good] || x in r[bad] ==> x in t[batch])
  {
    forall x | x in t[batch]
      ensures classify(x) == Ok(Good) || classify(x) == Ok(Bad)
    {
      var k :| 0 <= k < |listed| && listed[k] == x;
      VerdictCases(classify(listed[k]));
    }
  }

  /** When a name raises, the error is the `IndexError` of that name; the
      files listed before it have been copied and no other file has. */
  lemma ValidationAborts(t: Tree, batch: Path, listed: seq<string>, dateLen: int, timeLen: int)
    requires batch in t && batch != GoodDir(Prediction) && batch != BadDir(Prediction)
    requires IsListing(listed, t[batch])
    requires ValidationSpec(t, batch, listed, dateLen, timeLen).1.Fail?
    ensures var (r, o) := ValidationSpec(t, batch, listed, dateLen, timeLen);
      var good, bad := GoodDir(Prediction), BadDir(Prediction);
      o == Fail(IndexError) && good in r && bad in r
      && exists n :: 0 <= n < |listed| && NameVerdict(listed[n], dateLen, timeLen).Err?
           && (forall x :: x in r[good] || x in r[bad] <==> x in listed[..n])
  {
    ResetStagingEmpties(t);
    var t0 := ResetStaging(t);
    var n := FirstRaising(listed, Classifier(dateLen, timeLen));
    RaisesIff(listed[n], dateLen, timeLen);
    CopiedContents(t0, batch, listed[..n], Classifier(dateLen, timeLen));
  }

  /** A missing batch folder raises after the staging folders were reset. */
  lemma ValidationMissingBatch(t: Tree, batch: Path, dateLen: int, timeLen: int)
    requires batch !in t && batch != GoodDir(Prediction) && batch != BadDir(Prediction)
    ensures ValidationSpec(t, batch, [], dateLen, timeLen) == (ResetStaging(t), Fail(OsError(batch)))
  {
    ResetStagingEmpties(t);
  }

  /*************************************************************************
   * Archiving the rejected files
   *************************************************************************/

  /** The moves into the archive folder `a` and the removal of `Bad_Raw`
      that follows; a file already present in `a` stops the moves with
      `shutil.Error`, an `OSError`. */
  function MoveAndRemove(t: Tree, bad: Path, a: Path, listed: seq<string>): (Tree, Outcome)
    requires bad in t && a in t
  {
    var n := FirstIn(listed, t[a]);
    if n < |listed| then (Moved(t, bad, a, listed[..n]), Fail(OsError(a + "/" + listed[n])))
    else (RemoveDir(Moved(t, bad, a, listed), bad), Pass)
  }

  /** `moveBadFilesToArchiveBad` for listing `listed` of `Bad_Raw`.
      Prediction makes the archive folder first, so a missing `Bad_Raw`
      raises only after it exists, and errors are re-raised. Training does
      nothing without `Bad_Raw` and swallows every error. */
  function ArchiveSpec(t: Tree, v: Variant, stamp: Timestamp, listed: seq<string>): (Tree, Outcome)
    requires BadDir(v) in t ==> IsListing(listed, t[BadDir(v)])
  {
    var bad, a := BadDir(v), ArchiveDir(v, stamp);
    StagingAndArchiveDistinct(v, stamp);
    match v
    case Prediction =>
      var t1 := EnsureDir(t, a);
      if bad !in t1 then (t1, Fail(OsError(bad)))
      else MoveAndRemove(t1, bad, a, listed)
    case Training =>
      if bad !in t then (t, Pass)
      else (MoveAndRemove(EnsureDir(EnsureDir(t, ArchiveRoot(v)), a), bad, a, listed).0, Pass)
  }

  /** The move loop of `moveBadFilesToArchiveBad` and the removal of
      `Bad_Raw` after it. */
  method MoveListed(fs: FileSystem, bad: Path, a: Path) returns (r: Outcome, listed: seq<string>)
    requires bad in fs.dirs && a in fs.dirs && bad != a
    modifies fs
    ensures IsListing(listed, old(fs.dirs)[bad])
    ensures (fs.dirs, r) == MoveAndRemove(old(fs.dirs), bad, a, listed)
  {
    var t1 := fs.dirs;
    listed := ListDir(fs, bad);
    MovedNothing(t1, bad, a);
    assert listed[..0] == [];
    var i := 0;
    while i < |listed|
      invariant i <= |listed|
      invariant forall m :: 0 <= m < i ==> listed[m] !in t1[a]
      invariant fs.dirs == Moved(t1, bad, a, listed[..i])
    {
      var name := listed[i];
      MovedCollision(t1, bad, a, listed, i);
      if name in fs.dirs[a] {
        FirstInIs(listed, t1[a], i);
        r := Fail(OsError(a + "/" + name));
        return;
      }
      MoveOne(fs, t1, bad, a, listed, i);
      i := i + 1;
    }
    assert listed[..i] == listed;
    FirstInIs(listed, t1[a], i);
    fs.dirs := RemoveDir(fs.dirs, bad);
    r := Pass;
  }

  /** One turn of the move loop: `shutil.move` into the archive folder. */
  method MoveOne(fs: FileSystem, t1: Tree, bad: Path, a: Path, listed: seq<string>, i: nat)
    requires bad in t1 && a in t1 && bad != a
    requires IsListing(listed, t1[bad]) && i < |listed|
    requires fs.dirs == Moved(t1, bad, a, listed[..i])
    modifies fs
    ensures fs.dirs == Moved(t1, bad, a, listed[..i + 1])
  {
    MovedStep(t1, bad, a, listed, i);
    fs.dirs := MoveFile(fs.dirs, bad, a, listed[i]);
  }

  /** `moveBadFilesToArchiveBad`, both variants. */
  method MoveBadFilesToArchiveBad(fs: FileSystem, v: Variant, stamp: Timestamp)
    returns (r: Outcome, listed: seq<string>)
    modifies fs
    ensures BadDir(v) in old(fs.dirs) ==> IsListing(listed, old(fs.dirs)[BadDir(v)])
    ensures (fs.dirs, r) == ArchiveSpec(old(fs.dirs), v, stamp, listed)
  {
    var bad, a := BadDir(v), ArchiveDir(v, stamp);
    StagingAndArchiveDistinct(v, stamp);
    listed := [];
    if v == Training {
      if bad !in fs.dirs {
        r := Pass;
        return;
      }
      fs.dirs := EnsureDir(fs.dirs, ArchiveRoot(v));
      fs.dirs := EnsureDir(fs.dirs, a);
      r, listed := MoveListed(fs, bad, a);
      r := Pass;
    } else {
      fs.dirs := EnsureDir(fs.dirs, a);
      if bad !in fs.dirs {
        r := Fail(OsError(bad));
        return;
      }
      r, listed := MoveListed(fs, bad, a);
    }
  }

  /** With `Bad_Raw` present and no name clash in the archive folder, every
      rejected file ends up in the archive folder with its content, `Bad_Raw`
      is gone, and every folder other than the archive is unchanged. */
  lemma ArchiveMovesAll(t: Tree, v: Variant, stamp: Timestamp, listed: seq<string>)
    requires BadDir(v) in t && IsListing(listed, t[BadDir(v)])
    requires ArchiveDir(v, stamp) in t ==> t[ArchiveDir(v, stamp)].Keys !! t[BadDir(v)].Keys
    ensures var (r, o) := ArchiveSpec(t, v, stamp, listed);
      var bad, a := BadDir(v), ArchiveDir(v, stamp);
      o == Pass && bad !in r && a in r
      && r[a] == (if a in t then t[a] else map[]) + t[bad]
      && (forall p :: p != bad && p != a && p != ArchiveRoot(v) ==> (p in r <==> p in t) && (p in t ==> r[p] == t[p]))
  {
    var bad, a := BadDir(v), ArchiveDir(v, stamp);
    StagingAndArchiveDistinct(v, stamp);
    var t1 := if v == Prediction then EnsureDir(t, a) else EnsureDir(EnsureDir(t, ArchiveRoot(v)), a);
    assert t1[bad] == t[bad] && t1[a] == (if a in t then t[a] else map[]);
    MoveAndRemoveAll(t1, bad, a, listed);
  }

  /** The moves and removal with no name clash: `Bad_Raw` is emptied into
      the archive folder and removed, and nothing else changes. */
  lemma MoveAndRemoveAll(t: Tree, bad: Path, a: Path, listed: seq<string>)
    requires bad in t && a in t && bad != a
    requires IsListing(listed, t[bad]) && t[a].Keys !! t[bad].Keys
    ensures var (r, o) := MoveAndRemove(t, bad, a, listed);
      o == Pass && bad !in r && a in r && r[a] == t[a] + t[bad]
      && forall p :: p != bad && p != a ==> (p in r <==> p in t) && (p in t ==> r[p] == t[p])
  {
    assert forall m :: 0 <= m < |listed| ==> listed[m] in t[bad];
    FirstInIs(listed, t[a], |listed|);
    MovedWhole(t, bad, a, listed);
  }

  /** Prediction: without `Bad_Raw` the archive folder is still made, and
      `listdir` raises. */
  lemma PredictionArchiveWithoutBad(t: Tree, stamp: Timestamp, listed: seq<string>)
    requires BadDir(Prediction) !in t
    ensures ArchiveSpec(t, Prediction, stamp, listed)
         == (EnsureDir(t, ArchiveDir(Prediction, stamp)), Fail(OsError(BadDir(Prediction))))
  {
    StagingAndArchiveDistinct(Prediction, stamp);
  }

  /** Prediction: once an archive run has succeeded, `Bad_Raw` is gone, so
      the next archive run raises, whatever its timestamp. */
  lemma PredictionSecondArchiveFails(t: Tree, s1: Timestamp, s2: Timestamp, l1: seq<string>, l2: seq<string>)
    requires BadDir(Prediction) in t ==> IsListing(l1, t[BadDir(Prediction)])
    requires ArchiveSpec(t, Prediction, s1, l1).1 == Pass
    ensures var t' := ArchiveSpec(t, Prediction, s1, l1).0;
      BadDir(Prediction) !in t'
      && ArchiveSpec(t', Prediction, s2, l2) == (EnsureDir(t', ArchiveDir(Prediction, s2)), Fail(OsError(BadDir(Prediction))))
  {
    StagingAndArchiveDistinct(Prediction, s1);
    StagingAndArchiveDistinct(Prediction, s2);
  }

  /** Training: archiving never raises, and without `Bad_Raw` it changes
      nothing. */
  lemma TrainingArchiveQuiet(t: Tree, stamp: Timestamp, listed: seq<string>)
    requires BadDir(Training) in t ==> IsListing(listed, t[BadDir(Training)])
    ensures ArchiveSpec(t, Training, stamp, listed).1 == Pass
    ensures BadDir(Training) !in t ==> ArchiveSpec(t, Training, stamp, listed).0 == t
  {
  }

  /** A name clash in the archive folder stops the moves: prediction
      re-raises, training swallows, and in both the clashing file and every
      file listed after it stay in `Bad_Raw`, which is kept. */
  lemma ArchiveClash(t: Tree, v: Variant, stamp: Timestamp, listed: seq<string>, n: nat)
    requires BadDir(v) in t && IsListing(listed, t[BadDir(v)])
    requires ArchiveDir(v, stamp) in t && n < |listed|
    requires listed[n] in t[ArchiveDir(v, stamp)]
    requires forall m :: 0 <= m < n ==> listed[m] !in t[ArchiveDir(v, stamp)]
    ensures var (r, o) := ArchiveSpec(t, v, stamp, listed);
      var bad := BadDir(v);
      o == (if v == Prediction then Fail(OsError(ArchiveDir(v, stamp) + "/" + listed[n])) else Pass)
      && bad in r && forall k :: n <= k < |listed| ==> listed[k] in r[bad] && r[bad][listed[k]] == t[bad][listed[k]]
  {
    var bad, a := BadDir(v), ArchiveDir(v, stamp);
    StagingAndArchiveDistinct(v, stamp);
    var t1 := if v == Prediction then EnsureDir(t, a) else EnsureDir(EnsureDir(t, ArchiveRoot(v)), a);
    assert t1[a] == t[a] && t1[bad] == t[bad];
    MoveAndRemoveClash(t1, bad, a, listed, n);
  }

  /** The moves stop at the first clash, raising it; the clashing file and
      every file after it stay in `Bad_Raw`. */
  lemma MoveAndRemoveClash(t: Tree, bad: Path, a: Path, listed: seq<string>, n: nat)
    requires bad in t && a in t && bad != a
    requires IsListing(listed, t[bad]) && n < |listed|
    requires listed[n] in t[a]
    requires forall m :: 0 <= m < n ==> listed[m] !in t[a]
    ensures var (r, o) := MoveAndRemove(t, bad, a, listed);
      o == Fail(OsError(a + "/" + listed[n]))
      && bad in r && forall k :: n <= k < |listed| ==> listed[k] in r[bad] && r[bad][listed[k]] == t[bad][listed[k]]
  {
    FirstInIs(listed, t[a], n);
    forall k | n <= k < |listed|
      ensures listed[k] !in listed[..n]
    {
      forall j | 0 <= j < n
        ensures listed[..n][j] != listed[k]
      {
      }
    }
  }
}
