/** `File_Operation` (file_operations/file_methods.py): where trained models
    are stored under `models/`, and which stored model serves a cluster. */
module ModelFiles {
  import opened Common
  import opened Text
  import opened Files

  const ModelDirectory: Path := "models"

  /** `os.path.join('models/', name)`, the folder of one saved model. */
  function ModelFolder(name: string): Path
  {
    ModelDirectory + "/" + name
  }

  /** The pickle file inside a model's folder. */
  function SavFile(name: string): string
  {
    name + ".sav"
  }

  /** `os.path.exists('models/<name>')`: a folder or a plain file of that
      name under `models`. */
  predicate ModelExists(t: Tree, name: string)
  {
    ModelFolder(name) in t || (ModelDirectory in t && name in t[ModelDirectory])
  }

  /** `entry.split('.')[0]`: the entry up to its first dot, or all of it. */
  function Stem(entry: string): (r: string)
    ensures r == entry[..IndexOf(entry, '.')]
    ensures '.' !in r
  {
    Split(entry, '.')[0]
  }

  /** Position of the first entry containing `key`, or `|entries|`. */
  function FirstContaining(entries: seq<string>, key: string): (i: nat)
    ensures i <= |entries|
    ensures i < |entries| ==> Contains(entries[i], key)
    ensures forall m :: 0 <= m < i ==> !Contains(entries[m], key)
  {
    if entries == [] then 0
    else if Contains(entries[0], key) then 0
    else 1 + FirstContaining(entries[1..], key)
  }

  lemma {:induction false} FirstContainingIs(entries: seq<string>, key: string, i: nat)
    requires i <= |entries|
    requires forall m :: 0 <= m < i ==> !Contains(entries[m], key)
    requires i < |entries| ==> Contains(entries[i], key)
    ensures FirstContaining(entries, key) == i
  {
    if i > 0 {
      FirstContainingIs(entries[1..], key, i - 1);
    }
  }

  function NotFoundMessage(cluster: int): string
  {
    "No model file found for cluster number " + DecimalString(cluster)
  }

  /** `find_correct_model_file`: `listing` is what `os.listdir('models/')`
      returned, `None` when the folder is missing. */
  function ModelFileFor(listing: Option<seq<string>>, cluster: int): Result<string>
  {
    match listing
    case None => Err(OsError(ModelDirectory + "/"))
    case Some(entries) =>
      var i := FirstContaining(entries, DecimalString(cluster));
      if i < |entries| then Ok(Stem(entries[i]))
      else Err(ModelNotFound(NotFoundMessage(cluster)))
  }

  /** The instance fields the lookup writes as it scans; Python creates
      them on first assignment, so they start out absent. */
  class FileOperation {
    var listOfModelFiles: Option<seq<string>>
    var file: Option<string>
    var modelName: Option<string>

    constructor ()
      ensures listOfModelFiles == None && file == None && modelName == None
    {
      listOfModelFiles := None;
      file := None;
      modelName := None;
    }

    /** The scan stops at the first entry containing the cluster number;
        the loop variable `self.file` is left at the last entry looked at. */
    method FindCorrectModelFile(listing: Option<seq<string>>, cluster: int) returns (r: Result<string>)
      modifies this
      ensures r == ModelFileFor(listing, cluster)
      ensures listing.None? ==> listOfModelFiles == old(listOfModelFiles) && file == old(file) && modelName == old(modelName)
      ensures listing.Some? ==> listOfModelFiles == listing
      ensures r.Ok? ==>
        (modelName == Some(r.value)
         && file == Some(listing.value[FirstContaining(listing.value, DecimalString(cluster))]))
      ensures r.Err? ==> modelName == old(modelName)
      ensures r.Err? && listing.Some? ==>
        file == (if listing.value == [] then old(file) else Some(listing.value[|listing.value| - 1]))
    {
      if listing.None? {
        r := Err(OsError(ModelDirectory + "/"));
        return;
      }
      var entries := listing.value;
      listOfModelFiles := listing;
      var key := DecimalString(cluster);
      var i := 0;
      while i < |entries|
        invariant i <= |entries|
        invariant forall m :: 0 <= m < i ==> !Contains(entries[m], key)
        invariant file == if i == 0 then old(file) else Some(entries[i - 1])
        invariant modelName == old(modelName)
        invariant listOfModelFiles == listing
      {
        file := Some(entries[i]);
        if Contains(entries[i], key) {
          modelName := Some(Stem(entries[i]));
          FirstContainingIs(entries, key, i);
          r := Ok(Stem(entries[i]));
          return;
        }
        i := i + 1;
      }
      FirstContainingIs(entries, key, i);
      r := Err(ModelNotFound(NotFoundMessage(cluster)));
    }
  }

  /** The lookup succeeds exactly when some entry contains the decimal
      text of the cluster number; it then answers with the first such
      entry in listing order, cut at its first dot. */
  lemma ModelFileFirstMatch(entries: seq<string>, cluster: int)
    ensures var r := ModelFileFor(Some(entries), cluster);
      var key := DecimalString(cluster);
      (r.Ok? <==> exists k :: 0 <= k < |entries| && Contains(entries[k], key))
      && (r.Ok? ==> exists k :: 0 <= k < |entries| && Contains(entries[k], key)
                      && (forall m :: 0 <= m < k ==> !Contains(entries[m], key))
                      && r.value == entries[k][..IndexOf(entries[k], '.')])
      && (r.Err? ==> r.error == ModelNotFound(NotFoundMessage(cluster)))
  {
    var key := DecimalString(cluster);
    var i := FirstContaining(entries, key);
    if i < |entries| {
      assert Contains(entries[i], key);
    }
  }

  /** The match is on substrings: cluster 1 is served by `XGBoost10` when
      that folder is listed before `SVM1`. */
  lemma SubstringMatchExample()
    ensures ModelFileFor(Some(["XGBoost10", "SVM1"]), 1) == Ok("XGBoost10")
  {
    var e := "XGBoost10";
    var entries := [e, "SVM1"];
    assert Digits(1) == "1";
    assert e[7..8] == "1";
    assert OccursAt(e, "1", 7);
    assert FirstContaining(entries, "1") == 0;
    assert forall k :: 0 <= k < |e| ==> e[k] != '.';
    SplitNone(e, '.');
  }

  /** A dot ends the model name: the entry `RandomForest2.sav` names `RandomForest2`. */
  lemma StemExample()
    ensures Stem("RandomForest2.sav") == "RandomForest2"
  {
    var a, b := "RandomForest2", "sav";
    assert "RandomForest2.sav" == a + ['.'] + b;
    SplitAfter(a, b, '.');
  }

  /** What `save_model` does to the tree: a model name already present
      reaches `shutil.rmtree`, and `shutil` is never imported, so the call
      raises `NameError` before anything changes; otherwise the folder is
      created holding the pickle file. `model` is the pickled bytes. */
  function SaveSpec(t: Tree, name: string, model: Content): (Tree, Result<string>)
  {
    if ModelExists(t, name) then (t, Err(NameError("shutil")))
    else (t[ModelFolder(name) := map[SavFile(name) := model]], Ok("success"))
  }

  method SaveModel(fs: FileSystem, name: string, model: Content) returns (r: Result<string>)
    modifies fs
    ensures (fs.dirs, r) == SaveSpec(old(fs.dirs), name, model)
  {
    var path := ModelFolder(name);
    if path in fs.dirs || (ModelDirectory in fs.dirs && name in fs.dirs[ModelDirectory]) {
      r := Err(NameError("shutil"));
      return;
    }
    fs.dirs := fs.dirs[path := map[]];                   // os.makedirs
    fs.dirs := fs.dirs[path := map[SavFile(name) := model]];   // pickle.dump
    assert fs.dirs == old(fs.dirs)[path := map[SavFile(name) := model]];
    r := Ok("success");
  }

  /** What `load_model` reads: the pickle file of the model's folder, or
      the `FileNotFoundError` of `open`. */
  function LoadSpec(t: Tree, name: string): Result<Content>
  {
    var p := ModelFolder(name);
    if p in t && SavFile(name) in t[p] then Ok(t[p][SavFile(name)])
    else Err(OsError(p + "/" + SavFile(name)))
  }

  method LoadModel(fs: FileSystem, name: string) returns (r: Result<Content>)
    ensures r == LoadSpec(fs.dirs, name)
  {
    var p := ModelFolder(name);
    if p in fs.dirs && SavFile(name) in fs.dirs[p] {
      r := Ok(fs.dirs[p][SavFile(name)]);
    } else {
      r := Err(OsError(p + "/" + SavFile(name)));
    }
  }

  /** Load reads the path save writes: a new model saved and then loaded
      comes back as it was, and no other folder changes. */
  lemma SaveThenLoad(t: Tree, name: string, model: Content)
    requires !ModelExists(t, name)
    ensures var (t1, r) := SaveSpec(t, name, model);
      r == Ok("success")
      && LoadSpec(t1, name) == Ok(model)
      && forall p :: p in t ==> p in t1 && t1[p] == t[p]
  {
  }

  /** `listing` is an `os.listdir('models/')` result for tree `t`: every
      saved model's folder name and every plain file of `models`, each
      once, in some order. */
  ghost predicate IsModelListing(listing: seq<string>, t: Tree)
  {
    Distinct(listing) && forall n :: n in listing <==> ModelExists(t, n)
  }

  lemma ModelFolderInjective(a: string, b: string)
    requires ModelFolder(a) == ModelFolder(b)
    ensures a == b
  {
    var k := |ModelDirectory + "/"|;
    assert a == ModelFolder(a)[k..] && b == ModelFolder(b)[k..];
  }

  /** Saving adds exactly the saved name to what `models/` lists. */
  lemma SaveListsName(t: Tree, name: string, model: Content, n: string)
    requires !ModelExists(t, name)
    ensures ModelExists(SaveSpec(t, name, model).0, n) <==> ModelExists(t, n) || n == name
  {
    assert ModelDirectory != ModelFolder(name) by {
      assert |ModelFolder(name)| > |ModelDirectory|;
    }
    if ModelFolder(n) == ModelFolder(name) {
      ModelFolderInjective(n, name);
    }
  }

  /** Save, find, load: a model saved under a dot-free name that contains
      the cluster number, where no model already stored matches that
      number, is the one the lookup picks for the cluster, whatever the
      order of the listing, and loading that name gives the saved model. */
  lemma SaveThenFind(t: Tree, name: string, model: Content, cluster: int, listing: seq<string>)
    requires !ModelExists(t, name)
    requires '.' !in name && Contains(name, DecimalString(cluster))
    requires forall n :: ModelExists(t, n) ==> !Contains(n, DecimalString(cluster))
    requires IsModelListing(listing, SaveSpec(t, name, model).0)
    ensures var r := ModelFileFor(Some(listing), cluster);
      r == Ok(name) && LoadSpec(SaveSpec(t, name, model).0, name) == Ok(model)
  {
    var key := DecimalString(cluster);
    var t1 := SaveSpec(t, name, model).0;
    SaveListsName(t, name, model, name);
    assert name in listing;
    var i := FirstContaining(listing, key);
    var j :| 0 <= j < |listing| && listing[j] == name;
    assert Contains(listing[j], key);
    SaveListsName(t, name, model, listing[i]);
    assert listing[i] == name;
    assert IndexOf(name, '.') == |name|;
    assert Stem(name) == name;
  }

  /** Saving over an existing model always fails and changes nothing, so a
      second save of the same name after a first one fails. */
  lemma SaveTwiceFails(t: Tree, name: string, m1: Content, m2: Content)
    ensures SaveSpec(t, name, m1).1.Ok? ==>
      var t1 := SaveSpec(t, name, m1).0;
      SaveSpec(t1, name, m2) == (t1, Err(NameError("shutil")))
      && LoadSpec(t1, name) == Ok(m1)
  {
    if SaveSpec(t, name, m1).1.Ok? {
      var t1 := SaveSpec(t, name, m1).0;
      assert ModelFolder(name) in t1;
      assert ModelExists(t1, name);
    }
  }

  /** `save_model` as evidently intended, with `shutil` imported: an
      existing model folder is removed with `rmtree` and saved afresh. A
      plain file of that name makes `rmtree` raise. */
  function SaveReplacing(t: Tree, name: string, model: Content): (Tree, Result<string>)
  {
    if ModelDirectory in t && name in t[ModelDirectory] && ModelFolder(name) !in t
    then (t, Err(OsError(ModelFolder(name))))
    else (t[ModelFolder(name) := map[SavFile(name) := model]], Ok("success"))
  }

  /** Saving with replacement always succeeds unless a plain file is in the
      way, and the latest model saved is the one loaded back; other folders
      are kept. */
  lemma SaveReplacingThenLoad(t: Tree, name: string, m1: Content, m2: Content)
    requires !(ModelDirectory in t && name in t[ModelDirectory])
    ensures var (t1, r1) := SaveReplacing(t, name, m1);
      var (t2, r2) := SaveReplacing(t1, name, m2);
      r1 == Ok("success") && r2 == Ok("success")
      && LoadSpec(t1, name) == Ok(m1) && LoadSpec(t2, name) == Ok(m2)
      && forall p :: p in t && p != ModelFolder(name) ==> p in t2 && t2[p] == t[p]
  {
    assert ModelDirectory != ModelFolder(name) by {
      assert |ModelFolder(name)| > |ModelDirectory|;
    }
  }
}
