/** The part of the file system the pipeline touches: folders, named by
    their path, each holding files by name. Subfolders of a folder are
    folders of their own and are not listed among its files. */
module Files {
  import opened Common

  type Content = string
  type Dir = map<string, Content>
  type Tree = map<Path, Dir>

  /** The file system shared by every step of a run. */
  class FileSystem {
    var dirs: Tree

    constructor (initial: Tree)
      ensures dirs == initial
    {
      dirs := initial;
    }
  }

  predicate Distinct(names: seq<string>)
  {
    forall i, j :: 0 <= i < j < |names| ==> names[i] != names[j]
  }

  /** `names` is an `os.listdir` result for folder `d`: every file once, in
      an order the file system chooses. */
  predicate IsListing(names: seq<string>, d: Dir)
  {
    Distinct(names)
    && (forall i :: 0 <= i < |names| ==> names[i] in d)
    && (forall x :: x in d ==> x in names)
  }

  /** `os.listdir(path)` for an existing folder; the order is left open. */
  method ListDir(fs: FileSystem, path: Path) returns (names: seq<string>)
    requires path in fs.dirs
    ensures IsListing(names, fs.dirs[path])
  {
    names := [];
    var left := fs.dirs[path].Keys;
    while left != {}
      invariant forall x :: x in fs.dirs[path] <==> x in left || x in names
      invariant forall i :: 0 <= i < |names| ==> names[i] !in left && names[i] in fs.dirs[path]
      invariant Distinct(names)
      decreases left
    {
      var x :| x in left;
      names := names + [x];
      left := left - {x};
    }
  }

  /** `if not exists(p): os.makedirs(p)`: an existing folder keeps its files. */
  function EnsureDir(t: Tree, p: Path): (r: Tree)
    ensures p in r && r[p] == (if p in t then t[p] else map[])
    ensures forall q :: q != p ==> (q in r <==> q in t)
    ensures forall q :: q != p && q in t ==> r[q] == t[q]
  {
    if p in t then t else t[p := map[]]
  }

  /** `shutil.rmtree(p)` on an existing folder; nothing when it is absent. */
  function RemoveDir(t: Tree, p: Path): Tree
  {
    t - {p}
  }

  /** `shutil.copy(src/name, dst)`: the copy replaces a file of that name. */
  function CopyFile(t: Tree, src: Path, dst: Path, name: string): Tree
    requires src in t && dst in t && name in t[src]
  {
    t[dst := t[dst][name := t[src][name]]]
  }

  /** `shutil.move(src/name, dst)` when `dst` has no file of that name. */
  function MoveFile(t: Tree, src: Path, dst: Path, name: string): Tree
    requires src in t && dst in t && name in t[src]
  {
    t[src := t[src] - {name}][dst := t[dst][name := t[src][name]]]
  }

  /** The files of `d` whose names occur in `names`. */
  function Selected(d: Dir, names: seq<string>): Dir
  {
    map x | x in d && x in names :: d[x]
  }

  /** The files of `d` whose names do not occur in `names`. */
  function Without(d: Dir, names: seq<string>): Dir
  {
    map x | x in d && x !in names :: d[x]
  }

  /** The tree after the files `names` of `src` have been moved to `dst`. */
  function Moved(t: Tree, src: Path, dst: Path, names: seq<string>): Tree
    requires src in t && dst in t
  {
    t[src := Without(t[src], names)][dst := t[dst] + Selected(t[src], names)]
  }

  /** Position of the first of `names` already present in `d`, or `|names|`. */
  function FirstIn(names: seq<string>, d: Dir): (i: nat)
    ensures i <= |names|
    ensures i < |names| ==> names[i] in d
    ensures forall m :: 0 <= m < i ==> names[m] !in d
  {
    if names == [] then 0
    else if names[0] in d then 0
    else 1 + FirstIn(names[1..], d)
  }

  /** `FirstIn` is the position of the first name found in `d`. */
  lemma {:induction false} FirstInIs(names: seq<string>, d: Dir, i: nat)
    requires i <= |names|
    requires forall m :: 0 <= m < i ==> names[m] !in d
    requires i < |names| ==> names[i] in d
    ensures FirstIn(names, d) == i
  {
    if i > 0 {
      FirstInIs(names[1..], d, i - 1);
    }
  }

  /** Moving no file changes nothing. */
  lemma MovedNothing(t: Tree, src: Path, dst: Path)
    requires src in t && dst in t
    ensures Moved(t, src, dst, []) == t
  {
    assert Without(t[src], []) == t[src];
    assert Selected(t[src], []) == map[];
    assert t[dst] + map[] == t[dst];
  }

  /** Moving one more listed file extends the moved prefix by that file. */
  lemma MovedStep(t: Tree, src: Path, dst: Path, names: seq<string>, i: nat)
    requires src in t && dst in t && src != dst
    requires Distinct(names) && i < |names| && names[i] in t[src]
    ensures names[i] in Moved(t, src, dst, names[..i])[src]
    ensures MoveFile(Moved(t, src, dst, names[..i]), src, dst, names[i]) == Moved(t, src, dst, names[..i + 1])
  {
    var x, p := names[i], names[..i];
    assert x !in p by {
      forall m | 0 <= m < i ensures p[m] != x { }
    }
    assert names[..i + 1] == p + [x];
    var w, sel := Without(t[src], p), Selected(t[src], p);
    assert x in w && w[x] == t[src][x];
    WithoutOneMore(t[src], p, x);
    SelectedOneMore(t[src], p, x);
    UpdateUnion(t[dst], sel, x, t[src][x]);
    UpdateBoth(t, src, dst, w, t[dst] + sel, w - {x}, (t[dst] + sel)[x := t[src][x]]);
  }

  /** Updating two distinct keys again overrides the first updates. */
  lemma UpdateBoth(t: Tree, p: Path, q: Path, a: Dir, b: Dir, a2: Dir, b2: Dir)
    requires p != q
    ensures t[p := a][q := b][p := a2][q := b2] == t[p := a2][q := b2]
  {
  }

  lemma WithoutOneMore(d: Dir, p: seq<string>, x: string)
    ensures Without(d, p + [x]) == Without(d, p) - {x}
  {
    assert forall y :: y in p + [x] <==> y in p || y == x;
  }

  lemma SelectedOneMore(d: Dir, p: seq<string>, x: string)
    requires x in d
    ensures Selected(d, p + [x]) == Selected(d, p)[x := d[x]]
  {
    assert forall y :: y in p + [x] <==> y in p || y == x;
  }

  lemma UpdateUnion(a: Dir, b: Dir, x: string, c: Content)
    ensures (a + b)[x := c] == a + b[x := c]
  {
  }

  /** While no name of `names[..i]` was in `dst`, the next name is in `dst`
      after the moves exactly when it was there before. */
  lemma MovedCollision(t: Tree, src: Path, dst: Path, names: seq<string>, i: nat)
    requires src in t && dst in t && src != dst
    requires Distinct(names) && i < |names|
    ensures names[i] in Moved(t, src, dst, names[..i])[dst] <==> names[i] in t[dst]
  {
    assert names[i] !in names[..i] by {
      forall m | 0 <= m < i ensures names[..i][m] != names[i] { }
    }
  }

  /** Moving every listed file of `src` empties it into `dst`, the files of
      `src` winning over same-named files of `dst`; other folders stay. */
  lemma MovedWhole(t: Tree, src: Path, dst: Path, names: seq<string>)
    requires src in t && dst in t && src != dst
    requires IsListing(names, t[src])
    ensures Moved(t, src, dst, names)[src] == map[]
    ensures Moved(t, src, dst, names)[dst] == t[dst] + t[src]
    ensures forall p :: p in t && p != src && p != dst ==> Moved(t, src, dst, names)[p] == t[p]
  {
    assert Selected(t[src], names) == t[src];
    assert Without(t[src], names) == map[];
  }

  /** However far a move got, each file of `src` is, with its content,
      still in `src` if it was not moved, and in `dst` if it was; a moved
      file has left `src`, and a file not moved is in `dst` only if `dst`
      held that name before. Nothing else appears in either folder. */
  lemma MovedConserves(t: Tree, src: Path, dst: Path, names: seq<string>)
    requires src in t && dst in t && src != dst
    ensures var r := Moved(t, src, dst, names);
      forall x :: x in t[src] ==>
        (x in r[src] && r[src][x] == t[src][x] && x !in names)
        || (x in r[dst] && r[dst][x] == t[src][x] && x in names)
    ensures var r := Moved(t, src, dst, names);
      forall x :: x in r[src] ==> x in t[src]
    ensures var r := Moved(t, src, dst, names);
      forall x :: x in r[dst] ==> x in t[dst] || x in t[src]
    ensures var r := Moved(t, src, dst, names);
      forall x :: x in names ==> x !in r[src]
    ensures var r := Moved(t, src, dst, names);
      forall x :: x in r[dst] && x !in t[dst] ==> x in names
  {
  }
}
