/**
  tests/scripts/extract_images.py: finding the base and overlay directories of kustomize packages.
 */
module KustomizeDirs {
  import opened Wrappers

  /** A directory with its sub-folders; plain files play no part in the search. */
  datatype Dir = Dir(folders: seq<Folder>)

  datatype Folder = Folder(name: string, dir: Dir)

  /** A location below the root, as the names on the way down. */
  type Path = seq<string>

  const EXCLUDE_DIRS := [".github", "docs", "hack", "kfdef", "plugins", "tests"]

  const BASE := "base"
  const OVERLAYS := "overlays"

  predicate HasFolder(d: Dir, name: string) {
    exists i :: 0 <= i < |d.folders| && d.folders[i].name == name
  }

  /** The sub-folder of a name. */
  function Child(d: Dir, name: string): (c: Option<Dir>)
    ensures c.Some? <==> HasFolder(d, name)
    ensures c.Some? ==> exists i :: 0 <= i < |d.folders| && d.folders[i] == Folder(name, c.value)
    ensures c.Some? ==> c.value < d
    decreases |d.folders|
  {
    if d.folders == [] then None
    else if d.folders[0].name == name then Some(d.folders[0].dir)
    else
      var c := Child(Dir(d.folders[1..]), name);
      assert forall i :: 0 < i < |d.folders| ==> d.folders[i] == d.folders[1..][i - 1];
      c
  }

  function Names(fs: seq<Folder>): (r: seq<string>)
    ensures |r| == |fs|
  {
    seq(|fs|, i requires 0 <= i < |fs| => fs[i].name)
  }

  /** A package directory holds a base and nothing else, or a base and overlays and nothing else. */
  predicate IsPackage(d: Dir) {
    || (|d.folders| == 1 && HasFolder(d, BASE))
    || (|d.folders| == 2 && HasFolder(d, BASE) && HasFolder(d, OVERLAYS))
  }

  /** The directories a package contributes, relative to it. */
  function PackageDirs(d: Dir): seq<Path>
    requires IsPackage(d)
  {
    [[BASE]] + if |d.folders| == 1 then [] else Under([OVERLAYS], Singles(Names(Child(d, OVERLAYS).value.folders)))
  }

  function Singles(names: seq<string>): (r: seq<Path>)
    ensures |r| == |names|
  {
    seq(|names|, i requires 0 <= i < |names| => [names[i]])
  }

  function Under(at: Path, paths: seq<Path>): (r: seq<Path>)
    ensures |r| == |paths|
  {
    seq(|paths|, i requires 0 <= i < |paths| => at + paths[i])
  }

  /** The search: a package ends it, excluded names are passed over. */
  function Discover(d: Dir): seq<Path>
    decreases d, 1
  {
    if IsPackage(d) then PackageDirs(d) else DiscoverIn(d.folders)
  }

  function DiscoverIn(fs: seq<Folder>): seq<Path>
    decreases fs, 0
  {
    if fs == [] then []
    else
      var last := fs[|fs| - 1];
      DiscoverIn(fs[..|fs| - 1]) + if last.name in EXCLUDE_DIRS then [] else Under([last.name], Discover(last.dir))
  }

  // ---------------------------------------------------------------- what the search should find

  /** The directory at a path. */
  function Sub(d: Dir, p: Path): Option<Dir>
    decreases |p|
  {
    if p == [] then Some(d)
    else
      match Child(d, p[0])
      case None => None
      case Some(c) => Sub(c, p[1..])
  }

  /** The sub-folders are a base, or a base and overlays in either order. */
  predicate HoldsPackage(d: Dir) {
    || Names(d.folders) == ["base"]
    || Names(d.folders) == ["base", "overlays"]
    || Names(d.folders) == ["overlays", "base"]
  }

  /** A name that the search goes into. */
  predicate Passable(name: string) {
    name !in {".github", "docs", "hack", "kfdef", "plugins", "tests"}
  }

  /** A package with no package strictly above it and no excluded name on the way down. */
  ghost predicate IsOutermostPackage(root: Dir, p: Path) {
    && Sub(root, p).Some?
    && HoldsPackage(Sub(root, p).value)
    && (forall i :: 0 <= i < |p| ==> Passable(p[i]))
    && (forall i :: 0 <= i < |p| ==> Sub(root, p[..i]).Some? && !HoldsPackage(Sub(root, p[..i]).value))
  }

  /** The base of a package, or a folder of its overlays. */
  ghost predicate IsBaseOrOverlay(package: Dir, s: Path) {
    Sub(package, s).Some? && (s == ["base"] || (|s| == 2 && s[0] == "overlays"))
  }

  ghost predicate Wanted(root: Dir, q: Path) {
    exists i :: 0 <= i <= |q| && IsOutermostPackage(root, q[..i]) && IsBaseOrOverlay(Sub(root, q[..i]).value, q[i..])
  }

  /** No directory lists two folders of the same name. */
  ghost predicate WellFormed(d: Dir) {
    && (forall i, j :: 0 <= i < j < |d.folders| ==> d.folders[i].name != d.folders[j].name)
    && (forall i :: 0 <= i < |d.folders| ==> WellFormed(d.folders[i].dir))
  }

  lemma PackagesAre(d: Dir)
    ensures IsPackage(d) <==> HoldsPackage(d)
  {
    var names := Names(d.folders);
    if HoldsPackage(d) {
      assert names[0] == d.folders[0].name && (|names| > 1 ==> names[1] == d.folders[1].name);
    }
    if IsPackage(d) {
      assert |BASE| == 4 && |OVERLAYS| == 8;
      assert |names| == 1 ==> names == [BASE];
      assert |names| == 2 ==> names == [BASE, OVERLAYS] || names == [OVERLAYS, BASE];
    }
  }

  lemma ExcludedAre(name: string)
    ensures name in EXCLUDE_DIRS <==> !Passable(name)
  {
    var e := EXCLUDE_DIRS;
    assert !Passable(e[0]) && !Passable(e[1]) && !Passable(e[2]) && !Passable(e[3]) && !Passable(e[4]) && !Passable(e[5]);
  }

  lemma ChildOfFolder(d: Dir, i: nat)
    requires WellFormed(d) && i < |d.folders|
    ensures Child(d, d.folders[i].name) == Some(d.folders[i].dir)
  {
  }

  lemma InUnder(at: string, paths: seq<Path>, q: Path)
    ensures q in Under([at], paths) <==> q != [] && q[0] == at && q[1..] in paths
  {
    if q in Under([at], paths) {
      var i :| 0 <= i < |paths| && q == [at] + paths[i];
    }
    if q != [] && q[0] == at && q[1..] in paths {
      var i :| 0 <= i < |paths| && paths[i] == q[1..];
      assert Under([at], paths)[i] == q;
    }
  }

  ghost predicate Through(f: Folder, q: Path) {
    q != [] && f.name == q[0] && q[0] !in EXCLUDE_DIRS && q[1..] in Discover(f.dir)
  }

  lemma {:induction false} InDiscoverIn(fs: seq<Folder>, q: Path)
    ensures q in DiscoverIn(fs) <==> exists i :: 0 <= i < |fs| && Through(fs[i], q)
    decreases |fs|
  {
    if fs != [] {
      InDiscoverIn(fs[..|fs| - 1], q);
      InFrontOrLast(fs, q);
      AnyInFrontOrLast(fs, fs[..|fs| - 1], q);
    }
  }

  lemma AnyInFrontOrLast(fs: seq<Folder>, front: seq<Folder>, q: Path)
    requires fs != [] && front == fs[..|fs| - 1]
    ensures (exists i :: 0 <= i < |fs| && Through(fs[i], q))
            <==> (exists i :: 0 <= i < |front| && Through(front[i], q)) || Through(fs[|fs| - 1], q)
  {
    assert forall i :: 0 <= i < |front| ==> front[i] == fs[i];
  }

  lemma InFrontOrLast(fs: seq<Folder>, q: Path)
    requires fs != []
    ensures q in DiscoverIn(fs) <==> q in DiscoverIn(fs[..|fs| - 1]) || Through(fs[|fs| - 1], q)
  {
    var last := fs[|fs| - 1];
    InUnder(last.name, Discover(last.dir), q);
  }

  lemma SubOfOne(d: Dir, name: string)
    ensures Sub(d, [name]) == Child(d, name)
  {
    assert [name][1..] == [];
  }

  lemma PackageDirsAre(d: Dir, s: Path)
    requires IsPackage(d)
    ensures s in PackageDirs(d) <==> IsBaseOrOverlay(d, s)
  {
    assert BASE[0] != OVERLAYS[0];
    SubOfOne(d, BASE);
    if |d.folders| == 1 {
      assert !HasFolder(d, OVERLAYS);
      assert |s| == 2 && s[0] == OVERLAYS ==> Sub(d, s).None?;
    } else {
      var over := Child(d, OVERLAYS).value;
      var names := Names(over.folders);
      InUnder(OVERLAYS, Singles(names), s);
      if |s| == 2 {
        assert s[1..] == [s[1]];
        SubOfOne(over, s[1]);
      }
      if |s| == 2 && s[0] == OVERLAYS && Child(over, s[1]).Some? {
        var i :| 0 <= i < |over.folders| && over.folders[i].name == s[1];
        assert Singles(names)[i] == s[1..];
      }
      if s != [] && s[1..] in Singles(names) {
        var i :| 0 <= i < |names| && Singles(names)[i] == s[1..];
        assert over.folders[i].name == s[1..][0];
        assert HasFolder(over, s[1]);
      }
    }
  }

  /** Going one folder down. */
  lemma OutermostBelow(root: Dir, p: Path)
    requires p != []
    ensures IsOutermostPackage(root, p)
            <==> !HoldsPackage(root) && Passable(p[0]) && Child(root, p[0]).Some?
                 && IsOutermostPackage(Child(root, p[0]).value, p[1..])
  {
    assert Sub(root, p[..0]) == Some(root);
    if Child(root, p[0]).Some? {
      var c := Child(root, p[0]).value;
      forall i | 0 < i <= |p|
        ensures Sub(root, p[..i]) == Sub(c, p[1..][..i - 1])
      {
        assert p[..i][1..] == p[1..][..i - 1];
      }
      if IsOutermostPackage(root, p) {
        forall i | 0 <= i < |p| - 1
          ensures Sub(c, p[1..][..i]).Some? && !HoldsPackage(Sub(c, p[1..][..i]).value)
        {
          assert Sub(root, p[..i + 1]) == Sub(c, p[1..][..i]);
        }
      }
    }
  }

  lemma WantedBelow(root: Dir, q: Path)
    requires !HoldsPackage(root)
    ensures Wanted(root, q)
            <==> q != [] && Passable(q[0]) && Child(root, q[0]).Some? && Wanted(Child(root, q[0]).value, q[1..])
  {
    forall i | 0 < i <= |q|
      ensures q[..i][1..] == q[1..][..i - 1] && q[i..] == q[1..][i - 1..]
    {
    }
    if Wanted(root, q) {
      var i :| 0 <= i <= |q| && IsOutermostPackage(root, q[..i]) && IsBaseOrOverlay(Sub(root, q[..i]).value, q[i..]);
      OutermostBelow(root, q[..i]);
    }
    if q != [] && Passable(q[0]) && Child(root, q[0]).Some? && Wanted(Child(root, q[0]).value, q[1..]) {
      var c, r := Child(root, q[0]).value, q[1..];
      var i :| 0 <= i <= |r| && IsOutermostPackage(c, r[..i]) && IsBaseOrOverlay(Sub(c, r[..i]).value, r[i..]);
      OutermostBelow(root, q[..i + 1]);
      assert q[i + 1..] == r[i..];
    }
  }

  lemma NothingBelowPackage(root: Dir, p: Path)
    requires HoldsPackage(root) && IsOutermostPackage(root, p)
    ensures p == []
  {
    assert p[..0] == [];
  }

  /** The search finds exactly the bases and overlays of outermost packages. */
  lemma {:induction false} DiscoverFindsWanted(root: Dir, q: Path)
    requires WellFormed(root)
    ensures q in Discover(root) <==> Wanted(root, q)
    decreases root
  {
    PackagesAre(root);
    if IsPackage(root) {
      PackageDirsAre(root, q);
      assert IsOutermostPackage(root, []);
      assert q[..0] == [] && q[0..] == q;
      if Wanted(root, q) {
        var i :| 0 <= i <= |q| && IsOutermostPackage(root, q[..i]) && IsBaseOrOverlay(Sub(root, q[..i]).value, q[i..]);
        NothingBelowPackage(root, q[..i]);
      }
    } else {
      InDiscoverIn(root.folders, q);
      WantedBelow(root, q);
      if q != [] {
        ExcludedAre(q[0]);
        forall i | 0 <= i < |root.folders| && root.folders[i].name == q[0]
          ensures Child(root, q[0]) == Some(root.folders[i].dir)
          ensures q[1..] in Discover(root.folders[i].dir) <==> Wanted(root.folders[i].dir, q[1..])
        {
          ChildOfFolder(root, i);
          DiscoverFindsWanted(root.folders[i].dir, q[1..]);
        }
      }
    }
  }

  // ---------------------------------------------------------------- nothing is found twice

  ghost predicate NoRepeats(paths: seq<Path>) {
    forall i, j :: 0 <= i < j < |paths| ==> paths[i] != paths[j]
  }

  lemma UnderNoRepeats(at: Path, paths: seq<Path>)
    requires NoRepeats(paths)
    ensures NoRepeats(Under(at, paths))
  {
    var us := Under(at, paths);
    forall i, j | 0 <= i < j < |us|
      ensures us[i] != us[j]
    {
      assert us[i][|at|..] == paths[i] && us[j][|at|..] == paths[j];
    }
  }

  lemma PackageDirsNoRepeats(d: Dir)
    requires IsPackage(d) && WellFormed(d)
    ensures NoRepeats(PackageDirs(d))
  {
    if |d.folders| == 2 {
      var fs := Child(d, OVERLAYS).value.folders;
      var singles := Singles(Names(fs));
      forall i, j | 0 <= i < j < |singles|
        ensures singles[i] != singles[j]
      {
        assert singles[i][0] == fs[i].name && singles[j][0] == fs[j].name;
      }
      UnderNoRepeats([OVERLAYS], singles);
    }
  }

  lemma {:induction false} DiscoverInNoRepeats(fs: seq<Folder>)
    requires forall i, j :: 0 <= i < j < |fs| ==> fs[i].name != fs[j].name
    requires forall i :: 0 <= i < |fs| ==> NoRepeats(Discover(fs[i].dir))
    ensures NoRepeats(DiscoverIn(fs))
    decreases |fs|
  {
    if fs != [] {
      var n := |fs| - 1;
      var front, back := DiscoverIn(fs[..n]), Under([fs[n].name], Discover(fs[n].dir));
      DiscoverInNoRepeats(fs[..n]);
      UnderNoRepeats([fs[n].name], Discover(fs[n].dir));
      forall q | q in front && q in back
        ensures false
      {
        InDiscoverIn(fs[..n], q);
        InUnder(fs[n].name, Discover(fs[n].dir), q);
      }
      NoRepeatsAppend(front, back);
    }
  }

  lemma NoRepeatsAppend(a: seq<Path>, b: seq<Path>)
    requires NoRepeats(a) && NoRepeats(b)
    requires forall q :: q in a ==> q !in b
    ensures NoRepeats(a + b)
  {
    assert forall i :: 0 <= i < |a| ==> a[i] in a;
    assert forall i :: 0 <= i < |b| ==> b[i] in b;
  }

  /** No directory is emitted twice. */
  lemma {:induction false} DiscoverNoRepeats(root: Dir)
    requires WellFormed(root)
    ensures NoRepeats(Discover(root))
    decreases root
  {
    if IsPackage(root) {
      PackageDirsNoRepeats(root);
    } else {
      forall i | 0 <= i < |root.folders|
        ensures NoRepeats(Discover(root.folders[i].dir))
      {
        DiscoverNoRepeats(root.folders[i].dir);
      }
      DiscoverInNoRepeats(root.folders);
    }
  }

  // ---------------------------------------------------------------- the order of what is found

  /** A base stands before overlays, and otherwise the order is that of the listings on the way down. */
  ghost predicate Precedes(d: Dir, p: Path, q: Path)
    decreases d, 1
  {
    if HoldsPackage(d) then
      || (p == ["base"] && |q| == 2)
      || (|p| == |q| == 2 && Child(d, "overlays").Some? && Listed(Child(d, "overlays").value.folders, p[1], q[1]))
    else InTurn(d.folders, p, q)
  }

  ghost predicate Listed(fs: seq<Folder>, a: string, b: string) {
    exists i, j :: 0 <= i < j < |fs| && fs[i].name == a && fs[j].name == b
  }

  ghost predicate InTurn(fs: seq<Folder>, p: Path, q: Path)
    decreases fs, 0
  {
    && p != [] && q != []
    && exists i, j :: 0 <= i <= j < |fs| && fs[i].name == p[0] && fs[j].name == q[0]
                      && (i < j || Precedes(fs[i].dir, p[1..], q[1..]))
  }

  ghost predicate Ordered(d: Dir, paths: seq<Path>) {
    forall a, b :: 0 <= a < b < |paths| ==> Precedes(d, paths[a], paths[b])
  }

  lemma PackageDirsOrdered(d: Dir)
    requires IsPackage(d)
    ensures Ordered(d, PackageDirs(d))
  {
    PackagesAre(d);
    var paths := PackageDirs(d);
    if |d.folders| == 2 {
      var fs := Child(d, OVERLAYS).value.folders;
      forall a, b | 0 <= a < b < |paths|
        ensures Precedes(d, paths[a], paths[b])
      {
        assert paths[b] == [OVERLAYS] + [fs[b - 1].name];
        if a > 0 {
          assert paths[a] == [OVERLAYS] + [fs[a - 1].name];
          assert Listed(fs, paths[a][1], paths[b][1]);
        }
      }
    }
  }

  lemma MoreFolders(fs: seq<Folder>, n: nat, p: Path, q: Path)
    requires n <= |fs| && InTurn(fs[..n], p, q)
    ensures InTurn(fs, p, q)
  {
    var i, j :| 0 <= i <= j < n && fs[..n][i].name == p[0] && fs[..n][j].name == q[0]
                && (i < j || Precedes(fs[..n][i].dir, p[1..], q[1..]));
    assert fs[i] == fs[..n][i] && fs[j] == fs[..n][j];
  }

  lemma {:induction false} DiscoverInOrdered(fs: seq<Folder>)
    requires forall i :: 0 <= i < |fs| ==> Ordered(fs[i].dir, Discover(fs[i].dir))
    ensures forall a, b :: 0 <= a < b < |DiscoverIn(fs)| ==> InTurn(fs, DiscoverIn(fs)[a], DiscoverIn(fs)[b])
    decreases |fs|
  {
    if fs != [] {
      var n := |fs| - 1;
      var front, below, all := DiscoverIn(fs[..n]), Discover(fs[n].dir), DiscoverIn(fs);
      DiscoverInOrdered(fs[..n]);
      forall a, b | 0 <= a < b < |all|
        ensures InTurn(fs, all[a], all[b])
      {
        if b < |front| {
          MoreFolders(fs, n, front[a], front[b]);
        } else {
          assert all[b] == [fs[n].name] + below[b - |front|];
          if a < |front| {
            assert front[a] in front;
            InDiscoverIn(fs[..n], front[a]);
            var i :| 0 <= i < n && Through(fs[..n][i], front[a]);
            assert fs[i].name == all[a][0];
          } else {
            assert all[a] == [fs[n].name] + below[a - |front|];
            assert all[a][1..] == below[a - |front|] && all[b][1..] == below[b - |front|];
            assert Precedes(fs[n].dir, all[a][1..], all[b][1..]);
          }
        }
      }
    }
  }

  /** The directories are found in the order of the listings, each base before its overlays. */
  lemma {:induction false} DiscoverIsOrdered(root: Dir)
    ensures Ordered(root, Discover(root))
    decreases root
  {
    PackagesAre(root);
    if IsPackage(root) {
      PackageDirsOrdered(root);
    } else {
      forall i | 0 <= i < |root.folders|
        ensures Ordered(root.folders[i].dir, Discover(root.folders[i].dir))
      {
        DiscoverIsOrdered(root.folders[i].dir);
      }
      DiscoverInOrdered(root.folders);
    }
  }

  // ---------------------------------------------------------------- the search as written

  /** The list shared by all calls of the recursive helper. */
  class Accumulator {
    var dirs: seq<Path>

    constructor ()
      ensures dirs == []
    {
      dirs := [];
    }

    method Helper(d: Dir, curr: Path)
      modifies this
      ensures dirs == old(dirs) + Under(curr, Discover(d))
      decreases d
    {
      if IsPackage(d) {
        dirs := dirs + Under(curr, PackageDirs(d));
        return;
      }
      for i := 0 to |d.folders|
        invariant dirs == old(dirs) + Under(curr, DiscoverIn(d.folders[..i]))
      {
        var f := d.folders[i];
        NextFolder(curr, d.folders, i);
        if f.name !in EXCLUDE_DIRS {
          Helper(f.dir, curr + [f.name]);
          Associate(old(dirs), Under(curr, DiscoverIn(d.folders[..i])), Under(curr + [f.name], Discover(f.dir)));
        }
      }
      assert d.folders[..|d.folders|] == d.folders;
    }
  }

  lemma NextFolder(curr: Path, fs: seq<Folder>, i: nat)
    requires i < |fs|
    ensures Under(curr, DiscoverIn(fs[..i + 1]))
            == Under(curr, DiscoverIn(fs[..i]))
               + if fs[i].name in EXCLUDE_DIRS then [] else Under(curr + [fs[i].name], Discover(fs[i].dir))
  {
    assert fs[..i + 1][..i] == fs[..i];
    if fs[i].name in EXCLUDE_DIRS {
      assert DiscoverIn(fs[..i + 1]) == DiscoverIn(fs[..i]);
    } else {
      UnderAppend(curr, DiscoverIn(fs[..i]), Under([fs[i].name], Discover(fs[i].dir)));
      UnderUnder(curr, fs[i].name, Discover(fs[i].dir));
    }
  }

  lemma Associate(a: seq<Path>, b: seq<Path>, c: seq<Path>)
    ensures a + b + c == a + (b + c)
  {
  }

  lemma UnderAppend(at: Path, a: seq<Path>, b: seq<Path>)
    ensures Under(at, a + b) == Under(at, a) + Under(at, b)
  {
  }

  lemma UnderUnder(at: Path, name: string, paths: seq<Path>)
    ensures Under(at, Under([name], paths)) == Under(at + [name], paths)
  {
    forall i | 0 <= i < |paths|
      ensures at + ([name] + paths[i]) == at + [name] + paths[i]
    {
    }
  }

  method GetKustomizationDirs(root: Dir) returns (res: seq<Path>)
    ensures res == Discover(root)
    ensures WellFormed(root) ==> (forall q :: q in res <==> Wanted(root, q)) && NoRepeats(res)
    ensures Ordered(root, res)
  {
    DiscoverIsOrdered(root);
    if WellFormed(root) {
      DiscoverNoRepeats(root);
      forall q
        ensures q in Discover(root) <==> Wanted(root, q)
      {
        DiscoverFindsWanted(root, q);
      }
    }
    var acc := new Accumulator();
    acc.Helper(root, []);
    assert forall i :: 0 <= i < |Discover(root)| ==> [] + Discover(root)[i] == Discover(root)[i];
    res := acc.dirs;
  }
}
