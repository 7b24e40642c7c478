/** hack/generate_tests.py: the location of a generated test and its path back to the package. */
module GenerateTests {
  import opened PosixPaths

  const TEST_NAME := "kustomize_test.go"

  /** generate_test_path: where the test for a package goes. */
  function TestPath(repoRoot: string, rpath: string): string {
    JoinAll([repoRoot, "tests", rpath, TEST_NAME])
  }

  /** The path from the test's directory to the package: one `..` per piece, one more, then the path. */
  function PackageDir(rpath: string): string {
    JoinAll(Parents(|Split(rpath)|) + ["..", rpath])
  }

  lemma FourPieces(l: Location, a: string, b: string, c: string, d: string)
    ensures ResolveAll(l, [a, b, c, d]) == Resolve(Resolve(Resolve(Resolve(l, a), b), c), d)
  {
    assert [a, b, c, d][..3] == [a, b, c] && [a, b, c][..2] == [a, b] && [a, b][..1] == [a] && [a][..0] == [];
    assert ResolveAll(l, [a][..0]) == l;
    assert ResolveAll(l, [a]) == Resolve(l, a);
    assert ResolveAll(l, [a, b]) == Resolve(Resolve(l, a), b);
    assert ResolveAll(l, [a, b, c]) == Resolve(Resolve(Resolve(l, a), b), c);
  }

  /** The test of a package below the root lies in the same place below `tests`. */
  lemma TestPathLeads(l: Location, root: Location, rel: Location)
    requires Normal(root) && Normal(rel)
    ensures Resolve(l, TestPath(Absolute(root), RelPath(root + rel, root))) == root + ["tests"] + rel + [TEST_NAME]
  {
    var rpath := RelPath(root + rel, root);
    ResolveJoinAll(l, [Absolute(root), "tests", rpath, TEST_NAME]);
    FourPieces(l, Absolute(root), "tests", rpath, TEST_NAME);
    AbsoluteLeadsThere(l, root);
    LetterNames();
    NameLeads(root, "tests");
    RelPathBelow(root, rel, root + ["tests"]);
    NameLeads(root + ["tests"] + rel, TEST_NAME);
  }

  lemma LetterNames()
    ensures IsName("tests") && IsName(TEST_NAME)
  {
    assert "tests"[0] == 't' && TEST_NAME[0] == 'k';
  }

  lemma RelPathIs(root: Location, rel: Location)
    ensures RelPath(root + rel, root) == if rel == [] then "." else JoinSep(rel)
  {
    var path := root + rel;
    var n := CommonPrefix(path, root);
    assert forall i :: 0 <= i < |root| ==> path[i] == root[i];
    assert n == |root|;
    assert path[n..] == rel;
    assert Parents(0) + rel == rel;
  }

  /** Below the root the relative path is just the names on the way down. */
  lemma RelPathBelow(root: Location, rel: Location, from: Location)
    requires Normal(rel)
    ensures Resolve(from, RelPath(root + rel, root)) == from + rel
    ensures |Split(RelPath(root + rel, root))| == if rel == [] then 1 else |rel|
  {
    RelPathIs(root, rel);
    if rel == [] {
      DotsLead(from);
      SlashFreeSplit(".");
      assert from + rel == from;
    } else {
      NamesJoined(from, rel);
    }
  }

  lemma NamesJoined(from: Location, rel: Location)
    requires Normal(rel) && rel != []
    ensures Resolve(from, JoinSep(rel)) == from + rel && Split(JoinSep(rel)) == rel
  {
    assert SlashFree(rel);
    SplitJoinSep(rel);
    FirstOfJoinSep(rel);
    NamesLeadDown(from, rel);
  }

  /**
    The path written into a test leads from the test's directory to the package, exactly when
    the package is not the repository root itself (or that root is the file system root).
   */
  lemma PackageDirIsRight(root: Location, rel: Location)
    requires Normal(root) && Normal(rel)
    ensures Resolve(root + ["tests"] + rel, PackageDir(RelPath(root + rel, root))) == root + rel
            <==> rel != [] || root == []
  {
    var rpath := RelPath(root + rel, root);
    var k := |Split(rpath)|;
    var from := root + ["tests"] + rel;
    var top := Up(from, k + 1);
    PackageDirLeads(from, rpath);
    RelPathBelow(root, rel, top);
    if rel != [] {
      assert top == root;
    } else if root != [] {
      assert |top + rel| < |root + rel|;
    }
  }

  /** For the root of a repository at /m the path written is `../../.`, which leads to the file system root. */
  lemma RootPackageIsMissed()
    ensures Resolve(["m", "tests"], PackageDir(RelPath(["m"], ["m"]))) == []
  {
    var root: Location := ["m"];
    assert Normal(root);
    RelPathBelow(root, [], []);
    assert root + [] == root;
    var rpath := RelPath(root, root);
    PackageDirLeads(["m", "tests"], rpath);
    assert Up(["m", "tests"], 2) == [];
  }

  lemma PackageDirLeads(from: Location, rpath: string)
    ensures Resolve(from, PackageDir(rpath)) == Resolve(Up(from, |Split(rpath)| + 1), rpath)
  {
    var k := |Split(rpath)|;
    var top := Up(from, k + 1);
    assert Parents(k) + ["..", rpath] == Parents(k + 1) + [rpath];
    ResolveJoinAll(from, Parents(k + 1) + [rpath]);
    ResolveAllAppend(from, Parents(k + 1), [rpath]);
    ParentsLeadUp(from, k + 1);
    assert [rpath][..0] == [];
    assert ResolveAll(top, [rpath][..0]) == top;
  }
}
