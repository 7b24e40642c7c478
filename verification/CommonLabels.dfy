/**
  tests/tools/fix_common_labels.go and TestCommonLabelsImmutable of tests/validate_resources_test.go:
  one walk removes mutable common labels from kustomizations, the other reports those it meets.
 */
module CommonLabels {
  import opened Wrappers

  /** A directory entry; the children of a directory are in the order the walk reads them. */
  datatype Node = File | Dir(children: seq<Child>)

  datatype Child = Child(name: string, node: Node)

  /** A location relative to the root of the walk. */
  type Path = seq<string>

  const KUSTOMIZATION_FILE := "kustomization.yaml"

  const EXCLUDES: set<string> := {"tests", ".git", ".github"}

  const FORBIDDEN := [
    "app.kubernetes.io/version",
    "app.kubernetes.io/managed-by",
    "app.kubernetes.io/instance",
    "app.kubernetes.io/part-of"
  ]

  type Labels = map<string, string>

  /**
    A parsed kustomization: its common labels, if it has that field, and the rest of the typed
    struct. Comments and fields the struct does not know are in the text only.
   */
  datatype Kustomization = Kustomization(commonLabels: Option<Labels>, rest: string)

  function LabelsOf(k: Kustomization): Labels {
    if k.commonLabels.None? then map[] else k.commonLabels.value
  }

  /** The YAML library: parsing and printing, either of which may fail. */
  datatype Calls = Calls(parse: string -> Option<Kustomization>, render: Kustomization -> Option<string>)

  /** What is assumed of it: a printed kustomization reads back with the same labels and the same rest. */
  ghost predicate Faithful(c: Calls) {
    forall k :: c.render(k).Some? ==>
      var back := c.parse(c.render(k).value);
      back.Some? && LabelsOf(back.value) == LabelsOf(k) && back.value.rest == k.rest
  }

  type Yaml = c: Calls | Faithful(c) witness Calls(t => None, k => None)

  datatype FileState = FileState(text: string, writable: bool)

  /** The files that can be read. */
  type Disk = map<Path, FileState>

  // ---------------------------------------------------------------- the walk

  predicate Excluded(p: Path) {
    |p| == 1 && p[0] in EXCLUDES
  }

  /** The kustomization files a walk comes to in order, and whether it answers SkipDir. */
  datatype Visit = Visit(paths: seq<Path>, skip: bool)

  function Walk(n: Node, p: Path): Visit
    decreases n, 1
  {
    if Excluded(p) then Visit([], true)
    else
      match n
      case File => Visit(if p != [] && p[|p| - 1] == KUSTOMIZATION_FILE then [p] else [], false)
      case Dir(children) => WalkChildren(children, p)
  }

  /** SkipDir answered for a file ends the directory that holds it; for a directory, only that one. */
  function WalkChildren(cs: seq<Child>, p: Path): Visit
    decreases cs, 0
  {
    if cs == [] then Visit([], false)
    else
      var front := WalkChildren(cs[..|cs| - 1], p);
      if front.skip then front
      else
        var last := cs[|cs| - 1];
        var v := Walk(last.node, p + [last.name]);
        Visit(front.paths + v.paths, v.skip && last.node.File?)
  }

  /** The files that both programs look at. */
  function Visited(root: Node): seq<Path> {
    Walk(root, []).paths
  }

  // ---------------------------------------------------------------- which files are visited

  ghost predicate IsFileAt(n: Node, p: Path)
    decreases |p|
  {
    if p == [] then n.File?
    else n.Dir? && exists i :: 0 <= i < |n.children| && n.children[i].name == p[0] && IsFileAt(n.children[i].node, p[1..])
  }

  ghost predicate Blocker(c: Child) {
    c.node.File? && c.name in {"tests", ".git", ".github"}
  }

  /** The walk of a subtree that no exclusion can reach: it finds every kustomization file below. */
  lemma {:induction false} DeepWalk(n: Node, p: Path, q: Path)
    requires p != [] && !Excluded(p)
    ensures !Walk(n, p).skip
    ensures q in Walk(n, p).paths
            <==> p <= q && IsFileAt(n, q[|p|..]) && q[|q| - 1] == KUSTOMIZATION_FILE
    decreases n
  {
    if n.File? {
      assert p <= q && |q| == |p| ==> q == p;
      assert p <= q && IsFileAt(n, q[|p|..]) ==> |q| == |p|;
    } else {
      forall i | 0 <= i < |n.children|
        ensures !Walk(n.children[i].node, p + [n.children[i].name]).skip
        ensures FoundBelow(n.children[i], p, q) <==>
                p + [n.children[i].name] <= q && IsFileAt(n.children[i].node, q[|p| + 1..]) && q[|q| - 1] == KUSTOMIZATION_FILE
      {
        DeepWalk(n.children[i].node, p + [n.children[i].name], q);
      }
      DeepChildren(n.children, p, q);
      if p <= q && |q| > |p| {
        assert q[|p|..][1..] == q[|p| + 1..];
        assert forall name :: p + [name] <= q <==> name == q[|p|];
      }
    }
  }

  ghost predicate FoundBelow(c: Child, p: Path, q: Path) {
    q in Walk(c.node, p + [c.name]).paths
  }

  lemma {:induction false} DeepChildren(cs: seq<Child>, p: Path, q: Path)
    requires forall i :: 0 <= i < |cs| ==> !Walk(cs[i].node, p + [cs[i].name]).skip
    ensures !WalkChildren(cs, p).skip
    ensures q in WalkChildren(cs, p).paths <==> exists i :: 0 <= i < |cs| && FoundBelow(cs[i], p, q)
    decreases |cs|
  {
    if cs != [] {
      var n := |cs| - 1;
      DeepChildren(cs[..n], p, q);
      assert forall i :: 0 <= i < n ==> cs[..n][i] == cs[i];
      assert q in WalkChildren(cs, p).paths <==> q in WalkChildren(cs[..n], p).paths || FoundBelow(cs[n], p, q);
    }
  }

  lemma {:induction false} RootChildren(cs: seq<Child>, q: Path)
    ensures WalkChildren(cs, []).skip <==> exists i :: 0 <= i < |cs| && Blocker(cs[i])
    ensures q in WalkChildren(cs, []).paths <==> exists i :: FoundFirst(cs, i, q)
    decreases |cs|
  {
    if cs != [] {
      var n := |cs| - 1;
      RootChildren(cs[..n], q);
      LastRootChild(cs[n], q);
      assert q in WalkChildren(cs, []).paths
        <==> q in WalkChildren(cs[..n], []).paths || (!WalkChildren(cs[..n], []).skip && FoundBelow(cs[n], [], q));
      forall i | 0 <= i < n
        ensures FoundFirst(cs[..n], i, q) <==> FoundFirst(cs, i, q)
        ensures cs[..n][i] == cs[i]
      {
        assert forall j :: 0 <= j <= i ==> cs[..n][j] == cs[j];
      }
      assert FoundFirst(cs, n, q) <==> !WalkChildren(cs[..n], []).skip && FoundBelow(cs[n], [], q);
    }
  }

  /** The walk of child i finds q and no earlier child ends the walk. */
  ghost predicate FoundFirst(cs: seq<Child>, i: int, q: Path) {
    0 <= i < |cs| && FoundBelow(cs[i], [], q) && forall j :: 0 <= j < i ==> !Blocker(cs[j])
  }

  lemma LastRootChild(c: Child, q: Path)
    ensures [] + [c.name] == [c.name]
    ensures Walk(c.node, [c.name]).skip && c.node.File? <==> Blocker(c)
  {
    assert [] + [c.name] == [c.name];
    if c.name !in EXCLUDES {
      DeepWalk(c.node, [c.name], q);
    }
  }

  /** The way down to a file of the tree is open: no exclusion on it, and none among the files before it. */
  ghost predicate Open(root: Node, q: Path) {
    && root.Dir? && q != [] && q[0] !in {"tests", ".git", ".github"}
    && exists i :: 0 <= i < |root.children| && root.children[i].name == q[0] && IsFileAt(root.children[i].node, q[1..])
                   && forall j :: 0 <= j < i ==> !Blocker(root.children[j])
  }

  /** The walk comes to exactly the kustomization files that are open. */
  lemma VisitedAreOpen(root: Node, q: Path)
    ensures q in Visited(root) <==> Open(root, q) && q[|q| - 1] == "kustomization.yaml"
  {
    if root.Dir? {
      RootChildren(root.children, q);
      forall i | 0 <= i < |root.children|
        ensures FoundBelow(root.children[i], [], q)
                <==> q != [] && q[0] == root.children[i].name && q[0] !in EXCLUDES
                     && IsFileAt(root.children[i].node, q[1..]) && q[|q| - 1] == KUSTOMIZATION_FILE
      {
        FoundInChild(root.children[i], q);
      }
      if Open(root, q) && q[|q| - 1] == KUSTOMIZATION_FILE {
        var i :| 0 <= i < |root.children| && root.children[i].name == q[0] && IsFileAt(root.children[i].node, q[1..])
                 && forall j :: 0 <= j < i ==> !Blocker(root.children[j]);
        assert FoundFirst(root.children, i, q);
      }
      if i :| FoundFirst(root.children, i, q) {
        assert root.children[i].name == q[0];
      }
    }
  }

  lemma FoundInChild(c: Child, q: Path)
    ensures FoundBelow(c, [], q)
            <==> q != [] && q[0] == c.name && q[0] !in EXCLUDES
                 && IsFileAt(c.node, q[1..]) && q[|q| - 1] == KUSTOMIZATION_FILE
  {
    assert [] + [c.name] == [c.name];
    if c.name !in EXCLUDES {
      DeepWalk(c.node, [c.name], q);
      assert [c.name] <= q <==> q != [] && q[0] == c.name;
    }
  }

  // ---------------------------------------------------------------- one file

  function Clean(labels: Labels): Labels {
    map l | l in labels && l !in FORBIDDEN :: labels[l]
  }

  predicate HasForbidden(k: Kustomization) {
    exists i :: 0 <= i < |FORBIDDEN| && FORBIDDEN[i] in LabelsOf(k)
  }

  /** The text the fixer writes to a file, if it gets that far. */
  function NewText(yaml: Yaml, f: FileState): Option<string> {
    match yaml.parse(f.text)
    case None => None
    case Some(k) =>
      if !HasForbidden(k) then None
      else
        match yaml.render(k.(commonLabels := Some(Clean(LabelsOf(k)))))
        case None => None
        case Some(t) => if f.writable then Some(t) else None
  }

  function FixFile(yaml: Yaml, f: FileState): FileState {
    match NewText(yaml, f)
    case None => f
    case Some(t) => f.(text := t)
  }

  datatype Failure = Unreadable(path: Path) | ForbiddenLabel(path: Path, labelKey: string)

  function Check(yaml: Yaml, disk: Disk, p: Path): seq<Failure> {
    if p !in disk || yaml.parse(disk[p].text).None? then [Unreadable(p)]
    else Reports(p, LabelsOf(yaml.parse(disk[p].text).value), FORBIDDEN)
  }

  function Reports(p: Path, labels: Labels, forbidden: seq<string>): seq<Failure> {
    if forbidden == [] then []
    else
      var last := forbidden[|forbidden| - 1];
      Reports(p, labels, forbidden[..|forbidden| - 1]) + if last in labels then [ForbiddenLabel(p, last)] else []
  }

  lemma {:induction false} ReportsAre(p: Path, labels: Labels, forbidden: seq<string>, r: Failure)
    ensures r in Reports(p, labels, forbidden)
            <==> r.ForbiddenLabel? && r.path == p && r.labelKey in forbidden && r.labelKey in labels
    decreases |forbidden|
  {
    if forbidden != [] {
      ReportsAre(p, labels, forbidden[..|forbidden| - 1], r);
    }
  }

  /** A fixed file keeps every other label and the other fields of the struct, and needs no fixing again. */
  lemma FixFileIsMinimal(yaml: Yaml, f: FileState)
    requires NewText(yaml, f).Some?
    ensures var before, after := yaml.parse(f.text), yaml.parse(FixFile(yaml, f).text);
            && before.Some? && after.Some? && after.value.rest == before.value.rest
            && (forall l :: l in LabelsOf(after.value) <==> l in LabelsOf(before.value) && l !in FORBIDDEN)
            && (forall l :: l in LabelsOf(after.value) ==> LabelsOf(after.value)[l] == LabelsOf(before.value)[l])
    ensures NewText(yaml, FixFile(yaml, f)).None?
  {
    var k := yaml.parse(f.text).value;
    var cleaned := k.(commonLabels := Some(Clean(LabelsOf(k))));
    assert yaml.render(cleaned).Some?;
    var back := yaml.parse(yaml.render(cleaned).value).value;
    assert LabelsOf(back) == Clean(LabelsOf(k));
    assert forall i :: 0 <= i < |FORBIDDEN| ==> FORBIDDEN[i] in FORBIDDEN;
  }

  const MUTABLE: set<string> :=
    {"app.kubernetes.io/version", "app.kubernetes.io/managed-by", "app.kubernetes.io/instance", "app.kubernetes.io/part-of"}

  /** The kustomization has one of the four mutable labels. */
  ghost predicate Offends(k: Kustomization) {
    k.commonLabels.Some? && exists l :: l in MUTABLE && l in k.commonLabels.value
  }

  /** The kustomization without the four labels. */
  function Stripped(k: Kustomization): Kustomization
    requires k.commonLabels.Some?
  {
    k.(commonLabels := Some(k.commonLabels.value - MUTABLE))
  }

  /** The file parses and offends, its stripped kustomization can be printed, and the file can be written. */
  ghost predicate Rewritable(yaml: Yaml, f: FileState) {
    && yaml.parse(f.text).Some?
    && var k := yaml.parse(f.text).value;
       Offends(k) && yaml.render(Stripped(k)).Some? && f.writable
  }

  lemma ForbiddenAreMutable(l: string)
    ensures l in FORBIDDEN <==> l in MUTABLE
    ensures l in FORBIDDEN ==> exists i :: 0 <= i < |FORBIDDEN| && FORBIDDEN[i] == l
  {
    assert FORBIDDEN[0] in MUTABLE && FORBIDDEN[1] in MUTABLE && FORBIDDEN[2] in MUTABLE && FORBIDDEN[3] in MUTABLE;
  }

  lemma OffendsIs(k: Kustomization)
    ensures Offends(k) <==> HasForbidden(k)
    ensures k.commonLabels.Some? ==> Clean(LabelsOf(k)) == LabelsOf(k) - MUTABLE
  {
    forall l
      ensures l in FORBIDDEN <==> l in MUTABLE
      ensures l in FORBIDDEN ==> exists i :: 0 <= i < |FORBIDDEN| && FORBIDDEN[i] == l
    {
      ForbiddenAreMutable(l);
    }
  }

  /** The fixer changes a file exactly when it is rewritable, and then writes the stripped kustomization. */
  lemma FixFileRewrites(yaml: Yaml, f: FileState)
    ensures FixFile(yaml, f).text != f.text <==> Rewritable(yaml, f)
    ensures Rewritable(yaml, f) ==> Some(FixFile(yaml, f).text) == yaml.render(Stripped(yaml.parse(f.text).value))
    ensures FixFile(yaml, f).writable == f.writable
    ensures NewText(yaml, f).Some? <==> Rewritable(yaml, f)
  {
    if yaml.parse(f.text).Some? {
      OffendsIs(yaml.parse(f.text).value);
    }
    if NewText(yaml, f).Some? {
      FixFileIsMinimal(yaml, f);
    }
  }

  // ---------------------------------------------------------------- both programs

  function FixAll(yaml: Yaml, disk: Disk, paths: seq<Path>): Disk {
    if paths == [] then disk
    else
      var before := FixAll(yaml, disk, paths[..|paths| - 1]);
      var p := paths[|paths| - 1];
      if p in before then before[p := FixFile(yaml, before[p])] else before
  }

  function CheckAll(yaml: Yaml, disk: Disk, paths: seq<Path>): seq<Failure> {
    if paths == [] then []
    else CheckAll(yaml, disk, paths[..|paths| - 1]) + Check(yaml, disk, paths[|paths| - 1])
  }

  /** Exactly the listed files are fixed, each as if it were alone. */
  lemma {:induction false} FixAllIsPointwise(yaml: Yaml, disk: Disk, paths: seq<Path>)
    ensures FixAll(yaml, disk, paths).Keys == disk.Keys
    ensures forall p :: p in disk ==>
              FixAll(yaml, disk, paths)[p] == if p in paths then FixFile(yaml, disk[p]) else disk[p]
    decreases |paths|
  {
    if paths != [] {
      var front, last := paths[..|paths| - 1], paths[|paths| - 1];
      FixAllIsPointwise(yaml, disk, front);
      assert forall p :: p in paths <==> p in front || p == last;
      if last in disk && NewText(yaml, disk[last]).Some? {
        FixFileIsMinimal(yaml, disk[last]);
      }
    }
  }

  lemma {:induction false} CheckAllIs(yaml: Yaml, disk: Disk, paths: seq<Path>, r: Failure)
    ensures r in CheckAll(yaml, disk, paths) <==> exists i :: 0 <= i < |paths| && r in Check(yaml, disk, paths[i])
    decreases |paths|
  {
    if paths != [] {
      var n := |paths| - 1;
      CheckAllIs(yaml, disk, paths[..n], r);
      assert forall i :: 0 <= i < n ==> paths[..n][i] == paths[i];
    }
  }

  /** A file that offends and cannot be printed without the labels, or cannot be written. */
  ghost predicate Stuck(yaml: Yaml, f: FileState) {
    && yaml.parse(f.text).Some?
    && var k := yaml.parse(f.text).value;
       Offends(k) && (!f.writable || yaml.render(Stripped(k)).None?)
  }

  /**
    After the fixer's walk the checker reports a forbidden label exactly for the visited files
    that could not be written; so none when all kustomizations can be.
   */
  lemma CheckerAfterFixer(yaml: Yaml, disk: Disk, root: Node, p: Path, l: string)
    ensures ForbiddenLabel(p, l) in CheckAll(yaml, FixAll(yaml, disk, Visited(root)), Visited(root))
            <==> && Open(root, p) && p[|p| - 1] == KUSTOMIZATION_FILE
                 && p in disk && Stuck(yaml, disk[p])
                 && l in MUTABLE && l in LabelsOf(yaml.parse(disk[p].text).value)
  {
    ForbiddenAreMutable(l);
    var paths, r := Visited(root), ForbiddenLabel(p, l);
    var fixed := FixAll(yaml, disk, paths);
    VisitedAreOpen(root, p);
    FixAllIsPointwise(yaml, disk, paths);
    CheckAllIs(yaml, fixed, paths, r);
    forall q | q in paths
      ensures r in Check(yaml, fixed, q) ==> q == p
    {
      CheckReports(yaml, fixed, q, r);
    }
    CheckReports(yaml, fixed, p, r);
    if p in disk && l in FORBIDDEN {
      CleanOrStuck(yaml, disk[p], l);
    }
  }

  lemma CheckReports(yaml: Yaml, disk: Disk, p: Path, r: Failure)
    requires r.ForbiddenLabel?
    ensures r in Check(yaml, disk, p)
            <==> && p in disk && yaml.parse(disk[p].text).Some?
                 && r.path == p && r.labelKey in FORBIDDEN && r.labelKey in LabelsOf(yaml.parse(disk[p].text).value)
  {
    if p in disk && yaml.parse(disk[p].text).Some? {
      ReportsAre(p, LabelsOf(yaml.parse(disk[p].text).value), FORBIDDEN, r);
    }
  }

  lemma CleanOrStuck(yaml: Yaml, f: FileState, l: string)
    requires l in FORBIDDEN
    ensures var after := yaml.parse(FixFile(yaml, f).text);
            after.Some? && l in LabelsOf(after.value)
            <==> Stuck(yaml, f) && l in LabelsOf(yaml.parse(f.text).value)
  {
    FixFileRewrites(yaml, f);
    ForbiddenAreMutable(l);
    if NewText(yaml, f).Some? {
      FixFileIsMinimal(yaml, f);
    }
  }

  /** A file that parses and is not stuck. */
  ghost predicate Fixable(yaml: Yaml, disk: Disk, p: Path) {
    p in disk && yaml.parse(disk[p].text).Some? && !Stuck(yaml, disk[p])
  }

  lemma FixableMeansClean(yaml: Yaml, disk: Disk, p: Path)
    requires p in disk
    ensures Check(yaml, disk[p := FixFile(yaml, disk[p])], p) == [] <==> Fixable(yaml, disk, p)
  {
    var fixed := disk[p := FixFile(yaml, disk[p])];
    FixFileRewrites(yaml, disk[p]);
    if NewText(yaml, disk[p]).Some? {
      FixFileIsMinimal(yaml, disk[p]);
    }
    if Fixable(yaml, disk, p) && Check(yaml, fixed, p) != [] {
      var r := Check(yaml, fixed, p)[0];
      assert r in Check(yaml, fixed, p);
      ReportsAre(p, LabelsOf(yaml.parse(fixed[p].text).value), FORBIDDEN, r);
      CleanOrStuck(yaml, disk[p], r.labelKey);
    }
    if Stuck(yaml, disk[p]) {
      var l :| l in MUTABLE && l in LabelsOf(yaml.parse(disk[p].text).value);
      ForbiddenAreMutable(l);
      CheckReports(yaml, fixed, p, ForbiddenLabel(p, l));
      assert fixed[p] == disk[p];
    }
  }

  lemma {:induction false} NothingReported(yaml: Yaml, disk: Disk, paths: seq<Path>)
    ensures CheckAll(yaml, disk, paths) == [] <==> forall p :: p in paths ==> Check(yaml, disk, p) == []
    decreases |paths|
  {
    if paths != [] {
      var front, last := paths[..|paths| - 1], paths[|paths| - 1];
      NothingReported(yaml, disk, front);
      assert forall p :: p in paths <==> p in front || p == last;
    }
  }

  /**
    The whole test passes after the fixer if and only if every kustomization it visits can be
    read, parses, and could be written where it had a forbidden label.
   */
  lemma TestPassesAfterFixer(yaml: Yaml, disk: Disk, root: Node)
    ensures CheckAll(yaml, FixAll(yaml, disk, Visited(root)), Visited(root)) == []
            <==> forall p :: p in Visited(root) ==> Fixable(yaml, disk, p)
  {
    var paths := Visited(root);
    var fixed := FixAll(yaml, disk, paths);
    FixAllIsPointwise(yaml, disk, paths);
    NothingReported(yaml, fixed, paths);
    forall p | p in paths
      ensures Check(yaml, fixed, p) == [] <==> Fixable(yaml, disk, p)
    {
      if p in disk {
        FixableMeansClean(yaml, disk, p);
      }
    }
  }

  /** With a printer that never fails, a tree of readable, parsing and writable kustomizations passes. */
  lemma WritableTreesPass(yaml: Yaml, disk: Disk, root: Node)
    requires forall k :: yaml.render(k).Some?
    requires forall p :: p in Visited(root) ==> p in disk && disk[p].writable && yaml.parse(disk[p].text).Some?
    ensures CheckAll(yaml, FixAll(yaml, disk, Visited(root)), Visited(root)) == []
  {
    TestPassesAfterFixer(yaml, disk, root);
  }

  function ReportIf(p: Path, labels: Labels, l: string): seq<Failure> {
    if l in labels then [ForbiddenLabel(p, l)] else []
  }

  /** What the test says about one file: unreadable, or each of the four labels it has, once and in this order. */
  lemma CheckSays(yaml: Yaml, disk: Disk, p: Path)
    ensures p !in disk || yaml.parse(disk[p].text).None? ==> Check(yaml, disk, p) == [Unreadable(p)]
    ensures p in disk && yaml.parse(disk[p].text).Some? ==>
              var labels := LabelsOf(yaml.parse(disk[p].text).value);
              Check(yaml, disk, p)
              == ReportIf(p, labels, "app.kubernetes.io/version") + ReportIf(p, labels, "app.kubernetes.io/managed-by")
                 + ReportIf(p, labels, "app.kubernetes.io/instance") + ReportIf(p, labels, "app.kubernetes.io/part-of")
  {
    var f := FORBIDDEN;
    assert f[..4] == f && f[..4][..3] == f[..3] && f[..3][..2] == f[..2] && f[..2][..1] == f[..1] && f[..1][..0] == [];
    if p in disk && yaml.parse(disk[p].text).Some? {
      var labels := LabelsOf(yaml.parse(disk[p].text).value);
      ReportsStep(p, labels, f, 0);
      ReportsStep(p, labels, f, 1);
      ReportsStep(p, labels, f, 2);
      ReportsStep(p, labels, f, 3);
      assert Reports(p, labels, f[..0]) == [];
    }
  }

  lemma ReportsStep(p: Path, labels: Labels, forbidden: seq<string>, i: nat)
    requires i < |forbidden|
    ensures Reports(p, labels, forbidden[..i + 1]) == Reports(p, labels, forbidden[..i]) + ReportIf(p, labels, forbidden[i])
  {
    assert forbidden[..i + 1][..i] == forbidden[..i];
  }

  /** A second run writes no file. */
  lemma SecondRunWritesNothing(yaml: Yaml, disk: Disk, root: Node)
    ensures var fixed := FixAll(yaml, disk, Visited(root));
            && (forall p :: p in fixed && p in Visited(root) ==> NewText(yaml, fixed[p]).None?)
            && FixAll(yaml, fixed, Visited(root)) == fixed
  {
    var paths := Visited(root);
    var fixed := FixAll(yaml, disk, paths);
    FixAllIsPointwise(yaml, disk, paths);
    FixAllIsPointwise(yaml, fixed, paths);
    forall p | p in fixed && p in paths
      ensures NewText(yaml, fixed[p]).None?
    {
      if NewText(yaml, disk[p]).Some? {
        FixFileIsMinimal(yaml, disk[p]);
      }
    }
  }

  // ---------------------------------------------------------------- the programs as written

  /** The fixer: a walk whose callback rewrites files in place. */
  class Fixer {
    const yaml: Yaml
    var disk: Disk

    constructor (yaml: Yaml, disk: Disk)
      ensures this.yaml == yaml && this.disk == disk
    {
      this.yaml, this.disk := yaml, disk;
    }

    /** Deletes the forbidden labels one by one. */
    method RemoveLabels(k: Kustomization) returns (cleaned: Labels, modified: bool)
      ensures cleaned == Clean(LabelsOf(k)) && modified == HasForbidden(k)
    {
      cleaned, modified := LabelsOf(k), false;
      for i := 0 to |FORBIDDEN|
        invariant cleaned == map l | l in LabelsOf(k) && l !in FORBIDDEN[..i] :: LabelsOf(k)[l]
        invariant modified <==> exists j :: 0 <= j < i && FORBIDDEN[j] in LabelsOf(k)
      {
        assert forall l :: l in FORBIDDEN[..i + 1] <==> l in FORBIDDEN[..i] || l == FORBIDDEN[i];
        if FORBIDDEN[i] in cleaned {
          cleaned := cleaned - {FORBIDDEN[i]};
          modified := true;
        } else if FORBIDDEN[i] in LabelsOf(k) {
          var j :| 0 <= j < i && FORBIDDEN[j] == FORBIDDEN[i];
        }
      }
      assert FORBIDDEN[..|FORBIDDEN|] == FORBIDDEN;
    }

    /** The callback's work on a kustomization file. */
    method FixOne(p: Path)
      modifies this`disk
      ensures disk == if p in old(disk) then old(disk)[p := FixFile(yaml, old(disk)[p])] else old(disk)
      ensures disk != old(disk) <==> p in old(disk) && Rewritable(yaml, old(disk)[p])
    {
      if p in disk {
        FixFileRewrites(yaml, disk[p]);
      }
      if p !in disk {
        return;
      }
      var k := yaml.parse(disk[p].text);
      if k.None? || k.value.commonLabels.None? {
        assert disk == disk[p := disk[p]];
        return;
      }
      var cleaned, modified := RemoveLabels(k.value);
      if modified {
        var text := yaml.render(k.value.(commonLabels := Some(cleaned)));
        if text.Some? && disk[p].writable {
          disk := disk[p := disk[p].(text := text.value)];
        }
      }
      assert disk[p] == FixFile(yaml, old(disk)[p]);
    }

    method WalkTree(n: Node, p: Path) returns (skip: bool)
      modifies this`disk
      ensures skip == Walk(n, p).skip
      ensures disk == FixAll(yaml, old(disk), Walk(n, p).paths)
      decreases n, 1
    {
      if Excluded(p) {
        return true;
      }
      match n
      case File =>
        if p != [] && p[|p| - 1] == KUSTOMIZATION_FILE {
          FixOne(p);
          assert [p][..0] == [];
        }
        return false;
      case Dir(children) =>
        skip := WalkDir(children, p);
    }

    /** The entries of one directory in turn. */
    method WalkDir(children: seq<Child>, p: Path) returns (skip: bool)
      modifies this`disk
      ensures skip == WalkChildren(children, p).skip
      ensures disk == FixAll(yaml, old(disk), WalkChildren(children, p).paths)
      decreases children, 0
    {
      for i := 0 to |children|
        invariant !WalkChildren(children[..i], p).skip
        invariant disk == FixAll(yaml, old(disk), WalkChildren(children[..i], p).paths)
      {
        skip := WalkTree(children[i].node, p + [children[i].name]);
        FixNextChild(yaml, old(disk), children, p, i);
        if skip && children[i].node.File? {
          WalkStops(children, p, i + 1);
          return true;
        }
      }
      assert children[..|children|] == children;
      return false;
    }
  }

  lemma FixNextChild(yaml: Yaml, disk: Disk, cs: seq<Child>, p: Path, i: nat)
    requires i < |cs| && !WalkChildren(cs[..i], p).skip
    ensures var v := Walk(cs[i].node, p + [cs[i].name]);
            && WalkChildren(cs[..i + 1], p).skip == (v.skip && cs[i].node.File?)
            && FixAll(yaml, disk, WalkChildren(cs[..i + 1], p).paths)
               == FixAll(yaml, FixAll(yaml, disk, WalkChildren(cs[..i], p).paths), v.paths)
  {
    assert cs[..i + 1][..i] == cs[..i];
    FixAllAppend(yaml, disk, WalkChildren(cs[..i], p).paths, Walk(cs[i].node, p + [cs[i].name]).paths);
  }

  lemma {:induction false} FixAllAppend(yaml: Yaml, disk: Disk, a: seq<Path>, b: seq<Path>)
    ensures FixAll(yaml, disk, a + b) == FixAll(yaml, FixAll(yaml, disk, a), b)
    decreases |b|
  {
    if b == [] {
      assert a + b == a;
    } else {
      assert (a + b)[..|a + b| - 1] == a + b[..|b| - 1];
      FixAllAppend(yaml, disk, a, b[..|b| - 1]);
    }
  }

  /** Once skipped, the rest of a directory adds nothing. */
  lemma {:induction false} WalkStops(cs: seq<Child>, p: Path, i: nat)
    requires i <= |cs| && WalkChildren(cs[..i], p).skip
    ensures WalkChildren(cs, p) == WalkChildren(cs[..i], p)
    decreases |cs|
  {
    if i < |cs| {
      assert cs[..|cs| - 1][..i] == cs[..i];
      WalkStops(cs[..|cs| - 1], p, i);
    } else {
      assert cs[..i] == cs;
    }
  }

  /** The test: the same walk, collecting failures instead of writing. */
  class Checker {
    const yaml: Yaml
    const disk: Disk
    var failures: seq<Failure>

    constructor (yaml: Yaml, disk: Disk)
      ensures this.yaml == yaml && this.disk == disk && failures == []
    {
      this.yaml, this.disk, failures := yaml, disk, [];
    }

    method CheckOne(p: Path)
      modifies this
      ensures failures == old(failures) + Check(yaml, disk, p)
    {
      if p !in disk {
        failures := failures + [Unreadable(p)];
        return;
      }
      var k := yaml.parse(disk[p].text);
      if k.None? {
        failures := failures + [Unreadable(p)];
        return;
      }
      var labels := LabelsOf(k.value);
      for i := 0 to |FORBIDDEN|
        invariant failures == old(failures) + Reports(p, labels, FORBIDDEN[..i])
      {
        assert FORBIDDEN[..i + 1][..i] == FORBIDDEN[..i];
        if FORBIDDEN[i] in labels {
          failures := failures + [ForbiddenLabel(p, FORBIDDEN[i])];
        }
      }
      assert FORBIDDEN[..|FORBIDDEN|] == FORBIDDEN;
    }

    method WalkTree(n: Node, p: Path) returns (skip: bool)
      modifies this
      ensures skip == Walk(n, p).skip
      ensures failures == old(failures) + CheckAll(yaml, disk, Walk(n, p).paths)
      decreases n, 1
    {
      if Excluded(p) {
        return true;
      }
      match n
      case File =>
        if p != [] && p[|p| - 1] == KUSTOMIZATION_FILE {
          CheckOne(p);
          CheckSingle(yaml, disk, p);
        }
        return false;
      case Dir(children) =>
        skip := WalkDir(children, p);
    }

    /** The entries of one directory in turn. */
    method WalkDir(children: seq<Child>, p: Path) returns (skip: bool)
      modifies this
      ensures skip == WalkChildren(children, p).skip
      ensures failures == old(failures) + CheckAll(yaml, disk, WalkChildren(children, p).paths)
      decreases children, 0
    {
      for i := 0 to |children|
        invariant !WalkChildren(children[..i], p).skip
        invariant failures == old(failures) + CheckAll(yaml, disk, WalkChildren(children[..i], p).paths)
      {
        ghost var front := CheckAll(yaml, disk, WalkChildren(children[..i], p).paths);
        ghost var next := CheckAll(yaml, disk, Walk(children[i].node, p + [children[i].name]).paths);
        CheckNextChild(yaml, disk, children, p, i);
        skip := WalkTree(children[i].node, p + [children[i].name]);
        Associate(old(failures), front, next);
        if skip && children[i].node.File? {
          WalkStops(children, p, i + 1);
          return true;
        }
      }
      assert children[..|children|] == children;
      return false;
    }
  }

  lemma Associate(a: seq<Failure>, b: seq<Failure>, c: seq<Failure>)
    ensures a + b + c == a + (b + c)
  {
  }

  lemma CheckSingle(yaml: Yaml, disk: Disk, p: Path)
    ensures CheckAll(yaml, disk, [p]) == Check(yaml, disk, p)
  {
    assert [p][..0] == [];
  }

  lemma CheckNextChild(yaml: Yaml, disk: Disk, cs: seq<Child>, p: Path, i: nat)
    requires i < |cs| && !WalkChildren(cs[..i], p).skip
    ensures var v := Walk(cs[i].node, p + [cs[i].name]);
            && WalkChildren(cs[..i + 1], p).skip == (v.skip && cs[i].node.File?)
            && CheckAll(yaml, disk, WalkChildren(cs[..i + 1], p).paths)
               == CheckAll(yaml, disk, WalkChildren(cs[..i], p).paths) + CheckAll(yaml, disk, v.paths)
  {
    assert cs[..i + 1][..i] == cs[..i];
    CheckAllAppend(yaml, disk, WalkChildren(cs[..i], p).paths, Walk(cs[i].node, p + [cs[i].name]).paths);
  }

  lemma {:induction false} CheckAllAppend(yaml: Yaml, disk: Disk, a: seq<Path>, b: seq<Path>)
    ensures CheckAll(yaml, disk, a + b) == CheckAll(yaml, disk, a) + CheckAll(yaml, disk, b)
    decreases |b|
  {
    if b == [] {
      assert a + b == a;
    } else {
      assert (a + b)[..|a + b| - 1] == a + b[..|b| - 1];
      CheckAllAppend(yaml, disk, a, b[..|b| - 1]);
    }
  }
}
