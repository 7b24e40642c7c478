/**
  hack/generate_legacy_kustomizations.py: rewriting the paths of a generated kustomization so that
  they lead from its test directory back into the repository.
 */
module LegacyKustomizations {
  import opened Wrappers
  import opened PosixPaths

  /** How many `..` lead from an application's test directory to the repository root; None for the ValueError. */
  function NumParents(repoRoot: string, testPath: string): Option<nat> {
    if repoRoot <= testPath then Some(|Split(testPath[|repoRoot|..])|) else None
  }

  /** One rewritten path. */
  function Rewritten(n: nat, app: string, b: string): string {
    JoinAll(Parents(n) + [app, b])
  }

  /** The prefix that climbs n levels. */
  function Dots(n: nat): string {
    if n == 0 then "" else Dots(n - 1) + "../"
  }

  /** Relative pieces are written one after the other, an absolute last piece alone. */
  lemma RewrittenText(n: nat, app: string, b: string)
    ensures IsAbsolute(b) ==> Rewritten(n, app, b) == b
    ensures !IsAbsolute(b) && !IsAbsolute(app) && app != "" && app[|app| - 1] != '/' ==>
              Rewritten(n, app, b) == Dots(n) + app + "/" + b
  {
    var ps := Parents(n);
    assert (ps + [app, b])[..n + 1] == ps + [app];
    if !IsAbsolute(b) && !IsAbsolute(app) && app != "" && app[|app| - 1] != '/' {
      ApplicationText(n, app);
      assert (Dots(n) + app)[|Dots(n) + app| - 1] == app[|app| - 1];
    }
  }

  lemma ApplicationText(n: nat, app: string)
    requires !IsAbsolute(app)
    ensures JoinAll(Parents(n) + [app]) == Dots(n) + app
  {
    var ps := Parents(n);
    assert (ps + [app])[..n] == ps;
    if n > 0 {
      ParentsText(n);
    }
  }

  lemma {:induction false} ParentsText(n: nat)
    requires n > 0
    ensures JoinAll(Parents(n)) == Dots(n - 1) + ".."
    decreases n
  {
    if n > 1 {
      ParentsText(n - 1);
      assert Parents(n)[..n - 1] == Parents(n - 1);
    }
  }

  /**
    How many levels the guard allows for: it raises exactly for paths that do not start with the
    root's text; a path at the root or below it needs one level for the application and one for
    each name on the way.
   */
  lemma ParentsAre(r: Location, t: Location)
    requires Normal(r) && Normal(t)
    ensures NumParents(Absolute(r), Absolute(t)).None? <==> !(Absolute(r) <= Absolute(t))
    ensures r != [] && r <= t ==> NumParents(Absolute(r), Absolute(t)) == Some(1 + |t| - |r|)
    ensures r == [] ==> NumParents(Absolute(r), Absolute(t)) == Some(if t == [] then 1 else |t|)
  {
    if r == [] {
      ParentsCountAtTop(t);
    } else if r <= t {
      SlashedPrefix(r, t);
      ParentsCountBelow(r, t);
    }
  }

  lemma {:induction false} SlashedPrefix(r: Location, t: Location)
    requires r != [] && r <= t
    ensures Absolute(r) <= Absolute(t)
  {
    AppendSlashed(r, t[|r|..]);
    assert r + t[|r|..] == t;
  }

  lemma {:induction false} AppendSlashed(r: Location, rest: Location)
    ensures Slashed(r + rest) == Slashed(r) + Slashed(rest)
    decreases |r|
  {
    if r == [] {
      assert r + rest == rest;
    } else {
      assert (r + rest)[1..] == r[1..] + rest;
      AppendSlashed(r[1..], rest);
    }
  }

  lemma RewrittenLeads(l: Location, n: nat, app: string, b: string)
    ensures Resolve(l, Rewritten(n, app, b)) == Resolve(Up(l, n), Join(app, b))
  {
    ResolveJoinAll(l, Parents(n) + [app, b]);
    ResolveAllAppend(l, Parents(n), [app, b]);
    ParentsLeadUp(l, n);
    ResolveAllTwo(Up(l, n), app, b);
    ResolveJoin(Up(l, n), app, b);
  }

  lemma ResolveAllTwo(l: Location, a: string, b: string)
    ensures ResolveAll(l, [a, b]) == Resolve(Resolve(l, a), b)
  {
    assert [a, b][..1] == [a] && [a][..0] == [];
    assert ResolveAll(l, [a][..0]) == l;
    assert ResolveAll(l, [a]) == Resolve(l, a);
  }

  /**
    If one absolute path is a string prefix of another, the locations agree except that the last
    name of the shorter may be a proper prefix of its counterpart.
   */
  lemma {:induction false} StringPrefix(r: Location, t: Location)
    requires Normal(r) && Normal(t) && r != [] && Slashed(r) <= Slashed(t)
    ensures |r| <= |t| && r[..|r| - 1] == t[..|r| - 1] && r[|r| - 1] <= t[|r| - 1]
    ensures Slashed(t)[|Slashed(r)|..] == t[|r| - 1][|r[|r| - 1]|..] + Slashed(t[|r|..])
    decreases |r|
  {
    var x, y, restX, restY := r[0], t[0], Slashed(r[1..]), Slashed(t[1..]);
    assert x + restX == Slashed(r)[1..] && y + restY == Slashed(t)[1..];
    FirstNames(x, restX, y, restY);
    assert Slashed(r) == "/" + x + restX && Slashed(t) == "/" + y + restY;
    if |r| == 1 {
      AfterPrefix(x, y, restY);
    } else {
      assert restX[0] == '/';
      StringPrefix(r[1..], t[1..]);
      assert t[1..][|r| - 1..] == t[|r|..];
      assert r == [x] + r[1..] && t == [y] + t[1..];
      DropFront("/" + x, restX, restY);
    }
  }

  lemma AfterPrefix(x: string, y: string, rest: string)
    requires x <= y
    ensures ("/" + y + rest)[|"/" + x|..] == y[|x|..] + rest
  {
  }

  lemma DropFront(x: string, y: string, s: string)
    requires |y| <= |s|
    ensures (x + s)[|x + y|..] == s[|y|..]
  {
  }

  /** Two names followed by slashed rests, one string a prefix of the other. */
  lemma FirstNames(x: string, restX: string, y: string, restY: string)
    requires '/' !in x && '/' !in y
    requires restX == "" || restX[0] == '/'
    requires restY == "" || restY[0] == '/'
    requires x + restX <= y + restY
    ensures x <= y
    ensures restX != "" ==> x == y && restX <= restY
  {
    var s := y + restY;
    assert forall k :: 0 <= k < |x| ==> s[k] == x[k];
    assert restY != "" ==> s[|y|] == '/';
    assert forall k :: 0 <= k < |y| ==> s[k] == y[k];
    if restX != "" {
      assert (x + restX)[|x|] == '/';
      assert s[|x|] == '/';
      assert restX == (x + restX)[|x|..];
    }
  }

  /** Under a root that is the file system root, the count is one short of what it should be. */
  lemma ParentsCountAtTop(t: Location)
    requires Normal(t)
    ensures Absolute([]) <= Absolute(t)
    ensures var rest := Absolute(t)[|Absolute([])|..];
            if t == [] then rest == "" && |Split(rest)| == 1
            else rest != "" && rest[0] != '/' && |Split(rest)| == |t|
  {
    if t != [] {
      assert Absolute(t)[1..] == t[0] + Slashed(t[1..]);
      SplitSlashed(t[0], t[1..]);
      assert (t[0] + Slashed(t[1..]))[0] == t[0][0];
    }
  }

  /** Under any other root, the location agrees with it but for the end of the root's last name. */
  lemma ParentsCountBelow(r: Location, t: Location)
    requires Normal(r) && Normal(t) && r != [] && Absolute(r) <= Absolute(t)
    ensures var rest := Absolute(t)[|Absolute(r)|..];
            && |r| <= |t| && r[..|r| - 1] == t[..|r| - 1]
            && |Split(rest)| == 1 + |t| - |r|
            && ((rest == "" || rest[0] == '/') <==> t[|r| - 1] == r[|r| - 1])
  {
    assert |Slashed(r)| >= 2;
    StringPrefix(r, t);
    TailCount(r[|r| - 1], t[|r| - 1], t[|r|..]);
  }

  /** What follows the prefix x of the name y, before further names. */
  lemma TailCount(x: string, y: string, more: Location)
    requires x <= y && '/' !in y && Normal(more)
    ensures var rest := y[|x|..] + Slashed(more);
            |Split(rest)| == 1 + |more| && ((rest == "" || rest[0] == '/') <==> x == y)
  {
    var tail := y[|x|..];
    SplitSlashed(tail, more);
    assert y == x + tail;
    if tail != "" {
      assert tail[0] in y;
    }
  }

  /** All rewritten paths are right exactly when the parents lead to the root. */
  lemma RightWhenParentsLeadToRoot(from: Location, n: nat, r: Location)
    ensures Up(from, n) == r
            <==> forall app, b :: Resolve(from, Rewritten(n, app, b)) == Resolve(r, Join(app, b))
  {
    forall app, b
      ensures Resolve(from, Rewritten(n, app, b)) == Resolve(Up(from, n), Join(app, b))
    {
      RewrittenLeads(from, n, app, b);
    }
    EmptyPathStays(Up(from, n));
    EmptyPathStays(r);
    assert Resolve(from, Rewritten(n, "", "")) == Up(from, n);
  }

  /**
    The rewritten paths lead from every application's test directory to where the original
    paths lead from the repository root, for all applications and paths, exactly when what
    follows the root in the test path is empty or starts with a separator.
   */
  lemma RewrittenPathsAreRight(r: Location, t: Location, d: string)
    requires Normal(r) && Normal(t) && IsName(d) && NumParents(Absolute(r), Absolute(t)).Some?
    ensures var n := NumParents(Absolute(r), Absolute(t)).value;
            var rest := Absolute(t)[|Absolute(r)|..];
            (rest == "" || rest[0] == '/')
            <==> forall app, b :: Resolve(t + [d], Rewritten(n, app, b)) == Resolve(r, Join(app, b))
  {
    var n := NumParents(Absolute(r), Absolute(t)).value;
    RightWhenParentsLeadToRoot(t + [d], n, r);
    ParentsLeadToRoot(r, t, d);
  }

  lemma ParentsLeadToRoot(r: Location, t: Location, d: string)
    requires Normal(r) && Normal(t) && NumParents(Absolute(r), Absolute(t)).Some?
    ensures var n := NumParents(Absolute(r), Absolute(t)).value;
            var rest := Absolute(t)[|Absolute(r)|..];
            (rest == "" || rest[0] == '/') <==> Up(t + [d], n) == r
  {
    var n := NumParents(Absolute(r), Absolute(t)).value;
    if r != [] {
      ParentsCountBelow(r, t);
      assert Up(t + [d], n) == t[..|r|];
      assert r == r[..|r| - 1] + [r[|r| - 1]] && t[..|r|] == t[..|r| - 1] + [t[|r| - 1]];
    } else {
      ParentsCountAtTop(t);
      assert t != [] ==> Up(t + [d], n) == [t[0]];
    }
  }

  /** The guard lets a sibling of the root through, and its rewritten paths do not lead into the root. */
  lemma SiblingPassesTheGuard(d: string)
    requires IsName(d)
    ensures var r, t := Absolute(["m"]), Absolute(["m2"]);
            && NumParents(r, t).Some?
            && exists app, b :: Resolve(["m2", d], Rewritten(NumParents(r, t).value, app, b)) != Resolve(["m"], Join(app, b))
  {
    var m, m2 := "m", "m2";
    assert Normal([m]) && Normal([m2]);
    assert [m][1..] == [] && [m2][1..] == [];
    assert Slashed([m]) == "/" + m + Slashed([]) && Slashed([m2]) == "/" + m2 + Slashed([]);
    assert Absolute([m]) == "/m" && Absolute([m2]) == "/m2";
    assert Absolute([m2])[|Absolute([m])|..] == "2";
    RewrittenPathsAreRight([m], [m2], d);
    assert [m2] + [d] == [m2, d];
  }

  lemma EmptyPathStays(l: Location)
    ensures Resolve(l, Join("", "")) == l
  {
    assert Join("", "") == "";
    EmptyPiece(l);
  }

  const PATH_FIELDS := ["bases", "configurations", "resources", "patches", "patchesStrategicMerge"]

  /** The fields whose entries are paths. */
  const REWRITTEN_FIELDS: set<string> := {"bases", "resources", "configurations", "patches", "patchesStrategicMerge"}

  lemma PathFieldsAre()
    ensures forall f :: f in PATH_FIELDS <==> f in REWRITTEN_FIELDS
  {
    var p := PATH_FIELDS;
    assert p[0] in REWRITTEN_FIELDS && p[1] in REWRITTEN_FIELDS && p[2] in REWRITTEN_FIELDS && p[3] in REWRITTEN_FIELDS
           && p[4] in REWRITTEN_FIELDS;
  }

  /** An entry of a list, text or anything else. */
  datatype Entry = Text(text: string) | Other

  /** The value of a field: a list, or None for null. */
  type Field = Option<seq<Entry>>

  function FieldOf(fields: map<string, Field>, f: string): Field {
    if f in fields then fields[f] else Some([])
  }

  /** Null and entries that are not text are a TypeError, an entry of an unknown application is a KeyError. */
  predicate CanRewrite(field: Field, known: bool) {
    field.Some? && (known || field.value == []) && forall e :: e in field.value ==> e.Text?
  }

  /** The fields of a loaded kustomization that hold a list or null. */
  class Kustomization {
    var fields: map<string, Field>

    constructor (fields: map<string, Field>)
      ensures this.fields == fields
    {
      this.fields := fields;
    }

    /** Rewrites the path fields in place.  Returns false where the original raises. */
    method RewritePaths(apps: map<string, string>, d: string, numParents: nat) returns (ok: bool)
      modifies this
      ensures ok <==> forall f :: f in REWRITTEN_FIELDS && f in old(fields) ==>
                && old(fields)[f].Some?
                && (d in apps || |old(fields)[f].value| == 0)
                && forall i :: 0 <= i < |old(fields)[f].value| ==> old(fields)[f].value[i].Text?
      ensures ok ==> forall f :: f in REWRITTEN_FIELDS ==> IsRewritten(old(fields), fields, apps, d, numParents, f)
      ensures forall f :: f !in REWRITTEN_FIELDS ==> SameField(old(fields), fields, f)
    {
      PathFieldsDiffer();
      PathFieldsAre();
      ok := RewriteFields(PATH_FIELDS, apps, d, numParents);
    }

    method RewriteFields(names: seq<string>, apps: map<string, string>, d: string, numParents: nat) returns (ok: bool)
      requires forall k :: 0 <= k < |names| ==> names[k] !in names[..k]
      modifies this
      ensures ok <==> forall f :: f in names ==> CanRewrite(FieldOf(old(fields), f), d in apps)
      ensures ok ==> forall f :: f in names ==> IsRewritten(old(fields), fields, apps, d, numParents, f)
      ensures forall f :: f !in names ==> SameField(old(fields), fields, f)
    {
      for k := 0 to |names|
        invariant forall f :: f in names[..k] ==> CanRewrite(FieldOf(old(fields), f), d in apps)
        invariant forall f :: f in names[..k] ==> IsRewritten(old(fields), fields, apps, d, numParents, f)
        invariant forall f :: f !in names[..k] ==> SameField(old(fields), fields, f)
      {
        var name := names[k];
        assert SameField(old(fields), fields, name);
        assert names[..k + 1] == names[..k] + [name];
        var rewritten := RewriteList(FieldOf(fields, name), apps, d, numParents);
        if rewritten.None? {
          assert name in names;
          return false;
        }
        fields := fields[name := rewritten];
      }
      assert names[..|names|] == names;
      return true;
    }
  }

  /** The inner loop; None for an error. */
  method RewriteList(field: Field, apps: map<string, string>, d: string, numParents: nat) returns (r: Field)
    ensures r.Some? <==> CanRewrite(field, d in apps)
    ensures r.Some? ==> AreRewritten(field.value, r.value, apps, d, numParents)
  {
    if field.None? {
      return None;
    }
    var paths := field.value;
    var rewritten: seq<Entry> := [];
    for i := 0 to |paths|
      invariant AreRewritten(paths[..i], rewritten, apps, d, numParents)
    {
      if d !in apps || paths[i].Other? {
        assert paths[i] in paths;
        return None;
      }
      rewritten := rewritten + [Text(Rewritten(numParents, apps[d], paths[i].text))];
    }
    assert paths[..|paths|] == paths;
    assert paths != [] ==> paths[0].Text? && d in apps;
    return Some(rewritten);
  }

  /** The field holds the rewritten paths, entry by entry. */
  ghost predicate IsRewritten(
    before: map<string, Field>, after: map<string, Field>,
    apps: map<string, string>, d: string, numParents: nat, f: string)
  {
    && f in after && after[f].Some? && CanRewrite(FieldOf(before, f), d in apps)
    && AreRewritten(FieldOf(before, f).value, after[f].value, apps, d, numParents)
  }

  ghost predicate AreRewritten(paths: seq<Entry>, rewritten: seq<Entry>, apps: map<string, string>, d: string, numParents: nat) {
    && |rewritten| == |paths|
    && forall i :: 0 <= i < |paths| ==>
         paths[i].Text? && d in apps && rewritten[i] == Text(Rewritten(numParents, apps[d], paths[i].text))
  }

  ghost predicate SameField(before: map<string, Field>, after: map<string, Field>, f: string) {
    (f in after <==> f in before) && (f in after ==> after[f] == before[f])
  }

  lemma PathFieldsDiffer()
    ensures forall k :: 0 <= k < |PATH_FIELDS| ==> PATH_FIELDS[k] !in PATH_FIELDS[..k]
  {
    assert |PATH_FIELDS[0]| == 5 && |PATH_FIELDS[1]| == 14 && |PATH_FIELDS[2]| == 9
      && |PATH_FIELDS[3]| == 7 && |PATH_FIELDS[4]| == 21;
  }
}
