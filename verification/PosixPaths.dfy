/** Path strings as the scripts' `os.path` handles them, and the locations they lead to. */
module PosixPaths {
  /** A location: the names on the way down from the file system root. */
  type Location = seq<string>

  predicate IsName(s: string) {
    s != "" && s != "." && s != ".." && '/' !in s
  }

  /** A location in normal form. */
  predicate Normal(l: Location) {
    forall i :: 0 <= i < |l| ==> IsName(l[i])
  }

  function PutBefore(c: char, pieces: seq<string>): (r: seq<string>)
    requires pieces != []
    ensures r != []
  {
    if c == '/' then [""] + pieces else [[c] + pieces[0]] + pieces[1..]
  }

  /** str.split("/"). */
  function Split(s: string): (r: seq<string>)
    ensures r != []
  {
    if s == "" then [""] else PutBefore(s[0], Split(s[1..]))
  }

  predicate IsAbsolute(s: string) {
    s != "" && s[0] == '/'
  }

  /** os.path.join of two pieces. */
  function Join(a: string, b: string): string {
    if IsAbsolute(b) then b
    else if a == "" || a[|a| - 1] == '/' then a + b
    else a + "/" + b
  }

  /** os.path.join of a list of pieces. */
  function JoinAll(pieces: seq<string>): string
    requires pieces != []
  {
    if |pieces| == 1 then pieces[0] else Join(JoinAll(pieces[..|pieces| - 1]), pieces[|pieces| - 1])
  }

  function Step(l: Location, piece: string): Location {
    if piece == "" || piece == "." then l
    else if piece == ".." then Parent(l)
    else l + [piece]
  }

  /** The root is its own parent. */
  function Parent(l: Location): Location {
    if l == [] then [] else l[..|l| - 1]
  }

  function Steps(l: Location, pieces: seq<string>): Location {
    if pieces == [] then l else Step(Steps(l, pieces[..|pieces| - 1]), pieces[|pieces| - 1])
  }

  /** Where a path string leads from a location. */
  function Resolve(l: Location, s: string): Location {
    Steps(if IsAbsolute(s) then [] else l, Split(s))
  }

  function ResolveAll(l: Location, pieces: seq<string>): Location {
    if pieces == [] then l else Resolve(ResolveAll(l, pieces[..|pieces| - 1]), pieces[|pieces| - 1])
  }

  lemma {:induction false} SplitAtSlash(a: string, b: string)
    ensures Split(a + "/" + b) == Split(a) + Split(b)
    decreases |a|
  {
    var s := a + "/" + b;
    if a == "" {
      assert s[1..] == b;
    } else {
      assert s[0] == a[0] && s[1..] == a[1..] + "/" + b;
      SplitAtSlash(a[1..], b);
      PutBeforeAppend(a[0], Split(a[1..]), Split(b));
    }
  }

  lemma PutBeforeAppend(c: char, x: seq<string>, y: seq<string>)
    requires x != []
    ensures PutBefore(c, x + y) == PutBefore(c, x) + y
  {
    assert (x + y)[1..] == x[1..] + y;
  }

  lemma {:induction false} StepsAppend(l: Location, a: seq<string>, b: seq<string>)
    ensures Steps(l, a + b) == Steps(Steps(l, a), b)
    decreases |b|
  {
    if b == [] {
      assert a + b == a;
    } else {
      assert (a + b)[..|a + b| - 1] == a + b[..|b| - 1];
      StepsAppend(l, a, b[..|b| - 1]);
    }
  }

  lemma EmptyPiece(l: Location)
    ensures Steps(l, Split("")) == l
  {
    assert Split("")[..0] == [];
  }

  /** A piece that ends in a separator is joined as if it did not: the separator is not doubled. */
  lemma OneSeparator(a: string, b: string)
    requires a != "" && a[|a| - 1] != '/'
    ensures Join(a + "/", b) == Join(a, b)
    ensures !IsAbsolute(b) ==> Join(a, b) == a + "/" + b && Join("", b) == b
  {
    assert "" + b == b;
  }

  /** A joined path leads where its pieces lead one after the other. */
  lemma ResolveJoin(l: Location, a: string, b: string)
    ensures Resolve(l, Join(a, b)) == Resolve(Resolve(l, a), b)
  {
    var start := if IsAbsolute(a) then [] else l;
    if !IsAbsolute(b) {
      if a == "" {
        assert a + b == b;
        EmptyPiece(l);
      } else if a[|a| - 1] == '/' {
        var front := a[..|a| - 1];
        assert a == front + "/" + "" && a + b == front + "/" + b;
        SplitAtSlash(front, "");
        SplitAtSlash(front, b);
        StepsAppend(start, Split(front), Split(""));
        StepsAppend(start, Split(front), Split(b));
        EmptyPiece(Steps(start, Split(front)));
      } else {
        SplitAtSlash(a, b);
        StepsAppend(start, Split(a), Split(b));
      }
    }
  }

  lemma {:induction false} ResolveJoinAll(l: Location, pieces: seq<string>)
    requires pieces != []
    ensures Resolve(l, JoinAll(pieces)) == ResolveAll(l, pieces)
    decreases |pieces|
  {
    if |pieces| == 1 {
      assert pieces[..0] == [];
    } else {
      var front := pieces[..|pieces| - 1];
      ResolveJoinAll(l, front);
      ResolveJoin(l, JoinAll(front), pieces[|pieces| - 1]);
    }
  }

  lemma {:induction false} ResolveAllAppend(l: Location, a: seq<string>, b: seq<string>)
    ensures ResolveAll(l, a + b) == ResolveAll(ResolveAll(l, a), b)
    decreases |b|
  {
    if b == [] {
      assert a + b == a;
    } else {
      assert (a + b)[..|a + b| - 1] == a + b[..|b| - 1];
      ResolveAllAppend(l, a, b[..|b| - 1]);
    }
  }

  function Parents(n: nat): (r: seq<string>)
    ensures |r| == n
  {
    if n == 0 then [] else Parents(n - 1) + [".."]
  }

  function Up(l: Location, n: nat): Location {
    if n <= |l| then l[..|l| - n] else []
  }

  lemma {:induction false} ParentsLeadUp(l: Location, n: nat)
    ensures ResolveAll(l, Parents(n)) == Up(l, n)
    decreases n
  {
    if n > 0 {
      ParentsLeadUp(l, n - 1);
      ResolveAllLast(l, Parents(n - 1), "..");
      DotsLead(Up(l, n - 1));
      UpOnce(l, n - 1);
    }
  }

  lemma ResolveAllLast(l: Location, a: seq<string>, piece: string)
    ensures ResolveAll(l, a + [piece]) == Resolve(ResolveAll(l, a), piece)
  {
    assert (a + [piece])[..|a|] == a;
  }

  lemma {:induction false} ParentsStepUp(l: Location, n: nat)
    ensures Steps(l, Parents(n)) == Up(l, n)
    decreases n
  {
    if n > 0 {
      ParentsStepUp(l, n - 1);
      StepsLast(l, Parents(n - 1), "..");
      DotsStep(Up(l, n - 1));
      UpOnce(l, n - 1);
    }
  }

  lemma DotsStep(l: Location)
    ensures Step(l, "..") == Parent(l)
  {
  }

  lemma StepsLast(l: Location, a: seq<string>, piece: string)
    ensures Steps(l, a + [piece]) == Step(Steps(l, a), piece)
  {
    assert (a + [piece])[..|a|] == a;
  }

  lemma UpOnce(l: Location, n: nat)
    ensures Up(l, n + 1) == Parent(Up(l, n))
  {
  }

  lemma StepsOne(l: Location, piece: string)
    ensures Steps(l, [piece]) == Step(l, piece)
  {
    assert [piece][..0] == [];
    assert Steps(l, [piece][..0]) == l;
  }

  lemma DotsLead(l: Location)
    ensures Resolve(l, "..") == Parent(l) && Resolve(l, ".") == l
  {
    assert ".."[0] == '.' && "."[0] == '.';
    SlashFreeSplit("..");
    SlashFreeSplit(".");
    StepsOne(l, "..");
    StepsOne(l, ".");
  }

  lemma NameLeads(l: Location, name: string)
    requires IsName(name)
    ensures Resolve(l, name) == l + [name]
  {
    SlashFreeSplit(name);
    StepsOne(l, name);
    assert name[0] in name;
  }

  lemma {:induction false} SlashFreeSplit(s: string)
    requires '/' !in s
    ensures Split(s) == [s]
  {
    if s != "" {
      assert '/' !in s[1..];
      SlashFreeSplit(s[1..]);
      assert s == [s[0]] + s[1..];
    }
  }

  predicate SlashFree(ps: seq<string>) {
    forall i :: 0 <= i < |ps| ==> '/' !in ps[i]
  }

  /** "/".join(pieces). */
  function JoinSep(ps: seq<string>): string {
    if ps == [] then "" else if |ps| == 1 then ps[0] else ps[0] + "/" + JoinSep(ps[1..])
  }

  lemma {:induction false} SplitJoinSep(ps: seq<string>)
    requires ps != [] && SlashFree(ps)
    ensures Split(JoinSep(ps)) == ps
    decreases |ps|
  {
    SlashFreeSplit(ps[0]);
    if |ps| > 1 {
      SplitAtSlash(ps[0], JoinSep(ps[1..]));
      SplitJoinSep(ps[1..]);
    }
  }

  lemma {:induction false} NamesLeadDown(l: Location, names: Location)
    requires Normal(names)
    ensures Steps(l, names) == l + names
    decreases |names|
  {
    if names != [] {
      NamesLeadDown(l, names[..|names| - 1]);
    }
  }

  /** The absolute path of a normal-form location. */
  function Absolute(l: Location): string {
    if l == [] then "/" else Slashed(l)
  }

  function Slashed(l: Location): string {
    if l == [] then "" else "/" + l[0] + Slashed(l[1..])
  }

  lemma {:induction false} SplitSlashed(x: string, l: Location)
    requires '/' !in x && Normal(l)
    ensures Split(x + Slashed(l)) == [x] + l
    decreases |l|
  {
    SlashFreeSplit(x);
    if l == [] {
      assert x + Slashed(l) == x;
    } else {
      SplitSlashed(l[0], l[1..]);
      assert x + Slashed(l) == x + "/" + (l[0] + Slashed(l[1..]));
      SplitAtSlash(x, l[0] + Slashed(l[1..]));
    }
  }

  lemma AbsoluteLeadsThere(from: Location, l: Location)
    requires Normal(l)
    ensures Resolve(from, Absolute(l)) == l
  {
    if l == [] {
      assert Split("/") == ["", ""] by {
        assert "/"[1..] == "";
      }
      assert Steps([], ["", ""]) == [] by {
        StepsAppend([], [""], [""]);
        EmptyPiece([]);
        assert ["", ""] == [""] + [""];
      }
    } else {
      assert "" + Slashed(l) == Slashed(l);
      SplitSlashed("", l);
      StepsAppend([], [""], l);
      EmptyPiece([]);
      NamesLeadDown([], l);
    }
  }

  function CommonPrefix(a: Location, b: Location): (n: nat)
    ensures n <= |a| && n <= |b| && a[..n] == b[..n]
    ensures n < |a| && n < |b| ==> a[n] != b[n]
  {
    if a == [] || b == [] || a[0] != b[0] then 0 else 1 + CommonPrefix(a[1..], b[1..])
  }

  /** os.path.relpath of two normal-form locations. */
  function RelPath(path: Location, start: Location): string {
    var n := CommonPrefix(path, start);
    var pieces := Parents(|start| - n) + path[n..];
    if pieces == [] then "." else JoinSep(pieces)
  }

  /** A relative path leads from its start to its target. */
  lemma RelPathLeadsThere(path: Location, start: Location)
    requires Normal(path)
    ensures Resolve(start, RelPath(path, start)) == path
  {
    var n := CommonPrefix(path, start);
    var k := |start| - n;
    var names := path[n..];
    UpToCommon(path, start, n);
    if Parents(k) + names == [] {
      DotsLead(start);
      assert path == start;
    } else {
      assert Normal(names);
      UpAndDown(start, k, names);
    }
  }

  lemma UpToCommon(path: Location, start: Location, n: nat)
    requires n <= |path| && n <= |start| && path[..n] == start[..n]
    ensures Up(start, |start| - n) + path[n..] == path
  {
  }

  /** Going up and then down, written as one relative path. */
  lemma UpAndDown(l: Location, k: nat, names: Location)
    requires Normal(names) && Parents(k) + names != []
    ensures Resolve(l, JoinSep(Parents(k) + names)) == Up(l, k) + names
  {
    var pieces := Parents(k) + names;
    ParentsAreDots(k);
    assert SlashFree(pieces) && pieces[0] != "";
    SplitJoinSep(pieces);
    FirstOfJoinSep(pieces);
    StepsAppend(l, Parents(k), names);
    ParentsStepUp(l, k);
    NamesLeadDown(Up(l, k), names);
  }

  lemma {:induction false} ParentsAreDots(n: nat)
    ensures forall i :: 0 <= i < n ==> Parents(n)[i] == ".."
  {
    if n > 0 {
      ParentsAreDots(n - 1);
    }
  }

  lemma FirstOfJoinSep(ps: seq<string>)
    requires ps != [] && SlashFree(ps) && ps[0] != ""
    ensures !IsAbsolute(JoinSep(ps))
  {
    assert JoinSep(ps)[0] == ps[0][0];
  }
}
