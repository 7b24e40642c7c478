/**
  hack/generate_legacy_kustomizations.py: collecting the parameter files of the configmap generators
  and copying them, renumbered, into a test directory.
 */
module ParamFiles {
  import opened Wrappers
  import opened PosixPaths

  /** A field of a loaded YAML mapping. */
  datatype Field<T> = Absent | NullValue | Given(value: T)

  /** One configMapGenerator entry of a kustomization. */
  datatype Source = Source(name: Option<string>, envs: Field<seq<string>>, env: Field<string>)

  /** A generator's name and the files it reads; a dict of these keeps the order of first insertion. */
  datatype Generator = Generator(name: string, files: seq<string>)

  /** One generator of the written kustomization. */
  datatype Output = Output(name: string, envs: seq<string>, behavior: string)

  /** File contents by location, so that two spellings of one path are one file. */
  type Disk = map<Location, string>

  // ---------------------------------------------------------------- decimal numbers

  function Digit(d: nat): char
    requires d < 10
  {
    '0' + d as char
  }

  function Decimal(n: nat): string {
    if n < 10 then [Digit(n)] else Decimal(n / 10) + [Digit(n % 10)]
  }

  function Value(s: string): int {
    if s == "" then 0 else 10 * Value(s[..|s| - 1]) + (s[|s| - 1] as int - '0' as int)
  }

  lemma {:induction false} DecimalHasValue(n: nat)
    ensures Value(Decimal(n)) == n
  {
    if n >= 10 {
      DecimalHasValue(n / 10);
      assert Decimal(n)[..|Decimal(n)| - 1] == Decimal(n / 10);
    } else {
      assert [Digit(n)][..0] == "";
    }
  }

  // ---------------------------------------------------------------- the files written

  function ParamName(k: nat): string {
    "params_" + Decimal(k) + ".env"
  }

  /** The path of the k-th copy. */
  function Target(dir: string, k: nat): string {
    Join(dir, ParamName(k))
  }

  /** The location of the k-th copy in a directory. */
  function Place(dir: Location, k: nat): Location {
    dir + [ParamName(k)]
  }

  lemma {:induction false} DecimalDigits(n: nat)
    ensures forall i :: 0 <= i < |Decimal(n)| ==> '0' <= Decimal(n)[i] <= '9'
  {
    if n >= 10 {
      DecimalDigits(n / 10);
    }
  }

  /** Decimal numbers have no leading zero. */
  lemma {:induction false} NoLeadingZero(n: nat)
    requires n > 0
    ensures Decimal(n)[0] != '0'
  {
    if n >= 10 {
      NoLeadingZero(n / 10);
      assert Decimal(n)[0] == Decimal(n / 10)[0];
    }
  }

  lemma ParamNameIsName(k: nat)
    ensures IsName(ParamName(k))
  {
    DecimalDigits(k);
    assert ParamName(k)[0] == 'p';
  }

  /** However the directory is spelled, the path of a copy leads to its place. */
  lemma TargetLeads(cwd: Location, dir: string, k: nat)
    ensures Resolve(cwd, Target(dir, k)) == Place(Resolve(cwd, dir), k)
  {
    ResolveJoin(cwd, dir, ParamName(k));
    ParamNameIsName(k);
    NameLeads(Resolve(cwd, dir), ParamName(k));
  }

  lemma NamesDiffer(j: nat, k: nat)
    requires j != k
    ensures ParamName(j) != ParamName(k)
  {
    DecimalHasValue(j);
    DecimalHasValue(k);
    NumberPart(j);
    NumberPart(k);
  }

  lemma NumberPart(k: nat)
    ensures ParamName(k)[7..|ParamName(k)| - 4] == Decimal(k)
  {
  }

  lemma PlacesDiffer(dir: Location, j: nat, k: nat)
    requires j != k
    ensures Place(dir, j) != Place(dir, k)
  {
    NamesDiffer(j, k);
    assert Place(dir, j)[|dir|] == ParamName(j) && Place(dir, k)[|dir|] == ParamName(k);
  }

  /** No two copies lead to the same file. */
  lemma TargetsDiffer(cwd: Location, dir: string, j: nat, k: nat)
    requires j != k
    ensures Resolve(cwd, Target(dir, j)) != Resolve(cwd, Target(dir, k))
  {
    TargetLeads(cwd, dir, j);
    TargetLeads(cwd, dir, k);
    PlacesDiffer(Resolve(cwd, dir), j, k);
  }

  /** shutil.copy2: fails when the source is missing or is the same file as the destination. */
  function Copy(disk: Disk, src: Location, dst: Location): Option<Disk> {
    if src !in disk || src == dst then None else Some(disk[dst := disk[src]])
  }

  /** Copying the sources in order to the places numbered from 0. */
  function CopyAll(disk: Disk, dir: Location, sources: seq<Location>): Option<Disk> {
    if sources == [] then Some(disk)
    else
      var n := |sources| - 1;
      match CopyAll(disk, dir, sources[..n])
      case None => None
      case Some(before) => Copy(before, sources[n], Place(dir, n))
  }

  ghost predicate IsPlaceBelow(dir: Location, n: nat, p: Location) {
    exists k :: 0 <= k < n && p == Place(dir, k)
  }

  /** What the k-th copy reads: an earlier copy if its source is one, else the original file. */
  ghost predicate HoldsCopy(disk: Disk, after: Disk, dir: Location, sources: seq<Location>, k: nat)
    requires k < |sources|
  {
    && Place(dir, k) in after
    && (forall j :: 0 <= j < k && sources[k] == Place(dir, j) ==>
          Place(dir, j) in after && after[Place(dir, k)] == after[Place(dir, j)])
    && (!IsPlaceBelow(dir, k, sources[k]) ==> sources[k] in disk && after[Place(dir, k)] == disk[sources[k]])
  }

  ghost predicate OthersUnchanged(disk: Disk, after: Disk, dir: Location, n: nat) {
    forall p :: !IsPlaceBelow(dir, n, p) ==> (p in after <==> p in disk) && (p in disk ==> after[p] == disk[p])
  }

  ghost predicate AllHold(disk: Disk, after: Disk, dir: Location, sources: seq<Location>) {
    forall k :: 0 <= k < |sources| ==> HoldsCopy(disk, after, dir, sources, k)
  }

  /** No copy overwrites another, and nothing else on the disk changes. */
  lemma {:induction false} CopiesSurvive(disk: Disk, dir: Location, sources: seq<Location>)
    requires CopyAll(disk, dir, sources).Some?
    ensures AllHold(disk, CopyAll(disk, dir, sources).value, dir, sources)
    ensures OthersUnchanged(disk, CopyAll(disk, dir, sources).value, dir, |sources|)
    decreases |sources|
  {
    if sources != [] {
      var n := |sources| - 1;
      CopiesSurvive(disk, dir, sources[..n]);
      var before := CopyAll(disk, dir, sources[..n]).value;
      OneMoreCopy(disk, before, dir, sources[..n], sources[n]);
      LastCopyTouchesOne(disk, before, dir, n, sources[n]);
      assert sources == sources[..n] + [sources[n]];
    }
  }

  lemma OneMoreCopy(disk: Disk, before: Disk, dir: Location, front: seq<Location>, src: Location)
    requires AllHold(disk, before, dir, front) && OthersUnchanged(disk, before, dir, |front|)
    requires Copy(before, src, Place(dir, |front|)).Some?
    ensures AllHold(disk, Copy(before, src, Place(dir, |front|)).value, dir, front + [src])
  {
    var after, all := Copy(before, src, Place(dir, |front|)).value, front + [src];
    forall k | 0 <= k < |all|
      ensures HoldsCopy(disk, after, dir, all, k)
    {
      if k < |front| {
        OldCopyStays(disk, before, dir, front, src, k);
      } else {
        LastCopyHolds(disk, before, dir, front, src);
      }
    }
  }

  lemma OldCopyStays(disk: Disk, before: Disk, dir: Location, front: seq<Location>, src: Location, k: nat)
    requires k < |front| && HoldsCopy(disk, before, dir, front, k)
    requires Copy(before, src, Place(dir, |front|)).Some?
    ensures HoldsCopy(disk, Copy(before, src, Place(dir, |front|)).value, dir, front + [src], k)
  {
    assert (front + [src])[k] == front[k];
    forall j | 0 <= j <= k
      ensures Place(dir, j) != Place(dir, |front|)
    {
      PlacesDiffer(dir, j, |front|);
    }
  }

  lemma LastCopyHolds(disk: Disk, before: Disk, dir: Location, front: seq<Location>, src: Location)
    requires AllHold(disk, before, dir, front) && OthersUnchanged(disk, before, dir, |front|)
    requires Copy(before, src, Place(dir, |front|)).Some?
    ensures HoldsCopy(disk, Copy(before, src, Place(dir, |front|)).value, dir, front + [src], |front|)
  {
    forall j | 0 <= j < |front|
      ensures Place(dir, j) != Place(dir, |front|) && Place(dir, j) in before
    {
      PlacesDiffer(dir, j, |front|);
      assert HoldsCopy(disk, before, dir, front, j);
    }
  }

  lemma LastCopyTouchesOne(disk: Disk, before: Disk, dir: Location, n: nat, src: Location)
    requires OthersUnchanged(disk, before, dir, n) && Copy(before, src, Place(dir, n)).Some?
    ensures OthersUnchanged(disk, Copy(before, src, Place(dir, n)).value, dir, n + 1)
  {
    forall p | !IsPlaceBelow(dir, n + 1, p)
      ensures !IsPlaceBelow(dir, n, p) && p != Place(dir, n)
    {
    }
  }

  // ---------------------------------------------------------------- when every copy holds its original

  /** The k-th copy holds what its source file held at the start. */
  ghost predicate HoldsOriginal(disk: Disk, after: Disk, dir: Location, sources: seq<Location>, k: nat)
    requires k < |sources|
  {
    sources[k] in disk && Place(dir, k) in after && after[Place(dir, k)] == disk[sources[k]]
  }

  ghost predicate AllOriginals(disk: Disk, dir: Location, sources: seq<Location>) {
    CopyAll(disk, dir, sources).Some? ==>
      forall k :: 0 <= k < |sources| ==> HoldsOriginal(disk, CopyAll(disk, dir, sources).value, dir, sources, k)
  }

  /** One copy holds its original if its source is not the place of an earlier copy. */
  lemma OwnOriginal(disk: Disk, dir: Location, sources: seq<Location>, k: nat)
    requires CopyAll(disk, dir, sources).Some? && k < |sources| && !IsPlaceBelow(dir, k, sources[k])
    ensures HoldsOriginal(disk, CopyAll(disk, dir, sources).value, dir, sources, k)
  {
    CopiesSurvive(disk, dir, sources);
    assert HoldsCopy(disk, CopyAll(disk, dir, sources).value, dir, sources, k);
  }

  ghost predicate NoneOntoItself(dir: Location, sources: seq<Location>) {
    forall k :: 0 <= k < |sources| ==> sources[k] != Place(dir, k)
  }

  lemma OneMorePlace(dir: Location, n: nat)
    ensures forall p :: IsPlaceBelow(dir, n + 1, p) <==> IsPlaceBelow(dir, n, p) || p == Place(dir, n)
  {
    forall p
      ensures IsPlaceBelow(dir, n + 1, p) <==> IsPlaceBelow(dir, n, p) || p == Place(dir, n)
    {
      if p == Place(dir, n) {
        var k := n;
        assert 0 <= k < n + 1 && p == Place(dir, k);
      }
    }
  }

  /** Every source is there, at the start or as an earlier copy, and none is its own destination. */
  ghost predicate Copyable(disk: Disk, dir: Location, sources: seq<Location>) {
    forall k :: 0 <= k < |sources| ==>
      (sources[k] in disk || IsPlaceBelow(dir, k, sources[k])) && sources[k] != Place(dir, k)
  }

  lemma CopyableFront(disk: Disk, dir: Location, front: seq<Location>, last: Location)
    ensures Copyable(disk, dir, front + [last])
            <==> && Copyable(disk, dir, front)
                 && (last in disk || IsPlaceBelow(dir, |front|, last)) && last != Place(dir, |front|)
  {
    var all := front + [last];
    assert all[|front|] == last;
    assert forall k :: 0 <= k < |front| ==> all[k] == front[k];
  }

  ghost predicate HasPlaces(disk: Disk, after: Disk, dir: Location, n: nat) {
    forall p :: p in after <==> p in disk || IsPlaceBelow(dir, n, p)
  }

  /** Copying succeeds exactly then. */
  lemma {:induction false} CopiesSucceed(disk: Disk, dir: Location, sources: seq<Location>)
    ensures CopyAll(disk, dir, sources).Some? <==> Copyable(disk, dir, sources)
    ensures CopyAll(disk, dir, sources).Some? ==> HasPlaces(disk, CopyAll(disk, dir, sources).value, dir, |sources|)
    decreases |sources|
  {
    if sources != [] {
      var n := |sources| - 1;
      var front, last := sources[..n], sources[n];
      CopiesSucceed(disk, dir, front);
      assert sources == front + [last];
      CopyableFront(disk, dir, front, last);
      OneMorePlace(dir, n);
    }
  }

  ghost predicate CanBeCopied(dir: Location, sources: seq<Location>) {
    exists disk :: CopyAll(disk, dir, sources).Some?
  }

  ghost predicate OriginalsOnEveryDisk(dir: Location, sources: seq<Location>) {
    forall disk :: AllOriginals(disk, dir, sources)
  }

  /**
    Of a list that can be copied at all, all copies hold their originals on every disk if and only
    if no source is the place of an earlier copy.
   */
  lemma OriginalsExactly(dir: Location, sources: seq<Location>)
    requires CanBeCopied(dir, sources)
    ensures OriginalsOnEveryDisk(dir, sources)
            <==> forall k :: 0 <= k < |sources| ==> !IsPlaceBelow(dir, k, sources[k])
  {
    if forall k :: 0 <= k < |sources| ==> !IsPlaceBelow(dir, k, sources[k]) {
      forall disk, k | CopyAll(disk, dir, sources).Some? && 0 <= k < |sources|
        ensures HoldsOriginal(disk, CopyAll(disk, dir, sources).value, dir, sources, k)
      {
        OwnOriginal(disk, dir, sources, k);
      }
    } else {
      var start: Disk :| CopyAll(start, dir, sources).Some?;
      CopiesSucceed(start, dir, sources);
      var k := FirstReused(dir, sources);
      var disk := LosingDisk(dir, sources, k);
      assert !AllOriginals(disk, dir, sources);
    }
  }

  /** The first source that is the place of an earlier copy. */
  lemma FirstReused(dir: Location, sources: seq<Location>) returns (k: nat)
    requires exists i :: 0 <= i < |sources| && IsPlaceBelow(dir, i, sources[i])
    ensures k < |sources| && IsPlaceBelow(dir, k, sources[k])
    ensures forall i :: 0 <= i < k ==> !IsPlaceBelow(dir, i, sources[i])
  {
    k := 0;
    while !IsPlaceBelow(dir, k, sources[k])
      invariant k < |sources| && forall i :: 0 <= i < k ==> !IsPlaceBelow(dir, i, sources[i])
      decreases |sources| - k
    {
      k := k + 1;
    }
  }

  /** A disk on which copy k does not hold what its source held. */
  lemma LosingDisk(dir: Location, sources: seq<Location>, k: nat) returns (disk: Disk)
    requires NoneOntoItself(dir, sources) && k < |sources| && IsPlaceBelow(dir, k, sources[k])
    requires forall i :: 0 <= i < k ==> !IsPlaceBelow(dir, i, sources[i])
    ensures CopyAll(disk, dir, sources).Some?
    ensures !HoldsOriginal(disk, CopyAll(disk, dir, sources).value, dir, sources, k)
  {
    disk := map p | p in sources :: if p == sources[k] then "old" else "new";
    CopiesSucceed(disk, dir, sources);
    var after := CopyAll(disk, dir, sources).value;
    CopiesSurvive(disk, dir, sources);
    var j :| 0 <= j < k && sources[k] == Place(dir, j);
    assert HoldsCopy(disk, after, dir, sources, k) && HoldsCopy(disk, after, dir, sources, j);
    assert after[Place(dir, k)] == after[Place(dir, j)] == disk[sources[j]];
    assert sources[j] in sources && sources[k] in sources;
    assert "old"[0] != "new"[0];
  }

  // ---------------------------------------------------------------- the generators

  /** Setting a key of an ordered dict. */
  function Put(gens: seq<Generator>, g: Generator): seq<Generator> {
    if gens == [] then [g]
    else if gens[0].name == g.name then [g] + gens[1..]
    else [gens[0]] + Put(gens[1..], g)
  }

  ghost predicate DistinctNames(gens: seq<Generator>) {
    forall i, j :: 0 <= i < j < |gens| ==> gens[i].name != gens[j].name
  }

  lemma {:induction false} PutKeepsNames(gens: seq<Generator>, g: Generator)
    requires DistinctNames(gens)
    ensures DistinctNames(Put(gens, g))
    ensures g in Put(gens, g)
    ensures forall h :: h in Put(gens, g) ==> h == g || h in gens
    ensures forall h :: h in gens && h.name != g.name ==> h in Put(gens, g)
    decreases |gens|
  {
    if gens != [] && gens[0].name != g.name {
      PutKeepsNames(gens[1..], g);
      var rest := Put(gens[1..], g);
      assert forall h :: h in gens[1..] ==> h in gens;
      forall i | 0 <= i < |rest|
        ensures rest[i].name != gens[0].name
      {
        assert rest[i] in rest;
        if rest[i] in gens[1..] {
          var m :| 0 <= m < |gens[1..]| && gens[1..][m] == rest[i];
          assert gens[m + 1] == rest[i];
        }
      }
    } else if gens != [] {
      assert forall h :: h in gens && h.name != g.name ==> h in gens[1..];
      assert forall i :: 0 < i < |gens| ==> gens[i] in gens;
    }
  }

  function NamesOf(gens: seq<Generator>): seq<string> {
    if gens == [] then [] else [gens[0].name] + NamesOf(gens[1..])
  }

  function AddName(names: seq<string>, name: string): seq<string> {
    if name in names then names else names + [name]
  }

  /** A key that is set again keeps its place. */
  lemma {:induction false} PutKeepsOrder(gens: seq<Generator>, g: Generator)
    ensures NamesOf(Put(gens, g)) == AddName(NamesOf(gens), g.name)
    decreases |gens|
  {
    if gens != [] && gens[0].name != g.name {
      PutKeepsOrder(gens[1..], g);
      assert Put(gens, g)[1..] == Put(gens[1..], g);
    } else if gens != [] {
      assert Put(gens, g)[1..] == gens[1..];
    } else {
      assert [g][1..] == [];
    }
  }

  /** A missing name is a KeyError, a null list or file an error of the code that uses it. */
  predicate Raises(s: Source) {
    s.name.None? || s.envs.NullValue? || s.env.NullValue?
  }

  /** The names of the entries, each at its first occurrence. */
  function FirstNames(sources: seq<Source>): seq<string>
    requires forall s :: s in sources ==> !Raises(s)
  {
    if sources == [] then []
    else
      var last := sources[|sources| - 1];
      assert last in sources && !Raises(last);
      AddName(FirstNames(sources[..|sources| - 1]), last.name.value)
  }

  function FilesOf(dir: string, s: Source): seq<string>
    requires !Raises(s)
  {
    var envs := if s.envs.Given? then s.envs.value else [];
    var all := if s.env.Given? then envs + [s.env.value] else envs;
    seq(|all|, i requires 0 <= i < |all| => Join(dir, all[i]))
  }

  /** The files of the last entry of a name, if there is one. */
  function LastOf(dir: string, sources: seq<Source>, name: string): Option<seq<string>>
    requires forall s :: s in sources ==> !Raises(s)
  {
    if sources == [] then None
    else
      var last := sources[|sources| - 1];
      assert last in sources && !Raises(last);
      if last.name.value == name then Some(FilesOf(dir, last)) else LastOf(dir, sources[..|sources| - 1], name)
  }

  /** The files of an entry: those of its list, then its single one, each below the directory. */
  ghost predicate HasFiles(dir: string, s: Source, files: seq<string>) {
    var listed := if s.envs.Given? then |s.envs.value| else 0;
    && |files| == listed + (if s.env.Given? then 1 else 0)
    && (forall j :: 0 <= j < listed ==> files[j] == Join(dir, s.envs.value[j]))
    && (s.env.Given? ==> files[listed] == Join(dir, s.env.value))
  }

  /** The generator's name and files are those of entry i, and no later entry has the name. */
  ghost predicate IsLastEntry(dir: string, sources: seq<Source>, g: Generator, i: nat) {
    && i < |sources| && sources[i].name == Some(g.name) && HasFiles(dir, sources[i], g.files)
    && forall j :: i < j < |sources| ==> sources[j].name != Some(g.name)
  }

  lemma {:induction false} LastOfIs(dir: string, sources: seq<Source>, g: Generator)
    requires forall s :: s in sources ==> !Raises(s)
    ensures LastOf(dir, sources, g.name) == Some(g.files) <==> exists i :: IsLastEntry(dir, sources, g, i)
    decreases |sources|
  {
    if sources != [] {
      var n := |sources| - 1;
      var last := sources[n];
      assert last in sources && !Raises(last);
      assert sources == sources[..n] + [last];
      if last.name.value == g.name {
        FilesAre(dir, last, g.files);
        assert IsLastEntry(dir, sources, g, n) <==> HasFiles(dir, last, g.files);
        assert forall i :: IsLastEntry(dir, sources, g, i) ==> i == n;
      } else {
        LastOfIs(dir, sources[..n], g);
        forall i: nat
          ensures IsLastEntry(dir, sources, g, i) <==> IsLastEntry(dir, sources[..n], g, i)
        {
        }
      }
    }
  }

  lemma FilesAre(dir: string, s: Source, files: seq<string>)
    requires !Raises(s)
    ensures FilesOf(dir, s) == files <==> HasFiles(dir, s, files)
  {
    var all := FilesOf(dir, s);
    assert HasFiles(dir, s, all);
    if HasFiles(dir, s, files) {
      assert forall j :: 0 <= j < |all| ==> all[j] == files[j];
    }
  }

  /** Some entry has the one name and no entry up to it has the other. */
  ghost predicate OccursBefore(sources: seq<Source>, a: string, b: string) {
    exists i :: 0 <= i < |sources| && sources[i].name == Some(a) && forall j :: 0 <= j <= i ==> sources[j].name != Some(b)
  }

  lemma {:induction false} FirstNamesInOrder(sources: seq<Source>)
    requires forall s :: s in sources ==> !Raises(s)
    ensures forall n :: n in FirstNames(sources) <==> exists i :: 0 <= i < |sources| && sources[i].name == Some(n)
    ensures forall a, b :: 0 <= a < b < |FirstNames(sources)| ==>
              OccursBefore(sources, FirstNames(sources)[a], FirstNames(sources)[b])
    decreases |sources|
  {
    if sources != [] {
      var k := |sources| - 1;
      var front, last := sources[..k], sources[k];
      assert last in sources && !Raises(last);
      FirstNamesInOrder(front);
      var before, names := FirstNames(front), FirstNames(sources);
      assert forall i :: 0 <= i < k ==> front[i] == sources[i];
      forall a, b | 0 <= a < b < |names|
        ensures OccursBefore(sources, names[a], names[b])
      {
        assert names[a] == before[a] && names[a] in before;
        if b < |before| {
          assert OccursBefore(front, before[a], before[b]);
        } else {
          var i :| 0 <= i < k && front[i].name == Some(names[a]);
          assert names[b] !in before;
          assert forall j :: 0 <= j <= i ==> front[j].name != Some(names[b]);
          assert sources[i].name == Some(names[a]);
        }
      }
    }
  }

  lemma {:induction false} NamesOfAt(gens: seq<Generator>)
    ensures |NamesOf(gens)| == |gens| && forall i :: 0 <= i < |gens| ==> NamesOf(gens)[i] == gens[i].name
    decreases |gens|
  {
    if gens != [] {
      NamesOfAt(gens[1..]);
    }
  }

  /** What the generators of a list of entries are, one by one and in order. */
  ghost predicate AreGenerators(dir: string, sources: seq<Source>, gens: seq<Generator>) {
    && (forall g :: g in gens <==> exists i :: IsLastEntry(dir, sources, g, i))
    && (forall a, b :: 0 <= a < b < |gens| ==> OccursBefore(sources, gens[a].name, gens[b].name))
  }

  lemma BuiltAreGenerators(dir: string, sources: seq<Source>, gens: seq<Generator>)
    requires forall s :: s in sources ==> !Raises(s)
    requires NamesOf(gens) == FirstNames(sources)
    requires forall g :: g in gens <==> LastOf(dir, sources, g.name) == Some(g.files)
    ensures AreGenerators(dir, sources, gens)
  {
    FirstNamesInOrder(sources);
    NamesOfAt(gens);
    forall g
      ensures g in gens <==> exists i :: IsLastEntry(dir, sources, g, i)
    {
      LastOfIs(dir, sources, g);
    }
  }

  /**
    Each name once, in order of first occurrence, with the files of the last entry of that name;
    None for the error of an entry.
   */
  method BuildConfigmapGenerators(dir: string, sources: seq<Source>) returns (r: Option<seq<Generator>>)
    ensures r.None? <==> exists s :: s in sources && Raises(s)
    ensures r.Some? ==> DistinctNames(r.value) && NamesOf(r.value) == FirstNames(sources)
    ensures r.Some? ==> forall g :: g in r.value <==> LastOf(dir, sources, g.name) == Some(g.files)
    ensures r.Some? ==> AreGenerators(dir, sources, r.value)
  {
    var generators: seq<Generator> := [];
    for i := 0 to |sources|
      invariant forall s :: s in sources[..i] ==> !Raises(s)
      invariant DistinctNames(generators) && NamesOf(generators) == FirstNames(sources[..i])
      invariant forall g :: g in generators <==> LastOf(dir, sources[..i], g.name) == Some(g.files)
    {
      if Raises(sources[i]) {
        return None;
      }
      var g := Generator(sources[i].name.value, FilesOf(dir, sources[i]));
      assert sources[..i + 1][..i] == sources[..i];
      assert forall s :: s in sources[..i + 1] ==> s in sources[..i] || s == sources[i];
      PutKeepsNames(generators, g);
      PutKeepsOrder(generators, g);
      UniqueByName(Put(generators, g));
      generators := Put(generators, g);
    }
    assert sources[..|sources|] == sources;
    BuiltAreGenerators(dir, sources, generators);
    return Some(generators);
  }

  lemma UniqueByName(gens: seq<Generator>)
    requires DistinctNames(gens)
    ensures forall g, h :: g in gens && h in gens && g.name == h.name ==> g == h
  {
    forall g, h | g in gens && h in gens && g.name == h.name
      ensures g == h
    {
      var i :| 0 <= i < |gens| && gens[i] == g;
      var j :| 0 <= j < |gens| && gens[j] == h;
      assert i == j;
    }
  }

  /** All files of all generators, in the order of the nested loops. */
  function AllFiles(gens: seq<Generator>): seq<string> {
    if gens == [] then [] else AllFiles(gens[..|gens| - 1]) + gens[|gens| - 1].files
  }

  /** Where paths lead from the working directory. */
  function Locations(cwd: Location, paths: seq<string>): (r: seq<Location>)
    ensures |r| == |paths|
  {
    seq(|paths|, i requires 0 <= i < |paths| => Resolve(cwd, paths[i]))
  }

  /** The number of files before generator g. */
  function Offset(gens: seq<Generator>, g: nat): nat
    requires g <= |gens|
  {
    |AllFiles(gens[..g])|
  }

  lemma {:induction false} FileAt(gens: seq<Generator>, g: nat, k: nat)
    requires g < |gens| && k < |gens[g].files|
    ensures Offset(gens, g) + k < |AllFiles(gens)|
    ensures AllFiles(gens)[Offset(gens, g) + k] == gens[g].files[k]
    decreases |gens|
  {
    var n := |gens| - 1;
    assert gens[..n] == gens[..|gens| - 1];
    if g < n {
      FileAt(gens[..n], g, k);
      assert gens[..n][..g] == gens[..g];
    }
  }

  function ParamNames(from: nat, n: nat): seq<string> {
    seq(n, i requires 0 <= i < n => ParamName(from + i))
  }

  function Outputs(gens: seq<Generator>): seq<Output> {
    seq(|gens|, g requires 0 <= g < |gens| =>
      Output(gens[g].name, ParamNames(Offset(gens, g), |gens[g].files|), "merge"))
  }

  lemma EnvIs(gens: seq<Generator>, g: nat, k: nat)
    requires g < |gens| && k < |gens[g].files|
    ensures |Outputs(gens)[g].envs| == |gens[g].files|
    ensures Outputs(gens)[g].envs[k] == ParamName(Offset(gens, g) + k)
  {
  }

  /** What is written: the same names in the same order, and file names numbered through from 0. */
  ghost predicate AreOutputs(gens: seq<Generator>, outs: seq<Output>) {
    && |outs| == |gens|
    && (forall g :: 0 <= g < |gens| ==> outs[g].name == gens[g].name && outs[g].behavior == "merge"
                                        && |outs[g].envs| == |gens[g].files|)
    && (forall g, k :: 0 <= g < |gens| && 0 <= k < |gens[g].files| ==>
          outs[g].envs[k] == "params_" + Decimal(Before(gens, g) + k) + ".env")
  }

  /** The files of the generators before one. */
  function Before(gens: seq<Generator>, g: nat): nat
    requires g <= |gens|
  {
    if g == 0 then 0 else Before(gens, g - 1) + |gens[g - 1].files|
  }

  lemma {:induction false} OffsetIs(gens: seq<Generator>, g: nat)
    requires g <= |gens|
    ensures Offset(gens, g) == Before(gens, g)
    decreases g
  {
    if g > 0 {
      OffsetIs(gens, g - 1);
      assert gens[..g][..g - 1] == gens[..g - 1];
    }
  }

  lemma OutputsAre(gens: seq<Generator>)
    ensures AreOutputs(gens, Outputs(gens))
  {
    forall g, k | 0 <= g < |gens| && 0 <= k < |gens[g].files|
      ensures Outputs(gens)[g].envs[k] == "params_" + Decimal(Before(gens, g) + k) + ".env"
    {
      OutputIs(gens, g, k);
    }
  }

  lemma OutputIs(gens: seq<Generator>, g: nat, k: nat)
    requires g < |gens| && k < |gens[g].files|
    ensures Outputs(gens)[g].envs[k] == "params_" + Decimal(Before(gens, g) + k) + ".env"
  {
    OffsetIs(gens, g);
    EnvIs(gens, g, k);
  }

  /** The locations all generators read, in copying order. */
  function AllLocations(cwd: Location, gens: seq<Generator>): (r: seq<Location>)
    ensures |r| == |AllFiles(gens)|
  {
    Locations(cwd, AllFiles(gens))
  }

  /**
    Of what is written: the k-th env file of a generator holds the content of its k-th source file,
    for every source that is not itself the place of an earlier copy.
   */
  lemma AllocationIsLossless(disk: Disk, cwd: Location, dir: string, gens: seq<Generator>, g: nat, k: nat)
    requires CopyAll(disk, Resolve(cwd, dir), AllLocations(cwd, gens)).Some?
    requires g < |gens| && k < |gens[g].files|
    requires !IsPlaceBelow(Resolve(cwd, dir), Offset(gens, g) + k, Resolve(cwd, gens[g].files[k]))
    ensures var after := CopyAll(disk, Resolve(cwd, dir), AllLocations(cwd, gens)).value;
            && |Outputs(gens)[g].envs| == |gens[g].files|
            && Resolve(cwd, gens[g].files[k]) in disk
            && Resolve(cwd, Join(dir, Outputs(gens)[g].envs[k])) in after
            && after[Resolve(cwd, Join(dir, Outputs(gens)[g].envs[k]))] == disk[Resolve(cwd, gens[g].files[k])]
  {
    FileAt(gens, g, k);
    EnvIs(gens, g, k);
    TargetLeads(cwd, dir, Offset(gens, g) + k);
    OwnOriginal(disk, Resolve(cwd, dir), AllLocations(cwd, gens), Offset(gens, g) + k);
  }

  lemma AllocationIsInjective(gens: seq<Generator>, g: nat, k: nat, g': nat, k': nat)
    requires g < |gens| && k < |gens[g].files| && g' < |gens| && k' < |gens[g'].files|
    ensures Outputs(gens)[g].envs[k] == Outputs(gens)[g'].envs[k'] <==> g == g' && k == k'
  {
    EnvIs(gens, g, k);
    EnvIs(gens, g', k');
    if g == g' {
      if k != k' {
        NamesDiffer(Offset(gens, g) + k, Offset(gens, g) + k');
      }
    } else {
      var a, b, i := if g < g' then g else g', if g < g' then g' else g, if g < g' then k else k';
      FileAt(gens[..b], a, i);
      assert gens[..b][..a] == gens[..a];
      NamesDiffer(Offset(gens, g) + k, Offset(gens, g') + k');
    }
  }

  // ---------------------------------------------------------------- the loops as written

  class Generation {
    var disk: Disk

    constructor (disk: Disk)
      ensures this.disk == disk
    {
      this.disk := disk;
    }

    /** Writes the generators; None stands for a failed copy. */
    method WriteGenerators(cwd: Location, appTestDir: string, generators: seq<Generator>) returns (r: Option<seq<Output>>)
      modifies this
      ensures r.Some? <==> CopyAll(old(disk), Resolve(cwd, appTestDir), AllLocations(cwd, generators)).Some?
      ensures r.Some? ==> Some(disk) == CopyAll(old(disk), Resolve(cwd, appTestDir), AllLocations(cwd, generators))
      ensures r.Some? ==> r.value == Outputs(generators) && AreOutputs(generators, r.value)
    {
      OutputsAre(generators);
      var paramsIndex := 0;
      var configMapGenerator: seq<Output> := [];
      for i := 0 to |generators|
        invariant paramsIndex == Offset(generators, i)
        invariant CopyAll(old(disk), Resolve(cwd, appTestDir), AllLocations(cwd, generators[..i])) == Some(disk)
        invariant configMapGenerator == Outputs(generators)[..i]
      {
        ghost var done := AllLocations(cwd, generators[..i]);
        NextFiles(cwd, generators, i);
        var envs := CopyFiles(cwd, appTestDir, old(disk), done, generators[i].files, paramsIndex);
        if envs.None? {
          AllLocationsPrefix(cwd, generators, i + 1);
          FailureStays(old(disk), Resolve(cwd, appTestDir), AllLocations(cwd, generators), |AllLocations(cwd, generators[..i + 1])|);
          return None;
        }
        paramsIndex := paramsIndex + |generators[i].files|;
        configMapGenerator := configMapGenerator + [Output(generators[i].name, envs.value, "merge")];
      }
      assert generators[..|generators|] == generators;
      return Some(configMapGenerator);
    }

    /** The inner loop, after the files in `done` have been copied. */
    method CopyFiles(cwd: Location, appTestDir: string, ghost start: Disk, ghost done: seq<Location>, files: seq<string>, paramsIndex: nat)
        returns (envs: Option<seq<string>>)
      requires CopyAll(start, Resolve(cwd, appTestDir), done) == Some(disk) && paramsIndex == |done|
      modifies this
      ensures envs.Some? <==> CopyAll(start, Resolve(cwd, appTestDir), done + Locations(cwd, files)).Some?
      ensures envs.Some? ==> Some(disk) == CopyAll(start, Resolve(cwd, appTestDir), done + Locations(cwd, files))
      ensures envs.Some? ==> envs.value == ParamNames(|done|, |files|)
    {
      var names: seq<string> := [];
      assert done + Locations(cwd, files[..0]) == done;
      for j := 0 to |files|
        invariant names == ParamNames(|done|, j)
        invariant CopyAll(start, Resolve(cwd, appTestDir), done + Locations(cwd, files[..j])) == Some(disk)
      {
        var pfile := ParamName(paramsIndex + j);
        names := names + [pfile];
        NextName(|done|, j);
        CopyNext(start, cwd, Resolve(cwd, appTestDir), done, files, j);
        TargetLeads(cwd, appTestDir, paramsIndex + j);
        var copied := Copy(disk, Resolve(cwd, files[j]), Resolve(cwd, Join(appTestDir, pfile)));
        if copied.None? {
          FailureStays(start, Resolve(cwd, appTestDir), done + Locations(cwd, files), |done| + j + 1);
          return None;
        }
        disk := copied.value;
      }
      assert files[..|files|] == files;
      return Some(names);
    }
  }

  lemma NextFiles(cwd: Location, gens: seq<Generator>, i: nat)
    requires i < |gens|
    ensures AllLocations(cwd, gens[..i + 1]) == AllLocations(cwd, gens[..i]) + Locations(cwd, gens[i].files)
    ensures Offset(gens, i + 1) == Offset(gens, i) + |gens[i].files|
    ensures Outputs(gens)[..i + 1]
            == Outputs(gens)[..i] + [Output(gens[i].name, ParamNames(Offset(gens, i), |gens[i].files|), "merge")]
  {
    assert gens[..i + 1][..i] == gens[..i];
    assert AllFiles(gens[..i + 1]) == AllFiles(gens[..i]) + gens[i].files;
    LocationsAppend(cwd, AllFiles(gens[..i]), gens[i].files);
  }

  lemma LocationsAppend(cwd: Location, a: seq<string>, b: seq<string>)
    ensures Locations(cwd, a + b) == Locations(cwd, a) + Locations(cwd, b)
  {
    forall i | 0 <= i < |a + b|
      ensures Locations(cwd, a + b)[i] == (Locations(cwd, a) + Locations(cwd, b))[i]
    {
      assert (a + b)[i] == if i < |a| then a[i] else b[i - |a|];
    }
  }

  lemma NextName(from: nat, n: nat)
    ensures ParamNames(from, n + 1) == ParamNames(from, n) + [ParamName(from + n)]
  {
  }

  lemma CopyNext(disk: Disk, cwd: Location, dir: Location, done: seq<Location>, files: seq<string>, j: nat)
    requires j < |files| && CopyAll(disk, dir, done + Locations(cwd, files[..j])).Some?
    ensures CopyAll(disk, dir, done + Locations(cwd, files[..j + 1]))
            == Copy(CopyAll(disk, dir, done + Locations(cwd, files[..j])).value, Resolve(cwd, files[j]), Place(dir, |done| + j))
    ensures (done + Locations(cwd, files))[..|done| + j + 1] == done + Locations(cwd, files[..j + 1])
  {
    var all := done + Locations(cwd, files[..j + 1]);
    assert all[..|done| + j] == done + Locations(cwd, files[..j]);
    assert all[|done| + j] == Resolve(cwd, files[j]);
  }

  lemma {:induction false} FailureStays(disk: Disk, dir: Location, sources: seq<Location>, n: nat)
    requires n <= |sources| && CopyAll(disk, dir, sources[..n]).None?
    ensures CopyAll(disk, dir, sources).None?
    decreases |sources|
  {
    if n < |sources| {
      assert sources[..|sources| - 1][..n] == sources[..n];
      FailureStays(disk, dir, sources[..|sources| - 1], n);
    } else {
      assert sources[..n] == sources;
    }
  }

  lemma {:induction false} AllFilesPrefix(gens: seq<Generator>, g: nat)
    requires g <= |gens|
    ensures AllFiles(gens[..g]) <= AllFiles(gens)
    ensures AllFiles(gens)[..|AllFiles(gens[..g])|] == AllFiles(gens[..g])
    decreases |gens|
  {
    if g < |gens| {
      assert gens[..|gens| - 1][..g] == gens[..g];
      AllFilesPrefix(gens[..|gens| - 1], g);
    } else {
      assert gens[..g] == gens;
    }
  }

  lemma AllLocationsPrefix(cwd: Location, gens: seq<Generator>, g: nat)
    requires g <= |gens|
    ensures |AllLocations(cwd, gens[..g])| <= |AllLocations(cwd, gens)|
    ensures AllLocations(cwd, gens)[..|AllLocations(cwd, gens[..g])|] == AllLocations(cwd, gens[..g])
  {
    AllFilesPrefix(gens, g);
    var a, b := AllFiles(gens[..g]), AllFiles(gens);
    assert forall i :: 0 <= i < |a| ==> a[i] == b[i];
  }
}
