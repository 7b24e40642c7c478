/**
  tests/scripts/extract_images.py: keeping the `images` list of a kustomization up to date with
  the images of its resources.
 */
module ImageList {
  import opened Wrappers
  import opened ImageReference

  /** One dict of the `images` list. */
  type Entry = map<string, string>

  const NAME := "name"
  const NEW_NAME := "newName"
  const NEW_TAG := "newTag"
  const DIGEST := "digest"

  function Default(e: Entry, key: string, value: string): Entry {
    if key in e || value == "" then e else e[key := value]
  }

  /** The fields an existing entry of that name lacks, taken from the image. */
  function Fill(e: Entry, img: Image): Entry {
    var named := if NEW_NAME in e then e else e[NEW_NAME := img.name];
    Default(Default(named, NEW_TAG, img.tag), DIGEST, img.digest)
  }

  /** The list after one image, or None for the KeyError of an entry without a name. */
  function Update(list: seq<Entry>, img: Image): Option<seq<Entry>> {
    if list == [] then Some([Fill(map[NAME := img.name], img)])
    else if NAME !in list[0] then None
    else if list[0][NAME] == img.name then Some([Fill(list[0], img)] + list[1..])
    else
      match Update(list[1..], img)
      case None => None
      case Some(rest) => Some([list[0]] + rest)
  }

  function Fold(list: seq<Entry>, imgs: seq<Image>): Option<seq<Entry>>
    decreases |imgs|
  {
    if imgs == [] then Some(list)
    else
      match Update(list, imgs[0])
      case None => None
      case Some(next) => Fold(next, imgs[1..])
  }

  predicate HasName(e: Entry, n: string) {
    "name" in e && e["name"] == n
  }

  /** The first entry of a name. */
  function Record(list: seq<Entry>, n: string): Option<Entry> {
    if list == [] then None else if HasName(list[0], n) then Some(list[0]) else Record(list[1..], n)
  }

  // ---------------------------------------------------------------- one image

  ghost predicate Extends(e: Entry, f: Entry) {
    forall k :: k in e ==> k in f && f[k] == e[k]
  }

  /** What one update may do: extend entries in place and append one entry of a new name. */
  ghost predicate Grows(list: seq<Entry>, next: seq<Entry>) {
    && |list| <= |next|
    && (forall i :: 0 <= i < |list| ==> Extends(list[i], next[i]) && (NAME in next[i] ==> NAME in list[i]))
    && (forall j :: |list| <= j < |next| ==> NAME in next[j])
    && (forall i, j :: 0 <= i < j && |list| <= j < |next| ==> !HasName(next[i], next[j][NAME]))
  }

  /** A nameless entry stands before every entry of the name. */
  ghost predicate Blocked(list: seq<Entry>, n: string) {
    exists i :: 0 <= i < |list| && NAME !in list[i] && forall j :: 0 <= j < i ==> !HasName(list[j], n)
  }

  /** The KeyError of one image occurs exactly when its name is blocked. */
  lemma {:induction false} UpdateFails(list: seq<Entry>, img: Image)
    ensures Update(list, img).None? <==> Blocked(list, img.name)
  {
    if list != [] {
      var tail := list[1..];
      UpdateFails(tail, img);
      if Blocked(tail, img.name) && !HasName(list[0], img.name) {
        var i :| 0 <= i < |tail| && NAME !in tail[i] && forall j :: 0 <= j < i ==> !HasName(tail[j], img.name);
        assert NAME !in list[i + 1];
        assert forall j :: 0 <= j < i + 1 ==> j == 0 || list[j] == tail[j - 1];
      }
      if i :| 0 <= i < |list| && NAME !in list[i] && forall j :: 0 <= j < i ==> !HasName(list[j], img.name) {
        if i > 0 {
          assert tail[i - 1] == list[i];
          assert forall j :: 0 <= j < i - 1 ==> tail[j] == list[j + 1];
        }
      }
    }
  }

  lemma {:induction false} UpdateGrows(list: seq<Entry>, img: Image)
    requires Update(list, img).Some?
    ensures Grows(list, Update(list, img).value)
    ensures |Update(list, img).value| == |list| + (if Record(list, img.name).Some? then 0 else 1)
    ensures |Update(list, img).value| > |list| ==> HasName(Update(list, img).value[|list|], img.name)
  {
    var next := Update(list, img).value;
    if list != [] && !HasName(list[0], img.name) {
      var rest := Update(list[1..], img).value;
      UpdateGrows(list[1..], img);
      assert next == [list[0]] + rest;
      GrowsBehind(list[0], list[1..], rest, img.name);
      assert list == [list[0]] + list[1..];
    }
  }

  lemma GrowsBehind(e: Entry, list: seq<Entry>, next: seq<Entry>, n: string)
    requires Grows(list, next) && !HasName(e, n)
    requires forall j :: |list| <= j < |next| ==> HasName(next[j], n)
    ensures Grows([e] + list, [e] + next)
  {
    var a, b := [e] + list, [e] + next;
    assert forall i :: 0 < i < |b| ==> b[i] == next[i - 1];
    assert forall i :: 0 < i < |a| ==> a[i] == list[i - 1];
  }

  function Base(prior: Option<Entry>, n: string): Entry {
    match prior
    case Some(e) => e
    case None => map[NAME := n]
  }

  lemma {:induction false} UpdateRecord(list: seq<Entry>, img: Image, n: string)
    requires Update(list, img).Some?
    ensures Record(Update(list, img).value, n)
            == if n == img.name then Some(Fill(Base(Record(list, n), n), img)) else Record(list, n)
  {
    if list != [] && !HasName(list[0], img.name) {
      UpdateRecord(list[1..], img, n);
      var next := Update(list, img).value;
      assert next[1..] == Update(list[1..], img).value;
    } else if list != [] {
      assert Update(list, img).value[1..] == list[1..];
    }
  }

  // ---------------------------------------------------------------- all images

  /** An update blocks no further name and frees none. */
  lemma BlockedStays(list: seq<Entry>, next: seq<Entry>, n: string)
    requires Grows(list, next)
    ensures Blocked(next, n) <==> Blocked(list, n)
  {
    assert forall i :: 0 <= i < |list| ==> Extends(list[i], next[i]);
    assert forall i :: 0 <= i < |list| ==> (HasName(next[i], n) <==> HasName(list[i], n));
    if i :| 0 <= i < |list| && NAME !in list[i] && forall j :: 0 <= j < i ==> !HasName(list[j], n) {
      assert NAME !in next[i];
    }
  }

  ghost predicate AnyBlocked(list: seq<Entry>, imgs: seq<Image>) {
    exists k :: 0 <= k < |imgs| && Blocked(list, imgs[k].name)
  }

  lemma AnyBlockedFirst(list: seq<Entry>, imgs: seq<Image>)
    requires imgs != []
    ensures AnyBlocked(list, imgs) <==> Blocked(list, imgs[0].name) || AnyBlocked(list, imgs[1..])
  {
    var rest := imgs[1..];
    assert forall k :: 0 <= k < |rest| ==> rest[k] == imgs[k + 1];
    if k :| 0 <= k < |imgs| && Blocked(list, imgs[k].name) {
      assert k > 0 ==> Blocked(list, rest[k - 1].name);
    }
  }

  lemma AnyBlockedStays(list: seq<Entry>, next: seq<Entry>, imgs: seq<Image>)
    requires Grows(list, next)
    ensures AnyBlocked(next, imgs) <==> AnyBlocked(list, imgs)
  {
    forall k | 0 <= k < |imgs|
      ensures Blocked(next, imgs[k].name) <==> Blocked(list, imgs[k].name)
    {
      BlockedStays(list, next, imgs[k].name);
    }
  }

  /** The KeyError of a run over all images occurs exactly when the list as given blocks the name of one of them. */
  lemma {:induction false} FoldFails(list: seq<Entry>, imgs: seq<Image>)
    ensures Fold(list, imgs).None? <==> AnyBlocked(list, imgs)
    decreases |imgs|
  {
    if imgs != [] {
      UpdateFails(list, imgs[0]);
      AnyBlockedFirst(list, imgs);
      if Update(list, imgs[0]).Some? {
        var next := Update(list, imgs[0]).value;
        UpdateGrows(list, imgs[0]);
        FoldFails(next, imgs[1..]);
        AnyBlockedStays(list, next, imgs[1..]);
      }
    }
  }

  /** A list whose entries all have names takes any images. */
  lemma FoldSucceeds(list: seq<Entry>, imgs: seq<Image>)
    requires forall e :: e in list ==> NAME in e
    ensures Fold(list, imgs).Some?
  {
    FoldFails(list, imgs);
  }

  lemma GrowsTwice(a: seq<Entry>, b: seq<Entry>, c: seq<Entry>)
    requires Grows(a, b) && Grows(b, c)
    ensures Grows(a, c)
  {
    forall i, j | 0 <= i < j && |a| <= j < |c|
      ensures NAME in c[j] && !HasName(c[i], c[j][NAME])
    {
      if j < |b| {
        assert NAME in b[j];
        assert !HasName(b[i], b[j][NAME]);
        assert Extends(b[i], c[i]) && Extends(b[j], c[j]);
      }
    }
    forall i | 0 <= i < |a|
      ensures Extends(a[i], c[i]) && (NAME in c[i] ==> NAME in a[i])
    {
      assert Extends(a[i], b[i]) && Extends(b[i], c[i]);
    }
  }

  /** Prior entries keep their place and every field they had; new entries follow, one per new name. */
  lemma {:induction false} FoldGrows(list: seq<Entry>, imgs: seq<Image>)
    requires Fold(list, imgs).Some?
    ensures Grows(list, Fold(list, imgs).value)
    decreases |imgs|
  {
    if imgs != [] {
      var next := Update(list, imgs[0]).value;
      UpdateGrows(list, imgs[0]);
      FoldGrows(next, imgs[1..]);
      GrowsTwice(list, next, Fold(list, imgs).value);
    }
  }

  ghost predicate DistinctNames(list: seq<Entry>) {
    && (forall i :: 0 <= i < |list| ==> NAME in list[i])
    && (forall i, j :: 0 <= i < j < |list| ==> list[i][NAME] != list[j][NAME])
  }

  /** Distinct names stay distinct. */
  lemma DistinctNamesStay(list: seq<Entry>, imgs: seq<Image>)
    requires DistinctNames(list)
    ensures Fold(list, imgs).Some? && DistinctNames(Fold(list, imgs).value)
  {
    FoldSucceeds(list, imgs);
    FoldGrows(list, imgs);
    var next := Fold(list, imgs).value;
    assert forall i :: 0 <= i < |list| ==> Extends(list[i], next[i]);
    forall i, j | 0 <= i < j < |next|
      ensures next[i][NAME] != next[j][NAME]
    {
      if |list| <= j {
        assert !HasName(next[i], next[j][NAME]);
      } else {
        assert Extends(list[i], next[i]) && Extends(list[j], next[j]);
      }
    }
  }

  function OfName(imgs: seq<Image>, n: string): seq<Image> {
    if imgs == [] then [] else (if imgs[0].name == n then [imgs[0]] else []) + OfName(imgs[1..], n)
  }

  function FirstTag(imgs: seq<Image>): (r: string)
    ensures r == "" <==> forall i :: 0 <= i < |imgs| ==> imgs[i].tag == ""
    ensures r != "" ==> exists i :: 0 <= i < |imgs| && imgs[i].tag == r && forall j :: 0 <= j < i ==> imgs[j].tag == ""
  {
    if imgs == [] then "" else if imgs[0].tag != "" then imgs[0].tag else FirstTag(imgs[1..])
  }

  function FirstDigest(imgs: seq<Image>): (r: string)
    ensures r == "" <==> forall i :: 0 <= i < |imgs| ==> imgs[i].digest == ""
    ensures r != "" ==> exists i :: 0 <= i < |imgs| && imgs[i].digest == r && forall j :: 0 <= j < i ==> imgs[j].digest == ""
  {
    if imgs == [] then "" else if imgs[0].digest != "" then imgs[0].digest else FirstDigest(imgs[1..])
  }

  /** An entry completed from all images of its name: the first non-empty tag and digest fill its gaps. */
  function Completed(e: Entry, n: string, imgs: seq<Image>): Entry {
    Fill(e, Image(n, FirstTag(imgs), FirstDigest(imgs)))
  }

  lemma CompletedStep(e: Entry, n: string, img: Image, rest: seq<Image>)
    requires img.name == n
    ensures Completed(e, n, [img] + rest) == if rest == [] then Fill(e, img) else Completed(Fill(e, img), n, rest)
  {
    assert ([img] + rest)[1..] == rest;
    KeysDiffer();
    var whole := Image(n, FirstTag([img] + rest), FirstDigest([img] + rest));
    if rest == [] {
      assert FirstTag(rest) == "" && FirstDigest(rest) == "";
      assert whole == img;
    } else {
      FillTwice(e, img, Image(n, FirstTag(rest), FirstDigest(rest)));
    }
  }

  lemma FillTwice(e: Entry, a: Image, b: Image)
    requires a.name == b.name
    ensures Fill(Fill(e, a), b)
            == Fill(e, Image(a.name, if a.tag != "" then a.tag else b.tag, if a.digest != "" then a.digest else b.digest))
  {
    KeysDiffer();
  }

  /**
    Records of different names are independent: the first entry of a name is completed from
    its prior entry and from the images of that name alone.
   */
  lemma {:induction false} FoldRecord(list: seq<Entry>, imgs: seq<Image>, n: string)
    requires Fold(list, imgs).Some?
    ensures var mine := OfName(imgs, n);
            Record(Fold(list, imgs).value, n)
            == if mine == [] then Record(list, n) else Some(Completed(Base(Record(list, n), n), n, mine))
    decreases |imgs|
  {
    if imgs != [] {
      var img, rest := imgs[0], OfName(imgs[1..], n);
      var next := Update(list, img).value;
      UpdateRecord(list, img, n);
      FoldRecord(next, imgs[1..], n);
      if img.name == n {
        CompletedStep(Base(Record(list, n), n), n, img, rest);
      } else {
        assert OfName(imgs, n) == rest;
      }
    }
  }

  /** The value of a field: the prior one, else the given one unless that is empty. */
  ghost predicate IsField(e: Entry, prior: Option<Entry>, key: string, given: string) {
    if prior.Some? && key in prior.value then key in e && e[key] == prior.value[key]
    else if given != "" then key in e && e[key] == given
    else key !in e
  }

  /** A record of a name, completed with a tag and a digest. */
  ghost predicate IsRecord(e: Entry, prior: Option<Entry>, n: string, tag: string, digest: string) {
    && HasName(e, n)
    && "newName" in e && e["newName"] == (if prior.Some? && "newName" in prior.value then prior.value["newName"] else n)
    && IsField(e, prior, "newTag", tag)
    && IsField(e, prior, "digest", digest)
    && forall k :: k !in {"name", "newName", "newTag", "digest"} ==> IsField(e, prior, k, "")
  }

  lemma FilledRecord(prior: Option<Entry>, n: string, tag: string, digest: string)
    requires prior.Some? ==> HasName(prior.value, n)
    ensures IsRecord(Fill(Base(prior, n), Image(n, tag, digest)), prior, n, tag, digest)
  {
    KeysDiffer();
  }

  /** The record of a name that has images, field by field. */
  lemma RecordFields(list: seq<Entry>, imgs: seq<Image>, n: string)
    requires Fold(list, imgs).Some? && OfName(imgs, n) != []
    ensures var r, mine := Record(Fold(list, imgs).value, n), OfName(imgs, n);
            r.Some? && IsRecord(r.value, Record(list, n), n, FirstTag(mine), FirstDigest(mine))
  {
    FoldRecord(list, imgs, n);
    RecordHasName(list, n);
    FilledRecord(Record(list, n), n, FirstTag(OfName(imgs, n)), FirstDigest(OfName(imgs, n)));
  }

  lemma KeysDiffer()
    ensures NAME != NEW_NAME && NAME != NEW_TAG && NAME != DIGEST
    ensures NEW_NAME != NEW_TAG && NEW_NAME != DIGEST && NEW_TAG != DIGEST
  {
    assert |NAME| == 4 && |NEW_NAME| == 7 && |NEW_TAG| == 6 && |DIGEST| == 6 && NEW_TAG[0] != DIGEST[0];
  }

  lemma {:induction false} RecordHasName(list: seq<Entry>, n: string)
    ensures Record(list, n).Some? ==> HasName(Record(list, n).value, n)
  {
    if list != [] && !HasName(list[0], n) {
      RecordHasName(list[1..], n);
    }
  }

  // ---------------------------------------------------------------- scanning again

  lemma {:induction false} UpdateSettles(list: seq<Entry>, img: Image)
    requires Update(list, img).Some?
    ensures var next := Update(list, img).value; Update(next, img) == Some(next)
  {
    var next := Update(list, img).value;
    if list != [] && !HasName(list[0], img.name) {
      UpdateSettles(list[1..], img);
      assert next[1..] == Update(list[1..], img).value;
    } else {
      assert next == [next[0]] + next[1..];
    }
  }

  lemma {:induction false} SettledStays(list: seq<Entry>, img: Image, other: Image)
    requires Update(list, img) == Some(list) && Update(list, other).Some?
    ensures var next := Update(list, other).value; Update(next, img) == Some(next)
  {
    if list != [] {
      var next := Update(list, other).value;
      if HasName(list[0], img.name) {
        assert Update(list, img).value[0] == Fill(list[0], img);
        assert next == [next[0]] + next[1..];
      } else {
        var rest := list[1..];
        assert Update(list, img).value[1..] == Update(rest, img).value;
        if !HasName(list[0], other.name) {
          SettledStays(rest, img, other);
          assert next[1..] == Update(rest, other).value;
        } else {
          assert next[1..] == rest;
        }
      }
    }
  }

  lemma {:induction false} FoldSettles(list: seq<Entry>, imgs: seq<Image>, img: Image)
    requires Fold(list, imgs).Some?
    requires img in imgs || Update(list, img) == Some(list)
    ensures var final := Fold(list, imgs).value; Update(final, img) == Some(final)
    decreases |imgs|
  {
    if imgs != [] {
      var next := Update(list, imgs[0]).value;
      if img == imgs[0] {
        UpdateSettles(list, img);
      } else if img !in imgs[1..] {
        SettledStays(list, img, imgs[0]);
      }
      FoldSettles(next, imgs[1..], img);
    }
  }

  lemma {:induction false} FoldOfSettled(list: seq<Entry>, imgs: seq<Image>)
    requires forall img :: img in imgs ==> Update(list, img) == Some(list)
    ensures Fold(list, imgs) == Some(list)
    decreases |imgs|
  {
    if imgs != [] {
      assert imgs[0] in imgs;
      FoldOfSettled(list, imgs[1..]);
    }
  }

  /** Scanning the same resources again, or any part of them in any order, changes nothing. */
  lemma RescanIsNoOp(list: seq<Entry>, imgs: seq<Image>, again: seq<Image>)
    requires Fold(list, imgs).Some?
    requires forall img :: img in again ==> img in imgs
    ensures Fold(Fold(list, imgs).value, again) == Fold(list, imgs)
  {
    forall img | img in again
      ensures Update(Fold(list, imgs).value, img) == Some(Fold(list, imgs).value)
    {
      FoldSettles(list, imgs, img);
    }
    FoldOfSettled(Fold(list, imgs).value, again);
  }

  // ---------------------------------------------------------------- the scan

  /** A loaded YAML value. */
  datatype Yaml =
    | Null
    | Scalar
    | Str(s: string)
    | Seq(items: seq<Yaml>)
    | Map(fields: map<string, Yaml>)

  /** Subscripting: a value, a KeyError, or the TypeError of a value that has no string keys. */
  datatype Subscript = Got(v: Yaml) | MissingKey | BadType

  function Get(v: Subscript, key: string): Subscript {
    match v
    case Got(Map(fields)) => if key in fields then Got(fields[key]) else MissingKey
    case Got(_) => BadType
    case _ => v
  }

  function LowerChar(c: char): char {
    if 'A' <= c <= 'Z' then c - 'A' + 'a' else c
  }

  function Lower(s: string): (r: string)
    ensures |r| == |s|
  {
    seq(|s|, i requires 0 <= i < |s| => LowerChar(s[i]))
  }

  const ACCEPTED_KINDS := ["statefulset", "deployment", "daemonSet", "replicaset", "job", "cronjob"]

  /** What scanning yields: image references in order, or an uncaught error. */
  datatype Scan = Images(refs: seq<string>) | Raised

  function Append(a: Scan, b: Scan): Scan {
    if a.Raised? || b.Raised? then Raised else Images(a.refs + b.refs)
  }

  function ContainerImage(c: Yaml): Scan {
    match Get(Got(c), "image")
    case MissingKey => Images([])
    case BadType => Raised
    case Got(v) => if v.Str? then Images([v.s]) else Raised
  }

  function ContainersImages(cs: seq<Yaml>): Scan {
    if cs == [] then Images([]) else Append(ContainersImages(cs[..|cs| - 1]), ContainerImage(cs[|cs| - 1]))
  }

  function Containers(r: Yaml): Subscript {
    Get(Get(Get(Get(Got(r), "spec"), "template"), "spec"), "containers")
  }

  /** The images of one resource; only mappings of an accepted kind are looked into. */
  function ResourceImages(r: Yaml): Scan {
    if !r.Map? then Images([])
    else
      var kind := if "kind" in r.fields then r.fields["kind"] else Str("");
      if !kind.Str? then Raised
      else if Lower(kind.s) !in ACCEPTED_KINDS then Images([])
      else
        match Containers(r)
        case MissingKey => Images([])
        case BadType => Raised
        case Got(Seq(items)) => ContainersImages(items)
        case Got(Map(fields)) => if fields == map[] then Images([]) else Raised
        case Got(Str(s)) => if s == "" then Images([]) else Raised
        case Got(_) => Raised
  }

  function ResourcesImages(rs: seq<Yaml>): Scan {
    if rs == [] then Images([]) else Append(ResourcesImages(rs[..|rs| - 1]), ResourceImages(rs[|rs| - 1]))
  }

  function Parsed(refs: seq<string>): seq<Image> {
    if refs == [] then [] else Parsed(refs[..|refs| - 1]) + [ImageFromString(refs[|refs| - 1])]
  }

  /** The `daemonSet` of the accepted kinds is never a lower-cased kind, so no DaemonSet is scanned. */
  lemma DaemonSetsAreSkipped(kind: string)
    ensures Lower(kind) != "daemonSet"
    ensures Lower(kind) in ACCEPTED_KINDS
            <==> Lower(kind) in ["statefulset", "deployment", "replicaset", "job", "cronjob"]
    ensures Lower(kind) == "daemonset" ==> Lower(kind) !in ACCEPTED_KINDS
  {
    assert "daemonSet"[6] == 'S';
    if |kind| == 9 {
      assert Lower(kind)[6] == LowerChar(kind[6]) != 'S';
    }
    assert "daemonset"[0] == 'd' && "daemonset"[1] == 'a';
  }

  lemma FoldAppend(list: seq<Entry>, a: seq<Image>, b: seq<Image>)
    ensures Fold(list, a + b) == match Fold(list, a) case None => None case Some(next) => Fold(next, b)
    decreases |a|
  {
    if a == [] {
      assert a + b == b;
    } else {
      assert (a + b)[0] == a[0] && (a + b)[1..] == a[1..] + b;
      match Update(list, a[0])
      case None =>
      case Some(next) => FoldAppend(next, a[1..], b);
    }
  }

  /** The list after the images of a scan, or None when anything raises. */
  function Absorb(list: seq<Entry>, scan: Scan): Option<seq<Entry>> {
    if scan.Raised? then None else Fold(list, Parsed(scan.refs))
  }

  lemma AbsorbAppend(list: seq<Entry>, a: Scan, b: Scan)
    ensures Absorb(list, Append(a, b))
            == match Absorb(list, a) case None => None case Some(next) => Absorb(next, b)
  {
    if a.Images? && b.Images? {
      ParsedAppend(a.refs, b.refs);
      FoldAppend(list, Parsed(a.refs), Parsed(b.refs));
    }
  }

  lemma {:induction false} ParsedAppend(a: seq<string>, b: seq<string>)
    ensures Parsed(a + b) == Parsed(a) + Parsed(b)
    decreases |b|
  {
    if b == [] {
      assert a + b == a;
    } else {
      var front := b[..|b| - 1];
      assert (a + b)[..|a + b| - 1] == a + front;
      ParsedAppend(a, front);
    }
  }

  // ---------------------------------------------------------------- where the images are

  /** The mapping under a key of a mapping. */
  predicate HasMap(v: Yaml, key: string) {
    v.Map? && key in v.fields && v.fields[key].Map?
  }

  /** A mapping of one of the five kinds, however its letters are cased. */
  predicate IsWorkload(r: Yaml) {
    && r.Map? && "kind" in r.fields && r.fields["kind"].Str?
    && Lower(r.fields["kind"].s) in {"statefulset", "deployment", "replicaset", "job", "cronjob"}
  }

  /** The way `spec.template.spec` through mappings. */
  predicate HasPodSpec(r: Yaml) {
    && HasMap(r, "spec")
    && HasMap(r.fields["spec"], "template")
    && HasMap(r.fields["spec"].fields["template"], "spec")
  }

  /** The value under `spec.template.spec.containers`. */
  predicate HoldsContainers(r: Yaml, v: Yaml) {
    && HasPodSpec(r)
    && var podSpec := r.fields["spec"].fields["template"].fields["spec"].fields;
       "containers" in podSpec && podSpec["containers"] == v
  }

  /** One of the four keys is missing, and up to it the way goes through mappings. */
  predicate LacksContainers(r: Yaml) {
    || (r.Map? && "spec" !in r.fields)
    || (HasMap(r, "spec") && "template" !in r.fields["spec"].fields)
    || (HasMap(r, "spec") && HasMap(r.fields["spec"], "template") && "spec" !in r.fields["spec"].fields["template"].fields)
    || (HasPodSpec(r) && "containers" !in r.fields["spec"].fields["template"].fields["spec"].fields)
  }

  /** Mappings whose image, where they have one, is text. */
  predicate AreContainers(cs: seq<Yaml>) {
    forall i :: 0 <= i < |cs| ==> IsContainer(cs[i])
  }

  predicate IsContainer(c: Yaml) {
    c.Map? && ("image" in c.fields ==> c.fields["image"].Str?)
  }

  /** The images of the mappings that have one, in order. */
  function ImageTexts(cs: seq<Yaml>): seq<string>
    requires AreContainers(cs)
  {
    if cs == [] then []
    else
      assert forall i :: 0 <= i < |cs[1..]| ==> cs[1..][i] == cs[i + 1];
      if "image" in cs[0].fields then [cs[0].fields["image"].s] + ImageTexts(cs[1..]) else ImageTexts(cs[1..])
  }

  /** Lower-casing moves the 26 capital letters and nothing else. */
  lemma LowerLetters(s: string, i: nat)
    requires i < |s|
    ensures if 65 <= s[i] as int <= 90 then Lower(s)[i] as int == s[i] as int + 32 else Lower(s)[i] == s[i]
  {
  }

  /** Kinds as they are written in manifests. */
  lemma CamelCaseKinds()
    ensures Lower("StatefulSet") == "statefulset" && Lower("Deployment") == "deployment"
    ensures Lower("ReplicaSet") == "replicaset" && Lower("Job") == "job" && Lower("CronJob") == "cronjob"
    ensures Lower("DaemonSet") == "daemonset"
  {
  }

  lemma {:induction false} ContainersGiveTexts(cs: seq<Yaml>)
    requires AreContainers(cs)
    ensures ContainersImages(cs) == Images(ImageTexts(cs))
    decreases |cs|
  {
    if cs != [] {
      var n := |cs| - 1;
      ContainersGiveTexts(cs[..n]);
      TextsAppend(cs[..n], cs[n]);
      assert cs == cs[..n] + [cs[n]];
    }
  }

  lemma {:induction false} TextsAppend(cs: seq<Yaml>, c: Yaml)
    requires AreContainers(cs) && IsContainer(c)
    ensures AreContainers(cs + [c])
    ensures ImageTexts(cs + [c]) == ImageTexts(cs) + if "image" in c.fields then [c.fields["image"].s] else []
    decreases |cs|
  {
    if cs == [] {
      assert cs + [c] == [c] && [c][1..] == [];
    } else {
      assert (cs + [c])[1..] == cs[1..] + [c];
      TextsAppend(cs[1..], c);
    }
  }

  /** A workload with a list of containers gives exactly their images, in order. */
  lemma WorkloadImages(r: Yaml, cs: seq<Yaml>)
    requires IsWorkload(r) && HoldsContainers(r, Seq(cs)) && AreContainers(cs)
    ensures ResourceImages(r) == Images(ImageTexts(cs))
  {
    ContainersGiveTexts(cs);
    DaemonSetsAreSkipped(r.fields["kind"].s);
  }

  /** Anything but a mapping, another kind or none, and a missing key give nothing. */
  lemma OthersGiveNothing(r: Yaml)
    requires || !r.Map?
             || "kind" !in r.fields
             || (r.fields["kind"].Str? && (!IsWorkload(r) || LacksContainers(r)))
    ensures ResourceImages(r) == Images([])
  {
    if r.Map? && "kind" in r.fields && r.fields["kind"].Str? {
      DaemonSetsAreSkipped(r.fields["kind"].s);
    }
    if r.Map? && "kind" !in r.fields {
      assert |Lower("")| == 0;
    }
  }

  /** The way that leads through something else than mappings, or a container that is none, is an error. */
  lemma BrokenWorkloadsRaise(r: Yaml)
    requires IsWorkload(r) && !LacksContainers(r)
    ensures !HasPodSpec(r) ==> ResourceImages(r) == Raised
    ensures forall cs: seq<Yaml> :: HoldsContainers(r, Seq(cs)) && !AreContainers(cs) ==> ResourceImages(r) == Raised
  {
    DaemonSetsAreSkipped(r.fields["kind"].s);
    forall cs: seq<Yaml> | HoldsContainers(r, Seq(cs)) && !AreContainers(cs)
      ensures ResourceImages(r) == Raised
    {
      var i :| 0 <= i < |cs| && !IsContainer(cs[i]);
      OneRaises(cs, i);
    }
  }

  /** Containers that are no list: an empty mapping or text has none, anything else raises. */
  lemma OddContainers(r: Yaml, v: Yaml)
    requires IsWorkload(r) && HoldsContainers(r, v) && !v.Seq?
    ensures ResourceImages(r) == if v == Map(map[]) || v == Str("") then Images([]) else Raised
  {
    DaemonSetsAreSkipped(r.fields["kind"].s);
  }

  lemma {:induction false} OneRaises(cs: seq<Yaml>, i: nat)
    requires i < |cs| && ContainerImage(cs[i]).Raised?
    ensures ContainersImages(cs).Raised?
    decreases |cs|
  {
    if i < |cs| - 1 {
      assert cs[..|cs| - 1][i] == cs[i];
      OneRaises(cs[..|cs| - 1], i);
    }
  }

  lemma AppendThree(a: Scan, b: Scan, c: Scan)
    ensures Append(Append(a, b), c) == Append(a, Append(b, c))
    ensures Append(Images([]), a) == a == Append(a, Images([]))
  {
    if a.Images? && b.Images? && c.Images? {
      assert a.refs + b.refs + c.refs == a.refs + (b.refs + c.refs);
    }
    if a.Images? {
      assert [] + a.refs == a.refs == a.refs + [];
    }
  }

  lemma LastResource(front: seq<Yaml>, r: Yaml)
    ensures ResourcesImages(front + [r]) == Append(ResourcesImages(front), ResourceImages(r))
  {
    assert (front + [r])[..|front|] == front;
  }

  /** The references of all resources, the first resource first. */
  lemma {:induction false} ResourcesInOrder(a: seq<Yaml>, b: seq<Yaml>)
    ensures ResourcesImages(a + b) == Append(ResourcesImages(a), ResourcesImages(b))
    decreases |b|
  {
    if b == [] {
      assert a + b == a;
      AppendThree(ResourcesImages(a), Images([]), Images([]));
    } else {
      var front, r := b[..|b| - 1], b[|b| - 1];
      ResourcesInOrder(a, front);
      LastResource(a + front, r);
      LastResource(front, r);
      assert a + b == a + front + [r] && b == front + [r];
      AppendThree(ResourcesImages(a), ResourcesImages(front), ResourceImages(r));
    }
  }

  /** An image that the list does not have yet, as it is written down. */
  lemma NewEntryIs(name: string, tag: string, digest: string)
    ensures tag != "" && digest == "" ==>
              Update([], Image(name, tag, digest)) == Some([map["name" := name, "newName" := name, "newTag" := tag]])
    ensures tag == "" && digest != "" ==>
              Update([], Image(name, tag, digest)) == Some([map["name" := name, "newName" := name, "digest" := digest]])
    ensures tag == "" && digest == "" ==>
              Update([], Image(name, tag, digest)) == Some([map["name" := name, "newName" := name]])
  {
    KeysDiffer();
  }

  /** A second scan of the same resources leaves the list of the first unchanged. */
  lemma ScanTwice(list: seq<Entry>, resources: seq<Yaml>)
    requires Absorb(list, ResourcesImages(resources)).Some?
    ensures var once := Absorb(list, ResourcesImages(resources)); Absorb(once.value, ResourcesImages(resources)) == once
  {
    var imgs := Parsed(ResourcesImages(resources).refs);
    RescanIsNoOp(list, imgs, imgs);
  }

  function Prepend(front: seq<Entry>, o: Option<seq<Entry>>): Option<seq<Entry>> {
    match o
    case None => None
    case Some(rest) => Some(front + rest)
  }

  lemma PrependNothing(o: Option<seq<Entry>>)
    ensures Prepend([], o) == o
  {
    if o.Some? {
      assert [] + o.value == o.value;
    }
  }

  lemma UpdateLater(list: seq<Entry>, i: nat, img: Image)
    requires i < |list| && NAME in list[i] && list[i][NAME] != img.name
    ensures Prepend(list[..i], Update(list[i..], img)) == Prepend(list[..i + 1], Update(list[i + 1..], img))
  {
    assert list[i..][1..] == list[i + 1..];
    var tail := Update(list[i + 1..], img);
    if tail.Some? {
      assert list[..i] + ([list[i]] + tail.value) == list[..i + 1] + tail.value;
    }
  }

  /** Two ways to write down the filled entry. */
  lemma FillByKeys(e: Entry, img: Image, filled: Entry)
    requires forall k :: k != NEW_NAME && k != NEW_TAG && k != DIGEST ==>
               (k in filled <==> k in e) && (k in e ==> filled[k] == e[k])
    requires NEW_NAME in filled && filled[NEW_NAME] == (if NEW_NAME in e then e[NEW_NAME] else img.name)
    requires NEW_TAG in filled <==> NEW_TAG in e || img.tag != ""
    requires NEW_TAG in filled ==> filled[NEW_TAG] == if NEW_TAG in e then e[NEW_TAG] else img.tag
    requires DIGEST in filled <==> DIGEST in e || img.digest != ""
    requires DIGEST in filled ==> filled[DIGEST] == if DIGEST in e then e[DIGEST] else img.digest
    ensures filled == Fill(e, img)
  {
    KeysDiffer();
  }

  /** The `images` list of one kustomization, updated in place. */
  class KustomizationImages {
    var imgList: seq<Entry>

    constructor (initial: seq<Entry>)
      ensures imgList == initial
    {
      imgList := initial;
    }

    /** Returns false for a KeyError, which leaves the list as it was. */
    method AppendOrUpdate(newImg: Image) returns (ok: bool)
      modifies this
      ensures ok <==> Update(old(imgList), newImg).Some?
      ensures imgList == if ok then Update(old(imgList), newImg).value else old(imgList)
    {
      var i := 0;
      PrependNothing(Update(imgList, newImg));
      assert imgList[0..] == imgList && imgList[..0] == [];
      while i < |imgList|
        invariant 0 <= i <= |imgList| && imgList == old(imgList)
        invariant Update(imgList, newImg) == Prepend(imgList[..i], Update(imgList[i..], newImg))
      {
        var img := imgList[i];
        if NAME !in img {
          return false;
        }
        if img[NAME] == newImg.name {
          assert imgList[i..][1..] == imgList[i + 1..];
          assert imgList[..i] + ([Fill(img, newImg)] + imgList[i + 1..]) == imgList[i := Fill(img, newImg)];
          img := img[NEW_NAME := if NEW_NAME in img then img[NEW_NAME] else newImg.name];
          var tag := if NEW_TAG in img then img[NEW_TAG] else newImg.tag;
          if tag != "" {
            img := img[NEW_TAG := tag];
          }
          var digest := if DIGEST in img then img[DIGEST] else newImg.digest;
          if digest != "" {
            img := img[DIGEST := digest];
          }
          FillByKeys(imgList[i], newImg, img);
          imgList := imgList[i := img];
          return true;
        }
        UpdateLater(imgList, i, newImg);
        i := i + 1;
      }
      assert imgList[i..] == [] && imgList[..i] == imgList;
      var kustImg := map[NAME := newImg.name, NEW_NAME := newImg.name];
      if newImg.tag != "" {
        kustImg := kustImg[NEW_TAG := newImg.tag];
      }
      if newImg.digest != "" {
        kustImg := kustImg[DIGEST := newImg.digest];
      }
      FillByKeys(map[NAME := newImg.name], newImg, kustImg);
      imgList := imgList + [kustImg];
      return true;
    }
  
    method ScanContainers(containers: seq<Yaml>) returns (ok: bool)
      modifies this
      ensures ok <==> Absorb(old(imgList), ContainersImages(containers)).Some?
      ensures ok ==> imgList == Absorb(old(imgList), ContainersImages(containers)).value
    {
      for i := 0 to |containers|
        invariant Absorb(old(imgList), ContainersImages(containers[..i])) == Some(imgList)
      {
        ghost var before := imgList;
        var c := ContainerImage(containers[i]);
        assert containers[..i + 1][..i] == containers[..i];
        AbsorbAppend(old(imgList), ContainersImages(containers[..i]), c);
        if c.Raised? {
          ContainersRaise(old(imgList), containers, i + 1);
          return false;
        }
        if c.refs != [] {
          var img := ImageFromString(c.refs[0]);
          ok := AppendOrUpdate(img);
          OneImage(before, c.refs[0]);
          if !ok {
            ContainersRaise(old(imgList), containers, i + 1);
            return false;
          }
        }
      }
      assert containers[..|containers|] == containers;
      return true;
    }

    method ScanResource(r: Yaml) returns (ok: bool)
      modifies this
      ensures ok <==> Absorb(old(imgList), ResourceImages(r)).Some?
      ensures ok ==> imgList == Absorb(old(imgList), ResourceImages(r)).value
      ensures forall cs: seq<Yaml> :: IsWorkload(r) && HoldsContainers(r, Seq(cs)) && AreContainers(cs) ==>
                if ok then Some(imgList) == Fold(old(imgList), Parsed(ImageTexts(cs)))
                else Fold(old(imgList), Parsed(ImageTexts(cs))).None?
    {
      forall cs: seq<Yaml> | IsWorkload(r) && HoldsContainers(r, Seq(cs)) && AreContainers(cs)
        ensures ResourceImages(r) == Images(ImageTexts(cs))
      {
        WorkloadImages(r, cs);
      }
      if !r.Map? {
        return true;
      }
      var kind := if "kind" in r.fields then r.fields["kind"] else Str("");
      if !kind.Str? {
        return false;
      }
      if Lower(kind.s) !in ACCEPTED_KINDS {
        return true;
      }
      var containers := Containers(r);
      if containers.Got? && containers.v.Seq? {
        ok := ScanContainers(containers.v.items);
      } else {
        ok := ResourceImages(r).Images?;
      }
    }

    /** The scan of all local resources; false stands for an uncaught error. */
    method ScanResources(resources: seq<Yaml>) returns (ok: bool)
      modifies this
      ensures ok <==> Absorb(old(imgList), ResourcesImages(resources)).Some?
      ensures ok ==> imgList == Absorb(old(imgList), ResourcesImages(resources)).value
    {
      for i := 0 to |resources|
        invariant Absorb(old(imgList), ResourcesImages(resources[..i])) == Some(imgList)
      {
        assert resources[..i + 1][..i] == resources[..i];
        AbsorbAppend(old(imgList), ResourcesImages(resources[..i]), ResourceImages(resources[i]));
        ok := ScanResource(resources[i]);
        if !ok {
          ResourcesRaise(old(imgList), resources, i + 1);
          return false;
        }
      }
      assert resources[..|resources|] == resources;
      return true;
    }
  }

  lemma OneImage(list: seq<Entry>, ref: string)
    ensures Absorb(list, Images([ref])) == Update(list, ImageFromString(ref))
  {
    var img := ImageFromString(ref);
    assert [ref][..0] == [];
    assert Parsed([ref]) == [img];
    match Update(list, img)
    case None =>
    case Some(next) => assert Fold(next, [img][1..]) == Some(next);
  }

  lemma {:induction false} ContainersRaise(list: seq<Entry>, cs: seq<Yaml>, i: nat)
    requires i <= |cs| && Absorb(list, ContainersImages(cs[..i])).None?
    ensures Absorb(list, ContainersImages(cs)).None?
    decreases |cs| - i
  {
    if i < |cs| {
      assert cs[..i + 1][..i] == cs[..i];
      AbsorbAppend(list, ContainersImages(cs[..i]), ContainerImage(cs[i]));
      ContainersRaise(list, cs, i + 1);
    } else {
      assert cs[..i] == cs;
    }
  }

  lemma {:induction false} ResourcesRaise(list: seq<Entry>, rs: seq<Yaml>, i: nat)
    requires i <= |rs| && Absorb(list, ResourcesImages(rs[..i])).None?
    ensures Absorb(list, ResourcesImages(rs)).None?
    decreases |rs| - i
  {
    if i < |rs| {
      assert rs[..i + 1][..i] == rs[..i];
      AbsorbAppend(list, ResourcesImages(rs[..i]), ResourceImages(rs[i]));
      ResourcesRaise(list, rs, i + 1);
    } else {
      assert rs[..i] == rs;
    }
  }
}
