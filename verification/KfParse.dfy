/**
  utils/kf_parse.py: collecting image references from a JSON configuration whose strings may
  themselves hold JSON (or YAML) text, nested to any depth.
 */
module KfParse {
  import opened Wrappers

  /** A decoded JSON value; a dict keeps its entries in document order. */
  datatype Json =
    | Null
    | Bool(b: bool)
    | Number(text: string)
    | Str(s: string)
    | List(items: seq<Json>)
    | Dict(entries: seq<Entry>)

  datatype Entry = Entry(key: string, value: Json)

  /** One more than the length of the longest string value inside. */
  function StringBound(v: Json): nat {
    match v
    case Str(s) => |s| + 1
    case List(items) => ItemsBound(items)
    case Dict(entries) => EntriesBound(entries)
    case _ => 0
  }

  function ItemsBound(items: seq<Json>): nat {
    if items == [] then 0 else Max(StringBound(items[0]), ItemsBound(items[1..]))
  }

  function EntriesBound(entries: seq<Entry>): nat {
    if entries == [] then 0 else Max(StringBound(entries[0].value), EntriesBound(entries[1..]))
  }

  function Max(a: nat, b: nat): nat { if a < b then b else a }

  lemma {:induction false} ItemBound(items: seq<Json>, i: nat)
    requires i < |items|
    ensures StringBound(items[i]) <= ItemsBound(items)
    decreases i
  {
    if i > 0 {
      ItemBound(items[1..], i - 1);
    }
  }

  lemma {:induction false} EntryBound(entries: seq<Entry>, i: nat)
    requires i < |entries|
    ensures StringBound(entries[i].value) <= EntriesBound(entries)
    decreases i
  {
    if i > 0 {
      EntryBound(entries[1..], i - 1);
    }
  }

  predicate At(text: string, word: string, i: nat) {
    i + |word| <= |text| && text[i..i + |word|] == word
  }

  predicate Contains(text: string, word: string) {
    exists i: nat :: i <= |text| && At(text, word, i)
  }

  /** A text contains a word exactly when it is made of the word and what stands around it. */
  lemma ContainsAround(text: string, word: string)
    ensures Contains(text, word) <==> exists before: string, after: string :: text == before + word + after
  {
    if Contains(text, word) {
      var i: nat :| i <= |text| && At(text, word, i);
      assert text == text[..i] + word + text[i + |word|..];
    }
    if before: string, after: string :| text == before + word + after {
      assert text[|before|..|before| + |word|] == word;
      assert At(text, word, |before|);
    }
  }

  const IMAGE := "image"

  /**
    The library calls of the script: decoding JSON text (None when it does not parse), the
    regular expression for a YAML image line, and the formatting of a value.
   */
  datatype Calls = Calls(loads: string -> Option<Json>, yamlImage: string -> Option<string>, format: Json -> string)

  /**
    What is assumed of them: a string inside decoded JSON is shorter than the text it was decoded
    from (its quotes are gone and no escape grows), and the expression starts with `image:`.
   */
  ghost predicate Plausible(c: Calls) {
    && (forall t :: c.loads(t).Some? ==> StringBound(c.loads(t).value) <= |t|)
    && (forall t :: c.yamlImage(t).Some? ==> Contains(t, IMAGE))
  }

  type Library = c: Calls | Plausible(c) witness Calls(t => None, t => None, v => "")

  // ---------------------------------------------------------------- what is found, and where

  /** What one position yields: an image, the result of the YAML fallback, or a TypeError. */
  datatype Found = Image(name: string) | YamlImage(name: string) | TypeError

  function Lookup(entries: seq<Entry>, key: string): Option<Json> {
    if entries == [] then None
    else if entries[0].key == key then Some(entries[0].value)
    else Lookup(entries[1..], key)
  }

  function Suffixed(lib: Library, entries: seq<Entry>, value: string, key: string): seq<string> {
    match Lookup(entries, key)
    case None => []
    case Some(v) => [value + ":" + lib.format(v)]
  }

  /** An image without a tag gets the default versions of the dict that holds it. */
  function Tagged(lib: Library, entries: seq<Entry>, value: string): seq<string> {
    if ':' in value then [value]
    else Suffixed(lib, entries, value, "defaultImageVersion") + Suffixed(lib, entries, value, "defaultGpuImageVersion")
  }

  /**
    The visited positions, given as the indices chosen on the way down.  A dict is entered through
    an entry; from there the way leads through an element of a list, or through an entry of a
    second-level dict, or into the dict decoded from a string.  With `guard` a string is decoded
    only when it contains the word `image`.
   */
  function Locate(lib: Library, guard: bool, v: Json, path: seq<nat>): Option<Found>
    decreases |path|, 0
  {
    if v.Dict? && path != [] && path[0] < |v.entries|
    then LocateEntry(lib, guard, v.entries, v.entries[path[0]], path[1..])
    else None
  }

  function LocateEntry(lib: Library, guard: bool, dict: seq<Entry>, e: Entry, path: seq<nat>): Option<Found>
    decreases |path|, 2
  {
    match e.value
    case List(items) =>
      if path != [] && path[0] < |items| then Locate(lib, guard, items[path[0]], path[1..]) else None
    case Dict(sub) =>
      if path != [] && path[0] < |sub| then LocateInner(lib, guard, sub, sub[path[0]], path[1..]) else None
    case Str(s) =>
      if e.key == IMAGE then Choose(Tagged(lib, dict, s), path) else LocateText(lib, guard, s, path)
    case _ => None
  }

  function LocateInner(lib: Library, guard: bool, sub: seq<Entry>, e: Entry, path: seq<nat>): Option<Found>
    decreases |path|, 2
  {
    match e.value
    case Dict(_) => Locate(lib, guard, e.value, path)
    case Str(s) =>
      if e.key == IMAGE then Choose(Tagged(lib, sub, s), path) else LocateText(lib, guard, s, path)
    case _ =>
      if e.key == IMAGE && path == [0] then Some(TypeError) else None
  }

  function LocateText(lib: Library, guard: bool, text: string, path: seq<nat>): Option<Found>
    decreases |path|, 1
  {
    if guard && !Contains(text, IMAGE) then None
    else
      match lib.loads(text)
      case Some(v) => Locate(lib, guard, v, path)
      case None =>
        match lib.yamlImage(text)
        case Some(name) => if path == [0] then Some(YamlImage(name)) else None
        case None => None
  }

  function Choose(names: seq<string>, path: seq<nat>): Option<Found> {
    if |path| == 1 && path[0] < |names| then Some(Image(names[path[0]])) else None
  }

  // ---------------------------------------------------------------- the traversal

  datatype Hit = Hit(path: seq<nat>, found: Found)

  function Under(i: nat, hits: seq<Hit>): (r: seq<Hit>)
    ensures |r| == |hits|
  {
    seq(|hits|, k requires 0 <= k < |hits| => Hit([i] + hits[k].path, hits[k].found))
  }

  /** The hits of consecutive children, each below its index. */
  function Number(kids: seq<seq<Hit>>): seq<Hit> {
    if kids == [] then []
    else Number(kids[..|kids| - 1]) + Under(|kids| - 1, kids[|kids| - 1])
  }

  function Names(names: seq<string>): seq<Hit> {
    seq(|names|, k requires 0 <= k < |names| => Hit([k], Image(names[k])))
  }

  /** The recursive extraction, in the order the script appends to its list. */
  function Trace(lib: Library, guard: bool, v: Json): seq<Hit>
    decreases 2 * StringBound(v), v, 1
  {
    if v.Dict?
    then Number(seq(|v.entries|, i requires 0 <= i < |v.entries| => TraceEntry(lib, guard, v, i)))
    else []
  }

  function TraceEntry(lib: Library, guard: bool, v: Json, i: nat): seq<Hit>
    requires v.Dict? && i < |v.entries|
    decreases 2 * StringBound(v), v, 0
  {
    EntryBound(v.entries, i);
    var e := v.entries[i];
    match e.value
    case List(items) =>
      Number(seq(|items|, k requires 0 <= k < |items| =>
        ItemBound(items, k);
        Trace(lib, guard, items[k])))
    case Dict(sub) =>
      Number(seq(|sub|, k requires 0 <= k < |sub| =>
        TraceInner(lib, guard, e.value, k)))
    case Str(s) =>
      if e.key == IMAGE then Names(Tagged(lib, v.entries, s)) else TraceText(lib, guard, s)
    case _ => []
  }

  function TraceInner(lib: Library, guard: bool, sub: Json, k: nat): seq<Hit>
    requires sub.Dict? && k < |sub.entries|
    decreases 2 * StringBound(sub), sub, 0
  {
    EntryBound(sub.entries, k);
    var e := sub.entries[k];
    match e.value
    case Dict(_) => Trace(lib, guard, e.value)
    case Str(s) =>
      if e.key == IMAGE then Names(Tagged(lib, sub.entries, s)) else TraceText(lib, guard, s)
    case _ => if e.key == IMAGE then [Hit([0], TypeError)] else []
  }

  function TraceText(lib: Library, guard: bool, text: string): seq<Hit>
    decreases 2 * |text| + 1
  {
    if guard && !Contains(text, IMAGE) then []
    else
      match lib.loads(text)
      case Some(v) => Trace(lib, guard, v)
      case None =>
        match lib.yamlImage(text)
        case Some(name) => [Hit([0], YamlImage(name))]
        case None => []
  }

  // ---------------------------------------------------------------- the traversal enumerates the positions

  /** Document order of positions that do not extend each other. */
  predicate Before(p: seq<nat>, q: seq<nat>) {
    p != [] && q != [] && (p[0] < q[0] || (p[0] == q[0] && Before(p[1..], q[1..])))
  }

  ghost predicate Sorted(hits: seq<Hit>) {
    forall a, b :: 0 <= a < b < |hits| ==> Before(hits[a].path, hits[b].path)
  }

  lemma InUnder(i: nat, hits: seq<Hit>, h: Hit)
    ensures h in Under(i, hits) <==> h.path != [] && h.path[0] == i && Hit(h.path[1..], h.found) in hits
  {
    if h in Under(i, hits) {
      var k :| 0 <= k < |hits| && Under(i, hits)[k] == h;
      assert h.path == [i] + hits[k].path;
      assert Hit(h.path[1..], h.found) == hits[k];
    }
    if h.path != [] && h.path[0] == i && Hit(h.path[1..], h.found) in hits {
      var k :| 0 <= k < |hits| && hits[k] == Hit(h.path[1..], h.found);
      assert h.path == [i] + h.path[1..];
      assert Under(i, hits)[k] == h;
    }
  }

  lemma {:induction false} InNumber(kids: seq<seq<Hit>>, h: Hit)
    ensures h in Number(kids)
            <==> h.path != [] && h.path[0] < |kids| && Hit(h.path[1..], h.found) in kids[h.path[0]]
    decreases |kids|
  {
    if kids != [] {
      var n := |kids| - 1;
      InNumber(kids[..n], h);
      InUnder(n, kids[n], h);
    }
  }

  lemma UnderSorted(i: nat, hits: seq<Hit>)
    requires Sorted(hits)
    ensures Sorted(Under(i, hits))
  {
    var us := Under(i, hits);
    forall a, b | 0 <= a < b < |us|
      ensures Before(us[a].path, us[b].path)
    {
      assert us[a].path[1..] == hits[a].path && us[b].path[1..] == hits[b].path;
    }
  }

  lemma {:induction false} NumberSorted(kids: seq<seq<Hit>>)
    requires forall k :: 0 <= k < |kids| ==> Sorted(kids[k])
    ensures Sorted(Number(kids))
    decreases |kids|
  {
    if kids != [] {
      var n := |kids| - 1;
      var front, back: seq<Hit> := Number(kids[..n]), Under(n, kids[n]);
      NumberSorted(kids[..n]);
      UnderSorted(n, kids[n]);
      var all: seq<Hit> := front + back;
      forall a, b | 0 <= a < b < |all|
        ensures Before(all[a].path, all[b].path)
      {
        if a < |front| <= b {
          InNumber(kids[..n], front[a]);
          InUnder(n, kids[n], back[b - |front|]);
        }
      }
    }
  }

  ghost predicate Enumerates(hits: seq<Hit>, locate: seq<nat> -> Option<Found>) {
    && Sorted(hits)
    && (forall p, f :: Hit(p, f) in hits <==> locate(p) == Some(f))
  }

  lemma NumberEnumerates(kids: seq<seq<Hit>>, locate: seq<nat> -> Option<Found>, below: nat -> seq<nat> -> Option<Found>)
    requires forall k :: 0 <= k < |kids| ==> Enumerates(kids[k], below(k))
    requires forall p :: locate(p) == if p != [] && p[0] < |kids| then below(p[0])(p[1..]) else None
    ensures Enumerates(Number(kids), locate)
  {
    NumberSorted(kids);
    forall p, f
      ensures Hit(p, f) in Number(kids) <==> locate(p) == Some(f)
    {
      InNumber(kids, Hit(p, f));
    }
  }

  lemma NamesEnumerate(names: seq<string>)
    ensures Enumerates(Names(names), p => Choose(names, p))
  {
    forall p, f
      ensures Hit(p, f) in Names(names) <==> Choose(names, p) == Some(f)
    {
      if Choose(names, p) == Some(f) {
        assert p == [p[0]];
        assert Names(names)[p[0]] == Hit(p, f);
      }
    }
  }

  /** The traversal of a value lists exactly its visited positions, once each, in document order. */
  lemma {:induction false} TraceEnumerates(lib: Library, guard: bool, v: Json)
    ensures Enumerates(Trace(lib, guard, v), p => Locate(lib, guard, v, p))
    decreases 2 * StringBound(v), v, 1
  {
    if v.Dict? {
      var kids := seq(|v.entries|, i requires 0 <= i < |v.entries| => TraceEntry(lib, guard, v, i));
      var below := (i: nat) => (p: seq<nat>) =>
        if i < |v.entries| then LocateEntry(lib, guard, v.entries, v.entries[i], p) else None;
      forall i | 0 <= i < |kids|
        ensures Enumerates(kids[i], below(i))
      {
        TraceEntryEnumerates(lib, guard, v, i);
        SamePositions(kids[i], p => LocateEntry(lib, guard, v.entries, v.entries[i], p), below(i));
      }
      NumberEnumerates(kids, p => Locate(lib, guard, v, p), below);
    }
  }

  lemma SamePositions(hits: seq<Hit>, f: seq<nat> -> Option<Found>, g: seq<nat> -> Option<Found>)
    requires Enumerates(hits, f) && forall p :: f(p) == g(p)
    ensures Enumerates(hits, g)
  {
  }

  lemma {:induction false} TraceEntryEnumerates(lib: Library, guard: bool, v: Json, i: nat)
    requires v.Dict? && i < |v.entries|
    ensures Enumerates(TraceEntry(lib, guard, v, i), p => LocateEntry(lib, guard, v.entries, v.entries[i], p))
    decreases 2 * StringBound(v), v, 0
  {
    EntryBound(v.entries, i);
    var e := v.entries[i];
    var locate := (p: seq<nat>) => LocateEntry(lib, guard, v.entries, v.entries[i], p);
    match e.value
    case List(items) =>
      var kids := seq(|items|, k requires 0 <= k < |items| => ItemBound(items, k); Trace(lib, guard, items[k]));
      var below := (k: nat) => (p: seq<nat>) => if k < |items| then Locate(lib, guard, items[k], p) else None;
      forall k | 0 <= k < |kids|
        ensures Enumerates(kids[k], below(k))
      {
        ItemBound(items, k);
        TraceEnumerates(lib, guard, items[k]);
        SamePositions(kids[k], p => Locate(lib, guard, items[k], p), below(k));
      }
      NumberEnumerates(kids, locate, below);
    case Dict(sub) =>
      var kids := seq(|sub|, k requires 0 <= k < |sub| => TraceInner(lib, guard, e.value, k));
      var below := (k: nat) => (p: seq<nat>) => if k < |sub| then LocateInner(lib, guard, sub, sub[k], p) else None;
      forall k | 0 <= k < |kids|
        ensures Enumerates(kids[k], below(k))
      {
        TraceInnerEnumerates(lib, guard, e.value, k);
        SamePositions(kids[k], p => LocateInner(lib, guard, sub, sub[k], p), below(k));
      }
      NumberEnumerates(kids, locate, below);
    case Str(s) =>
      if e.key == IMAGE {
        NamesEnumerate(Tagged(lib, v.entries, s));
        SamePositions(TraceEntry(lib, guard, v, i), p => Choose(Tagged(lib, v.entries, s), p), locate);
      } else {
        TraceTextEnumerates(lib, guard, s);
        SamePositions(TraceEntry(lib, guard, v, i), p => LocateText(lib, guard, s, p), locate);
      }
    case _ =>
  }

  lemma {:induction false} TraceInnerEnumerates(lib: Library, guard: bool, sub: Json, k: nat)
    requires sub.Dict? && k < |sub.entries|
    ensures Enumerates(TraceInner(lib, guard, sub, k), p => LocateInner(lib, guard, sub.entries, sub.entries[k], p))
    decreases 2 * StringBound(sub), sub, 0
  {
    EntryBound(sub.entries, k);
    var e := sub.entries[k];
    var locate := (p: seq<nat>) => LocateInner(lib, guard, sub.entries, sub.entries[k], p);
    match e.value
    case Dict(_) =>
      TraceEnumerates(lib, guard, e.value);
      SamePositions(TraceInner(lib, guard, sub, k), p => Locate(lib, guard, e.value, p), locate);
    case Str(s) =>
      if e.key == IMAGE {
        NamesEnumerate(Tagged(lib, sub.entries, s));
        SamePositions(TraceInner(lib, guard, sub, k), p => Choose(Tagged(lib, sub.entries, s), p), locate);
      } else {
        TraceTextEnumerates(lib, guard, s);
        SamePositions(TraceInner(lib, guard, sub, k), p => LocateText(lib, guard, s, p), locate);
      }
    case _ =>
  }

  lemma {:induction false} TraceTextEnumerates(lib: Library, guard: bool, text: string)
    ensures Enumerates(TraceText(lib, guard, text), p => LocateText(lib, guard, text, p))
    decreases 2 * |text| + 1
  {
    if (!guard || Contains(text, IMAGE)) && lib.loads(text).Some? {
      var v := lib.loads(text).value;
      TraceEnumerates(lib, guard, v);
      SamePositions(TraceText(lib, guard, text), p => Locate(lib, guard, v, p), p => LocateText(lib, guard, text, p));
    }
  }

  lemma BeforeIsStrict(p: seq<nat>, q: seq<nat>)
    requires Before(p, q)
    ensures p != q && !Before(q, p)
    decreases |p|
  {
  }

  /** An enumeration is determined by the positions: the traversal's list is the only one. */
  lemma {:induction false} EnumerationIsUnique(a: seq<Hit>, b: seq<Hit>)
    requires Sorted(a) && Sorted(b)
    requires forall h :: h in a <==> h in b
    ensures a == b
    decreases |a|
  {
    if b != [] {
      assert b[0] in b && b[0] in a;
    }
    if a != [] {
      assert a[0] in a && a[0] in b;
      if a[0] != b[0] {
        BeforeIsStrict(b[0].path, a[0].path);
        assert false;
      }
      TailMembers(a);
      TailMembers(b);
      EnumerationIsUnique(a[1..], b[1..]);
    }
  }

  lemma TailMembers(hits: seq<Hit>)
    requires Sorted(hits) && hits != []
    ensures Sorted(hits[1..])
    ensures forall h :: h in hits[1..] <==> h in hits && h != hits[0]
  {
    forall h | h in hits[1..]
      ensures h != hits[0]
    {
      var k :| 0 < k < |hits| && hits[k] == h;
      BeforeIsStrict(hits[0].path, h.path);
    }
  }

  // ---------------------------------------------------------------- tags

  lemma TaggedHasColon(lib: Library, entries: seq<Entry>, value: string)
    ensures forall name :: name in Tagged(lib, entries, value) ==> value <= name && ':' in name
  {
    forall suffix: string
      ensures value <= value + ":" + suffix && ':' in value + ":" + suffix
    {
      assert (value + ":" + suffix)[|value|] == ':';
    }
  }

  /** The keys of a decoded dict differ. */
  ghost predicate UniqueKeys(entries: seq<Entry>) {
    forall i, j :: 0 <= i < j < |entries| ==> entries[i].key != entries[j].key
  }

  /** At most one text: the value with the version under that key, if the dict has it. */
  ghost predicate IsVersioned(lib: Library, entries: seq<Entry>, value: string, key: string, names: seq<string>) {
    && (forall v :: Entry(key, v) in entries ==> names == [value + ":" + lib.format(v)])
    && ((forall v :: Entry(key, v) !in entries) ==> names == [])
  }

  /** A value with a colon stands as it is; another gets the default version and then the GPU default version. */
  ghost predicate IsTagged(lib: Library, entries: seq<Entry>, value: string, names: seq<string>) {
    if ':' in value then names == [value]
    else exists a, b ::
      && names == a + b
      && IsVersioned(lib, entries, value, "defaultImageVersion", a)
      && IsVersioned(lib, entries, value, "defaultGpuImageVersion", b)
  }

  lemma {:induction false} LookupFinds(entries: seq<Entry>, key: string, v: Json)
    requires UniqueKeys(entries)
    ensures Lookup(entries, key) == Some(v) <==> Entry(key, v) in entries
    decreases |entries|
  {
    if entries != [] {
      var rest := entries[1..];
      assert forall i :: 0 <= i < |rest| ==> rest[i] == entries[i + 1];
      LookupFinds(rest, key, v);
      assert Entry(key, v) in entries <==> entries[0] == Entry(key, v) || Entry(key, v) in rest;
    }
  }

  lemma SuffixedIsVersioned(lib: Library, entries: seq<Entry>, value: string, key: string)
    requires UniqueKeys(entries)
    ensures IsVersioned(lib, entries, value, key, Suffixed(lib, entries, value, key))
  {
    forall v
      ensures Lookup(entries, key) == Some(v) <==> Entry(key, v) in entries
    {
      LookupFinds(entries, key, v);
    }
  }

  lemma TaggedIsTagged(lib: Library, entries: seq<Entry>, value: string)
    requires UniqueKeys(entries)
    ensures IsTagged(lib, entries, value, Tagged(lib, entries, value))
  {
    SuffixedIsVersioned(lib, entries, value, "defaultImageVersion");
    SuffixedIsVersioned(lib, entries, value, "defaultGpuImageVersion");
  }

  /** What the positions below a place yield when exactly these images are there. */
  ghost predicate HoldsImages(locate: seq<nat> -> Option<Found>, place: seq<nat>, names: seq<string>) {
    forall p :: locate(place + p) == if |p| == 1 && p[0] < |names| then Some(Image(names[p[0]])) else None
  }

  /** An image entry of a dict yields its tagged names, with the versions of that very dict. */
  lemma ImageEntryYields(lib: Library, guard: bool, entries: seq<Entry>, i: nat, s: string)
    requires UniqueKeys(entries) && i < |entries| && entries[i] == Entry("image", Str(s))
    ensures exists names :: IsTagged(lib, entries, s, names)
                            && HoldsImages(p => Locate(lib, guard, Dict(entries), p), [i], names)
  {
    TaggedIsTagged(lib, entries, s);
    forall p: seq<nat>
      ensures Locate(lib, guard, Dict(entries), [i] + p) == Choose(Tagged(lib, entries, s), p)
    {
      assert ([i] + p)[1..] == p;
    }
    assert HoldsImages(p => Locate(lib, guard, Dict(entries), p), [i], Tagged(lib, entries, s));
  }

  /** The same for a dict inside a dict: the versions are those of the inner one. */
  lemma InnerImageEntryYields(lib: Library, guard: bool, entries: seq<Entry>, i: nat, sub: seq<Entry>, k: nat, s: string)
    requires i < |entries| && entries[i].value == Dict(sub)
    requires UniqueKeys(sub) && k < |sub| && sub[k] == Entry("image", Str(s))
    ensures exists names :: IsTagged(lib, sub, s, names)
                            && HoldsImages(p => Locate(lib, guard, Dict(entries), p), [i, k], names)
  {
    TaggedIsTagged(lib, sub, s);
    forall p: seq<nat>
      ensures Locate(lib, guard, Dict(entries), [i, k] + p) == Choose(Tagged(lib, sub, s), p)
    {
      assert ([i, k] + p)[1..] == [k] + p && ([k] + p)[1..] == p;
      assert LocateInner(lib, guard, sub, sub[k], p) == Choose(Tagged(lib, sub, s), p);
    }
    assert HoldsImages(p => Locate(lib, guard, Dict(entries), p), [i, k], Tagged(lib, sub, s));
  }

  /** What lies below a place is what lies in a value. */
  ghost predicate LeadsInto(lib: Library, guard: bool, v: Json, place: seq<nat>, into: Json) {
    forall p :: Locate(lib, guard, v, place + p) == Locate(lib, guard, into, p)
  }

  ghost predicate LeadsNowhere(lib: Library, guard: bool, v: Json, place: seq<nat>) {
    forall p :: Locate(lib, guard, v, place + p) == None
  }

  lemma TextLeadsInto(lib: Library, text: string)
    ensures Contains(text, "image") && lib.loads(text).Some? ==>
              forall p :: LocateText(lib, true, text, p) == Locate(lib, true, lib.loads(text).value, p)
    ensures !Contains(text, "image") ==> forall p :: LocateText(lib, true, text, p) == None
  {
  }

  /** The ways down from an entry: list elements, decoded text under another key than `image`, nothing else but a dict. */
  lemma WaysFromEntry(lib: Library, entries: seq<Entry>, i: nat)
    requires i < |entries|
    ensures var v, e := Dict(entries), entries[i];
            && (e.value.List? ==> forall k: nat :: k < |e.value.items| ==> LeadsInto(lib, true, v, [i, k], e.value.items[k]))
            && (e.value.Str? && e.key != "image" && Contains(e.value.s, "image") && lib.loads(e.value.s).Some? ==>
                  LeadsInto(lib, true, v, [i], lib.loads(e.value.s).value))
            && (e.value.Str? && e.key != "image" && !Contains(e.value.s, "image") ==> LeadsNowhere(lib, true, v, [i]))
            && (!e.value.List? && !e.value.Str? && !e.value.Dict? ==> LeadsNowhere(lib, true, v, [i]))
  {
    var v, e := Dict(entries), entries[i];
    forall p: seq<nat>
      ensures Locate(lib, true, v, [i] + p) == LocateEntry(lib, true, entries, e, p)
      ensures e.value.Str? && e.key != "image" ==> Locate(lib, true, v, [i] + p) == LocateText(lib, true, e.value.s, p)
    {
      assert ([i] + p)[1..] == p;
    }
    if e.value.Str? {
      TextLeadsInto(lib, e.value.s);
    }
    if e.value.List? {
      forall k: nat, p: seq<nat> | k < |e.value.items|
        ensures Locate(lib, true, v, [i, k] + p) == Locate(lib, true, e.value.items[k], p)
      {
        assert ([i, k] + p)[1..] == [k] + p && ([k] + p)[1..] == p;
      }
    }
  }

  /** The ways down from an entry of a second-level dict: dicts and decoded text, but no lists. */
  lemma WaysFromInner(lib: Library, entries: seq<Entry>, i: nat, sub: seq<Entry>, k: nat)
    requires i < |entries| && entries[i].value == Dict(sub) && k < |sub|
    ensures var v, e := Dict(entries), sub[k];
            && (e.value.Dict? ==> LeadsInto(lib, true, v, [i, k], e.value))
            && (e.value.Str? && e.key != "image" && Contains(e.value.s, "image") && lib.loads(e.value.s).Some? ==>
                  LeadsInto(lib, true, v, [i, k], lib.loads(e.value.s).value))
            && (e.value.Str? && e.key != "image" && !Contains(e.value.s, "image") ==> LeadsNowhere(lib, true, v, [i, k]))
            && (!e.value.Str? && !e.value.Dict? && e.key != "image" ==> LeadsNowhere(lib, true, v, [i, k]))
            && (!e.value.Str? && !e.value.Dict? && e.key == "image" ==> Locate(lib, true, v, [i, k, 0]) == Some(TypeError))
  {
    var v, e := Dict(entries), sub[k];
    forall p: seq<nat>
      ensures Locate(lib, true, v, [i, k] + p) == LocateInner(lib, true, sub, e, p)
      ensures e.value.Str? && e.key != "image" ==> Locate(lib, true, v, [i, k] + p) == LocateText(lib, true, e.value.s, p)
    {
      assert ([i, k] + p)[1..] == [k] + p && ([k] + p)[1..] == p;
    }
    if e.value.Str? {
      TextLeadsInto(lib, e.value.s);
    }
    assert [i, k] + [0] == [i, k, 0];
  }

  /** Nothing lies in a value that is no dict, so not in a list on its own or in decoded text that holds one. */
  lemma OnlyDictsYield(lib: Library, guard: bool, v: Json)
    requires !v.Dict?
    ensures Trace(lib, guard, v) == [] && forall p :: Locate(lib, guard, v, p) == None
  {
  }

  /** Text that holds the word but does not parse yields what the YAML expression finds in it. */
  lemma YamlTextYields(lib: Library, entries: seq<Entry>, i: nat)
    requires i < |entries| && entries[i].value.Str? && entries[i].key != "image"
    requires Contains(entries[i].value.s, "image") && lib.loads(entries[i].value.s).None?
    ensures var found := lib.yamlImage(entries[i].value.s);
            if found.None? then LeadsNowhere(lib, true, Dict(entries), [i])
            else Locate(lib, true, Dict(entries), [i, 0]) == Some(YamlImage(found.value))
  {
    forall p: seq<nat>
      ensures Locate(lib, true, Dict(entries), [i] + p) == LocateText(lib, true, entries[i].value.s, p)
    {
      assert ([i] + p)[1..] == p;
    }
    assert [i] + [0] == [i, 0];
  }

  /** Every extracted image carries a tag, except what the YAML fallback returns. */
  lemma {:induction false} ImagesAreTagged(lib: Library, guard: bool, v: Json, path: seq<nat>, name: string)
    requires Locate(lib, guard, v, path) == Some(Image(name))
    ensures ':' in name
    decreases |path|, 0
  {
    var e, rest := v.entries[path[0]], path[1..];
    assert LocateEntry(lib, guard, v.entries, e, rest) == Some(Image(name));
    match e.value
    case List(items) =>
      ImagesAreTagged(lib, guard, items[rest[0]], rest[1..], name);
    case Dict(sub) =>
      var inner := sub[rest[0]];
      assert LocateInner(lib, guard, sub, inner, rest[1..]) == Some(Image(name));
      if inner.value.Dict? {
        ImagesAreTagged(lib, guard, inner.value, rest[1..], name);
      } else if inner.key == IMAGE {
        TaggedHasColon(lib, sub, inner.value.s);
      } else {
        TextImagesAreTagged(lib, guard, inner.value.s, rest[1..], name);
      }
    case Str(s) =>
      if e.key == IMAGE {
        TaggedHasColon(lib, v.entries, s);
      } else {
        TextImagesAreTagged(lib, guard, s, rest, name);
      }
  }

  lemma {:induction false} TextImagesAreTagged(lib: Library, guard: bool, text: string, path: seq<nat>, name: string)
    requires LocateText(lib, guard, text, path) == Some(Image(name))
    ensures ':' in name
    decreases |path|, 1
  {
    if lib.loads(text).Some? {
      ImagesAreTagged(lib, guard, lib.loads(text).value, path, name);
    }
  }

  // ---------------------------------------------------------------- the substring guard

  /**
    The positions the test loses: the way down comes to a text without the word, and below it the
    extraction without the test finds something.
   */
  ghost predicate Loses(lib: Library, v: Json, path: seq<nat>)
    decreases |path|, 0
  {
    v.Dict? && path != [] && path[0] < |v.entries| && LosesEntry(lib, v.entries[path[0]], path[1..])
  }

  ghost predicate LosesEntry(lib: Library, e: Entry, path: seq<nat>)
    decreases |path|, 2
  {
    match e.value
    case List(items) => path != [] && path[0] < |items| && Loses(lib, items[path[0]], path[1..])
    case Dict(sub) => path != [] && path[0] < |sub| && LosesInner(lib, sub[path[0]], path[1..])
    case Str(s) => e.key != IMAGE && LosesText(lib, s, path)
    case _ => false
  }

  ghost predicate LosesInner(lib: Library, e: Entry, path: seq<nat>)
    decreases |path|, 2
  {
    match e.value
    case Dict(_) => Loses(lib, e.value, path)
    case Str(s) => e.key != IMAGE && LosesText(lib, s, path)
    case _ => false
  }

  ghost predicate LosesText(lib: Library, text: string, path: seq<nat>)
    decreases |path|, 1
  {
    if Contains(text, IMAGE) then lib.loads(text).Some? && Loses(lib, lib.loads(text).value, path)
    else LocateText(lib, false, text, path).Some?
  }

  /** What a position yields with the test, given what it yields without and whether it is lost. */
  ghost predicate Hides(with: Option<Found>, without: Option<Found>, lost: bool) {
    with == (if lost then None else without) && (lost ==> without.Some?)
  }

  /** The test hides exactly the lost positions and changes no other. */
  lemma {:induction false} TestHidesLost(lib: Library, v: Json, path: seq<nat>)
    ensures Hides(Locate(lib, true, v, path), Locate(lib, false, v, path), Loses(lib, v, path))
    decreases |path|, 0
  {
    if v.Dict? && path != [] && path[0] < |v.entries| {
      var e, rest := v.entries[path[0]], path[1..];
      match e.value
      case List(items) =>
        if rest != [] && rest[0] < |items| {
          TestHidesLost(lib, items[rest[0]], rest[1..]);
        }
      case Dict(sub) =>
        if rest != [] && rest[0] < |sub| {
          TestHidesLostInner(lib, sub, sub[rest[0]], rest[1..]);
        }
      case Str(s) => TestHidesLostText(lib, s, rest);
      case _ =>
    }
  }

  lemma {:induction false} TestHidesLostInner(lib: Library, sub: seq<Entry>, e: Entry, path: seq<nat>)
    ensures Hides(LocateInner(lib, true, sub, e, path), LocateInner(lib, false, sub, e, path), LosesInner(lib, e, path))
    decreases |path|, 2
  {
    match e.value
    case Dict(_) => TestHidesLost(lib, e.value, path);
    case Str(s) => TestHidesLostText(lib, s, path);
    case _ =>
  }

  lemma {:induction false} TestHidesLostText(lib: Library, text: string, path: seq<nat>)
    ensures Hides(LocateText(lib, true, text, path), LocateText(lib, false, text, path), LosesText(lib, text, path))
    decreases |path|, 1
  {
    if Contains(text, IMAGE) && lib.loads(text).Some? {
      TestHidesLost(lib, lib.loads(text).value, path);
    }
  }

  ghost predicate LosesSomething(lib: Library, v: Json) {
    exists p :: Loses(lib, v, p)
  }

  /** The test for the word leaves the whole extraction as it is if and only if no position is lost. */
  lemma GuardOnlySavesWork(lib: Library, v: Json)
    ensures Trace(lib, true, v) == Trace(lib, false, v) <==> !LosesSomething(lib, v)
  {
    if LosesSomething(lib, v) {
      var p :| Loses(lib, v, p);
      LostIsMissing(lib, v, p);
    } else {
      NothingLost(lib, v);
    }
  }

  lemma NothingLost(lib: Library, v: Json)
    requires !LosesSomething(lib, v)
    ensures Trace(lib, true, v) == Trace(lib, false, v)
  {
    var a, b := Trace(lib, true, v), Trace(lib, false, v);
    TraceEnumerates(lib, true, v);
    TraceEnumerates(lib, false, v);
    forall h
      ensures h in a <==> h in b
    {
      TestHidesLost(lib, v, h.path);
      assert !Loses(lib, v, h.path);
      assert h == Hit(h.path, h.found);
    }
    EnumerationIsUnique(a, b);
  }

  lemma LostIsMissing(lib: Library, v: Json, p: seq<nat>)
    requires Loses(lib, v, p)
    ensures exists h :: h in Trace(lib, false, v) && h !in Trace(lib, true, v)
  {
    TraceEnumerates(lib, true, v);
    TraceEnumerates(lib, false, v);
    TestHidesLost(lib, v, p);
    var h := Hit(p, Locate(lib, false, v, p).value);
    assert h in Trace(lib, false, v) && h !in Trace(lib, true, v);
  }

  // ---------------------------------------------------------------- texts that write the word out

  /** Every string value inside belongs to a class of texts. */
  ghost predicate Texts(v: Json, ok: string -> bool) {
    match v
    case Str(s) => ok(s)
    case List(items) => forall i :: 0 <= i < |items| ==> Texts(items[i], ok)
    case Dict(es) => forall i :: 0 <= i < |es| ==> Texts(es[i].value, ok)
    case _ => true
  }

  /** No `image` key and no string value that contains the word. */
  ghost predicate Quiet(v: Json) {
    match v
    case Str(s) => !Contains(s, IMAGE)
    case List(items) => forall i :: 0 <= i < |items| ==> Quiet(items[i])
    case Dict(es) => forall i :: 0 <= i < |es| ==> es[i].key != IMAGE && Quiet(es[i].value)
    case _ => true
  }

  /**
    A class of texts that write the word without escapes, in keys and in string values: it is closed
    under decoding, and a text of the class without the word decodes to a value without it.
   */
  ghost predicate Literal(lib: Library, ok: string -> bool) {
    forall t :: ok(t) && lib.loads(t).Some? ==>
      && Texts(lib.loads(t).value, ok)
      && (!Contains(t, IMAGE) ==> Quiet(lib.loads(t).value))
  }

  lemma {:induction false} QuietYieldsNothing(lib: Library, ok: string -> bool, v: Json, path: seq<nat>)
    requires Literal(lib, ok) && Texts(v, ok) && Quiet(v)
    ensures Locate(lib, false, v, path) == None
    decreases |path|, 0
  {
    if v.Dict? && path != [] && path[0] < |v.entries| {
      var e, rest := v.entries[path[0]], path[1..];
      match e.value
      case List(items) =>
        if rest != [] && rest[0] < |items| {
          QuietYieldsNothing(lib, ok, items[rest[0]], rest[1..]);
        }
      case Dict(sub) =>
        if rest != [] && rest[0] < |sub| {
          QuietInner(lib, ok, sub, sub[rest[0]], rest[1..]);
        }
      case Str(s) => QuietText(lib, ok, s, rest);
      case _ =>
    }
  }

  lemma {:induction false} QuietInner(lib: Library, ok: string -> bool, sub: seq<Entry>, e: Entry, path: seq<nat>)
    requires Literal(lib, ok) && e.key != IMAGE && Texts(e.value, ok) && Quiet(e.value)
    ensures LocateInner(lib, false, sub, e, path) == None
    decreases |path|, 2
  {
    match e.value
    case Dict(_) => QuietYieldsNothing(lib, ok, e.value, path);
    case Str(s) => QuietText(lib, ok, s, path);
    case _ =>
  }

  lemma {:induction false} QuietText(lib: Library, ok: string -> bool, text: string, path: seq<nat>)
    requires Literal(lib, ok) && ok(text) && !Contains(text, IMAGE)
    ensures LocateText(lib, false, text, path) == None
    decreases |path|, 1
  {
    if lib.loads(text).Some? {
      QuietYieldsNothing(lib, ok, lib.loads(text).value, path);
    }
  }

  lemma {:induction false} LiteralLosesNothing(lib: Library, ok: string -> bool, v: Json, path: seq<nat>)
    requires Literal(lib, ok) && Texts(v, ok)
    ensures !Loses(lib, v, path)
    decreases |path|, 0
  {
    if v.Dict? && path != [] && path[0] < |v.entries| {
      var e, rest := v.entries[path[0]], path[1..];
      match e.value
      case List(items) =>
        if rest != [] && rest[0] < |items| {
          LiteralLosesNothing(lib, ok, items[rest[0]], rest[1..]);
        }
      case Dict(sub) =>
        if rest != [] && rest[0] < |sub| {
          LiteralInnerLosesNothing(lib, ok, sub[rest[0]], rest[1..]);
        }
      case Str(s) => LiteralTextLosesNothing(lib, ok, s, rest);
      case _ =>
    }
  }

  lemma {:induction false} LiteralInnerLosesNothing(lib: Library, ok: string -> bool, e: Entry, path: seq<nat>)
    requires Literal(lib, ok) && Texts(e.value, ok)
    ensures !LosesInner(lib, e, path)
    decreases |path|, 2
  {
    match e.value
    case Dict(_) => LiteralLosesNothing(lib, ok, e.value, path);
    case Str(s) => LiteralTextLosesNothing(lib, ok, s, path);
    case _ =>
  }

  lemma {:induction false} LiteralTextLosesNothing(lib: Library, ok: string -> bool, text: string, path: seq<nat>)
    requires Literal(lib, ok) && ok(text)
    ensures !LosesText(lib, text, path)
    decreases |path|, 1
  {
    if !Contains(text, IMAGE) {
      QuietText(lib, ok, text, path);
    } else if lib.loads(text).Some? {
      LiteralLosesNothing(lib, ok, lib.loads(text).value, path);
    }
  }

  /** Over texts that write the word out, the test is only a speed-up. */
  lemma LiteralTextsAreSafe(lib: Library, ok: string -> bool, v: Json)
    requires Literal(lib, ok) && Texts(v, ok)
    ensures Trace(lib, true, v) == Trace(lib, false, v)
  {
    forall p
      ensures !Loses(lib, v, p)
    {
      LiteralLosesNothing(lib, ok, v, p);
    }
    GuardOnlySavesWork(lib, v);
  }

  // ---------------------------------------------------------------- texts that do not

  /** The object with the single key `image`, its second letter escaped. */
  const ESCAPED := "{\"i\\u006dage\":\"a:1\"}"

  /** The object with the single key `image`, written out. */
  const INNER := "{\"image\":\"a:1\"}"

  /** An object whose one string value is that text, the second letter escaped there. */
  const OUTER := "{\"c\":\"{\\\"i\\u006dage\\\":\\\"a:1\\\"}\"}"

  lemma WordHasLetter(text: string)
    requires Contains(text, IMAGE)
    ensures 'm' in text
  {
    var i: nat :| i <= |text| && At(text, IMAGE, i);
    assert text[i..i + 5][1] == text[i + 1];
  }

  const IMAGE_DICT := Dict([Entry(IMAGE, Str("a:1"))])

  lemma BoundOfOne(key: string, text: string)
    ensures StringBound(Dict([Entry(key, Str(text))])) == |text| + 1
  {
    var es := [Entry(key, Str(text))];
    assert es[1..] == [];
    assert EntriesBound(es) == |text| + 1;
  }

  lemma ImageDictYields(lib: Library)
    ensures StringBound(IMAGE_DICT) == 4
    ensures Locate(lib, false, IMAGE_DICT, [0, 0]) == Some(Image("a:1"))
  {
    var path: seq<nat> := [0, 0];
    BoundOfOne(IMAGE, "a:1");
    assert path[1..] == [0] && "a:1"[1] == ':';
    assert LocateEntry(lib, false, IMAGE_DICT.entries, IMAGE_DICT.entries[0], path[1..]) == Some(Image("a:1"));
  }

  /** A one-entry dict whose string lacks the word yields nothing with the test. */
  lemma SkippedText(lib: Library, key: string, text: string)
    requires key != IMAGE && !Contains(text, IMAGE)
    ensures Trace(lib, true, Dict([Entry(key, Str(text))])) == []
  {
    var v := Dict([Entry(key, Str(text))]);
    var kids := seq(|v.entries|, i requires 0 <= i < |v.entries| => TraceEntry(lib, true, v, i));
    assert TraceEntry(lib, true, v, 0) == TraceText(lib, true, text) == [];
    assert Number(kids[..0]) == [] && kids[0] == [];
  }

  /** A string without the word whose decoding yields something is lost. */
  lemma LostUnderKey(lib: Library, key: string, text: string, path: seq<nat>)
    requires key != IMAGE && !Contains(text, IMAGE) && LocateText(lib, false, text, path).Some?
    ensures Loses(lib, Dict([Entry(key, Str(text))]), [0] + path)
  {
    assert ([0] + path)[1..] == path;
    assert LosesEntry(lib, Entry(key, Str(text)), path);
  }

  lemma DecodesOnly(text: string) returns (lib: Library)
    requires |text| >= 4
    ensures lib.loads(text) == Some(IMAGE_DICT)
  {
    ImageDictYields(Calls(t => None, t => None, w => ""));
    lib := Calls(t => if t == text then Some(IMAGE_DICT) else None, t => None, w => "");
  }

  /** An escaped `image` key inside embedded text is found only without the test. */
  lemma GuardMissesEscapedKeys() returns (lib: Library, v: Json)
    ensures v == Dict([Entry("config", Str(ESCAPED))])
    ensures lib.loads(ESCAPED) == Some(IMAGE_DICT)
    ensures Loses(lib, v, [0, 0, 0]) && Trace(lib, true, v) == [] && Trace(lib, false, v) != []
  {
    assert 'm' !in ESCAPED && |ESCAPED| >= 4;
    lib, v := MissedText(ESCAPED);
  }

  lemma MissedText(text: string) returns (lib: Library, v: Json)
    requires 'm' !in text && |text| >= 4
    ensures v == Dict([Entry("config", Str(text))])
    ensures lib.loads(text) == Some(IMAGE_DICT)
    ensures Loses(lib, v, [0, 0, 0]) && Trace(lib, true, v) == [] && Trace(lib, false, v) != []
  {
    lib := DecodesOnly(text);
    v := Dict([Entry("config", Str(text))]);
    if Contains(text, IMAGE) {
      WordHasLetter(text);
    }
    assert "config"[0] != IMAGE[0];
    ImageDictYields(lib);
    LostUnderKey(lib, "config", text, [0, 0]);
    assert [0] + [0, 0] == [0, 0, 0];
    GuardOnlySavesWork(lib, v);
    SkippedText(lib, "config", text);
  }

  /**
    Unescaped keys alone are not enough: here the key is written out in the text that has it, and
    lost because the text around that one escapes it as part of a string value.
   */
  lemma GuardMissesEscapedValues() returns (lib: Library, v: Json)
    ensures v == Dict([Entry("config", Str(OUTER))]) && Contains(INNER, IMAGE)
    ensures lib.loads(OUTER) == Some(Dict([Entry("c", Str(INNER))])) && lib.loads(INNER) == Some(IMAGE_DICT)
    ensures Loses(lib, v, [0, 0, 0, 0]) && Trace(lib, true, v) == [] && Trace(lib, false, v) != []
  {
    assert 'm' !in OUTER && |OUTER| > |INNER| >= 4;
    assert At(INNER, IMAGE, 2);
    lib, v := MissedOuter(OUTER, INNER);
  }

  lemma MissedOuter(outer: string, inner: string) returns (lib: Library, v: Json)
    requires 'm' !in outer && |outer| > |inner| >= 4
    ensures v == Dict([Entry("config", Str(outer))])
    ensures lib.loads(outer) == Some(Dict([Entry("c", Str(inner))])) && lib.loads(inner) == Some(IMAGE_DICT)
    ensures Loses(lib, v, [0, 0, 0, 0]) && Trace(lib, true, v) == [] && Trace(lib, false, v) != []
  {
    var middle := Dict([Entry("c", Str(inner))]);
    lib := DecodesTwo(outer, inner, middle);
    v := Dict([Entry("config", Str(outer))]);
    if Contains(outer, IMAGE) {
      WordHasLetter(outer);
    }
    assert "config"[0] != IMAGE[0];
    MiddleYields(lib, inner, middle);
    LostUnderKey(lib, "config", outer, [0, 0, 0]);
    assert [0] + [0, 0, 0] == [0, 0, 0, 0];
    GuardOnlySavesWork(lib, v);
    SkippedText(lib, "config", outer);
  }

  lemma DecodesTwo(outer: string, inner: string, middle: Json) returns (lib: Library)
    requires |outer| > |inner| >= 4 && middle == Dict([Entry("c", Str(inner))])
    ensures lib.loads(outer) == Some(middle) && lib.loads(inner) == Some(IMAGE_DICT)
  {
    ImageDictYields(Calls(t => None, t => None, w => ""));
    BoundOfOne("c", inner);
    lib := Calls(t => if t == outer then Some(middle) else if t == inner then Some(IMAGE_DICT) else None, t => None, w => "");
  }

  lemma MiddleYields(lib: Library, inner: string, middle: Json)
    requires middle == Dict([Entry("c", Str(inner))]) && lib.loads(inner) == Some(IMAGE_DICT)
    ensures Locate(lib, false, middle, [0, 0, 0]) == Some(Image("a:1"))
  {
    var path: seq<nat> := [0, 0, 0];
    ImageDictYields(lib);
    assert path[1..] == [0, 0];
    assert "c" != IMAGE by {
      assert |IMAGE| == 5;
    }
    assert LocateText(lib, false, inner, [0, 0]) == Some(Image("a:1"));
    assert LocateEntry(lib, false, middle.entries, middle.entries[0], [0, 0]) == Some(Image("a:1"));
  }

  // ---------------------------------------------------------------- the script

  /** What the extraction returns: a list of images, or an uncaught TypeError. */
  datatype Extraction = Images(names: seq<string>) | Raised

  predicate Raises(hits: seq<Hit>) {
    exists k :: 0 <= k < |hits| && hits[k].found.TypeError?
  }

  function ImageNames(hits: seq<Hit>): seq<string> {
    seq(|hits|, k requires 0 <= k < |hits| => if hits[k].found.TypeError? then "" else hits[k].found.name)
  }

  function Collect(hits: seq<Hit>): Extraction {
    if Raises(hits) then Raised else Images(ImageNames(hits))
  }

  ghost predicate SomePositionRaises(lib: Library, guard: bool, v: Json) {
    exists p :: Locate(lib, guard, v, p) == Some(TypeError)
  }

  /** The extraction raises exactly when some visited position does. */
  lemma RaisesExactlyAtPositions(lib: Library, guard: bool, v: Json)
    ensures Collect(Trace(lib, guard, v)).Raised? <==> SomePositionRaises(lib, guard, v)
  {
    TraceEnumerates(lib, guard, v);
    var locate := p => Locate(lib, guard, v, p);
    RaisesWhere(Trace(lib, guard, v), locate);
    if p :| locate(p) == Some(TypeError) {
      assert Locate(lib, guard, v, p) == Some(TypeError);
    }
    if p :| Locate(lib, guard, v, p) == Some(TypeError) {
      assert locate(p) == Some(TypeError);
    }
  }

  lemma RaisesWhere(hits: seq<Hit>, locate: seq<nat> -> Option<Found>)
    requires Enumerates(hits, locate)
    ensures Raises(hits) <==> exists p :: locate(p) == Some(TypeError)
  {
    if Raises(hits) {
      var k :| 0 <= k < |hits| && hits[k].found.TypeError?;
      assert Hit(hits[k].path, TypeError) in hits;
    }
    if p :| locate(p) == Some(TypeError) {
      assert Hit(p, TypeError) in hits;
    }
  }

  lemma CollectNext(kids: seq<seq<Hit>>, i: nat)
    requires i < |kids|
    ensures Raises(Number(kids[..i + 1])) <==> Raises(Number(kids[..i])) || Raises(kids[i])
    ensures ImageNames(Number(kids[..i + 1])) == ImageNames(Number(kids[..i])) + ImageNames(kids[i])
  {
    var front, back: seq<Hit> := Number(kids[..i]), Under(i, kids[i]);
    assert kids[..i + 1][..i] == kids[..i];
    assert Number(kids[..i + 1]) == front + back;
    if Raises(front) {
      var k :| 0 <= k < |front| && front[k].found.TypeError?;
      assert (front + back)[k] == front[k];
    }
    if Raises(kids[i]) {
      var k :| 0 <= k < |kids[i]| && kids[i][k].found.TypeError?;
      assert (front + back)[|front| + k] == back[k];
    }
  }

  lemma {:induction false} RaisesStays(kids: seq<seq<Hit>>, i: nat)
    requires i <= |kids| && Raises(Number(kids[..i]))
    ensures Raises(Number(kids))
    decreases |kids| - i
  {
    if i < |kids| {
      CollectNext(kids, i);
      RaisesStays(kids, i + 1);
    } else {
      assert kids[..i] == kids;
    }
  }

  method ConcatImageNameWithTag(lib: Library, inpDict: seq<Entry>, value: string) returns (resValues: seq<string>)
    ensures resValues == Tagged(lib, inpDict, value)
    ensures UniqueKeys(inpDict) ==> IsTagged(lib, inpDict, value, resValues)
    ensures forall name :: name in resValues ==> value <= name && ':' in name
  {
    if ':' !in value {
      resValues := [];
      var version := Lookup(inpDict, "defaultImageVersion");
      if version.Some? {
        resValues := resValues + [value + ":" + lib.format(version.value)];
      }
      version := Lookup(inpDict, "defaultGpuImageVersion");
      if version.Some? {
        resValues := resValues + [value + ":" + lib.format(version.value)];
      }
    } else {
      resValues := [value];
    }
    TaggedHasColon(lib, inpDict, value);
    if UniqueKeys(inpDict) {
      TaggedIsTagged(lib, inpDict, value);
    }
  }

  lemma NamesCollect(names: seq<string>)
    ensures Collect(Names(names)) == Images(names)
  {
    assert ImageNames(Names(names)) == names;
  }

  method ParseJsonImages(lib: Library, text: string) returns (r: Extraction)
    ensures r == Collect(TraceText(lib, true, text))
    decreases 2 * |text| + 1
  {
    if Contains(text, IMAGE) {
      var j := lib.loads(text);
      if j.Some? {
        if j.value.Dict? {
          r := ExtractImagesRecursively(lib, j.value);
          return;
        }
      } else {
        var ym := lib.yamlImage(text);
        if ym.Some? {
          return Images([ym.value]);
        }
      }
    }
    return Images([]);
  }

  method ExtractImagesRecursively(lib: Library, inpDict: Json) returns (r: Extraction)
    ensures r == Collect(Trace(lib, true, inpDict))
    decreases 2 * StringBound(inpDict), inpDict, 1
  {
    var images: seq<string> := [];
    if !inpDict.Dict? {
      return Images([]);
    }
    ghost var kids := seq(|inpDict.entries|, i requires 0 <= i < |inpDict.entries| => TraceEntry(lib, true, inpDict, i));
    for i := 0 to |inpDict.entries|
      invariant !Raises(Number(kids[..i])) && images == ImageNames(Number(kids[..i]))
    {
      var part := ExtractEntry(lib, inpDict, i);
      CollectNext(kids, i);
      if part.Raised? {
        RaisesStays(kids, i + 1);
        return Raised;
      }
      images := images + part.names;
    }
    assert kids[..|kids|] == kids;
    return Images(images);
  }

  /** One turn of the loop over the entries of a dict. */
  method ExtractEntry(lib: Library, inpDict: Json, i: nat) returns (r: Extraction)
    requires inpDict.Dict? && i < |inpDict.entries|
    ensures r == Collect(TraceEntry(lib, true, inpDict, i))
    decreases 2 * StringBound(inpDict), inpDict, 0
  {
    EntryBound(inpDict.entries, i);
    var e := inpDict.entries[i];
    match e.value
    case List(_) => r := ExtractItems(lib, e.value);
    case Dict(_) => r := ExtractSecondLevel(lib, e.value);
    case Str(s) =>
      if e.key == IMAGE {
        var names := ConcatImageNameWithTag(lib, inpDict.entries, s);
        NamesCollect(names);
        r := Images(names);
      } else {
        r := ParseJsonImages(lib, s);
      }
    case _ => r := Images([]);
  }

  method ExtractItems(lib: Library, value: Json) returns (r: Extraction)
    requires value.List?
    ensures r == Collect(Number(seq(|value.items|, k requires 0 <= k < |value.items| =>
              ItemBound(value.items, k);
              Trace(lib, true, value.items[k]))))
    decreases 2 * StringBound(value), value, 0
  {
    var images: seq<string> := [];
    ghost var kids := seq(|value.items|, k requires 0 <= k < |value.items| =>
      ItemBound(value.items, k);
      Trace(lib, true, value.items[k]));
    for k := 0 to |value.items|
      invariant !Raises(Number(kids[..k])) && images == ImageNames(Number(kids[..k]))
    {
      ItemBound(value.items, k);
      var part := ExtractImagesRecursively(lib, value.items[k]);
      CollectNext(kids, k);
      if part.Raised? {
        RaisesStays(kids, k + 1);
        return Raised;
      }
      images := images + part.names;
    }
    assert kids[..|kids|] == kids;
    return Images(images);
  }

  method ExtractSecondLevel(lib: Library, value: Json) returns (r: Extraction)
    requires value.Dict?
    ensures r == Collect(Number(seq(|value.entries|, k requires 0 <= k < |value.entries| =>
              TraceInner(lib, true, value, k))))
    decreases 2 * StringBound(value), value, 1
  {
    var images: seq<string> := [];
    ghost var kids := seq(|value.entries|, k requires 0 <= k < |value.entries| => TraceInner(lib, true, value, k));
    for k := 0 to |value.entries|
      invariant !Raises(Number(kids[..k])) && images == ImageNames(Number(kids[..k]))
    {
      var part := ExtractInner(lib, value, k);
      CollectNext(kids, k);
      if part.Raised? {
        RaisesStays(kids, k + 1);
        return Raised;
      }
      images := images + part.names;
    }
    assert kids[..|kids|] == kids;
    return Images(images);
  }

  method ExtractInner(lib: Library, value: Json, k: nat) returns (r: Extraction)
    requires value.Dict? && k < |value.entries|
    ensures r == Collect(TraceInner(lib, true, value, k))
    decreases 2 * StringBound(value), value, 0
  {
    EntryBound(value.entries, k);
    var e := value.entries[k];
    match e.value
    case Dict(_) => r := ExtractImagesRecursively(lib, e.value);
    case Str(s) =>
      if e.key == IMAGE {
        var names := ConcatImageNameWithTag(lib, value.entries, s);
        NamesCollect(names);
        r := Images(names);
      } else {
        r := ParseJsonImages(lib, s);
      }
    case _ =>
      if e.key == IMAGE {
        ghost var hits := [Hit([0], TypeError)];
        assert hits[0].found.TypeError?;
        r := Raised;
      } else {
        r := Images([]);
      }
  }

  // ---------------------------------------------------------------- the output list

  function FirstIndex(all: seq<string>, s: string): (i: nat)
    requires s in all
    ensures i < |all| && all[i] == s && s !in all[..i]
  {
    if all[0] == s then 0
    else
      var i := 1 + FirstIndex(all[1..], s);
      assert all[..i] == [all[0]] + all[1..][..i - 1];
      i
  }

  /** The same names, each once, in the order of their first occurrences. */
  ghost predicate FirstOccurrences(all: seq<string>, uniq: seq<string>) {
    && (forall s :: s in uniq <==> s in all)
    && (forall i, j :: 0 <= i < j < |uniq| ==> FirstIndex(all, uniq[i]) < FirstIndex(all, uniq[j]))
  }

  /** process_json_file: an unreadable file gives no images, a TypeError is not caught. */
  method ProcessJsonFile(lib: Library, jsonData: Option<Json>) returns (r: Extraction)
    ensures jsonData.None? ==> r == Images([])
    ensures jsonData.Some? ==>
      match Collect(Trace(lib, true, jsonData.value))
      case Raised => r == Raised
      case Images(all) => r.Images? && FirstOccurrences(all, r.names)
  {
    if jsonData.None? {
      return Images([]);
    }
    var images := ExtractImagesRecursively(lib, jsonData.value);
    if images.Raised? {
      return Raised;
    }
    var uniqImages: seq<string> := [];
    for i := 0 to |images.names|
      invariant FirstOccurrences(images.names[..i], uniqImages)
    {
      ghost var seen := images.names[..i];
      assert images.names[..i + 1] == seen + [images.names[i]];
      if images.names[i] !in uniqImages {
        AddFirstOccurrence(seen, uniqImages, images.names[i]);
        uniqImages := uniqImages + [images.names[i]];
      } else {
        KeepFirstOccurrences(seen, uniqImages, images.names[i]);
      }
    }
    assert images.names[..|images.names|] == images.names;
    return Images(uniqImages);
  }

  lemma FirstIndexAppend(all: seq<string>, s: string, t: string)
    requires t in all
    ensures FirstIndex(all + [s], t) == FirstIndex(all, t)
  {
    var i, j := FirstIndex(all, t), FirstIndex(all + [s], t);
    assert (all + [s])[i] == t;
  }

  lemma AddFirstOccurrence(all: seq<string>, uniq: seq<string>, s: string)
    requires FirstOccurrences(all, uniq) && s !in uniq
    ensures FirstOccurrences(all + [s], uniq + [s])
  {
    forall i, j | 0 <= i < j < |uniq + [s]|
      ensures FirstIndex(all + [s], (uniq + [s])[i]) < FirstIndex(all + [s], (uniq + [s])[j])
    {
      assert uniq[i] in uniq;
      FirstIndexAppend(all, s, uniq[i]);
      if j < |uniq| {
        assert uniq[j] in uniq;
        FirstIndexAppend(all, s, uniq[j]);
      }
    }
  }

  lemma KeepFirstOccurrences(all: seq<string>, uniq: seq<string>, s: string)
    requires FirstOccurrences(all, uniq) && s in uniq
    ensures FirstOccurrences(all + [s], uniq)
  {
    forall i, j | 0 <= i < j < |uniq|
      ensures FirstIndex(all + [s], uniq[i]) < FirstIndex(all + [s], uniq[j])
    {
      assert uniq[i] in uniq && uniq[j] in uniq;
      FirstIndexAppend(all, s, uniq[i]);
      FirstIndexAppend(all, s, uniq[j]);
    }
  }
}
