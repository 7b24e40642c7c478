/**
  utils/pods-validator.py: every healthy pod crosses the first remaining template that
  prefixes its name off a list; the process exits with the number of templates left.
 */
module PodsValidator {
  import opened Wrappers

  /** No template stands before a strictly longer template that it prefixes. */
  ghost predicate SpecificFirst(ts: seq<string>) {
    forall i, j :: 0 <= i < j < |ts| && ts[i] <= ts[j] ==> ts[i] == ts[j]
  }

  /** Index of the first template that prefixes the name, or |ts| when there is none. */
  function FirstMatch(ts: seq<string>, name: string): (i: nat)
    ensures i <= |ts|
    ensures forall k :: 0 <= k < i ==> !(ts[k] <= name)
    ensures i < |ts| ==> ts[i] <= name
  {
    if ts == [] || ts[0] <= name then 0 else 1 + FirstMatch(ts[1..], name)
  }

  function Drop(ts: seq<string>, i: nat): seq<string>
    requires i < |ts|
  {
    ts[..i] + ts[i + 1..]
  }

  /** The templates left after one healthy pod. */
  function Serve(ts: seq<string>, name: string): seq<string> {
    var i := FirstMatch(ts, name);
    if i < |ts| then Drop(ts, i) else ts
  }

  /** The templates left after a sequence of healthy pods. */
  function Remaining(ts: seq<string>, names: seq<string>): seq<string>
    decreases |names|
  {
    if names == [] then ts else Remaining(Serve(ts, names[0]), names[1..])
  }

  // ---------------------------------------------------------------- order of the pods

  lemma DropKeepsOrder(ts: seq<string>, i: nat)
    requires i < |ts| && SpecificFirst(ts)
    ensures SpecificFirst(Drop(ts, i))
  {
    var us := Drop(ts, i);
    forall a, b | 0 <= a < b < |us| && us[a] <= us[b]
      ensures us[a] == us[b]
    {
      assert us[a] == ts[if a < i then a else a + 1];
      assert us[b] == ts[if b < i then b else b + 1];
    }
  }

  lemma ServeKeepsOrder(ts: seq<string>, name: string)
    requires SpecificFirst(ts)
    ensures SpecificFirst(Serve(ts, name))
  {
    var i := FirstMatch(ts, name);
    if i < |ts| {
      DropKeepsOrder(ts, i);
    }
  }

  /** Every later template that serves the pod is a prefix of the one the pod takes. */
  lemma FirstMatchIsLongest(ts: seq<string>, name: string, k: nat)
    requires SpecificFirst(ts)
    requires k < |ts| && ts[k] <= name
    ensures FirstMatch(ts, name) < |ts|
    ensures ts[k] <= ts[FirstMatch(ts, name)]
  {
    var i := FirstMatch(ts, name);
    assert ts[i] <= ts[k] || ts[k] <= ts[i];
  }

  lemma FirstMatchIs(ts: seq<string>, name: string, i: nat)
    requires i <= |ts|
    requires forall k :: 0 <= k < i ==> !(ts[k] <= name)
    requires i < |ts| ==> ts[i] <= name
    ensures FirstMatch(ts, name) == i
  {
  }

  /** Two pods that want the same template also agree on their second choice. */
  lemma SameSecondChoice(ts: seq<string>, x: string, y: string)
    requires SpecificFirst(ts)
    requires FirstMatch(ts, x) == FirstMatch(ts, y) < |ts|
    ensures FirstMatch(Drop(ts, FirstMatch(ts, x)), x) == FirstMatch(Drop(ts, FirstMatch(ts, x)), y)
  {
    var us := Drop(ts, FirstMatch(ts, x));
    SecondChoiceFits(ts, x, y);
    SecondChoiceFits(ts, y, x);
    FirstMatchIs(us, x, FirstMatch(us, y));
  }

  lemma SecondChoiceFits(ts: seq<string>, x: string, y: string)
    requires SpecificFirst(ts)
    requires FirstMatch(ts, x) == FirstMatch(ts, y) < |ts|
    ensures forall k {:trigger Drop(ts, FirstMatch(ts, x))[k]} ::
              0 <= k < |ts| - 1 && Drop(ts, FirstMatch(ts, x))[k] <= x ==> Drop(ts, FirstMatch(ts, x))[k] <= y
  {
    var i := FirstMatch(ts, x);
    forall k {:trigger Drop(ts, i)[k]} | 0 <= k < |ts| - 1 && Drop(ts, i)[k] <= x
      ensures Drop(ts, i)[k] <= y
    {
      var k' := if k < i then k else k + 1;
      assert Drop(ts, i)[k] == ts[k'];
      FirstMatchIsLongest(ts, x, k');
      PrefixTransitive(ts[k'], ts[i], y);
    }
  }

  lemma PrefixTransitive(a: string, b: string, c: string)
    requires a <= b <= c
    ensures a <= c
  {
    assert forall k :: 0 <= k < |a| ==> a[k] == b[k] == c[k];
  }

  /** After one template is dropped, a pod that wanted another still takes that other one. */
  lemma ChoiceAfterDrop(ts: seq<string>, name: string, i: nat)
    requires i < |ts| && FirstMatch(ts, name) != i
    ensures var j := FirstMatch(ts, name);
            FirstMatch(Drop(ts, i), name) == if j < i then j else j - 1
  {
    var j := FirstMatch(ts, name);
    var us := Drop(ts, i);
    forall k | 0 <= k < |us|
      ensures us[k] == ts[if k < i then k else k + 1]
    {
    }
    FirstMatchIs(us, name, if j < i then j else j - 1);
  }

  lemma DropTwice(ts: seq<string>, i: nat, j: nat)
    requires i < j < |ts|
    ensures Drop(Drop(ts, i), j - 1) == Drop(Drop(ts, j), i)
  {
    assert Drop(Drop(ts, i), j - 1) == ts[..i] + ts[i + 1..j] + ts[j + 1..];
    assert Drop(Drop(ts, j), i) == ts[..i] + ts[i + 1..j] + ts[j + 1..];
  }

  lemma DifferentChoicesCommute(ts: seq<string>, x: string, y: string)
    requires FirstMatch(ts, x) < FirstMatch(ts, y)
    ensures Serve(Serve(ts, x), y) == Serve(Serve(ts, y), x)
  {
    var i, j := FirstMatch(ts, x), FirstMatch(ts, y);
    ChoiceAfterDrop(ts, y, i);
    if j < |ts| {
      ChoiceAfterDrop(ts, x, j);
      DropTwice(ts, i, j);
      assert Serve(ts, x) == Drop(ts, i) && Serve(ts, y) == Drop(ts, j);
    } else {
      assert Serve(ts, x) == Drop(ts, i) && Serve(ts, y) == ts;
    }
  }

  /** Two neighbouring pods may trade places. */
  lemma ServeCommutes(ts: seq<string>, x: string, y: string)
    requires SpecificFirst(ts)
    ensures Serve(Serve(ts, x), y) == Serve(Serve(ts, y), x)
  {
    var i, j := FirstMatch(ts, x), FirstMatch(ts, y);
    if i < j {
      DifferentChoicesCommute(ts, x, y);
    } else if j < i {
      DifferentChoicesCommute(ts, y, x);
    } else if i < |ts| {
      SameSecondChoice(ts, x, y);
      assert Serve(ts, x) == Drop(ts, i) == Serve(ts, y);
    }
  }

  lemma {:induction false} RemainingAppend(ts: seq<string>, a: seq<string>, b: seq<string>)
    ensures Remaining(ts, a + b) == Remaining(Remaining(ts, a), b)
    decreases |a|
  {
    if a == [] {
      assert a + b == b;
    } else {
      assert (a + b)[1..] == a[1..] + b;
      RemainingAppend(Serve(ts, a[0]), a[1..], b);
    }
  }

  lemma {:induction false} RemainingKeepsOrder(ts: seq<string>, names: seq<string>)
    requires SpecificFirst(ts)
    ensures SpecificFirst(Remaining(ts, names))
    decreases |names|
  {
    if names != [] {
      ServeKeepsOrder(ts, names[0]);
      RemainingKeepsOrder(Serve(ts, names[0]), names[1..]);
    }
  }

  /** The first two pods may trade places. */
  lemma SwapFirstTwo(ts: seq<string>, x: string, y: string, rest: seq<string>)
    requires SpecificFirst(ts)
    ensures Remaining(ts, [x] + ([y] + rest)) == Remaining(ts, [y] + ([x] + rest))
  {
    ServeCommutes(ts, x, y);
    RemainingCons(ts, x, [y] + rest);
    RemainingCons(Serve(ts, x), y, rest);
    RemainingCons(ts, y, [x] + rest);
    RemainingCons(Serve(ts, y), x, rest);
  }

  lemma RemainingCons(ts: seq<string>, x: string, rest: seq<string>)
    ensures Remaining(ts, [x] + rest) == Remaining(Serve(ts, x), rest)
  {
    assert ([x] + rest)[1..] == rest;
  }

  /** A pod may be moved to the front of the queue. */
  lemma {:induction false} MoveToFront(ts: seq<string>, a: seq<string>, x: string, b: seq<string>)
    requires SpecificFirst(ts)
    ensures Remaining(ts, a + ([x] + b)) == Remaining(ts, [x] + (a + b))
    decreases |a|
  {
    if a == [] {
      assert a + ([x] + b) == [x] + (a + b);
    } else {
      var y, c := a[0], a[1..];
      assert a + ([x] + b) == [y] + (c + ([x] + b));
      assert a + b == [y] + (c + b);
      RemainingCons(ts, y, c + ([x] + b));
      ServeKeepsOrder(ts, y);
      MoveToFront(Serve(ts, y), c, x, b);
      RemainingCons(ts, y, [x] + (c + b));
      SwapFirstTwo(ts, x, y, c + b);
    }
  }

  /** The list left does not depend on the order of the pods. */
  lemma {:induction false} OrderIndependent(ts: seq<string>, names: seq<string>, permuted: seq<string>)
    requires SpecificFirst(ts)
    requires multiset(names) == multiset(permuted)
    ensures Remaining(ts, names) == Remaining(ts, permuted)
    decreases |names|
  {
    if names == [] {
      assert |multiset(permuted)| == 0;
    } else {
      var x := names[0];
      var a, b := SplitAt(permuted, x);
      assert names == [x] + names[1..];
      assert multiset(names[1..]) == multiset(a + b);
      ServeKeepsOrder(ts, x);
      OrderIndependent(Serve(ts, x), names[1..], a + b);
      RemainingCons(ts, x, a + b);
      MoveToFront(ts, a, x, b);
    }
  }

  lemma SplitAt<T>(s: seq<T>, x: T) returns (a: seq<T>, b: seq<T>)
    requires x in multiset(s)
    ensures s == a + ([x] + b)
    ensures multiset(a + b) == multiset(s) - multiset{x}
  {
    var k :| 0 <= k < |s| && s[k] == x;
    a, b := s[..k], s[k + 1..];
    assert s == a + ([x] + b);
  }

  /** One more healthy pod, wherever it is listed, lowers the exit code by 0 or 1. */
  lemma OneMorePod(ts: seq<string>, a: seq<string>, x: string, b: seq<string>)
    requires SpecificFirst(ts)
    ensures var before, after := |Remaining(ts, a + b)|, |Remaining(ts, a + [x] + b)|;
            after == before || after == before - 1
  {
    assert multiset(a + [x] + b) == multiset(a + b + [x]);
    OrderIndependent(ts, a + [x] + b, a + b + [x]);
    RemainingAppend(ts, a + b, [x]);
    assert Remaining(Remaining(ts, a + b), [x]) == Serve(Remaining(ts, a + b), x);
  }

  // ---------------------------------------------------------------- maximum matching

  type Assignment = seq<Option<string>>

  function Taken(o: Option<string>): multiset<string> {
    if o.Some? then multiset{o.value} else multiset{}
  }

  /** The templates an assignment of pods uses, with multiplicity. */
  function Used(a: Assignment): multiset<string> {
    if a == [] then multiset{} else Taken(a[0]) + Used(a[1..])
  }

  ghost predicate Fits(a: Assignment, names: seq<string>) {
    |a| == |names| && forall p :: 0 <= p < |a| && a[p].Some? ==> a[p].value <= names[p]
  }

  /**
    An assignment gives each pod at most one template that prefixes its name,
    and gives no template out more often than it is listed.
   */
  ghost predicate IsMatching(ts: seq<string>, names: seq<string>, a: Assignment) {
    Fits(a, names) && Used(a) <= multiset(ts)
  }

  function Served(ts: seq<string>, names: seq<string>): int {
    |ts| - |Remaining(ts, names)|
  }

  lemma {:induction false} RemainingShrinks(ts: seq<string>, names: seq<string>)
    ensures multiset(Remaining(ts, names)) <= multiset(ts)
    ensures |Remaining(ts, names)| <= |ts|
    decreases |names|
  {
    if names != [] {
      var i := FirstMatch(ts, names[0]);
      if i < |ts| {
        DropMultiset(ts, i);
      }
      RemainingShrinks(Serve(ts, names[0]), names[1..]);
    }
  }

  lemma DropMultiset(ts: seq<string>, i: nat)
    requires i < |ts|
    ensures multiset(Drop(ts, i)) == multiset(ts) - multiset{ts[i]}
  {
    assert ts == ts[..i] + [ts[i]] + ts[i + 1..];
  }

  /** The greedy loop itself is a matching of the size it reports, for any list. */
  lemma {:induction false} GreedyMatching(ts: seq<string>, names: seq<string>) returns (a: Assignment)
    ensures IsMatching(ts, names, a)
    ensures Used(a) == multiset(ts) - multiset(Remaining(ts, names))
    ensures |Used(a)| == Served(ts, names)
    decreases |names|
  {
    if names == [] {
      a := [];
    } else {
      var us := Serve(ts, names[0]);
      var i := FirstMatch(ts, names[0]);
      var rest := GreedyMatching(us, names[1..]);
      RemainingShrinks(us, names[1..]);
      if i < |ts| {
        DropMultiset(ts, i);
        a := [Some(ts[i])] + rest;
        MultisetStep(multiset(ts), ts[i], multiset(Remaining(us, names[1..])));
      } else {
        a := [None] + rest;
      }
      ConsFits(a[0], rest, names);
    }
  }

  lemma ConsFits(o: Option<string>, rest: Assignment, names: seq<string>)
    requires names != [] && Fits(rest, names[1..]) && (o.Some? ==> o.value <= names[0])
    ensures Fits([o] + rest, names) && Used([o] + rest) == Taken(o) + Used(rest)
  {
    var a := [o] + rest;
    assert a[1..] == rest;
    FitsCons(a, names);
  }

  lemma FitsCons(a: Assignment, names: seq<string>)
    requires a != [] && names != []
    ensures Fits(a, names) <==> Fits(a[1..], names[1..]) && (a[0].Some? ==> a[0].value <= names[0])
  {
    if Fits(a[1..], names[1..]) && (a[0].Some? ==> a[0].value <= names[0]) {
      forall p | 0 <= p < |a| && a[p].Some?
        ensures a[p].value <= names[p]
      {
        assert p > 0 ==> a[p] == a[1..][p - 1] && names[p] == names[1..][p - 1];
      }
    }
    if Fits(a, names) {
      assert forall p :: 0 <= p < |a| - 1 ==> a[1..][p] == a[p + 1] && names[1..][p] == names[p + 1];
    }
  }

  lemma MultisetStep(m: multiset<string>, t: string, r: multiset<string>)
    requires t in m && r <= m - multiset{t}
    ensures multiset{t} + (m - multiset{t} - r) == m - r
  {
  }

  lemma AddToBoth(t: multiset<string>, u: multiset<string>, x: multiset<string>, v: multiset<string>, y: multiset<string>)
    requires u + x == v + y
    ensures t + u + x == t + v + y
  {
    assert t + u + x == t + (u + x) && t + v + y == t + (v + y);
  }

  /** Giving one pod another choice changes only that one use. */
  lemma {:induction false} Reassign(a: Assignment, p: nat, o: Option<string>)
    requires p < |a|
    ensures Used(a[p := o]) + Taken(a[p]) == Used(a) + Taken(o)
    decreases |a|
  {
    var b := a[p := o];
    if p == 0 {
      assert b[1..] == a[1..];
    } else {
      assert b[1..] == a[1..][p - 1 := o];
      Reassign(a[1..], p - 1, o);
      assert b[0] == a[0] && a[1..][p - 1] == a[p];
      AddToBoth(Taken(a[0]), Used(b[1..]), Taken(a[p]), Used(a[1..]), Taken(o));
    }
  }

  lemma {:induction false} UserOf(a: Assignment, t: string) returns (p: nat)
    requires t in Used(a)
    ensures p < |a| && a[p] == Some(t)
    decreases |a|
  {
    if a[0] == Some(t) {
      p := 0;
    } else {
      var q := UserOf(a[1..], t);
      p := q + 1;
    }
  }

  /**
    The exchange step: whatever a matching does with the first pod, the other pods keep a
    matching at most one smaller once the greedy choice is gone from the list.
   */
  lemma Exchange(ts: seq<string>, names: seq<string>, a: Assignment) returns (b: Assignment)
    requires SpecificFirst(ts) && names != [] && IsMatching(ts, names, a)
    ensures IsMatching(Serve(ts, names[0]), names[1..], b)
    ensures |Used(a)| <= |Used(b)| + (if FirstMatch(ts, names[0]) < |ts| then 1 else 0)
  {
    var x, rest := names[0], a[1..];
    var i := FirstMatch(ts, x);
    FitsCons(a, names);
    assert Used(a) == Taken(a[0]) + Used(rest);
    if a[0].Some? {
      TakenIsListed(ts, x, a);
    }
    if i == |ts| {
      b := rest;
    } else {
      DropMultiset(ts, i);
      if ts[i] !in Used(rest) || a[0] == Some(ts[i]) {
        b := rest;
      } else {
        b := HandOver(rest, names[1..], ts[i], a[0]);
      }
    }
  }

  /** The pod that uses t takes over the choice o, a prefix of t, instead. */
  lemma HandOver(a: Assignment, names: seq<string>, t: string, o: Option<string>) returns (b: Assignment)
    requires Fits(a, names) && t in Used(a)
    requires o.Some? ==> o.value <= t
    ensures Fits(b, names) && Used(b) == Used(a) - multiset{t} + Taken(o)
  {
    var p := UserOf(a, t);
    b := a[p := o];
    Reassign(a, p, o);
    Cancel(Used(b), Used(a), t, Taken(o));
    if o.Some? {
      PrefixTransitive(o.value, t, names[p]);
    }
  }

  lemma Cancel(b: multiset<string>, a: multiset<string>, t: string, o: multiset<string>)
    requires t in a && b + multiset{t} == a + o
    ensures b == a - multiset{t} + o
  {
    assert b == b + multiset{t} - multiset{t};
  }

  /** A template given to the first pod is a prefix of the one that pod takes. */
  lemma TakenIsListed(ts: seq<string>, x: string, a: Assignment)
    requires SpecificFirst(ts)
    requires a != [] && a[0].Some? && a[0].value <= x && Used(a) <= multiset(ts)
    ensures FirstMatch(ts, x) < |ts| && a[0].value <= ts[FirstMatch(ts, x)]
  {
    assert a[0].value in Used(a);
    assert a[0].value in multiset(ts);
    var k :| 0 <= k < |ts| && ts[k] == a[0].value;
    FirstMatchIsLongest(ts, x, k);
  }

  /** No matching serves more templates than the greedy loop crosses off. */
  lemma {:induction false} GreedyIsMaximum(ts: seq<string>, names: seq<string>, a: Assignment)
    requires SpecificFirst(ts)
    requires IsMatching(ts, names, a)
    ensures |Used(a)| <= Served(ts, names)
    decreases |names|
  {
    if names != [] {
      var b := Exchange(ts, names, a);
      ServeKeepsOrder(ts, names[0]);
      GreedyIsMaximum(Serve(ts, names[0]), names[1..], b);
    }
  }

  // ---------------------------------------------------------------- why the order matters

  function TotalLength(ss: seq<string>): nat {
    if ss == [] then 0 else |ss[0]| + TotalLength(ss[1..])
  }

  lemma {:induction false} TotalLengthDrop(ss: seq<string>, i: nat)
    requires i < |ss|
    ensures TotalLength(Drop(ss, i)) == TotalLength(ss) - |ss[i]|
    decreases i
  {
    if i == 0 {
      assert Drop(ss, 0) == ss[1..];
    } else {
      assert Drop(ss, i)[1..] == Drop(ss[1..], i - 1);
      TotalLengthDrop(ss[1..], i - 1);
    }
  }

  /** As many pods as templates clear the list only if their names are long enough in total. */
  lemma {:induction false} ClearingNeedsLength(ts: seq<string>, names: seq<string>)
    requires |names| == |ts| && Remaining(ts, names) == []
    ensures TotalLength(ts) <= TotalLength(names)
    decreases |names|
  {
    if names != [] {
      var i := FirstMatch(ts, names[0]);
      if i < |ts| {
        TotalLengthDrop(ts, i);
        ClearingNeedsLength(Drop(ts, i), names[1..]);
      } else {
        AtMostOneEach(ts, names[1..]);
      }
    }
  }

  lemma {:induction false} AtMostOneEach(ts: seq<string>, names: seq<string>)
    ensures |ts| <= |Remaining(ts, names)| + |names|
    decreases |names|
  {
    if names != [] {
      AtMostOneEach(Serve(ts, names[0]), names[1..]);
    }
  }

  /** A misplaced pair of templates yields one pod per template that still leaves a template over. */
  lemma {:induction false} MisplacedPair(ts: seq<string>, i: nat, j: nat) returns (names: seq<string>)
    requires i < j < |ts| && ts[i] <= ts[j] && ts[i] != ts[j]
    ensures multiset(names) == multiset(ts) && |names| == |ts|
    ensures Remaining(ts, names) != []
    decreases |ts|
  {
    var x := ts[j];
    var f := FirstMatch(ts, x);
    if ts[f] == x {
      assert Drop(ts, f)[i - 1] == ts[i] && Drop(ts, f)[j - 1] == ts[j];
      var rest := MisplacedPair(Drop(ts, f), i - 1, j - 1);
      names := [x] + rest;
      AddBack(ts, f, rest);
      RemainingCons(ts, x, rest);
    } else {
      names := [x] + Drop(ts, j);
      AddBack(ts, j, Drop(ts, j));
      ShorterTaken(ts, j);
    }
  }

  lemma {:induction false} OwnNamesClear(ts: seq<string>)
    ensures Remaining(ts, ts) == []
  {
    if ts != [] {
      FirstMatchIs(ts, ts[0], 0);
      OwnNamesClear(ts[1..]);
      assert Drop(ts, 0) == ts[1..];
    }
  }

  /** The list left is the same for every order of every sequence of pods if and only if it is specific-first. */
  lemma OrderIrrelevantExactlyWhenSpecificFirst(ts: seq<string>)
    ensures SpecificFirst(ts)
            <==> forall names, permuted :: multiset(names) == multiset(permuted) ==> Remaining(ts, names) == Remaining(ts, permuted)
  {
    if SpecificFirst(ts) {
      forall names, permuted | multiset(names) == multiset(permuted)
        ensures Remaining(ts, names) == Remaining(ts, permuted)
      {
        OrderIndependent(ts, names, permuted);
      }
    } else {
      var i, j :| 0 <= i < j < |ts| && ts[i] <= ts[j] && ts[i] != ts[j];
      var names := MisplacedPair(ts, i, j);
      OwnNamesClear(ts);
      assert Remaining(ts, names) != Remaining(ts, ts);
    }
  }

  lemma AddBack(ts: seq<string>, k: nat, rest: seq<string>)
    requires k < |ts| && multiset(rest) == multiset(Drop(ts, k))
    ensures multiset([ts[k]] + rest) == multiset(ts)
  {
    DropMultiset(ts, k);
  }

  /** A pod that takes a template shorter than its own name leaves too little for the others. */
  lemma ShorterTaken(ts: seq<string>, j: nat)
    requires j < |ts| && FirstMatch(ts, ts[j]) < |ts| && ts[FirstMatch(ts, ts[j])] != ts[j]
    ensures Remaining(ts, [ts[j]] + Drop(ts, j)) != []
  {
    var f, rest := FirstMatch(ts, ts[j]), Drop(ts, j);
    RemainingCons(ts, ts[j], rest);
    TotalLengthDrop(ts, f);
    TotalLengthDrop(ts, j);
    assert |ts[f]| < |ts[j]|;
    if Remaining(Drop(ts, f), rest) == [] {
      ClearingNeedsLength(Drop(ts, f), rest);
    }
  }

  lemma {:induction false} EachPodItsOwnName(names: seq<string>) returns (a: Assignment)
    ensures |a| == |names| && Used(a) == multiset(names)
    ensures forall p :: 0 <= p < |a| ==> a[p] == Some(names[p])
    decreases |names|
  {
    if names == [] {
      a := [];
    } else {
      var rest := EachPodItsOwnName(names[1..]);
      a := [Some(names[0])] + rest;
      assert a[1..] == rest && names == [names[0]] + names[1..];
    }
  }

  /**
    The loop crosses off a maximum matching for every sequence of pods if and only if the
    template list is specific-first.
   */
  lemma MaximumExactlyWhenSpecificFirst(ts: seq<string>)
    ensures SpecificFirst(ts)
            <==> forall names, a :: IsMatching(ts, names, a) ==> |Used(a)| <= Served(ts, names)
  {
    if SpecificFirst(ts) {
      forall names, a | IsMatching(ts, names, a)
        ensures |Used(a)| <= Served(ts, names)
      {
        GreedyIsMaximum(ts, names, a);
      }
    } else {
      var i, j :| 0 <= i < j < |ts| && ts[i] <= ts[j] && ts[i] != ts[j];
      var names := MisplacedPair(ts, i, j);
      var a := EachPodItsOwnName(names);
      assert IsMatching(ts, names, a) && |Used(a)| > Served(ts, names);
    }
  }

  /** The exit code is 0 exactly when distinct pods can serve all the templates. */
  lemma ExitZeroMeansAllServed(ts: seq<string>, names: seq<string>)
    requires SpecificFirst(ts)
    ensures |Remaining(ts, names)| == 0 <==> exists a :: IsMatching(ts, names, a) && Used(a) == multiset(ts)
  {
    if Remaining(ts, names) == [] {
      var a := GreedyMatching(ts, names);
      assert Used(a) == multiset(ts);
    }
    if a :| IsMatching(ts, names, a) && Used(a) == multiset(ts) {
      GreedyIsMaximum(ts, names, a);
    }
  }

  // ---------------------------------------------------------------- the script

  /** A pod: its name, its phase, and the ready flags of its containers when it reports any. */
  datatype Pod = Pod(name: string, phase: string, containersReady: Option<seq<bool>>)

  datatype Outcome = Exit(code: nat) | Crash

  /** Whether a pod counts as healthy; None when reading the first container status raises. */
  function Healthy(pod: Pod): Option<bool> {
    if pod.phase == "Succeeded" then Some(true)
    else if pod.phase != "Running" then Some(false)
    else match pod.containersReady
      case None => None
      case Some(flags) => if flags == [] then None else Some(flags[0])
  }

  /** The names of the healthy pods in order, or None when some pod's check raises. */
  function HealthyNames(pods: seq<Pod>): Option<seq<string>> {
    if pods == [] then Some([])
    else
      match (Healthy(pods[0]), HealthyNames(pods[1..]))
      case (Some(h), Some(rest)) => Some(HealthyPart(h, pods[0].name) + rest)
      case _ => None
  }

  /** What a pod list leaves of a template list, or None when the script raises. */
  function LeftBy(ts: seq<string>, pods: seq<Pod>): Option<seq<string>> {
    match HealthyNames(pods)
    case None => None
    case Some(names) => Some(Remaining(ts, names))
  }

  lemma LeftByFirst(ts: seq<string>, pods: seq<Pod>)
    requires pods != []
    ensures LeftBy(ts, pods) == match Healthy(pods[0])
                                case None => None
                                case Some(h) => LeftBy(if h then Serve(ts, pods[0].name) else ts, pods[1..])
  {
    var rest := HealthyNames(pods[1..]);
    if rest.Some? {
      RemainingCons(ts, pods[0].name, rest.value);
      assert [] + rest.value == rest.value;
    }
  }

  lemma {:induction false} MovePod(a: seq<Pod>, x: Pod, b: seq<Pod>)
    ensures SameNames(HealthyNames(a + ([x] + b)), HealthyNames([x] + (a + b)))
    decreases |a|
  {
    if a == [] {
      assert a + ([x] + b) == [x] + (a + b);
    } else {
      var y, c := a[0], a[1..];
      MovePod(c, x, b);
      assert a + ([x] + b) == [y] + (c + ([x] + b));
      assert [x] + (a + b) == [x] + ([y] + (c + b));
      FirstPod(y, c + ([x] + b));
      FirstPod(x, c + b);
      FirstPod(x, [y] + (c + b));
      FirstPod(y, c + b);
    }
  }

  ghost predicate SameNames(a: Option<seq<string>>, b: Option<seq<string>>) {
    match (a, b)
    case (Some(x), Some(y)) => multiset(x) == multiset(y)
    case (None, None) => true
    case _ => false
  }

  function HealthyPart(h: bool, name: string): seq<string> {
    if h then [name] else []
  }

  lemma FirstPod(x: Pod, rest: seq<Pod>)
    ensures HealthyNames([x] + rest)
            == match (Healthy(x), HealthyNames(rest))
               case (Some(h), Some(names)) => Some(HealthyPart(h, x.name) + names)
               case _ => None
  {
    assert ([x] + rest)[1..] == rest;
  }

  /** Pods in another order have the same healthy names in another order, or raise as well. */
  lemma {:induction false} PermutedPods(pods: seq<Pod>, permuted: seq<Pod>)
    requires multiset(pods) == multiset(permuted)
    ensures SameNames(HealthyNames(pods), HealthyNames(permuted))
    decreases |pods|
  {
    if pods == [] {
      assert |multiset(permuted)| == 0;
    } else {
      var x, rest := pods[0], pods[1..];
      assert pods == [x] + rest;
      var a, b := SplitAt(permuted, x);
      assert multiset(rest) == multiset(a + b);
      PermutedPods(rest, a + b);
      FirstPod(x, rest);
      FirstPod(x, a + b);
      MovePod(a, x, b);
    }
  }

  /** The order in which namespaces and pods are listed does not matter to the script. */
  lemma PodOrderIrrelevant(ts: seq<string>, pods: seq<Pod>, permuted: seq<Pod>)
    requires SpecificFirst(ts) && multiset(pods) == multiset(permuted)
    ensures LeftBy(ts, pods) == LeftBy(ts, permuted)
  {
    PermutedPods(pods, permuted);
    if HealthyNames(pods).Some? {
      OrderIndependent(ts, HealthyNames(pods).value, HealthyNames(permuted).value);
    }
  }

  // ---------------------------------------------------------------- what the pods say

  /** A running pod without a container status, which makes the script raise. */
  predicate Unreported(pod: Pod) {
    pod.phase == "Running" && (pod.containersReady.None? || pod.containersReady.value == [])
  }

  ghost predicate AnyUnreported(pods: seq<Pod>) {
    exists p :: 0 <= p < |pods| && Unreported(pods[p])
  }

  /** A pod that has finished, or runs with its first container ready. */
  predicate MayServe(pod: Pod) {
    || pod.phase == "Succeeded"
    || (pod.phase == "Running" && pod.containersReady.Some? && pod.containersReady.value != [] && pod.containersReady.value[0])
  }

  /** Templates given to pods as they are listed: only to such pods, and only prefixes of their names. */
  ghost predicate PodsFit(pods: seq<Pod>, a: Assignment) {
    && |a| == |pods|
    && forall p :: 0 <= p < |pods| && a[p].Some? ==> MayServe(pods[p]) && a[p].value <= pods[p].name
  }

  lemma {:induction false} RaisesWhenUnreported(pods: seq<Pod>)
    ensures HealthyNames(pods).None? <==> AnyUnreported(pods)
    decreases |pods|
  {
    if pods != [] {
      RaisesWhenUnreported(pods[1..]);
      assert forall p :: 0 < p < |pods| ==> pods[p] == pods[1..][p - 1];
    }
  }

  /** An assignment to the healthy names as one to all pods. */
  lemma {:induction false} ToPods(pods: seq<Pod>, b: Assignment) returns (a: Assignment)
    requires HealthyNames(pods).Some? && Fits(b, HealthyNames(pods).value)
    ensures PodsFit(pods, a) && Used(a) == Used(b)
    decreases |pods|
  {
    if pods == [] {
      a := [];
    } else if MayServe(pods[0]) {
      var names := HealthyNames(pods).value;
      assert names[1..] == HealthyNames(pods[1..]).value;
      FitsCons(b, names);
      var rest := ToPods(pods[1..], b[1..]);
      a := [b[0]] + rest;
      assert a[1..] == rest;
    } else {
      assert HealthyNames(pods).value == HealthyNames(pods[1..]).value;
      var rest := ToPods(pods[1..], b);
      a := [None] + rest;
      assert a[1..] == rest;
    }
  }

  /** An assignment to all pods as one to the healthy names. */
  lemma {:induction false} FromPods(pods: seq<Pod>, a: Assignment) returns (b: Assignment)
    requires HealthyNames(pods).Some? && PodsFit(pods, a)
    ensures Fits(b, HealthyNames(pods).value) && Used(b) == Used(a)
    decreases |pods|
  {
    if pods == [] {
      b := [];
    } else {
      var rest := FromPods(pods[1..], a[1..]);
      if MayServe(pods[0]) {
        var names := HealthyNames(pods).value;
        assert names[1..] == HealthyNames(pods[1..]).value;
        b := [a[0]] + rest;
        assert b[1..] == rest;
        FitsCons(b, names);
      } else {
        assert HealthyNames(pods).value == HealthyNames(pods[1..]).value;
        b := rest;
      }
    }
  }

  /** The number of templates left when the given ones are the most that the pods can serve. */
  ghost predicate LeavesFewest(ts: seq<string>, pods: seq<Pod>, left: int) {
    && (exists a :: PodsFit(pods, a) && Used(a) <= multiset(ts) && left == |ts| - |Used(a)|)
    && (forall a :: PodsFit(pods, a) && Used(a) <= multiset(ts) ==> left <= |ts| - |Used(a)|)
  }

  /**
    What the script does in terms of the pods alone: it raises exactly when a running pod has no
    container status, and otherwise leaves as few templates as any assignment of templates to
    finished or ready pods can.
   */
  lemma ScriptLeavesFewest(ts: seq<string>, pods: seq<Pod>)
    requires SpecificFirst(ts)
    ensures LeftBy(ts, pods).None? <==> AnyUnreported(pods)
    ensures LeftBy(ts, pods).Some? ==> LeavesFewest(ts, pods, |LeftBy(ts, pods).value|)
  {
    RaisesWhenUnreported(pods);
    if HealthyNames(pods).Some? {
      var names := HealthyNames(pods).value;
      var b := GreedyMatching(ts, names);
      var a := ToPods(pods, b);
      assert |Remaining(ts, names)| == |ts| - |Used(a)|;
      forall c | PodsFit(pods, c) && Used(c) <= multiset(ts)
        ensures |Remaining(ts, names)| <= |ts| - |Used(c)|
      {
        var d := FromPods(pods, c);
        GreedyIsMaximum(ts, names, d);
      }
    }
  }

  /** The templates without the first one that prefixes the name, if there is one. */
  ghost predicate FirstPrefixGone(ts: seq<string>, name: string, left: seq<string>) {
    || (left == ts && forall k :: 0 <= k < |ts| ==> !(ts[k] <= name))
    || (exists i :: 0 <= i < |ts| && ts[i] <= name && left == ts[..i] + ts[i + 1..] && forall k :: 0 <= k < i ==> !(ts[k] <= name))
  }

  /** The script is the succession of its pods, for any template list. */
  lemma {:induction false} PodsInTurn(ts: seq<string>, a: seq<Pod>, b: seq<Pod>)
    ensures HealthyNames(a).Some? ==>
              LeftBy(ts, a + b) == LeftBy(LeftBy(ts, a).value, b)
    decreases |a|
  {
    if a == [] {
      assert a + b == b;
    } else if HealthyNames(a).Some? {
      var x, c := a[0], a[1..];
      assert (a + b)[0] == x && (a + b)[1..] == c + b;
      LeftByFirst(ts, a);
      LeftByFirst(ts, a + b);
      PodsInTurn(if Healthy(x).value then Serve(ts, x.name) else ts, c, b);
    }
  }

  /** One pod: a finished or ready one takes the first prefix of its name, any other leaves the list alone. */
  lemma OnePod(ts: seq<string>, pod: Pod)
    requires !Unreported(pod)
    ensures LeftBy(ts, [pod]).Some?
    ensures MayServe(pod) ==> FirstPrefixGone(ts, pod.name, LeftBy(ts, [pod]).value)
    ensures !MayServe(pod) ==> LeftBy(ts, [pod]).value == ts
  {
    assert [pod][1..] == [];
    LeftByFirst(ts, [pod]);
    FirstGone(ts, pod.name);
  }

  lemma FirstGone(ts: seq<string>, name: string)
    ensures FirstPrefixGone(ts, name, Serve(ts, name))
  {
  }

  /** The status the operating system sees: one for an uncaught exception, the low byte of an exit code. */
  function Status(r: Outcome): nat {
    match r
    case Crash => 1
    case Exit(code) => code % 256
  }

  /** The outcome that `Validator.Validate` has for a template list and these pods. */
  function OutcomeOf(ts: seq<string>, pods: seq<Pod>): Outcome {
    match LeftBy(ts, pods)
    case None => Crash
    case Some(left) => Exit(|left|)
  }

  /** The status that the pods call for: one if a check raises, else the low byte of the smallest number of templates left over. */
  ghost predicate StatusFor(ts: seq<string>, pods: seq<Pod>, status: nat) {
    if AnyUnreported(pods) then status == 1
    else exists left: nat :: LeavesFewest(ts, pods, left) && IsLowByte(left, status)
  }

  predicate IsLowByte(code: nat, status: nat) {
    status < 256 && (code - status) % 256 == 0
  }

  /** No check raises, and all templates can be given to different finished or ready pods. */
  ghost predicate AllServable(ts: seq<string>, pods: seq<Pod>) {
    !AnyUnreported(pods) && exists a :: PodsFit(pods, a) && Used(a) == multiset(ts)
  }

  lemma StatusIs(ts: seq<string>, pods: seq<Pod>)
    requires SpecificFirst(ts)
    ensures StatusFor(ts, pods, Status(OutcomeOf(ts, pods)))
    ensures |ts| < 256 ==> (Status(OutcomeOf(ts, pods)) == 0 <==> AllServable(ts, pods))
  {
    ScriptLeavesFewest(ts, pods);
    if !AnyUnreported(pods) {
      var left := |LeftBy(ts, pods).value|;
      LowByte(left);
      assert OutcomeOf(ts, pods) == Exit(left);
      LeftIsShort(ts, pods);
      NoneLeft(ts, pods, left);
    }
  }

  lemma LeftIsShort(ts: seq<string>, pods: seq<Pod>)
    requires LeftBy(ts, pods).Some?
    ensures |LeftBy(ts, pods).value| <= |ts|
  {
    RemainingShrinks(ts, HealthyNames(pods).value);
  }

  lemma LowByte(code: nat)
    ensures IsLowByte(code, Status(Exit(code)))
    ensures code < 256 ==> Status(Exit(code)) == code
  {
  }

  lemma NoneLeft(ts: seq<string>, pods: seq<Pod>, left: nat)
    requires LeavesFewest(ts, pods, left)
    ensures left == 0 <==> exists a :: PodsFit(pods, a) && Used(a) == multiset(ts)
  {
    if left == 0 {
      var a :| PodsFit(pods, a) && Used(a) <= multiset(ts) && left == |ts| - |Used(a)|;
      UsedAll(ts, Used(a));
    }
  }

  lemma UsedAll(ts: seq<string>, used: multiset<string>)
    requires used <= multiset(ts)
    ensures |used| == |ts| <==> used == multiset(ts)
  {
    assert multiset(ts) == used + (multiset(ts) - used);
    assert |multiset(ts)| == |used| + |multiset(ts) - used|;
  }

  /** The script and its module-level template list, which the pod loop shortens in place. */
  class Validator {
    var podsTemplates: seq<string>

    constructor (templates: seq<string>)
      ensures podsTemplates == templates
    {
      podsTemplates := templates;
    }

    /** The inner loop: remove the first template that the name starts with. */
    method CrossOff(name: string)
      modifies this
      ensures podsTemplates == Serve(old(podsTemplates), name)
      ensures FirstPrefixGone(old(podsTemplates), name, podsTemplates)
    {
      FirstGone(podsTemplates, name);
      for i := 0 to |podsTemplates|
        invariant podsTemplates == old(podsTemplates)
        invariant forall k :: 0 <= k < i ==> !(podsTemplates[k] <= name)
      {
        if podsTemplates[i] <= name {
          FirstMatchIs(podsTemplates, name, i);
          podsTemplates := Drop(podsTemplates, i);
          return;
        }
      }
      FirstMatchIs(podsTemplates, name, |podsTemplates|);
    }

    method Validate(istioSystem: seq<Pod>, kubeflow: seq<Pod>, auth: seq<Pod>) returns (r: Outcome)
      modifies this
      ensures match LeftBy(old(podsTemplates), istioSystem + kubeflow + auth)
              case None => r == Crash
              case Some(left) => podsTemplates == left && r == Exit(|left|)
      ensures r == Crash <==> AnyUnreported(istioSystem + kubeflow + auth)
    {
      RaisesWhenUnreported(istioSystem + kubeflow + auth);
      var pods := istioSystem;
      pods := pods + kubeflow;
      pods := pods + auth;
      var i := 0;
      while i < |pods|
        invariant 0 <= i <= |pods|
        invariant LeftBy(podsTemplates, pods[i..]) == LeftBy(old(podsTemplates), pods)
      {
        LeftByFirst(podsTemplates, pods[i..]);
        assert pods[i..][1..] == pods[i + 1..];
        var healthy := Healthy(pods[i]);
        if healthy.None? {
          return Crash;
        }
        if healthy.value {
          CrossOff(pods[i].name);
        }
        i := i + 1;
      }
      assert pods[i..] == [];
      r := Exit(|podsTemplates|);
    }
  }

  /** The script over its three namespaces. */
  method RunWith(ts: seq<string>, istioSystem: seq<Pod>, kubeflow: seq<Pod>, auth: seq<Pod>) returns (status: nat)
    requires SpecificFirst(ts)
    ensures StatusFor(ts, istioSystem + kubeflow + auth, status)
    ensures |ts| < 256 ==> (status == 0 <==> AllServable(ts, istioSystem + kubeflow + auth))
  {
    var validator := new Validator(ts);
    var r := validator.Validate(istioSystem, kubeflow, auth);
    StatusIs(ts, istioSystem + kubeflow + auth);
    status := Status(r);
  }
}
