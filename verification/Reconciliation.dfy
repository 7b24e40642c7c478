/**
  The step relation assumed of Metacontroller around a sync hook: it creates missing children,
  deletes extra ones, and replaces drifted ones of the kinds whose update strategy allows it.
 */
module Reconciliation {
  /**
    The kinds of children, each with its API version: the keys `Secret.v1`, `ConfigMap.v1`,
    `Deployment.apps/v1`, `Service.v1`, `DestinationRule.networking.istio.io/v1alpha3`,
    `AuthorizationPolicy.security.istio.io/v1beta1`, and `Role` and `RoleBinding` of
    `rbac.authorization.k8s.io/v1`.
   */
  datatype Group =
    | Secret
    | ConfigMap
    | Deployment
    | Service
    | DestinationRule
    | AuthorizationPolicy
    | Role
    | RoleBinding

  datatype Key = Key(group: Group, name: string)

  type Cluster<T> = map<Key, T>

  /** Whether a child still needs a step. */
  ghost predicate Pending<T>(desired: Cluster<T>, inPlace: set<Group>, c: Cluster<T>, k: Key) {
    || (k in desired && k !in c)
    || (k !in desired && k in c)
    || (k in desired && k in c && c[k] != desired[k] && k.group in inPlace)
  }

  ghost function PendingKeys<T>(desired: Cluster<T>, inPlace: set<Group>, c: Cluster<T>): set<Key> {
    set k | k in desired.Keys + c.Keys && Pending(desired, inPlace, c, k)
  }

  /** One step settles one pending child. */
  ghost predicate StepOn<T>(desired: Cluster<T>, inPlace: set<Group>, c: Cluster<T>, k: Key, next: Cluster<T>) {
    && Pending(desired, inPlace, c, k)
    && next == if k in desired then c[k := desired[k]] else c - {k}
  }

  ghost predicate Step<T>(desired: Cluster<T>, inPlace: set<Group>, c: Cluster<T>, next: Cluster<T>) {
    exists k :: StepOn(desired, inPlace, c, k, next)
  }

  /** A run of steps. */
  ghost predicate Run<T>(desired: Cluster<T>, inPlace: set<Group>, run: seq<Cluster<T>>) {
    run != [] && forall i :: 0 <= i < |run| - 1 ==> Step(desired, inPlace, run[i], run[i + 1])
  }

  ghost predicate Settled<T(!new)>(desired: Cluster<T>, inPlace: set<Group>, c: Cluster<T>) {
    forall next :: !Step(desired, inPlace, c, next)
  }

  /** The desired children, except that those already there of other kinds stay as they are. */
  ghost function Outcome<T>(desired: Cluster<T>, inPlace: set<Group>, c: Cluster<T>): Cluster<T> {
    map k | k in desired :: if k in c && k.group !in inPlace then c[k] else desired[k]
  }

  lemma StepKeepsOutcome<T>(desired: Cluster<T>, inPlace: set<Group>, c: Cluster<T>, next: Cluster<T>)
    requires Step(desired, inPlace, c, next)
    ensures Outcome(desired, inPlace, next) == Outcome(desired, inPlace, c)
    ensures |PendingKeys(desired, inPlace, next)| == |PendingKeys(desired, inPlace, c)| - 1
  {
    var k :| StepOn(desired, inPlace, c, k, next);
    var before, after := PendingKeys(desired, inPlace, c), PendingKeys(desired, inPlace, next);
    forall j
      ensures j in after <==> j in before && j != k
    {
      assert j != k ==> (j in next <==> j in c) && (j in c ==> next[j] == c[j]);
    }
    assert after == before - {k};
  }

  lemma SettledAtOutcome<T(!new)>(desired: Cluster<T>, inPlace: set<Group>, c: Cluster<T>)
    ensures Settled(desired, inPlace, c) <==> c == Outcome(desired, inPlace, c)
    ensures Settled(desired, inPlace, c) <==> |PendingKeys(desired, inPlace, c)| == 0
  {
    if PendingKeys(desired, inPlace, c) != {} {
      var k :| k in PendingKeys(desired, inPlace, c);
      var next := if k in desired then c[k := desired[k]] else c - {k};
      assert StepOn(desired, inPlace, c, k, next);
      assert Step(desired, inPlace, c, next);
      assert k in c && k in desired ==> Outcome(desired, inPlace, c)[k] == desired[k];
      assert c != Outcome(desired, inPlace, c);
    } else {
      forall k
        ensures !Pending(desired, inPlace, c, k)
      {
        assert k !in PendingKeys(desired, inPlace, c);
      }
      forall k
        ensures k in c <==> k in desired
      {
        assert k !in PendingKeys(desired, inPlace, c);
      }
      forall k | k in c
        ensures c[k] == Outcome(desired, inPlace, c)[k]
      {
        assert k !in PendingKeys(desired, inPlace, c);
      }
    }
  }

  /**
    Every run shortens the list of pending children by one a step, so it ends; wherever a run
    settles, it has reached the same outcome, determined by its start.
   */
  lemma {:induction false} RunsReachOutcome<T(!new)>(desired: Cluster<T>, inPlace: set<Group>, run: seq<Cluster<T>>)
    requires Run(desired, inPlace, run)
    ensures |PendingKeys(desired, inPlace, run[|run| - 1])| == |PendingKeys(desired, inPlace, run[0])| - (|run| - 1)
    ensures Settled(desired, inPlace, run[|run| - 1])
            <==> run[|run| - 1] == Outcome(desired, inPlace, run[0])
    ensures Settled(desired, inPlace, run[|run| - 1])
            <==> |run| - 1 == |PendingKeys(desired, inPlace, run[0])|
    decreases |run|
  {
    var last := run[|run| - 1];
    RunKeepsOutcome(desired, inPlace, run);
    SettledAtOutcome(desired, inPlace, last);
  }

  lemma {:induction false} RunKeepsOutcome<T>(desired: Cluster<T>, inPlace: set<Group>, run: seq<Cluster<T>>)
    requires Run(desired, inPlace, run)
    ensures Outcome(desired, inPlace, run[|run| - 1]) == Outcome(desired, inPlace, run[0])
    ensures |PendingKeys(desired, inPlace, run[|run| - 1])| == |PendingKeys(desired, inPlace, run[0])| - (|run| - 1)
    decreases |run|
  {
    if |run| > 1 {
      var front := run[..|run| - 1];
      assert forall i :: 0 <= i < |front| ==> front[i] == run[i];
      RunKeepsOutcome(desired, inPlace, front);
      StepKeepsOutcome(desired, inPlace, run[|run| - 2], run[|run| - 1]);
    }
  }

  /** The outcome is the desired set exactly when no child of a kind that is left alone has drifted. */
  lemma OutcomeIsDesired<T>(desired: Cluster<T>, inPlace: set<Group>, c: Cluster<T>)
    ensures Outcome(desired, inPlace, c).Keys == desired.Keys
    ensures Outcome(desired, inPlace, c) == desired
            <==> forall k :: k in desired && k in c && k.group !in inPlace ==> c[k] == desired[k]
  {
    var out := Outcome(desired, inPlace, c);
    if out == desired {
      forall k | k in desired && k in c && k.group !in inPlace
        ensures c[k] == desired[k]
      {
        assert out[k] == c[k];
      }
    }
  }

  /** A cluster that holds only desired children keeps doing so. */
  lemma {:induction false} OnlyDesiredStays<T>(desired: Cluster<T>, inPlace: set<Group>, run: seq<Cluster<T>>)
    requires Run(desired, inPlace, run) && run[0].Keys <= desired.Keys
    ensures forall i :: 0 <= i < |run| ==> run[i].Keys <= desired.Keys
    decreases |run|
  {
    if |run| > 1 {
      var front := run[..|run| - 1];
      assert forall i :: 0 <= i < |front| ==> front[i] == run[i];
      OnlyDesiredStays(desired, inPlace, front);
      var c, next := run[|run| - 2], run[|run| - 1];
      assert c == front[|front| - 1];
      var k :| StepOn(desired, inPlace, c, k, next);
    }
  }
}
