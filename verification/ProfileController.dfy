/**
  apps/pipeline/.../pipelines-profile-controller/sync.py: the children a profile namespace should
  have and the readiness reported for it, run by Metacontroller.
 */
module ProfileController {
  import opened Wrappers
  import opened Reconciliation

  /** The environment of the webhook process; the MinIO values are already base64 text. */
  datatype Settings = Settings(
    kfpVersion: string,
    disableIstioSidecar: bool,
    accessKey: string,
    secretKey: string,
    host: string,
    port: string,
    secure: string,
    airgapRegistry: string)

  /** What sync reads of a namespace. */
  datatype Parent = Parent(name: Option<string>, labels: map<string, string>)

  /** The part of a manifest that is particular to it. */
  datatype Content =
    | Data(data: map<string, string>)
    | Deployed(app: string, annotations: map<string, string>, image: string, containerPort: nat,
               requests: (string, string), limits: (string, string), serviceAccount: string)
    | MutualTls(host: string)
    | AllowFrom(app: string, principals: seq<string>)
    | Exposed(selector: string, labels: map<string, string>, port: nat, targetPort: nat)
    | Allows(apiGroups: seq<string>, resources: seq<string>, verbs: seq<string>)
    | Binds(role: string, account: string)

  datatype Child = Child(group: Group, name: string, namespace: Option<string>, content: Content)

  function KeyOf(c: Child): Key {
    Key(c.group, c.name)
  }

  /** The observed children by group and then by name. */
  type Observed = map<Group, map<string, Child>>

  datatype Response = Response(ready: Option<string>, children: seq<Child>)

  const ENABLED := "pipelines.kubeflow.org/enabled"

  /** The counts that make a namespace ready, in the order they are read. */
  const REQUIRED: seq<(Group, nat)> :=
    [(Secret, 1), (ConfigMap, 1), (Deployment, 2), (Service, 2), (DestinationRule, 1), (AuthorizationPolicy, 1)]

  /** Reads the counts until one differs; None for the KeyError of a group that is not observed. */
  function CountsMatch(observed: Observed, required: seq<(Group, nat)>): Option<bool> {
    if required == [] then Some(true)
    else if required[0].0 !in observed then None
    else if |observed[required[0].0]| != required[0].1 then Some(false)
    else CountsMatch(observed, required[1..])
  }

  function IsEnabled(p: Parent): bool {
    ENABLED in p.labels && p.labels[ENABLED] == "true"
  }

  function Annotations(s: Settings): map<string, string> {
    if s.disableIstioSidecar then map["sidecar.istio.io/inject" := "false"] else map[]
  }

  const VIS := "ml-pipeline-visualizationserver"
  const UI := "ml-pipeline-ui-artifact"

  function Visualization(s: Settings, ns: Option<string>): seq<Child> {
    [ Child(Deployment, VIS, ns,
            Deployed(VIS, Annotations(s), s.airgapRegistry + "gcr.io/ml-pipeline/visualization-server:" + s.kfpVersion,
                     8888, ("50m", "200Mi"), ("500m", "1Gi"), "default-editor")),
      Child(DestinationRule, VIS, ns, MutualTls(VIS)),
      Child(AuthorizationPolicy, VIS, ns,
            AllowFrom(VIS, ["cluster.local/ns/kubeflow/sa/ml-pipeline"])),
      Child(Service, VIS, ns, Exposed(VIS, map[], 8888, 8888)) ]
  }

  function ArtifactFetcher(s: Settings, ns: Option<string>): seq<Child> {
    [ Child(Deployment, UI, ns,
            Deployed(UI, Annotations(s), s.airgapRegistry + "gcr.io/ml-pipeline/frontend:" + s.kfpVersion,
                     3000, ("10m", "70Mi"), ("100m", "500Mi"), "default-editor")),
      Child(Service, UI, ns, Exposed(UI, map["app" := UI], 80, 3000)) ]
  }

  function GrpcConfig(ns: Option<string>): Child {
    Child(ConfigMap, "metadata-grpc-configmap", ns,
          Data(map["METADATA_GRPC_SERVICE_HOST" := "metadata-grpc-service.kubeflow", "METADATA_GRPC_SERVICE_PORT" := "8080"]))
  }

  function MinioSecret(s: Settings, ns: Option<string>): Child {
    Child(Secret, "minio-params", ns,
          Data(map["accesskey" := s.accessKey, "secretkey" := s.secretKey,
                   "host" := s.host, "port" := s.port, "secure" := s.secure]))
  }

  function WorkflowRole(ns: Option<string>): Child {
    Child(Role, "workflow-role", ns,
          Allows([""], ["pods", "pods/log"], ["get", "watch", "patch"]))
  }

  function WorkflowBinding(ns: Option<string>): Child {
    Child(RoleBinding, "workflow-default-binding", ns, Binds("workflow-role", "default"))
  }

  /** All children of an enabled namespace. */
  function DesiredChildren(s: Settings, ns: Option<string>): seq<Child> {
    [GrpcConfig(ns)] + Visualization(s, ns) + ArtifactFetcher(s, ns)
    + [MinioSecret(s, ns), WorkflowRole(ns), WorkflowBinding(ns)]
  }

  /** The answer about a parent whose children should be the given ones; None for a KeyError. */
  function Answer(p: Parent, observed: Observed, desired: seq<Child>): Option<Response> {
    if !IsEnabled(p) then Some(Response(None, []))
    else
      match CountsMatch(observed, REQUIRED)
      case None => None
      case Some(ok) => Some(Response(Some(if ok then "True" else "False"), desired))
  }

  /** The webhook as a function of the parent and the observed children. */
  function Sync(s: Settings, p: Parent, observed: Observed): Option<Response> {
    Answer(p, observed, DesiredChildren(s, p.name))
  }

  /** The method as written: the status first, then a list that grows. */
  class Controller {
    const settings: Settings

    constructor (settings: Settings)
      ensures this.settings == settings
    {
      this.settings := settings;
    }

    method Respond(parent: Parent, children: Observed) returns (r: Option<Response>)
      ensures r == Sync(settings, parent, children)
      ensures IsAnswer(settings, parent, children, r)
    {
      AnswersAs(settings, parent, children);
      if !IsEnabled(parent) {
        return Some(Response(None, []));
      }
      var ready := ReadCounts(children);
      if ready.None? {
        return None;
      }
      var desiredResources := ListResources(parent.name);
      return Some(Response(Some(if ready.value then "True" else "False"), desiredResources));
    }

    /** The status: the counts are read only until one differs. */
    method ReadCounts(children: Observed) returns (ready: Option<bool>)
      ensures ready == CountsMatch(children, REQUIRED)
    {
      for i := 0 to |REQUIRED|
        invariant CountsMatch(children, REQUIRED) == CountsMatch(children, REQUIRED[i..])
      {
        assert REQUIRED[i..][0] == REQUIRED[i] && REQUIRED[i..][1..] == REQUIRED[i + 1..];
        var (group, count) := REQUIRED[i];
        if group !in children {
          return None;
        }
        if |children[group]| != count {
          return Some(false);
        }
      }
      return Some(true);
    }

    /** The list of children, which grows. */
    method ListResources(namespace: Option<string>) returns (desiredResources: seq<Child>)
      ensures desiredResources == DesiredChildren(settings, namespace)
    {
      desiredResources := [GrpcConfig(namespace)];
      desiredResources := desiredResources + Visualization(settings, namespace);
      desiredResources := desiredResources + ArtifactFetcher(settings, namespace);
      desiredResources := desiredResources + [MinioSecret(settings, namespace)];
      desiredResources := desiredResources + [WorkflowRole(namespace)];
      desiredResources := desiredResources + [WorkflowBinding(namespace)];
    }
  }

  // ---------------------------------------------------------------- what is answered

  /** The namespace carries the label that asks for pipelines, with that very value. */
  predicate Asked(p: Parent) {
    "pipelines.kubeflow.org/enabled" in p.labels && p.labels["pipelines.kubeflow.org/enabled"] == "true"
  }

  predicate CountIs(observed: Observed, g: Group, n: nat) {
    g in observed && |observed[g]| == n
  }

  /** One each of the configuration and traffic objects, two deployments and two services. */
  predicate AllCounted(observed: Observed) {
    && CountIs(observed, Secret, 1) && CountIs(observed, ConfigMap, 1)
    && CountIs(observed, Deployment, 2) && CountIs(observed, Service, 2)
    && CountIs(observed, DestinationRule, 1) && CountIs(observed, AuthorizationPolicy, 1)
  }

  /** The group is not observed, or its count is right and the rest of the count fails. */
  predicate Misses(observed: Observed, g: Group, n: nat, rest: bool) {
    g !in observed || (|observed[g]| == n && rest)
  }

  /** A group that is not observed comes before any count that differs. */
  predicate Unanswerable(observed: Observed) {
    Misses(observed, Secret, 1, Misses(observed, ConfigMap, 1, Misses(observed, Deployment, 2,
      Misses(observed, Service, 2, Misses(observed, DestinationRule, 1, Misses(observed, AuthorizationPolicy, 1, false))))))
  }

  lemma CountsStep(observed: Observed, i: nat)
    requires i < |REQUIRED|
    ensures CountsMatch(observed, REQUIRED[i..])
            == if REQUIRED[i].0 !in observed then None
               else if |observed[REQUIRED[i].0]| != REQUIRED[i].1 then Some(false)
               else CountsMatch(observed, REQUIRED[i + 1..])
  {
    assert REQUIRED[i..][1..] == REQUIRED[i + 1..];
  }

  lemma CountsAnswer(observed: Observed)
    ensures CountsMatch(observed, REQUIRED).None? <==> Unanswerable(observed)
    ensures CountsMatch(observed, REQUIRED).Some? ==> CountsMatch(observed, REQUIRED).value == AllCounted(observed)
  {
    assert REQUIRED[0..] == REQUIRED && REQUIRED[6..] == [];
    CountsStep(observed, 0);
    CountsStep(observed, 1);
    CountsStep(observed, 2);
    CountsStep(observed, 3);
    CountsStep(observed, 4);
    CountsStep(observed, 5);
  }

  /** A child of that kind and name is listed, with that content. */
  predicate Has(cs: seq<Child>, ns: Option<string>, g: Group, name: string, content: Content) {
    Child(g, name, ns, content) in cs
  }

  /** The Secret carries the five object store settings, each under its own key. */
  predicate HoldsSettings(s: Settings, d: map<string, string>) {
    && d.Keys == {"accesskey", "secretkey", "host", "port", "secure"}
    && d["accesskey"] == s.accessKey && d["secretkey"] == s.secretKey
    && d["host"] == s.host && d["port"] == s.port && d["secure"] == s.secure
  }

  /** A deployment that runs an image of the registry and version, reached by a service of the same name. */
  ghost predicate Serves(
    s: Settings, cs: seq<Child>, app: string, image: string, port: nat, targetPort: nat,
    resources: ((string, string), (string, string)), labels: map<string, string>)
  {
    && (exists c :: c in cs && c.group == Deployment && c.name == app && c.content.Deployed? && c.content.app == app
                    && c.content.image == s.airgapRegistry + "gcr.io/ml-pipeline/" + image + ":" + s.kfpVersion
                    && c.content.containerPort == targetPort && c.content.serviceAccount == "default-editor"
                    && (c.content.requests, c.content.limits) == resources
                    && (s.disableIstioSidecar ==> c.content.annotations == map["sidecar.istio.io/inject" := "false"])
                    && (!s.disableIstioSidecar ==> c.content.annotations == map[]))
    && (exists c :: c in cs && c.group == Service && c.name == app && c.content.Exposed?
                    && c.content.selector == app && c.content.port == port && c.content.targetPort == targetPort
                    && c.content.labels == labels)
  }

  /** The ten children, each in the namespace, and what refers to what. */
  ghost predicate AreChildren(s: Settings, ns: Option<string>, cs: seq<Child>) {
    && |cs| == 10 && (forall c :: c in cs ==> c.namespace == ns)
    && Serves(s, cs, "ml-pipeline-visualizationserver", "visualization-server", 8888, 8888,
              (("50m", "200Mi"), ("500m", "1Gi")), map[])
    && Serves(s, cs, "ml-pipeline-ui-artifact", "frontend", 80, 3000,
              (("10m", "70Mi"), ("100m", "500Mi")), map["app" := "ml-pipeline-ui-artifact"])
    && Has(cs, ns, DestinationRule, "ml-pipeline-visualizationserver", MutualTls("ml-pipeline-visualizationserver"))
    && Has(cs, ns, AuthorizationPolicy, "ml-pipeline-visualizationserver",
           AllowFrom("ml-pipeline-visualizationserver", ["cluster.local/ns/kubeflow/sa/ml-pipeline"]))
    && AreConfigured(s, ns, cs)
  }

  ghost predicate AreConfigured(s: Settings, ns: Option<string>, cs: seq<Child>) {
    && Has(cs, ns, ConfigMap, "metadata-grpc-configmap",
           Data(map["METADATA_GRPC_SERVICE_HOST" := "metadata-grpc-service.kubeflow", "METADATA_GRPC_SERVICE_PORT" := "8080"]))
    && (exists d :: HoldsSettings(s, d) && Has(cs, ns, Secret, "minio-params", Data(d)))
    && Has(cs, ns, Role, "workflow-role", Allows([""], ["pods", "pods/log"], ["get", "watch", "patch"]))
    && Has(cs, ns, RoleBinding, "workflow-default-binding", Binds("workflow-role", "default"))
  }

  lemma SecretHoldsSettings(s: Settings, ns: Option<string>)
    ensures exists d :: HoldsSettings(s, d) && MinioSecret(s, ns) == Child(Secret, "minio-params", ns, Data(d))
  {
    var d := MinioSecret(s, ns).content.data;
    assert |"accesskey"| == 9 && |"secretkey"| == 9 && |"host"| == 4 && |"port"| == 4 && |"secure"| == 6;
    assert "accesskey"[0] == 'a' && "secretkey"[0] == 's' && "host"[0] == 'h' && "port"[0] == 'p';
    assert HoldsSettings(s, d);
  }

  lemma OneServes(s: Settings, cs: seq<Child>, app: string, image: string, d: Child, e: Child)
    requires d in cs && e in cs
    requires d.group == Deployment && d.name == app && d.content.Deployed? && d.content.app == app
    requires d.content.image == s.airgapRegistry + "gcr.io/ml-pipeline/" + image + ":" + s.kfpVersion
    requires d.content.serviceAccount == "default-editor"
    requires d.content.annotations == if s.disableIstioSidecar then map["sidecar.istio.io/inject" := "false"] else map[]
    requires e.group == Service && e.name == app && e.content.Exposed?
    requires e.content.selector == app && e.content.targetPort == d.content.containerPort
    ensures Serves(s, cs, app, image, e.content.port, d.content.containerPort,
                   (d.content.requests, d.content.limits), e.content.labels)
  {
  }

  lemma ImageText(registry: string, version: string)
    ensures registry + "gcr.io/ml-pipeline/visualization-server:" + version
            == registry + "gcr.io/ml-pipeline/" + "visualization-server" + ":" + version
    ensures registry + "gcr.io/ml-pipeline/frontend:" + version
            == registry + "gcr.io/ml-pipeline/" + "frontend" + ":" + version
  {
  }

  lemma VisualizationServes(s: Settings, cs: seq<Child>, ns: Option<string>)
    requires forall c :: c in Visualization(s, ns) ==> c in cs
    ensures Serves(s, cs, "ml-pipeline-visualizationserver", "visualization-server", 8888, 8888,
              (("50m", "200Mi"), ("500m", "1Gi")), map[])
    ensures Has(cs, ns, DestinationRule, "ml-pipeline-visualizationserver", MutualTls("ml-pipeline-visualizationserver"))
    ensures Has(cs, ns, AuthorizationPolicy, "ml-pipeline-visualizationserver",
                AllowFrom("ml-pipeline-visualizationserver", ["cluster.local/ns/kubeflow/sa/ml-pipeline"]))
  {
    var v := Visualization(s, ns);
    assert v[0] in cs && v[1] in cs && v[2] in cs && v[3] in cs;
    ImageText(s.airgapRegistry, s.kfpVersion);
    OneServes(s, cs, VIS, "visualization-server", v[0], v[3]);
  }

  lemma ArtifactFetcherServes(s: Settings, cs: seq<Child>, ns: Option<string>)
    requires forall c :: c in ArtifactFetcher(s, ns) ==> c in cs
    ensures Serves(s, cs, "ml-pipeline-ui-artifact", "frontend", 80, 3000,
              (("10m", "70Mi"), ("100m", "500Mi")), map["app" := "ml-pipeline-ui-artifact"])
  {
    var a := ArtifactFetcher(s, ns);
    assert a[0] in cs && a[1] in cs;
    ImageText(s.airgapRegistry, s.kfpVersion);
    OneServes(s, cs, UI, "frontend", a[0], a[1]);
  }

  lemma OthersAreConfigured(s: Settings, ns: Option<string>, cs: seq<Child>)
    requires GrpcConfig(ns) in cs && MinioSecret(s, ns) in cs && WorkflowRole(ns) in cs && WorkflowBinding(ns) in cs
    ensures AreConfigured(s, ns, cs)
  {
    SecretHoldsSettings(s, ns);
  }

  lemma AllListed(s: Settings, ns: Option<string>)
    ensures var cs := DesiredChildren(s, ns);
            && |cs| == 10 && (forall c :: c in cs ==> c.namespace == ns)
            && (forall c :: c in Visualization(s, ns) ==> c in cs) && (forall c :: c in ArtifactFetcher(s, ns) ==> c in cs)
            && GrpcConfig(ns) in cs && MinioSecret(s, ns) in cs && WorkflowRole(ns) in cs && WorkflowBinding(ns) in cs
  {
  }

  lemma DesiredAreChildren(s: Settings, ns: Option<string>)
    ensures AreChildren(s, ns, DesiredChildren(s, ns))
  {
    AllListed(s, ns);
    ListedAreChildren(s, ns, DesiredChildren(s, ns));
  }

  lemma ListedAreChildren(s: Settings, ns: Option<string>, cs: seq<Child>)
    requires |cs| == 10 && forall c :: c in cs ==> c.namespace == ns
    requires forall c :: c in Visualization(s, ns) ==> c in cs
    requires forall c :: c in ArtifactFetcher(s, ns) ==> c in cs
    requires GrpcConfig(ns) in cs && MinioSecret(s, ns) in cs && WorkflowRole(ns) in cs && WorkflowBinding(ns) in cs
    ensures AreChildren(s, ns, cs)
  {
    VisualizationServes(s, cs, ns);
    ArtifactFetcherServes(s, cs, ns);
    OthersAreConfigured(s, ns, cs);
  }

  /** The answer in terms of the label, the counts and the ten children. */
  ghost predicate IsAnswer(s: Settings, p: Parent, observed: Observed, r: Option<Response>) {
    if !Asked(p) then r == Some(Response(None, []))
    else if Unanswerable(observed) then r.None?
    else r.Some? && r.value.ready == Some(if AllCounted(observed) then "True" else "False")
         && AreChildren(s, p.name, r.value.children)
  }

  lemma AnswersAs(s: Settings, p: Parent, observed: Observed)
    ensures IsAnswer(s, p, observed, Sync(s, p, observed))
  {
    CountsAnswer(observed);
    DesiredAreChildren(s, p.name);
  }

  // ---------------------------------------------------------------- the desired cluster

  /** The children of a response as a cluster. */
  function ByKey(cs: seq<Child>): Cluster<Child> {
    if cs == [] then map[] else ByKey(cs[..|cs| - 1])[KeyOf(cs[|cs| - 1]) := cs[|cs| - 1]]
  }

  lemma {:induction false} ByKeyHolds(cs: seq<Child>)
    requires forall i, j :: 0 <= i < j < |cs| ==> KeyOf(cs[i]) != KeyOf(cs[j])
    ensures forall k :: k in ByKey(cs) <==> exists i :: 0 <= i < |cs| && KeyOf(cs[i]) == k
    ensures forall i :: 0 <= i < |cs| ==> ByKey(cs)[KeyOf(cs[i])] == cs[i]
    decreases |cs|
  {
    if cs != [] {
      var n := |cs| - 1;
      ByKeyHolds(cs[..n]);
      assert forall i :: 0 <= i < n ==> cs[..n][i] == cs[i];
    }
  }

  /** The keys of the desired children, in order; they depend neither on the parent nor on the settings. */
  const DESIRED_KEYS: seq<Key> := [
    Key(ConfigMap, "metadata-grpc-configmap"),
    Key(Deployment, VIS), Key(DestinationRule, VIS), Key(AuthorizationPolicy, VIS), Key(Service, VIS),
    Key(Deployment, UI), Key(Service, UI),
    Key(Secret, "minio-params"),
    Key(Role, "workflow-role"),
    Key(RoleBinding, "workflow-default-binding")
  ]

  lemma DesiredKeysAre(s: Settings, ns: Option<string>)
    ensures |DesiredChildren(s, ns)| == |DESIRED_KEYS| == 10
    ensures forall i :: 0 <= i < 10 ==> KeyOf(DesiredChildren(s, ns)[i]) == DESIRED_KEYS[i]
  {
  }

  lemma DesiredKeysDiffer()
    ensures forall i, j :: 0 <= i < j < 10 ==> DESIRED_KEYS[i] != DESIRED_KEYS[j]
  {
    assert |VIS| == 31 && |UI| == 23;
  }

  /** Every desired child has its own kind and name, and lies in the parent's namespace. */
  lemma DesiredAreDistinct(s: Settings, p: Parent)
    ensures var cs := DesiredChildren(s, p.name);
            && (forall i, j :: 0 <= i < j < |cs| ==> KeyOf(cs[i]) != KeyOf(cs[j]))
            && (forall i :: 0 <= i < |cs| ==> cs[i].namespace == p.name)
            && (forall k :: k in ByKey(cs) <==> k in DESIRED_KEYS)
  {
    DesiredKeysAre(s, p.name);
    DesiredKeysDiffer();
    ByKeyHolds(DesiredChildren(s, p.name));
  }

  // ---------------------------------------------------------------- readiness

  /** The groups counted for readiness, which are also those the controller is configured to observe. */
  const COUNTED: set<Group> := {Secret, ConfigMap, Deployment, Service, DestinationRule, AuthorizationPolicy}

  /** A cluster as the webhook sees it. */
  function Grouped(c: Cluster<Child>): Observed {
    map g | g in COUNTED :: map k | k in c && k.group == g :: k.name := c[k]
  }

  function KeysIn(keys: set<Key>, g: Group): set<Key> {
    set k | k in keys && k.group == g
  }

  lemma GroupedCounts(c: Cluster<Child>, g: Group)
    requires g in COUNTED
    ensures |Grouped(c)[g]| == |KeysIn(c.Keys, g)|
  {
    var names := Grouped(c)[g].Keys;
    SameSize(names, KeysIn(c.Keys, g), g);
  }

  lemma {:induction false} SameSize(names: set<string>, keys: set<Key>, g: Group)
    requires forall k :: k in keys ==> k.group == g
    requires forall n :: n in names <==> Key(g, n) in keys
    ensures |names| == |keys|
    decreases |names|
  {
    assert forall k :: k in keys ==> k == Key(g, k.name);
    if names != {} {
      var n :| n in names;
      SameSize(names - {n}, keys - {Key(g, n)}, g);
    }
  }

  ghost predicate Counts(keys: set<Key>, required: seq<(Group, nat)>) {
    forall i :: 0 <= i < |required| ==> |KeysIn(keys, required[i].0)| == required[i].1
  }

  lemma {:induction false} CountsMatchIs(c: Cluster<Child>, required: seq<(Group, nat)>)
    requires forall i :: 0 <= i < |required| ==> required[i].0 in COUNTED
    ensures CountsMatch(Grouped(c), required) == Some(Counts(c.Keys, required))
    decreases |required|
  {
    if required != [] {
      GroupedCounts(c, required[0].0);
      CountsMatchIs(c, required[1..]);
      assert forall i :: 0 < i < |required| ==> required[i] == required[1..][i - 1];
    }
  }

  function DesiredKeySet(): set<Key> {
    set k | k in DESIRED_KEYS
  }

  const DESIRED_GROUPS := [
    ConfigMap, Deployment, DestinationRule, AuthorizationPolicy, Service, Deployment, Service, Secret, Role, RoleBinding
  ]

  /** Ten different keys of these groups have exactly the counts that readiness asks for. */
  lemma TenKeysCount(ks: seq<Key>, keys: set<Key>)
    requires |ks| == 10 && forall i :: 0 <= i < 10 ==> ks[i].group == DESIRED_GROUPS[i]
    requires forall i, j :: 0 <= i < j < 10 ==> ks[i] != ks[j]
    requires forall k :: k in keys <==> k in ks
    ensures forall i :: 0 <= i < |REQUIRED| ==> |KeysIn(keys, REQUIRED[i].0)| == REQUIRED[i].1
  {
    assert KeysIn(keys, Secret) == {ks[7]};
    assert KeysIn(keys, ConfigMap) == {ks[0]};
    assert KeysIn(keys, Deployment) == {ks[1], ks[5]};
    assert KeysIn(keys, Service) == {ks[4], ks[6]};
    assert KeysIn(keys, DestinationRule) == {ks[2]};
    assert KeysIn(keys, AuthorizationPolicy) == {ks[3]};
  }

  lemma DesiredCounts()
    ensures forall i :: 0 <= i < |REQUIRED| ==> |KeysIn(DesiredKeySet(), REQUIRED[i].0)| == REQUIRED[i].1
  {
    DesiredKeysDiffer();
    assert forall i :: 0 <= i < 10 ==> DESIRED_KEYS[i].group == DESIRED_GROUPS[i];
    TenKeysCount(DESIRED_KEYS, DesiredKeySet());
  }

  lemma SubsetOfSameSize(a: set<Key>, b: set<Key>)
    requires a <= b
    ensures |a| <= |b| && (|a| == |b| <==> a == b)
  {
    assert b == a + (b - a);
    assert |b| == |a| + |b - a|;
  }

  ghost predicate AllCountedPresent(keys: set<Key>) {
    forall k :: k in DesiredKeySet() && k.group in COUNTED ==> k in keys
  }

  /** Among desired children only, the right counts mean that none of the counted ones is missing. */
  lemma CountsMeanPresent(keys: set<Key>)
    requires keys <= DesiredKeySet()
    ensures Counts(keys, REQUIRED) <==> AllCountedPresent(keys)
  {
    DesiredCounts();
    forall i | 0 <= i < |REQUIRED|
      ensures KeysIn(keys, REQUIRED[i].0) <= KeysIn(DesiredKeySet(), REQUIRED[i].0)
      ensures |KeysIn(keys, REQUIRED[i].0)| == REQUIRED[i].1
              <==> KeysIn(keys, REQUIRED[i].0) == KeysIn(DesiredKeySet(), REQUIRED[i].0)
    {
      SubsetOfSameSize(KeysIn(keys, REQUIRED[i].0), KeysIn(DesiredKeySet(), REQUIRED[i].0));
    }
    if Counts(keys, REQUIRED) {
      forall k | k in DesiredKeySet() && k.group in COUNTED
        ensures k in keys
      {
        var i := RequiredIndex(k.group);
        assert k in KeysIn(DesiredKeySet(), REQUIRED[i].0);
      }
    }
    if AllCountedPresent(keys) {
      forall i | 0 <= i < |REQUIRED|
        ensures KeysIn(keys, REQUIRED[i].0) == KeysIn(DesiredKeySet(), REQUIRED[i].0)
      {
        RequiredIsCounted(i);
      }
    }
  }

  lemma RequiredIndex(g: Group) returns (i: nat)
    requires g in COUNTED
    ensures i < |REQUIRED| && REQUIRED[i].0 == g
  {
    i := match g
      case Secret => 0
      case ConfigMap => 1
      case Deployment => 2
      case Service => 3
      case DestinationRule => 4
      case AuthorizationPolicy => 5;
  }

  lemma RequiredIsCounted(i: nat)
    requires i < |REQUIRED|
    ensures REQUIRED[i].0 in COUNTED
  {
  }

  lemma StatusTells(p: Parent, c: Cluster<Child>, desired: seq<Child>)
    ensures Answer(p, Grouped(c), desired)
            == Some(if IsEnabled(p) then Response(Some(if Counts(c.Keys, REQUIRED) then "True" else "False"), desired)
                    else Response(None, []))
  {
    forall i | 0 <= i < |REQUIRED|
      ensures REQUIRED[i].0 in COUNTED
    {
      RequiredIsCounted(i);
    }
    CountsMatchIs(c, REQUIRED);
  }

  /** The children an enabled namespace should have, and none otherwise. */
  function Desired(s: Settings, p: Parent): Cluster<Child> {
    if IsEnabled(p) then ByKey(DesiredChildren(s, p.name)) else map[]
  }

  ghost predicate IsReady(s: Settings, p: Parent, c: Cluster<Child>) {
    var r := Sync(s, p, Grouped(c));
    r.Some? && r.value.ready == Some("True")
  }

  lemma ReadyIsCounts(s: Settings, p: Parent, c: Cluster<Child>)
    ensures IsReady(s, p, c) <==> IsEnabled(p) && Counts(c.Keys, REQUIRED)
  {
    StatusTells(p, c, DesiredChildren(s, p.name));
    assert "True"[0] != "False"[0];
  }

  lemma DesiredKeysOf(s: Settings, p: Parent)
    ensures Desired(s, p).Keys == if IsEnabled(p) then DesiredKeySet() else {}
  {
    DesiredAreDistinct(s, p);
  }

  /** Ready means all counted children are there, in any cluster that holds only desired children. */
  lemma ReadyMeansPresent(s: Settings, p: Parent, c: Cluster<Child>)
    requires IsEnabled(p) && c.Keys <= Desired(s, p).Keys
    ensures IsReady(s, p, c) <==> AllCountedPresent(c.Keys)
  {
    ReadyIsCounts(s, p, c);
    DesiredKeysOf(s, p);
    CountsMeanPresent(c.Keys);
  }

  /** The status says nothing about Role and RoleBinding: they may come and go unnoticed. */
  lemma ReadyIgnoresRoles(s: Settings, p: Parent, c: Cluster<Child>, d: Cluster<Child>)
    requires forall k: Key :: k.group != Role && k.group != RoleBinding ==> (k in c <==> k in d)
    ensures IsReady(s, p, c) <==> IsReady(s, p, d)
  {
    ReadyIsCounts(s, p, c);
    ReadyIsCounts(s, p, d);
    OthersNotCounted(c.Keys, d.Keys);
  }

  lemma OthersNotCounted(a: set<Key>, b: set<Key>)
    requires forall k: Key :: k.group != Role && k.group != RoleBinding ==> (k in a <==> k in b)
    ensures Counts(a, REQUIRED) <==> Counts(b, REQUIRED)
  {
    forall i | 0 <= i < |REQUIRED|
      ensures KeysIn(a, REQUIRED[i].0) == KeysIn(b, REQUIRED[i].0)
    {
      RequiredIsCounted(i);
    }
  }

  // ---------------------------------------------------------------- the controller at work

  /** The cluster the webhook asks for when it sees another. */
  function Wanted(s: Settings, p: Parent, c: Cluster<Child>): Cluster<Child> {
    match Sync(s, p, Grouped(c))
    case None => map[]
    case Some(r) => ByKey(r.children)
  }

  /** A run in which every step serves what the webhook asks for in the cluster of that moment. */
  ghost predicate Controlled(s: Settings, p: Parent, inPlace: set<Group>, run: seq<Cluster<Child>>) {
    run != [] && forall i :: 0 <= i < |run| - 1 ==> Step(Wanted(s, p, run[i]), inPlace, run[i], run[i + 1])
  }

  /** What is asked for does not depend on what is observed. */
  lemma WantedIsDesired(s: Settings, p: Parent, c: Cluster<Child>)
    ensures Wanted(s, p, c) == Desired(s, p)
  {
    StatusTells(p, c, DesiredChildren(s, p.name));
  }

  lemma ControlledIsRun(s: Settings, p: Parent, inPlace: set<Group>, run: seq<Cluster<Child>>)
    requires Controlled(s, p, inPlace, run)
    ensures Run(Desired(s, p), inPlace, run)
  {
    forall i | 0 <= i < |run| - 1
      ensures Step(Desired(s, p), inPlace, run[i], run[i + 1])
    {
      WantedIsDesired(s, p, run[i]);
    }
  }

  /**
    The controller is level-triggered: a controlled run takes at most as many steps as children
    are pending at its start.  Once that many are taken, nothing more can happen: an enabled
    namespace has the desired children (but for drifted ones of kinds not updated in place) and
    reports ready, and a namespace that is not enabled has no children left.
   */
  lemma ControlledRunsEnd(s: Settings, p: Parent, inPlace: set<Group>, run: seq<Cluster<Child>>)
    requires Controlled(s, p, inPlace, run)
    ensures |run| - 1 <= |PendingKeys(Desired(s, p), inPlace, run[0])|
    ensures var last := run[|run| - 1];
            Settled(Wanted(s, p, last), inPlace, last)
            <==> |run| - 1 == |PendingKeys(Desired(s, p), inPlace, run[0])|
    ensures var last := run[|run| - 1];
            Settled(Wanted(s, p, last), inPlace, last)
            ==> && last == Outcome(Desired(s, p), inPlace, run[0])
                && (if IsEnabled(p) then last.Keys == Desired(s, p).Keys && IsReady(s, p, last) else last == map[])
  {
    var last := run[|run| - 1];
    ControlledIsRun(s, p, inPlace, run);
    WantedIsDesired(s, p, last);
    RunsReachOutcome(Desired(s, p), inPlace, run);
    OutcomeIsDesired(Desired(s, p), inPlace, run[0]);
    if Settled(Desired(s, p), inPlace, last) && IsEnabled(p) {
      DesiredKeysOf(s, p);
      ReadyMeansPresent(s, p, last);
    }
  }

  /** On a controlled run that starts with desired children only, ready always means all counted are there. */
  lemma ReadyAlongRuns(s: Settings, p: Parent, inPlace: set<Group>, run: seq<Cluster<Child>>, i: nat)
    requires Controlled(s, p, inPlace, run) && IsEnabled(p) && run[0].Keys <= Desired(s, p).Keys && i < |run|
    ensures IsReady(s, p, run[i]) <==> AllCountedPresent(run[i].Keys)
  {
    ControlledIsRun(s, p, inPlace, run);
    OnlyDesiredStays(Desired(s, p), inPlace, run);
    ReadyMeansPresent(s, p, run[i]);
  }
}
