/** Reconciling a pipeline: merge, validate, compile, and write the owned objects. */
module Reconcile {
  import opened Api
  import opened Objects
  import Admission
  import Config
  import Credentials
  import Discovery
  import Generate
  import Graph
  import Merge
  import Placeholders
  import ScalingMath

  datatype Pipeline = Pipeline(name: string, uid: string, spec: PipelineSpec)

  /** The scaling outcome of this pass, after the fallback. */
  datatype Scaled = Scaled(replicas: int, topicWorkers: int32, useHpa: bool)

  /** Code outside the model. `forwards` says whether a stateful processor is used, unless a processor is not an
      object; `secretHash` hashes what the cluster holds under the given secret names. */
  datatype Library = Library(
    decode: Config.Decoder,
    forwards: seq<PipelineDefinition> -> Option<bool>,
    pipelinesYaml: map<string, Config.Value> -> Option<string>,
    configYaml: (PipelineSpec, bool, string) -> Option<string>,
    hash: TextMap -> string,
    secretHash: seq<string> -> string)

  const MANAGED_BY := "app.kubernetes.io/managed-by"
  const APP := "app.kubernetes.io/name"
  const INSTANCE := "app.kubernetes.io/instance"
  const CONFIG_HASH := "dataprepper.kaasops.io/config-hash"

  function CommonLabels(name: string): TextMap {
    map[MANAGED_BY := "dataprepper-operator", APP := "data-prepper", INSTANCE := name]
  }

  function SelectorLabels(name: string): TextMap { map[APP := "data-prepper", INSTANCE := name] }

  function Self(p: Pipeline): OwnerRef { Discovery.OwnerRef("DataPrepperPipeline", p.name, p.uid, true) }

  /******* The seven objects *******/

  function PipelinesKey(n: string): Key { Key(ConfigMap, n + "-pipelines") }
  function ConfigKey(n: string): Key { Key(ConfigMap, n + "-config") }
  function DeploymentKey(n: string): Key { Key(Deployment, n) }
  function ServiceKey(n: string): Key { Key(Service, n) }
  function HeadlessKey(n: string): Key { Key(Service, n + "-headless") }
  function AutoscalerKey(n: string): Key { Key(Autoscaler, n) }
  function BudgetKey(n: string): Key { Key(DisruptionBudget, n) }

  ghost function Owned(n: string): set<Key> {
    {PipelinesKey(n), ConfigKey(n), DeploymentKey(n), ServiceKey(n), HeadlessKey(n), AutoscalerKey(n), BudgetKey(n)}
  }

  function OwnedList(n: string): seq<Key> {
    [PipelinesKey(n), ConfigKey(n), DeploymentKey(n), ServiceKey(n), HeadlessKey(n), AutoscalerKey(n), BudgetKey(n)]
  }

  lemma OwnedIsListed(n: string, k: Key)
    ensures k in Owned(n) <==> k in OwnedList(n)
  {
    var l := OwnedList(n);
    assert l[0] in l && l[1] in l && l[2] in l && l[3] in l && l[4] in l && l[5] in l && l[6] in l;
  }

  /** One step for each of the pipeline's objects, in order. */
  ghost predicate Covers(steps: seq<Step>, n: string) {
    |steps| == 7 && forall i :: 0 <= i < 7 ==> steps[i].key == OwnedList(n)[i]
  }

  /** An object that is there only when it is needed. */
  function Optional(needed: bool, key: Key, name: string, body: Body): Step {
    if needed then Ensure(key, CommonLabels(name), body) else Remove(key)
  }

  function PortOf(s: Source): int {
    if s.http.Some? then ScalingMath.Wrap32(s.http.value.port)
    else if s.otel.Some? then ScalingMath.Wrap32(s.otel.value.port)
    else 0
  }

  ghost function SourcePorts(ps: seq<PipelineDefinition>): set<int> {
    set i | 0 <= i < |ps| && PortOf(ps[i].source) != 0 :: PortOf(ps[i].source)
  }

  ghost predicate Serves(ps: seq<PipelineDefinition>, monitor: Option<ServiceMonitor>) {
    (monitor.Some? && monitor.value.enabled) ||
    exists i :: 0 <= i < |ps| && (ps[i].source.http.Some? || ps[i].source.otel.Some?)
  }

  /** The variables set from secrets, whatever order the traversal lists them in. */
  ghost function EnvOf(ps: seq<PipelineDefinition>): set<EnvRef> {
    var hs := Credentials.Holders(ps);
    set kind: Credentials.Kind, role: Credentials.Role | Credentials.FirstHolder(hs, kind).Some? ::
      RefOf(Credentials.EnvVar(kind, role, Credentials.FirstHolder(hs, kind).value))
  }

  function RefOf(e: Credentials.EnvVar): EnvRef { EnvRef(e.Name(), e.secret, e.Key()) }

  const HEALTH_PORT := 4900
  const PEER_PORT := 4994

  function Template(p: Pipeline, m: PipelineSpec, peer: bool, ports: set<int>, env: set<EnvRef>,
                    hash: string): PodTemplate {
    PodTemplate(m, {HEALTH_PORT} + (if peer then {PEER_PORT} else {}) + ports,
                map["/usr/share/data-prepper/pipelines/" := p.name + "-pipelines",
                    "/usr/share/data-prepper/config/data-prepper-config.yaml" := p.name + "-config"],
                env, SelectorLabels(p.name) + m.podLabels, map[CONFIG_HASH := hash] + m.podAnnotations)
  }

  /** The writes of one pass, in order. */
  function Steps(p: Pipeline, m: PipelineSpec, scaled: Scaled, peer: bool, pipelines: TextMap, config: TextMap,
                 template: PodTemplate, ports: set<int>, serves: bool): (r: seq<Step>)
    ensures Covers(r, p.name)
    ensures r[3].Ensure? == serves && r[4].Ensure? == peer
    ensures r[5].Ensure? == scaled.useHpa && r[6].Ensure? == (scaled.replicas > 1)
  {
    var (minReplicas, maxReplicas) := ScalingMath.ScalingBounds(m.scaling);
    var selector := SelectorLabels(p.name);
    [ Ensure(PipelinesKey(p.name), CommonLabels(p.name), Files(pipelines)),
      Ensure(ConfigKey(p.name), CommonLabels(p.name), Files(config)),
      Ensure(DeploymentKey(p.name), CommonLabels(p.name), Pods(scaled.replicas, selector, template)),
      Optional(serves, ServiceKey(p.name), p.name, Ports(selector, {HEALTH_PORT} + ports)),
      Optional(peer, HeadlessKey(p.name), p.name, Headless(selector, {PEER_PORT})),
      Optional(scaled.useHpa, AutoscalerKey(p.name), p.name, Bounds(p.name, minReplicas, maxReplicas)),
      Optional(scaled.replicas > 1, BudgetKey(p.name), p.name,
               MinAvailable(selector, ScalingMath.Max(1, scaled.replicas - 1))) ]
  }

  /** The writes of a pass whose documents are `yaml` and `config`. */
  ghost function Writes(p: Pipeline, m: PipelineSpec, scaled: Scaled, peer: bool, yaml: string, config: string,
                        lib: Library): (r: seq<Step>)
    ensures Covers(r, p.name)
    ensures r[3].Ensure? == Serves(m.pipelines, m.serviceMonitor) && r[4].Ensure? == peer
    ensures r[5].Ensure? == scaled.useHpa && r[6].Ensure? == (scaled.replicas > 1)
  {
    var a, b := map["pipelines.yaml" := yaml], map["data-prepper-config.yaml" := config];
    var hash := lib.hash(a) + lib.hash(b) + lib.secretHash(Credentials.SecretList(m.pipelines));
    var ports := SourcePorts(m.pipelines);
    Steps(p, m, scaled, peer, a, b, Template(p, m, peer, ports, EnvOf(m.pipelines), hash), ports,
          Serves(m.pipelines, m.serviceMonitor))
  }

  /** The plan of a pass: a function of the spec, the defaults, the scaling outcome and the secrets, or `None` when the
      pass ends before its first write. The last four objects are asked for exactly when they are needed. */
  ghost function Plan(p: Pipeline, d: Option<Defaults>, scaled: Scaled, lib: Library): (r: Option<seq<Step>>)
    ensures r.Some? ==> Covers(r.value, p.name)
    ensures r.Some? ==>
              var m := Merge.Merged(d, p.spec);
              && r.value[3].Ensure? == Serves(m.pipelines, m.serviceMonitor)
              && r.value[4].Ensure? == (lib.forwards(m.pipelines) == Some(true) && scaled.replicas > 1)
              && r.value[5].Ensure? == scaled.useHpa
              && r.value[6].Ensure? == (scaled.replicas > 1)
  {
    var m := Merge.Merged(d, p.spec);
    if !Graph.ValidGraph(Admission.GraphDefs(m.pipelines)) || lib.forwards(m.pipelines).None? then None else
    if !Config.AllGenerate(m.pipelines, lib.decode) then None else
    var peer := lib.forwards(m.pipelines).value && scaled.replicas > 1;
    var yaml := lib.pipelinesYaml(Config.Assigned(Config.Entries(m.pipelines, scaled.topicWorkers, lib.decode)));
    var config := lib.configYaml(m, peer, p.name);
    if yaml.None? || config.None? then None else Some(Writes(p, m, scaled, peer, yaml.value, config.value, lib))
  }

  /******* What the seven objects are *******/

  /** The operator-set fields of a pipeline's objects; `None` is an object that is not there. */
  datatype Seven = Seven(
    pipelines: Option<Fields>,
    config: Option<Fields>,
    deployment: Option<Fields>,
    service: Option<Fields>,
    headless: Option<Fields>,
    autoscaler: Option<Fields>,
    budget: Option<Fields>)

  function Found(t: Store, p: Pipeline): Seven {
    Seven(View(t, Self(p), Key(ConfigMap, p.name + "-pipelines")),
          View(t, Self(p), Key(ConfigMap, p.name + "-config")),
          View(t, Self(p), Key(Deployment, p.name)),
          View(t, Self(p), Key(Service, p.name)),
          View(t, Self(p), Key(Service, p.name + "-headless")),
          View(t, Self(p), Key(Autoscaler, p.name)),
          View(t, Self(p), Key(DisruptionBudget, p.name)))
  }

  function Asked(plan: seq<Step>): Seven
    requires |plan| == 7
  {
    Seven(Wanted(plan[0]), Wanted(plan[1]), Wanted(plan[2]), Wanted(plan[3]), Wanted(plan[4]), Wanted(plan[5]),
          Wanted(plan[6]))
  }

  /** An object of the pipeline with this body: labelled, and controlled by the pipeline. */
  ghost predicate Mine(f: Option<Fields>, p: Pipeline, body: Body) {
    && f.Some? && f.value.body == body && f.value.owned
    && f.value.labels == map["app.kubernetes.io/managed-by" := "dataprepper-operator",
                             "app.kubernetes.io/name" := "data-prepper", "app.kubernetes.io/instance" := p.name]
  }

  /** Some HTTP or OpenTelemetry source listens on the port, which is a 32-bit number. */
  ghost predicate Listens(ps: seq<PipelineDefinition>, port: int) {
    port != 0 && exists i :: 0 <= i < |ps| && ListensOn(ps[i].source, port)
  }

  ghost predicate ListensOn(s: Source, port: int) {
    if s.http.Some? then port == ScalingMath.Wrap32(s.http.value.port)
    else s.otel.Some? && port == ScalingMath.Wrap32(s.otel.value.port)
  }

  /** The variable comes from this key of this secret, the one that the first holder of its kind names. */
  ghost predicate Provides(ps: seq<PipelineDefinition>, e: EnvRef) {
    var hs := Credentials.Holders(ps);
    || (&& Credentials.FirstHolder(hs, Credentials.Kafka) == Some(e.secret)
        && ((e.name == "KAFKA_USERNAME" && e.key == "username") || (e.name == "KAFKA_PASSWORD" && e.key == "password")))
    || (&& Credentials.FirstHolder(hs, Credentials.OpenSearch) == Some(e.secret)
        && ((e.name == "OPENSEARCH_USERNAME" && e.key == "username") ||
            (e.name == "OPENSEARCH_PASSWORD" && e.key == "password")))
    || (&& Credentials.FirstHolder(hs, Credentials.Aws) == Some(e.secret)
        && ((e.name == "AWS_ACCESS_KEY_ID" && e.key == "aws_access_key_id") ||
            (e.name == "AWS_SECRET_ACCESS_KEY" && e.key == "aws_secret_access_key")))
  }

  /** Peer forwarding is on. */
  predicate Peers(m: PipelineSpec, scaled: Scaled, lib: Library) {
    lib.forwards(m.pipelines) == Some(true) && scaled.replicas > 1
  }

  ghost predicate Documents(m: PipelineSpec, p: Pipeline, scaled: Scaled, lib: Library, yaml: string, config: string) {
    && Config.AllGenerate(m.pipelines, lib.decode)
    && lib.pipelinesYaml(Config.Assigned(Config.Entries(m.pipelines, scaled.topicWorkers, lib.decode))) == Some(yaml)
    && lib.configYaml(m, Peers(m, scaled, lib), p.name) == Some(config)
  }

  /** Each document is in its own ConfigMap, under the name of the file it is mounted as. */
  ghost predicate Configured(v: Seven, p: Pipeline, yaml: string, config: string) {
    && Mine(v.pipelines, p, Files(map["pipelines.yaml" := yaml]))
    && Mine(v.config, p, Files(map["data-prepper-config.yaml" := config]))
  }

  /** The pods: what they run, what they mount, where they listen, and which variables they get. */
  ghost predicate RunsPods(v: Seven, p: Pipeline, m: PipelineSpec, scaled: Scaled, lib: Library, yaml: string,
                           config: string) {
    && v.deployment.Some? && v.deployment.value.body.Pods? && Mine(v.deployment, p, v.deployment.value.body)
    && var pods := v.deployment.value.body;
    && pods.replicas == scaled.replicas && pods.template.spec == m
    && pods.selector == map["app.kubernetes.io/name" := "data-prepper", "app.kubernetes.io/instance" := p.name]
    && pods.template.labels == pods.selector + m.podLabels
    && pods.template.mounts == map["/usr/share/data-prepper/pipelines/" := p.name + "-pipelines",
                                   "/usr/share/data-prepper/config/data-prepper-config.yaml" := p.name + "-config"]
    && (forall port :: port in pods.template.ports <==>
          port == 4900 || (port == 4994 && Peers(m, scaled, lib)) || Listens(m.pipelines, port))
    && (forall e :: e in pods.template.env <==> Provides(m.pipelines, e))
    && pods.template.annotations ==
         map["dataprepper.kaasops.io/config-hash" := lib.hash(map["pipelines.yaml" := yaml])
               + lib.hash(map["data-prepper-config.yaml" := config])
               + lib.secretHash(Credentials.SecretList(m.pipelines))]
         + m.podAnnotations
  }

  /** The Service is there when somebody serves, with the health port and every port a source listens on; the headless
      Service is there when peers forward to each other. */
  ghost predicate Reachable(v: Seven, p: Pipeline, m: PipelineSpec, scaled: Scaled, lib: Library) {
    var selector := map["app.kubernetes.io/name" := "data-prepper", "app.kubernetes.io/instance" := p.name];
    && (if Serves(m.pipelines, m.serviceMonitor) then
          && v.service.Some? && v.service.value.body.Ports?
          && Mine(v.service, p, Ports(selector, v.service.value.body.ports))
          && (forall port :: port in v.service.value.body.ports <==> port == 4900 || Listens(m.pipelines, port))
        else v.service == None)
    && (if Peers(m, scaled, lib) then Mine(v.headless, p, Headless(selector, {4994})) else v.headless == None)
  }

  /** The autoscaler has the bounds of the spec, and the budget spares one pod at a time. */
  ghost predicate Scales(v: Seven, p: Pipeline, m: PipelineSpec, scaled: Scaled) {
    var low := if m.scaling.Some? && m.scaling.value.minReplicas.Some? then m.scaling.value.minReplicas.value else 1;
    var high := if m.scaling.Some? && m.scaling.value.maxReplicas.Some? then m.scaling.value.maxReplicas.value else 10;
    var selector := map["app.kubernetes.io/name" := "data-prepper", "app.kubernetes.io/instance" := p.name];
    && (if scaled.useHpa then Mine(v.autoscaler, p, Bounds(p.name, low, high)) else v.autoscaler == None)
    && (if scaled.replicas > 1 then Mine(v.budget, p, MinAvailable(selector, scaled.replicas - 1))
        else v.budget == None)
  }

  /** The seven objects are what the merged spec, the scaling outcome and the secrets call for. */
  ghost predicate Deployed(v: Seven, p: Pipeline, m: PipelineSpec, scaled: Scaled, lib: Library) {
    && (exists yaml, config :: && Documents(m, p, scaled, lib, yaml, config) && Configured(v, p, yaml, config)
                               && RunsPods(v, p, m, scaled, lib, yaml, config))
    && Reachable(v, p, m, scaled, lib) && Scales(v, p, m, scaled)
  }

  lemma PortsListen(ps: seq<PipelineDefinition>, port: int)
    ensures port in SourcePorts(ps) <==> Listens(ps, port)
  {
    if port in SourcePorts(ps) {
      var i :| 0 <= i < |ps| && PortOf(ps[i].source) != 0 && PortOf(ps[i].source) == port;
      assert ps[i].source.http.Some? || ps[i].source.otel.Some?;
    }
    if Listens(ps, port) {
      var i :| 0 <= i < |ps| && ListensOn(ps[i].source, port);
      assert PortOf(ps[i].source) == port;
    }
  }

  lemma EnvProvides(ps: seq<PipelineDefinition>, e: EnvRef)
    ensures e in EnvOf(ps) <==> Provides(ps, e)
  {
    var hs := Credentials.Holders(ps);
    if Provides(ps, e) {
      var kind :| Credentials.FirstHolder(hs, kind) == Some(e.secret) &&
        (e == RefOf(Credentials.EnvVar(kind, Credentials.User, e.secret)) ||
         e == RefOf(Credentials.EnvVar(kind, Credentials.Password, e.secret)));
    }
  }

  lemma WritesRunPods(p: Pipeline, m: PipelineSpec, scaled: Scaled, yaml: string, config: string, lib: Library)
    ensures var v := Asked(Writes(p, m, scaled, Peers(m, scaled, lib), yaml, config, lib));
            Configured(v, p, yaml, config) && RunsPods(v, p, m, scaled, lib, yaml, config)
  {
    forall port ensures port in SourcePorts(m.pipelines) <==> Listens(m.pipelines, port) {
      PortsListen(m.pipelines, port);
    }
    forall e ensures e in EnvOf(m.pipelines) <==> Provides(m.pipelines, e) { EnvProvides(m.pipelines, e); }
  }

  lemma WritesReach(p: Pipeline, m: PipelineSpec, scaled: Scaled, yaml: string, config: string, lib: Library)
    ensures var v := Asked(Writes(p, m, scaled, Peers(m, scaled, lib), yaml, config, lib));
            Reachable(v, p, m, scaled, lib) && Scales(v, p, m, scaled)
  {
    forall port ensures port in SourcePorts(m.pipelines) <==> Listens(m.pipelines, port) {
      PortsListen(m.pipelines, port);
    }
  }

  lemma PlanIsWrites(p: Pipeline, d: Option<Defaults>, scaled: Scaled, lib: Library)
    returns (yaml: string, config: string)
    requires Plan(p, d, scaled, lib).Some?
    ensures var m := Merge.Merged(d, p.spec);
            && Documents(m, p, scaled, lib, yaml, config)
            && Plan(p, d, scaled, lib).value == Writes(p, m, scaled, Peers(m, scaled, lib), yaml, config, lib)
  {
    var m := Merge.Merged(d, p.spec);
    yaml := lib.pipelinesYaml(Config.Assigned(Config.Entries(m.pipelines, scaled.topicWorkers, lib.decode))).value;
    config := lib.configYaml(m, Peers(m, scaled, lib), p.name).value;
  }

  /** The plan asks for exactly these objects. */
  lemma PlanDeploys(p: Pipeline, d: Option<Defaults>, scaled: Scaled, lib: Library)
    requires Plan(p, d, scaled, lib).Some?
    ensures Deployed(Asked(Plan(p, d, scaled, lib).value), p, Merge.Merged(d, p.spec), scaled, lib)
  {
    var yaml, config := PlanIsWrites(p, d, scaled, lib);
    WritesRunPods(p, Merge.Merged(d, p.spec), scaled, yaml, config, lib);
    WritesReach(p, Merge.Merged(d, p.spec), scaled, yaml, config, lib);
  }

  /******* The objects fit together *******/

  ghost predicate Selects(selector: TextMap, labels: TextMap) {
    forall k :: k in selector ==> k in labels && labels[k] == selector[k]
  }

  lemma PodsAre(v: Seven, p: Pipeline, m: PipelineSpec, scaled: Scaled, lib: Library)
    returns (yaml: string, config: string)
    requires Deployed(v, p, m, scaled, lib)
    ensures Documents(m, p, scaled, lib, yaml, config) && Configured(v, p, yaml, config)
    ensures RunsPods(v, p, m, scaled, lib, yaml, config)
  {
    yaml, config :| && Documents(m, p, scaled, lib, yaml, config) && Configured(v, p, yaml, config)
                    && RunsPods(v, p, m, scaled, lib, yaml, config);
  }

  /** What the pods mount is in the store, and each ConfigMap holds the one file that is read from its mount path. */
  lemma MountsExist(t: Store, p: Pipeline, m: PipelineSpec, scaled: Scaled, lib: Library)
    requires Deployed(Found(t, p), p, m, scaled, lib)
    ensures Key(Deployment, p.name) in t && t[Key(Deployment, p.name)].body.Pods?
    ensures var mounts := t[Key(Deployment, p.name)].body.template.mounts;
            var a, b := "/usr/share/data-prepper/pipelines/", "/usr/share/data-prepper/config/data-prepper-config.yaml";
            && mounts.Keys == {a, b}
            && HoldsFile(t, mounts[a], "pipelines.yaml") && HoldsFile(t, mounts[b], "data-prepper-config.yaml")
  {
    var yaml, config := PodsAre(Found(t, p), p, m, scaled, lib);
    MountPaths(p.name + "-pipelines", p.name + "-config");
    FoundFile(t, p, p.name + "-pipelines", "pipelines.yaml", yaml);
    FoundFile(t, p, p.name + "-config", "data-prepper-config.yaml", config);
  }

  ghost predicate HoldsFile(t: Store, configMap: string, file: string) {
    var k := Key(ConfigMap, configMap);
    k in t && t[k].body.Files? && t[k].body.data.Keys == {file}
  }

  lemma FoundFile(t: Store, p: Pipeline, configMap: string, file: string, text: string)
    requires Mine(View(t, Self(p), Key(ConfigMap, configMap)), p, Files(map[file := text]))
    ensures HoldsFile(t, configMap, file)
  {
  }

  lemma MountPaths(x: string, y: string)
    ensures var a, b := "/usr/share/data-prepper/pipelines/", "/usr/share/data-prepper/config/data-prepper-config.yaml";
            var mounts := map[a := x, b := y];
            mounts.Keys == {a, b} && mounts[a] == x && mounts[b] == y
  {
    assert |"/usr/share/data-prepper/pipelines/"| != |"/usr/share/data-prepper/config/data-prepper-config.yaml"|;
  }

  /** Traffic reaches the pods: both Services lead only to ports that the pods open, and they, like the budget, select
      what the Deployment selects. These are the pods themselves, unless the user's labels say otherwise. */
  lemma TrafficReachesPods(v: Seven, p: Pipeline, m: PipelineSpec, scaled: Scaled, lib: Library)
    requires Deployed(v, p, m, scaled, lib)
    ensures v.deployment.Some? && v.deployment.value.body.Pods?
    ensures var pods := v.deployment.value.body;
            && (v.service.Some? ==> v.service.value.body.Ports? && v.service.value.body.selector == pods.selector
                                    && v.service.value.body.ports <= pods.template.ports)
            && (v.headless.Some? ==> v.headless.value.body.Headless? && v.headless.value.body.selector == pods.selector
                                     && v.headless.value.body.ports <= pods.template.ports)
            && (v.budget.Some? ==> v.budget.value.body.MinAvailable? && v.budget.value.body.selector == pods.selector
                                   && 1 <= v.budget.value.body.count < pods.replicas)
            && (Selects(pods.selector, pods.template.labels) <==>
                forall k :: k in m.podLabels && k in pods.selector ==> m.podLabels[k] == pods.selector[k])
  {
    var yaml, config := PodsAre(v, p, m, scaled, lib);
    var ports := v.deployment.value.body.template.ports;
    if v.service.Some? { forall port | port in v.service.value.body.ports ensures port in ports {} }
    SelectorHolds(v.deployment.value.body.selector, m.podLabels);
  }

  lemma SelectorHolds(selector: TextMap, own: TextMap)
    ensures Selects(selector, selector + own) <==> forall k :: k in own && k in selector ==> own[k] == selector[k]
  {
    if Selects(selector, selector + own) {
      forall k | k in own && k in selector ensures own[k] == selector[k] { assert (selector + own)[k] == own[k]; }
    }
  }

  /** The document the pods read refers only to variables the pods have, if and only if every variable that user text
      refers to has a holder. */
  lemma VariablesReachPods(v: Seven, p: Pipeline, m: PipelineSpec, scaled: Scaled, lib: Library)
    requires Deployed(v, p, m, scaled, lib)
    requires Config.AllGenerate(m.pipelines, lib.decode)
    requires Placeholders.DistinctKeys(Config.Entries(m.pipelines, scaled.topicWorkers, lib.decode))
    ensures v.deployment.Some? && v.deployment.value.body.Pods?
    ensures var doc := Config.Assigned(Config.Entries(m.pipelines, scaled.topicWorkers, lib.decode));
            (forall name :: Placeholders.Refers(doc, name) ==>
               exists e :: e in v.deployment.value.body.template.env && e.name == name) <==>
            (forall name :: Placeholders.UserSpells(m.pipelines, lib.decode, name) ==>
               Credentials.HasHolder(m.pipelines, name))
  {
    var yaml, config := PodsAre(v, p, m, scaled, lib);
    var envs := Credentials.EnvExists(Credentials.Holders(m.pipelines));
    Credentials.ClosureIff(m.pipelines, scaled.topicWorkers, lib.decode, envs);
    var env := v.deployment.value.body.template.env;
    forall name ensures Credentials.IsSet(envs, name) <==> exists e :: e in env && e.name == name {
      SetInPods(m.pipelines, envs, env, name);
    }
  }

  lemma SetInPods(ps: seq<PipelineDefinition>, envs: seq<Credentials.EnvVar>, env: set<EnvRef>, name: string)
    requires Credentials.IsEnvOf(envs, Credentials.Holders(ps)) && forall e :: e in env <==> Provides(ps, e)
    ensures Credentials.IsSet(envs, name) <==> exists e :: e in env && e.name == name
  {
    EnvCollected(envs, ps);
    forall e ensures e in EnvOf(ps) <==> e in env { EnvProvides(ps, e); }
    var refs := set e | e in envs :: RefOf(e);
    if e :| e in envs && e.Name() == name { assert RefOf(e) in refs; }
    if e :| e in env && e.name == name { assert e in refs; }
  }

  /******* The code *******/

  method CollectPorts(ps: seq<PipelineDefinition>) returns (ports: set<int>)
    ensures ports == SourcePorts(ps)
  {
    ports := {};
    for i := 0 to |ps|
      invariant ports == set j | 0 <= j < i && PortOf(ps[j].source) != 0 :: PortOf(ps[j].source)
    {
      var port := PortOf(ps[i].source);
      if port != 0 && port !in ports { ports := ports + {port}; }
    }
  }

  method NeedsService(ps: seq<PipelineDefinition>, monitor: Option<ServiceMonitor>) returns (r: bool)
    ensures r <==> Serves(ps, monitor)
  {
    if monitor.Some? && monitor.value.enabled { return true; }
    for i := 0 to |ps|
      invariant forall j :: 0 <= j < i ==> ps[j].source.http.None? && ps[j].source.otel.None?
    {
      if ps[i].source.http.Some? || ps[i].source.otel.Some? { return true; }
    }
    r := false;
  }

  lemma EnvCollected(envs: seq<Credentials.EnvVar>, ps: seq<PipelineDefinition>)
    requires Credentials.IsEnvOf(envs, Credentials.Holders(ps))
    ensures (set e | e in envs :: RefOf(e)) == EnvOf(ps)
  {
    var hs := Credentials.Holders(ps);
    forall kind: Credentials.Kind, role: Credentials.Role | Credentials.FirstHolder(hs, kind).Some?
      ensures Credentials.EnvVar(kind, role, Credentials.FirstHolder(hs, kind).value) in envs
    {
    }
    forall e | e in envs ensures RefOf(e) in EnvOf(ps) {
      assert e == Credentials.EnvVar(e.kind, e.role, Credentials.FirstHolder(hs, e.kind).value);
    }
  }

  method CollectEnv(ps: seq<PipelineDefinition>) returns (env: set<EnvRef>)
    ensures env == EnvOf(ps)
  {
    var envs := Credentials.CredentialEnvVars(ps);
    EnvCollected(envs, ps);
    env := set e | e in envs :: RefOf(e);
  }

  method GenerateSteps(p: Pipeline, m: PipelineSpec, scaled: Scaled, peer: bool, yaml: string, config: string,
                       lib: Library)
    returns (steps: seq<Step>)
    ensures steps == Writes(p, m, scaled, peer, yaml, config, lib)
  {
    var a, b := map["pipelines.yaml" := yaml], map["data-prepper-config.yaml" := config];
    var refs := Credentials.ReferencedSecrets(m.pipelines);
    var hash := lib.hash(a) + lib.hash(b) + lib.secretHash(refs);
    var ports := CollectPorts(m.pipelines);
    var env := CollectEnv(m.pipelines);
    var serves := NeedsService(m.pipelines, m.serviceMonitor);
    steps := Steps(p, m, scaled, peer, a, b, Template(p, m, peer, ports, env, hash), ports, serves);
  }

  /** Everything before the first write. */
  method Compile(p: Pipeline, d: Option<Defaults>, scaled: Scaled, lib: Library) returns (plan: Option<seq<Step>>)
    ensures plan == Plan(p, d, scaled, lib)
  {
    var m := Merge.MergeFetched(d, p.spec);
    var defs := Admission.BuildGraphDefs(m.pipelines);
    var verdict, _ := Graph.ValidateGraph(defs);
    if !verdict.Accepted? { return None; }
    var forwards := lib.forwards(m.pipelines);
    if forwards.None? { return None; }
    var peer := forwards.value && scaled.replicas > 1;
    var generated := Generate.GeneratePipelineConfig(m.pipelines, scaled.topicWorkers, lib.decode);
    if generated.Err? { return None; }
    var yaml := lib.pipelinesYaml(generated.value);
    if yaml.None? { return None; }
    var config := lib.configYaml(m, peer, p.name);
    if config.None? { return None; }
    var steps := GenerateSteps(p, m, scaled, peer, yaml.value, config.value, lib);
    plan := Some(steps);
  }

  lemma PlanDecides(s: Store, p: Pipeline, plan: seq<Step>)
    requires Covers(plan, p.name) && Exec(s, Self(p), plan[..|plan|]).1
    ensures Found(Exec(s, Self(p), plan[..|plan|]).0, p) == Asked(plan)
  {
    assert plan[..|plan|] == plan;
    CoveredKeys(plan, p.name);
    forall i | 0 <= i < |plan| ensures View(Exec(s, Self(p), plan).0, Self(p), plan[i].key) == Wanted(plan[i]) {
      StepsDecide(s, Self(p), plan, i);
    }
  }

  datatype Outcome = Rejected | Failed | Reconciled

  /** One pass. A pass that fails on the way has carried out a prefix of its plan; after one that succeeds the
      operator-set fields are those of the plan, whatever the store was. */
  method ReconcilePipeline(ns: Namespace, p: Pipeline, d: Option<Defaults>, scaled: Scaled, lib: Library)
    returns (r: Outcome, ghost done: nat)
    modifies ns
    ensures r.Rejected? <==> Plan(p, d, scaled, lib).None?
    ensures r.Rejected? ==> ns.objects == old(ns.objects)
    ensures !r.Rejected? ==>
              var plan := Plan(p, d, scaled, lib).value;
              && done <= |plan| && (r.Reconciled? <==> done == |plan|)
              && Exec(old(ns.objects), Self(p), plan[..done]) == (ns.objects, true)
              && (ns.reliable ==> Exec(old(ns.objects), Self(p), plan) == (ns.objects, r.Reconciled?))
              && (r.Reconciled? ==> Found(ns.objects, p) == Asked(plan))
    ensures r.Reconciled? ==> Deployed(Found(ns.objects, p), p, Merge.Merged(d, p.spec), scaled, lib)
  {
    done := 0;
    var plan := Compile(p, d, scaled, lib);
    if plan.None? { return Rejected, 0; }
    var ok;
    ok, done := ns.ApplyAll(Self(p), plan.value);
    r := if ok then Reconciled else Failed;
    if ok {
      PlanDecides(old(ns.objects), p, plan.value);
      PlanDeploys(p, d, scaled, lib);
    }
  }

  /** What scaling depends on besides the spec: the partition counts Kafka reports, and floating-point division. */
  datatype Metrics = Metrics(lookup: string -> ScalingMath.Lookup, divide: ScalingMath.Division)

  /** The scaling outcome for a spec, after the fallback to one replica. */
  ghost function ScaledFor(m: PipelineSpec, x: Metrics): (r: Scaled)
    requires ScalingMath.SchemaValid(m.scaling) && ScalingMath.Ieee(x.divide)
    ensures 1 <= r.replicas <= ScalingMath.MAX_INT32
  {
    ScalingMath.DecisionFits(m.scaling, m.pipelines, x.lookup, x.divide);
    var e := ScalingMath.Effective(ScalingMath.DecisionFor(m.scaling, m.pipelines, x.lookup, x.divide));
    Scaled(e.replicas, e.topicWorkers, e.useHpa)
  }

  method Scale(m: PipelineSpec, x: Metrics) returns (scaled: Scaled)
    requires ScalingMath.SchemaValid(m.scaling) && ScalingMath.Ieee(x.divide)
    ensures scaled == ScaledFor(m, x)
  {
    var decision := ScalingMath.CalculateScaling(m.scaling, m.pipelines, x.lookup, x.divide);
    ScalingMath.DecisionFits(m.scaling, m.pipelines, x.lookup, x.divide);
    var e := ScalingMath.Effective(decision);
    scaled := Scaled(e.replicas, e.topicWorkers, e.useHpa);
  }

  /** The plan of a pass as a function of the spec, the defaults, the partition counts and the secrets. */
  ghost function FullPlan(p: Pipeline, d: Option<Defaults>, x: Metrics, lib: Library): (r: Option<seq<Step>>)
    requires ScalingMath.SchemaValid(p.spec.scaling) && ScalingMath.Ieee(x.divide)
    ensures r.Some? ==> Covers(r.value, p.name)
  {
    Plan(p, d, ScaledFor(Merge.Merged(d, p.spec), x), lib)
  }

  /** One whole pass. When it succeeds, the operator-set fields of the seven objects are a function of the spec, the
      defaults, the partition counts and the secrets: the store before has no say. */
  method ReconcileScaled(ns: Namespace, p: Pipeline, d: Option<Defaults>, x: Metrics, lib: Library)
    returns (r: Outcome, scaled: Scaled)
    requires ScalingMath.SchemaValid(p.spec.scaling) && ScalingMath.Ieee(x.divide)
    modifies ns
    ensures scaled == ScaledFor(Merge.Merged(d, p.spec), x)
    ensures r.Rejected? <==> FullPlan(p, d, x, lib).None?
    ensures r.Rejected? ==> ns.objects == old(ns.objects)
    ensures r.Reconciled? ==>
              && Found(ns.objects, p) == Asked(FullPlan(p, d, x, lib).value)
              && Deployed(Found(ns.objects, p), p, Merge.Merged(d, p.spec), scaled, lib)
  {
    var m := Merge.MergeFetched(d, p.spec);
    scaled := Scale(m, x);
    ghost var done: nat;
    r, done := ReconcilePipeline(ns, p, d, scaled, lib);
  }

  /******* Which objects a pass touches *******/

  lemma SuffixesDiffer(a: string, b: string)
    ensures a + "-pipelines" != b + "-config"
    ensures a + "-pipelines" == b + "-pipelines" ==> a == b
    ensures a + "-config" == b + "-config" ==> a == b
    ensures a + "-headless" == b + "-headless" ==> a == b
  {
    var x, y := a + "-pipelines", b + "-config";
    assert x[|x| - 1] == 's' && y[|y| - 1] == 'g';
    if a + "-pipelines" == b + "-pipelines" { assert a == (a + "-pipelines")[..|a|] == (b + "-pipelines")[..|b|] == b; }
    if a + "-config" == b + "-config" { assert a == (a + "-config")[..|a|] == (b + "-config")[..|b|] == b; }
    if a + "-headless" == b + "-headless" { assert a == (a + "-headless")[..|a|] == (b + "-headless")[..|b|] == b; }
  }

  lemma OwnedDistinct(n: string)
    ensures forall i, j :: 0 <= i < j < 7 ==> OwnedList(n)[i] != OwnedList(n)[j]
  {
    SuffixesDiffer(n, n);
    assert |n + "-headless"| != |n|;
  }

  lemma CoveredKeys(steps: seq<Step>, n: string)
    requires Covers(steps, n)
    ensures DistinctKeys(steps) && KeysOf(steps) == Owned(n)
  {
    OwnedDistinct(n);
    forall k | k in Owned(n) ensures k in KeysOf(steps) {
      OwnedIsListed(n, k);
      var i :| 0 <= i < 7 && OwnedList(n)[i] == k;
      assert steps[i].key == k;
    }
    forall k | k in KeysOf(steps) ensures k in Owned(n) {
      var i :| 0 <= i < 7 && steps[i].key == k;
      OwnedIsListed(n, k);
      assert k == OwnedList(n)[i];
    }
  }

  /** Two pipelines share no object exactly when neither name is the other's with "-headless" at the end. */
  lemma OwnedDisjoint(a: string, b: string)
    ensures Owned(a) !! Owned(b) <==> a != b && a != b + "-headless" && b != a + "-headless"
  {
    SuffixesDiffer(a, b);
    SuffixesDiffer(b, a);
    if a == b { assert DeploymentKey(a) in Owned(a) && DeploymentKey(a) in Owned(b); }
    if a == b + "-headless" { assert ServiceKey(a) in Owned(a) && ServiceKey(a) in Owned(b); }
    if b == a + "-headless" { assert ServiceKey(b) in Owned(a) && ServiceKey(b) in Owned(b); }
  }

  /******* The main results *******/

  /** From any two stores, passes with the same plan that succeed leave the same operator-set fields in all seven
      objects. */
  lemma HistoryIndependent(s: Store, t: Store, p: Pipeline, plan: seq<Step>, k: Key)
    requires Covers(plan, p.name) && k in Owned(p.name)
    requires Exec(s, Self(p), plan).1 && Exec(t, Self(p), plan).1
    ensures View(Exec(s, Self(p), plan).0, Self(p), k) == View(Exec(t, Self(p), plan).0, Self(p), k)
  {
    CoveredKeys(plan, p.name);
    var i :| 0 <= i < |plan| && plan[i].key == k;
    StepsDecide(s, Self(p), plan, i);
    StepsDecide(t, Self(p), plan, i);
  }

  /** Reconciling again changes nothing, and a pass touches only its own objects. */
  lemma Settles(s: Store, p: Pipeline, plan: seq<Step>)
    requires Covers(plan, p.name) && Exec(s, Self(p), plan).1
    ensures var t := Exec(s, Self(p), plan).0;
            && Exec(t, Self(p), plan) == (t, true)
            && forall k :: k !in Owned(p.name) ==> Get(t, k) == Get(s, k)
  {
    CoveredKeys(plan, p.name);
    SecondPass(s, Self(p), plan);
    forall k | k !in Owned(p.name) ensures Get(Exec(s, Self(p), plan).0, k) == Get(s, k) {
      OthersStay(s, Self(p), plan, k);
    }
  }

  /** What the webhook admits, the reconciler can carry out: where documents marshal, only a processor that does not
      decode, or is no object, leaves an admitted pipeline without a plan. */
  lemma AdmittedHasPlan(p: Pipeline, defaultImage: string, d: Option<Defaults>, scaled: Scaled, lib: Library)
    requires Admission.Admitted(p.name, p.spec, defaultImage)
    requires forall v :: lib.pipelinesYaml(v).Some?
    requires forall m, peer, n :: lib.configYaml(m, peer, n).Some?
    ensures Plan(p, d, scaled, lib).Some? <==>
            && lib.forwards(Merge.Merged(d, p.spec).pipelines).Some?
            && forall i :: 0 <= i < |p.spec.pipelines| ==>
                 Config.ProcessorsDecode(p.spec.pipelines[i].processors, lib.decode)
  {
    Admission.MergeKeepsGraph(d, p.spec);
    Admission.AdmittedGenerates(p.name, p.spec, defaultImage, d, lib.decode);
  }

  lemma PrefixKeys(steps: seq<Step>, n: nat)
    requires n <= |steps|
    ensures KeysOf(steps[..n]) <= KeysOf(steps)
  {
    assert forall i :: 0 <= i < n ==> steps[..n][i] == steps[i];
  }

  /** Two pipelines whose passes run at the same time, each cut short anywhere by an API failure: every interleaving
      that runs to the end gives the store of one pass after the other, in either order. */
  lemma Isolated(s: Store, p: Pipeline, q: Pipeline, plan: seq<Step>, qlan: seq<Step>, m: nat, n: nat,
                 schedule: seq<bool>)
    requires Covers(plan, p.name) && Covers(qlan, q.name) && m <= |plan| && n <= |qlan|
    requires p.name != q.name && p.name != q.name + "-headless" && q.name != p.name + "-headless"
    ensures var a, b := Job(Self(p), plan[..m]), Job(Self(q), qlan[..n]);
            var (t, a', b') := Race(s, a, b, schedule);
            && Finish(Finish(s, a), b) == Finish(Finish(s, b), a)
            && (a'.steps == [] && b'.steps == [] ==> t == Finish(Finish(s, a), b))
  {
    CoveredKeys(plan, p.name);
    CoveredKeys(qlan, q.name);
    OwnedDisjoint(p.name, q.name);
    PrefixKeys(plan, m);
    PrefixKeys(qlan, n);
    var a, b := Job(Self(p), plan[..m]), Job(Self(q), qlan[..n]);
    DisjointIsCompatible(a.steps, b.steps);
    JobsCommute(s, a, b);
    RaceIsSequential(s, a, b, schedule);
  }

  /** Without peers a pass deletes the Service called after the pipeline with "-headless" at the end, also when it
      belongs to the pipeline of that name. */
  lemma HeadlessNameIsTaken(s: Store, p: Pipeline, plan: seq<Step>)
    requires Covers(plan, p.name) && plan[4].Remove? && Exec(s, Self(p), plan).1
    ensures Get(Exec(s, Self(p), plan).0, ServiceKey(p.name + "-headless")) == None
  {
    CoveredKeys(plan, p.name);
    ExecIs(s, Self(p), plan);
    assert plan[4].key == OwnedList(p.name)[4];
  }

  /** A pipeline and the one named after it plus "-headless" share that Service, and nothing else. */
  lemma MeetAtService(p: Pipeline, q: Pipeline, plan: seq<Step>, qlan: seq<Step>)
    requires Covers(plan, p.name) && Covers(qlan, q.name) && q.name == p.name + "-headless"
    ensures MeetAt(Job(Self(p), plan), 4, Job(Self(q), qlan), 3)
  {
    CoveredKeys(plan, p.name);
    CoveredKeys(qlan, q.name);
    OwnedMeet(p.name, q.name);
    assert plan[4].key == OwnedList(p.name)[4] && qlan[3].key == OwnedList(q.name)[3];
  }

  lemma OwnedMeet(a: string, b: string)
    requires b == a + "-headless"
    ensures Owned(a) * Owned(b) == {ServiceKey(b)}
  {
    SuffixesDiffer(a, b);
    SuffixesDiffer(b, a);
    assert |b| == |a| + 9 && |b + "-headless"| == |a| + 18;
  }

  ghost predicate BothDelete(p: Pipeline, q: Pipeline, plan: seq<Step>, qlan: seq<Step>)
    requires Covers(plan, p.name) && Covers(qlan, q.name)
  {
    && (q.name == p.name + "-headless" ==> plan[4].Remove? && qlan[3].Remove?)
    && (p.name == q.name + "-headless" ==> qlan[4].Remove? && plan[3].Remove?)
  }

  /** The exact condition: passes of two pipelines commute from every store if and only if they share no Service, or
      both of them delete it. */
  lemma CommuteIff(p: Pipeline, q: Pipeline, plan: seq<Step>, qlan: seq<Step>)
    requires Covers(plan, p.name) && Covers(qlan, q.name) && p.name != q.name
    ensures var a, b := Job(Self(p), plan), Job(Self(q), qlan);
            (forall s :: Finish(Finish(s, a), b) == Finish(Finish(s, b), a)) <==> BothDelete(p, q, plan, qlan)
  {
    var a, b := Job(Self(p), plan), Job(Self(q), qlan);
    if q.name == p.name + "-headless" {
      assert |q.name| == |p.name| + 9;
      MeetAtService(p, q, plan, qlan);
      MeetingDecides(a, 4, b, 3);
    } else if p.name == q.name + "-headless" {
      MeetAtService(q, p, qlan, plan);
      MeetingDecides(b, 4, a, 3);
    } else {
      CoveredKeys(plan, p.name);
      CoveredKeys(qlan, q.name);
      OwnedDisjoint(p.name, q.name);
      DisjointIsCompatible(plan, qlan);
      forall s ensures Finish(Finish(s, a), b) == Finish(Finish(s, b), a) { JobsCommute(s, a, b); }
    }
  }

  /******* A pair that collides *******/

  const SERVING := PipelineDefinition("entry", 0, 0, Source(None, Some(HttpSource(2021, "")), None, None, None),
                                      None, [], [], [Sink(None, None, None, None, true)])

  const SPEC := PipelineSpec("image", "", [SERVING], None, None, None, None, map[], map[], map[], Json(""))

  const ONE_REPLICA := Scaled(1, 0, false)

  lemma ServingIsValid(decode: Config.Decoder)
    ensures Graph.ValidGraph(Admission.GraphDefs(SPEC.pipelines)) && Config.AllGenerate(SPEC.pipelines, decode)
    ensures Serves(SPEC.pipelines, None)
  {
    assert SPEC.pipelines[0] == SERVING && SERVING.sink[0].stdout;
    var defs := Admission.GraphDefs(SPEC.pipelines);
    assert |defs| == 1 && defs[0].sinkPipelines == [];
    Graph.RankedIsAcyclic(defs, map["entry" := 0]);
  }

  lemma ServingPlan(lib: Library, p: Pipeline) returns (plan: seq<Step>)
    requires p.spec == SPEC && lib.forwards([SERVING]).Some?
    requires (forall v :: lib.pipelinesYaml(v).Some?) && (forall m, peer, n :: lib.configYaml(m, peer, n).Some?)
    ensures Plan(p, None, ONE_REPLICA, lib) == Some(plan)
    ensures Covers(plan, p.name) && plan[3].Ensure? && plan[4].Remove?
  {
    ServingIsValid(lib.decode);
    plan := Plan(p, None, ONE_REPLICA, lib).value;
  }

  /** A pipeline and the one named after it plus "-headless", with the same spec, in an empty namespace: the Service
      of the second one is there when it went last, and gone when the first one did. */
  lemma HeadlessOrderMatters(lib: Library, p: Pipeline, q: Pipeline) returns (a: Job, b: Job)
    requires p.spec == q.spec == SPEC && q.name == p.name + "-headless"
    requires lib.forwards([SERVING]).Some?
    requires (forall v :: lib.pipelinesYaml(v).Some?) && (forall m, peer, n :: lib.configYaml(m, peer, n).Some?)
    ensures a.owner == Self(p) && Plan(p, None, ONE_REPLICA, lib) == Some(a.steps)
    ensures b.owner == Self(q) && Plan(q, None, ONE_REPLICA, lib) == Some(b.steps)
    ensures ServiceKey(q.name) in Finish(Finish(map[], a), b) && ServiceKey(q.name) !in Finish(Finish(map[], b), a)
  {
    var plan := ServingPlan(lib, p);
    var qlan := ServingPlan(lib, q);
    a, b := Job(Self(p), plan), Job(Self(q), qlan);
    ServiceGoes(p, q, plan, qlan);
  }

  lemma ServiceGoes(p: Pipeline, q: Pipeline, plan: seq<Step>, qlan: seq<Step>)
    requires Covers(plan, p.name) && Covers(qlan, q.name) && q.name == p.name + "-headless"
    requires plan[4].Remove? && qlan[3].Ensure?
    ensures var a, b := Job(Self(p), plan), Job(Self(q), qlan);
            ServiceKey(q.name) in Finish(Finish(map[], a), b) && ServiceKey(q.name) !in Finish(Finish(map[], b), a)
  {
    var a, b := Job(Self(p), plan), Job(Self(q), qlan);
    MeetAtService(p, q, plan, qlan);
    LastWord(a, 4, b, 3);
    MeetSymmetric(a, 4, b, 3);
    LastWord(b, 3, a, 4);
    assert plan[4].key == OwnedList(p.name)[4] && qlan[3].key == OwnedList(q.name)[3];
  }

  /******* What the user's own labels and annotations can undo *******/

  /** A change of configuration reaches the pods' annotations exactly when the user has not set that annotation. */
  lemma HashReachesPods(p: Pipeline, m: PipelineSpec, peer: bool, ports: set<int>, env: set<EnvRef>, hash: string)
    ensures Template(p, m, peer, ports, env, hash).annotations["dataprepper.kaasops.io/config-hash"] == hash <==>
            "dataprepper.kaasops.io/config-hash" !in m.podAnnotations ||
            m.podAnnotations["dataprepper.kaasops.io/config-hash"] == hash
  {
  }
}
