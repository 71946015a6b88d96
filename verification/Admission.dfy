/** The validating webhook, and what an admitted spec is worth to the reconciler. */
module Admission {
  import opened Api
  import opened Config
  import opened Placeholders
  import opened ReadBack
  import Credentials
  import Graph
  import Merge

  /******* Unions *******/

  function Count(members: seq<bool>): nat {
    if members == [] then 0 else (if members[0] then 1 else 0) + Count(members[1..])
  }

  ghost predicate OnlyAt(members: seq<bool>, i: int) {
    0 <= i < |members| && members[i] && forall j :: 0 <= j < |members| && j != i ==> !members[j]
  }

  ghost predicate ExactlyOne(members: seq<bool>) {
    exists i :: OnlyAt(members, i)
  }

  lemma {:induction false} CountZero(members: seq<bool>)
    ensures Count(members) == 0 <==> forall i :: 0 <= i < |members| ==> !members[i]
  {
    if members == [] {
    } else {
      CountZero(members[1..]);
      assert forall i :: 0 < i < |members| ==> members[i] == members[1..][i - 1];
    }
  }

  lemma {:induction false} CountOne(members: seq<bool>)
    ensures Count(members) == 1 <==> ExactlyOne(members)
  {
    if members == [] {
    } else {
      var rest := members[1..];
      CountZero(rest);
      CountOne(rest);
      assert forall i :: 0 <= i < |rest| ==> rest[i] == members[i + 1];
      if Count(members) == 1 {
        if members[0] { assert OnlyAt(members, 0); } else {
          var i :| OnlyAt(rest, i);
          assert OnlyAt(members, i + 1);
        }
      } else if i :| OnlyAt(members, i) {
        if i > 0 { assert OnlyAt(rest, i - 1); }
      }
    }
  }

  function SourceMembers(s: Source): seq<bool> {
    [s.kafka.Some?, s.http.Some?, s.otel.Some?, s.s3.Some?, s.pipeline.Some?]
  }

  function SinkMembers(s: Sink): seq<bool> {
    [s.openSearch.Some?, s.pipeline.Some?, s.s3.Some?, s.kafka.Some?, s.stdout]
  }

  function CodecMembers(c: Codec): seq<bool> {
    [c.json, c.csv.Some?, c.newline, c.parquet, c.avroSchema.Some?]
  }

  /** The counters of the webhook. */
  method CountMembers(members: seq<bool>) returns (count: nat)
    ensures count == Count(members)
  {
    count := 0;
    for i := 0 to |members|
      invariant count == Count(members[..i])
    {
      if members[i] { count := count + 1; }
      CountAppend(members[..i], members[i]);
      assert members[..i + 1] == members[..i] + [members[i]];
    }
    assert members[..|members|] == members;
  }

  lemma {:induction false} CountAppend(members: seq<bool>, b: bool)
    ensures Count(members + [b]) == Count(members) + if b then 1 else 0
  {
    if members == [] { assert [b][1..] == []; } else {
      assert (members + [b])[1..] == members[1..] + [b];
      CountAppend(members[1..], b);
    }
  }

  /******* Pipeline definitions *******/

  ghost predicate WellFormed(p: PipelineDefinition) {
    && p.name != ""
    && ExactlyOne(SourceMembers(p.source))
    && p.sink != []
    && (p.source.s3.Some? && p.source.s3.value.codec.Some? ==> Count(CodecMembers(p.source.s3.value.codec.value)) <= 1)
    && forall j :: 0 <= j < |p.sink| ==> ExactlyOne(SinkMembers(p.sink[j]))
  }

  ghost predicate Definitions(ps: seq<PipelineDefinition>) {
    DistinctNames(ps) && forall i :: 0 <= i < |ps| ==> WellFormed(ps[i])
  }

  datatype Rejection =
    | NameRequired(index: nat)
    | DuplicateName(name: string)
    | SourceUnion(name: string, count: nat)
    | NoSinks(name: string)
    | CodecUnion(name: string, count: nat)
    | SinkUnion(name: string, index: nat, count: nat)

  method ValidateDefinition(p: PipelineDefinition) returns (r: Option<Rejection>)
    requires p.name != ""
    ensures r.None? <==> WellFormed(p)
  {
    var c := CountMembers(SourceMembers(p.source));
    CountOne(SourceMembers(p.source));
    if c != 1 { return Some(SourceUnion(p.name, c)); }
    if p.sink == [] { return Some(NoSinks(p.name)); }
    if p.source.s3.Some? && p.source.s3.value.codec.Some? {
      c := CountMembers(CodecMembers(p.source.s3.value.codec.value));
      if c > 1 { return Some(CodecUnion(p.name, c)); }
    }
    for j := 0 to |p.sink|
      invariant forall k :: 0 <= k < j ==> ExactlyOne(SinkMembers(p.sink[k]))
    {
      c := CountMembers(SinkMembers(p.sink[j]));
      CountOne(SinkMembers(p.sink[j]));
      if c != 1 { return Some(SinkUnion(p.name, j, c)); }
    }
    r := None;
  }

  /** Accepts exactly the well-formed lists of definitions with pairwise different names. */
  method ValidatePipelineDefinitions(ps: seq<PipelineDefinition>) returns (r: Option<Rejection>)
    ensures r.None? <==> Definitions(ps)
  {
    var names: set<string> := {};
    for i := 0 to |ps|
      invariant forall n :: n in names <==> exists j :: 0 <= j < i && ps[j].name == n
      invariant Definitions(ps[..i])
    {
      var p := ps[i];
      if p.name == "" { return Some(NameRequired(i)); }
      if p.name in names { return Some(DuplicateName(p.name)); }
      names := names + {p.name};
      r := ValidateDefinition(p);
      if r.Some? { return; }
    }
    assert ps[..|ps|] == ps;
    r := None;
  }

  /******* The graph *******/

  ghost function GraphDefs(ps: seq<PipelineDefinition>): seq<Graph.PipelineDef> {
    seq(|ps|, i requires 0 <= i < |ps| => GraphDef(ps[i]))
  }

  /** The loop that both the webhook and the reconciler run before calling the validator. */
  method BuildGraphDefs(ps: seq<PipelineDefinition>) returns (defs: seq<Graph.PipelineDef>)
    ensures defs == GraphDefs(ps)
  {
    defs := [];
    for i := 0 to |ps|
      invariant defs == GraphDefs(ps[..i])
    {
      var p := ps[i];
      var def := Graph.PipelineDef(p.name, "", []);
      if p.source.pipeline.Some? { def := def.(sourcePipeline := p.source.pipeline.value); }
      for j := 0 to |p.sink|
        invariant def == GraphDef(p).(sinkPipelines := SinkConnectors(p.sink[..j]))
      {
        SinkConnectorsAppend(p.sink[..j], p.sink[j]);
        assert p.sink[..j + 1] == p.sink[..j] + [p.sink[j]];
        if p.sink[j].pipeline.Some? {
          def := def.(sinkPipelines := def.sinkPipelines + [p.sink[j].pipeline.value]);
        }
      }
      assert p.sink[..|p.sink|] == p.sink;
      defs := defs + [def];
      assert ps[..i + 1] == ps[..i] + [p];
    }
    assert ps[..|ps|] == ps;
  }

  /** Merging defaults leaves the graph alone, so the webhook and the reconciler always reach the same verdict. */
  lemma MergeKeepsGraph(d: Option<Defaults>, s: PipelineSpec)
    ensures GraphDefs(Merge.Merged(d, s).pipelines) == GraphDefs(s.pipelines)
  {
    if d.Some? {
      forall i | 0 <= i < |s.pipelines|
        ensures GraphDef(Merge.MergedPipeline(d.value, s.pipelines[i])) == GraphDef(s.pipelines[i])
      {
        Merge.MergedConnectors(d.value, s.pipelines[i].sink);
      }
    }
  }

  /******* Scaling limits *******/

  /** A fixed count is positive in manual mode, and bounds that are both set are in order. */
  ghost predicate ScalingAdmitted(s: Option<Scaling>) {
    s.Some? ==>
      && (s.value.mode == "manual" && s.value.fixedReplicas.Some? ==> 1 <= s.value.fixedReplicas.value)
      && (s.value.maxReplicas.Some? && s.value.minReplicas.Some? ==>
            s.value.minReplicas.value <= s.value.maxReplicas.value)
  }

  method ValidateScaling(s: Option<Scaling>) returns (ok: bool)
    ensures ok <==> ScalingAdmitted(s)
  {
    if s.None? { return true; }
    if s.value.mode == MODE_MANUAL && s.value.fixedReplicas.Some? && s.value.fixedReplicas.value < 1 { return false; }
    if s.value.maxReplicas.Some? && s.value.minReplicas.Some?
       && s.value.maxReplicas.value < s.value.minReplicas.value {
      return false;
    }
    ok := true;
  }

  /******* The whole webhook *******/

  const MAX_NAME_LENGTH := 244

  /** What the webhook admits, given the image of the namespace's defaults, if any. */
  ghost predicate Admitted(name: string, s: PipelineSpec, defaultImage: string) {
    && |name| <= MAX_NAME_LENGTH
    && (s.image != "" || defaultImage != "")
    && s.pipelines != []
    && Definitions(s.pipelines)
    && Graph.ValidGraph(GraphDefs(s.pipelines))
    && ScalingAdmitted(s.scaling)
  }

  method ValidatePipeline(name: string, s: PipelineSpec, defaultImage: string) returns (ok: bool)
    ensures ok <==> Admitted(name, s, defaultImage)
  {
    if |name| > MAX_NAME_LENGTH { return false; }
    if s.image == "" && defaultImage == "" { return false; }
    if s.pipelines == [] { return false; }
    var r := ValidatePipelineDefinitions(s.pipelines);
    if r.Some? { return false; }
    var defs := BuildGraphDefs(s.pipelines);
    var v, _ := Graph.ValidateGraph(defs);
    if !v.Accepted? { return false; }
    ok := ValidateScaling(s.scaling);
  }

  /******* What admission buys *******/

  lemma WellFormedSource(s: Source)
    requires ExactlyOne(SourceMembers(s))
    ensures BuildSource(s, 0).Some?
    ensures s.pipeline.Some? ==> s.kafka.None? && s.http.None? && s.otel.None? && s.s3.None?
  {
    var m := SourceMembers(s);
    var i :| OnlyAt(m, i);
    assert m[0] == s.kafka.Some? && m[1] == s.http.Some? && m[2] == s.otel.Some?;
    assert m[3] == s.s3.Some? && m[4] == s.pipeline.Some?;
  }

  lemma WellFormedSink(s: Sink)
    requires ExactlyOne(SinkMembers(s))
    ensures BuildSink(s).Some?
    ensures s.pipeline.Some? ==> s.openSearch.None?
    ensures s.kafka.Some? ==> s.openSearch.None? && s.pipeline.None? && s.s3.None?
  {
    var m := SinkMembers(s);
    var i :| OnlyAt(m, i);
    assert m[0] == s.openSearch.Some? && m[1] == s.pipeline.Some? && m[2] == s.s3.Some?;
    assert m[3] == s.kafka.Some? && m[4] == s.stdout;
  }

  /** The only way a well-formed definition can fail to generate is a processor that does not decode. */
  lemma WellFormedGenerates(p: PipelineDefinition, decode: Decoder)
    requires WellFormed(p)
    ensures ConnectorsVisible(p)
    ensures EntryError(p, decode).None? <==> ProcessorsDecode(p.processors, decode)
  {
    WellFormedSource(p.source);
    forall j | 0 <= j < |p.sink|
      ensures BuildSink(p.sink[j]).Some? && (p.sink[j].pipeline.Some? ==> p.sink[j].openSearch.None?)
    {
      WellFormedSink(p.sink[j]);
    }
  }

  lemma MergedWellFormed(d: Defaults, p: PipelineDefinition)
    requires WellFormed(p)
    ensures WellFormed(Merge.MergedPipeline(d, p))
  {
    var m := Merge.MergedPipeline(d, p);
    assert SourceMembers(m.source) == SourceMembers(p.source);
    forall j | 0 <= j < |p.sink| ensures ExactlyOne(SinkMembers(m.sink[j])) {
      assert SinkMembers(m.sink[j]) == SinkMembers(p.sink[j]);
    }
  }

  lemma MergedDefinitions(d: Option<Defaults>, s: PipelineSpec)
    requires Definitions(s.pipelines)
    ensures Definitions(Merge.Merged(d, s).pipelines)
  {
    if d.Some? {
      forall i | 0 <= i < |s.pipelines| ensures WellFormed(Merge.MergedPipeline(d.value, s.pipelines[i])) {
        MergedWellFormed(d.value, s.pipelines[i]);
      }
    }
  }

  /** The graph that the document describes, entry by entry in the order of `ps`. */
  ghost function ReadGraph(ps: seq<PipelineDefinition>, config: map<string, Value>): seq<Graph.PipelineDef>
    requires forall i :: 0 <= i < |ps| ==> ps[i].name in config
  {
    seq(|ps|, i requires 0 <= i < |ps| => ReadEntry(ps[i].name, config[ps[i].name]))
  }

  lemma DefinitionReadBack(ps: seq<PipelineDefinition>, topicWorkers: int32, decode: Decoder, i: nat)
    requires Definitions(ps) && AllGenerate(ps, decode) && DistinctKeys(Entries(ps, topicWorkers, decode)) && i < |ps|
    ensures var config := Assigned(Entries(ps, topicWorkers, decode));
            ps[i].name in config && ReadEntry(ps[i].name, config[ps[i].name]) == GraphDef(ps[i])
  {
    AssignedDistinct(Entries(ps, topicWorkers, decode), i);
    WellFormedGenerates(ps[i], decode);
    ReadEntryBack(ps[i], topicWorkers, decode);
  }

  lemma EntriesDistinct(ps: seq<PipelineDefinition>, topicWorkers: int32, decode: Decoder)
    requires Definitions(ps) && AllGenerate(ps, decode)
    ensures DistinctKeys(Entries(ps, topicWorkers, decode))
  {
  }

  lemma DefinitionsReadBack(ps: seq<PipelineDefinition>, topicWorkers: int32, decode: Decoder)
    requires Definitions(ps) && AllGenerate(ps, decode)
    ensures var config := Assigned(Entries(ps, topicWorkers, decode));
            && |config| == |ps|
            && (forall i :: 0 <= i < |ps| ==> ps[i].name in config)
            && ReadGraph(ps, config) == GraphDefs(ps)
  {
    var pairs := Entries(ps, topicWorkers, decode);
    EntriesDistinct(ps, topicWorkers, decode);
    DistinctKeysCount(pairs);
    var config := Assigned(pairs);
    forall i | 0 <= i < |ps| ensures ps[i].name in config { DefinitionReadBack(ps, topicWorkers, decode, i); }
    forall i | 0 <= i < |ps| ensures ReadGraph(ps, config)[i] == GraphDefs(ps)[i] {
      DefinitionReadBack(ps, topicWorkers, decode, i);
    }
  }

  /** Admission survives compilation. Whatever the defaults are, the document generated from the merged
      spec has one entry per pipeline, and the graph read back from it is the graph the webhook accepted. */
  lemma CompiledGraph(name: string, s: PipelineSpec, defaultImage: string, d: Option<Defaults>, topicWorkers: int32,
                      decode: Decoder)
    requires Admitted(name, s, defaultImage)
    requires AllGenerate(Merge.Merged(d, s).pipelines, decode)
    ensures var ms := Merge.Merged(d, s).pipelines;
            var config := Assigned(Entries(ms, topicWorkers, decode));
            && |config| == |s.pipelines|
            && (forall i :: 0 <= i < |ms| ==> ms[i].name in config)
            && ReadGraph(ms, config) == GraphDefs(s.pipelines)
            && Graph.ValidGraph(ReadGraph(ms, config))
  {
    MergedDefinitions(d, s);
    MergeKeepsGraph(d, s);
    DefinitionsReadBack(Merge.Merged(d, s).pipelines, topicWorkers, decode);
  }

  /** A source without its secrets, and with the only thing that is generated of OpenTelemetry protocols. */
  function WithoutSecrets(s: Source): Source {
    Source(if s.kafka.Some? then Some(s.kafka.value.(credentials := None)) else None,
           s.http,
           if s.otel.Some? then Some(ShownOTel(s.otel.value)) else None,
           if s.s3.Some? then Some(s.s3.value.(credentials := None)) else None,
           s.pipeline)
  }

  function SinkWithoutSecrets(s: Sink): Sink {
    Sink(if s.openSearch.Some? then Some(s.openSearch.value.(credentials := None, dlqSecret := None)) else None,
         s.pipeline,
         if s.s3.Some? then Some(s.s3.value.(credentials := None)) else None,
         if s.kafka.Some? then Some(s.kafka.value.(credentials := None)) else None,
         s.stdout)
  }

  lemma {:induction false} CountBound(members: seq<bool>, i: nat, j: nat)
    requires Count(members) <= 1 && i < j < |members|
    ensures !(members[i] && members[j])
  {
    if i == 0 {
      CountZero(members[1..]);
      assert members[1..][j - 1] == members[j];
    } else {
      CountBound(members[1..], i - 1, j - 1);
    }
  }

  lemma CodecShown(c: Codec)
    requires Count(CodecMembers(c)) <= 1
    ensures ShownCodec(c) == c
  {
    var m := CodecMembers(c);
    forall i, j | 0 <= i < j < 5 ensures !(m[i] && m[j]) { CountBound(m, i, j); }
    assert m[0] == c.json && m[1] == c.csv.Some? && m[2] == c.newline && m[3] == c.parquet;
    assert m[4] == c.avroSchema.Some?;
  }

  lemma SourceShown(s: Source)
    requires ExactlyOne(SourceMembers(s))
    requires s.s3.Some? && s.s3.value.codec.Some? ==> Count(CodecMembers(s.s3.value.codec.value)) <= 1
    ensures ShownSource(s) == WithoutSecrets(s)
  {
    if s.s3.Some? && s.s3.value.codec.Some? { CodecShown(s.s3.value.codec.value); }
    var m := SourceMembers(s);
    var i :| OnlyAt(m, i);
    assert m[0] == s.kafka.Some? && m[1] == s.http.Some? && m[2] == s.otel.Some?;
    assert m[3] == s.s3.Some? && m[4] == s.pipeline.Some?;
  }

  lemma SinkShown(s: Sink)
    requires ExactlyOne(SinkMembers(s))
    ensures ShownSink(s) == SinkWithoutSecrets(s)
  {
    var m := SinkMembers(s);
    var i :| OnlyAt(m, i);
    assert m[0] == s.openSearch.Some? && m[1] == s.pipeline.Some? && m[2] == s.s3.Some?;
    assert m[3] == s.kafka.Some? && m[4] == s.stdout;
  }

  /** Round trip. The definition read back from the document of an admitted and merged spec is the merged definition
      itself, apart from secrets, processors, negative numbers and the routes, which come as one map. */
  lemma CompiledDefinition(name: string, s: PipelineSpec, defaultImage: string, d: Option<Defaults>,
                           topicWorkers: int32, decode: Decoder, i: nat)
    requires Admitted(name, s, defaultImage)
    requires AllGenerate(Merge.Merged(d, s).pipelines, decode) && i < |s.pipelines|
    ensures var p := Merge.Merged(d, s).pipelines[i];
            var config := Assigned(Entries(Merge.Merged(d, s).pipelines, topicWorkers, decode));
            && p.name in config
            && var r := DefinitionOf(p.name, config[p.name]);
            && r.source == WithoutSecrets(p.source)
            && |r.sink| == |p.sink| && (forall j :: 0 <= j < |p.sink| ==> r.sink[j] == SinkWithoutSecrets(p.sink[j]))
            && r == ShownDefinition(p, topicWorkers).(source := r.source, sink := r.sink)
  {
    MergedDefinitions(d, s);
    var ms := Merge.Merged(d, s).pipelines;
    DocumentReadsBack(ms, topicWorkers, decode, i);
    assert WellFormed(ms[i]);
    SourceShown(ms[i].source);
    forall j | 0 <= j < |ms[i].sink| ensures ShownSink(ms[i].sink[j]) == SinkWithoutSecrets(ms[i].sink[j]) {
      SinkShown(ms[i].sink[j]);
    }
  }

  /** For an admitted spec generation fails only on a processor that does not decode. */
  lemma AdmittedGenerates(name: string, s: PipelineSpec, defaultImage: string, d: Option<Defaults>, decode: Decoder)
    requires Admitted(name, s, defaultImage)
    ensures AllGenerate(Merge.Merged(d, s).pipelines, decode) <==>
            forall i :: 0 <= i < |s.pipelines| ==> ProcessorsDecode(s.pipelines[i].processors, decode)
  {
    var ms := Merge.Merged(d, s).pipelines;
    MergedDefinitions(d, s);
    forall i | 0 <= i < |ms|
      ensures EntryError(ms[i], decode).None? <==> ProcessorsDecode(s.pipelines[i].processors, decode)
    {
      WellFormedGenerates(ms[i], decode);
      assert ms[i].processors == s.pipelines[i].processors;
    }
  }

  /** The converse of credential closure: no Kafka or OpenSearch variable of well-formed definitions is idle. */
  lemma NoIdleVariable(ps: seq<PipelineDefinition>, topicWorkers: int32, decode: Decoder, envs: seq<Credentials.EnvVar>,
                       e: Credentials.EnvVar)
    requires Definitions(ps) && AllGenerate(ps, decode)
    requires Credentials.IsEnvOf(envs, Credentials.Holders(ps)) && e in envs && e.kind != Credentials.Aws
    ensures Refers(Assigned(Entries(ps, topicWorkers, decode)), e.Name())
  {
    Credentials.FirstHolderIs(Credentials.Holders(ps), e.kind);
    var h := Credentials.Holder(e.kind, e.secret);
    var i := Credentials.HolderHasPlace(ps, h);
    HeldIsNeeded(ps[i], h, e.role);
    EntriesDistinct(ps, topicWorkers, decode);
    ConfigRefers(ps, topicWorkers, decode, e.Name());
  }

  lemma HeldIsNeeded(p: PipelineDefinition, h: Credentials.Holder, role: Credentials.Role)
    requires WellFormed(p) && Credentials.PipelineHolds(p, h) && h.kind != Credentials.Aws
    ensures PipelineNeeds(p, Credentials.VarName(h.kind, role))
  {
    match role { case User => case Password => }
    if j :| 0 <= j < |p.sink| && Credentials.SinkHolds(p.sink[j], h) {
      WellFormedSink(p.sink[j]);
      assert SinkNeeds(p.sink[j], Credentials.VarName(h.kind, role));
    }
  }

  lemma {:induction false} DistinctKeysCount(pairs: seq<(string, Value)>)
    requires DistinctKeys(pairs)
    ensures |Assigned(pairs)| == |pairs|
  {
    if pairs == [] {
    } else {
      var init := pairs[..|pairs| - 1];
      DistinctKeysCount(init);
      AssignedKeys(init);
      var k := pairs[|pairs| - 1].0;
      assert k !in Assigned(init);
      assert Assigned(pairs).Keys == Assigned(init).Keys + {k};
    }
  }
}
