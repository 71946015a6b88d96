/** Merging the namespace's defaults into a pipeline spec. */
module Merge {
  import opened Api
  import opened Cells

  /******* What the merged spec is, field by field *******/

  function OrDefaultList(own: seq<string>, default: seq<string>): seq<string> {
    if own != [] then own else default
  }

  function MergedKafka(d: DefaultKafka, k: KafkaSource): KafkaSource {
    k.(bootstrapServers := OrDefaultList(k.bootstrapServers, d.bootstrapServers),
       credentials := OrElse(k.credentials, d.credentials))
  }

  function MergedSource(d: Defaults, s: Source): Source {
    if d.kafka.Some? && s.kafka.Some? then s.(kafka := Some(MergedKafka(d.kafka.value, s.kafka.value))) else s
  }

  function MergedOpenSearch(d: OpenSearchSink, o: OpenSearchSink): OpenSearchSink {
    o.(hosts := OrDefaultList(o.hosts, d.hosts), credentials := OrElse(o.credentials, d.credentials))
  }

  function MergedSink(d: Defaults, s: Sink): Sink {
    if d.sink.Some? && d.sink.value.openSearch.Some? && s.openSearch.Some?
    then s.(openSearch := Some(MergedOpenSearch(d.sink.value.openSearch.value, s.openSearch.value)))
    else s
  }

  function MergedSinks(d: Defaults, ss: seq<Sink>): seq<Sink> {
    seq(|ss|, j requires 0 <= j < |ss| => MergedSink(d, ss[j]))
  }

  function MergedPipeline(d: Defaults, p: PipelineDefinition): PipelineDefinition {
    p.(source := MergedSource(d, p.source), sink := MergedSinks(d, p.sink))
  }

  function MergedFields(d: Defaults, s: PipelineSpec): PipelineSpec {
    s.(image := if s.image != "" then s.image else d.image,
       resources := OrElse(s.resources, d.resources),
       dataPrepperConfig := OrElse(s.dataPrepperConfig, d.dataPrepperConfig),
       serviceMonitor := OrElse(s.serviceMonitor, d.serviceMonitor))
  }

  function Merged(defaults: Option<Defaults>, s: PipelineSpec): PipelineSpec {
    if defaults.None? then s
    else MergedFields(defaults.value, s).(pipelines := MergedPipelines(defaults.value, s.pipelines))
  }

  function MergedPipelines(d: Defaults, ps: seq<PipelineDefinition>): seq<PipelineDefinition> {
    seq(|ps|, i requires 0 <= i < |ps| => MergedPipeline(d, ps[i]))
  }

  /******* The code: copy, then fill in place *******/

  method FillKafkaCell(c: KafkaCell, dk: DefaultKafka)
    modifies c
    ensures c.source == MergedKafka(dk, old(c.source))
  {
    if c.source.bootstrapServers == [] && dk.bootstrapServers != [] {
      c.source := c.source.(bootstrapServers := dk.bootstrapServers);
    }
    if c.source.credentials.None? && dk.credentials.Some? { c.source := c.source.(credentials := dk.credentials); }
  }

  /** Fills every Kafka source that the list reaches, whoever else can see it. */
  method FillKafka(ps: seq<PipelineRef>, dk: DefaultKafka)
    modifies KafkaCells(ps)
    ensures forall c :: c in KafkaCells(ps) ==> c.source == MergedKafka(dk, old(c.source))
  {
    for i := 0 to |ps|
      invariant forall c :: c in KafkaCells(ps) ==>
                  c.source == old(c.source) || c.source == MergedKafka(dk, old(c.source))
      invariant forall c :: c in KafkaCells(ps[..i]) ==> c.source == MergedKafka(dk, old(c.source))
    {
      if ps[i].kafka.None? { continue; }
      assert ps[i].kafka.value in KafkaCells(ps);
      FillKafkaCell(ps[i].kafka.value, dk);
    }
    assert ps[..|ps|] == ps;
  }

  method FillOpenSearchCell(c: OpenSearchCell, os: OpenSearchSink)
    modifies c
    ensures c.sink == MergedOpenSearch(os, old(c.sink))
  {
    if c.sink.hosts == [] && os.hosts != [] { c.sink := c.sink.(hosts := os.hosts); }
    if c.sink.credentials.None? && os.credentials.Some? { c.sink := c.sink.(credentials := os.credentials); }
  }

  method FillSinks(ss: seq<SinkRef>, os: OpenSearchSink)
    modifies SinkCells(ss)
    ensures forall c :: c in SinkCells(ss) ==> c.sink == MergedOpenSearch(os, old(c.sink))
  {
    for j := 0 to |ss|
      invariant forall c :: c in SinkCells(ss) ==> c.sink == old(c.sink) || c.sink == MergedOpenSearch(os, old(c.sink))
      invariant forall c :: c in SinkCells(ss[..j]) ==> c.sink == MergedOpenSearch(os, old(c.sink))
    {
      if ss[j].openSearch.None? { continue; }
      assert ss[j].openSearch.value in SinkCells(ss);
      FillOpenSearchCell(ss[j].openSearch.value, os);
    }
    assert ss[..|ss|] == ss;
  }

  /** Fills every OpenSearch sink that the list reaches, whoever else can see it. */
  method FillOpenSearch(ps: seq<PipelineRef>, os: OpenSearchSink)
    modifies OpenSearchCells(ps)
    ensures forall c :: c in OpenSearchCells(ps) ==> c.sink == MergedOpenSearch(os, old(c.sink))
  {
    for i := 0 to |ps|
      invariant forall c :: c in OpenSearchCells(ps) ==>
                  c.sink == old(c.sink) || c.sink == MergedOpenSearch(os, old(c.sink))
      invariant forall c :: c in OpenSearchCells(ps[..i]) ==> c.sink == MergedOpenSearch(os, old(c.sink))
    {
      assert forall c :: c in SinkCells(ps[i].sinks) ==> c in OpenSearchCells(ps);
      FillSinks(ps[i].sinks, os);
      assert ps[..i + 1] == ps[..i] + [ps[i]];
      CellsPlus(ps[..i], ps[i]);
    }
    assert ps[..|ps|] == ps;
  }

  method MergeFields(d: Defaults, s: PipelineSpec) returns (r: PipelineSpec)
    ensures r == MergedFields(d, s)
  {
    r := s;
    if r.image == "" && d.image != "" { r := r.(image := d.image); }
    if r.resources.None? && d.resources.Some? { r := r.(resources := d.resources); }
    if r.dataPrepperConfig.None? && d.dataPrepperConfig.Some? { r := r.(dataPrepperConfig := d.dataPrepperConfig); }
    if r.serviceMonitor.None? && d.serviceMonitor.Some? { r := r.(serviceMonitor := d.serviceMonitor); }
  }

  /** The filling passes on a list of pipelines. */
  method FillAll(ps: seq<PipelineRef>, d: Defaults, ghost was: seq<PipelineDefinition>)
    requires |was| == |ps| && forall i :: 0 <= i < |ps| ==> PipelineValue(ps[i]) == was[i]
    modifies KafkaCells(ps), OpenSearchCells(ps)
    ensures forall i :: 0 <= i < |ps| ==> PipelineValue(ps[i]) == MergedPipeline(d, was[i])
  {
    if d.kafka.Some? { FillKafka(ps, d.kafka.value); }
    if d.sink.Some? && d.sink.value.openSearch.Some? { FillOpenSearch(ps, d.sink.value.openSearch.value); }
    forall i | 0 <= i < |ps| ensures PipelineValue(ps[i]) == MergedPipeline(d, was[i]) {
      assert old(PipelineValue(ps[i])) == was[i];
      if ps[i].kafka.Some? { assert ps[i].kafka.value in KafkaCells(ps); }
      forall j | 0 <= j < |ps[i].sinks|
        ensures SinkValue(ps[i].sinks[j]) == MergedSink(d, old(SinkValue(ps[i].sinks[j])))
      {
        if ps[i].sinks[j].openSearch.Some? {
          assert ps[i].sinks[j].openSearch.value in SinkCells(ps[i].sinks);
          assert ps[i].sinks[j].openSearch.value in OpenSearchCells(ps);
        }
      }
    }
  }

  /** Copies, then fills the copy. */
  method CopyAndFill(defaults: Option<Defaults>, spec: PipelineSpec) returns (out: SpecRef)
    ensures Value(out) == Merged(defaults, spec)
    ensures fresh(KafkaCells(out.pipelines)) && fresh(OpenSearchCells(out.pipelines))
  {
    if defaults.None? {
      out := DeepCopy(spec);
      return;
    }
    var rest := MergeFields(defaults.value, spec);
    out := DeepCopy(spec);
    assert Value(out).pipelines == spec.pipelines;
    FillAll(out.pipelines, defaults.value, spec.pipelines);
    out := SpecRef(rest, out.pipelines);
    assert Value(out).pipelines == MergedPipelines(defaults.value, spec.pipelines);
  }

  /** The result is the merged spec in cells of its own. The filling passes write through pointers, and still no
      cell that existed before the call changes: they work on a deep copy. */
  method MergeSpec(defaults: Option<Defaults>, spec: SpecRef) returns (out: SpecRef)
    ensures Value(out) == Merged(defaults, old(Value(spec)))
    ensures defaults.None? ==> Value(out) == old(Value(spec))
    ensures defaults.Some? ==> Filled(defaults.value, old(Value(spec)), Value(out))
    ensures forall c :: c in KafkaCells(spec.pipelines) ==> c.source == old(c.source)
    ensures forall c :: c in OpenSearchCells(spec.pipelines) ==> c.sink == old(c.sink)
    ensures fresh(KafkaCells(out.pipelines)) && fresh(OpenSearchCells(out.pipelines))
  {
    if defaults.Some? { MergeFills(defaults.value, Value(spec)); }
    out := CopyAndFill(defaults, Value(spec));
  }

  /** Merging a spec as it comes from the API. */
  method MergeFetched(defaults: Option<Defaults>, spec: PipelineSpec) returns (merged: PipelineSpec)
    ensures merged == Merged(defaults, spec)
  {
    var fetched := DeepCopy(spec);
    var out := MergeSpec(defaults, fetched);
    merged := Value(out);
  }

  /******* Laws *******/

  /** `m` is `s` where `s` says something and `d` where it does not: only the servers and credentials of the Kafka
      source can differ. */
  ghost predicate SourceFilled(d: Defaults, s: Source, m: Source) {
    if s.kafka.None? || d.kafka.None? then m == s
    else
      && m.kafka.Some? && m == s.(kafka := m.kafka)
      && var k, q, dk := s.kafka.value, m.kafka.value, d.kafka.value;
      && q == k.(bootstrapServers := q.bootstrapServers, credentials := q.credentials)
      && (if k.bootstrapServers != [] then q.bootstrapServers == k.bootstrapServers
          else q.bootstrapServers == dk.bootstrapServers)
      && (if k.credentials.Some? then q.credentials == k.credentials else q.credentials == dk.credentials)
  }

  /** Only the hosts and credentials of the OpenSearch sink can differ. */
  ghost predicate SinkFilled(d: Defaults, s: Sink, m: Sink) {
    if s.openSearch.None? || d.sink.None? || d.sink.value.openSearch.None? then m == s
    else
      && m.openSearch.Some? && m == s.(openSearch := m.openSearch)
      && var o, q, os := s.openSearch.value, m.openSearch.value, d.sink.value.openSearch.value;
      && q == o.(hosts := q.hosts, credentials := q.credentials)
      && (if o.hosts != [] then q.hosts == o.hosts else q.hosts == os.hosts)
      && (if o.credentials.Some? then q.credentials == o.credentials else q.credentials == os.credentials)
  }

  ghost predicate PipelineFilled(d: Defaults, p: PipelineDefinition, m: PipelineDefinition) {
    && m == p.(source := m.source, sink := m.sink) && SourceFilled(d, p.source, m.source)
    && |m.sink| == |p.sink| && forall j :: 0 <= j < |p.sink| ==> SinkFilled(d, p.sink[j], m.sink[j])
  }

  /** Every field the spec sets is kept, an unset one is the default's, and what has no default is left alone. */
  ghost predicate Filled(d: Defaults, s: PipelineSpec, m: PipelineSpec) {
    && m == s.(image := m.image, resources := m.resources, dataPrepperConfig := m.dataPrepperConfig,
               serviceMonitor := m.serviceMonitor, pipelines := m.pipelines)
    && (if s.image != "" then m.image == s.image else m.image == d.image)
    && (if s.resources.Some? then m.resources == s.resources else m.resources == d.resources)
    && (if s.dataPrepperConfig.Some? then m.dataPrepperConfig == s.dataPrepperConfig
        else m.dataPrepperConfig == d.dataPrepperConfig)
    && (if s.serviceMonitor.Some? then m.serviceMonitor == s.serviceMonitor else m.serviceMonitor == d.serviceMonitor)
    && |m.pipelines| == |s.pipelines|
    && forall i :: 0 <= i < |s.pipelines| ==> PipelineFilled(d, s.pipelines[i], m.pipelines[i])
  }

  lemma MergeFills(d: Defaults, s: PipelineSpec)
    ensures Filled(d, s, Merged(Some(d), s)) && Merged(None, s) == s
  {
    forall i | 0 <= i < |s.pipelines| ensures PipelineFilled(d, s.pipelines[i], MergedPipeline(d, s.pipelines[i])) {
      var p := s.pipelines[i];
      assert forall j :: 0 <= j < |p.sink| ==> MergedSinks(d, p.sink)[j] == MergedSink(d, p.sink[j]);
    }
  }

  /** Merging twice is merging once. */
  lemma MergeIdempotent(d: Option<Defaults>, s: PipelineSpec)
    ensures Merged(d, Merged(d, s)) == Merged(d, s)
  {
    if d.Some? {
      var m := Merged(d, s);
      forall i | 0 <= i < |s.pipelines|
        ensures MergedPipeline(d.value, m.pipelines[i]) == m.pipelines[i]
      {
        assert MergedSinks(d.value, m.pipelines[i].sink) == m.pipelines[i].sink;
      }
      assert Merged(d, m).pipelines == m.pipelines;
    }
  }

  lemma {:induction false} MergedConnectors(d: Defaults, ss: seq<Sink>)
    ensures SinkConnectors(MergedSinks(d, ss)) == SinkConnectors(ss)
  {
    if ss == [] {
    } else {
      MergedConnectors(d, ss[1..]);
      assert MergedSinks(d, ss)[1..] == MergedSinks(d, ss[1..]);
    }
  }
}
