/** Specs on the heap: the members that the operator writes through pointers live in cells. */
module Cells {
  import opened Api

  class KafkaCell {
    var source: KafkaSource
    constructor (source: KafkaSource) ensures this.source == source { this.source := source; }
  }

  class OpenSearchCell {
    var sink: OpenSearchSink
    constructor (sink: OpenSearchSink) ensures this.sink == sink { this.sink := sink; }
  }

  datatype SinkRef = SinkRef(rest: Sink, openSearch: Option<OpenSearchCell>)

  datatype PipelineRef = PipelineRef(rest: PipelineDefinition, kafka: Option<KafkaCell>, sinks: seq<SinkRef>)

  /** A spec whose Kafka sources and OpenSearch sinks live in cells, perhaps shared with other specs. */
  datatype SpecRef = SpecRef(rest: PipelineSpec, pipelines: seq<PipelineRef>)

  ghost function SinkCells(ss: seq<SinkRef>): set<OpenSearchCell> {
    set j | 0 <= j < |ss| && ss[j].openSearch.Some? :: ss[j].openSearch.value
  }

  ghost function KafkaCells(ps: seq<PipelineRef>): set<KafkaCell> {
    set i | 0 <= i < |ps| && ps[i].kafka.Some? :: ps[i].kafka.value
  }

  ghost function OpenSearchCells(ps: seq<PipelineRef>): set<OpenSearchCell> {
    set i, c | 0 <= i < |ps| && c in SinkCells(ps[i].sinks) :: c
  }

  function SinkValue(s: SinkRef): Sink
    reads if s.openSearch.Some? then {s.openSearch.value} else {}
  {
    s.rest.(openSearch := if s.openSearch.Some? then Some(s.openSearch.value.sink) else None)
  }

  function SinkValues(ss: seq<SinkRef>): seq<Sink>
    reads SinkCells(ss)
  {
    seq(|ss|, j requires 0 <= j < |ss| reads SinkCells(ss) => SinkValue(ss[j]))
  }

  function PipelineValue(p: PipelineRef): PipelineDefinition
    reads if p.kafka.Some? then {p.kafka.value} else {}
    reads SinkCells(p.sinks)
  {
    p.rest.(source := p.rest.source.(kafka := if p.kafka.Some? then Some(p.kafka.value.source) else None),
            sink := SinkValues(p.sinks))
  }

  function PipelineValues(ps: seq<PipelineRef>): seq<PipelineDefinition>
    reads KafkaCells(ps), OpenSearchCells(ps)
  {
    seq(|ps|, i requires 0 <= i < |ps| reads KafkaCells(ps), OpenSearchCells(ps) => PipelineValue(ps[i]))
  }

  /** The spec that a reader of the heap sees. */
  function Value(s: SpecRef): PipelineSpec
    reads KafkaCells(s.pipelines), OpenSearchCells(s.pipelines)
  {
    s.rest.(pipelines := PipelineValues(s.pipelines))
  }

  /******* The deep copy *******/

  method CopySinks(ss: seq<Sink>) returns (rs: seq<SinkRef>)
    ensures SinkValues(rs) == ss && fresh(SinkCells(rs))
  {
    rs := [];
    for j := 0 to |ss|
      invariant |rs| == j && (forall c :: c in SinkCells(rs) ==> fresh(c))
      invariant forall k :: 0 <= k < j ==> SinkValue(rs[k]) == ss[k]
    {
      var cell: Option<OpenSearchCell> := None;
      if ss[j].openSearch.Some? {
        var c := new OpenSearchCell(ss[j].openSearch.value);
        cell := Some(c);
      }
      SinkCellsPlus(rs, SinkRef(ss[j], cell));
      rs := rs + [SinkRef(ss[j], cell)];
    }
  }

  lemma SinkCellsPlus(rs: seq<SinkRef>, r: SinkRef)
    ensures SinkCells(rs + [r]) == SinkCells(rs) + if r.openSearch.Some? then {r.openSearch.value} else {}
  {
    var qs := rs + [r];
    assert forall i :: 0 <= i < |rs| ==> qs[i] == rs[i];
    assert qs[|rs|] == r;
  }

  method CopyPipeline(p: PipelineDefinition) returns (r: PipelineRef)
    ensures PipelineValue(r) == p && fresh(SinkCells(r.sinks)) && (r.kafka.Some? ==> fresh(r.kafka.value))
  {
    var sinks := CopySinks(p.sink);
    var cell: Option<KafkaCell> := None;
    if p.source.kafka.Some? {
      var c := new KafkaCell(p.source.kafka.value);
      cell := Some(c);
    }
    r := PipelineRef(p, cell, sinks);
  }

  lemma CellsPlus(rs: seq<PipelineRef>, r: PipelineRef)
    ensures KafkaCells(rs + [r]) == KafkaCells(rs) + if r.kafka.Some? then {r.kafka.value} else {}
    ensures OpenSearchCells(rs + [r]) == OpenSearchCells(rs) + SinkCells(r.sinks)
  {
    var qs := rs + [r];
    assert forall i :: 0 <= i < |rs| ==> qs[i] == rs[i];
    assert qs[|rs|] == r;
  }

  /** Every cell of the copy is new. */
  method DeepCopy(spec: PipelineSpec) returns (s: SpecRef)
    ensures Value(s) == spec && fresh(KafkaCells(s.pipelines)) && fresh(OpenSearchCells(s.pipelines))
  {
    var ps: seq<PipelineRef> := [];
    for i := 0 to |spec.pipelines|
      invariant |ps| == i
      invariant (forall c :: c in KafkaCells(ps) ==> fresh(c)) && (forall c :: c in OpenSearchCells(ps) ==> fresh(c))
      invariant forall k :: 0 <= k < i ==> PipelineValue(ps[k]) == spec.pipelines[k]
    {
      var p := CopyPipeline(spec.pipelines[i]);
      CellsPlus(ps, p);
      ps := ps + [p];
    }
    s := SpecRef(spec, ps);
  }
}
