/** The code that compiles pipeline definitions to the configuration document. */
module Generate {
  import opened Api
  import opened Config
  import opened ReadBack

  method BuildSinks(ss: seq<Sink>) returns (r: Option<seq<Value>>)
    ensures r.Some? <==> SinksBuild(ss)
    ensures r.Some? ==> r.value == SinkValues(ss)
  {
    var result: seq<Value> := [];
    for i := 0 to |ss|
      invariant |result| == i
      invariant forall j :: 0 <= j < i ==> BuildSink(ss[j]) == Some(result[j])
    {
      var v := BuildSink(ss[i]);
      if v.None? { return None; }
      result := result + [v.value];
    }
    r := Some(result);
  }

  method BuildProcessors(ps: seq<Json>, decode: Decoder) returns (r: Option<seq<Value>>)
    ensures r.Some? <==> ProcessorsDecode(ps, decode)
    ensures r.Some? ==> r.value == ProcessorValues(ps, decode)
  {
    var result: seq<Value> := [];
    for i := 0 to |ps|
      invariant |result| == i
      invariant forall j :: 0 <= j < i ==> decode(ps[j]) == Some(result[j])
    {
      var v := decode(ps[i]);
      if v.None? { return None; }
      result := result + [v.value];
    }
    r := Some(result);
  }

  method BuildRoutes(rs: seq<map<string, string>>) returns (merged: map<string, string>)
    ensures merged == MergedRoutes(rs)
  {
    merged := map[];
    for i := 0 to |rs|
      invariant merged == MergedRoutes(rs[..i])
    {
      merged := merged + rs[i];
      assert rs[..i + 1][..i] == rs[..i];
    }
    assert rs[..|rs|] == rs;
  }

  /** The optional fields between the source and the sinks: buffer, processors, routes. */
  method BuildMiddle(p: PipelineDefinition, decode: Decoder) returns (r: Option<map<string, Value>>)
    ensures r.Some? <==> ProcessorsDecode(p.processors, decode)
    ensures r.Some? ==> r.value == MiddleFields(p, decode)
  {
    var fields: map<string, Value> := map[];
    if p.buffer.Some? { fields := BufferFields(p.buffer.value); }
    var procs := BuildProcessors(p.processors, decode);
    if procs.None? { return None; }
    fields := Put(fields, p.processors != [], "processor", List(procs.value));
    var routes := BuildRoutes(p.routes);
    fields := Put(fields, p.routes != [], "route", TextMap(routes));
    r := Some(fields);
  }

  method BuildEntry(p: PipelineDefinition, topicWorkers: int32, decode: Decoder) returns (r: Result<Value>)
    ensures r.Err? ==> EntryError(p, decode) == Some(r.error)
    ensures r.Ok? ==> GeneratesAs(p, topicWorkers, decode, (p.name, r.value))
  {
    var source := BuildSource(p.source, topicWorkers);
    if source.None? { return Err(NoSource(p.name)); }
    var middle := BuildMiddle(p, decode);
    if middle.None? { return Err(BadProcessor(p.name)); }
    var sinks := BuildSinks(p.sink);
    if sinks.None? { return Err(NoSinkType(p.name)); }
    r := Ok(Table(Assemble(HeadFields(p, topicWorkers), source.value, middle.value, List(sinks.value))));
  }

  /** Generation succeeds exactly when every pipeline can be generated; otherwise it reports the first that cannot. With
      different names, the document shows every definition under its name. */
  method GeneratePipelineConfig(ps: seq<PipelineDefinition>, topicWorkers: int32, decode: Decoder)
    returns (r: Result<map<string, Value>>)
    ensures r.Ok? <==> AllGenerate(ps, decode)
    ensures r.Ok? ==> r.value == Assigned(Entries(ps, topicWorkers, decode))
    ensures r.Ok? && DistinctNames(ps) ==>
              forall i :: 0 <= i < |ps| ==>
                ps[i].name in r.value && Shows(r.value[ps[i].name], ps[i], topicWorkers, decode)
    ensures r.Err? ==>
            exists i :: 0 <= i < |ps| && EntryError(ps[i], decode) == Some(r.error) && AllGenerate(ps[..i], decode)
  {
    var config: map<string, Value> := map[];
    ghost var pairs: seq<(string, Value)> := [];
    for i := 0 to |ps|
      invariant config == Assigned(pairs) && |pairs| == i && Generated(ps, topicWorkers, decode, pairs)
    {
      var pc := BuildEntry(ps[i], topicWorkers, decode);
      if pc.Err? {
        StopsAt(ps, topicWorkers, decode, pairs, pc.error);
        return Err(pc.error);
      }
      config := config[ps[i].name := pc.value];
      AssignedStep(pairs, (ps[i].name, pc.value));
      GeneratedStep(ps, topicWorkers, decode, pairs, (ps[i].name, pc.value));
      pairs := pairs + [(ps[i].name, pc.value)];
    }
    GeneratedAll(ps, topicWorkers, decode, pairs);
    r := Ok(config);
    if DistinctNames(ps) {
      forall i | 0 <= i < |ps| ensures ps[i].name in config && Shows(config[ps[i].name], ps[i], topicWorkers, decode) {
        DocumentReadsBack(ps, topicWorkers, decode, i);
      }
    }
  }

  /** The pairs are the entries of the first definitions. */
  ghost predicate Generated(ps: seq<PipelineDefinition>, topicWorkers: int32, decode: Decoder,
                            pairs: seq<(string, Value)>) {
    |pairs| <= |ps| && forall j {:trigger GeneratesAs(ps[j], topicWorkers, decode, pairs[j])} :: 0 <= j < |pairs| ==>
      GeneratesAs(ps[j], topicWorkers, decode, pairs[j])
  }

  lemma GeneratedStep(ps: seq<PipelineDefinition>, topicWorkers: int32, decode: Decoder, pairs: seq<(string, Value)>,
                      pair: (string, Value))
    requires Generated(ps, topicWorkers, decode, pairs) && |pairs| < |ps|
    requires GeneratesAs(ps[|pairs|], topicWorkers, decode, pair)
    ensures Generated(ps, topicWorkers, decode, pairs + [pair])
  {
    forall j | 0 <= j < |pairs| + 1 ensures GeneratesAs(ps[j], topicWorkers, decode, (pairs + [pair])[j]) {
      if j < |pairs| { assert GeneratesAs(ps[j], topicWorkers, decode, pairs[j]); }
    }
  }

  lemma GeneratedAll(ps: seq<PipelineDefinition>, topicWorkers: int32, decode: Decoder, pairs: seq<(string, Value)>)
    requires Generated(ps, topicWorkers, decode, pairs)
    ensures AllGenerate(ps[..|pairs|], decode) && pairs == Entries(ps[..|pairs|], topicWorkers, decode)
    ensures |pairs| == |ps| ==> AllGenerate(ps, decode) && pairs == Entries(ps, topicWorkers, decode)
  {
    var done := ps[..|pairs|];
    forall j | 0 <= j < |done|
      ensures EntryError(done[j], decode).None? && pairs[j] == (done[j].name, Entry(done[j], topicWorkers, decode))
    {
      assert GeneratesAs(ps[j], topicWorkers, decode, pairs[j]);
    }
    assert |pairs| == |ps| ==> done == ps;
  }

  lemma StopsAt(ps: seq<PipelineDefinition>, topicWorkers: int32, decode: Decoder, pairs: seq<(string, Value)>,
                error: GenerateError)
    requires Generated(ps, topicWorkers, decode, pairs) && |pairs| < |ps|
    requires EntryError(ps[|pairs|], decode) == Some(error)
    ensures !AllGenerate(ps, decode)
    ensures exists i :: 0 <= i < |ps| && EntryError(ps[i], decode) == Some(error) && AllGenerate(ps[..i], decode)
  {
    GeneratedAll(ps, topicWorkers, decode, pairs);
  }
}
