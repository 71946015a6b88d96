/** Compiling pipeline definitions to the pipelines configuration document. */
module Config {
  import opened Api
  import Graph

  /** A node of the generated document. */
  datatype Value =
    | Text(text: string)
    | Number(number: int)
    | Flag(flag: bool)
    | List(items: seq<Value>)
    | Table(fields: map<string, Value>)

  datatype GenerateError =
    | NoSource(pipeline: string)
    | BadProcessor(pipeline: string)
    | NoSinkType(pipeline: string)

  datatype Result<+T> = Ok(value: T) | Err(error: GenerateError)

  /** Decoding of a processor's JSON text, a parameter of the model. */
  type Decoder = Json -> Option<Value>

  const KAFKA_USERNAME := "KAFKA_USERNAME"
  const KAFKA_PASSWORD := "KAFKA_PASSWORD"
  const OPENSEARCH_USERNAME := "OPENSEARCH_USERNAME"
  const OPENSEARCH_PASSWORD := "OPENSEARCH_PASSWORD"

  /** The text that refers to an environment variable, whether the operator or the user writes it. */
  function Reference(env: string): string { "${" + env + "}" }

  /******* Sources *******/

  function Texts(ss: seq<string>): Value {
    List(seq(|ss|, i requires 0 <= i < |ss| => Text(ss[i])))
  }

  function TextMap(m: map<string, string>): Value {
    Table(map k | k in m :: Text(m[k]))
  }

  /** `field` under `key` when `present`, and nothing otherwise. */
  function When(present: bool, key: string, field: Value): map<string, Value> {
    if present then map[key := field] else map[]
  }

  /** Assigning `field` to `key` when `present`. */
  function Put(fields: map<string, Value>, present: bool, key: string, field: Value): (r: map<string, Value>)
    ensures r == fields + When(present, key, field)
  {
    if present then fields[key := field] else fields
  }

  function SaslPlain(): Value {
    Table(map["sasl" := Table(map["plain" := Table(map["username" := Text(Reference(KAFKA_USERNAME)),
                                                        "password" := Text(Reference(KAFKA_PASSWORD))])])])
  }

  function KafkaTopic(k: KafkaSource, topicWorkers: int32): Value {
    Table(map["name" := Text(k.topic), "group_id" := Text(k.groupId)]
          + When(topicWorkers > 0, "workers", Number(topicWorkers)))
  }

  function KafkaSourceFields(k: KafkaSource, topicWorkers: int32): map<string, Value> {
    map["bootstrap_servers" := Texts(k.bootstrapServers), "topics" := List([KafkaTopic(k, topicWorkers)])]
    + When(k.credentials.Some?, "authentication", SaslPlain())
    + (When(k.encryptionType != "", "encryption", Table(map["type" := Text(k.encryptionType)]))
       + When(k.consumerConfig != map[], "consumer_config", TextMap(k.consumerConfig)))
  }

  function HttpFields(h: HttpSource): map<string, Value> {
    map["port" := Number(h.port)] + When(h.path != "", "path", Text(h.path))
  }

  function OTelName(o: OTelSource): string {
    if o.protocols != [] && o.protocols[0] == "metrics" then "otel_metrics_source"
    else if o.protocols != [] && o.protocols[0] == "logs" then "otel_logs_source"
    else "otel_trace_source"
  }

  function CodecFields(c: Codec): map<string, Value> {
    if c.json then map["json" := Table(map[])]
    else if c.csv.Some? then
      map["csv" := Table(When(c.csv.value.delimiter != "", "delimiter", Text(c.csv.value.delimiter))
                         + When(c.csv.value.headerRow, "header", Flag(true)))]
    else if c.newline then map["newline" := Table(map[])]
    else if c.parquet then map["parquet" := Table(map[])]
    else if c.avroSchema.Some? then
      map["avro" := Table(When(c.avroSchema.value != "", "schema", Text(c.avroSchema.value)))]
    else map[]
  }

  function S3Head(s: S3Source): map<string, Value> {
    map["bucket" := Text(s.bucket), "region" := Text(s.region)]
    + When(s.prefix != "", "key_path_prefix", Text(s.prefix))
    + When(s.sqsQueueUrl != "", "notification_type", Text("sqs"))
    + When(s.sqsQueueUrl != "", "sqs", Table(map["queue_url" := Text(s.sqsQueueUrl)]))
  }

  function S3SourceFields(s: S3Source): map<string, Value> {
    S3Head(s)
    + (if s.codec.Some? then map["codec" := Table(CodecFields(s.codec.value))] else map[])
    + When(s.compression != "", "compression", Text(s.compression))
  }

  function Connector(name: string): Value {
    Table(map["pipeline" := Table(map["name" := Text(name)])])
  }

  /** The first member that is set decides. */
  function BuildSource(s: Source, topicWorkers: int32): Option<Value> {
    if s.kafka.Some? then Some(Table(map["kafka" := Table(KafkaSourceFields(s.kafka.value, topicWorkers))]))
    else if s.http.Some? then Some(Table(map["http" := Table(HttpFields(s.http.value))]))
    else if s.otel.Some? then
      Some(Table(map[OTelName(s.otel.value) := Table(map["port" := Number(s.otel.value.port)])]))
    else if s.s3.Some? then Some(Table(map["s3" := Table(S3SourceFields(s.s3.value))]))
    else if s.pipeline.Some? then Some(Connector(s.pipeline.value))
    else None
  }

  /******* Sinks *******/

  function OpenSearchHead(o: OpenSearchSink): map<string, Value> {
    map["hosts" := Texts(o.hosts)]
    + When(o.index != "", "index", Text(o.index))
    + When(o.indexType != "", "index_type", Text(o.indexType))
  }

  function OpenSearchFields(o: OpenSearchSink): map<string, Value> {
    OpenSearchHead(o)
    + (if o.credentials.Some?
       then map["username" := Text(Reference(OPENSEARCH_USERNAME)), "password" := Text(Reference(OPENSEARCH_PASSWORD))]
       else map[])
    + When(o.routes != [], "routes", Texts(o.routes))
  }

  function S3SinkHead(s: S3Sink): map<string, Value> {
    map["bucket" := Text(s.bucket), "region" := Text(s.region)]
    + When(s.keyPathPrefix != "", "key_path_prefix", Text(s.keyPathPrefix))
    + When(s.codec != "", "codec", Text(s.codec))
  }

  function S3SinkFields(s: S3Sink): map<string, Value> {
    S3SinkHead(s)
    + When(s.compression != "", "compression", Text(s.compression))
    + map["aws" := Table(map["region" := Text(s.region)])]
  }

  function KafkaSinkFields(k: KafkaSink): map<string, Value> {
    map["bootstrap_servers" := Texts(k.bootstrapServers), "topic" := Text(k.topic)]
    + When(k.serdeFormat != "", "serde_format", Text(k.serdeFormat))
    + When(k.credentials.Some?, "authentication", SaslPlain())
  }

  /** The first member that is set decides. */
  function BuildSink(s: Sink): Option<Value> {
    if s.openSearch.Some? then Some(Table(map["opensearch" := Table(OpenSearchFields(s.openSearch.value))]))
    else if s.pipeline.Some? then Some(Connector(s.pipeline.value))
    else if s.s3.Some? then Some(Table(map["s3" := Table(S3SinkFields(s.s3.value))]))
    else if s.kafka.Some? then Some(Table(map["kafka" := Table(KafkaSinkFields(s.kafka.value))]))
    else if s.stdout then Some(Table(map["stdout" := Table(map[])]))
    else None
  }

  /******* One entry of the document *******/

  ghost predicate SinksBuild(ss: seq<Sink>) {
    forall j :: 0 <= j < |ss| ==> BuildSink(ss[j]).Some?
  }

  ghost predicate ProcessorsDecode(ps: seq<Json>, decode: Decoder) {
    forall j :: 0 <= j < |ps| ==> decode(ps[j]).Some?
  }

  ghost function SinkValues(ss: seq<Sink>): seq<Value>
    requires SinksBuild(ss)
  {
    seq(|ss|, j requires 0 <= j < |ss| => BuildSink(ss[j]).value)
  }

  ghost function ProcessorValues(ps: seq<Json>, decode: Decoder): seq<Value>
    requires ProcessorsDecode(ps, decode)
  {
    seq(|ps|, j requires 0 <= j < |ps| => decode(ps[j]).value)
  }

  function BufferFields(b: Buffer): map<string, Value> {
    if b.boundedBlocking.None? then map[]
    else
      var bb := b.boundedBlocking.value;
      map["buffer" := Table(map["bounded_blocking" :=
        Table(When(bb.bufferSize > 0, "buffer_size", Number(bb.bufferSize))
              + When(bb.batchSize > 0, "batch_size", Number(bb.batchSize)))])]
  }

  /** Later routes win. */
  function MergedRoutes(rs: seq<map<string, string>>): map<string, string> {
    if rs == [] then map[] else MergedRoutes(rs[..|rs| - 1]) + rs[|rs| - 1]
  }

  function WorkerFields(p: PipelineDefinition, topicWorkers: int32): map<string, Value> {
    if p.workers > 0 then map["workers" := Number(p.workers)]
    else When(p.source.kafka.Some? && topicWorkers > 0, "workers", Number(topicWorkers))
  }

  /** Why no entry can be generated for `p`: the source is tried first, then the processors, then the sinks. */
  ghost function EntryError(p: PipelineDefinition, decode: Decoder): Option<GenerateError> {
    if BuildSource(p.source, 0).None? then Some(NoSource(p.name))
    else if !ProcessorsDecode(p.processors, decode) then Some(BadProcessor(p.name))
    else if !SinksBuild(p.sink) then Some(NoSinkType(p.name))
    else None
  }

  ghost function Entry(p: PipelineDefinition, topicWorkers: int32, decode: Decoder): Value
    requires EntryError(p, decode).None?
  {
    Table(Assemble(HeadFields(p, topicWorkers), BuildSource(p.source, topicWorkers).value,
                   MiddleFields(p, decode), List(SinkValues(p.sink))))
  }

  function HeadFields(p: PipelineDefinition, topicWorkers: int32): map<string, Value> {
    WorkerFields(p, topicWorkers) + When(p.delay > 0, "delay", Number(p.delay))
  }

  ghost function MiddleFields(p: PipelineDefinition, decode: Decoder): map<string, Value>
    requires ProcessorsDecode(p.processors, decode)
    ensures "source" !in MiddleFields(p, decode)
  {
    (if p.buffer.Some? then BufferFields(p.buffer.value) else map[])
    + When(p.processors != [], "processor", List(ProcessorValues(p.processors, decode)))
    + When(p.routes != [], "route", TextMap(MergedRoutes(p.routes)))
  }

  function Assemble(head: map<string, Value>, source: Value, middle: map<string, Value>,
                    sinks: Value): map<string, Value> {
    head + map["source" := source] + middle + map["sink" := sinks]
  }

  lemma AssembleFields(head: map<string, Value>, source: Value, middle: map<string, Value>, sinks: Value)
    requires "source" !in middle
    ensures var t := Assemble(head, source, middle, sinks);
            "source" in t && t["source"] == source && "sink" in t && t["sink"] == sinks
  {
  }

  /** The map left by assigning the pairs one after the other. */
  ghost function Assigned(pairs: seq<(string, Value)>): map<string, Value> {
    if pairs == [] then map[]
    else Assigned(pairs[..|pairs| - 1])[pairs[|pairs| - 1].0 := pairs[|pairs| - 1].1]
  }

  lemma AssignedStep(pairs: seq<(string, Value)>, pair: (string, Value))
    ensures Assigned(pairs + [pair]) == Assigned(pairs)[pair.0 := pair.1]
  {
    assert (pairs + [pair])[..|pairs|] == pairs;
  }

  lemma {:induction false} AssignedDistinct(pairs: seq<(string, Value)>, i: nat)
    requires i < |pairs| && forall j, k :: 0 <= j < k < |pairs| ==> pairs[j].0 != pairs[k].0
    ensures pairs[i].0 in Assigned(pairs) && Assigned(pairs)[pairs[i].0] == pairs[i].1
  {
    if i < |pairs| - 1 { AssignedDistinct(pairs[..|pairs| - 1], i); }
  }

  /** Every value in the map comes from one of the pairs. */
  lemma {:induction false} AssignedFrom(pairs: seq<(string, Value)>, k: string) returns (i: nat)
    requires k in Assigned(pairs)
    ensures i < |pairs| && pairs[i] == (k, Assigned(pairs)[k])
  {
    i := |pairs| - 1;
    if pairs[i].0 != k { i := AssignedFrom(pairs[..i], k); }
  }

  lemma {:induction false} AssignedKeys(pairs: seq<(string, Value)>)
    ensures Assigned(pairs).Keys == set i | 0 <= i < |pairs| :: pairs[i].0
  {
    if pairs == [] {
    } else {
      AssignedKeys(pairs[..|pairs| - 1]);
    }
  }

  ghost predicate GeneratesAs(p: PipelineDefinition, topicWorkers: int32, decode: Decoder, pair: (string, Value)) {
    EntryError(p, decode).None? && pair == (p.name, Entry(p, topicWorkers, decode))
  }

  ghost predicate AllGenerate(ps: seq<PipelineDefinition>, decode: Decoder) {
    forall i :: 0 <= i < |ps| ==> EntryError(ps[i], decode).None?
  }

  ghost function Entries(ps: seq<PipelineDefinition>, topicWorkers: int32, decode: Decoder): seq<(string, Value)>
    requires AllGenerate(ps, decode)
  {
    seq(|ps|, i requires 0 <= i < |ps| => (ps[i].name, Entry(ps[i], topicWorkers, decode)))
  }

  /******* Reading the graph back *******/

  /** The connector name in a source or sink node, if it is a connector. */
  function ConnectorOf(v: Value): Option<string> {
    if v.Table? && "pipeline" in v.fields && v.fields["pipeline"].Table? && "name" in v.fields["pipeline"].fields
       && v.fields["pipeline"].fields["name"].Text?
    then Some(v.fields["pipeline"].fields["name"].text)
    else None
  }

  function ReadSinks(items: seq<Value>): seq<string> {
    if items == [] then []
    else (if ConnectorOf(items[0]).Some? then [ConnectorOf(items[0]).value] else []) + ReadSinks(items[1..])
  }

  /** The graph node that an entry of the document describes. */
  function ReadEntry(name: string, v: Value): Graph.PipelineDef {
    var source := if v.Table? && "source" in v.fields then ConnectorOf(v.fields["source"]) else None;
    Graph.PipelineDef(name,
                      if source.Some? then source.value else "",
                      if v.Table? && "sink" in v.fields && v.fields["sink"].List?
                      then ReadSinks(v.fields["sink"].items) else [])
  }

  /** The graph node that a definition describes, as both the webhook and the reconciler build it. */
  function GraphDef(p: PipelineDefinition): Graph.PipelineDef {
    Graph.PipelineDef(p.name, if p.source.pipeline.Some? then p.source.pipeline.value else "", SinkConnectors(p.sink))
  }

  /** No other union member hides a connector from the generator. */
  ghost predicate ConnectorsVisible(p: PipelineDefinition) {
    && (p.source.pipeline.Some? ==>
          p.source.kafka.None? && p.source.http.None? && p.source.otel.None? && p.source.s3.None?)
    && forall j :: 0 <= j < |p.sink| && p.sink[j].pipeline.Some? ==> p.sink[j].openSearch.None?
  }

  lemma {:induction false} ReadSinksBack(ss: seq<Sink>)
    requires SinksBuild(ss)
    requires forall j :: 0 <= j < |ss| && ss[j].pipeline.Some? ==> ss[j].openSearch.None?
    ensures ReadSinks(SinkValues(ss)) == SinkConnectors(ss)
  {
    if ss == [] {
    } else {
      assert BuildSink(ss[0]).Some?;
      ReadSinksBack(ss[1..]);
      assert SinkValues(ss)[1..] == SinkValues(ss[1..]);
    }
  }

  lemma ReadSourceBack(s: Source, topicWorkers: int32)
    requires BuildSource(s, topicWorkers).Some?
    requires s.pipeline.Some? ==> s.kafka.None? && s.http.None? && s.otel.None? && s.s3.None?
    ensures ConnectorOf(BuildSource(s, topicWorkers).value) == s.pipeline
  {
  }

  /** Compiling and reading back is the identity on the graph. */
  lemma ReadEntryBack(p: PipelineDefinition, topicWorkers: int32, decode: Decoder)
    requires EntryError(p, decode).None? && ConnectorsVisible(p)
    ensures ReadEntry(p.name, Entry(p, topicWorkers, decode)) == GraphDef(p)
  {
    AssembleFields(HeadFields(p, topicWorkers), BuildSource(p.source, topicWorkers).value,
                   MiddleFields(p, decode), List(SinkValues(p.sink)));
    ReadSourceBack(p.source, topicWorkers);
    ReadSinksBack(p.sink);
  }
}
