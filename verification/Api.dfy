/** The resource types of the API group, as values. A nil pointer is `None`; a nil slice or map and an
    empty one are the same value, because the code modelled over these types does not tell them apart. */
module Api {

  datatype Option<+T> = None | Some(value: T)

  function OrElse<T>(v: Option<T>, other: Option<T>): Option<T> { if v.Some? then v else other }

  /** Durations are in nanoseconds. */
  const SECOND := 1_000_000_000

  type int32 = x: int | -0x8000_0000 <= x < 0x8000_0000

  /** A subtree the operator copies and never looks into, as its JSON text. */
  datatype Json = Json(raw: string)

  datatype SecretReference = SecretReference(name: string, key: string)

  /******* Sources *******/

  datatype KafkaSource = KafkaSource(
    bootstrapServers: seq<string>,
    topic: string,
    groupId: string,
    credentials: Option<SecretReference>,
    consumerConfig: map<string, string>,
    encryptionType: string)

  datatype HttpSource = HttpSource(port: int, path: string)

  datatype OTelSource = OTelSource(port: int, protocols: seq<string>)

  datatype CsvCodec = CsvCodec(delimiter: string, headerRow: bool)

  /** At most one member is meant to be set. */
  datatype Codec = Codec(json: bool, csv: Option<CsvCodec>, newline: bool, parquet: bool, avroSchema: Option<string>)

  datatype S3Source = S3Source(
    bucket: string,
    prefix: string,
    region: string,
    sqsQueueUrl: string,
    credentials: Option<SecretReference>,
    codec: Option<Codec>,
    compression: string)

  /** Exactly one member is meant to be set; `pipeline` names the upstream pipeline. */
  datatype Source = Source(
    kafka: Option<KafkaSource>,
    http: Option<HttpSource>,
    otel: Option<OTelSource>,
    s3: Option<S3Source>,
    pipeline: Option<string>)

  /******* Sinks *******/

  datatype OpenSearchSink = OpenSearchSink(
    hosts: seq<string>,
    index: string,
    indexType: string,
    credentials: Option<SecretReference>,
    dlqSecret: Option<SecretReference>,
    routes: seq<string>)

  datatype S3Sink = S3Sink(
    bucket: string,
    region: string,
    keyPathPrefix: string,
    codec: string,
    compression: string,
    credentials: Option<SecretReference>)

  datatype KafkaSink = KafkaSink(
    bootstrapServers: seq<string>,
    topic: string,
    serdeFormat: string,
    credentials: Option<SecretReference>)

  /** Exactly one member is meant to be set; `pipeline` names the downstream pipeline. */
  datatype Sink = Sink(
    openSearch: Option<OpenSearchSink>,
    pipeline: Option<string>,
    s3: Option<S3Sink>,
    kafka: Option<KafkaSink>,
    stdout: bool)

  /******* Pipelines *******/

  datatype BoundedBlocking = BoundedBlocking(bufferSize: int, batchSize: int)

  datatype Buffer = Buffer(boundedBlocking: Option<BoundedBlocking>)

  datatype PipelineDefinition = PipelineDefinition(
    name: string,
    workers: int,
    delay: int,
    source: Source,
    buffer: Option<Buffer>,
    processors: seq<Json>,
    routes: seq<map<string, string>>,
    sink: seq<Sink>)

  const MODE_MANUAL := "manual"
  const MODE_AUTO := "auto"

  datatype Scaling = Scaling(
    mode: string,
    maxReplicas: Option<int32>,
    minReplicas: Option<int32>,
    fixedReplicas: Option<int32>)

  datatype ServiceMonitor = ServiceMonitor(enabled: bool, interval: string)

  datatype PipelineSpec = PipelineSpec(
    image: string,
    imagePullPolicy: string,
    pipelines: seq<PipelineDefinition>,
    scaling: Option<Scaling>,
    resources: Option<Json>,
    dataPrepperConfig: Option<Json>,
    serviceMonitor: Option<ServiceMonitor>,
    podAnnotations: map<string, string>,
    podLabels: map<string, string>,
    nodeSelector: map<string, string>,
    /** Tolerations, affinity, the two security contexts and the service account: copied through. */
    podExtras: Json)

  /******* Namespace defaults *******/

  datatype DefaultKafka = DefaultKafka(bootstrapServers: seq<string>, credentials: Option<SecretReference>)

  datatype DefaultSink = DefaultSink(openSearch: Option<OpenSearchSink>)

  datatype Defaults = Defaults(
    image: string,
    sink: Option<DefaultSink>,
    kafka: Option<DefaultKafka>,
    resources: Option<Json>,
    dataPrepperConfig: Option<Json>,
    serviceMonitor: Option<ServiceMonitor>)

  /******* The connector graph of a list of pipelines *******/

  function SinkConnectors(sinks: seq<Sink>): seq<string> {
    if sinks == [] then []
    else (if sinks[0].pipeline.Some? then [sinks[0].pipeline.value] else []) + SinkConnectors(sinks[1..])
  }

  lemma {:induction false} SinkConnectorsAppend(sinks: seq<Sink>, s: Sink)
    ensures SinkConnectors(sinks + [s]) == SinkConnectors(sinks) + (if s.pipeline.Some? then [s.pipeline.value] else [])
  {
    if sinks == [] {
    } else {
      SinkConnectorsAppend(sinks[1..], s);
      assert (sinks + [s])[1..] == sinks[1..] + [s];
    }
  }
}
