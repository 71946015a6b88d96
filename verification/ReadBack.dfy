/** Reading the generated document back: every field of a definition is under its own key. */
module ReadBack {
  import opened Api
  import opened Config

  /******* Reading by key *******/

  function Field(v: Option<Value>, key: string): Option<Value> {
    if v.Some? && v.value.Table? then At(v.value.fields, key) else None
  }

  function At(fields: map<string, Value>, key: string): Option<Value> {
    if key in fields then Some(fields[key]) else None
  }

  lemma AtPlus(a: map<string, Value>, b: map<string, Value>, key: string)
    ensures At(a + b, key) == if At(b, key).Some? then At(b, key) else At(a, key)
  {
  }

  /** A missing text reads as empty, a missing number as zero. */
  function TextOf(v: Option<Value>): string { if v.Some? && v.value.Text? then v.value.text else "" }

  function NumberOf(v: Option<Value>): int { if v.Some? && v.value.Number? then v.value.number else 0 }

  function ItemsOf(v: Option<Value>): seq<Value> { if v.Some? && v.value.List? then v.value.items else [] }

  function TextsOf(v: Option<Value>): seq<string> {
    var items := ItemsOf(v);
    seq(|items|, i requires 0 <= i < |items| => TextOf(Some(items[i])))
  }

  function TextMapOf(v: Option<Value>): map<string, string> {
    if v.Some? && v.value.Table? then map k | k in v.value.fields :: TextOf(Some(v.value.fields[k])) else map[]
  }

  /** What a connector logs in with. */
  datatype Login = Login(user: string, password: string)

  const KAFKA_LOGIN := Login("${KAFKA_USERNAME}", "${KAFKA_PASSWORD}")
  const OPENSEARCH_LOGIN := Login("${OPENSEARCH_USERNAME}", "${OPENSEARCH_PASSWORD}")

  function LoginOf(v: Option<Value>): Option<Login> {
    var user, password := Field(v, "username"), Field(v, "password");
    if user.Some? && password.Some? then Some(Login(TextOf(user), TextOf(password))) else None
  }

  function SaslLogin(v: Option<Value>): Option<Login> {
    LoginOf(Field(Field(Field(v, "authentication"), "sasl"), "plain"))
  }

  /******* Sources *******/

  function TopicOf(v: Option<Value>): Option<Value> {
    var topics := ItemsOf(Field(v, "topics"));
    if |topics| == 1 then Some(topics[0]) else None
  }

  function KafkaOf(v: Option<Value>): KafkaSource {
    KafkaSource(TextsOf(Field(v, "bootstrap_servers")), TextOf(Field(TopicOf(v), "name")),
                TextOf(Field(TopicOf(v), "group_id")), None, TextMapOf(Field(v, "consumer_config")),
                TextOf(Field(Field(v, "encryption"), "type")))
  }

  function HttpOf(v: Option<Value>): HttpSource { HttpSource(NumberOf(Field(v, "port")), TextOf(Field(v, "path"))) }

  function CodecOf(v: Option<Value>): Codec {
    var csv, avro := Field(v, "csv"), Field(v, "avro");
    Codec(Field(v, "json").Some?,
          if csv.Some? then Some(CsvCodec(TextOf(Field(csv, "delimiter")), Field(csv, "header") == Some(Flag(true))))
          else None,
          Field(v, "newline").Some?, Field(v, "parquet").Some?,
          if avro.Some? then Some(TextOf(Field(avro, "schema"))) else None)
  }

  /** A queue counts only when notifications are switched on. */
  function S3Of(v: Option<Value>): S3Source {
    S3Source(TextOf(Field(v, "bucket")), TextOf(Field(v, "key_path_prefix")), TextOf(Field(v, "region")),
             if TextOf(Field(v, "notification_type")) == "sqs" then TextOf(Field(Field(v, "sqs"), "queue_url")) else "",
             None, if Field(v, "codec").Some? then Some(CodecOf(Field(v, "codec"))) else None,
             TextOf(Field(v, "compression")))
  }

  function OTelOf(v: Option<Value>): Option<OTelSource> {
    var traces := Field(v, "otel_trace_source");
    var metrics, logs := Field(v, "otel_metrics_source"), Field(v, "otel_logs_source");
    if metrics.Some? then Some(OTelSource(NumberOf(Field(metrics, "port")), ["metrics"]))
    else if logs.Some? then Some(OTelSource(NumberOf(Field(logs, "port")), ["logs"]))
    else if traces.Some? then Some(OTelSource(NumberOf(Field(traces, "port")), ["traces"]))
    else None
  }

  function SourceOf(v: Option<Value>): Source {
    Source(if Field(v, "kafka").Some? then Some(KafkaOf(Field(v, "kafka"))) else None,
           if Field(v, "http").Some? then Some(HttpOf(Field(v, "http"))) else None,
           OTelOf(v),
           if Field(v, "s3").Some? then Some(S3Of(Field(v, "s3"))) else None,
           if v.Some? then ConnectorOf(v.value) else None)
  }

  /** The threads per pod that a Kafka source asks for. */
  function ThreadsOf(v: Option<Value>): int { NumberOf(Field(TopicOf(Field(v, "kafka")), "workers")) }

  /******* What a definition shows: the member that counts, without its secret *******/

  function ShownCodec(c: Codec): Codec {
    if c.json then Codec(true, None, false, false, None)
    else if c.csv.Some? then Codec(false, c.csv, false, false, None)
    else if c.newline then Codec(false, None, true, false, None)
    else if c.parquet then Codec(false, None, false, true, None)
    else Codec(false, None, false, false, c.avroSchema)
  }

  function ShownS3(s: S3Source): S3Source {
    s.(credentials := None, codec := if s.codec.Some? then Some(ShownCodec(s.codec.value)) else None)
  }

  function ShownOTel(o: OTelSource): OTelSource {
    o.(protocols := if o.protocols != [] && o.protocols[0] in {"metrics", "logs"} then [o.protocols[0]] else ["traces"])
  }

  function ShownSource(s: Source): Source {
    if s.kafka.Some? then Source(Some(s.kafka.value.(credentials := None)), None, None, None, None)
    else if s.http.Some? then Source(None, s.http, None, None, None)
    else if s.otel.Some? then Source(None, None, Some(ShownOTel(s.otel.value)), None, None)
    else if s.s3.Some? then Source(None, None, None, Some(ShownS3(s.s3.value)), None)
    else Source(None, None, None, None, s.pipeline)
  }

  /******* Sources read back *******/

  lemma TextsReadBack(ss: seq<string>)
    ensures TextsOf(Some(Texts(ss))) == ss
  {
  }

  lemma TextMapReadBack(m: map<string, string>)
    ensures TextMapOf(Some(TextMap(m))) == m
  {
  }

  lemma LoginReadsBack()
    ensures LoginOf(Field(Field(Some(SaslPlain()), "sasl"), "plain")) ==
            Some(KAFKA_LOGIN)
  {
    assert "${" + "KAFKA_USERNAME" + "}" == "${KAFKA_USERNAME}";
    assert "${" + "KAFKA_PASSWORD" + "}" == "${KAFKA_PASSWORD}";
    assert "username"[0] != "password"[0];
  }

  /** The optional fields of a Kafka source, whatever key is asked for. */
  lemma KafkaField(k: KafkaSource, topicWorkers: int32, key: string)
    ensures At(KafkaSourceFields(k, topicWorkers), key) ==
            if key == "consumer_config" && k.consumerConfig != map[] then Some(TextMap(k.consumerConfig))
            else if key == "encryption" && k.encryptionType != ""
            then Some(Table(map["type" := Text(k.encryptionType)]))
            else if key == "authentication" && k.credentials.Some? then Some(SaslPlain())
            else if key == "topics" then Some(List([KafkaTopic(k, topicWorkers)]))
            else if key == "bootstrap_servers" then Some(Texts(k.bootstrapServers))
            else None
  {
    var a := map["bootstrap_servers" := Texts(k.bootstrapServers), "topics" := List([KafkaTopic(k, topicWorkers)])];
    var b := When(k.credentials.Some?, "authentication", SaslPlain());
    var c := When(k.encryptionType != "", "encryption", Table(map["type" := Text(k.encryptionType)]));
    var d := When(k.consumerConfig != map[], "consumer_config", TextMap(k.consumerConfig));
    AtPlus(a + b, c + d, key);
    AtPlus(a, b, key);
    AtPlus(c, d, key);
  }

  lemma TopicReadsBack(k: KafkaSource, topicWorkers: int32)
    ensures var t := Some(KafkaTopic(k, topicWorkers));
            && TextOf(Field(t, "name")) == k.topic && TextOf(Field(t, "group_id")) == k.groupId
            && NumberOf(Field(t, "workers")) == if topicWorkers > 0 then topicWorkers else 0
  {
  }

  lemma KafkaReadsBack(k: KafkaSource, topicWorkers: int32)
    ensures var v := Some(Table(KafkaSourceFields(k, topicWorkers)));
            && KafkaOf(v) == k.(credentials := None)
            && TopicOf(v) == Some(KafkaTopic(k, topicWorkers))
            && SaslLogin(v) == if k.credentials.Some? then Some(KAFKA_LOGIN) else None
  {
    KafkaField(k, topicWorkers, "bootstrap_servers");
    KafkaField(k, topicWorkers, "topics");
    KafkaField(k, topicWorkers, "consumer_config");
    KafkaField(k, topicWorkers, "encryption");
    KafkaField(k, topicWorkers, "authentication");
    TextsReadBack(k.bootstrapServers);
    TextMapReadBack(k.consumerConfig);
    TopicReadsBack(k, topicWorkers);
    LoginReadsBack();
  }

  lemma HttpReadsBack(h: HttpSource)
    ensures HttpOf(Some(Table(HttpFields(h)))) == h
  {
  }

  lemma CodecReadsBack(c: Codec)
    ensures CodecOf(Some(Table(CodecFields(c)))) == ShownCodec(c)
  {
  }

  lemma S3Field(s: S3Source, key: string)
    ensures At(S3SourceFields(s), key) ==
            if key == "compression" && s.compression != "" then Some(Text(s.compression))
            else if key == "codec" && s.codec.Some? then Some(Table(CodecFields(s.codec.value)))
            else if key == "sqs" && s.sqsQueueUrl != "" then Some(Table(map["queue_url" := Text(s.sqsQueueUrl)]))
            else if key == "notification_type" && s.sqsQueueUrl != "" then Some(Text("sqs"))
            else if key == "key_path_prefix" && s.prefix != "" then Some(Text(s.prefix))
            else if key == "region" then Some(Text(s.region))
            else if key == "bucket" then Some(Text(s.bucket))
            else None
  {
    var a := map["bucket" := Text(s.bucket), "region" := Text(s.region)];
    var b := When(s.prefix != "", "key_path_prefix", Text(s.prefix));
    var c := When(s.sqsQueueUrl != "", "notification_type", Text("sqs"));
    var d := When(s.sqsQueueUrl != "", "sqs", Table(map["queue_url" := Text(s.sqsQueueUrl)]));
    var e := if s.codec.Some? then map["codec" := Table(CodecFields(s.codec.value))] else map[];
    var f := When(s.compression != "", "compression", Text(s.compression));
    AtPlus(a + b + c + d + e, f, key);
    AtPlus(a + b + c + d, e, key);
    AtPlus(a + b + c, d, key);
    AtPlus(a + b, c, key);
    AtPlus(a, b, key);
  }

  lemma S3Texts(s: S3Source)
    ensures var v := Some(Table(S3SourceFields(s)));
            && TextOf(Field(v, "bucket")) == s.bucket && TextOf(Field(v, "region")) == s.region
            && TextOf(Field(v, "key_path_prefix")) == s.prefix && TextOf(Field(v, "compression")) == s.compression
  {
    S3Field(s, "bucket");
    S3Field(s, "region");
    S3Field(s, "key_path_prefix");
    S3Field(s, "compression");
  }

  lemma S3Queue(s: S3Source)
    ensures var v := Some(Table(S3SourceFields(s)));
            && TextOf(Field(v, "notification_type")) == (if s.sqsQueueUrl != "" then "sqs" else "")
            && TextOf(Field(Field(v, "sqs"), "queue_url")) == s.sqsQueueUrl
            && Field(v, "codec") == if s.codec.Some? then Some(Table(CodecFields(s.codec.value))) else None
  {
    S3Field(s, "notification_type");
    S3Field(s, "sqs");
    S3Field(s, "codec");
  }

  lemma S3ReadsBack(s: S3Source)
    ensures S3Of(Some(Table(S3SourceFields(s)))) == ShownS3(s)
  {
    S3Texts(s);
    S3Queue(s);
    if s.codec.Some? { CodecReadsBack(s.codec.value); }
  }

  /** What a source with one member, under `key`, shows of the others. */
  lemma OnlyMember(key: string, v: Value)
    ensures var t := Some(Table(map[key := v]));
            && Field(t, "kafka") == (if key == "kafka" then Some(v) else None)
            && Field(t, "http") == (if key == "http" then Some(v) else None)
            && Field(t, "s3") == (if key == "s3" then Some(v) else None)
            && Field(t, "otel_metrics_source") == (if key == "otel_metrics_source" then Some(v) else None)
            && Field(t, "otel_logs_source") == (if key == "otel_logs_source" then Some(v) else None)
            && Field(t, "otel_trace_source") == (if key == "otel_trace_source" then Some(v) else None)
            && (key != "pipeline" ==> ConnectorOf(t.value) == None)
  {
  }

  lemma OTelReadsBack(o: OTelSource)
    ensures var v := Some(Table(map[OTelName(o) := Table(map["port" := Number(o.port)])]));
            SourceOf(v) == Source(None, None, Some(ShownOTel(o)), None, None) && Field(v, "kafka") == None
  {
    OnlyMember(OTelName(o), Table(map["port" := Number(o.port)]));
  }

  lemma ConnectorReadsBack(name: string)
    ensures var v := Some(Connector(name));
            SourceOf(v) == Source(None, None, None, None, Some(name)) && Field(v, "kafka") == None
  {
    OnlyMember("pipeline", Table(map["name" := Text(name)]));
  }

  /** A generated source shows the definition's source, field by field, and logs in with the user name as the user name
      and the password as the password, exactly when it has a secret. */
  lemma SourceReadsBack(s: Source, topicWorkers: int32)
    requires BuildSource(s, topicWorkers).Some?
    ensures var v := BuildSource(s, topicWorkers);
            && SourceOf(v) == ShownSource(s)
            && ThreadsOf(v) == (if s.kafka.Some? && topicWorkers > 0 then topicWorkers else 0)
            && SaslLogin(Field(v, "kafka")) == (if s.kafka.Some? && s.kafka.value.credentials.Some?
                                                then Some(KAFKA_LOGIN) else None)
  {
    if s.kafka.Some? {
      OnlyMember("kafka", Table(KafkaSourceFields(s.kafka.value, topicWorkers)));
      KafkaReadsBack(s.kafka.value, topicWorkers);
      TopicReadsBack(s.kafka.value, topicWorkers);
    } else if s.http.Some? {
      OnlyMember("http", Table(HttpFields(s.http.value)));
      HttpReadsBack(s.http.value);
    } else if s.otel.Some? {
      OTelReadsBack(s.otel.value);
    } else if s.s3.Some? {
      OnlyMember("s3", Table(S3SourceFields(s.s3.value)));
      S3ReadsBack(s.s3.value);
    } else {
      ConnectorReadsBack(s.pipeline.value);
    }
  }

  /******* Sinks *******/

  function OpenSearchOf(v: Option<Value>): OpenSearchSink {
    OpenSearchSink(TextsOf(Field(v, "hosts")), TextOf(Field(v, "index")), TextOf(Field(v, "index_type")), None, None,
                   TextsOf(Field(v, "routes")))
  }

  /** The region that counts is the one of the AWS client. */
  function S3SinkOf(v: Option<Value>): S3Sink {
    S3Sink(TextOf(Field(v, "bucket")), TextOf(Field(Field(v, "aws"), "region")), TextOf(Field(v, "key_path_prefix")),
           TextOf(Field(v, "codec")), TextOf(Field(v, "compression")), None)
  }

  function KafkaSinkOf(v: Option<Value>): KafkaSink {
    KafkaSink(TextsOf(Field(v, "bootstrap_servers")), TextOf(Field(v, "topic")), TextOf(Field(v, "serde_format")), None)
  }

  function SinkOf(v: Value): Sink {
    var t := Some(v);
    Sink(if Field(t, "opensearch").Some? then Some(OpenSearchOf(Field(t, "opensearch"))) else None,
         ConnectorOf(v),
         if Field(t, "s3").Some? then Some(S3SinkOf(Field(t, "s3"))) else None,
         if Field(t, "kafka").Some? then Some(KafkaSinkOf(Field(t, "kafka"))) else None,
         Field(t, "stdout").Some?)
  }

  /** What a sink logs in with. */
  function SinkLogin(v: Value): Option<Login> {
    if Field(Some(v), "opensearch").Some? then LoginOf(Field(Some(v), "opensearch"))
    else SaslLogin(Field(Some(v), "kafka"))
  }

  function ShownSink(s: Sink): Sink {
    if s.openSearch.Some? then
      Sink(Some(s.openSearch.value.(credentials := None, dlqSecret := None)), None, None, None, false)
    else if s.pipeline.Some? then Sink(None, s.pipeline, None, None, false)
    else if s.s3.Some? then Sink(None, None, Some(s.s3.value.(credentials := None)), None, false)
    else if s.kafka.Some? then Sink(None, None, None, Some(s.kafka.value.(credentials := None)), false)
    else Sink(None, None, None, None, s.stdout)
  }

  function ShownSinks(ss: seq<Sink>): seq<Sink> { seq(|ss|, j requires 0 <= j < |ss| => ShownSink(ss[j])) }

  /** OpenSearch and Kafka log in when they have a secret; S3 credentials come from the environment. */
  function ShownLogin(s: Sink): Option<Login> {
    if s.openSearch.Some? then
      if s.openSearch.value.credentials.Some? then Some(OPENSEARCH_LOGIN) else None
    else if s.pipeline.None? && s.s3.None? && s.kafka.Some? && s.kafka.value.credentials.Some? then
      Some(KAFKA_LOGIN)
    else None
  }

  lemma OpenSearchField(o: OpenSearchSink, key: string)
    ensures At(OpenSearchFields(o), key) ==
            if key == "routes" && o.routes != [] then Some(Texts(o.routes))
            else if key == "password" && o.credentials.Some? then Some(Text(Reference(OPENSEARCH_PASSWORD)))
            else if key == "username" && o.credentials.Some? then Some(Text(Reference(OPENSEARCH_USERNAME)))
            else if key == "index_type" && o.indexType != "" then Some(Text(o.indexType))
            else if key == "index" && o.index != "" then Some(Text(o.index))
            else if key == "hosts" then Some(Texts(o.hosts))
            else None
  {
    var a := map["hosts" := Texts(o.hosts)];
    var b := When(o.index != "", "index", Text(o.index));
    var c := When(o.indexType != "", "index_type", Text(o.indexType));
    var d := if o.credentials.Some?
             then map["username" := Text(Reference(OPENSEARCH_USERNAME)),
                      "password" := Text(Reference(OPENSEARCH_PASSWORD))]
             else map[];
    var e := When(o.routes != [], "routes", Texts(o.routes));
    AtPlus(a + b + c + d, e, key);
    AtPlus(a + b + c, d, key);
    AtPlus(a + b, c, key);
    AtPlus(a, b, key);
  }

  lemma OpenSearchLogin(o: OpenSearchSink)
    ensures LoginOf(Some(Table(OpenSearchFields(o)))) ==
            if o.credentials.Some? then Some(OPENSEARCH_LOGIN) else None
  {
    OpenSearchUserField(o);
    OpenSearchReferences();
  }

  lemma OpenSearchUserField(o: OpenSearchSink)
    ensures At(OpenSearchFields(o), "username") ==
            if o.credentials.Some? then Some(Text(Reference(OPENSEARCH_USERNAME))) else None
    ensures At(OpenSearchFields(o), "password") ==
            if o.credentials.Some? then Some(Text(Reference(OPENSEARCH_PASSWORD))) else None
  {
    assert "username"[0] != "password"[0];
    OpenSearchField(o, "username");
    OpenSearchField(o, "password");
  }

  lemma OpenSearchReferences()
    ensures OPENSEARCH_LOGIN == Login(Reference(OPENSEARCH_USERNAME), Reference(OPENSEARCH_PASSWORD))
  {
    assert "${" + "OPENSEARCH_USERNAME" + "}" == "${OPENSEARCH_USERNAME}";
    assert "${" + "OPENSEARCH_PASSWORD" + "}" == "${OPENSEARCH_PASSWORD}";
  }

  lemma OpenSearchReadsBack(o: OpenSearchSink)
    ensures OpenSearchOf(Some(Table(OpenSearchFields(o)))) == o.(credentials := None, dlqSecret := None)
  {
    OpenSearchField(o, "hosts");
    OpenSearchField(o, "index");
    OpenSearchField(o, "index_type");
    OpenSearchField(o, "routes");
    TextsReadBack(o.hosts);
    TextsReadBack(o.routes);
  }

  lemma S3SinkField(s: S3Sink, key: string)
    ensures At(S3SinkFields(s), key) ==
            if key == "aws" then Some(Table(map["region" := Text(s.region)]))
            else if key == "compression" && s.compression != "" then Some(Text(s.compression))
            else if key == "codec" && s.codec != "" then Some(Text(s.codec))
            else if key == "key_path_prefix" && s.keyPathPrefix != "" then Some(Text(s.keyPathPrefix))
            else if key == "region" then Some(Text(s.region))
            else if key == "bucket" then Some(Text(s.bucket))
            else None
  {
    var a := map["bucket" := Text(s.bucket), "region" := Text(s.region)];
    var b := When(s.keyPathPrefix != "", "key_path_prefix", Text(s.keyPathPrefix));
    var c := When(s.codec != "", "codec", Text(s.codec));
    var d := When(s.compression != "", "compression", Text(s.compression));
    var e := map["aws" := Table(map["region" := Text(s.region)])];
    AtPlus(a + b + c + d, e, key);
    AtPlus(a + b + c, d, key);
    AtPlus(a + b, c, key);
    AtPlus(a, b, key);
  }

  lemma S3SinkReadsBack(s: S3Sink)
    ensures var v := Some(Table(S3SinkFields(s)));
            S3SinkOf(v) == s.(credentials := None) && TextOf(Field(v, "region")) == s.region
  {
    S3SinkField(s, "bucket");
    S3SinkField(s, "aws");
    S3SinkField(s, "key_path_prefix");
    S3SinkField(s, "codec");
    S3SinkField(s, "compression");
    S3SinkField(s, "region");
  }

  lemma KafkaSinkField(k: KafkaSink, key: string)
    ensures At(KafkaSinkFields(k), key) ==
            if key == "authentication" && k.credentials.Some? then Some(SaslPlain())
            else if key == "serde_format" && k.serdeFormat != "" then Some(Text(k.serdeFormat))
            else if key == "topic" then Some(Text(k.topic))
            else if key == "bootstrap_servers" then Some(Texts(k.bootstrapServers))
            else None
  {
    var a := map["bootstrap_servers" := Texts(k.bootstrapServers), "topic" := Text(k.topic)];
    var b := When(k.serdeFormat != "", "serde_format", Text(k.serdeFormat));
    var c := When(k.credentials.Some?, "authentication", SaslPlain());
    AtPlus(a + b, c, key);
    AtPlus(a, b, key);
  }

  lemma KafkaSinkReadsBack(k: KafkaSink)
    ensures var v := Some(Table(KafkaSinkFields(k)));
            && KafkaSinkOf(v) == k.(credentials := None)
            && SaslLogin(v) == if k.credentials.Some? then Some(KAFKA_LOGIN) else None
  {
    KafkaSinkField(k, "bootstrap_servers");
    KafkaSinkField(k, "topic");
    KafkaSinkField(k, "serde_format");
    KafkaSinkField(k, "authentication");
    TextsReadBack(k.bootstrapServers);
    LoginReadsBack();
  }

  lemma OnlySink(key: string, v: Value)
    ensures var t := Some(Table(map[key := v]));
            && Field(t, "opensearch") == (if key == "opensearch" then Some(v) else None)
            && Field(t, "s3") == (if key == "s3" then Some(v) else None)
            && Field(t, "kafka") == (if key == "kafka" then Some(v) else None)
            && Field(t, "stdout") == (if key == "stdout" then Some(v) else None)
            && (key != "pipeline" ==> ConnectorOf(t.value) == None)
  {
  }

  /** A generated sink shows the definition's sink, field by field, with its login. */
  lemma SinkReadsBack(s: Sink)
    requires BuildSink(s).Some?
    ensures SinkOf(BuildSink(s).value) == ShownSink(s) && SinkLogin(BuildSink(s).value) == ShownLogin(s)
  {
    if s.openSearch.Some? {
      OnlySink("opensearch", Table(OpenSearchFields(s.openSearch.value)));
      OpenSearchReadsBack(s.openSearch.value);
      OpenSearchLogin(s.openSearch.value);
    } else if s.pipeline.Some? {
      OnlySink("pipeline", Table(map["name" := Text(s.pipeline.value)]));
    } else if s.s3.Some? {
      OnlySink("s3", Table(S3SinkFields(s.s3.value)));
      S3SinkReadsBack(s.s3.value);
    } else if s.kafka.Some? {
      OnlySink("kafka", Table(KafkaSinkFields(s.kafka.value)));
      KafkaSinkReadsBack(s.kafka.value);
    } else {
      OnlySink("stdout", Table(map[]));
    }
  }

  /******* Entries *******/

  function SizesOf(v: Option<Value>): Option<Buffer> {
    var b := Field(v, "bounded_blocking");
    if b.None? then None
    else Some(Buffer(Some(BoundedBlocking(NumberOf(Field(b, "buffer_size")), NumberOf(Field(b, "batch_size"))))))
  }

  function SinksOf(items: seq<Value>): seq<Sink> {
    seq(|items|, j requires 0 <= j < |items| => SinkOf(items[j]))
  }

  /** The definition that an entry shows, apart from its processors. */
  function DefinitionOf(name: string, v: Value): PipelineDefinition {
    var t := Some(v);
    PipelineDefinition(name, NumberOf(Field(t, "workers")), NumberOf(Field(t, "delay")), SourceOf(Field(t, "source")),
                       SizesOf(Field(t, "buffer")), [],
                       if Field(t, "route").Some? then [TextMapOf(Field(t, "route"))] else [],
                       SinksOf(ItemsOf(Field(t, "sink"))))
  }

  function AtLeastZero(n: int): int { if n > 0 then n else 0 }

  function ShownBuffer(b: Option<Buffer>): Option<Buffer> {
    if b.None? || b.value.boundedBlocking.None? then None
    else
      var sizes := b.value.boundedBlocking.value;
      Some(Buffer(Some(BoundedBlocking(AtLeastZero(sizes.bufferSize), AtLeastZero(sizes.batchSize)))))
  }

  /** A definition as the document can show it: without processors and secrets, with the threads of a Kafka source as
      workers where the user sets none, and with the routes merged into one map. */
  function ShownDefinition(p: PipelineDefinition, topicWorkers: int32): PipelineDefinition {
    PipelineDefinition(p.name,
                       if p.workers > 0 then p.workers
                       else if p.source.kafka.Some? then AtLeastZero(topicWorkers) else 0,
                       AtLeastZero(p.delay),
                       ShownSource(p.source),
                       ShownBuffer(p.buffer),
                       [],
                       if p.routes != [] then [MergedRoutes(p.routes)] else [],
                       ShownSinks(p.sink))
  }

  lemma HeadField(p: PipelineDefinition, topicWorkers: int32, key: string)
    ensures At(HeadFields(p, topicWorkers), key) ==
            if key == "delay" && p.delay > 0 then Some(Number(p.delay))
            else if key == "workers" && p.workers > 0 then Some(Number(p.workers))
            else if key == "workers" && p.source.kafka.Some? && topicWorkers > 0 then Some(Number(topicWorkers))
            else None
  {
    AtPlus(WorkerFields(p, topicWorkers), When(p.delay > 0, "delay", Number(p.delay)), key);
  }

  lemma MiddleField(p: PipelineDefinition, decode: Decoder, key: string)
    requires ProcessorsDecode(p.processors, decode)
    ensures At(MiddleFields(p, decode), key) ==
            if key == "route" && p.routes != [] then Some(TextMap(MergedRoutes(p.routes)))
            else if key == "processor" && p.processors != [] then Some(List(ProcessorValues(p.processors, decode)))
            else if p.buffer.Some? then At(BufferFields(p.buffer.value), key) else None
  {
    var a := if p.buffer.Some? then BufferFields(p.buffer.value) else map[];
    var b := When(p.processors != [], "processor", List(ProcessorValues(p.processors, decode)));
    var c := When(p.routes != [], "route", TextMap(MergedRoutes(p.routes)));
    AtPlus(a + b, c, key);
    AtPlus(a, b, key);
  }

  lemma BufferReadsBack(b: Buffer)
    ensures SizesOf(At(BufferFields(b), "buffer")) == ShownBuffer(Some(b))
    ensures forall key :: key != "buffer" ==> At(BufferFields(b), key) == None
  {
  }

  lemma EntryField(p: PipelineDefinition, topicWorkers: int32, decode: Decoder, key: string)
    requires EntryError(p, decode).None?
    ensures Field(Some(Entry(p, topicWorkers, decode)), key) ==
            if key == "sink" then Some(List(SinkValues(p.sink)))
            else if At(MiddleFields(p, decode), key).Some? then At(MiddleFields(p, decode), key)
            else if key == "source" then BuildSource(p.source, topicWorkers)
            else At(HeadFields(p, topicWorkers), key)
  {
    var a, b := HeadFields(p, topicWorkers), map["source" := BuildSource(p.source, topicWorkers).value];
    var c, d := MiddleFields(p, decode), map["sink" := List(SinkValues(p.sink))];
    AtPlus(a + b + c, d, key);
    AtPlus(a + b, c, key);
    AtPlus(a, b, key);
  }

  lemma NumbersReadBack(p: PipelineDefinition, topicWorkers: int32, decode: Decoder)
    requires EntryError(p, decode).None?
    ensures var t := Some(Entry(p, topicWorkers, decode));
            && NumberOf(Field(t, "workers")) == ShownDefinition(p, topicWorkers).workers
            && NumberOf(Field(t, "delay")) == AtLeastZero(p.delay)
  {
    EntryField(p, topicWorkers, decode, "workers");
    EntryField(p, topicWorkers, decode, "delay");
    HeadField(p, topicWorkers, "workers");
    HeadField(p, topicWorkers, "delay");
    MiddleField(p, decode, "workers");
    MiddleField(p, decode, "delay");
    if p.buffer.Some? { BufferReadsBack(p.buffer.value); }
  }

  lemma OptionsReadBack(p: PipelineDefinition, topicWorkers: int32, decode: Decoder)
    requires EntryError(p, decode).None?
    ensures var t := Some(Entry(p, topicWorkers, decode));
            && SizesOf(Field(t, "buffer")) == ShownBuffer(p.buffer)
            && Field(t, "route") == (if p.routes != [] then Some(TextMap(MergedRoutes(p.routes))) else None)
            && ItemsOf(Field(t, "processor")) == ProcessorValues(p.processors, decode)
  {
    EntryField(p, topicWorkers, decode, "buffer");
    EntryField(p, topicWorkers, decode, "route");
    EntryField(p, topicWorkers, decode, "processor");
    HeadField(p, topicWorkers, "buffer");
    HeadField(p, topicWorkers, "route");
    HeadField(p, topicWorkers, "processor");
    MiddleField(p, decode, "buffer");
    MiddleField(p, decode, "route");
    MiddleField(p, decode, "processor");
    if p.buffer.Some? { BufferReadsBack(p.buffer.value); }
  }

  lemma SinksReadBack(ss: seq<Sink>)
    requires SinksBuild(ss)
    ensures SinksOf(SinkValues(ss)) == ShownSinks(ss)
    ensures forall j :: 0 <= j < |ss| ==> SinkLogin(SinkValues(ss)[j]) == ShownLogin(ss[j])
  {
    forall j | 0 <= j < |ss|
      ensures SinkOf(SinkValues(ss)[j]) == ShownSink(ss[j]) && SinkLogin(SinkValues(ss)[j]) == ShownLogin(ss[j])
    {
      SinkReadsBack(ss[j]);
    }
  }

  /** What the connectors of an entry log in with: the source first, then the sinks in order. */
  function LoginsOf(v: Value): seq<Option<Login>> {
    var sinks := ItemsOf(Field(Some(v), "sink"));
    [SaslLogin(Field(Field(Some(v), "source"), "kafka"))]
    + seq(|sinks|, j requires 0 <= j < |sinks| => SinkLogin(sinks[j]))
  }

  function ShownLogins(p: PipelineDefinition): seq<Option<Login>> {
    [if p.source.kafka.Some? && p.source.kafka.value.credentials.Some?
     then Some(KAFKA_LOGIN) else None]
    + seq(|p.sink|, j requires 0 <= j < |p.sink| => ShownLogin(p.sink[j]))
  }

  /** The connectors of `v` are the generated ones. */
  ghost predicate Connects(v: Value, p: PipelineDefinition, topicWorkers: int32) {
    && BuildSource(p.source, topicWorkers).Some? && SinksBuild(p.sink)
    && Field(Some(v), "source") == BuildSource(p.source, topicWorkers)
    && ItemsOf(Field(Some(v), "sink")) == SinkValues(p.sink)
  }

  lemma EndsReadBack(p: PipelineDefinition, topicWorkers: int32, decode: Decoder)
    requires EntryError(p, decode).None?
    ensures Connects(Entry(p, topicWorkers, decode), p, topicWorkers)
  {
    EntryField(p, topicWorkers, decode, "source");
    EntryField(p, topicWorkers, decode, "sink");
  }

  lemma ConnectorsReadBack(v: Value, p: PipelineDefinition, topicWorkers: int32)
    requires Connects(v, p, topicWorkers)
    ensures SourceOf(Field(Some(v), "source")) == ShownSource(p.source)
    ensures SinksOf(ItemsOf(Field(Some(v), "sink"))) == ShownSinks(p.sink)
    ensures ThreadsOf(Field(Some(v), "source")) == if p.source.kafka.Some? then AtLeastZero(topicWorkers) else 0
  {
    SourceReadsBack(p.source, topicWorkers);
    SinksReadBack(p.sink);
  }

  lemma LoginsReadBack(v: Value, p: PipelineDefinition, topicWorkers: int32)
    requires Connects(v, p, topicWorkers)
    ensures LoginsOf(v) == ShownLogins(p)
  {
    SourceReadsBack(p.source, topicWorkers);
    SinksReadBack(p.sink);
  }

  lemma DefinitionReadsBack(p: PipelineDefinition, topicWorkers: int32, decode: Decoder)
    requires EntryError(p, decode).None? && Connects(Entry(p, topicWorkers, decode), p, topicWorkers)
    ensures DefinitionOf(p.name, Entry(p, topicWorkers, decode)) == ShownDefinition(p, topicWorkers)
  {
    NumbersReadBack(p, topicWorkers, decode);
    OptionsReadBack(p, topicWorkers, decode);
    ConnectorsReadBack(Entry(p, topicWorkers, decode), p, topicWorkers);
    TextMapReadBack(MergedRoutes(p.routes));
  }

  /** A generated entry shows the definition: its source, sinks in order, sizes, numbers and routes, each under its own
      key, with its logins, and its processors as they decode. */
  ghost predicate Shows(v: Value, p: PipelineDefinition, topicWorkers: int32, decode: Decoder)
    requires ProcessorsDecode(p.processors, decode)
  {
    && DefinitionOf(p.name, v) == ShownDefinition(p, topicWorkers)
    && LoginsOf(v) == ShownLogins(p)
    && ThreadsOf(Field(Some(v), "source")) == (if p.source.kafka.Some? then AtLeastZero(topicWorkers) else 0)
    && ItemsOf(Field(Some(v), "processor")) == ProcessorValues(p.processors, decode)
  }

  lemma EntryReadsBack(p: PipelineDefinition, topicWorkers: int32, decode: Decoder)
    requires EntryError(p, decode).None?
    ensures Shows(Entry(p, topicWorkers, decode), p, topicWorkers, decode)
  {
    EndsReadBack(p, topicWorkers, decode);
    DefinitionReadsBack(p, topicWorkers, decode);
    ConnectorsReadBack(Entry(p, topicWorkers, decode), p, topicWorkers);
    LoginsReadBack(Entry(p, topicWorkers, decode), p, topicWorkers);
    OptionsReadBack(p, topicWorkers, decode);
  }

  ghost predicate DistinctNames(ps: seq<PipelineDefinition>) {
    forall i, j :: 0 <= i < j < |ps| ==> ps[i].name != ps[j].name
  }

  /** The whole document, for definitions with different names. */
  lemma DocumentReadsBack(ps: seq<PipelineDefinition>, topicWorkers: int32, decode: Decoder, i: nat)
    requires AllGenerate(ps, decode) && i < |ps| && DistinctNames(ps)
    ensures var doc := Assigned(Entries(ps, topicWorkers, decode));
            ps[i].name in doc && Shows(doc[ps[i].name], ps[i], topicWorkers, decode)
  {
    AssignedDistinct(Entries(ps, topicWorkers, decode), i);
    EntryReadsBack(ps[i], topicWorkers, decode);
  }

  /** Of several routes with one name the last one counts. */
  lemma {:induction false} LastRouteWins(rs: seq<map<string, string>>, i: nat, k: string)
    requires i < |rs| && k in rs[i] && forall j :: i < j < |rs| ==> k !in rs[j]
    ensures k in MergedRoutes(rs) && MergedRoutes(rs)[k] == rs[i][k]
  {
    if i < |rs| - 1 { LastRouteWins(rs[..|rs| - 1], i, k); }
  }

  lemma {:induction false} RoutesComeFrom(rs: seq<map<string, string>>, k: string)
    ensures k in MergedRoutes(rs) ==> exists i :: 0 <= i < |rs| && k in rs[i]
  {
    if rs == [] {
    } else {
      RoutesComeFrom(rs[..|rs| - 1], k);
    }
  }
}
