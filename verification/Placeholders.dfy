/** Which texts the generated document holds, and which environment variables they refer to. */
module Placeholders {
  import opened Api
  import opened Config

  /******* Texts and references *******/

  /** A name that a variable can have: letters, digits and underscores. */
  predicate IsVarName(env: string) {
    env != "" && forall i :: 0 <= i < |env| ==>
      'a' <= env[i] <= 'z' || 'A' <= env[i] <= 'Z' || '0' <= env[i] <= '9' || env[i] == '_'
  }

  predicate Contains(t: string, part: string) {
    part <= t || (t != "" && Contains(t[1..], part))
  }

  /** The text contains a reference to the environment variable `env`. */
  predicate Spells(t: string, env: string) { IsVarName(env) && Contains(t, Reference(env)) }

  /** The document node holds the text `t` at some leaf. */
  ghost predicate Says(v: Value, t: string) {
    match v
    case Text(x) => x == t
    case List(items) => exists i :: 0 <= i < |items| && Says(items[i], t)
    case Table(fields) => exists k :: k in fields && Says(fields[k], t)
    case _ => false
  }

  ghost predicate FieldsSay(fields: map<string, Value>, t: string) {
    exists k :: k in fields && Says(fields[k], t)
  }

  /** Whoever wrote it, some text of the document refers to `env`. */
  ghost predicate Refers(fields: map<string, Value>, env: string) {
    exists t :: FieldsSay(fields, t) && Spells(t, env)
  }

  predicate IsKafkaVar(env: string) { env == KAFKA_USERNAME || env == KAFKA_PASSWORD }

  predicate IsOpenSearchVar(env: string) { env == OPENSEARCH_USERNAME || env == OPENSEARCH_PASSWORD }

  /** A reference cannot start where there is no dollar sign. */
  lemma {:induction false} SkipPlain(a: string, t: string, env: string)
    requires '$' !in a
    ensures Contains(a + t, Reference(env)) <==> Contains(t, Reference(env))
  {
    assert Reference(env)[0] == '$';
    if a == "" {
      assert a + t == t;
    } else {
      assert (a + t)[0] == a[0] && (a + t)[1..] == a[1..] + t;
      SkipPlain(a[1..], t, env);
    }
  }

  /** A text that starts with a reference refers to that variable and to what the rest refers to. */
  lemma StartsWith(own: string, t: string, env: string)
    requires IsVarName(own)
    ensures Spells(Reference(own) + t, env) <==> env == own || Spells(t, env)
  {
    var all := Reference(own) + t;
    assert all[1..] == ("{" + own + "}") + t;
    SkipPlain("{" + own + "}", t, env);
    if IsVarName(env) && Reference(env) <= all { SameReference(own, env, t); }
  }

  lemma SameReference(own: string, env: string, t: string)
    requires IsVarName(own) && IsVarName(env) && Reference(env) <= Reference(own) + t
    ensures env == own
  {
    var all, r := Reference(own) + t, Reference(env);
    assert forall i :: 0 <= i < |own| ==> all[i + 2] == own[i];
    assert forall i :: 0 <= i < |env| ==> all[i + 2] == env[i];
    assert all[|own| + 2] == '}' && all[|env| + 2] == r[|env| + 2] == '}';
  }

  /** What the operator writes refers to one variable only. */
  lemma SpellsOne(own: string, env: string)
    requires IsVarName(own)
    ensures Spells(Reference(own), env) <==> env == own
  {
    StartsWith(own, "", env);
    assert Reference(own) + "" == Reference(own);
  }

  /** Two references in one text are references to two variables, and to nothing else. */
  lemma SpellsTwo(a: string, between: string, b: string, env: string)
    requires IsVarName(a) && IsVarName(b) && '$' !in between
    ensures Spells(Reference(a) + between + Reference(b), env) <==> env == a || env == b
  {
    assert Reference(a) + between + Reference(b) == Reference(a) + (between + Reference(b));
    StartsWith(a, between + Reference(b), env);
    SkipPlain(between, Reference(b), env);
    SpellsOne(b, env);
  }

  /******* Texts of tables *******/

  lemma TableSays(fields: map<string, Value>, t: string)
    ensures Says(Table(fields), t) <==> FieldsSay(fields, t)
  {
  }

  lemma OneField(k: string, v: Value, t: string)
    ensures FieldsSay(map[k := v], t) <==> Says(v, t)
    ensures Says(Table(map[k := v]), t) <==> Says(v, t)
  {
    assert map[k := v][k] == v;
    TableSays(map[k := v], t);
  }

  lemma TwoFields(k: string, v: Value, k': string, v': Value, t: string)
    requires k != k'
    ensures FieldsSay(map[k := v, k' := v'], t) <==> Says(v, t) || Says(v', t)
  {
    var m := map[k := v, k' := v'];
    assert m[k] == v && m[k'] == v';
  }

  /** Groups of fields with different keys; `ks` bounds the keys so far. */
  lemma Plus(a: map<string, Value>, b: map<string, Value>, ks: set<string>, t: string)
    requires a.Keys <= ks && b.Keys !! ks
    ensures FieldsSay(a + b, t) <==> FieldsSay(a, t) || FieldsSay(b, t)
  {
    var m := a + b;
    if k :| k in a && Says(a[k], t) { assert k in m && m[k] == a[k]; }
    if k :| k in b && Says(b[k], t) { assert k in m && m[k] == b[k]; }
  }

  lemma PlusWhen(a: map<string, Value>, ks: set<string>, present: bool, k: string, v: Value, t: string)
    requires a.Keys <= ks && k !in ks
    ensures FieldsSay(a + When(present, k, v), t) <==> FieldsSay(a, t) || (present && Says(v, t))
    ensures (a + When(present, k, v)).Keys <= ks + {k}
  {
    Plus(a, When(present, k, v), ks, t);
    OneField(k, v, t);
  }

  lemma TextsSay(ss: seq<string>, t: string)
    ensures Says(Texts(ss), t) <==> t in ss
  {
    var items := Texts(ss).items;
    if i :| 0 <= i < |ss| && ss[i] == t { assert Says(items[i], t); }
  }

  lemma TextMapSays(m: map<string, string>, t: string)
    ensures Says(TextMap(m), t) <==> t in m.Values
  {
    var fields := TextMap(m).fields;
    if t in m.Values {
      var k :| k in m && m[k] == t;
      assert Says(fields[k], t);
    }
  }

  /******* What the user writes, as far as it reaches the document *******/

  predicate Given(s: string, t: string) { s != "" && s == t }

  predicate KafkaTexts(k: KafkaSource, t: string) {
    || t in k.bootstrapServers || t == k.topic || t == k.groupId
    || Given(k.encryptionType, t) || t in k.consumerConfig.Values
  }

  predicate CodecTexts(c: Codec, t: string) {
    && !c.json
    && if c.csv.Some? then Given(c.csv.value.delimiter, t)
       else !c.newline && !c.parquet && c.avroSchema.Some? && Given(c.avroSchema.value, t)
  }

  predicate S3Texts(s: S3Source, t: string) {
    || t == s.bucket || t == s.region || Given(s.prefix, t)
    || (s.sqsQueueUrl != "" && (t == "sqs" || t == s.sqsQueueUrl))
    || (s.codec.Some? && CodecTexts(s.codec.value, t)) || Given(s.compression, t)
  }

  predicate SourceTexts(s: Source, t: string) {
    if s.kafka.Some? then KafkaTexts(s.kafka.value, t)
    else if s.http.Some? then Given(s.http.value.path, t)
    else if s.otel.Some? then false
    else if s.s3.Some? then S3Texts(s.s3.value, t)
    else s.pipeline == Some(t)
  }

  predicate OpenSearchTexts(o: OpenSearchSink, t: string) {
    t in o.hosts || Given(o.index, t) || Given(o.indexType, t) || t in o.routes
  }

  predicate S3SinkTexts(s: S3Sink, t: string) {
    t == s.bucket || t == s.region || Given(s.keyPathPrefix, t) || Given(s.codec, t) || Given(s.compression, t)
  }

  predicate KafkaSinkTexts(k: KafkaSink, t: string) {
    t in k.bootstrapServers || t == k.topic || Given(k.serdeFormat, t)
  }

  predicate SinkTexts(s: Sink, t: string) {
    if s.openSearch.Some? then OpenSearchTexts(s.openSearch.value, t)
    else if s.pipeline.Some? then s.pipeline == Some(t)
    else if s.s3.Some? then S3SinkTexts(s.s3.value, t)
    else s.kafka.Some? && KafkaSinkTexts(s.kafka.value, t)
  }

  ghost predicate ProcessorTexts(ps: seq<Json>, decode: Decoder, t: string) {
    exists j :: 0 <= j < |ps| && decode(ps[j]).Some? && Says(decode(ps[j]).value, t)
  }

  /** A text of the definition that the generator copies into the document. */
  ghost predicate UserWrites(p: PipelineDefinition, decode: Decoder, t: string) {
    || SourceTexts(p.source, t)
    || ProcessorTexts(p.processors, decode, t)
    || t in MergedRoutes(p.routes).Values
    || exists j :: 0 <= j < |p.sink| && SinkTexts(p.sink[j], t)
  }

  /******* What the operator adds *******/

  /** The sink's credentials that the generated sink refers to: the first union member that is set decides. */
  ghost predicate SinkNeeds(s: Sink, env: string) {
    if s.openSearch.Some? then s.openSearch.value.credentials.Some? && IsOpenSearchVar(env)
    else s.pipeline.None? && s.s3.None? && s.kafka.Some? && s.kafka.value.credentials.Some? && IsKafkaVar(env)
  }

  ghost predicate SourceNeeds(s: Source, env: string) {
    s.kafka.Some? && s.kafka.value.credentials.Some? && IsKafkaVar(env)
  }

  /** Where `p` needs the environment variable `env`. */
  ghost predicate PipelineNeeds(p: PipelineDefinition, env: string) {
    SourceNeeds(p.source, env) || exists j :: 0 <= j < |p.sink| && SinkNeeds(p.sink[j], env)
  }

  predicate KafkaReference(t: string) { t == Reference(KAFKA_USERNAME) || t == Reference(KAFKA_PASSWORD) }

  predicate OpenSearchReference(t: string) {
    t == Reference(OPENSEARCH_USERNAME) || t == Reference(OPENSEARCH_PASSWORD)
  }

  /******* Builder by builder *******/

  lemma SaslSays(t: string)
    ensures Says(SaslPlain(), t) <==> KafkaReference(t)
  {
    var user, password := Text(Reference(KAFKA_USERNAME)), Text(Reference(KAFKA_PASSWORD));
    var login := map["username" := user, "password" := password];
    TwoFields("username", user, "password", password, t);
    TableSays(login, t);
    OneField("plain", Table(login), t);
    OneField("sasl", Table(map["plain" := Table(login)]), t);
  }

  lemma KafkaTopicSays(k: KafkaSource, topicWorkers: int32, t: string)
    ensures Says(List([KafkaTopic(k, topicWorkers)]), t) <==> t == k.topic || t == k.groupId
  {
    var base := map["name" := Text(k.topic), "group_id" := Text(k.groupId)];
    TwoFields("name", Text(k.topic), "group_id", Text(k.groupId), t);
    PlusWhen(base, {"name", "group_id"}, topicWorkers > 0, "workers", Number(topicWorkers), t);
    TableSays(base + When(topicWorkers > 0, "workers", Number(topicWorkers)), t);
    var items := [KafkaTopic(k, topicWorkers)];
    assert Says(items[0], t) <==> t == k.topic || t == k.groupId;
  }

  lemma KafkaTailSays(k: KafkaSource, t: string)
    ensures var tail := When(k.encryptionType != "", "encryption", Table(map["type" := Text(k.encryptionType)]))
                        + When(k.consumerConfig != map[], "consumer_config", TextMap(k.consumerConfig));
            && (FieldsSay(tail, t) <==> Given(k.encryptionType, t) || t in k.consumerConfig.Values)
            && tail.Keys <= {"encryption", "consumer_config"}
  {
    var encryption := Table(map["type" := Text(k.encryptionType)]);
    OneField("type", Text(k.encryptionType), t);
    OneField("encryption", encryption, t);
    TextMapSays(k.consumerConfig, t);
    PlusWhen(When(k.encryptionType != "", "encryption", encryption), {"encryption"},
             k.consumerConfig != map[], "consumer_config", TextMap(k.consumerConfig), t);
  }

  lemma KafkaSourceSays(k: KafkaSource, topicWorkers: int32, t: string)
    ensures FieldsSay(KafkaSourceFields(k, topicWorkers), t) <==>
            KafkaTexts(k, t) || (k.credentials.Some? && KafkaReference(t))
  {
    var topics := List([KafkaTopic(k, topicWorkers)]);
    var base := map["bootstrap_servers" := Texts(k.bootstrapServers), "topics" := topics];
    TextsSay(k.bootstrapServers, t);
    KafkaTopicSays(k, topicWorkers, t);
    TwoFields("bootstrap_servers", Texts(k.bootstrapServers), "topics", topics, t);
    SaslSays(t);
    PlusWhen(base, {"bootstrap_servers", "topics"}, k.credentials.Some?, "authentication", SaslPlain(), t);
    KafkaTailSays(k, t);
    Plus(base + When(k.credentials.Some?, "authentication", SaslPlain()),
         When(k.encryptionType != "", "encryption", Table(map["type" := Text(k.encryptionType)]))
         + When(k.consumerConfig != map[], "consumer_config", TextMap(k.consumerConfig)),
         {"bootstrap_servers", "topics", "authentication"}, t);
  }

  lemma HttpSays(h: HttpSource, t: string)
    ensures FieldsSay(HttpFields(h), t) <==> Given(h.path, t)
  {
    OneField("port", Number(h.port), t);
    PlusWhen(map["port" := Number(h.port)], {"port"}, h.path != "", "path", Text(h.path), t);
  }

  lemma CodecSays(c: Codec, t: string)
    ensures FieldsSay(CodecFields(c), t) <==> CodecTexts(c, t)
  {
    if !c.json && c.csv.Some? {
      var delimiter := When(c.csv.value.delimiter != "", "delimiter", Text(c.csv.value.delimiter));
      OneField("delimiter", Text(c.csv.value.delimiter), t);
      PlusWhen(delimiter, {"delimiter"}, c.csv.value.headerRow, "header", Flag(true), t);
      TableSays(delimiter + When(c.csv.value.headerRow, "header", Flag(true)), t);
      OneField("csv", Table(delimiter + When(c.csv.value.headerRow, "header", Flag(true))), t);
    } else if !c.json && !c.newline && !c.parquet && c.avroSchema.Some? {
      var schema := When(c.avroSchema.value != "", "schema", Text(c.avroSchema.value));
      OneField("schema", Text(c.avroSchema.value), t);
      TableSays(schema, t);
      OneField("avro", Table(schema), t);
    }
  }

  lemma S3HeadSays(s: S3Source, t: string)
    ensures FieldsSay(S3Head(s), t) <==>
            || t == s.bucket || t == s.region || Given(s.prefix, t)
            || (s.sqsQueueUrl != "" && (t == "sqs" || t == s.sqsQueueUrl))
    ensures S3Head(s).Keys <= {"bucket", "region", "key_path_prefix", "notification_type", "sqs"}
  {
    var a := map["bucket" := Text(s.bucket), "region" := Text(s.region)];
    var b := When(s.prefix != "", "key_path_prefix", Text(s.prefix));
    var c := When(s.sqsQueueUrl != "", "notification_type", Text("sqs"));
    var queue := Table(map["queue_url" := Text(s.sqsQueueUrl)]);
    TwoFields("bucket", Text(s.bucket), "region", Text(s.region), t);
    PlusWhen(a, {"bucket", "region"}, s.prefix != "", "key_path_prefix", Text(s.prefix), t);
    PlusWhen(a + b, {"bucket", "region", "key_path_prefix"}, s.sqsQueueUrl != "", "notification_type", Text("sqs"), t);
    OneField("queue_url", Text(s.sqsQueueUrl), t);
    PlusWhen(a + b + c, {"bucket", "region", "key_path_prefix", "notification_type"}, s.sqsQueueUrl != "", "sqs", queue,
             t);
  }

  lemma S3SourceSays(s: S3Source, t: string)
    ensures FieldsSay(S3SourceFields(s), t) <==> S3Texts(s, t)
  {
    var ks := {"bucket", "region", "key_path_prefix", "notification_type", "sqs"};
    var codec: map<string, Value> := if s.codec.Some? then map["codec" := Table(CodecFields(s.codec.value))] else map[];
    S3HeadSays(s, t);
    if s.codec.Some? {
      CodecSays(s.codec.value, t);
      TableSays(CodecFields(s.codec.value), t);
      OneField("codec", Table(CodecFields(s.codec.value)), t);
    }
    Plus(S3Head(s), codec, ks, t);
    PlusWhen(S3Head(s) + codec, ks + {"codec"}, s.compression != "", "compression", Text(s.compression), t);
  }

  lemma ConnectorSays(name: string, t: string)
    ensures Says(Connector(name), t) <==> t == name
  {
    OneField("name", Text(name), t);
    OneField("pipeline", Table(map["name" := Text(name)]), t);
  }

  /** A generated source holds the user's texts and, exactly for a Kafka source with credentials, the references. */
  lemma SourceSays(s: Source, topicWorkers: int32, t: string)
    requires BuildSource(s, topicWorkers).Some?
    ensures Says(BuildSource(s, topicWorkers).value, t) <==>
            SourceTexts(s, t) || exists env :: SourceNeeds(s, env) && t == Reference(env)
  {
    if s.kafka.Some? {
      KafkaSourceSays(s.kafka.value, topicWorkers, t);
      OneField("kafka", Table(KafkaSourceFields(s.kafka.value, topicWorkers)), t);
    } else if s.http.Some? {
      HttpSays(s.http.value, t);
      OneField("http", Table(HttpFields(s.http.value)), t);
    } else if s.otel.Some? {
      OneField("port", Number(s.otel.value.port), t);
      OneField(OTelName(s.otel.value), Table(map["port" := Number(s.otel.value.port)]), t);
    } else if s.s3.Some? {
      S3SourceSays(s.s3.value, t);
      OneField("s3", Table(S3SourceFields(s.s3.value)), t);
    } else {
      ConnectorSays(s.pipeline.value, t);
    }
  }

  lemma OpenSearchHeadSays(o: OpenSearchSink, t: string)
    ensures FieldsSay(OpenSearchHead(o), t) <==> t in o.hosts || Given(o.index, t) || Given(o.indexType, t)
    ensures OpenSearchHead(o).Keys <= {"hosts", "index", "index_type"}
  {
    var hosts := map["hosts" := Texts(o.hosts)];
    TextsSay(o.hosts, t);
    OneField("hosts", Texts(o.hosts), t);
    PlusWhen(hosts, {"hosts"}, o.index != "", "index", Text(o.index), t);
    PlusWhen(hosts + When(o.index != "", "index", Text(o.index)), {"hosts", "index"},
             o.indexType != "", "index_type", Text(o.indexType), t);
  }

  lemma OpenSearchSays(o: OpenSearchSink, t: string)
    ensures FieldsSay(OpenSearchFields(o), t) <==>
            OpenSearchTexts(o, t) || (o.credentials.Some? && OpenSearchReference(t))
  {
    var user, password := Text(Reference(OPENSEARCH_USERNAME)), Text(Reference(OPENSEARCH_PASSWORD));
    var login: map<string, Value> :=
      if o.credentials.Some? then map["username" := user, "password" := password] else map[];
    var ks := {"hosts", "index", "index_type"};
    OpenSearchHeadSays(o, t);
    TwoFields("username", user, "password", password, t);
    Plus(OpenSearchHead(o), login, ks, t);
    TextsSay(o.routes, t);
    PlusWhen(OpenSearchHead(o) + login, ks + {"username", "password"}, o.routes != [], "routes", Texts(o.routes), t);
  }

  lemma S3SinkHeadSays(s: S3Sink, t: string)
    ensures FieldsSay(S3SinkHead(s), t) <==>
            t == s.bucket || t == s.region || Given(s.keyPathPrefix, t) || Given(s.codec, t)
    ensures S3SinkHead(s).Keys <= {"bucket", "region", "key_path_prefix", "codec"}
  {
    var a := map["bucket" := Text(s.bucket), "region" := Text(s.region)];
    var b := When(s.keyPathPrefix != "", "key_path_prefix", Text(s.keyPathPrefix));
    TwoFields("bucket", Text(s.bucket), "region", Text(s.region), t);
    PlusWhen(a, {"bucket", "region"}, s.keyPathPrefix != "", "key_path_prefix", Text(s.keyPathPrefix), t);
    PlusWhen(a + b, {"bucket", "region", "key_path_prefix"}, s.codec != "", "codec", Text(s.codec), t);
  }

  lemma S3SinkSays(s: S3Sink, t: string)
    ensures FieldsSay(S3SinkFields(s), t) <==> S3SinkTexts(s, t)
  {
    var ks := {"bucket", "region", "key_path_prefix", "codec"};
    var aws := Table(map["region" := Text(s.region)]);
    S3SinkHeadSays(s, t);
    PlusWhen(S3SinkHead(s), ks, s.compression != "", "compression", Text(s.compression), t);
    OneField("region", Text(s.region), t);
    PlusWhen(S3SinkHead(s) + When(s.compression != "", "compression", Text(s.compression)), ks + {"compression"},
             true, "aws", aws, t);
  }

  lemma KafkaSinkSays(k: KafkaSink, t: string)
    ensures FieldsSay(KafkaSinkFields(k), t) <==> KafkaSinkTexts(k, t) || (k.credentials.Some? && KafkaReference(t))
  {
    var base := map["bootstrap_servers" := Texts(k.bootstrapServers), "topic" := Text(k.topic)];
    TextsSay(k.bootstrapServers, t);
    TwoFields("bootstrap_servers", Texts(k.bootstrapServers), "topic", Text(k.topic), t);
    PlusWhen(base, {"bootstrap_servers", "topic"}, k.serdeFormat != "", "serde_format", Text(k.serdeFormat), t);
    SaslSays(t);
    PlusWhen(base + When(k.serdeFormat != "", "serde_format", Text(k.serdeFormat)),
             {"bootstrap_servers", "topic", "serde_format"},
             k.credentials.Some?, "authentication", SaslPlain(), t);
  }

  /** A generated sink holds the user's texts and the references of the union member that wins. */
  lemma SinkSays(s: Sink, t: string)
    requires BuildSink(s).Some?
    ensures Says(BuildSink(s).value, t) <==> SinkTexts(s, t) || exists env :: SinkNeeds(s, env) && t == Reference(env)
  {
    if s.openSearch.Some? {
      OpenSearchSays(s.openSearch.value, t);
      OneField("opensearch", Table(OpenSearchFields(s.openSearch.value)), t);
    } else if s.pipeline.Some? {
      ConnectorSays(s.pipeline.value, t);
    } else if s.s3.Some? {
      S3SinkSays(s.s3.value, t);
      OneField("s3", Table(S3SinkFields(s.s3.value)), t);
    } else if s.kafka.Some? {
      KafkaSinkSays(s.kafka.value, t);
      OneField("kafka", Table(KafkaSinkFields(s.kafka.value)), t);
    } else {
      OneField("stdout", Table(map[]), t);
    }
  }

  /******* Entries and the whole document *******/

  lemma BufferSays(b: Buffer, t: string)
    ensures !FieldsSay(BufferFields(b), t) && BufferFields(b).Keys <= {"buffer"}
  {
    if b.boundedBlocking.Some? {
      var bb := b.boundedBlocking.value;
      var size := When(bb.bufferSize > 0, "buffer_size", Number(bb.bufferSize));
      var batch := When(bb.batchSize > 0, "batch_size", Number(bb.batchSize));
      OneField("buffer_size", Number(bb.bufferSize), t);
      PlusWhen(size, {"buffer_size"}, bb.batchSize > 0, "batch_size", Number(bb.batchSize), t);
      TableSays(size + batch, t);
      OneField("bounded_blocking", Table(size + batch), t);
      OneField("buffer", Table(map["bounded_blocking" := Table(size + batch)]), t);
    }
  }

  lemma HeadSays(p: PipelineDefinition, topicWorkers: int32, t: string)
    ensures !FieldsSay(HeadFields(p, topicWorkers), t) && HeadFields(p, topicWorkers).Keys <= {"workers", "delay"}
  {
    OneField("workers", Number(p.workers), t);
    OneField("workers", Number(topicWorkers), t);
    PlusWhen(WorkerFields(p, topicWorkers), {"workers"}, p.delay > 0, "delay", Number(p.delay), t);
  }

  lemma ProcessorsSay(ps: seq<Json>, decode: Decoder, t: string)
    requires ProcessorsDecode(ps, decode)
    ensures Says(List(ProcessorValues(ps, decode)), t) <==> ProcessorTexts(ps, decode, t)
  {
    var vs := ProcessorValues(ps, decode);
    if j :| 0 <= j < |ps| && decode(ps[j]).Some? && Says(decode(ps[j]).value, t) { assert Says(vs[j], t); }
  }

  lemma MiddleSays(p: PipelineDefinition, decode: Decoder, t: string)
    requires ProcessorsDecode(p.processors, decode)
    ensures FieldsSay(MiddleFields(p, decode), t) <==>
            ProcessorTexts(p.processors, decode, t) || t in MergedRoutes(p.routes).Values
    ensures MiddleFields(p, decode).Keys <= {"buffer", "processor", "route"}
  {
    var a: map<string, Value> := if p.buffer.Some? then BufferFields(p.buffer.value) else map[];
    var procs := List(ProcessorValues(p.processors, decode));
    if p.buffer.Some? { BufferSays(p.buffer.value, t); }
    ProcessorsSay(p.processors, decode, t);
    PlusWhen(a, {"buffer"}, p.processors != [], "processor", procs, t);
    TextMapSays(MergedRoutes(p.routes), t);
    PlusWhen(a + When(p.processors != [], "processor", procs), {"buffer", "processor"},
             p.routes != [], "route", TextMap(MergedRoutes(p.routes)), t);
  }

  lemma SinksSay(ss: seq<Sink>, t: string)
    requires SinksBuild(ss)
    ensures Says(List(SinkValues(ss)), t) <==>
            || (exists j :: 0 <= j < |ss| && SinkTexts(ss[j], t))
            || (exists j, env :: 0 <= j < |ss| && SinkNeeds(ss[j], env) && t == Reference(env))
  {
    var vs := SinkValues(ss);
    forall j | 0 <= j < |ss|
      ensures Says(vs[j], t) <==> SinkTexts(ss[j], t) || exists env :: SinkNeeds(ss[j], env) && t == Reference(env)
    {
      SinkSays(ss[j], t);
    }
    if j :| 0 <= j < |ss| && SinkTexts(ss[j], t) { assert Says(vs[j], t); }
    if j, env :| 0 <= j < |ss| && SinkNeeds(ss[j], env) && t == Reference(env) { assert Says(vs[j], t); }
  }

  lemma AssembleSays(head: map<string, Value>, source: Value, middle: map<string, Value>, sinks: Value, t: string)
    requires head.Keys <= {"workers", "delay"} && middle.Keys <= {"buffer", "processor", "route"}
    ensures FieldsSay(Assemble(head, source, middle, sinks), t) <==>
            FieldsSay(head, t) || Says(source, t) || FieldsSay(middle, t) || Says(sinks, t)
  {
    var a := head + When(true, "source", source);
    PlusWhen(head, {"workers", "delay"}, true, "source", source, t);
    Plus(a, middle, {"workers", "delay", "source"}, t);
    PlusWhen(a + middle, {"workers", "delay", "source", "buffer", "processor", "route"}, true, "sink", sinks, t);
  }

  /** An entry of the document holds what the user writes, and a reference to each variable its pipeline needs. */
  lemma EntrySays(p: PipelineDefinition, topicWorkers: int32, decode: Decoder, t: string)
    requires EntryError(p, decode).None?
    ensures Says(Entry(p, topicWorkers, decode), t) <==>
            UserWrites(p, decode, t) || exists env :: PipelineNeeds(p, env) && t == Reference(env)
  {
    var head, middle := HeadFields(p, topicWorkers), MiddleFields(p, decode);
    var source, sinks := BuildSource(p.source, topicWorkers).value, List(SinkValues(p.sink));
    HeadSays(p, topicWorkers, t);
    MiddleSays(p, decode, t);
    SourceSays(p.source, topicWorkers, t);
    SinksSay(p.sink, t);
    AssembleSays(head, source, middle, sinks, t);
    TableSays(Assemble(head, source, middle, sinks), t);
  }

  ghost predicate DistinctKeys(pairs: seq<(string, Value)>) {
    forall i, j :: 0 <= i < j < |pairs| ==> pairs[i].0 != pairs[j].0
  }

  lemma AssignedSays(pairs: seq<(string, Value)>, t: string)
    ensures FieldsSay(Assigned(pairs), t) ==> exists i :: 0 <= i < |pairs| && Says(pairs[i].1, t)
    ensures DistinctKeys(pairs) && (exists i :: 0 <= i < |pairs| && Says(pairs[i].1, t)) ==>
            FieldsSay(Assigned(pairs), t)
  {
    var m := Assigned(pairs);
    if FieldsSay(m, t) {
      var k :| k in m && Says(m[k], t);
      var i := AssignedFrom(pairs, k);
    }
    if i :| 0 <= i < |pairs| && Says(pairs[i].1, t) && DistinctKeys(pairs) {
      AssignedDistinct(pairs, i);
    }
  }

  /******* References *******/

  ghost predicate SomeNeeds(ps: seq<PipelineDefinition>, env: string) {
    exists i :: 0 <= i < |ps| && PipelineNeeds(ps[i], env)
  }

  /** Some user text that reaches the document refers to `env`. */
  ghost predicate UserSpells(ps: seq<PipelineDefinition>, decode: Decoder, env: string) {
    exists i, t :: 0 <= i < |ps| && UserWrites(ps[i], decode, t) && Spells(t, env)
  }

  lemma CredentialsAreNames()
    ensures IsVarName(KAFKA_USERNAME) && IsVarName(KAFKA_PASSWORD)
    ensures IsVarName(OPENSEARCH_USERNAME) && IsVarName(OPENSEARCH_PASSWORD)
  {
  }

  lemma NeedIsCredential(p: PipelineDefinition, env: string)
    requires PipelineNeeds(p, env)
    ensures IsKafkaVar(env) || IsOpenSearchVar(env)
    ensures forall other :: Spells(Reference(env), other) <==> other == env
  {
    CredentialsAreNames();
    forall other ensures Spells(Reference(env), other) <==> other == env { SpellsOne(env, other); }
  }

  /** The document refers to `env` only if a pipeline needs it or user text refers to it and, when names are distinct,
      whenever that is so. */
  lemma ConfigRefers(ps: seq<PipelineDefinition>, topicWorkers: int32, decode: Decoder, env: string)
    requires AllGenerate(ps, decode)
    ensures var doc := Assigned(Entries(ps, topicWorkers, decode));
            && (Refers(doc, env) ==> SomeNeeds(ps, env) || UserSpells(ps, decode, env))
            && (DistinctKeys(Entries(ps, topicWorkers, decode)) && (SomeNeeds(ps, env) || UserSpells(ps, decode, env))
                ==> Refers(doc, env))
  {
    var pairs := Entries(ps, topicWorkers, decode);
    var doc := Assigned(pairs);
    if t :| FieldsSay(doc, t) && Spells(t, env) {
      AssignedSays(pairs, t);
      var i :| 0 <= i < |pairs| && Says(pairs[i].1, t);
      EntrySays(ps[i], topicWorkers, decode, t);
      if !UserWrites(ps[i], decode, t) {
        var own :| PipelineNeeds(ps[i], own) && t == Reference(own);
        NeedIsCredential(ps[i], own);
      }
    }
    if DistinctKeys(pairs) {
      if i :| 0 <= i < |ps| && PipelineNeeds(ps[i], env) {
        NeedIsCredential(ps[i], env);
        HasReference(ps, topicWorkers, decode, i, Reference(env), env);
      }
      if i, t :| 0 <= i < |ps| && UserWrites(ps[i], decode, t) && Spells(t, env) {
        HasReference(ps, topicWorkers, decode, i, t, env);
      }
    }
  }

  lemma HasReference(ps: seq<PipelineDefinition>, topicWorkers: int32, decode: Decoder, i: nat, t: string, env: string)
    requires AllGenerate(ps, decode) && DistinctKeys(Entries(ps, topicWorkers, decode)) && i < |ps|
    requires (PipelineNeeds(ps[i], env) && t == Reference(env)) || UserWrites(ps[i], decode, t)
    requires Spells(t, env)
    ensures Refers(Assigned(Entries(ps, topicWorkers, decode)), env)
  {
    var pairs := Entries(ps, topicWorkers, decode);
    EntrySays(ps[i], topicWorkers, decode, t);
    assert Says(pairs[i].1, t);
    AssignedSays(pairs, t);
  }
}
