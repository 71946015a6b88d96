/** The environment variables of the deployment and the secrets a pipeline depends on. */
module Credentials {
  import opened Api
  import opened Config
  import opened Lists
  import opened Placeholders
  import Merge

  datatype Kind = Kafka | OpenSearch | Aws

  /** A place in the spec that names a credentials secret. */
  datatype Holder = Holder(kind: Kind, secret: string)

  datatype Role = User | Password

  /** An environment variable taken from a key of `secret`. */
  datatype EnvVar = EnvVar(kind: Kind, role: Role, secret: string) {
    function Name(): string { VarName(kind, role) }

    function Key(): string {
      match (kind, role)
      case (Aws, User) => "aws_access_key_id"
      case (Aws, Password) => "aws_secret_access_key"
      case (_, User) => "username"
      case (_, Password) => "password"
    }
  }

  function VarName(kind: Kind, role: Role): string {
    match (kind, role)
    case (Kafka, User) => KAFKA_USERNAME
    case (Kafka, Password) => KAFKA_PASSWORD
    case (OpenSearch, User) => OPENSEARCH_USERNAME
    case (OpenSearch, Password) => OPENSEARCH_PASSWORD
    case (Aws, User) => "AWS_ACCESS_KEY_ID"
    case (Aws, Password) => "AWS_SECRET_ACCESS_KEY"
  }

  lemma VarNameInjective(kind: Kind, role: Role, kind': Kind, role': Role)
    ensures VarName(kind, role) == VarName(kind', role') ==> kind == kind' && role == role'
  {
    var n, n' := VarName(kind, role), VarName(kind', role');
    assert |"KAFKA_USERNAME"| == 14 && "KAFKA_USERNAME"[6] == 'U' && "KAFKA_PASSWORD"[6] == 'P';
    assert |"OPENSEARCH_USERNAME"| == 19 && "OPENSEARCH_USERNAME"[11] == 'U' && "OPENSEARCH_PASSWORD"[11] == 'P';
    assert |"AWS_ACCESS_KEY_ID"| == 17 && |"AWS_SECRET_ACCESS_KEY"| == 21;
  }

  /******* Holders in traversal order *******/

  function HolderOf(kind: Kind, ref: Option<SecretReference>): seq<Holder> {
    if ref.Some? then [Holder(kind, ref.value.name)] else []
  }

  function KafkaRef(s: Source): Option<SecretReference> { if s.kafka.Some? then s.kafka.value.credentials else None }

  function S3Ref(s: Source): Option<SecretReference> { if s.s3.Some? then s.s3.value.credentials else None }

  function KafkaSinkRef(s: Sink): Option<SecretReference> { if s.kafka.Some? then s.kafka.value.credentials else None }

  function OpenSearchRef(s: Sink): Option<SecretReference> {
    if s.openSearch.Some? then s.openSearch.value.credentials else None
  }

  function S3SinkRef(s: Sink): Option<SecretReference> { if s.s3.Some? then s.s3.value.credentials else None }

  function SourceHolders(s: Source): seq<Holder> { HolderOf(Kafka, KafkaRef(s)) + HolderOf(Aws, S3Ref(s)) }

  function SinkHolders(s: Sink): seq<Holder> {
    HolderOf(Kafka, KafkaSinkRef(s)) + HolderOf(OpenSearch, OpenSearchRef(s)) + HolderOf(Aws, S3SinkRef(s))
  }

  function SinkRows(ss: seq<Sink>): seq<seq<Holder>> {
    seq(|ss|, j requires 0 <= j < |ss| => SinkHolders(ss[j]))
  }

  function PipelineHolders(p: PipelineDefinition): seq<Holder> {
    SourceHolders(p.source) + Flatten(SinkRows(p.sink))
  }

  function HolderRows(ps: seq<PipelineDefinition>): seq<seq<Holder>> {
    seq(|ps|, i requires 0 <= i < |ps| => PipelineHolders(ps[i]))
  }

  function Holders(ps: seq<PipelineDefinition>): seq<Holder> { Flatten(HolderRows(ps)) }

  /** The first holder of `kind`. */
  function FirstHolder(hs: seq<Holder>, kind: Kind): Option<string> {
    if hs == [] then None else if hs[0].kind == kind then Some(hs[0].secret) else FirstHolder(hs[1..], kind)
  }

  lemma {:induction false} FirstHolderPlus(a: seq<Holder>, b: seq<Holder>, kind: Kind)
    ensures FirstHolder(a + b, kind) ==
            if FirstHolder(a, kind).Some? then FirstHolder(a, kind) else FirstHolder(b, kind)
  {
    if a == [] { assert a + b == b; } else {
      assert (a + b)[1..] == a[1..] + b;
      FirstHolderPlus(a[1..], b, kind);
    }
  }

  lemma {:induction false} FirstHolderIs(hs: seq<Holder>, kind: Kind)
    ensures FirstHolder(hs, kind).Some? ==> Holder(kind, FirstHolder(hs, kind).value) in hs
    ensures (exists h :: h in hs && h.kind == kind) <==> FirstHolder(hs, kind).Some?
  {
    if hs == [] {
    } else {
      FirstHolderIs(hs[1..], kind);
    }
  }

  /******* The variables *******/

  function EnvPair(kind: Kind, secret: string): seq<EnvVar> {
    [EnvVar(kind, User, secret), EnvVar(kind, Password, secret)]
  }

  /** No variable twice. */
  ghost predicate Apart(envs: seq<EnvVar>) {
    forall i, j :: 0 <= i < j < |envs| ==> envs[i].kind != envs[j].kind || envs[i].role != envs[j].role
  }

  /** What the list of variables must be: no variable twice, and for each kind exactly the two variables
      of its first holder. */
  ghost predicate IsEnvOf(envs: seq<EnvVar>, hs: seq<Holder>) {
    && Apart(envs)
    && (forall e: EnvVar :: e in envs <==> FirstHolder(hs, e.kind) == Some(e.secret))
  }

  lemma PairIs(kind: Kind, secret: string, e: EnvVar)
    ensures e in EnvPair(kind, secret) <==> e.kind == kind && e.secret == secret
  {
    var pair := EnvPair(kind, secret);
    assert e in pair <==> e == pair[0] || e == pair[1];
    match e.role { case User => case Password => }
  }

  function KindEnv(hs: seq<Holder>, kind: Kind): (r: seq<EnvVar>)
    ensures Apart(r) && forall e :: e in r ==> e.kind == kind
  {
    if FirstHolder(hs, kind).Some? then EnvPair(kind, FirstHolder(hs, kind).value) else []
  }

  lemma KindEnvIs(hs: seq<Holder>, kind: Kind, e: EnvVar)
    ensures e in KindEnv(hs, kind) <==> e.kind == kind && FirstHolder(hs, kind) == Some(e.secret)
  {
    if FirstHolder(hs, kind).Some? { PairIs(kind, FirstHolder(hs, kind).value, e); }
  }

  /** There is such a list. */
  lemma EnvExists(hs: seq<Holder>) returns (envs: seq<EnvVar>)
    ensures IsEnvOf(envs, hs)
  {
    envs := KindEnv(hs, Kafka) + KindEnv(hs, OpenSearch) + KindEnv(hs, Aws);
    forall e: EnvVar ensures e in envs <==> FirstHolder(hs, e.kind) == Some(e.secret) { EnvHas(hs, e); }
    EnvDistinct(hs);
  }

  lemma EnvHas(hs: seq<Holder>, e: EnvVar)
    ensures e in KindEnv(hs, Kafka) + KindEnv(hs, OpenSearch) + KindEnv(hs, Aws) <==>
            FirstHolder(hs, e.kind) == Some(e.secret)
  {
    KindEnvIs(hs, Kafka, e);
    KindEnvIs(hs, OpenSearch, e);
    KindEnvIs(hs, Aws, e);
    match e.kind { case Kafka => case OpenSearch => case Aws => }
  }

  lemma ApartPlus(a: seq<EnvVar>, b: seq<EnvVar>)
    requires Apart(a) && Apart(b) && forall e, f :: e in a && f in b ==> e.kind != f.kind
    ensures Apart(a + b)
  {
    forall i, j | 0 <= i < j < |a + b|
      ensures (a + b)[i].kind != (a + b)[j].kind || (a + b)[i].role != (a + b)[j].role
    {
      if i < |a| <= j { assert a[i] in a && b[j - |a|] in b; }
    }
  }

  lemma EnvDistinct(hs: seq<Holder>)
    ensures Apart(KindEnv(hs, Kafka) + KindEnv(hs, OpenSearch) + KindEnv(hs, Aws))
  {
    var a, b, c := KindEnv(hs, Kafka), KindEnv(hs, OpenSearch), KindEnv(hs, Aws);
    ApartPlus(a, b);
    assert forall e: EnvVar :: e in a + b ==> e.kind != Aws;
    ApartPlus(a + b, c);
  }

  /** The three flags of the traversal. */
  datatype Found = Found(kafka: bool, openSearch: bool, aws: bool) {
    function Has(kind: Kind): bool {
      match kind case Kafka => kafka case OpenSearch => openSearch case Aws => aws
    }
    function With(kind: Kind): Found {
      match kind
      case Kafka => this.(kafka := true)
      case OpenSearch => this.(openSearch := true)
      case Aws => this.(aws := true)
    }
    predicate All() { kafka && openSearch && aws }
  }

  ghost predicate Tracks(found: Found, envs: seq<EnvVar>, hs: seq<Holder>) {
    IsEnvOf(envs, hs) && forall kind: Kind :: found.Has(kind) <==> FirstHolder(hs, kind).Some?
  }

  lemma FirstWithOne(hs: seq<Holder>, kind: Kind, ref: Option<SecretReference>, k: Kind)
    ensures FirstHolder(hs + HolderOf(kind, ref), k) ==
            if FirstHolder(hs, k).Some? then FirstHolder(hs, k)
            else if ref.Some? && k == kind then Some(ref.value.name) else None
  {
    var one := HolderOf(kind, ref);
    FirstHolderPlus(hs, one, k);
    if ref.Some? { assert one[1..] == []; }
  }

  /** One guarded append of the traversal. */
  method Visit(kind: Kind, ref: Option<SecretReference>, envs: seq<EnvVar>, found: Found, ghost hs: seq<Holder>)
    returns (envs': seq<EnvVar>, found': Found)
    requires Tracks(found, envs, hs)
    ensures Tracks(found', envs', hs + HolderOf(kind, ref))
  {
    envs', found' := envs, found;
    forall k: Kind
      ensures FirstHolder(hs + HolderOf(kind, ref), k) ==
              (if FirstHolder(hs, k).Some? then FirstHolder(hs, k)
               else if ref.Some? && k == kind then Some(ref.value.name) else None)
    {
      FirstWithOne(hs, kind, ref, k);
    }
    if !found.Has(kind) && ref.Some? {
      ghost var pair := EnvPair(kind, ref.value.name);
      envs', found' := envs + EnvPair(kind, ref.value.name), found.With(kind);
      assert forall e :: e in envs ==> e.kind != kind;
      assert forall e :: e in envs' <==> e in envs || e in pair;
      forall e: EnvVar ensures e in pair <==> e.kind == kind && e.secret == ref.value.name {
        PairIs(kind, ref.value.name, e);
      }
      ApartPlus(envs, pair);
    }
  }

  /** Once every kind is found, further holders change nothing. */
  lemma AllFound(found: Found, envs: seq<EnvVar>, hs: seq<Holder>, more: seq<Holder>)
    requires Tracks(found, envs, hs) && found.All() && hs <= more
    ensures Tracks(found, envs, more)
  {
    assert more == hs + more[|hs|..];
    forall k: Kind ensures FirstHolder(more, k) == FirstHolder(hs, k) {
      FirstHolderPlus(hs, more[|hs|..], k);
      assert found.Has(k);
    }
  }

  method VisitSink(s: Sink, envs: seq<EnvVar>, found: Found, ghost hs: seq<Holder>)
    returns (envs': seq<EnvVar>, found': Found)
    requires Tracks(found, envs, hs)
    ensures Tracks(found', envs', hs + SinkHolders(s))
  {
    ghost var a, b := HolderOf(Kafka, KafkaSinkRef(s)), HolderOf(OpenSearch, OpenSearchRef(s));
    ghost var c := HolderOf(Aws, S3SinkRef(s));
    envs', found' := Visit(Kafka, KafkaSinkRef(s), envs, found, hs);
    envs', found' := Visit(OpenSearch, OpenSearchRef(s), envs', found', hs + a);
    envs', found' := Visit(Aws, S3SinkRef(s), envs', found', hs + a + b);
    assert hs + a + b + c == hs + (a + b + c);
  }

  method VisitSinks(ss: seq<Sink>, envs: seq<EnvVar>, found: Found, ghost hs: seq<Holder>)
    returns (envs': seq<EnvVar>, found': Found)
    requires Tracks(found, envs, hs)
    ensures Tracks(found', envs', hs + Flatten(SinkRows(ss)))
  {
    envs', found' := envs, found;
    ghost var rows := SinkRows(ss);
    ghost var seen := hs;
    for j := 0 to |ss|
      invariant Tracks(found', envs', seen) && seen == hs + Flatten(rows[..j])
    {
      envs', found' := VisitSink(ss[j], envs', found', seen);
      seen := seen + SinkHolders(ss[j]);
      FlattenUpTo(rows, j);
      if found'.All() {
        FlattenPrefix(rows, j + 1);
        AllFound(found', envs', seen, hs + Flatten(rows));
        return;
      }
    }
    assert rows[..|ss|] == rows;
  }

  /** The variable `name` is taken from `key` of the given secret, or not set if there is none. */
  ghost predicate SetFrom(envs: seq<EnvVar>, name: string, secret: Option<string>, key: string) {
    if secret.Some? then exists e :: e in envs && e.Name() == name && e.secret == secret.value && e.Key() == key
    else forall e :: e in envs ==> e.Name() != name
  }

  lemma EnvIsSetFrom(envs: seq<EnvVar>, hs: seq<Holder>, e: EnvVar)
    requires IsEnvOf(envs, hs)
    ensures SetFrom(envs, e.Name(), FirstHolder(hs, e.kind), e.Key())
  {
    var secret := FirstHolder(hs, e.kind);
    if secret.Some? {
      var set_ := EnvVar(e.kind, e.role, secret.value);
      assert set_ in envs && set_.Name() == e.Name() && set_.Key() == e.Key();
    } else {
      forall f | f in envs ensures f.Name() != e.Name() { VarNameInjective(f.kind, f.role, e.kind, e.role); }
    }
  }

  /** The early exits of the traversal lose nothing: each variable comes from its own key of the first holder. */
  method CredentialEnvVars(ps: seq<PipelineDefinition>) returns (envs: seq<EnvVar>)
    ensures IsEnvOf(envs, Holders(ps))
    ensures SetFrom(envs, "KAFKA_USERNAME", FirstHolder(Holders(ps), Kafka), "username")
    ensures SetFrom(envs, "KAFKA_PASSWORD", FirstHolder(Holders(ps), Kafka), "password")
    ensures SetFrom(envs, "OPENSEARCH_USERNAME", FirstHolder(Holders(ps), OpenSearch), "username")
    ensures SetFrom(envs, "OPENSEARCH_PASSWORD", FirstHolder(Holders(ps), OpenSearch), "password")
    ensures SetFrom(envs, "AWS_ACCESS_KEY_ID", FirstHolder(Holders(ps), Aws), "aws_access_key_id")
    ensures SetFrom(envs, "AWS_SECRET_ACCESS_KEY", FirstHolder(Holders(ps), Aws), "aws_secret_access_key")
  {
    envs := CollectEnvVars(ps);
    EnvIsSetFrom(envs, Holders(ps), EnvVar(Kafka, User, ""));
    EnvIsSetFrom(envs, Holders(ps), EnvVar(Kafka, Password, ""));
    EnvIsSetFrom(envs, Holders(ps), EnvVar(OpenSearch, User, ""));
    EnvIsSetFrom(envs, Holders(ps), EnvVar(OpenSearch, Password, ""));
    EnvIsSetFrom(envs, Holders(ps), EnvVar(Aws, User, ""));
    EnvIsSetFrom(envs, Holders(ps), EnvVar(Aws, Password, ""));
  }

  method CollectEnvVars(ps: seq<PipelineDefinition>) returns (envs: seq<EnvVar>)
    ensures IsEnvOf(envs, Holders(ps))
  {
    envs := [];
    var found := Found(false, false, false);
    ghost var rows := HolderRows(ps);
    for i := 0 to |ps|
      invariant Tracks(found, envs, Flatten(rows[..i]))
    {
      var p := ps[i];
      ghost var hs := Flatten(rows[..i]);
      ghost var a, b := HolderOf(Kafka, KafkaRef(p.source)), HolderOf(Aws, S3Ref(p.source));
      envs, found := Visit(Kafka, KafkaRef(p.source), envs, found, hs);
      envs, found := Visit(Aws, S3Ref(p.source), envs, found, hs + a);
      envs, found := VisitSinks(p.sink, envs, found, hs + a + b);
      FlattenUpTo(rows, i);
      assert hs + a + b + Flatten(SinkRows(p.sink)) == Flatten(rows[..i + 1]);
      if found.All() {
        FlattenPrefix(rows, i + 1);
        AllFound(found, envs, Flatten(rows[..i + 1]), Flatten(rows));
        return;
      }
    }
    assert rows[..|ps|] == rows;
  }

  /** The variables are determined up to order, and their names are pairwise different. */
  lemma EnvNamesUnique(envs: seq<EnvVar>, hs: seq<Holder>)
    requires IsEnvOf(envs, hs)
    ensures forall i, j :: 0 <= i < j < |envs| ==> envs[i].Name() != envs[j].Name()
  {
    forall i, j | 0 <= i < j < |envs| ensures envs[i].Name() != envs[j].Name() {
      VarNameInjective(envs[i].kind, envs[i].role, envs[j].kind, envs[j].role);
    }
  }

  /******* Secrets *******/

  function NameOf(ref: Option<SecretReference>): seq<string> {
    if ref.Some? then [ref.value.name] else []
  }

  function SinkSecrets(s: Sink): seq<string> {
    NameOf(OpenSearchRef(s)) + NameOf(S3SinkRef(s)) + NameOf(KafkaSinkRef(s))
  }

  function SecretRows(ss: seq<Sink>): seq<seq<string>> {
    seq(|ss|, j requires 0 <= j < |ss| => SinkSecrets(ss[j]))
  }

  function PipelineSecrets(p: PipelineDefinition): seq<string> {
    NameOf(KafkaRef(p.source)) + NameOf(S3Ref(p.source)) + Flatten(SecretRows(p.sink))
  }

  function NameRows(ps: seq<PipelineDefinition>): seq<seq<string>> {
    seq(|ps|, i requires 0 <= i < |ps| => PipelineSecrets(ps[i]))
  }

  /** Every credentials secret named in the spec, in the order in which the code meets them. */
  function SecretNames(ps: seq<PipelineDefinition>): seq<string> { Flatten(NameRows(ps)) }

  /** The same, without repetitions. */
  function SecretList(ps: seq<PipelineDefinition>): seq<string> { AppendNew([], SecretNames(ps)) }

  /** One guarded append of the traversal. */
  method Note(ref: Option<SecretReference>, refs: seq<string>, seen: set<string>)
    returns (refs': seq<string>, seen': set<string>)
    requires forall x :: x in seen <==> x in refs
    ensures refs' == AppendNew(refs, NameOf(ref)) && forall x :: x in seen' <==> x in refs'
  {
    refs', seen' := refs, seen;
    if ref.Some? {
      assert NameOf(ref)[..0] == [];
      if ref.value.name !in seen { refs', seen' := refs + [ref.value.name], seen + {ref.value.name}; }
    }
  }

  method NoteSink(s: Sink, refs: seq<string>, seen: set<string>)
    returns (refs': seq<string>, seen': set<string>)
    requires forall x :: x in seen <==> x in refs
    ensures refs' == AppendNew(refs, SinkSecrets(s)) && forall x :: x in seen' <==> x in refs'
  {
    refs', seen' := Note(OpenSearchRef(s), refs, seen);
    refs', seen' := Note(S3SinkRef(s), refs', seen');
    refs', seen' := Note(KafkaSinkRef(s), refs', seen');
    AppendNewPlus(refs, NameOf(OpenSearchRef(s)), NameOf(S3SinkRef(s)));
    AppendNewPlus(refs, NameOf(OpenSearchRef(s)) + NameOf(S3SinkRef(s)), NameOf(KafkaSinkRef(s)));
  }

  method NoteSinks(ss: seq<Sink>, refs: seq<string>, seen: set<string>)
    returns (refs': seq<string>, seen': set<string>)
    requires forall x :: x in seen <==> x in refs
    ensures refs' == AppendNew(refs, Flatten(SecretRows(ss))) && forall x :: x in seen' <==> x in refs'
  {
    refs', seen' := refs, seen;
    ghost var rows := SecretRows(ss);
    for j := 0 to |ss|
      invariant refs' == AppendNew(refs, Flatten(rows[..j]))
      invariant forall x :: x in seen' <==> x in refs'
    {
      refs', seen' := NoteSink(ss[j], refs', seen');
      FlattenUpTo(rows, j);
      AppendNewPlus(refs, Flatten(rows[..j]), rows[j]);
    }
    assert rows[..|ss|] == rows;
  }

  /** The secrets in order of first occurrence, each once. */
  method ReferencedSecrets(ps: seq<PipelineDefinition>) returns (refs: seq<string>)
    ensures refs == SecretList(ps) && NoRepeats(refs)
    ensures forall name :: name in refs <==> exists i :: 0 <= i < |ps| && PipelineNames(ps[i], name)
  {
    var seen: set<string> := {};
    refs := [];
    ghost var rows := NameRows(ps);
    for i := 0 to |ps|
      invariant refs == AppendNew([], Flatten(rows[..i]))
      invariant forall x :: x in seen <==> x in refs
    {
      ghost var before := refs;
      refs, seen := Note(KafkaRef(ps[i].source), refs, seen);
      refs, seen := Note(S3Ref(ps[i].source), refs, seen);
      refs, seen := NoteSinks(ps[i].sink, refs, seen);
      AppendPipeline(before, ps[i]);
      FlattenUpTo(rows, i);
      AppendNewPlus([], Flatten(rows[..i]), rows[i]);
    }
    assert rows[..|ps|] == rows;
    AppendNewSet([], SecretNames(ps));
    forall name ensures name in refs <==> exists i :: 0 <= i < |ps| && PipelineNames(ps[i], name) {
      SecretNamesAre(ps, name);
    }
  }

  lemma SecretNamesAre(ps: seq<PipelineDefinition>, name: string)
    ensures name in SecretNames(ps) <==> exists i :: 0 <= i < |ps| && PipelineNames(ps[i], name)
  {
    if name in SecretNames(ps) { var i := SecretNameHasPlace(ps, name); }
    if i :| 0 <= i < |ps| && PipelineNames(ps[i], name) { PlaceIsSecretName(ps, i, name); }
  }

  lemma AppendPipeline(refs: seq<string>, p: PipelineDefinition)
    ensures AppendNew(refs, PipelineSecrets(p)) ==
            AppendNew(AppendNew(AppendNew(refs, NameOf(KafkaRef(p.source))), NameOf(S3Ref(p.source))),
                      Flatten(SecretRows(p.sink)))
  {
    AppendNewPlus(refs, NameOf(KafkaRef(p.source)), NameOf(S3Ref(p.source)));
    AppendNewPlus(refs, NameOf(KafkaRef(p.source)) + NameOf(S3Ref(p.source)), Flatten(SecretRows(p.sink)));
  }

  /******* Membership, place by place *******/

  ghost predicate Names(ref: Option<SecretReference>, name: string) { ref.Some? && ref.value.name == name }

  ghost predicate SinkNames(s: Sink, name: string) {
    || (s.openSearch.Some? && Names(s.openSearch.value.credentials, name))
    || (s.s3.Some? && Names(s.s3.value.credentials, name))
    || (s.kafka.Some? && Names(s.kafka.value.credentials, name))
  }

  ghost predicate PipelineNames(p: PipelineDefinition, name: string) {
    || (p.source.kafka.Some? && Names(p.source.kafka.value.credentials, name))
    || (p.source.s3.Some? && Names(p.source.s3.value.credentials, name))
    || exists j :: 0 <= j < |p.sink| && SinkNames(p.sink[j], name)
  }

  lemma SecretNameHasPlace(ps: seq<PipelineDefinition>, name: string) returns (i: nat)
    requires name in SecretNames(ps)
    ensures i < |ps| && PipelineNames(ps[i], name)
  {
    i := FlattenFrom(NameRows(ps), name);
    PipelineSecretsMember(ps[i], name);
  }

  lemma PipelineSecretsMember(p: PipelineDefinition, name: string)
    ensures name in PipelineSecrets(p) ==> PipelineNames(p, name)
  {
    if name in Flatten(SecretRows(p.sink)) {
      var j := FlattenFrom(SecretRows(p.sink), name);
      SinkSecretsMember(p.sink[j], name);
    }
  }

  lemma SinkSecretsMember(s: Sink, name: string)
    ensures name in SinkSecrets(s) <==> SinkNames(s, name)
  {
  }

  lemma PlaceIsSecretName(ps: seq<PipelineDefinition>, i: nat, name: string)
    requires i < |ps| && PipelineNames(ps[i], name)
    ensures name in SecretNames(ps)
  {
    var p := ps[i];
    if j :| 0 <= j < |p.sink| && SinkNames(p.sink[j], name) {
      SinkSecretsMember(p.sink[j], name);
      FlattenHas(SecretRows(p.sink), j, name);
    }
    assert name in PipelineSecrets(p);
    FlattenHas(NameRows(ps), i, name);
  }

  ghost predicate SinkHolds(s: Sink, h: Holder) {
    match h.kind
    case Kafka => s.kafka.Some? && Names(s.kafka.value.credentials, h.secret)
    case OpenSearch => s.openSearch.Some? && Names(s.openSearch.value.credentials, h.secret)
    case Aws => s.s3.Some? && Names(s.s3.value.credentials, h.secret)
  }

  ghost predicate PipelineHolds(p: PipelineDefinition, h: Holder) {
    || (h.kind == Kafka && p.source.kafka.Some? && Names(p.source.kafka.value.credentials, h.secret))
    || (h.kind == Aws && p.source.s3.Some? && Names(p.source.s3.value.credentials, h.secret))
    || exists j :: 0 <= j < |p.sink| && SinkHolds(p.sink[j], h)
  }

  lemma HolderHasPlace(ps: seq<PipelineDefinition>, h: Holder) returns (i: nat)
    requires h in Holders(ps)
    ensures i < |ps| && PipelineHolds(ps[i], h)
  {
    i := FlattenFrom(HolderRows(ps), h);
    PipelineHoldersMember(ps[i], h);
  }

  lemma PipelineHoldersMember(p: PipelineDefinition, h: Holder)
    ensures h in PipelineHolders(p) ==> PipelineHolds(p, h)
  {
    if h in Flatten(SinkRows(p.sink)) {
      var j := FlattenFrom(SinkRows(p.sink), h);
      SinkHoldersMember(p.sink[j], h);
    }
  }

  lemma SinkHoldersMember(s: Sink, h: Holder)
    ensures h in SinkHolders(s) <==> SinkHolds(s, h)
  {
  }

  lemma PlaceIsHolder(ps: seq<PipelineDefinition>, i: nat, h: Holder)
    requires i < |ps| && PipelineHolds(ps[i], h)
    ensures h in Holders(ps)
  {
    var p := ps[i];
    if j :| 0 <= j < |p.sink| && SinkHolds(p.sink[j], h) {
      SinkHoldersMember(p.sink[j], h);
      FlattenHas(SinkRows(p.sink), j, h);
    }
    assert h in PipelineHolders(p);
    FlattenHas(HolderRows(ps), i, h);
  }

  /******* Closure *******/

  /** Every variable's secret is one of the pipeline's referenced secrets. */
  lemma EnvSecretsReferenced(ps: seq<PipelineDefinition>, envs: seq<EnvVar>, e: EnvVar)
    requires IsEnvOf(envs, Holders(ps)) && e in envs
    ensures e.secret in SecretList(ps)
  {
    FirstHolderIs(Holders(ps), e.kind);
    var i := HolderHasPlace(ps, Holder(e.kind, e.secret));
    assert PipelineNames(ps[i], e.secret) by {
      if j :| 0 <= j < |ps[i].sink| && SinkHolds(ps[i].sink[j], Holder(e.kind, e.secret)) {
        assert SinkNames(ps[i].sink[j], e.secret);
      }
    }
    PlaceIsSecretName(ps, i, e.secret);
    AppendNewSet([], SecretNames(ps));
  }

  /** A pipeline that needs a variable holds a secret for it. */
  lemma NeedIsHeld(p: PipelineDefinition, env: string) returns (kind: Kind, role: Role, secret: string)
    requires PipelineNeeds(p, env)
    ensures VarName(kind, role) == env && PipelineHolds(p, Holder(kind, secret))
  {
    kind := if IsKafkaVar(env) then Kafka else OpenSearch;
    role := if env == KAFKA_USERNAME || env == OPENSEARCH_USERNAME then User else Password;
    if SourceNeeds(p.source, env) {
      secret := p.source.kafka.value.credentials.value.name;
    } else {
      var j :| 0 <= j < |p.sink| && SinkNeeds(p.sink[j], env);
      secret := if p.sink[j].openSearch.Some? then p.sink[j].openSearch.value.credentials.value.name
                else p.sink[j].kafka.value.credentials.value.name;
      assert SinkHolds(p.sink[j], Holder(kind, secret)) by {
        if p.sink[j].openSearch.Some? { VarsApart(env); }
      }
    }
  }

  lemma VarsApart(env: string)
    ensures !(IsKafkaVar(env) && IsOpenSearchVar(env))
  {
    VarNameInjective(Kafka, User, OpenSearch, User);
    VarNameInjective(Kafka, User, OpenSearch, Password);
    VarNameInjective(Kafka, Password, OpenSearch, User);
    VarNameInjective(Kafka, Password, OpenSearch, Password);
  }

  /** A variable that some pipeline needs is set exactly once, from the first holder of its kind. */
  lemma NeedIsSet(ps: seq<PipelineDefinition>, envs: seq<EnvVar>, env: string) returns (e: EnvVar)
    requires IsEnvOf(envs, Holders(ps)) && SomeNeeds(ps, env)
    ensures e in envs && e.Name() == env
    ensures FirstHolder(Holders(ps), e.kind) == Some(e.secret)
  {
    var i :| 0 <= i < |ps| && PipelineNeeds(ps[i], env);
    var kind, role, secret := NeedIsHeld(ps[i], env);
    PlaceIsHolder(ps, i, Holder(kind, secret));
    FirstHolderIs(Holders(ps), kind);
    e := EnvVar(kind, role, FirstHolder(Holders(ps), kind).value);
  }

  lemma SameNameSameVar(envs: seq<EnvVar>, hs: seq<Holder>, e: EnvVar, e': EnvVar)
    requires IsEnvOf(envs, hs) && e in envs && e' in envs && e.Name() == e'.Name()
    ensures e == e'
  {
    VarNameInjective(e.kind, e.role, e'.kind, e'.role);
  }

  /** Some variable of this name is set in the pods. */
  ghost predicate IsSet(envs: seq<EnvVar>, env: string) { exists e :: e in envs && e.Name() == env }

  /** The name is that of a credential variable, and the spec has a holder of its kind. */
  ghost predicate HasHolder(ps: seq<PipelineDefinition>, env: string) {
    exists h, role :: h in Holders(ps) && VarName(h.kind, role) == env
  }

  lemma SetIffHeld(ps: seq<PipelineDefinition>, envs: seq<EnvVar>, env: string)
    requires IsEnvOf(envs, Holders(ps))
    ensures IsSet(envs, env) <==> HasHolder(ps, env)
  {
    if e :| e in envs && e.Name() == env {
      FirstHolderIs(Holders(ps), e.kind);
      assert VarName(Holder(e.kind, e.secret).kind, e.role) == env;
    }
    if h, role :| h in Holders(ps) && VarName(h.kind, role) == env {
      FirstHolderIs(Holders(ps), h.kind);
      assert EnvVar(h.kind, role, FirstHolder(Holders(ps), h.kind).value) in envs;
    }
  }

  /** Credential closure. For every list of pipelines that can be generated, admitted or not: each variable the document
      refers to is set exactly once, from the secret of the first holder of its kind, and that secret is among the
      referenced ones, unless user text refers to a variable without a holder. */
  lemma CredentialClosure(ps: seq<PipelineDefinition>, topicWorkers: int32, decode: Decoder, envs: seq<EnvVar>,
                          env: string)
    returns (e: EnvVar)
    requires AllGenerate(ps, decode) && IsEnvOf(envs, Holders(ps))
    requires Refers(Assigned(Entries(ps, topicWorkers, decode)), env)
    requires UserSpells(ps, decode, env) ==> HasHolder(ps, env)
    ensures e in envs && e.Name() == env
    ensures forall e' :: e' in envs && e'.Name() == env ==> e' == e
    ensures FirstHolder(Holders(ps), e.kind) == Some(e.secret)
    ensures e.secret in SecretList(ps)
  {
    ConfigRefers(ps, topicWorkers, decode, env);
    if SomeNeeds(ps, env) {
      e := NeedIsSet(ps, envs, env);
    } else {
      SetIffHeld(ps, envs, env);
      e :| e in envs && e.Name() == env;
    }
    forall e' | e' in envs && e'.Name() == env ensures e' == e { SameNameSameVar(envs, Holders(ps), e, e'); }
    EnvSecretsReferenced(ps, envs, e);
  }

  /** The exact condition: every variable the document refers to is set if and only if each one that user text refers to
      has a holder of its kind. */
  lemma ClosureIff(ps: seq<PipelineDefinition>, topicWorkers: int32, decode: Decoder, envs: seq<EnvVar>)
    requires AllGenerate(ps, decode) && IsEnvOf(envs, Holders(ps)) && DistinctKeys(Entries(ps, topicWorkers, decode))
    ensures (forall env :: Refers(Assigned(Entries(ps, topicWorkers, decode)), env) ==> IsSet(envs, env)) <==>
            (forall env :: UserSpells(ps, decode, env) ==> HasHolder(ps, env))
  {
    var doc := Assigned(Entries(ps, topicWorkers, decode));
    if forall env :: Refers(doc, env) ==> IsSet(envs, env) {
      forall env | UserSpells(ps, decode, env) ensures HasHolder(ps, env) {
        ConfigRefers(ps, topicWorkers, decode, env);
        SetIffHeld(ps, envs, env);
      }
    }
    if forall env :: UserSpells(ps, decode, env) ==> HasHolder(ps, env) {
      forall env | Refers(doc, env) ensures IsSet(envs, env) {
        var e := CredentialClosure(ps, topicWorkers, decode, envs, env);
      }
    }
  }

  const SPELLING := PipelineDefinition(
    "p", 0, 0, Source(None, Some(HttpSource(80, Reference(KAFKA_USERNAME))), None, None, None),
    None, [], [], [Sink(None, None, None, None, true)])

  /** Closure fails for text typed by a user: this pipeline refers to a Kafka variable, and none is set. */
  lemma UserTextUnset(decode: Decoder)
    ensures AllGenerate([SPELLING], decode) && IsEnvOf([], Holders([SPELLING]))
    ensures Refers(Assigned(Entries([SPELLING], 0, decode)), KAFKA_USERNAME)
  {
    assert SPELLING.sink[0].stdout;
    assert Flatten(SinkRows(SPELLING.sink)) == [] by { assert SinkRows(SPELLING.sink) == [[]]; }
    assert HolderRows([SPELLING]) == [[]];
    assert Holders([SPELLING]) == [];
    assert UserWrites(SPELLING, decode, Reference(KAFKA_USERNAME));
    assert [SPELLING][0] == SPELLING;
    CredentialsAreNames();
    SpellsOne(KAFKA_USERNAME, KAFKA_USERNAME);
    HasReference([SPELLING], 0, decode, 0, Reference(KAFKA_USERNAME), KAFKA_USERNAME);
  }

  const BOTH := Reference(KAFKA_USERNAME) + ":" + Reference(KAFKA_PASSWORD)

  function Quoting(secret: SecretReference): PipelineDefinition {
    var kafka := KafkaSource(["b:9092"], "t", "g", Some(secret), map["login" := BOTH], "");
    PipelineDefinition("p", 0, 0, Source(Some(kafka), None, None, None, None), None, [], [],
                       [Sink(None, None, None, None, true)])
  }

  lemma QuotedTexts(secret: SecretReference, decode: Decoder, env: string)
    ensures UserSpells([Quoting(secret)], decode, env) ==> IsKafkaVar(env)
  {
    var p := Quoting(secret);
    assert [p][0] == p;
    if i, t :| 0 <= i < 1 && UserWrites([p][i], decode, t) && Spells(t, env) {
      assert MergedRoutes(p.routes) == map[] && SinkTexts(p.sink[0], t) == false;
      assert SourceTexts(p.source, t);
      QuotedText(t, env);
    }
  }

  lemma QuotedText(t: string, env: string)
    requires (t in ["b:9092", "t", "g", BOTH]) && Spells(t, env)
    ensures IsKafkaVar(env)
  {
    if t == BOTH {
      CredentialsAreNames();
      SpellsTwo(KAFKA_USERNAME, ":", KAFKA_PASSWORD, env);
    } else {
      assert t + "" == t;
      SkipPlain(t, "", env);
    }
  }

  /** One text with two references is no exception: with a holder both variables are set, and the document is closed. */
  lemma TwoReferencesClosed(secret: SecretReference, decode: Decoder, envs: seq<EnvVar>, env: string)
    requires IsEnvOf(envs, Holders([Quoting(secret)]))
    ensures AllGenerate([Quoting(secret)], decode)
    ensures Refers(Assigned(Entries([Quoting(secret)], 0, decode)), env) <==> IsKafkaVar(env)
    ensures Refers(Assigned(Entries([Quoting(secret)], 0, decode)), env) ==> IsSet(envs, env)
  {
    var p := Quoting(secret);
    assert [p][0] == p && p.sink[0].stdout;
    QuotedTexts(secret, decode, env);
    ConfigRefers([p], 0, decode, env);
    if IsKafkaVar(env) {
      assert PipelineNeeds(p, env);
      var e := NeedIsSet([p], envs, env);
    }
    assert !SinkNeeds(p.sink[0], env);
  }

  /******* Defaults and secrets *******/

  /** Merging `d` puts the secret `name` into `p`: a default reference where `p` has the member without one. */
  ghost predicate Injects(d: Defaults, p: PipelineDefinition, name: string) {
    || (d.kafka.Some? && Names(d.kafka.value.credentials, name)
        && p.source.kafka.Some? && p.source.kafka.value.credentials.None?)
    || exists j :: 0 <= j < |p.sink| && InjectsSink(d, p.sink[j], name)
  }

  ghost predicate InjectsSink(d: Defaults, s: Sink, name: string) {
    && d.sink.Some? && d.sink.value.openSearch.Some? && Names(d.sink.value.openSearch.value.credentials, name)
    && s.openSearch.Some? && s.openSearch.value.credentials.None?
  }

  lemma MergedPipelineNames(d: Defaults, p: PipelineDefinition, name: string)
    ensures PipelineNames(Merge.MergedPipeline(d, p), name) <==> PipelineNames(p, name) || Injects(d, p, name)
  {
    var m := Merge.MergedPipeline(d, p);
    forall j | 0 <= j < |p.sink|
      ensures SinkNames(m.sink[j], name) <==> SinkNames(p.sink[j], name) || InjectsSink(d, p.sink[j], name)
    {
    }
    if j :| 0 <= j < |p.sink| && (SinkNames(p.sink[j], name) || InjectsSink(d, p.sink[j], name)) {
      assert SinkNames(m.sink[j], name);
    }
    if j :| 0 <= j < |m.sink| && SinkNames(m.sink[j], name) {
      assert SinkNames(p.sink[j], name) || InjectsSink(d, p.sink[j], name);
    }
  }

  /** Merging keeps every referenced secret and adds exactly the defaults' secrets, where they are injected. */
  lemma MergedSecrets(d: Defaults, s: PipelineSpec, name: string)
    ensures name in SecretNames(Merge.Merged(Some(d), s).pipelines) <==>
            name in SecretNames(s.pipelines) || exists i :: 0 <= i < |s.pipelines| && Injects(d, s.pipelines[i], name)
  {
    var ps, ms := s.pipelines, Merge.Merged(Some(d), s).pipelines;
    assert |ms| == |ps| && forall i :: 0 <= i < |ps| ==> ms[i] == Merge.MergedPipeline(d, ps[i]);
    if name in SecretNames(ms) {
      var i := SecretNameHasPlace(ms, name);
      MergedPipelineNames(d, ps[i], name);
      if !Injects(d, ps[i], name) { PlaceIsSecretName(ps, i, name); }
    }
    if name in SecretNames(ps) {
      var i := SecretNameHasPlace(ps, name);
      MergedPipelineNames(d, ps[i], name);
      PlaceIsSecretName(ms, i, name);
    } else if i :| 0 <= i < |ps| && Injects(d, ps[i], name) {
      MergedPipelineNames(d, ps[i], name);
      PlaceIsSecretName(ms, i, name);
    }
  }
}
