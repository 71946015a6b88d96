/** Rendering a discovered source's spec: template, overrides, and the discovery's own Kafka settings. Overrides
    are shared between sources and their Kafka sources are filled in place. */
module Render {
  import opened Api
  import opened Cells
  import opened Discovery
  import opened DiscoveryCycle

  datatype KafkaDiscovery = KafkaDiscovery(
    bootstrapServers: seq<string>,
    credentials: Option<SecretReference>,
    encryptionType: string)

  datatype Override<S> = Override(pattern: string, spec: S)

  /** Rendering the template text and matching a shell pattern are parameters; a malformed pattern gives `None`. */
  type Template = DiscoveredSource -> Option<PipelineSpec>
  type Matcher = (string, string) -> Option<bool>

  /******* Rendering on values *******/

  function OrText(v: string, other: string): string { if v != "" then v else other }

  function Overlay(base: PipelineSpec, o: PipelineSpec): PipelineSpec {
    PipelineSpec(
      OrText(o.image, base.image),
      OrText(o.imagePullPolicy, base.imagePullPolicy),
      if o.pipelines != [] then o.pipelines else base.pipelines,
      OrElse(o.scaling, base.scaling),
      OrElse(o.resources, base.resources),
      OrElse(o.dataPrepperConfig, base.dataPrepperConfig),
      OrElse(o.serviceMonitor, base.serviceMonitor),
      base.podAnnotations + o.podAnnotations,
      base.podLabels + o.podLabels,
      base.nodeSelector + o.nodeSelector,
      base.podExtras)
  }

  function Overlaid(base: PipelineSpec, matcher: Matcher, os: seq<Override<PipelineSpec>>, name: string): PipelineSpec {
    if os == [] then base
    else
      var before := Overlaid(base, matcher, os[..|os| - 1], name);
      var last := os[|os| - 1];
      if matcher(last.pattern, name) == Some(true) then Overlay(before, last.spec) else before
  }

  function Fill(kd: KafkaDiscovery, k: KafkaSource): KafkaSource {
    k.(bootstrapServers := if k.bootstrapServers == [] then kd.bootstrapServers else k.bootstrapServers,
       credentials := OrElse(k.credentials, kd.credentials),
       encryptionType := OrText(k.encryptionType, kd.encryptionType))
  }

  function InheritOne(kd: Option<KafkaDiscovery>, p: PipelineDefinition): PipelineDefinition {
    if kd.Some? && p.source.kafka.Some?
    then p.(source := p.source.(kafka := Some(Fill(kd.value, p.source.kafka.value))))
    else p
  }

  function InheritAll(kd: Option<KafkaDiscovery>, ps: seq<PipelineDefinition>): seq<PipelineDefinition> {
    seq(|ps|, i requires 0 <= i < |ps| => InheritOne(kd, ps[i]))
  }

  function Inherited(kd: Option<KafkaDiscovery>, s: PipelineSpec): PipelineSpec {
    s.(pipelines := InheritAll(kd, s.pipelines))
  }

  /** The renderer that copies everything it uses. */
  function Copying(template: Template, matcher: Matcher, os: seq<Override<PipelineSpec>>,
                   kd: Option<KafkaDiscovery>): Renderer {
    (s: DiscoveredSource) =>
      if template(s).None? then None
      else Some(Inherited(kd, Overlaid(template(s).value, matcher, os, s.name)))
  }

  /******* The last matching override decides *******/

  function LastOf<T>(picks: seq<Option<T>>, base: T): T {
    if picks == [] then base
    else if picks[|picks| - 1].Some? then picks[|picks| - 1].value
    else LastOf(picks[..|picks| - 1], base)
  }

  /** What the matching overrides set, by `pick`; the others set nothing. */
  function Picks<T>(matcher: Matcher, os: seq<Override<PipelineSpec>>, name: string,
                    pick: PipelineSpec -> Option<T>): seq<Option<T>> {
    seq(|os|, i requires 0 <= i < |os| =>
      if matcher(os[i].pattern, name) == Some(true) then pick(os[i].spec) else None)
  }

  /** `pick` sets one field of the spec and `get` reads it. */
  lemma {:induction false} FieldIsLast<T>(base: PipelineSpec, matcher: Matcher, os: seq<Override<PipelineSpec>>,
                                          name: string,
                                          get: PipelineSpec -> T, pick: PipelineSpec -> Option<T>)
    requires forall b, o {:trigger get(Overlay(b, o))} ::
               get(Overlay(b, o)) == if pick(o).Some? then pick(o).value else get(b)
    ensures get(Overlaid(base, matcher, os, name)) == LastOf(Picks(matcher, os, name, pick), get(base))
  {
    if os == [] {
    } else {
      var init := os[..|os| - 1];
      FieldIsLast(base, matcher, init, name, get, pick);
      assert Picks(matcher, os, name, pick)[..|os| - 1] == Picks(matcher, init, name, pick);
    }
  }

  lemma {:induction false} LastOfIs<T>(picks: seq<Option<T>>, base: T)
    ensures (LastOf(picks, base) == base && forall k :: 0 <= k < |picks| ==> picks[k].None?) ||
            (exists j :: 0 <= j < |picks| && picks[j] == Some(LastOf(picks, base)) &&
              forall k :: j < k < |picks| ==> picks[k].None?)
  {
    if picks == [] {
    } else {
      var n := |picks| - 1;
      if picks[n].None? {
        LastOfIs(picks[..n], base);
        assert forall k :: 0 <= k < n ==> picks[..n][k] == picks[k];
      }
    }
  }

  function SetText(s: string): Option<string> { if s == "" then None else Some(s) }

  function SetList<T>(s: seq<T>): Option<seq<T>> { if s == [] then None else Some(s) }

  function SetField<T>(v: Option<T>): Option<Option<T>> { if v.None? then None else Some(v) }

  function Lookup(m: map<string, string>, k: string): Option<string> { if k in m then Some(m[k]) else None }

  /** Every field that an override can set comes from the last matching override that sets it, and from the
      template when there is none. The pod settings that no rule names are the template's. */
  lemma LastOverrideWins(base: PipelineSpec, matcher: Matcher, os: seq<Override<PipelineSpec>>, name: string)
    ensures var r := Overlaid(base, matcher, os, name);
            && r.image == LastOf(Picks(matcher, os, name, (o: PipelineSpec) => SetText(o.image)), base.image)
            && r.imagePullPolicy ==
               LastOf(Picks(matcher, os, name, (o: PipelineSpec) => SetText(o.imagePullPolicy)), base.imagePullPolicy)
            && r.pipelines == LastOf(Picks(matcher, os, name, (o: PipelineSpec) => SetList(o.pipelines)),
                                     base.pipelines)
            && r.scaling == LastOf(Picks(matcher, os, name, (o: PipelineSpec) => SetField(o.scaling)), base.scaling)
            && r.resources == LastOf(Picks(matcher, os, name, (o: PipelineSpec) => SetField(o.resources)),
                                     base.resources)
            && r.dataPrepperConfig ==
               LastOf(Picks(matcher, os, name, (o: PipelineSpec) => SetField(o.dataPrepperConfig)),
                      base.dataPrepperConfig)
            && r.serviceMonitor ==
               LastOf(Picks(matcher, os, name, (o: PipelineSpec) => SetField(o.serviceMonitor)), base.serviceMonitor)
            && r.podExtras == base.podExtras
  {
    FieldIsLast(base, matcher, os, name, (s: PipelineSpec) => s.image, (o: PipelineSpec) => SetText(o.image));
    FieldIsLast(base, matcher, os, name, (s: PipelineSpec) => s.imagePullPolicy,
                (o: PipelineSpec) => SetText(o.imagePullPolicy));
    FieldIsLast(base, matcher, os, name, (s: PipelineSpec) => s.pipelines, (o: PipelineSpec) => SetList(o.pipelines));
    FieldIsLast(base, matcher, os, name, (s: PipelineSpec) => s.scaling, (o: PipelineSpec) => SetField(o.scaling));
    FieldIsLast(base, matcher, os, name, (s: PipelineSpec) => s.resources, (o: PipelineSpec) => SetField(o.resources));
    FieldIsLast(base, matcher, os, name, (s: PipelineSpec) => s.dataPrepperConfig,
                (o: PipelineSpec) => SetField(o.dataPrepperConfig));
    FieldIsLast(base, matcher, os, name, (s: PipelineSpec) => s.serviceMonitor,
                (o: PipelineSpec) => SetField(o.serviceMonitor));
    ExtrasStay(base, matcher, os, name);
  }

  lemma {:induction false} ExtrasStay(base: PipelineSpec, matcher: Matcher, os: seq<Override<PipelineSpec>>,
                                      name: string)
    ensures Overlaid(base, matcher, os, name).podExtras == base.podExtras
  {
    if os == [] {
    } else {
      ExtrasStay(base, matcher, os[..|os| - 1], name);
    }
  }

  /** The three maps are decided key by key. */
  lemma LastOverrideWinsKey(base: PipelineSpec, matcher: Matcher, os: seq<Override<PipelineSpec>>, name: string,
                            k: string)
    ensures var r := Overlaid(base, matcher, os, name);
            && Lookup(r.podAnnotations, k) ==
               LastOf(Picks(matcher, os, name, (o: PipelineSpec) => SetField(Lookup(o.podAnnotations, k))),
                      Lookup(base.podAnnotations, k))
            && Lookup(r.podLabels, k) ==
               LastOf(Picks(matcher, os, name, (o: PipelineSpec) => SetField(Lookup(o.podLabels, k))),
                      Lookup(base.podLabels, k))
            && Lookup(r.nodeSelector, k) ==
               LastOf(Picks(matcher, os, name, (o: PipelineSpec) => SetField(Lookup(o.nodeSelector, k))),
                      Lookup(base.nodeSelector, k))
  {
    FieldIsLast(base, matcher, os, name, (s: PipelineSpec) => Lookup(s.podAnnotations, k),
                (o: PipelineSpec) => SetField(Lookup(o.podAnnotations, k)));
    FieldIsLast(base, matcher, os, name, (s: PipelineSpec) => Lookup(s.podLabels, k),
                (o: PipelineSpec) => SetField(Lookup(o.podLabels, k)));
    FieldIsLast(base, matcher, os, name, (s: PipelineSpec) => Lookup(s.nodeSelector, k),
                (o: PipelineSpec) => SetField(Lookup(o.nodeSelector, k)));
  }

  /******* What a rendered spec is *******/

  /** Only the Kafka source's servers, credentials and encryption type can differ: each is the definition's own where
      that is set, and otherwise the discovery's. */
  ghost predicate Connected(kd: Option<KafkaDiscovery>, own: PipelineDefinition, r: PipelineDefinition) {
    if kd.None? || own.source.kafka.None? then r == own
    else
      && r.source.kafka.Some? && r == own.(source := own.source.(kafka := r.source.kafka))
      && var k, q := own.source.kafka.value, r.source.kafka.value;
      && q.topic == k.topic && q.groupId == k.groupId && q.consumerConfig == k.consumerConfig
      && q.bootstrapServers == (if k.bootstrapServers != [] then k.bootstrapServers else kd.value.bootstrapServers)
      && q.credentials == (if k.credentials.Some? then k.credentials else kd.value.credentials)
      && q.encryptionType == (if k.encryptionType != "" then k.encryptionType else kd.value.encryptionType)
  }

  /** The pipelines are those of the last matching override that has any, or the template's, connected one by one; the
      other fields are those of the overlaid template. */
  ghost predicate Rendered(r: PipelineSpec, base: PipelineSpec, matcher: Matcher, os: seq<Override<PipelineSpec>>,
                           name: string, kd: Option<KafkaDiscovery>) {
    var ps := LastOf(Picks(matcher, os, name, (o: PipelineSpec) => SetList(o.pipelines)), base.pipelines);
    && |r.pipelines| == |ps| && (forall i :: 0 <= i < |ps| ==> Connected(kd, ps[i], r.pipelines[i]))
    && r.(pipelines := []) == Overlaid(base, matcher, os, name).(pipelines := [])
  }

  lemma CopyingRenders(template: Template, matcher: Matcher, os: seq<Override<PipelineSpec>>,
                       kd: Option<KafkaDiscovery>, s: DiscoveredSource)
    ensures Copying(template, matcher, os, kd)(s).Some? <==> template(s).Some?
    ensures template(s).Some? ==>
              Rendered(Copying(template, matcher, os, kd)(s).value, template(s).value, matcher, os, s.name, kd)
  {
    if template(s).Some? {
      var base := template(s).value;
      FieldIsLast(base, matcher, os, s.name, (s: PipelineSpec) => s.pipelines,
                  (o: PipelineSpec) => SetList(o.pipelines));
      var ps := Overlaid(base, matcher, os, s.name).pipelines;
      forall i | 0 <= i < |ps| ensures Connected(kd, ps[i], InheritAll(kd, ps)[i]) {}
    }
  }

  /******* Filling before or after an override *******/

  lemma FillAndOverlay(kd: Option<KafkaDiscovery>, base: PipelineSpec, o: PipelineSpec)
    ensures Inherited(kd, Overlay(base, o)) == Overlay(Inherited(kd, base), Inherited(kd, o))
  {
  }

  /** Two lists of overrides that differ only in what the discovery's settings fill in. */
  ghost predicate SameFilled(kd: Option<KafkaDiscovery>, a: seq<Override<PipelineSpec>>,
                             b: seq<Override<PipelineSpec>>) {
    |a| == |b| && forall i :: 0 <= i < |a| ==>
      a[i].pattern == b[i].pattern && Inherited(kd, a[i].spec) == Inherited(kd, b[i].spec)
  }

  /** Whether an override was already filled makes no difference to a later source. */
  lemma {:induction false} FilledOverridesAgree(kd: Option<KafkaDiscovery>, base: PipelineSpec, matcher: Matcher,
                                                a: seq<Override<PipelineSpec>>,
                                                b: seq<Override<PipelineSpec>>, name: string)
    requires SameFilled(kd, a, b)
    ensures Inherited(kd, Overlaid(base, matcher, a, name)) == Inherited(kd, Overlaid(base, matcher, b, name))
  {
    if a == [] {
    } else {
      var n := |a| - 1;
      var x, y := Overlaid(base, matcher, a[..n], name), Overlaid(base, matcher, b[..n], name);
      FilledOverridesAgree(kd, base, matcher, a[..n], b[..n], name);
      FillAndOverlay(kd, x, a[n].spec);
      FillAndOverlay(kd, y, b[n].spec);
    }
  }

  /******* The code: Kafka sources behind pointers *******/

  datatype WantedRef = WantedRef(spec: SpecRef, hash: string)

  ghost function OverrideCells(os: seq<Override<SpecRef>>): set<KafkaCell> {
    set i, c | 0 <= i < |os| && c in KafkaCells(os[i].spec.pipelines) :: c
  }

  ghost function OverrideSinks(os: seq<Override<SpecRef>>): set<OpenSearchCell> {
    set i, c | 0 <= i < |os| && c in OpenSearchCells(os[i].spec.pipelines) :: c
  }

  ghost function OverrideValues(os: seq<Override<SpecRef>>): seq<Override<PipelineSpec>>
    reads OverrideCells(os), OverrideSinks(os)
  {
    seq(|os|, i requires 0 <= i < |os| reads OverrideCells(os), OverrideSinks(os) =>
      Override(os[i].pattern, Value(os[i].spec)))
  }

  method CopyKeys(base: map<string, string>, o: map<string, string>) returns (r: map<string, string>)
    ensures r == base + o
  {
    r := base;
    var todo := o.Keys;
    while todo != {}
      invariant todo <= o.Keys
      invariant r == base + (o - todo)
    {
      var k :| k in todo;
      r := r[k := o[k]];
      todo := todo - {k};
    }
  }

  method OverlayFields(base: PipelineSpec, o: PipelineSpec) returns (r: PipelineSpec)
    ensures r == base.(image := OrText(o.image, base.image),
                       imagePullPolicy := OrText(o.imagePullPolicy, base.imagePullPolicy),
                       scaling := OrElse(o.scaling, base.scaling),
                       resources := OrElse(o.resources, base.resources),
                       dataPrepperConfig := OrElse(o.dataPrepperConfig, base.dataPrepperConfig),
                       serviceMonitor := OrElse(o.serviceMonitor, base.serviceMonitor))
  {
    r := base;
    if o.image != "" { r := r.(image := o.image); }
    if o.imagePullPolicy != "" { r := r.(imagePullPolicy := o.imagePullPolicy); }
    if o.scaling.Some? { r := r.(scaling := o.scaling); }
    if o.resources.Some? { r := r.(resources := o.resources); }
    if o.dataPrepperConfig.Some? { r := r.(dataPrepperConfig := o.dataPrepperConfig); }
    if o.serviceMonitor.Some? { r := r.(serviceMonitor := o.serviceMonitor); }
  }

  method OverlayRest(base: PipelineSpec, o: PipelineSpec) returns (r: PipelineSpec)
    ensures r == Overlay(base, o).(pipelines := base.pipelines)
  {
    r := OverlayFields(base, o);
    var annotations := CopyKeys(base.podAnnotations, o.podAnnotations);
    var labels := CopyKeys(base.podLabels, o.podLabels);
    var selector := CopyKeys(base.nodeSelector, o.nodeSelector);
    r := r.(podAnnotations := annotations, podLabels := labels, nodeSelector := selector);
  }

  /** A non-empty list of pipelines is taken over as it is, cells included. */
  function OverlayRef(base: SpecRef, o: SpecRef): SpecRef {
    SpecRef(Overlay(base.rest, o.rest).(pipelines := base.rest.pipelines),
            if o.pipelines != [] then o.pipelines else base.pipelines)
  }

  function OverlaidRef(base: SpecRef, matcher: Matcher, os: seq<Override<SpecRef>>, name: string): SpecRef {
    if os == [] then base
    else
      var before := OverlaidRef(base, matcher, os[..|os| - 1], name);
      var last := os[|os| - 1];
      if matcher(last.pattern, name) == Some(true) then OverlayRef(before, last.spec) else before
  }

  lemma OverlayValue(base: SpecRef, o: SpecRef)
    ensures Value(OverlayRef(base, o)) == Overlay(Value(base), Value(o))
  {
    assert |PipelineValues(o.pipelines)| == |o.pipelines|;
  }

  lemma {:induction false} OverlaidValue(base: SpecRef, matcher: Matcher, os: seq<Override<SpecRef>>, name: string)
    ensures var r := OverlaidRef(base, matcher, os, name);
            && (r.pipelines == base.pipelines || KafkaCells(r.pipelines) <= OverrideCells(os))
            && Value(r) == Overlaid(Value(base), matcher, OverrideValues(os), name)
  {
    if os == [] {
    } else {
      var n := |os| - 1;
      OverlaidValue(base, matcher, os[..n], name);
      OverlayValue(OverlaidRef(base, matcher, os[..n], name), os[n].spec);
      assert OverrideValues(os)[..n] == OverrideValues(os[..n]);
      assert OverrideCells(os[..n]) <= OverrideCells(os);
    }
  }

  method ApplyOverrides(base: SpecRef, matcher: Matcher, os: seq<Override<SpecRef>>, name: string)
    returns (spec: SpecRef)
    ensures spec == OverlaidRef(base, matcher, os, name)
  {
    spec := base;
    for i := 0 to |os|
      invariant spec == OverlaidRef(base, matcher, os[..i], name)
    {
      assert os[..i + 1][..i] == os[..i];
      if matcher(os[i].pattern, name) == Some(true) {
        var rest := OverlayRest(spec.rest, os[i].spec.rest);
        spec := SpecRef(rest, if os[i].spec.pipelines != [] then os[i].spec.pipelines else spec.pipelines);
      }
    }
    assert os[..|os|] == os;
  }

  method FillCell(c: KafkaCell, kd: KafkaDiscovery)
    modifies c
    ensures c.source == Fill(kd, old(c.source))
  {
    if c.source.bootstrapServers == [] { c.source := c.source.(bootstrapServers := kd.bootstrapServers); }
    if c.source.credentials.None? && kd.credentials.Some? { c.source := c.source.(credentials := kd.credentials); }
    if c.source.encryptionType == "" && kd.encryptionType != "" {
      c.source := c.source.(encryptionType := kd.encryptionType);
    }
  }

  /** Fills the cells of a spec, whoever else can see them. */
  method InheritInPlace(s: SpecRef, kd: KafkaDiscovery)
    modifies KafkaCells(s.pipelines)
    ensures forall c :: c in KafkaCells(s.pipelines) ==> c.source == Fill(kd, old(c.source))
    ensures Value(s) == Inherited(Some(kd), old(Value(s)))
  {
    for i := 0 to |s.pipelines|
      invariant forall c :: c in KafkaCells(s.pipelines) ==>
                  c.source == old(c.source) || c.source == Fill(kd, old(c.source))
      invariant forall c :: c in KafkaCells(s.pipelines[..i]) ==> c.source == Fill(kd, old(c.source))
    {
      if s.pipelines[i].kafka.None? { continue; }
      var c := s.pipelines[i].kafka.value;
      assert c in KafkaCells(s.pipelines);
      FillCell(c, kd);
    }
    assert s.pipelines[..|s.pipelines|] == s.pipelines;
    forall i | 0 <= i < |s.pipelines|
      ensures PipelineValue(s.pipelines[i]) == InheritOne(Some(kd), old(PipelineValue(s.pipelines[i])))
    {
      if s.pipelines[i].kafka.Some? { assert s.pipelines[i].kafka.value in KafkaCells(s.pipelines); }
    }
    assert PipelineValues(s.pipelines) == InheritAll(Some(kd), old(PipelineValues(s.pipelines)));
  }

  /** Nothing is left to fill in the spec. */
  ghost predicate Settled(s: SpecRef, kd: Option<KafkaDiscovery>)
    reads KafkaCells(s.pipelines)
  {
    forall c :: c in KafkaCells(s.pipelines) && kd.Some? ==> Fill(kd.value, c.source) == c.source
  }

  method Configure(s: SpecRef, kd: Option<KafkaDiscovery>)
    modifies KafkaCells(s.pipelines)
    ensures forall c :: c in KafkaCells(s.pipelines) ==>
              c.source == old(c.source) || (kd.Some? && c.source == Fill(kd.value, old(c.source)))
    ensures Settled(s, kd) && Value(s) == Inherited(kd, old(Value(s)))
  {
    if kd.Some? {
      InheritInPlace(s, kd.value);
    } else {
      assert InheritAll(kd, Value(s).pipelines) == Value(s).pipelines;
    }
  }

  /** The template and the matching overrides. Nothing is written yet. */
  method Overridden(rendered: PipelineSpec, matcher: Matcher, os: seq<Override<SpecRef>>, name: string)
    returns (spec: SpecRef)
    ensures Value(spec) == Overlaid(rendered, matcher, old(OverrideValues(os)), name)
    ensures KafkaCells(spec.pipelines) <= OverrideCells(os) || fresh(KafkaCells(spec.pipelines))
  {
    ghost var before := OverrideValues(os);
    var base := DeepCopy(rendered);
    label Copied:
    spec := ApplyOverrides(base, matcher, os, name);
    forall k | 0 <= k < |base.pipelines| ensures PipelineValue(base.pipelines[k]) == rendered.pipelines[k] {
      var p := base.pipelines[k];
      assert old@Copied(PipelineValues(base.pipelines))[k] == old@Copied(PipelineValue(p));
      assert SinkValues(p.sinks) == old@Copied(SinkValues(p.sinks));
    }
    assert Value(base) == rendered;
    forall i | 0 <= i < |os| ensures OverrideValues(os)[i] == before[i] {
      var ps := os[i].spec.pipelines;
      forall k | 0 <= k < |ps| ensures PipelineValue(ps[k]) == old(PipelineValue(ps[k])) {
        assert SinkValues(ps[k].sinks) == old(SinkValues(ps[k].sinks));
      }
      assert PipelineValues(ps) == old(PipelineValues(ps));
    }
    assert OverrideValues(os) == before;
    OverlaidValue(base, matcher, os, name);
  }

  method RenderSpec(source: DiscoveredSource, template: Template, matcher: Matcher, os: seq<Override<SpecRef>>,
                    kd: Option<KafkaDiscovery>)
    returns (r: Option<SpecRef>)
    modifies OverrideCells(os)
    ensures forall c :: c in OverrideCells(os) ==>
              c.source == old(c.source) || (kd.Some? && c.source == Fill(kd.value, old(c.source)))
    ensures r.Some? ==> Settled(r.value, kd)
    ensures var want := Copying(template, matcher, old(OverrideValues(os)), kd)(source);
            if r.Some? then want == Some(Value(r.value)) else want == None
    ensures r.Some? <==> template(source).Some?
    ensures r.Some? ==>
              Rendered(Value(r.value), template(source).value, matcher, old(OverrideValues(os)), source.name, kd)
  {
    CopyingRenders(template, matcher, OverrideValues(os), kd, source);
    var rendered := template(source);
    if rendered.None? { return None; }
    var spec := Overridden(rendered.value, matcher, os, source.name);
    Configure(spec, kd);
    r := Some(spec);
  }

  /******* A whole list of sources *******/

  /** The desired state as the heap shows it. */
  ghost predicate Shows(desired: map<string, WantedRef>, want: Desired, kd: Option<KafkaDiscovery>)
    reads set n, c | n in desired && c in KafkaCells(desired[n].spec.pipelines) :: c
    reads set n, c | n in desired && c in OpenSearchCells(desired[n].spec.pipelines) :: c
  {
    desired.Keys == want.Keys && forall n :: n in desired ==>
      desired[n].hash == want[n].hash && Value(desired[n].spec) == want[n].spec && Settled(desired[n].spec, kd)
  }

  lemma ShowsPlus(desired: map<string, WantedRef>, want: Desired, kd: Option<KafkaDiscovery>, n: string, w: WantedRef)
    requires Shows(desired, want, kd) && Settled(w.spec, kd)
    ensures Shows(desired[n := w], want[n := Wanted(Value(w.spec), w.hash)], kd)
  {
  }

  /** A source gets its spec as if no source had come before. */
  method RenderAgain(source: DiscoveredSource, template: Template, matcher: Matcher, os: seq<Override<SpecRef>>,
                     kd: Option<KafkaDiscovery>, ghost original: seq<Override<PipelineSpec>>)
    returns (r: Option<SpecRef>)
    requires SameFilled(kd, OverrideValues(os), original)
    modifies OverrideCells(os)
    ensures forall c :: c in OverrideCells(os) ==>
              c.source == old(c.source) || (kd.Some? && c.source == Fill(kd.value, old(c.source)))
    ensures SameFilled(kd, OverrideValues(os), original)
    ensures r.Some? ==> Settled(r.value, kd)
    ensures var w := Copying(template, matcher, original, kd)(source);
            if r.Some? then w == Some(Value(r.value)) else w == None
  {
    if template(source).Some? {
      FilledOverridesAgree(kd, template(source).value, matcher, OverrideValues(os), original, source.name);
    }
    r := RenderSpec(source, template, matcher, os, kd);
    forall i | 0 <= i < |os| ensures Inherited(kd, Value(os[i].spec)) == Inherited(kd, old(Value(os[i].spec))) {
      var ps := os[i].spec.pipelines;
      forall k | 0 <= k < |ps|
        ensures InheritOne(kd, PipelineValue(ps[k])) == InheritOne(kd, old(PipelineValue(ps[k])))
      {
        if ps[k].kafka.Some? { assert ps[k].kafka.value in KafkaCells(ps); }
        assert SinkValues(ps[k].sinks) == old(SinkValues(ps[k].sinks));
      }
      assert InheritAll(kd, PipelineValues(ps)) == InheritAll(kd, old(PipelineValues(ps)));
    }
  }

  /** The specs rendered so far keep their values while one more source fills the cells it shares with them. */
  method RenderNext(source: DiscoveredSource, template: Template, matcher: Matcher, os: seq<Override<SpecRef>>,
                    kd: Option<KafkaDiscovery>, ghost original: seq<Override<PipelineSpec>>,
                    ghost desired: map<string, WantedRef>, ghost want: Desired)
    returns (r: Option<SpecRef>)
    requires SameFilled(kd, OverrideValues(os), original) && Shows(desired, want, kd)
    modifies OverrideCells(os)
    ensures SameFilled(kd, OverrideValues(os), original) && Shows(desired, want, kd)
    ensures r.Some? ==> Settled(r.value, kd)
    ensures var w := Copying(template, matcher, original, kd)(source);
            if r.Some? then w == Some(Value(r.value)) else w == None
  {
    r := RenderAgain(source, template, matcher, os, kd, original);
    forall n | n in desired
      ensures Value(desired[n].spec) == old(Value(desired[n].spec)) && Settled(desired[n].spec, kd)
    {
      var ps := desired[n].spec.pipelines;
      forall c | c in KafkaCells(ps) ensures c.source == old(c.source) {}
      forall k | 0 <= k < |ps| ensures PipelineValue(ps[k]) == old(PipelineValue(ps[k])) {
        if ps[k].kafka.Some? { assert ps[k].kafka.value in KafkaCells(ps); }
        assert SinkValues(ps[k].sinks) == old(SinkValues(ps[k].sinks));
      }
      assert PipelineValues(ps) == old(PipelineValues(ps));
    }
  }

  /** Sharing is invisible: once every source is rendered, each name has the spec and the hash that a renderer which
      copies everything gives it, whatever the order of the sources. */
  method BuildDesiredInPlace(cfg: Settings, sources: seq<DiscoveredSource>, template: Template, matcher: Matcher,
                             os: seq<Override<SpecRef>>, kd: Option<KafkaDiscovery>, hash: Hasher)
    returns (r: Option<map<string, WantedRef>>)
    modifies OverrideCells(os)
    ensures var want := WantedBy(cfg, sources, Copying(template, matcher, old(OverrideValues(os)), kd), hash);
            if r.Some? then want.Some? && Shows(r.value, want.value, kd) else want.None?
    ensures r.Some? ==> forall n :: n in r.value ==>
              exists i :: 0 <= i < |sources| && LastFor(cfg, sources, n, i) && template(sources[i]).Some? &&
                Rendered(Value(r.value[n].spec), template(sources[i]).value, matcher, old(OverrideValues(os)),
                         sources[i].name, kd)
  {
    ghost var original := OverrideValues(os);
    ghost var render := Copying(template, matcher, original, kd);
    var desired: map<string, WantedRef> := map[];
    ghost var want: Desired := map[];
    for i := 0 to |sources|
      invariant WantedBy(cfg, sources[..i], render, hash) == Some(want)
      invariant Shows(desired, want, kd) && SameFilled(kd, OverrideValues(os), original)
    {
      assert sources[..i + 1][..i] == sources[..i];
      var spec := RenderNext(sources[i], template, matcher, os, kd, original, desired, want);
      if spec.None? {
        FailsFrom(cfg, sources, i + 1, render, hash);
        return None;
      }
      var w := WantedRef(spec.value, hash(Value(spec.value)));
      ShowsPlus(desired, want, kd, ChildName(cfg, sources[i]), w);
      desired := desired[ChildName(cfg, sources[i]) := w];
      want := want[ChildName(cfg, sources[i]) := Wanted(Value(spec.value), w.hash)];
    }
    assert sources[..|sources|] == sources;
    r := Some(desired);
    forall n | n in desired
      ensures exists i :: 0 <= i < |sources| && LastFor(cfg, sources, n, i) && template(sources[i]).Some? &&
                Rendered(Value(desired[n].spec), template(sources[i]).value, matcher, original, sources[i].name, kd)
    {
      var i := LastSourceWins(cfg, sources, render, hash, n);
      CopyingRenders(template, matcher, original, kd, sources[i]);
    }
  }
}
