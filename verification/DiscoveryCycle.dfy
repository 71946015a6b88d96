/** The code of a discovery cycle: loops over maps in any order, rate limits, and API calls that may fail. */
module DiscoveryCycle {
  import opened Api
  import opened Discovery
  import opened Lists
  import Admission
  import Names

  datatype DiscoveredSource = DiscoveredSource(name: string, metadata: map<string, string>)

  /** Rendering a source's spec from the template and hashing a spec are parameters of the model. */
  type Renderer = DiscoveredSource -> Option<PipelineSpec>
  type Hasher = PipelineSpec -> string

  function ChildName(cfg: Settings, s: DiscoveredSource): string {
    Names.SanitizeName(cfg.name + "-" + s.name)
  }

  /** The desired state, unless a source fails to render. When names collide the last source wins. */
  function WantedBy(cfg: Settings, sources: seq<DiscoveredSource>, render: Renderer, hash: Hasher): Option<Desired> {
    if sources == [] then Some(map[])
    else
      var before := WantedBy(cfg, sources[..|sources| - 1], render, hash);
      var last := sources[|sources| - 1];
      if before.None? || render(last).None? then None
      else Some(before.value[ChildName(cfg, last) := Wanted(render(last).value, hash(render(last).value))])
  }

  /** Exactly when two sources of a discovery share a child. */
  lemma SharedChildIff(cfg: Settings, s: DiscoveredSource, t: DiscoveredSource)
    ensures ChildName(cfg, s) == ChildName(cfg, t) <==>
            Names.AlikeText(Names.Essence(cfg.name + "-" + s.name), Names.Essence(cfg.name + "-" + t.name))
    ensures cfg.name != "" && Names.LetterOrDigit(cfg.name[0])
            && |cfg.name| + 1 + |s.name| <= Names.MAX_LENGTH && |cfg.name| + 1 + |t.name| <= Names.MAX_LENGTH ==>
              (ChildName(cfg, s) == ChildName(cfg, t) <==>
               Names.AlikeText(Names.DropRight(s.name), Names.DropRight(t.name)))
  {
    var p := cfg.name + "-";
    Names.SharedNameIff(p + s.name, p + t.name);
    if cfg.name != "" && Names.LetterOrDigit(cfg.name[0])
       && |p| + |s.name| <= Names.MAX_LENGTH && |p| + |t.name| <= Names.MAX_LENGTH {
      Names.SharedSuffixIff(p, s.name, t.name);
    }
  }

  ghost function NamesOf(cfg: Settings, sources: seq<DiscoveredSource>): set<string> {
    set i | 0 <= i < |sources| :: ChildName(cfg, sources[i])
  }

  lemma {:induction false} WantedNames(cfg: Settings, sources: seq<DiscoveredSource>, render: Renderer, hash: Hasher)
    requires WantedBy(cfg, sources, render, hash).Some?
    ensures WantedBy(cfg, sources, render, hash).value.Keys == NamesOf(cfg, sources)
  {
    if sources == [] {
    } else {
      WantedNames(cfg, sources[..|sources| - 1], render, hash);
      NamesOfStep(cfg, sources);
    }
  }

  lemma NamesOfStep(cfg: Settings, sources: seq<DiscoveredSource>)
    requires sources != []
    ensures NamesOf(cfg, sources) == NamesOf(cfg, sources[..|sources| - 1]) + {ChildName(cfg, sources[|sources| - 1])}
  {
  }

  /** The cleanup phase derives the names of the current sources once more. */
  method ActiveNames(cfg: Settings, sources: seq<DiscoveredSource>) returns (active: set<string>)
    ensures active == NamesOf(cfg, sources)
  {
    active := {};
    for i := 0 to |sources|
      invariant active == set j | 0 <= j < i :: ChildName(cfg, sources[j])
    {
      active := active + {ChildName(cfg, sources[i])};
    }
  }

  method BuildDesired(cfg: Settings, sources: seq<DiscoveredSource>, render: Renderer, hash: Hasher)
    returns (want: Option<Desired>)
    ensures want == WantedBy(cfg, sources, render, hash)
    ensures want.None? <==> exists i :: 0 <= i < |sources| && render(sources[i]).None?
    ensures want.Some? ==> forall n :: n in want.value ==> exists i ::
              0 <= i < |sources| && LastFor(cfg, sources, n, i) && IsWanted(want.value[n], render(sources[i]), hash)
  {
    WantedIffRendered(cfg, sources, render, hash);
    var desired: Desired := map[];
    for i := 0 to |sources|
      invariant WantedBy(cfg, sources[..i], render, hash) == Some(desired)
    {
      assert sources[..i + 1][..i] == sources[..i];
      var spec := render(sources[i]);
      if spec.None? {
        FailsFrom(cfg, sources, i + 1, render, hash);
        return None;
      }
      desired := desired[ChildName(cfg, sources[i]) := Wanted(spec.value, hash(spec.value))];
    }
    assert sources[..|sources|] == sources;
    want := Some(desired);
    forall n | n in desired
      ensures exists i ::
                0 <= i < |sources| && LastFor(cfg, sources, n, i) && IsWanted(desired[n], render(sources[i]), hash)
    {
      var i := LastSourceWins(cfg, sources, render, hash, n);
    }
  }

  /** Source `i` is the last one whose child is called `n`. */
  ghost predicate LastFor(cfg: Settings, sources: seq<DiscoveredSource>, n: string, i: nat)
    requires i < |sources|
  {
    ChildName(cfg, sources[i]) == n && forall j :: i < j < |sources| ==> ChildName(cfg, sources[j]) != n
  }

  ghost predicate IsWanted(w: Wanted, spec: Option<PipelineSpec>, hash: Hasher) {
    spec == Some(w.spec) && w.hash == hash(w.spec)
  }

  /** Every desired child has the spec and the hash of the last source of that name. */
  lemma {:induction false} LastSourceWins(cfg: Settings, sources: seq<DiscoveredSource>, render: Renderer, hash: Hasher,
                                          n: string)
    returns (i: nat)
    requires WantedBy(cfg, sources, render, hash).Some? && n in WantedBy(cfg, sources, render, hash).value
    ensures i < |sources| && LastFor(cfg, sources, n, i)
    ensures IsWanted(WantedBy(cfg, sources, render, hash).value[n], render(sources[i]), hash)
  {
    i := |sources| - 1;
    if n != ChildName(cfg, sources[i]) {
      var init := sources[..i];
      i := LastSourceWins(cfg, init, render, hash, n);
      assert init[i] == sources[i];
      assert forall j :: i < j < |init| ==> init[j] == sources[j];
    }
  }

  /** There is no desired state exactly when a source does not render. */
  lemma {:induction false} WantedIffRendered(cfg: Settings, sources: seq<DiscoveredSource>, render: Renderer,
                                             hash: Hasher)
    ensures WantedBy(cfg, sources, render, hash).None? <==> exists i :: 0 <= i < |sources| && render(sources[i]).None?
  {
    if sources == [] {
    } else {
      var init := sources[..|sources| - 1];
      WantedIffRendered(cfg, init, render, hash);
      if i :| 0 <= i < |init| && render(init[i]).None? { assert init[i] == sources[i]; }
      if i :| 0 <= i < |sources| && render(sources[i]).None? { assert i < |init| ==> init[i] == sources[i]; }
    }
  }

  lemma {:induction false} FailsFrom(cfg: Settings, sources: seq<DiscoveredSource>, i: nat, render: Renderer,
                                     hash: Hasher)
    requires i <= |sources| && WantedBy(cfg, sources[..i], render, hash).None?
    ensures WantedBy(cfg, sources, render, hash).None?
    decreases |sources|
  {
    if i == |sources| { assert sources[..i] == sources; } else {
      assert sources[..|sources| - 1][..i] == sources[..i];
      FailsFrom(cfg, sources[..|sources| - 1], i, render, hash);
    }
  }

  /******* One write at a time *******/

  lemma CreateOne(s: Store, cfg: Settings, want: Desired, m: Moves, n: string)
    requires Within(s, cfg, want, m) && n in Missing(s, cfg, want) && n !in m.created
    ensures Within(s, cfg, want, m.(created := m.created + {n}))
    ensures After(s, cfg, want, m.(created := m.created + {n})) ==
            After(s, cfg, want, m)[n := Adopted(Existing(After(s, cfg, want, m), n), cfg, want[n])]
    ensures Existing(After(s, cfg, want, m), n) == Existing(s, n)
  {
    assert Existing(After(s, cfg, want, m), n) == Existing(s, n);
  }

  lemma UpdateOne(s: Store, cfg: Settings, want: Desired, m: Moves, n: string)
    requires Within(s, cfg, want, m) && n in Stale(s, cfg, want) && n !in m.updated
    ensures Within(s, cfg, want, m.(updated := m.updated + {n}))
    ensures After(s, cfg, want, m.(updated := m.updated + {n})) ==
            After(s, cfg, want, m)[n := Adopted(Existing(After(s, cfg, want, m), n), cfg, want[n])]
    ensures Existing(After(s, cfg, want, m), n) == Existing(s, n)
  {
    assert Existing(After(s, cfg, want, m), n) == Existing(s, n);
  }

  lemma RemoveOne(s: Store, cfg: Settings, want: Desired, m: Moves, n: string)
    requires Within(s, cfg, want, m) && n in Surplus(s, cfg, want) && n !in m.removed
    ensures n in After(s, cfg, want, m) && After(s, cfg, want, m)[n] == s[n]
    ensures Policy(cfg) == DELETE ==>
              && Within(s, cfg, want, m.(removed := m.removed + {n}))
              && After(s, cfg, want, m.(removed := m.removed + {n})) == After(s, cfg, want, m) - {n}
    ensures Policy(cfg) == ORPHAN ==>
              && Within(s, cfg, want, m.(removed := m.removed + {n}))
              && After(s, cfg, want, m.(removed := m.removed + {n})) == After(s, cfg, want, m)[n := Released(s[n], cfg)]
  {
  }

  /******* The controller *******/

  /** `t` is what the moves `m`, all within bounds, make of `s`. */
  ghost predicate Reached(s: Store, cfg: Settings, want: Desired, m: Moves, t: Store) {
    Within(s, cfg, want, m) && t == After(s, cfg, want, m)
  }

  /** The first `i` names of the list, as a set of that size. */
  ghost predicate TakenFrom(done: set<string>, l: seq<string>, i: nat) {
    |done| == i <= |l| && forall n :: n in done ==> n in l[..i]
  }

  lemma TakeNext(done: set<string>, l: seq<string>, i: nat)
    requires NoRepeats(l) && i < |l| && TakenFrom(done, l, i)
    ensures l[i] !in done && TakenFrom(done + {l[i]}, l, i + 1)
  {
    AddOne(done, l[i]);
    assert l[..i + 1] == l[..i] + [l[i]];
  }

  datatype CycleResult = CycleResult(created: nat, updated: nat, pendingUpdates: nat, healthCheckFail: bool)

  /** The verdict of the validating webhook on a pipeline; without a webhook everything is admitted. */
  type Webhook = (string, PipelineSpec) -> bool

  /** Writing the desired child is permitted: nothing else controls the object, and the webhook admits it. */
  predicate Writable(s: Store, cfg: Settings, want: Desired, admits: Webhook, n: string) {
    n in want && Controllable(Existing(s, n).owners, Self(cfg)) && admits(n, want[n].spec)
  }

  ghost predicate AllWritable(s: Store, cfg: Settings, want: Desired, admits: Webhook, names: set<string>) {
    forall n {:trigger Writable(s, cfg, want, admits, n)} :: n in names ==> Writable(s, cfg, want, admits, n)
  }

  lemma WritablePlus(s: Store, cfg: Settings, want: Desired, admits: Webhook, a: set<string>, b: set<string>)
    ensures AllWritable(s, cfg, want, admits, a + b) <==>
            AllWritable(s, cfg, want, admits, a) && AllWritable(s, cfg, want, admits, b)
  {
    if AllWritable(s, cfg, want, admits, a + b) {
      forall n | n in a ensures Writable(s, cfg, want, admits, n) { assert n in a + b; }
      forall n | n in b ensures Writable(s, cfg, want, admits, n) { assert n in a + b; }
    }
  }

  lemma WritableOne(s: Store, cfg: Settings, want: Desired, admits: Webhook, a: set<string>, n: string)
    ensures AllWritable(s, cfg, want, admits, a + {n}) <==>
            AllWritable(s, cfg, want, admits, a) && Writable(s, cfg, want, admits, n)
  {
    WritablePlus(s, cfg, want, admits, a, {n});
    assert n in {n};
    if AllWritable(s, cfg, want, admits, {n}) { assert Writable(s, cfg, want, admits, n); }
  }

  /** The webhook lets the surplus children be released, if that is the policy. */
  ghost predicate Releasable(s: Store, cfg: Settings, names: set<string>, admits: Webhook)
    requires names <= s.Keys
  {
    Policy(cfg) == ORPHAN ==> forall n :: n in names ==> admits(n, s[n].spec)
  }

  /** What a cycle may try to write: what is missing and, behind an open gate, what is stale. */
  ghost function MayWrite(s: Store, cfg: Settings, want: Desired): set<string> {
    Missing(s, cfg, want) + if Tripped(s, cfg, want) then {} else Stale(s, cfg, want)
  }

  /** What it must write in any order: each part that its limit leaves room for as a whole. */
  ghost function MustWrite(s: Store, cfg: Settings, want: Desired): set<string> {
    (if |Missing(s, cfg, want)| <= Limit(cfg) then Missing(s, cfg, want) else {})
    + if Tripped(s, cfg, want) || |Stale(s, cfg, want)| > Batch(|Labelled(s, cfg)|) then {} else Stale(s, cfg, want)
  }

  /** Whatever a cycle may try in this store is permitted. */
  ghost predicate Permitted(s: Store, cfg: Settings, want: Desired, admits: Webhook) {
    AllWritable(s, cfg, want, admits, MayWrite(s, cfg, want)) && Releasable(s, cfg, Surplus(s, cfg, want), admits)
  }

  /** The pipelines of the discovery's namespace, behind an API whose calls may fail unless it is
      `reliable`. A call that fails changes nothing. */
  class Cluster {
    const reliable: bool
    const admits: Webhook
    var children: Store

    constructor (children: Store, admits: Webhook, reliable: bool)
      ensures this.children == children && this.admits == admits && this.reliable == reliable
    {
      this.children, this.admits, this.reliable := children, admits, reliable;
    }

    /** Whether the next API call fails. */
    method Fault() returns (fault: bool)
      ensures reliable ==> !fault
    {
      fault := *;
      if reliable { fault := false; }
    }

    method CreateOrUpdate(cfg: Settings, n: string, w: Wanted) returns (ok: bool)
      modifies this
      ensures ok ==> Controllable(Existing(old(children), n).owners, Self(cfg)) && admits(n, w.spec)
      ensures ok ==> children == old(children)[n := Adopted(Existing(old(children), n), cfg, w)]
      ensures !ok ==> children == old(children)
      ensures reliable && Controllable(Existing(old(children), n).owners, Self(cfg)) && admits(n, w.spec) ==> ok
    {
      var fault := Fault();
      var c := Existing(children, n);
      if fault || !Controllable(c.owners, Self(cfg)) || !admits(n, w.spec) { return false; }
      children := children[n := Adopted(c, cfg, w)];
      ok := true;
    }

    method Delete(n: string) returns (ok: bool)
      modifies this
      ensures children == if ok then old(children) - {n} else old(children)
      ensures reliable ==> ok
    {
      var fault := Fault();
      if fault { return false; }
      children := children - {n};
      ok := true;
    }

    method Update(n: string, c: Child) returns (ok: bool)
      modifies this
      ensures children == if ok then old(children)[n := c] else old(children)
      ensures ok ==> admits(n, c.spec)
      ensures reliable && admits(n, c.spec) ==> ok
    {
      var fault := Fault();
      if fault || !admits(n, c.spec) { return false; }
      children := children[n := c];
      ok := true;
    }

    /** The children that carry the discovery's label. */
    method List(cfg: Settings) returns (ok: bool, items: Store)
      ensures ok ==> items.Keys == Labelled(children, cfg) && forall n :: n in items ==> items[n] == children[n]
      ensures reliable ==> ok
    {
      var fault := Fault();
      if fault { return false, map[]; }
      ok, items := true, map n | n in children && Matches(children[n], cfg) :: children[n];
    }

    method CreateChild(cfg: Settings, want: Desired, n: string, ghost s: Store, ghost m: Moves) returns (ok: bool)
      requires Reached(s, cfg, want, m, children) && n in Missing(s, cfg, want) && n !in m.created
      modifies this
      ensures Reached(s, cfg, want, if ok then m.(created := m.created + {n}) else m, children)
      ensures ok ==> Writable(s, cfg, want, admits, n)
      ensures reliable && Writable(s, cfg, want, admits, n) ==> ok
    {
      CreateOne(s, cfg, want, m, n);
      ok := CreateOrUpdate(cfg, n, want[n]);
    }

    method UpdateChild(cfg: Settings, want: Desired, n: string, ghost s: Store, ghost m: Moves) returns (ok: bool)
      requires Reached(s, cfg, want, m, children) && n in Stale(s, cfg, want) && n !in m.updated
      modifies this
      ensures Reached(s, cfg, want, if ok then m.(updated := m.updated + {n}) else m, children)
      ensures ok ==> Writable(s, cfg, want, admits, n)
      ensures reliable && Writable(s, cfg, want, admits, n) ==> ok
    {
      UpdateOne(s, cfg, want, m, n);
      ok := CreateOrUpdate(cfg, n, want[n]);
    }

    /** Phase 1: creates missing children, in any order, up to the limit. */
    method CreateMissing(cfg: Settings, want: Desired, existing: Store)
      returns (ok: bool, created: nat, ghost done: set<string>, ghost tried: set<string>)
      requires existing.Keys == Labelled(children, cfg)
      modifies this
      ensures Reached(old(children), cfg, want, Moves(done, {}, {}), children)
      ensures created == |done| <= Limit(cfg)
      ensures done <= tried <= Missing(old(children), cfg, want)
      ensures ok ==> tried == done && created == Min(Limit(cfg), |Missing(old(children), cfg, want)|)
      ensures ok ==> AllWritable(old(children), cfg, want, admits, tried)
      ensures reliable && AllWritable(old(children), cfg, want, admits, tried) ==> ok
    {
      created, done, tried := 0, {}, {};
      ghost var s := children;
      ghost var missing := want.Keys - existing.Keys;
      NothingDone(s, cfg, want);
      var todo := want.Keys;
      while todo != {}
        invariant todo <= want.Keys && tried == done
        invariant Reached(s, cfg, want, Moves(done, {}, {}), children) && AllWritable(s, cfg, want, admits, done)
        invariant created == |done| <= Limit(cfg) && Swept(done, todo, missing, created < Limit(cfg))
        decreases todo
      {
        var n :| n in todo;
        SweepOne(done, todo, missing, created < Limit(cfg), n);
        todo := todo - {n};
        if n in existing { continue; }
        if created >= Limit(cfg) { continue; }
        tried := done + {n};
        WritableOne(s, cfg, want, admits, done, n);
        ok := CreateChild(cfg, want, n, s, Moves(done, {}, {}));
        if !ok { return; }
        AddOne(done, n);
        created, done := created + 1, done + {n};
      }
      CreatedAll(created, Limit(cfg), done, missing);
      ok := true;
    }

    /** Phase 4: updates the listed children in order, up to the batch size. */
    method UpdateBatch(cfg: Settings, want: Desired, toUpdate: seq<string>, max: nat, ghost s: Store,
                       ghost created: set<string>)
      returns (ok: bool, updated: nat, ghost done: set<string>, ghost tried: set<string>)
      requires NoRepeats(toUpdate) && forall n :: n in toUpdate ==> n in Stale(s, cfg, want)
      requires Reached(s, cfg, want, Moves(created, {}, {}), children)
      modifies this
      ensures Reached(s, cfg, want, Moves(created, done, {}), children)
      ensures updated == |done| <= max
      ensures done <= tried && forall n :: n in tried ==> n in toUpdate
      ensures ok ==> tried == done && updated == Min(max, |toUpdate|)
      ensures ok ==> AllWritable(s, cfg, want, admits, tried)
      ensures reliable && AllWritable(s, cfg, want, admits, tried) ==> ok
    {
      updated, done, tried := 0, {}, {};
      var i := 0;
      while i < |toUpdate| && updated < max
        invariant updated == i <= max && TakenFrom(done, toUpdate, i) && tried == done
        invariant Reached(s, cfg, want, Moves(created, done, {}), children) && AllWritable(s, cfg, want, admits, done)
      {
        var n := toUpdate[i];
        TakeNext(done, toUpdate, i);
        tried := done + {n};
        WritableOne(s, cfg, want, admits, done, n);
        ok := UpdateChild(cfg, want, n, s, Moves(created, done, {}));
        if !ok { return; }
        updated, done, i := updated + 1, done + {n}, i + 1;
      }
      ok := true;
    }

    /** Phases 2 to 4: the staged rollout behind the health gate. */
    method RollOut(cfg: Settings, want: Desired, existing: Store, created: nat, ghost s: Store, ghost c: set<string>)
      returns (ok: bool, res: CycleResult, ghost u: set<string>, ghost tried: set<string>)
      requires existing.Keys == Labelled(s, cfg) && forall n :: n in existing ==> existing[n] == s[n]
      requires Reached(s, cfg, want, Moves(c, {}, {}), children)
      requires created == |c| == Min(Limit(cfg), |Missing(s, cfg, want)|)
      modifies this
      ensures Reached(s, cfg, want, Moves(c, u, {}), children)
      ensures |u| <= Batch(|Labelled(s, cfg)|) && (|u| <= 1 || 5 * (|u| - 1) < |Labelled(s, cfg)|)
      ensures tried != {} ==> !Tripped(s, cfg, want)
      ensures ok ==> Counts(s, cfg, want, Moves(c, u, {}), res)
      ensures u <= tried <= Stale(s, cfg, want)
      ensures ok ==> tried == u && AllWritable(s, cfg, want, admits, tried)
      ensures reliable && AllWritable(s, cfg, want, admits, tried) ==> ok
    {
      u, tried := {}, {};
      res := CycleResult(created, 0, 0, false);
      var toUpdate := FindStale(want, existing);
      ListedStale(s, cfg, want, existing, toUpdate);
      if toUpdate == [] { return true, res, u, tried; }
      var unhealthy := CheckHealth(want, existing);
      ListedHealth(s, cfg, want, existing);
      if unhealthy { return true, CycleResult(created, 0, |toUpdate|, true), u, tried; }
      var updated: nat;
      assert |existing| == |existing.Keys|;
      ok, updated, u, tried := UpdateBatch(cfg, want, toUpdate, Batch(|existing|), s, c);
      if !ok { return; }
      res := CycleResult(created, updated, |toUpdate| - updated, false);
    }

    /** The desired state against the store: creation, then the rollout. It succeeds, if the API does not fail, exactly
        when everything it tried to write is permitted. */
    method ReconcilePipelines(cfg: Settings, want: Desired)
      returns (ok: bool, res: CycleResult, ghost m: Moves, ghost tried: set<string>)
      modifies this
      ensures m.removed == {} && Allowed(old(children), cfg, want, m) && children == After(old(children), cfg, want, m)
      ensures ok ==> Counts(old(children), cfg, want, m, res)
      ensures m.created + m.updated <= tried <= MayWrite(old(children), cfg, want)
      ensures ok ==> tried == m.created + m.updated && AllWritable(old(children), cfg, want, admits, tried)
      ensures reliable && AllWritable(old(children), cfg, want, admits, tried) ==> ok
    {
      ghost var s := children;
      m, tried := NO_MOVES, {};
      res := CycleResult(0, 0, 0, false);
      NothingDone(s, cfg, want);
      var existing;
      ok, existing := List(cfg);
      if !ok { return; }
      var created: nat;
      ghost var c: set<string>, u: set<string>, more: set<string>;
      ok, created, c, tried := CreateMissing(cfg, want, existing);
      m := Moves(c, {}, {});
      res := CycleResult(created, 0, 0, false);
      if !ok { return; }
      ok, res, u, more := RollOut(cfg, want, existing, created, s, c);
      WritablePlus(s, cfg, want, admits, tried, more);
      m, tried := Moves(c, u, {}), tried + more;
    }

    /** Deletes or releases the labelled children that no source asks for. */
    method CleanupOrphans(cfg: Settings, want: Desired, active: set<string>, ghost s: Store, ghost m0: Moves)
      returns (ok: bool, ghost removed: set<string>)
      requires active == want.Keys
      requires m0.removed == {} && Reached(s, cfg, want, m0, children)
      modifies this
      ensures Reached(s, cfg, want, m0.(removed := removed), children)
      ensures ok && (Policy(cfg) == DELETE || Policy(cfg) == ORPHAN) ==> removed == Surplus(s, cfg, want)
      ensures ok ==> Releasable(s, cfg, Surplus(s, cfg, want), admits)
      ensures reliable && Releasable(s, cfg, Surplus(s, cfg, want), admits) ==> ok
    {
      removed := {};
      var items;
      ok, items := List(cfg);
      if !ok { return; }
      MovesEffect(s, cfg, want, m0);
      ghost var surplus := Surplus(s, cfg, want);
      var todo := items.Keys;
      while todo != {}
        invariant todo <= items.Keys && removed !! todo && removed <= surplus
        invariant Reached(s, cfg, want, m0.(removed := removed), children)
        invariant Policy(cfg) == DELETE || Policy(cfg) == ORPHAN ==> removed == surplus - todo
        invariant Releasable(s, cfg, removed, admits)
        decreases todo
      {
        var n :| n in todo;
        todo := todo - {n};
        if n in active { continue; }
        assert n in surplus;
        RemoveOne(s, cfg, want, m0.(removed := removed), n);
        if Policy(cfg) == DELETE {
          ok := Delete(n);
          if !ok { return; }
          removed := removed + {n};
        } else if Policy(cfg) == ORPHAN {
          ok := Update(n, Released(children[n], cfg));
          if !ok { return; }
          removed := removed + {n};
        }
      }
      ok := true;
    }

    /** Under the Orphan policy, releases every labelled child before the finalizer goes; otherwise leaves the
        children to the garbage collector. */
    method CleanupOnDeletion(cfg: Settings) returns (ok: bool, ghost removed: set<string>)
      modifies this
      ensures Policy(cfg) != ORPHAN ==> children == old(children)
      ensures Policy(cfg) == ORPHAN ==> Reached(old(children), cfg, map[], Moves({}, {}, removed), children)
      ensures ok && Policy(cfg) == ORPHAN ==> removed == Labelled(old(children), cfg) && Labelled(children, cfg) == {}
      ensures ok ==> Releasable(old(children), cfg, Labelled(old(children), cfg), admits)
      ensures reliable && Releasable(old(children), cfg, Labelled(old(children), cfg), admits) ==> ok
    {
      removed := {};
      ghost var s := children;
      NothingDone(s, cfg, map[]);
      var items;
      ok, items := List(cfg);
      if !ok { return; }
      var todo := items.Keys;
      while todo != {}
        invariant todo <= items.Keys && removed == items.Keys - todo
        invariant Policy(cfg) != ORPHAN ==> children == s
        invariant Policy(cfg) == ORPHAN ==> Reached(s, cfg, map[], Moves({}, {}, removed), children)
        invariant Releasable(s, cfg, removed, admits)
        decreases todo
      {
        var n :| n in todo;
        todo := todo - {n};
        if Policy(cfg) == ORPHAN {
          RemoveOne(s, cfg, map[], Moves({}, {}, removed), n);
          ok := Update(n, Released(children[n], cfg));
          if !ok { return; }
        }
        removed := removed + {n};
      }
      if Policy(cfg) == ORPHAN { MovesEffect(s, cfg, map[], Moves({}, {}, removed)); }
      ok := true;
    }

    /** A whole cycle after a successful discovery. Whatever fails, only allowed moves were made; if nothing fails,
        all of them were. When the API does not fail, the cycle succeeds exactly when what it tried to write and to
        release is permitted; a cycle that is refused a write cleans nothing up. */
    method Cycle(cfg: Settings, sources: seq<DiscoveredSource>, render: Renderer, hash: Hasher)
      returns (ok: bool, res: CycleResult, ghost m: Moves, ghost tried: set<string>)
      modifies this
      ensures WantedBy(cfg, sources, render, hash).None? ==> !ok && children == old(children)
      ensures WantedBy(cfg, sources, render, hash).Some? ==>
                var want := WantedBy(cfg, sources, render, hash).value;
                && Allowed(old(children), cfg, want, m)
                && children == After(old(children), cfg, want, m)
                && (ok ==> Complete(old(children), cfg, want, m) && Counts(old(children), cfg, want, m, res))
      ensures WantedBy(cfg, sources, render, hash).Some? ==>
                var want, s := WantedBy(cfg, sources, render, hash).value, old(children);
                (forall n :: Outcome(s, children, cfg, want, m, n)) && Paced(s, cfg, want, m, ok)
      ensures WantedBy(cfg, sources, render, hash).Some? ==>
                var want, s := WantedBy(cfg, sources, render, hash).value, old(children);
                var releasable := Releasable(s, cfg, Surplus(s, cfg, want), admits);
                var permitted := AllWritable(s, cfg, want, admits, tried) && releasable;
                && tried <= MayWrite(s, cfg, want)
                && (ok ==> permitted && tried == m.created + m.updated)
                && (reliable && permitted ==> ok)
                && (ok || m.removed != {} ==>
                      MustWrite(s, cfg, want) <= tried && AllWritable(s, cfg, want, admits, tried))
    {
      ghost var s := children;
      m, tried := NO_MOVES, {};
      res := CycleResult(0, 0, 0, false);
      var desired := BuildDesired(cfg, sources, render, hash);
      if desired.None? { return false, res, m, tried; }
      var want := desired.value;
      ok, res, m, tried := ReconcilePipelines(cfg, want);
      if !ok {
        CycleInPlainWords(s, cfg, want, m);
        return;
      }
      MustIsTried(s, cfg, want, m, res);
      var active := ActiveNames(cfg, sources);
      WantedNames(cfg, sources, render, hash);
      ghost var removed: set<string>;
      ok, removed := CleanupOrphans(cfg, want, active, s, m);
      m := m.(removed := removed);
      CycleInPlainWords(s, cfg, want, m);
    }
  }

  /** What the moves of a cycle make of each child, and how many it makes. */
  lemma CycleInPlainWords(s: Store, cfg: Settings, want: Desired, m: Moves)
    requires Allowed(s, cfg, want, m)
    ensures forall n :: Outcome(s, After(s, cfg, want, m), cfg, want, m, n)
    ensures Paced(s, cfg, want, m, Complete(s, cfg, want, m))
  {
    forall n ensures Outcome(s, After(s, cfg, want, m), cfg, want, m, n) { MovesOutcome(s, cfg, want, m, n); }
    MovesPaced(s, cfg, want, m);
  }

  /******* When a cycle succeeds *******/

  /** What a reconcile that succeeded has written covers what it must write. */
  lemma MustIsTried(s: Store, cfg: Settings, want: Desired, m: Moves, res: CycleResult)
    requires Within(s, cfg, want, m) && Counts(s, cfg, want, m, res)
    ensures MustWrite(s, cfg, want) <= m.created + m.updated
  {
    if |Missing(s, cfg, want)| <= Limit(cfg) { SubsetSize(m.created, Missing(s, cfg, want)); }
    if !Tripped(s, cfg, want) && |Stale(s, cfg, want)| <= Batch(|Labelled(s, cfg)|) {
      SubsetSize(m.updated, Stale(s, cfg, want));
    }
  }

  lemma WritableSubset(s: Store, cfg: Settings, want: Desired, admits: Webhook, a: set<string>, b: set<string>)
    requires a <= b && AllWritable(s, cfg, want, admits, b)
    ensures AllWritable(s, cfg, want, admits, a)
  {
  }

  /** The surplus children are as they were. */
  ghost predicate SurplusStays(s: Store, t: Store, cfg: Settings, want: Desired) {
    forall n :: n in Surplus(s, cfg, want) ==> n in t && t[n] == s[n]
  }

  /** A cycle that must write a refused child fails, whether or not API calls do, and cleans nothing up. */
  method RefusedCycle(cluster: Cluster, cfg: Settings, sources: seq<DiscoveredSource>, render: Renderer, hash: Hasher)
    returns (ok: bool)
    requires WantedBy(cfg, sources, render, hash).Some?
    requires var want, s := WantedBy(cfg, sources, render, hash).value, cluster.children;
             !AllWritable(s, cfg, want, cluster.admits, MustWrite(s, cfg, want))
    modifies cluster
    ensures !ok
    ensures SurplusStays(old(cluster.children), cluster.children, cfg, WantedBy(cfg, sources, render, hash).value)
  {
    ghost var s, want := cluster.children, WantedBy(cfg, sources, render, hash).value;
    var res;
    ghost var m: Moves, tried: set<string>;
    ok, res, m, tried := cluster.Cycle(cfg, sources, render, hash);
    StillRefused(s, cfg, want, cluster.admits, MustWrite(s, cfg, want), tried);
    NotRemovedStays(s, cfg, want, m);
  }

  lemma StillRefused(s: Store, cfg: Settings, want: Desired, admits: Webhook, a: set<string>, b: set<string>)
    requires !AllWritable(s, cfg, want, admits, a)
    ensures !(a <= b && AllWritable(s, cfg, want, admits, b))
  {
    if a <= b && AllWritable(s, cfg, want, admits, b) { WritableSubset(s, cfg, want, admits, a, b); }
  }

  lemma NotRemovedStays(s: Store, cfg: Settings, want: Desired, m: Moves)
    requires Within(s, cfg, want, m) && m.removed == {}
    ensures SurplusStays(s, After(s, cfg, want, m), cfg, want)
  {
  }

  /** A cycle whose API calls do not fail. If it must write all it may write, it succeeds if and only if each of those
      children, and each release, is permitted. */
  method ReliableCycle(cluster: Cluster, cfg: Settings, sources: seq<DiscoveredSource>, render: Renderer, hash: Hasher)
    returns (ok: bool)
    requires cluster.reliable && WantedBy(cfg, sources, render, hash).Some?
    modifies cluster
    ensures var want, s := WantedBy(cfg, sources, render, hash).value, old(cluster.children);
            var releasable := Releasable(s, cfg, Surplus(s, cfg, want), cluster.admits);
            && (ok ==> AllWritable(s, cfg, want, cluster.admits, MustWrite(s, cfg, want)) && releasable)
            && (Permitted(s, cfg, want, cluster.admits) ==> ok)
            && (MustWrite(s, cfg, want) == MayWrite(s, cfg, want) ==> (ok <==> Permitted(s, cfg, want, cluster.admits)))
  {
    ghost var s, want := cluster.children, WantedBy(cfg, sources, render, hash).value;
    var res;
    ghost var m: Moves, tried: set<string>;
    ok, res, m, tried := cluster.Cycle(cfg, sources, render, hash);
    if ok { WritableSubset(s, cfg, want, cluster.admits, MustWrite(s, cfg, want), tried); }
    if AllWritable(s, cfg, want, cluster.admits, MayWrite(s, cfg, want)) {
      WritableSubset(s, cfg, want, cluster.admits, tried, MayWrite(s, cfg, want));
    }
  }

  /******* Names that the webhook refuses *******/

  /** The operator's own webhook, given the image of the namespace's defaults. */
  ghost predicate IsWebhook(admits: Webhook, image: string) {
    forall n, spec {:trigger admits(n, spec)} :: admits(n, spec) <==> Admission.Admitted(n, spec, image)
  }

  /** A child's name is short enough for the webhook exactly when the part of the source's name that counts is. */
  lemma NameFitsIff(cfg: Settings, s: DiscoveredSource)
    ensures |ChildName(cfg, s)| <= Admission.MAX_NAME_LENGTH <==>
            |Names.Essence(cfg.name + "-" + s.name)| <= Admission.MAX_NAME_LENGTH
  {
    Names.SanitizedEssence(cfg.name + "-" + s.name);
  }

  lemma LongNameRefused(st: Store, cfg: Settings, want: Desired, admits: Webhook, image: string, s: DiscoveredSource)
    requires IsWebhook(admits, image) && ChildName(cfg, s) in Missing(st, cfg, want)
    requires |Missing(st, cfg, want)| <= Limit(cfg)
    requires |Names.Essence(cfg.name + "-" + s.name)| > Admission.MAX_NAME_LENGTH
    ensures !AllWritable(st, cfg, want, admits, MustWrite(st, cfg, want))
  {
    NameFitsIff(cfg, s);
    var n := ChildName(cfg, s);
    assert n in MustWrite(st, cfg, want);
    assert !admits(n, want[n].spec);
    assert !Writable(st, cfg, want, admits, n);
  }

  /** A source with a longer name stops its discovery: every cycle that must create the child fails and leaves the
      children that no source asks for as they are. */
  method LongNameStops(cluster: Cluster, cfg: Settings, sources: seq<DiscoveredSource>, render: Renderer, hash: Hasher,
                       ghost image: string, ghost i: nat)
    returns (ok: bool)
    requires IsWebhook(cluster.admits, image) && WantedBy(cfg, sources, render, hash).Some? && i < |sources|
    requires |Names.Essence(cfg.name + "-" + sources[i].name)| > Admission.MAX_NAME_LENGTH
    requires ChildName(cfg, sources[i]) !in Labelled(cluster.children, cfg)
    requires |Missing(cluster.children, cfg, WantedBy(cfg, sources, render, hash).value)| <= Limit(cfg)
    modifies cluster
    ensures !ok
    ensures SurplusStays(old(cluster.children), cluster.children, cfg, WantedBy(cfg, sources, render, hash).value)
  {
    WantedNames(cfg, sources, render, hash);
    ghost var want := WantedBy(cfg, sources, render, hash).value;
    LongNameRefused(cluster.children, cfg, want, cluster.admits, image, sources[i]);
    ok := RefusedCycle(cluster, cfg, sources, render, hash);
  }

  /** There is such a source: sanitizing leaves up to 253 characters, the webhook admits 244. */
  lemma LongNameExists(cfg: Settings)
    requires cfg.name == "d"
    ensures var s := DiscoveredSource(seq(250, i => 'a'), map[]);
            |Names.Essence(cfg.name + "-" + s.name)| == 252 && |ChildName(cfg, s)| == 252
  {
    var s := DiscoveredSource(seq(250, i => 'a'), map[]);
    var full := cfg.name + "-" + s.name;
    assert full[0] == 'd' && full[|full| - 1] == 'a';
    assert Names.IsName(full);
    Names.NameUnchanged(full);
    Names.SanitizedEssence(full);
  }

  /******* When to come back *******/

  /** The delay, in nanoseconds, before the next cycle: short after hitting the creation limit, 30 seconds
      during a rollout, the poll interval otherwise. */
  function Requeue(cfg: Settings, sources: nat, res: CycleResult, poll: int): int {
    if res.created >= Limit(cfg) && sources > res.created then SECOND
    else if res.pendingUpdates > 0 then 30 * SECOND
    else poll
  }

  /** The counters of a complete reconcile depend on no order of iteration. */
  ghost predicate Counts(s: Store, cfg: Settings, want: Desired, m: Moves, res: CycleResult) {
    var stale := |Stale(s, cfg, want)|;
    var blocked := stale > 0 && Tripped(s, cfg, want);
    && res.created == |m.created| == Min(Limit(cfg), |Missing(s, cfg, want)|)
    && res.updated == |m.updated| == (if blocked then 0 else Min(Batch(|Labelled(s, cfg)|), stale))
    && res.updated + res.pendingUpdates == stale
    && (res.healthCheckFail <==> blocked)
  }

  lemma NothingDone(s: Store, cfg: Settings, want: Desired)
    ensures Within(s, cfg, want, NO_MOVES) && After(s, cfg, want, NO_MOVES) == s
  {
  }

  lemma CreatedAll(created: nat, limit: nat, done: set<string>, missing: set<string>)
    requires created == |done| <= limit && done <= missing && (created < limit ==> missing <= done)
    ensures created == Min(limit, |missing|)
  {
    SubsetSize(done, missing);
    if created < limit { assert done == missing; }
  }

  /** Of what is missing, `done` is created, and as long as there is room nothing is passed over. */
  ghost predicate Swept(done: set<string>, todo: set<string>, missing: set<string>, room: bool) {
    done <= missing && done !! todo && (room ==> missing <= done + todo)
  }

  lemma SweepOne(done: set<string>, todo: set<string>, missing: set<string>, room: bool, n: string)
    requires Swept(done, todo, missing, room) && n in todo
    ensures n in missing ==> Swept(done + {n}, todo - {n}, missing, room)
    ensures !(n in missing && room) ==> Swept(done, todo - {n}, missing, room)
  {
  }

  lemma AddOne<T>(a: set<T>, x: T)
    requires x !in a
    ensures |a + {x}| == |a| + 1
  {
  }

  /** Phase 2: the listed children whose hash is not the desired one, in any order, each once. */
  method FindStale(want: Desired, existing: Store) returns (toUpdate: seq<string>)
    ensures NoRepeats(toUpdate)
    ensures forall n :: n in toUpdate <==> n in want && n in existing && HashOf(existing[n]) != want[n].hash
  {
    toUpdate := [];
    var todo := want.Keys;
    while todo != {}
      invariant todo <= want.Keys && NoRepeats(toUpdate)
      invariant forall n :: n in toUpdate <==>
                  n in want && n !in todo && n in existing && HashOf(existing[n]) != want[n].hash
      decreases todo
    {
      var n :| n in todo;
      todo := todo - {n};
      if n in existing && HashOf(existing[n]) != want[n].hash { toUpdate := toUpdate + [n]; }
    }
  }

  /** Phase 3: whether some listed child is up to date and unhealthy. */
  method CheckHealth(want: Desired, existing: Store) returns (unhealthy: bool)
    ensures unhealthy <==>
            exists n :: && n in existing && n in want
                        && existing[n].annotations.Some? && HashOf(existing[n]) == want[n].hash
                        && (existing[n].phase == Degraded || existing[n].phase == Error)
  {
    var todo := existing.Keys;
    while todo != {}
      invariant todo <= existing.Keys
      invariant forall n :: n in existing && n !in todo && n in want ==> !Alarms(existing[n], want[n])
      decreases todo
    {
      var n :| n in todo;
      todo := todo - {n};
      if n !in want { continue; }
      if existing[n].annotations.Some? && HashOf(existing[n]) == want[n].hash {
        if Unhealthy(existing[n]) { return true; }
      }
    }
    unhealthy := false;
  }

  lemma ListedStale(s: Store, cfg: Settings, want: Desired, existing: Store, toUpdate: seq<string>)
    requires existing.Keys == Labelled(s, cfg) && forall n :: n in existing ==> existing[n] == s[n]
    requires NoRepeats(toUpdate)
    requires forall n :: n in toUpdate <==> n in want && n in existing && HashOf(existing[n]) != want[n].hash
    ensures forall n :: n in toUpdate <==> n in Stale(s, cfg, want)
    ensures |toUpdate| == |Stale(s, cfg, want)|
  {
    assert forall n :: n in toUpdate <==> n in Stale(s, cfg, want);
    ListSize(toUpdate, Stale(s, cfg, want));
  }

  lemma {:induction false} ListSize<T>(l: seq<T>, items: set<T>)
    requires NoRepeats(l) && forall x :: x in l <==> x in items
    ensures |l| == |items|
  {
    if l == [] { assert items == {}; } else {
      var last := l[|l| - 1];
      var init := l[..|l| - 1];
      assert forall x :: x in l <==> x in init || x == last;
      ListSize(init, items - {last});
    }
  }

  lemma ListedHealth(s: Store, cfg: Settings, want: Desired, existing: Store)
    requires existing.Keys == Labelled(s, cfg) && forall n :: n in existing ==> existing[n] == s[n]
    ensures (exists n :: n in existing && n in want && Alarms(existing[n], want[n])) <==> Tripped(s, cfg, want)
  {
    if n :| n in existing && n in want && Alarms(existing[n], want[n]) { assert Alarms(s[n], want[n]); }
    if n :| n in Labelled(s, cfg) && n in want && Alarms(s[n], want[n]) { assert Alarms(existing[n], want[n]); }
  }

  lemma {:induction false} NamesAtMost(cfg: Settings, sources: seq<DiscoveredSource>)
    ensures |NamesOf(cfg, sources)| <= |sources|
  {
    if sources == [] {
    } else {
      NamesAtMost(cfg, sources[..|sources| - 1]);
      NamesOfStep(cfg, sources);
    }
  }

  lemma CreationComesBack(s: Store, cfg: Settings, sources: seq<DiscoveredSource>, want: Desired, m: Moves,
                          res: CycleResult, poll: int)
    requires want.Keys == NamesOf(cfg, sources)
    requires Allowed(s, cfg, want, m) && Complete(s, cfg, want, m) && Counts(s, cfg, want, m, res)
    requires Missing(s, cfg, want) - m.created != {}
    ensures Requeue(cfg, |sources|, res, poll) == SECOND
  {
    NamesAtMost(cfg, sources);
    SubsetSize(Missing(s, cfg, want), want.Keys);
    Remainder(m.created, Missing(s, cfg, want));
  }

  /** How a rollout decides when to come back. */
  lemma UpdateComesBack(s: Store, cfg: Settings, sources: nat, want: Desired, m: Moves, res: CycleResult, poll: int)
    requires Within(s, cfg, want, m) && Counts(s, cfg, want, m, res)
    ensures Stale(s, cfg, want) - m.updated != {} ==> Requeue(cfg, sources, res, poll) <= 30 * SECOND
    ensures |m.created| < Limit(cfg) || sources <= |m.created| ==>
              Requeue(cfg, sources, res, poll) == if Stale(s, cfg, want) - m.updated == {} then poll else 30 * SECOND
  {
    Remainder(m.updated, Stale(s, cfg, want));
  }

  /** No stalled work, however names collide and whatever the limit is: if a source still has no child, the controller
      is back in a second; if a child is still stale, in at most thirty. It comes back early for no other reason: when
      nothing is stale, and the limit was not hit with sources to spare, after the poll interval. */
  lemma NoStalledWork(s: Store, cfg: Settings, sources: seq<DiscoveredSource>, want: Desired, m: Moves,
                      res: CycleResult, poll: int)
    requires want.Keys == NamesOf(cfg, sources)
    requires Allowed(s, cfg, want, m) && Complete(s, cfg, want, m) && Counts(s, cfg, want, m, res)
    ensures var t := After(s, cfg, want, m);
            && (Missing(t, cfg, want) != {} ==> Requeue(cfg, |sources|, res, poll) == SECOND)
            && (Stale(t, cfg, want) != {} ==> Requeue(cfg, |sources|, res, poll) <= 30 * SECOND)
            && ((|m.created| < Limit(cfg) || |sources| <= |m.created|) ==>
                  Requeue(cfg, |sources|, res, poll) == if Stale(t, cfg, want) == {} then poll else 30 * SECOND)
  {
    MovesEffect(s, cfg, want, m);
    if Missing(s, cfg, want) - m.created != {} { CreationComesBack(s, cfg, sources, want, m, res, poll); }
    UpdateComesBack(s, cfg, |sources|, want, m, res, poll);
  }

  lemma Remainder<T>(part: set<T>, whole: set<T>)
    requires part <= whole
    ensures |part| <= |whole| && (whole - part == {} <==> |part| == |whole|)
  {
    SubsetSize(part, whole);
    assert whole == part + (whole - part);
  }
}
