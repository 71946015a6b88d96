/** One cycle of the source-discovery controller over the pipelines of a namespace. */
module Discovery {
  import opened Api
  import Lists

  /******* Child pipelines *******/

  const KIND := "DataPrepperSourceDiscovery"
  const MANAGED_BY := "dataprepper-operator"
  const DELETE := "Delete"
  const ORPHAN := "Orphan"
  const DEFAULT_MAX_CREATIONS := 10

  /** The empty phase is a pipeline whose status was never written. */
  datatype Phase = Unset | Pending | Running | Degraded | Error

  datatype OwnerRef = OwnerRef(kind: string, name: string, uid: string, controller: bool)

  /** A label map: the three labels the controller sets, and the rest. */
  datatype Labels = Labels(
    discovery: Option<string>,
    orphaned: bool,
    managedBy: Option<string>,
    others: map<string, string>)

  /** An annotation map: the template hash the controller sets, and the rest. */
  datatype Annotations = Annotations(templateHash: Option<string>, others: map<string, string>)

  /** `annotations` is `None` when the map is nil. */
  datatype Child = Child(
    labels: Labels,
    annotations: Option<Annotations>,
    owners: seq<OwnerRef>,
    phase: Phase,
    spec: PipelineSpec)

  type Store = map<string, Child>

  /** The parts of the discovery object that a cycle reads. */
  datatype Settings = Settings(name: string, uid: string, maxCreations: Option<int32>, cleanupPolicy: string)

  function Limit(cfg: Settings): nat {
    if cfg.maxCreations.Some? && cfg.maxCreations.value > 0 then cfg.maxCreations.value else DEFAULT_MAX_CREATIONS
  }

  function Policy(cfg: Settings): string {
    if cfg.cleanupPolicy != "" then cfg.cleanupPolicy else DELETE
  }

  function Self(cfg: Settings): OwnerRef { OwnerRef(KIND, cfg.name, cfg.uid, true) }

  predicate Matches(c: Child, cfg: Settings) { c.labels.discovery == Some(cfg.name) }

  /** The annotation that decides drift; a missing one reads as the empty string. */
  function HashOf(c: Child): string {
    if c.annotations.Some? && c.annotations.value.templateHash.Some? then c.annotations.value.templateHash.value else ""
  }

  /******* Ownership *******/

  predicate SameOwner(a: OwnerRef, b: OwnerRef) { a.kind == b.kind && a.name == b.name }

  /** The reference may become the controller: no other object is. */
  predicate Controllable(owners: seq<OwnerRef>, ref: OwnerRef) {
    owners == [] || (if owners[0].controller then SameOwner(owners[0], ref) else Controllable(owners[1..], ref))
  }

  /** Replaces the reference to the same object, or appends it. */
  function SetOwner(owners: seq<OwnerRef>, ref: OwnerRef): seq<OwnerRef> {
    if owners == [] then [ref]
    else if SameOwner(owners[0], ref) then [ref] + owners[1..]
    else [owners[0]] + SetOwner(owners[1..], ref)
  }

  function RemoveOwner(owners: seq<OwnerRef>, uid: string): seq<OwnerRef> {
    if owners == [] then []
    else (if owners[0].uid != uid then [owners[0]] else []) + RemoveOwner(owners[1..], uid)
  }

  /** Reference `i` is the first one to the object that `ref` refers to. */
  ghost predicate FirstTo(owners: seq<OwnerRef>, ref: OwnerRef, i: nat) {
    && i < |owners| && owners[i].kind == ref.kind && owners[i].name == ref.name
    && forall j :: 0 <= j < i ==> owners[j].kind != ref.kind || owners[j].name != ref.name
  }

  /** The reference takes the place of the first one to the same object, or the last place if there is none. */
  lemma {:induction false} SetOwnerIs(owners: seq<OwnerRef>, ref: OwnerRef)
    ensures ref in SetOwner(owners, ref) && forall o :: o in SetOwner(owners, ref) ==> o == ref || o in owners
    ensures (exists i: nat :: FirstTo(owners, ref, i) && SetOwner(owners, ref) == owners[i := ref]) ||
            (SetOwner(owners, ref) == owners + [ref] &&
             forall o :: o in owners ==> o.kind != ref.kind || o.name != ref.name)
  {
    if owners == [] {
    } else if SameOwner(owners[0], ref) {
      assert FirstTo(owners, ref, 0) && SetOwner(owners, ref) == owners[0 := ref];
    } else {
      var rest := owners[1..];
      SetOwnerIs(rest, ref);
      if i: nat :| FirstTo(rest, ref, i) && SetOwner(rest, ref) == rest[i := ref] {
        FirstBehind(owners, ref, i);
        assert SetOwner(owners, ref) == owners[i + 1 := ref];
      } else {
        assert forall o :: o in owners ==> o == owners[0] || o in rest;
      }
    }
  }

  lemma FirstBehind(owners: seq<OwnerRef>, ref: OwnerRef, i: nat)
    requires owners != [] && !SameOwner(owners[0], ref) && FirstTo(owners[1..], ref, i)
    ensures FirstTo(owners, ref, i + 1)
  {
    forall j | 0 <= j < i + 1 ensures owners[j].kind != ref.kind || owners[j].name != ref.name {
      if j > 0 { assert owners[1..][j - 1] == owners[j]; }
    }
  }

  /** The reference may become the controller exactly when the first controller, if any, is the same object. */
  lemma {:induction false} ControllableIff(owners: seq<OwnerRef>, ref: OwnerRef)
    ensures Controllable(owners, ref) <==>
            forall i :: 0 <= i < |owners| && owners[i].controller
                        && (forall j :: 0 <= j < i ==> !owners[j].controller) ==>
              owners[i].kind == ref.kind && owners[i].name == ref.name
  {
    if owners == [] {
    } else {
      var rest := owners[1..];
      ControllableIff(rest, ref);
      assert forall i :: 0 <= i < |rest| ==> rest[i] == owners[i + 1];
    }
  }

  /** What is removed are the references with that identifier and no others. */
  lemma {:induction false} RemoveOwnerIs(owners: seq<OwnerRef>, uid: string)
    ensures forall o :: o in RemoveOwner(owners, uid) <==> o in owners && o.uid != uid
    ensures forall o: OwnerRef :: o.uid != uid ==> multiset(RemoveOwner(owners, uid))[o] == multiset(owners)[o]
  {
    if owners == [] {
    } else {
      RemoveOwnerIs(owners[1..], uid);
      assert owners == [owners[0]] + owners[1..];
    }
  }

  /******* Desired state *******/

  datatype Wanted = Wanted(spec: PipelineSpec, hash: string)

  type Desired = map<string, Wanted>

  const NEW_CHILD := Child(Labels(None, false, None, map[]), None, [], Unset,
                           PipelineSpec("", "", [], None, None, None, None, map[], map[], map[], Json("")))

  function Existing(s: Store, n: string): Child { if n in s then s[n] else NEW_CHILD }

  /** What creating or updating a child writes; an `orphaned` label stays. */
  function Adopted(c: Child, cfg: Settings, w: Wanted): Child {
    Child(c.labels.(discovery := Some(cfg.name), managedBy := Some(MANAGED_BY)),
          Some(Annotations(Some(w.hash), if c.annotations.Some? then c.annotations.value.others else map[])),
          SetOwner(c.owners, Self(cfg)),
          c.phase,
          w.spec)
  }

  /** What orphaning a child writes. */
  function Released(c: Child, cfg: Settings): Child {
    c.(labels := c.labels.(discovery := None, orphaned := true), owners := RemoveOwner(c.owners, cfg.uid))
  }

  /******* Where the store stands with respect to the desired state *******/

  ghost function Labelled(s: Store, cfg: Settings): set<string> {
    set n | n in s && Matches(s[n], cfg)
  }

  /** Desired names without a labelled child. */
  ghost function Missing(s: Store, cfg: Settings, want: Desired): set<string> {
    want.Keys - Labelled(s, cfg)
  }

  /** Labelled children whose hash is not the desired one. */
  ghost function Stale(s: Store, cfg: Settings, want: Desired): set<string> {
    set n | n in Labelled(s, cfg) && n in want && HashOf(s[n]) != want[n].hash
  }

  /** Labelled children that no source asks for. */
  ghost function Surplus(s: Store, cfg: Settings, want: Desired): set<string> {
    Labelled(s, cfg) - want.Keys
  }

  predicate Unhealthy(c: Child) { c.phase == Degraded || c.phase == Error }

  /** The child already carries the hash `w` asks for, and it is unhealthy. */
  predicate Alarms(c: Child, w: Wanted) {
    c.annotations.Some? && HashOf(c) == w.hash && Unhealthy(c)
  }

  /** The health gate: some labelled child that is already up to date is unhealthy. */
  ghost predicate Tripped(s: Store, cfg: Settings, want: Desired) {
    exists n :: n in Labelled(s, cfg) && n in want && Alarms(s[n], want[n])
  }

  /** The number of children one cycle may update: the least positive number of which five make up the total. */
  function Batch(total: nat): (r: nat)
    ensures r >= 1 && 5 * r >= total && (r == 1 || 5 * (r - 1) < total)
  {
    if (total + 4) / 5 > 1 then (total + 4) / 5 else 1
  }

  /******* What a cycle may do *******/

  datatype Moves = Moves(created: set<string>, updated: set<string>, removed: set<string>)

  const NO_MOVES := Moves({}, {}, {})

  ghost function After(s: Store, cfg: Settings, want: Desired, m: Moves): Store
    requires m.created + m.updated <= want.Keys
  {
    map n | n in s.Keys + m.created && !(n in m.removed && Policy(cfg) == DELETE) ::
      if n in m.created + m.updated then Adopted(Existing(s, n), cfg, want[n])
      else if n in m.removed then Released(s[n], cfg)
      else s[n]
  }

  /** Only missing names are created, only stale children updated, only surplus ones removed. */
  ghost predicate Within(s: Store, cfg: Settings, want: Desired, m: Moves) {
    && m.created <= Missing(s, cfg, want)
    && m.updated <= Stale(s, cfg, want)
    && m.removed <= Surplus(s, cfg, want)
    && (m.removed != {} ==> Policy(cfg) == DELETE || Policy(cfg) == ORPHAN)
  }

  ghost predicate Allowed(s: Store, cfg: Settings, want: Desired, m: Moves) {
    && Within(s, cfg, want, m)
    && |m.created| <= Limit(cfg)
    && |m.updated| <= Batch(|Labelled(s, cfg)|)
    && (m.updated != {} ==> !Tripped(s, cfg, want))
  }

  /** The cycle did all that it may do. */
  ghost predicate Complete(s: Store, cfg: Settings, want: Desired, m: Moves) {
    && |m.created| == Min(Limit(cfg), |Missing(s, cfg, want)|)
    && |m.updated| == (if Tripped(s, cfg, want) then 0 else Min(Batch(|Labelled(s, cfg)|), |Stale(s, cfg, want)|))
    && (Policy(cfg) == DELETE || Policy(cfg) == ORPHAN ==> m.removed == Surplus(s, cfg, want))
  }

  function Min(a: nat, b: nat): nat { if a < b then a else b }

  lemma LabelledAfter(s: Store, cfg: Settings, want: Desired, m: Moves, n: string)
    requires Within(s, cfg, want, m)
    ensures n in Labelled(After(s, cfg, want, m), cfg) <==> n in Labelled(s, cfg) + m.created - m.removed
  {
    var t := After(s, cfg, want, m);
    if n in m.created + m.updated {
      assert n !in m.removed;
      assert n in t && t[n] == Adopted(Existing(s, n), cfg, want[n]);
    } else if n in m.removed {
      assert n in t ==> t[n] == Released(s[n], cfg);
    } else {
      assert n in t <==> n in s;
    }
  }

  lemma StaleAfter(s: Store, cfg: Settings, want: Desired, m: Moves, n: string)
    requires Within(s, cfg, want, m)
    ensures n in Stale(After(s, cfg, want, m), cfg, want) <==> n in Stale(s, cfg, want) - m.updated
  {
    var t := After(s, cfg, want, m);
    LabelledAfter(s, cfg, want, m, n);
    if n in m.created + m.updated {
      assert n !in m.removed;
      assert n in t && t[n] == Adopted(Existing(s, n), cfg, want[n]);
    } else if n in t && n in want && n !in m.removed {
      assert t[n] == s[n];
    }
  }

  /** Progress is exact: what was done is no longer to do, and nothing else changed its standing. */
  lemma MovesEffect(s: Store, cfg: Settings, want: Desired, m: Moves)
    requires Within(s, cfg, want, m)
    ensures var t := After(s, cfg, want, m);
            && Labelled(t, cfg) == Labelled(s, cfg) + m.created - m.removed
            && Missing(t, cfg, want) == Missing(s, cfg, want) - m.created
            && Stale(t, cfg, want) == Stale(s, cfg, want) - m.updated
            && Surplus(t, cfg, want) == Surplus(s, cfg, want) - m.removed
  {
    var t := After(s, cfg, want, m);
    forall n ensures n in Labelled(t, cfg) <==> n in Labelled(s, cfg) + m.created - m.removed {
      LabelledAfter(s, cfg, want, m, n);
    }
    forall n ensures n in Stale(t, cfg, want) <==> n in Stale(s, cfg, want) - m.updated {
      StaleAfter(s, cfg, want, m, n);
    }
  }

  /******* What becomes of each child *******/

  function OtherAnnotations(c: Child): map<string, string> {
    if c.annotations.Some? then c.annotations.value.others else map[]
  }

  /** `after` is `before` written for the discovery: spec, hash, the two labels and the controller are what they should
      be, and everything else is as it was. */
  ghost predicate Written(before: Child, after: Child, cfg: Settings, w: Wanted) {
    && after.spec == w.spec && after.annotations.Some? && after.annotations.value.templateHash == Some(w.hash)
    && after.labels.discovery == Some(cfg.name) && after.labels.managedBy == Some("dataprepper-operator")
    && OwnerRef("DataPrepperSourceDiscovery", cfg.name, cfg.uid, true) in after.owners
    && (forall o: OwnerRef :: o.kind != "DataPrepperSourceDiscovery" || o.name != cfg.name ==>
          multiset(after.owners)[o] == multiset(before.owners)[o])
    && after.phase == before.phase && OtherAnnotations(after) == OtherAnnotations(before)
    && after.labels.orphaned == before.labels.orphaned && after.labels.others == before.labels.others
  }

  /** `after` is `before` let go by the discovery: marked as orphaned, without its label and owner reference. */
  ghost predicate LetGo(before: Child, after: Child, cfg: Settings) {
    && after.labels.discovery == None && after.labels.orphaned
    && (forall o :: o in after.owners ==> o.uid != cfg.uid)
    && (forall o: OwnerRef :: o.uid != cfg.uid ==> multiset(after.owners)[o] == multiset(before.owners)[o])
    && after.spec == before.spec && after.annotations == before.annotations && after.phase == before.phase
    && after.labels.managedBy == before.labels.managedBy && after.labels.others == before.labels.others
  }

  lemma {:induction false} SetOwnerKeeps(owners: seq<OwnerRef>, ref: OwnerRef, o: OwnerRef)
    requires o.kind != ref.kind || o.name != ref.name
    ensures multiset(SetOwner(owners, ref))[o] == multiset(owners)[o]
  {
    if owners == [] {
    } else {
      assert owners == [owners[0]] + owners[1..];
      if !SameOwner(owners[0], ref) { SetOwnerKeeps(owners[1..], ref, o); }
    }
  }

  lemma AdoptedIsWritten(c: Child, cfg: Settings, w: Wanted)
    ensures Written(c, Adopted(c, cfg, w), cfg, w)
  {
    SetOwnerIs(c.owners, Self(cfg));
    forall o: OwnerRef | o.kind != KIND || o.name != cfg.name
      ensures multiset(SetOwner(c.owners, Self(cfg)))[o] == multiset(c.owners)[o]
    {
      SetOwnerKeeps(c.owners, Self(cfg), o);
    }
  }

  lemma ReleasedIsLetGo(c: Child, cfg: Settings)
    ensures LetGo(c, Released(c, cfg), cfg)
  {
    RemoveOwnerIs(c.owners, cfg.uid);
  }

  /** A child created from nothing. */
  function Fresh(cfg: Settings, w: Wanted): Child {
    Child(Labels(Some(cfg.name), false, Some("dataprepper-operator"), map[]),
          Some(Annotations(Some(w.hash), map[])),
          [OwnerRef("DataPrepperSourceDiscovery", cfg.name, cfg.uid, true)],
          Unset,
          w.spec)
  }

  /** What a cycle makes of the child called `n`. */
  ghost predicate Outcome(s: Store, t: Store, cfg: Settings, want: Desired, m: Moves, n: string) {
    if n in m.created + m.updated then
      && n in t && n in want
      && if n in s then Written(s[n], t[n], cfg, want[n]) else t[n] == Fresh(cfg, want[n])
    else if n in m.removed && (cfg.cleanupPolicy == "" || cfg.cleanupPolicy == "Delete") then n !in t
    else if n in m.removed then cfg.cleanupPolicy == "Orphan" && n in s && n in t && LetGo(s[n], t[n], cfg)
    else (n in t <==> n in s) && (n in s ==> t[n] == s[n])
  }

  lemma MovesOutcome(s: Store, cfg: Settings, want: Desired, m: Moves, n: string)
    requires Within(s, cfg, want, m)
    ensures Outcome(s, After(s, cfg, want, m), cfg, want, m, n)
  {
    if n in m.created + m.updated {
      AdoptedIsWritten(Existing(s, n), cfg, want[n]);
      assert n !in m.removed;
    } else if n in m.removed {
      ReleasedIsLetGo(s[n], cfg);
    }
  }

  /** The pace of a cycle in plain numbers. It creates up to the limit, 10 unless the user sets one, and updates a fifth
      of the labelled children, rounded up, or one; nothing behind a closed gate. A complete cycle does less only when
      there is nothing left to do. */
  ghost predicate Paced(s: Store, cfg: Settings, want: Desired, m: Moves, complete: bool) {
    var limit := if cfg.maxCreations.Some? && cfg.maxCreations.value > 0 then cfg.maxCreations.value else 10;
    && |m.created| <= limit && (complete && m.created != Missing(s, cfg, want) ==> |m.created| == limit)
    && (|m.updated| <= 1 || 5 * (|m.updated| - 1) < |Labelled(s, cfg)|) && (Tripped(s, cfg, want) ==> m.updated == {})
    && (complete && !Tripped(s, cfg, want) && m.updated != Stale(s, cfg, want) ==>
          m.updated != {} && 5 * |m.updated| >= |Labelled(s, cfg)|)
  }

  lemma MovesPaced(s: Store, cfg: Settings, want: Desired, m: Moves)
    requires Allowed(s, cfg, want, m)
    ensures Paced(s, cfg, want, m, Complete(s, cfg, want, m))
  {
    if |m.updated| == |Stale(s, cfg, want)| { Lists.SubsetSize(m.updated, Stale(s, cfg, want)); }
    if |m.created| == |Missing(s, cfg, want)| { Lists.SubsetSize(m.created, Missing(s, cfg, want)); }
  }
}
