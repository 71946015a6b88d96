/** The discovery object, its children and the garbage collector, step by step: reconciles interleaved with
    deletion by the user, controller crashes and everything else that may happen between two API calls. */
module Ownership {
  import opened Api
  import opened Discovery

  /******* The world *******/

  /** The discovery object in the API server. `foreground` is the finalizer of a foreground deletion;
      `version` changes with every write. */
  datatype Object =
    | Absent
    | Present(cfg: Settings, deleting: bool, foreground: bool, finalizer: bool, version: nat)

  /** Where the controller is between two API calls. Reconciles of one object are serialised. `todo` holds the listed
      copies of the children still to be released. */
  datatype Control =
    | Idle
    | Fetched(cfg: Settings, deleting: bool, finalizer: bool, version: nat)
    | Working(cfg: Settings)
    | Releasing(cfg: Settings, todo: Store, version: nat)

  /** `others` are the other owners of pipelines, which outlive the run. */
  datatype World = World(object_: Object, children: Store, control: Control, clock: nat, others: set<string>)

  datatype Event =
    // the user and the cluster
    | UserCreates(cfg: Settings)
    | UserEdits(dropsFinalizer: bool)
    | UserDeletes(inForeground: bool)
    | UserCreatesChild(name: string, child: Child)
    | UserEditsChild(name: string, labels: Labels, owners: seq<OwnerRef>)
    | UserDeletesChild(name: string)
    | PhaseChanges(name: string, phase: Phase)
    | CollectorDeletes(name: string)
    | CollectorFinishes
    // the controller
    | Fetches
    | AddsFinalizer
    | StartsWork
    | Adopts(name: string, wanted: Wanted)
    | Releases(name: string)
    | Deletes(name: string)
    | Stops
    | ListsForDeletion
    | ReleasesForDeletion(name: string)
    | RemovesFinalizer

  predicate Owns(uid: string, c: Child) { exists o :: o in c.owners && o.uid == uid }

  /** The owner exists and is not itself waiting for its dependents to go. */
  predicate Solid(w: World, uid: string) {
    uid in w.others || (w.object_.Present? && w.object_.cfg.uid == uid && !(w.object_.deleting && w.object_.foreground))
  }

  /** The garbage collector deletes a child that has owners, none of them solid. */
  predicate Collectable(w: World, c: Child) {
    c.owners != [] && forall o :: o in c.owners ==> !Solid(w, o.uid)
  }

  /** An object under deletion disappears with its last finalizer. */
  function Settle(o: Object): Object {
    if o.Present? && o.deleting && !o.foreground && !o.finalizer then Absent else o
  }

  /** The write of the fetched copy goes through only if the object is still the one that was fetched. */
  predicate Unchanged(w: World, version: nat) { w.object_.Present? && w.object_.version == version }

  function Fails(w: World): World { w.(control := Idle) }

  function Get(s: Store, n: string): Option<Child> { if n in s then Some(s[n]) else None }

  /** The children that the label finds. */
  function Listed(w: World, cfg: Settings): Store {
    map n | n in w.children && Matches(w.children[n], cfg) :: w.children[n]
  }

  function WithChildren(w: World, children: Store): World { w.(children := children) }

  predicate LivingOther(w: World, o: OwnerRef) { o.kind != KIND && o.uid in w.others }

  /** Events of the user and the cluster. `None`: not possible in this state. */
  function Outside(w: World, e: Event): Option<World> {
    match e
    case UserCreates(cfg) =>
      if w.object_.Present? || cfg.uid in w.others then None
      else Some(w.(object_ := Present(cfg, false, false, false, w.clock + 1), clock := w.clock + 1))
    case UserEdits(dropsFinalizer) =>
      if w.object_.Absent? then None
      else
        var o := w.object_.(finalizer := w.object_.finalizer && !dropsFinalizer, version := w.clock + 1);
        Some(w.(object_ := Settle(o), clock := w.clock + 1))
    case UserDeletes(inForeground) =>
      if w.object_.Absent? then None
      else
        var o := w.object_.(deleting := true, foreground := w.object_.foreground || inForeground,
                            version := w.clock + 1);
        Some(w.(object_ := Settle(o), clock := w.clock + 1))
    case UserCreatesChild(name, child) =>
      if name in w.children || exists o :: o in child.owners && !LivingOther(w, o) then None
      else Some(WithChildren(w, w.children[name := child]))
    case UserEditsChild(name, labels, owners) =>
      // any labels; owners may go, and objects that live may come, but not a discovery object
      if name !in w.children || exists o :: o in owners && o !in w.children[name].owners && !LivingOther(w, o) then None
      else Some(WithChildren(w, w.children[name := w.children[name].(labels := labels, owners := owners)]))
    case UserDeletesChild(name) =>
      if name !in w.children then None else Some(WithChildren(w, w.children - {name}))
    case PhaseChanges(name, phase) =>
      if name !in w.children then None else Some(WithChildren(w, w.children[name := w.children[name].(phase := phase)]))
    case CollectorDeletes(name) =>
      if name !in w.children || !Collectable(w, w.children[name]) then None
      else Some(WithChildren(w, w.children - {name}))
    case CollectorFinishes =>
      if w.object_.Absent? || !w.object_.foreground
         || (exists n :: n in w.children && Owns(w.object_.cfg.uid, w.children[n])) then None
      else
        var o := w.object_.(foreground := false, version := w.clock + 1);
        Some(w.(object_ := Settle(o), clock := w.clock + 1))
    case _ => None
  }

  /** Steps of the controller. A crash or an error at any point is `Stops`. */
  function Inside(w: World, e: Event): Option<World> {
    match e
    case Fetches =>
      if !w.control.Idle? || w.object_.Absent? then None
      else Some(w.(control := Fetched(w.object_.cfg, w.object_.deleting, w.object_.finalizer, w.object_.version)))
    case AddsFinalizer =>
      if !w.control.Fetched? || w.control.deleting || w.control.finalizer then None
      else if !Unchanged(w, w.control.version) then Some(Fails(w))
      else Some(w.(object_ := w.object_.(finalizer := true, version := w.clock + 1), clock := w.clock + 1,
                   control := Working(w.control.cfg)))
    case StartsWork =>
      if !w.control.Fetched? || w.control.deleting || !w.control.finalizer then None
      else Some(w.(control := Working(w.control.cfg)))
    case Adopts(name, wanted) =>
      if !w.control.Working? || !Controllable(Existing(w.children, name).owners, Self(w.control.cfg)) then None
      else Some(WithChildren(w, w.children[name := Adopted(Existing(w.children, name), w.control.cfg, wanted)]))
    case Releases(name) =>
      if !w.control.Working? || Policy(w.control.cfg) != ORPHAN
         || name !in w.children || !Matches(w.children[name], w.control.cfg) then None
      else Some(WithChildren(w, w.children[name := Released(w.children[name], w.control.cfg)]))
    case Deletes(name) =>
      if !w.control.Working? || Policy(w.control.cfg) != DELETE
         || name !in w.children || !Matches(w.children[name], w.control.cfg) then None
      else Some(WithChildren(w, w.children - {name}))
    case Stops => Some(Fails(w))
    case ListsForDeletion =>
      if !w.control.Fetched? || !w.control.deleting || !w.control.finalizer then None
      else
        var todo := if Policy(w.control.cfg) == ORPHAN then Listed(w, w.control.cfg) else map[];
        Some(w.(control := Releasing(w.control.cfg, todo, w.control.version)))
    case ReleasesForDeletion(name) =>
      if !w.control.Releasing? || name !in w.control.todo then None
      else if Get(w.children, name) != Some(w.control.todo[name]) then Some(Fails(w))
      else Some(w.(children := w.children[name := Released(w.children[name], w.control.cfg)],
                   control := w.control.(todo := w.control.todo - {name})))
    case RemovesFinalizer =>
      if !w.control.Releasing? || w.control.todo != map[] then None
      else if !Unchanged(w, w.control.version) then Some(Fails(w))
      else
        var o := w.object_.(finalizer := false, version := w.clock + 1);
        Some(w.(object_ := Settle(o), clock := w.clock + 1, control := Idle))
    case _ => None
  }

  function Happens(w: World, e: Event): Option<World> {
    var inside := Inside(w, e);
    if inside.Some? then inside else Outside(w, e)
  }

  /** The world after a sequence of events, if they can happen in this order. */
  function After(w: World, events: seq<Event>): Option<World> {
    if events == [] then Some(w)
    else
      var before := After(w, events[..|events| - 1]);
      if before.None? then None else Happens(before.value, events[|events| - 1])
  }

  /******* The discovery object and the controller *******/

  ghost predicate CfgOk(w: World, name: string, cfg: Settings) {
    cfg.name == name && Policy(cfg) == ORPHAN && cfg.uid !in w.others
  }

  /** The discovery object, and the copy the controller has, are of this name and ask for orphans. */
  ghost predicate Known(w: World, name: string) {
    && (w.object_.Present? ==> CfgOk(w, name, w.object_.cfg) && w.object_.version <= w.clock)
    && (!w.control.Idle? ==> CfgOk(w, name, w.control.cfg))
  }

  /** The controller has seen the finalizer and may adopt children. */
  predicate AtWork(w: World) {
    w.control.Working? || (w.control.Fetched? && w.control.finalizer && !w.control.deleting)
  }

  /** A controller at work can rely on the finalizer, unless the user drops it: only the controller removes it. */
  ghost predicate ControlOk(w: World) {
    && (AtWork(w) ==> Held(w, w.control.cfg))
    && match w.control
       case Fetched(cfg, deleting, finalizer, version) =>
         && version <= w.clock
         && (Unchanged(w, version) ==>
               w.object_.cfg == cfg && w.object_.deleting == deleting && w.object_.finalizer == finalizer)
       case Releasing(cfg, todo, version) =>
         version <= w.clock && (Unchanged(w, version) ==> w.object_.cfg == cfg && w.object_.deleting)
       case _ => true
  }

  ghost predicate Held(w: World, cfg: Settings) { w.object_.Present? && w.object_.cfg == cfg && w.object_.finalizer }

  /** The assumption on the user: the discovery keeps its name and asks for orphans. */
  predicate Orphaning(e: Event, name: string) {
    e.UserCreates? ==> e.cfg.name == name && Policy(e.cfg) == ORPHAN
  }

  predicate AllOrphaning(events: seq<Event>, name: string) {
    forall i :: 0 <= i < |events| ==> Orphaning(events[i], name)
  }

  lemma StepKeepsKnown(w: World, e: Event, name: string)
    requires Known(w, name) && Orphaning(e, name) && Happens(w, e).Some?
    ensures Known(Happens(w, e).value, name)
  {
  }

  lemma StepKeepsControl(w: World, e: Event, name: string)
    requires Known(w, name) && ControlOk(w) && Happens(w, e).Some? && !(e == UserEdits(true) && AtWork(w))
    ensures ControlOk(Happens(w, e).value)
  {
  }

  /******* Where owners come from *******/

  /** An owner is another object, alive, or refers to a discovery object of this name, dead or alive. */
  ghost predicate OriginOk(w: World, name: string, c: Child) {
    forall o :: o in c.owners ==> LivingOther(w, o) || (o.kind == KIND && o.name == name && o.uid !in w.others)
  }

  ghost predicate Traced(w: World, name: string, n: string) {
    Known(w, name) && (n in w.children ==> OriginOk(w, name, w.children[n]))
  }

  lemma StepKeepsTraced(w: World, e: Event, name: string, n: string)
    requires Traced(w, name, n) && Orphaning(e, name) && Happens(w, e).Some?
    ensures Traced(Happens(w, e).value, name, n)
  {
    StepKeepsKnown(w, e, name);
    if e.Adopts? && e.name == n && w.control.Working? {
      SetOwnerIs(Existing(w.children, n).owners, Self(w.control.cfg));
    } else if (e.Releases? || e.ReleasesForDeletion?) && e.name == n && n in w.children && !w.control.Idle? {
      RemoveOwnerIs(w.children[n].owners, w.control.cfg.uid);
    }
  }

  lemma {:induction false} RunKeepsTraced(w: World, events: seq<Event>, name: string, n: string)
    requires Traced(w, name, n) && AllOrphaning(events, name) && After(w, events).Some?
    ensures Traced(After(w, events).value, name, n)
  {
    if events == [] {
    } else {
      var init := events[..|events| - 1];
      RunKeepsTraced(w, init, name, n);
      StepKeepsTraced(After(w, init).value, events[|events| - 1], name, n);
    }
  }

  /** After any run, exactly when the collector may delete a child: when discovery objects are its only owners, and each
      of them is gone or is being deleted in the foreground. */
  lemma Collectability(w: World, events: seq<Event>, name: string, n: string)
    requires Traced(w, name, n) && AllOrphaning(events, name)
    requires After(w, events).Some? && n in After(w, events).value.children
    ensures var v := After(w, events).value;
            var c := v.children[n];
            Collectable(v, c) <==>
            && c.owners != []
            && forall o :: o in c.owners ==>
                 o.kind == KIND && (Gone(v, o.uid) || (v.object_.deleting && v.object_.foreground))
  {
    RunKeepsTraced(w, events, name, n);
  }

  predicate Gone(w: World, uid: string) { w.object_.Absent? || w.object_.cfg.uid != uid }

  /******* The invariant under the Orphan policy, for one child *******/

  /** An owner is another object, or the discovery object while its finalizer holds it. */
  ghost predicate ChildOk(w: World, c: Child) { forall o :: o in c.owners ==> OwnerOk(w, o) }

  ghost predicate OwnerOk(w: World, o: OwnerRef) {
    LivingOther(w, o) || (w.object_.Present? && o == Self(w.object_.cfg) && w.object_.finalizer)
  }

  /** While children are being released, the child is on the list if it is owned. */
  ghost predicate Tracked(w: World, n: string) {
    w.control.Releasing? && n in w.children && Owns(w.control.cfg.uid, w.children[n]) ==> n in w.control.todo
  }

  ghost predicate Safe(w: World, name: string, n: string) {
    Known(w, name) && ControlOk(w) && (n in w.children ==> ChildOk(w, w.children[n])) && Tracked(w, n)
  }

  /** The controller is about to list the children to release, and the child is owned without the label. */
  predicate Missed(w: World, n: string) {
    && w.control.Fetched? && n in w.children
    && Owns(w.control.cfg.uid, w.children[n]) && !Matches(w.children[n], w.control.cfg)
  }

  /** The finalizer is all that protects the child: it is owned, or a controller at work may still adopt it. */
  predicate Exposed(w: World, n: string) {
    && w.object_.Present?
    && ((n in w.children && Owns(w.object_.cfg.uid, w.children[n])) || AtWork(w))
  }

  /** The two steps after which a deletion in the background can lose the child: a listing that misses it, and dropping
      the finalizer by hand while it is exposed. */
  predicate Endangers(w: World, e: Event, n: string) {
    (e.ListsForDeletion? && Missed(w, n)) || (e == UserEdits(true) && Exposed(w, n))
  }

  /** Every other step of the user and the cluster keeps the child safe. */
  lemma OutsideKeepsSafe(w: World, e: Event, name: string, n: string)
    requires Safe(w, name, n) && Orphaning(e, name) && Outside(w, e).Some? && !Endangers(w, e, n)
    ensures Safe(Outside(w, e).value, name, n)
  {
    NeverBoth(w, e);
    StepKeepsKnown(w, e, name);
    StepKeepsControl(w, e, name);
    if n in w.children { assert ChildOk(w, w.children[n]); }
  }

  lemma NeverBoth(w: World, e: Event)
    requires Outside(w, e).Some?
    ensures Inside(w, e).None?
  {
  }

  lemma AdoptKeepsSafe(w: World, name: string, n: string, wanted: Wanted)
    requires Safe(w, name, n) && w.control.Working?
    ensures ChildOk(w, Adopted(Existing(w.children, n), w.control.cfg, wanted))
  {
    SetOwnerIs(Existing(w.children, n).owners, Self(w.control.cfg));
  }

  lemma ReleaseKeepsSafe(w: World, c: Child, cfg: Settings)
    requires ChildOk(w, c)
    ensures ChildOk(w, Released(c, cfg)) && !Owns(cfg.uid, Released(c, cfg))
  {
    RemoveOwnerIs(c.owners, cfg.uid);
  }

  /** Every other step of the controller keeps the child safe. */
  lemma InsideKeepsSafe(w: World, e: Event, name: string, n: string)
    requires Safe(w, name, n) && Inside(w, e).Some? && !Endangers(w, e, n)
    ensures Safe(Inside(w, e).value, name, n)
  {
    StepKeepsKnown(w, e, name);
    StepKeepsControl(w, e, name);
    if e.Adopts? && e.name == n {
      AdoptKeepsSafe(w, name, n, e.wanted);
    } else if (e.Releases? || e.ReleasesForDeletion?) && e.name == n && n in w.children {
      ReleaseKeepsSafe(w, w.children[n], w.control.cfg);
    }
  }

  lemma StepKeepsSafe(w: World, e: Event, name: string, n: string)
    requires Safe(w, name, n) && Orphaning(e, name) && Happens(w, e).Some? && !Endangers(w, e, n)
    ensures Safe(Happens(w, e).value, name, n)
  {
    if Inside(w, e).Some? { InsideKeepsSafe(w, e, name, n); } else { OutsideKeepsSafe(w, e, name, n); }
  }

  /******* Whole runs *******/

  /** No step of the run endangers the child. */
  ghost predicate NeverEndangered(w: World, events: seq<Event>, n: string) {
    forall i {:trigger events[..i]} :: 0 <= i < |events| && After(w, events[..i]).Some? ==>
      !Endangers(After(w, events[..i]).value, events[i], n)
  }

  lemma NeverEndangeredPrefix(w: World, events: seq<Event>, n: string)
    requires events != [] && NeverEndangered(w, events, n)
    ensures NeverEndangered(w, events[..|events| - 1], n)
    ensures var before := After(w, events[..|events| - 1]);
            before.Some? ==> !Endangers(before.value, events[|events| - 1], n)
  {
    var init := events[..|events| - 1];
    forall i | 0 <= i < |init| && After(w, init[..i]).Some? ensures !Endangers(After(w, init[..i]).value, init[i], n) {
      assert init[..i] == events[..i] && init[i] == events[i];
    }
  }

  lemma {:induction false} RunKeepsSafe(w: World, events: seq<Event>, name: string, n: string)
    requires Safe(w, name, n) && AllOrphaning(events, name) && NeverEndangered(w, events, n) && After(w, events).Some?
    ensures Safe(After(w, events).value, name, n)
  {
    if events == [] {
    } else {
      var init := events[..|events| - 1];
      NeverEndangeredPrefix(w, events, n);
      RunKeepsSafe(w, init, name, n);
      StepKeepsSafe(After(w, init).value, events[|events| - 1], name, n);
    }
  }

  predicate InBackground(w: World) { w.object_.Present? ==> !w.object_.foreground }

  /** The user neither deletes the discovery object in the foreground nor deletes the child. */
  predicate Gentle(events: seq<Event>, n: string) {
    forall i :: 0 <= i < |events| ==> events[i] != UserDeletes(true) && events[i] != UserDeletesChild(n)
  }

  lemma {:induction false} StaysInBackground(w: World, events: seq<Event>, n: string)
    requires InBackground(w) && Gentle(events, n) && After(w, events).Some?
    ensures InBackground(After(w, events).value)
  {
    if events == [] {
    } else {
      var init := events[..|events| - 1];
      StaysInBackground(w, init, n);
      StepStaysInBackground(After(w, init).value, events[|events| - 1]);
    }
  }

  lemma StepStaysInBackground(w: World, e: Event)
    requires InBackground(w) && e != UserDeletes(true) && Happens(w, e).Some?
    ensures InBackground(Happens(w, e).value)
  {
  }

  /** Orphan safety. Children's labels and owners may be edited, the discovery object edited and deleted, the controller
      may crash, in any order: unless the deletion is in the foreground or one of the two endangering steps happens, the
      child disappears only if the user deletes it. */
  lemma {:induction false} ChildrenSurvive(w: World, events: seq<Event>, name: string, n: string)
    requires Safe(w, name, n) && InBackground(w) && n in w.children
    requires AllOrphaning(events, name) && Gentle(events, n) && NeverEndangered(w, events, n) && After(w, events).Some?
    ensures n in After(w, events).value.children
  {
    if events == [] {
    } else {
      var init := events[..|events| - 1];
      NeverEndangeredPrefix(w, events, n);
      ChildrenSurvive(w, init, name, n);
      RunKeepsSafe(w, init, name, n);
      StaysInBackground(w, init, n);
      StepKeepsChild(After(w, init).value, events[|events| - 1], name, n);
    }
  }

  lemma StepKeepsChild(w: World, e: Event, name: string, n: string)
    requires Safe(w, name, n) && InBackground(w) && n in w.children
    requires e != UserDeletesChild(n) && Happens(w, e).Some?
    ensures n in Happens(w, e).value.children
  {
    NotCollectable(w, w.children[n]);
  }

  lemma NotCollectable(w: World, c: Child)
    requires InBackground(w) && ChildOk(w, c)
    ensures !Collectable(w, c)
  {
    if c.owners != [] { assert OwnerOk(w, c.owners[0]); }
  }

  /** When the discovery object is gone, the child is not owned by it. */
  lemma GoneMeansReleased(w: World, name: string, n: string)
    requires Safe(w, name, n) && w.object_.Absent? && n in w.children
    ensures forall o :: o in w.children[n].owners ==> LivingOther(w, o)
  {
    forall o | o in w.children[n].owners ensures LivingOther(w, o) { assert OwnerOk(w, o); }
  }

  /******* A child that was endangered can be lost *******/

  /** Events in which the user neither deletes in the foreground nor deletes the child, and that do not endanger it. */
  predicate Calm(events: seq<Event>, name: string, n: string) {
    && AllOrphaning(events, name) && Gentle(events, n)
    && forall i :: 0 <= i < |events| ==> !events[i].ListsForDeletion? && events[i] != UserEdits(true)
  }

  lemma CalmPlus(a: seq<Event>, b: seq<Event>, name: string, n: string)
    requires Calm(a, name, n) && Calm(b, name, n)
    ensures Calm(a + b, name, n)
  {
  }

  lemma {:induction false} AfterPlus(w: World, a: seq<Event>, b: seq<Event>)
    requires After(w, a).Some?
    ensures After(w, a + b) == After(After(w, a).value, b)
  {
    if b == [] {
      assert a + b == a;
    } else {
      assert (a + b)[..|a + b| - 1] == a + b[..|b| - 1];
      AfterPlus(w, a, b[..|b| - 1]);
    }
  }

  lemma AfterOne(w: World, e: Event)
    ensures After(w, [e]) == Happens(w, e)
  {
    assert [e][..0] == [];
    assert After(w, []) == Some(w);
  }

  lemma AfterFirst(w: World, e: Event, rest: seq<Event>)
    requires Happens(w, e).Some?
    ensures After(w, [e] + rest) == After(Happens(w, e).value, rest)
  {
    AfterOne(w, e);
    AfterPlus(w, [e], rest);
  }

  lemma Extend(w: World, events: seq<Event>, e: Event) returns (v: World)
    requires After(w, events).Some? && Happens(After(w, events).value, e).Some?
    ensures After(w, events + [e]) == Some(v) && Happens(After(w, events).value, e) == Some(v)
  {
    assert (events + [e])[..|events|] == events;
    v := Happens(After(w, events).value, e).value;
  }

  lemma Next(w: World, run: seq<Event>, i: nat, u: World, v: World)
    requires i < |run| && After(w, run[..i]) == Some(u) && Happens(u, run[i]) == Some(v)
    ensures After(w, run[..i + 1]) == Some(v)
  {
    assert run[..i + 1][..i] == run[..i];
  }

  lemma DanglingIsCollectable(w: World, c: Child, o: OwnerRef)
    requires w.object_.Absent? && o.uid !in w.others && c.owners == [o]
    ensures Collectable(w, c)
  {
  }

  /** A child that refers to a discovery object that is gone can be lost. */
  lemma DanglingIsLost(w: World, name: string, n: string, o: OwnerRef) returns (events: seq<Event>)
    requires w.object_.Absent? && n in w.children && o in w.children[n].owners && o.uid !in w.others
    ensures Calm(events, name, n) && After(w, events).Some? && n !in After(w, events).value.children
  {
    var edit := UserEditsChild(n, w.children[n].labels, [o]);
    var v := Happens(w, edit).value;
    DanglingIsCollectable(v, v.children[n], o);
    events := [edit, CollectorDeletes(n)];
    AfterFirst(w, edit, [CollectorDeletes(n)]);
    AfterOne(v, CollectorDeletes(n));
    assert events == [edit] + [CollectorDeletes(n)];
  }

  /** A child of a discovery object that no finalizer holds can be lost. */
  lemma UnheldIsLost(w: World, name: string, n: string, o: OwnerRef) returns (events: seq<Event>)
    requires n in w.children && o in w.children[n].owners && o.uid !in w.others && InBackground(w)
    requires w.object_.Present? ==> !w.object_.finalizer
    ensures Calm(events, name, n) && After(w, events).Some? && n !in After(w, events).value.children
  {
    if w.object_.Absent? {
      events := DanglingIsLost(w, name, n, o);
    } else {
      var v := Happens(w, UserDeletes(false)).value;
      var rest := DanglingIsLost(v, name, n, o);
      AfterFirst(w, UserDeletes(false), rest);
      events := [UserDeletes(false)] + rest;
    }
  }

  /******* Lost after a listing *******/

  /** Events that release listed children only. */
  predicate OnlyReleases(events: seq<Event>) { forall i :: 0 <= i < |events| ==> events[i].ReleasesForDeletion? }

  ghost predicate ListIsFresh(w: World) {
    w.control.Releasing? && forall x :: x in w.control.todo ==> Get(w.children, x) == Some(w.control.todo[x])
  }

  lemma ReleaseOne(w: World, x: string) returns (v: World)
    requires ListIsFresh(w) && x in w.control.todo
    ensures Happens(w, ReleasesForDeletion(x)) == Some(v) && ListIsFresh(v)
    ensures v == w.(children := v.children, control := w.control.(todo := w.control.todo - {x}))
    ensures forall n :: n != x ==> Get(v.children, n) == Get(w.children, n)
  {
    v := Happens(w, ReleasesForDeletion(x)).value;
  }

  /** Without interference the controller releases everything on its list, and touches nothing else. */
  lemma ReleaseAll(w: World, n: string) returns (events: seq<Event>, v: World)
    requires ListIsFresh(w) && n !in w.control.todo
    ensures After(w, events) == Some(v) && OnlyReleases(events)
    ensures v == w.(children := v.children, control := w.control.(todo := map[]))
    ensures Get(v.children, n) == Get(w.children, n)
  {
    events, v := [], w;
    while v.control.todo != map[]
      invariant After(w, events) == Some(v) && OnlyReleases(events) && ListIsFresh(v) && n !in v.control.todo
      invariant v == w.(children := v.children, control := w.control.(todo := v.control.todo))
      invariant Get(v.children, n) == Get(w.children, n)
      decreases |v.control.todo|
    {
      var x :| x in v.control.todo;
      var u := Extend(w, events, ReleasesForDeletion(x));
      u := ReleaseOne(v, x);
      events, v := events + [ReleasesForDeletion(x)], u;
    }
  }

  /** The controller is about to list the children of a discovery object that is deleted in the background. */
  ghost predicate Listing(w: World) {
    && InBackground(w) && w.control.Fetched? && w.control.deleting && w.control.finalizer
    && Unchanged(w, w.control.version) && w.object_.deleting
  }

  lemma ListStep(w: World, n: string) returns (v: World)
    requires Listing(w) && Missed(w, n)
    ensures Happens(w, ListsForDeletion) == Some(v) && ListIsFresh(v) && n !in v.control.todo
    ensures v == w.(control := Releasing(w.control.cfg, v.control.todo, w.control.version))
  {
    v := Happens(w, ListsForDeletion).value;
  }

  lemma RemoveStep(w: World) returns (v: World)
    requires w.control.Releasing? && w.control.todo == map[] && Unchanged(w, w.control.version)
    requires w.object_.deleting && !w.object_.foreground
    ensures Happens(w, RemovesFinalizer) == Some(v) && v == World(Absent, w.children, Idle, w.clock + 1, w.others)
  {
    v := Happens(w, RemovesFinalizer).value;
  }

  /** Left alone, the deletion runs to its end and does not touch a child that was not listed. */
  lemma DeletionEnds(w: World, name: string, n: string) returns (events: seq<Event>, v: World)
    requires ListIsFresh(w) && n !in w.control.todo
    requires Unchanged(w, w.control.version) && w.object_.deleting && !w.object_.foreground
    ensures Calm(events, name, n) && After(w, events) == Some(v)
    ensures v.object_.Absent? && v.others == w.others && Get(v.children, n) == Get(w.children, n)
  {
    var releases, released := ReleaseAll(w, n);
    v := RemoveStep(released);
    events := releases + [RemovesFinalizer];
    assert events[..|events| - 1] == releases;
  }

  lemma MissedIsLost(w: World, name: string, n: string) returns (rest: seq<Event>)
    requires Listing(w) && Known(w, name) && Missed(w, n)
    ensures Calm(rest, name, n)
    ensures var v := After(w, [ListsForDeletion] + rest); v.Some? && n !in v.value.children
  {
    var o :| o in w.children[n].owners && o.uid == w.control.cfg.uid;
    var listed := ListStep(w, n);
    var ending, gone := DeletionEnds(listed, name, n);
    var loss := DanglingIsLost(gone, name, n, o);
    rest := ending + loss;
    CalmPlus(ending, loss, name, n);
    AfterPlus(listed, ending, loss);
    AfterFirst(w, ListsForDeletion, rest);
  }

  /******* Lost after the finalizer was dropped *******/

  lemma DropStep(w: World) returns (v: World)
    requires w.object_.Present? && InBackground(w)
    ensures Happens(w, UserEdits(true)) == Some(v) && InBackground(v)
    ensures v == w.(object_ := v.object_, clock := v.clock)
    ensures v.object_.Present? ==> v.object_.cfg == w.object_.cfg && !v.object_.finalizer
  {
    v := Happens(w, UserEdits(true)).value;
  }

  /** A controller at work adopts the child, although nothing holds the discovery object any more. */
  lemma AdoptsUnheld(w: World, name: string, n: string, wanted: Wanted) returns (events: seq<Event>, v: World)
    requires AtWork(w) && n in w.children
    ensures Calm(events, name, n) && After(w, events) == Some(v)
    ensures v.object_ == w.object_ && v.others == w.others
    ensures n in v.children && v.children[n].owners == [Self(w.control.cfg)]
  {
    var start := if w.control.Fetched? then [StartsWork] else [];
    var u := w.(control := Working(w.control.cfg));
    assert After(w, start) == Some(u) by { if w.control.Fetched? { AfterOne(w, StartsWork); } }
    var rest;
    rest, v := AdoptsOrphan(u, name, n, wanted);
    AfterPlus(w, start, rest);
    CalmPlus(start, rest, name, n);
    events := start + rest;
  }

  lemma AdoptsOrphan(w: World, name: string, n: string, wanted: Wanted) returns (events: seq<Event>, v: World)
    requires w.control.Working? && n in w.children
    ensures Calm(events, name, n) && After(w, events) == Some(v)
    ensures v.object_ == w.object_ && v.others == w.others
    ensures n in v.children && v.children[n].owners == [Self(w.control.cfg)]
  {
    var edit := UserEditsChild(n, w.children[n].labels, []);
    var edited := Happens(w, edit).value;
    v := Happens(edited, Adopts(n, wanted)).value;
    AfterOne(edited, Adopts(n, wanted));
    AfterFirst(w, edit, [Adopts(n, wanted)]);
    events := [edit] + [Adopts(n, wanted)];
  }

  lemma DropIsLost(w: World, name: string, n: string, wanted: Wanted) returns (rest: seq<Event>)
    requires Known(w, name) && ControlOk(w) && InBackground(w) && n in w.children && Exposed(w, n)
    ensures Calm(rest, name, n)
    ensures var v := After(w, [UserEdits(true)] + rest); v.Some? && n !in v.value.children
  {
    var dropped := DropStep(w);
    if Owns(w.object_.cfg.uid, w.children[n]) {
      var o :| o in w.children[n].owners && o.uid == w.object_.cfg.uid;
      rest := UnheldIsLost(dropped, name, n, o);
    } else {
      var adoption, adopted := AdoptsUnheld(dropped, name, n, wanted);
      var loss := UnheldIsLost(adopted, name, n, Self(w.control.cfg));
      rest := adoption + loss;
      CalmPlus(adoption, loss, name, n);
      AfterPlus(dropped, adoption, loss);
    }
    AfterFirst(w, UserEdits(true), rest);
  }

  /******* The exact condition *******/

  /** After the step `e` the child can be lost in a deletion in the background, with no further endangering step. */
  ghost predicate CanBeLostAfter(w: World, e: Event, name: string, n: string) {
    exists rest :: Calm(rest, name, n) && Loses(After(w, [e] + rest), n)
  }

  predicate Loses(w: Option<World>, n: string) { w.Some? && n !in w.value.children }

  lemma SafeStepLosesNothing(w: World, e: Event, name: string, n: string)
    requires Safe(w, name, n) && InBackground(w) && n in w.children && Orphaning(e, name)
    requires e != UserDeletes(true) && e != UserDeletesChild(n) && Happens(w, e).Some? && !Endangers(w, e, n)
    ensures !CanBeLostAfter(w, e, name, n)
  {
    var v := Happens(w, e).value;
    StepKeepsSafe(w, e, name, n);
    StepStaysInBackground(w, e);
    StepKeepsChild(w, e, name, n);
    forall rest | Calm(rest, name, n) ensures !Loses(After(w, [e] + rest), n) {
      AfterFirst(w, e, rest);
      if After(v, rest).Some? { ChildrenSurvive(v, rest, name, n); }
    }
  }

  /** At the listing of a background deletion: the child can be lost, though the user does not delete it and without a
      further endangering step, if and only if it is owned without the label. */
  lemma ListingDecides(w: World, name: string, n: string)
    requires Safe(w, name, n) && Listing(w) && n in w.children
    ensures CanBeLostAfter(w, ListsForDeletion, name, n) <==> Missed(w, n)
  {
    if Missed(w, n) {
      var rest := MissedIsLost(w, name, n);
      assert Loses(After(w, [ListsForDeletion] + rest), n);
    } else {
      SafeStepLosesNothing(w, ListsForDeletion, name, n);
    }
  }

  /** When the user drops the finalizer by hand: the child can be lost, without a further endangering step, if and only
      if it is owned by the discovery object, or a controller that has seen the finalizer is at work. */
  lemma DropDecides(w: World, name: string, n: string, wanted: Wanted)
    requires Safe(w, name, n) && InBackground(w) && w.object_.Present? && n in w.children
    ensures CanBeLostAfter(w, UserEdits(true), name, n) <==> Exposed(w, n)
  {
    if Exposed(w, n) {
      var rest := DropIsLost(w, name, n, wanted);
      assert Loses(After(w, [UserEdits(true)] + rest), n);
    } else {
      SafeStepLosesNothing(w, UserEdits(true), name, n);
    }
  }

  /******* Three runs that lose a child *******/

  const EMPTY := World(Absent, map[], Idle, 0, {})

  function LosingRun(wanted: Wanted): seq<Event> {
    [UserCreates(SAMPLE), Fetches, AddsFinalizer, Adopts("c", wanted), UserDeletes(true), CollectorDeletes("c")]
  }

  const SAMPLE := Settings("d", "u1", None, ORPHAN)

  const HELD := World(Present(SAMPLE, false, false, true, 2), map[], Working(SAMPLE), 2, {})

  lemma RunUpToFinalizer()
    ensures After(EMPTY, [UserCreates(SAMPLE), Fetches, AddsFinalizer]) == Some(HELD)
  {
    var w1 := Extend(EMPTY, [], UserCreates(SAMPLE));
    assert [] + [UserCreates(SAMPLE)] == [UserCreates(SAMPLE)];
    var w2 := Extend(EMPTY, [UserCreates(SAMPLE)], Fetches);
    assert [UserCreates(SAMPLE)] + [Fetches] == [UserCreates(SAMPLE), Fetches];
    var w3 := Extend(EMPTY, [UserCreates(SAMPLE), Fetches], AddsFinalizer);
    assert [UserCreates(SAMPLE), Fetches] + [AddsFinalizer] == [UserCreates(SAMPLE), Fetches, AddsFinalizer];
  }

  lemma RunUpToDeletion(wanted: Wanted) returns (w: World)
    ensures After(EMPTY, LosingRun(wanted)[..5]) == Some(w)
    ensures w.object_ == Present(SAMPLE, true, true, true, 3) && w.others == {}
    ensures w.children.Keys == {"c"} && w.children["c"].owners == [Self(SAMPLE)]
  {
    var held := [UserCreates(SAMPLE), Fetches, AddsFinalizer];
    RunUpToFinalizer();
    var v := Extend(EMPTY, held, Adopts("c", wanted));
    assert v.children["c"].owners == [Self(SAMPLE)];
    w := Extend(EMPTY, held + [Adopts("c", wanted)], UserDeletes(true));
    assert held + [Adopts("c", wanted)] + [UserDeletes(true)] == LosingRun(wanted)[..5];
  }

  /** The property fails for a foreground deletion: this run can happen, and the collector deletes a child
      although the policy is Orphan and the finalizer is still in place. */
  lemma ForegroundLosesChild(wanted: Wanted)
    ensures Safe(EMPTY, "d", "c") && AllOrphaning(LosingRun(wanted), "d")
    ensures var w := After(EMPTY, LosingRun(wanted));
            w.Some? && w.value.children == map[] && w.value.object_.Present? && w.value.object_.finalizer
  {
    var w := RunUpToDeletion(wanted);
    var v := Extend(EMPTY, LosingRun(wanted)[..5], CollectorDeletes("c"));
    assert LosingRun(wanted)[..5] + [CollectorDeletes("c")] == LosingRun(wanted);
  }

  const PLAIN := Labels(None, false, None, map[])

  /** The label is taken off a child; later the discovery object is deleted in the background. */
  function UnlabelledRun(wanted: Wanted): seq<Event> {
    [UserCreates(SAMPLE), Fetches, AddsFinalizer, Adopts("c", wanted), Stops,
     UserEditsChild("c", PLAIN, [Self(SAMPLE)]),
     UserDeletes(false), Fetches, ListsForDeletion, RemovesFinalizer, CollectorDeletes("c")]
  }

  function Kept(wanted: Wanted): Child { Adopted(NEW_CHILD, SAMPLE, wanted) }

  function Lost(wanted: Wanted): Child { Kept(wanted).(labels := PLAIN) }

  /** The first five events of both runs: the discovery object has a finalizer and a child, the controller is idle. */
  lemma RunUpToStop(wanted: Wanted)
    ensures After(EMPTY, [UserCreates(SAMPLE), Fetches, AddsFinalizer, Adopts("c", wanted), Stops]) ==
            Some(World(HELD.object_, map["c" := Kept(wanted)], Idle, 2, {}))
  {
    var run := [UserCreates(SAMPLE), Fetches, AddsFinalizer, Adopts("c", wanted), Stops];
    RunUpToFinalizer();
    assert run[..3] == [UserCreates(SAMPLE), Fetches, AddsFinalizer];
    var adopted := HELD.(children := map["c" := Kept(wanted)]);
    Next(EMPTY, run, 3, HELD, adopted);
    Next(EMPTY, run, 4, adopted, adopted.(control := Idle));
    assert run[..5] == run;
  }

  lemma RunUpToEdit(wanted: Wanted)
    ensures After(EMPTY, UnlabelledRun(wanted)[..6]) == Some(World(HELD.object_, map["c" := Lost(wanted)], Idle, 2, {}))
  {
    var run := UnlabelledRun(wanted);
    RunUpToStop(wanted);
    assert run[..5] == [UserCreates(SAMPLE), Fetches, AddsFinalizer, Adopts("c", wanted), Stops];
    var stopped := World(HELD.object_, map["c" := Kept(wanted)], Idle, 2, {});
    EditStep(stopped, Kept(wanted));
    Next(EMPTY, run, 5, stopped, World(HELD.object_, map["c" := Lost(wanted)], Idle, 2, {}));
  }

  lemma EditStep(w: World, c: Child)
    requires w.children == map["c" := c] && c.owners == [Self(SAMPLE)]
    ensures Happens(w, UserEditsChild("c", PLAIN, [Self(SAMPLE)])) ==
            Some(w.(children := map["c" := c.(labels := PLAIN)]))
  {
    assert forall o :: o in [Self(SAMPLE)] ==> o in c.owners;
    assert w.children["c" := c.(labels := PLAIN, owners := [Self(SAMPLE)])] == map["c" := c.(labels := PLAIN)];
  }

  lemma RunUpToListing(wanted: Wanted) returns (w: World)
    ensures After(EMPTY, UnlabelledRun(wanted)[..8]) == Some(w)
    ensures w == World(Present(SAMPLE, true, false, true, 3), map["c" := Lost(wanted)], Fetched(SAMPLE, true, true, 3),
                       3, {})
  {
    var run := UnlabelledRun(wanted);
    RunUpToEdit(wanted);
    var edited := World(HELD.object_, map["c" := Lost(wanted)], Idle, 2, {});
    var deleted := edited.(object_ := Present(SAMPLE, true, false, true, 3), clock := 3);
    Next(EMPTY, run, 6, edited, deleted);
    w := deleted.(control := Fetched(SAMPLE, true, true, 3));
    Next(EMPTY, run, 7, deleted, w);
  }

  /** The property fails for a child whose label was taken off: nothing in this run is in the foreground, the user does
      not delete the child, and it is gone in the end. */
  lemma UnlabelledLosesChild(wanted: Wanted)
    ensures AllOrphaning(UnlabelledRun(wanted), "d") && Gentle(UnlabelledRun(wanted), "c")
    ensures After(EMPTY, UnlabelledRun(wanted)) == Some(World(Absent, map[], Idle, 4, {}))
  {
    var run := UnlabelledRun(wanted);
    RunUpToRemoval(wanted);
    CollectStep(World(Absent, map["c" := Lost(wanted)], Idle, 4, {}), Lost(wanted));
    Next(EMPTY, run, 10, World(Absent, map["c" := Lost(wanted)], Idle, 4, {}), World(Absent, map[], Idle, 4, {}));
    assert run[..11] == run;
  }

  lemma RunUpToRemoval(wanted: Wanted)
    ensures After(EMPTY, UnlabelledRun(wanted)[..10]) == Some(World(Absent, map["c" := Lost(wanted)], Idle, 4, {}))
  {
    var run := UnlabelledRun(wanted);
    var w := RunUpToListing(wanted);
    ListsNothing(w, Lost(wanted));
    var listed := w.(control := Releasing(SAMPLE, map[], 3));
    Next(EMPTY, run, 8, w, listed);
    var gone := RemoveStep(listed);
    Next(EMPTY, run, 9, listed, gone);
  }

  lemma ListsNothing(w: World, c: Child)
    requires w.children == map["c" := c] && c.labels == PLAIN && w.control == Fetched(SAMPLE, true, true, 3)
    ensures Happens(w, ListsForDeletion) == Some(w.(control := Releasing(SAMPLE, map[], 3)))
  {
    assert Listed(w, SAMPLE) == map[];
  }

  lemma CollectStep(w: World, c: Child)
    requires w == World(Absent, map["c" := c], Idle, 4, {}) && c.owners == [Self(SAMPLE)]
    ensures Happens(w, CollectorDeletes("c")) == Some(World(Absent, map[], Idle, 4, {}))
  {
    DanglingIsCollectable(w, c, Self(SAMPLE));
  }

  /** The finalizer is dropped by hand; later the discovery object is deleted in the background. */
  function DroppedRun(wanted: Wanted): seq<Event> {
    [UserCreates(SAMPLE), Fetches, AddsFinalizer, Adopts("c", wanted), Stops,
     UserEdits(true), UserDeletes(false), CollectorDeletes("c")]
  }

  /** The property fails when the user drops the finalizer: the child keeps its label and is gone in the end. */
  lemma DroppedLosesChild(wanted: Wanted)
    ensures AllOrphaning(DroppedRun(wanted), "d") && Gentle(DroppedRun(wanted), "c")
    ensures After(EMPTY, DroppedRun(wanted)) == Some(World(Absent, map[], Idle, 4, {}))
  {
    var run := DroppedRun(wanted);
    var gone := World(Absent, map["c" := Kept(wanted)], Idle, 4, {});
    RunUpToDrop(wanted);
    CollectStep(gone, Kept(wanted));
    Next(EMPTY, run, 7, gone, World(Absent, map[], Idle, 4, {}));
    assert run[..8] == run;
  }

  lemma RunUpToDrop(wanted: Wanted)
    ensures After(EMPTY, DroppedRun(wanted)[..7]) == Some(World(Absent, map["c" := Kept(wanted)], Idle, 4, {}))
  {
    var run := DroppedRun(wanted);
    RunUpToStop(wanted);
    assert run[..5] == [UserCreates(SAMPLE), Fetches, AddsFinalizer, Adopts("c", wanted), Stops];
    var dropped := World(Present(SAMPLE, false, false, false, 3), map["c" := Kept(wanted)], Idle, 3, {});
    Next(EMPTY, run, 5, World(HELD.object_, map["c" := Kept(wanted)], Idle, 2, {}), dropped);
    Next(EMPTY, run, 6, dropped, World(Absent, map["c" := Kept(wanted)], Idle, 4, {}));
  }

  /******* The Delete policy *******/

  /** A labelled child refers to a discovery object of that name, dead or alive. */
  ghost predicate Linked(w: World, name: string, n: string) {
    n in w.children && w.children[n].labels.discovery == Some(name) ==> RefersTo(w.children[n], name)
  }

  ghost predicate RefersTo(c: Child, name: string) { exists o :: o in c.owners && o.kind == KIND && o.name == name }

  /** The label of the child is left to the controller. */
  predicate Untouched(events: seq<Event>, n: string) {
    forall i :: 0 <= i < |events| ==>
      && !(events[i].UserEditsChild? && events[i].name == n)
      && (events[i].UserCreatesChild? && events[i].name == n ==> events[i].child.labels.discovery.None?)
  }

  lemma {:induction false} RunKeepsLinked(w: World, events: seq<Event>, name: string, n: string)
    requires Linked(w, name, n) && Untouched(events, n) && After(w, events).Some?
    ensures Linked(After(w, events).value, name, n)
  {
    if events == [] {
    } else {
      var init := events[..|events| - 1];
      RunKeepsLinked(w, init, name, n);
      StepKeepsLinked(After(w, init).value, events[|events| - 1], name, n);
    }
  }

  lemma StepKeepsLinked(w: World, e: Event, name: string, n: string)
    requires Linked(w, name, n) && Untouched([e], n) && Happens(w, e).Some?
    ensures Linked(Happens(w, e).value, name, n)
  {
    assert [e][0] == e;
    if e.Adopts? && e.name == n && w.control.Working? {
      SetOwnerIs(Existing(w.children, n).owners, Self(w.control.cfg));
    }
  }

  /** Nothing leaks: once the discovery object is gone, the collector may delete every labelled child that has
      no other living owner, under either policy and after any run that leaves the child's label alone. */
  lemma NothingLeaks(w: World, events: seq<Event>, name: string, n: string)
    requires Linked(w, name, n) && Untouched(events, n) && After(w, events).Some?
    ensures var v := After(w, events).value;
            v.object_.Absent? && n in v.children && v.children[n].labels.discovery == Some(name)
            && (forall o :: o in v.children[n].owners ==> o.uid !in v.others)
            ==> Collectable(v, v.children[n])
  {
    RunKeepsLinked(w, events, name, n);
  }
}
