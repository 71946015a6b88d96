/** The objects of a namespace that the pipeline controller owns, and lists of writes to them. */
module Objects {
  import opened Api
  import Discovery

  type OwnerRef = Discovery.OwnerRef

  datatype Kind = ConfigMap | Deployment | Service | Autoscaler | DisruptionBudget

  datatype Key = Key(kind: Kind, name: string)

  type TextMap = map<string, string>

  /** An environment variable taken from a key of a secret. */
  datatype EnvRef = EnvRef(name: string, secret: string, key: string)

  /** The pods of a Deployment. `mounts` gives the ConfigMap behind each mount path; `spec` stands for the image,
      resources and scheduling settings that are copied from it. */
  datatype PodTemplate = PodTemplate(
    spec: PipelineSpec,
    ports: set<int>,
    mounts: TextMap,
    env: set<EnvRef>,
    labels: TextMap,
    annotations: TextMap)

  /** What the controller writes into an object besides labels and owner. */
  datatype Body =
    | Empty
    | Files(data: TextMap)
    | Pods(replicas: int, selector: TextMap, template: PodTemplate)
    | Ports(selector: TextMap, ports: set<int>)
    | Headless(selector: TextMap, ports: set<int>)
    | Bounds(target: string, minReplicas: int, maxReplicas: int)
    | MinAvailable(selector: TextMap, count: int)

  /** `foreign` is everything the controller leaves alone: status, cluster-assigned fields, annotations. */
  datatype Object = Object(labels: TextMap, body: Body, owners: seq<OwnerRef>, foreign: Json)

  type Store = map<Key, Object>

  datatype Step = Ensure(key: Key, labels: TextMap, body: Body) | Remove(key: Key)

  const NEW_OBJECT := Object(map[], Empty, [], Json(""))

  function Existing(s: Store, k: Key): Object { if k in s then s[k] else NEW_OBJECT }

  /** An object that another controller owns is not written. Deleting asks nobody. */
  predicate Permitted(s: Store, owner: OwnerRef, x: Step) {
    x.Remove? || Discovery.Controllable(Existing(s, x.key).owners, owner)
  }

  function Written(o: Object, owner: OwnerRef, x: Step): Object
    requires x.Ensure?
  {
    Object(x.labels, x.body, Discovery.SetOwner(o.owners, owner), o.foreign)
  }

  function Do(s: Store, owner: OwnerRef, x: Step): Store {
    if x.Remove? then s - {x.key} else s[x.key := Written(Existing(s, x.key), owner, x)]
  }

  /** The steps one after the other, up to the first that is not permitted. */
  function Exec(s: Store, owner: OwnerRef, steps: seq<Step>): (Store, bool)
    decreases |steps|
  {
    if steps == [] then (s, true)
    else if !Permitted(s, owner, steps[0]) then (s, false)
    else Exec(Do(s, owner, steps[0]), owner, steps[1..])
  }

  /******* The API *******/

  class Namespace {
    const reliable: bool
    var objects: Store

    constructor (objects: Store, reliable: bool)
      ensures this.objects == objects && this.reliable == reliable
    {
      this.objects, this.reliable := objects, reliable;
    }

    /** Create, update or delete one object; any call may fail unless the API is reliable. */
    method Apply(owner: OwnerRef, x: Step) returns (ok: bool)
      modifies this
      ensures ok ==> Permitted(old(objects), owner, x) && objects == Do(old(objects), owner, x)
      ensures !ok ==> objects == old(objects)
      ensures reliable ==> ok == Permitted(old(objects), owner, x)
    {
      var fault := *;
      if fault && !reliable { return false; }
      if x.Remove? {
        if x.key in objects { objects := objects - {x.key}; }
        return true;
      }
      var o := Existing(objects, x.key);
      if !Discovery.Controllable(o.owners, owner) { return false; }
      objects := objects[x.key := Written(o, owner, x)];
      ok := true;
    }

    /** Stops at the first failure, so a prefix of the steps takes effect. */
    method ApplyAll(owner: OwnerRef, steps: seq<Step>) returns (ok: bool, ghost done: nat)
      modifies this
      ensures done <= |steps| && (ok <==> done == |steps|)
      ensures Exec(old(objects), owner, steps[..done]) == (objects, true)
      ensures reliable ==> Exec(old(objects), owner, steps) == (objects, ok)
    {
      done := 0;
      for i := 0 to |steps|
        invariant Exec(old(objects), owner, steps[..i]) == (objects, true)
      {
        done := i;
        ghost var before := objects;
        ok := Apply(owner, steps[i]);
        ExecSplit(old(objects), owner, steps, i);
        ExecSplit(old(objects), owner, steps[..i + 1], i);
        assert steps[..i + 1][..i] == steps[..i] && steps[..i + 1][i..] == [steps[i]];
        if !ok { return; }
        assert Exec(before, owner, [steps[i]]) == (objects, true);
      }
      assert steps[..|steps|] == steps;
      ok, done := true, |steps|;
    }
  }

  lemma {:induction false} ExecSplit(s: Store, owner: OwnerRef, steps: seq<Step>, i: nat)
    requires i <= |steps|
    ensures var r := Exec(s, owner, steps[..i]);
            Exec(s, owner, steps) == if r.1 then Exec(r.0, owner, steps[i..]) else r
    decreases |steps|
  {
    if i == 0 {
      assert steps[0..] == steps;
    } else if Permitted(s, owner, steps[0]) {
      ExecSplit(Do(s, owner, steps[0]), owner, steps[1..], i - 1);
      assert steps[..i][1..] == steps[1..][..i - 1] && steps[i..] == steps[1..][i - 1..];
    }
  }

  /******* What a list of steps does *******/

  function Get(s: Store, k: Key): Option<Object> { if k in s then Some(s[k]) else None }

  ghost function KeysOf(steps: seq<Step>): set<Key> { set i | 0 <= i < |steps| :: steps[i].key }

  ghost predicate DistinctKeys(steps: seq<Step>) {
    forall i, j :: 0 <= i < j < |steps| ==> steps[i].key != steps[j].key
  }

  lemma KeysTail(steps: seq<Step>)
    requires steps != []
    ensures KeysOf(steps) == {steps[0].key} + KeysOf(steps[1..])
  {
    forall i | 1 <= i < |steps| ensures steps[i].key in KeysOf(steps[1..]) { assert steps[1..][i - 1] == steps[i]; }
    assert forall i :: 0 <= i < |steps| - 1 ==> steps[1..][i] == steps[i + 1];
  }

  /** Nothing but the named objects changes, whether or not the steps succeed. */
  lemma {:induction false} OthersStay(s: Store, owner: OwnerRef, steps: seq<Step>, k: Key)
    requires k !in KeysOf(steps)
    ensures Get(Exec(s, owner, steps).0, k) == Get(s, k)
    decreases |steps|
  {
    if steps == [] {
    } else {
      KeysTail(steps);
      if Permitted(s, owner, steps[0]) { OthersStay(Do(s, owner, steps[0]), owner, steps[1..], k); }
    }
  }

  /** With one step per object, success is decided by the store before the first step, and each object ends up as its
      own step leaves it. */
  lemma {:induction false} ExecIs(s: Store, owner: OwnerRef, steps: seq<Step>)
    requires DistinctKeys(steps)
    ensures Exec(s, owner, steps).1 <==> forall i :: 0 <= i < |steps| ==> Permitted(s, owner, steps[i])
    ensures Exec(s, owner, steps).1 ==>
              forall i :: 0 <= i < |steps| ==>
                Get(Exec(s, owner, steps).0, steps[i].key) == Get(Do(s, owner, steps[i]), steps[i].key)
    decreases |steps|
  {
    if steps == [] {
    } else {
      var x, rest := steps[0], steps[1..];
      var t := Do(s, owner, x);
      forall i | 0 <= i < |rest| ensures rest[i] == steps[i + 1] && Get(t, rest[i].key) == Get(s, rest[i].key) {}
      if Permitted(s, owner, x) {
        ExecIs(t, owner, rest);
        forall i | 0 <= i < |steps|
          ensures Exec(s, owner, steps).1 ==>
                    Get(Exec(s, owner, steps).0, steps[i].key) == Get(Do(s, owner, steps[i]), steps[i].key)
        {
          if i == 0 { OthersStay(t, owner, rest, x.key); } else { assert rest[i - 1] == steps[i]; }
        }
        assert forall i :: 1 <= i < |steps| ==> steps[i] == rest[i - 1];
      }
    }
  }

  /******* History independence *******/

  /** The fields the controller sets. */
  datatype Fields = Fields(labels: TextMap, body: Body, owned: bool)

  function View(s: Store, owner: OwnerRef, k: Key): Option<Fields> {
    if k in s then Some(Fields(s[k].labels, s[k].body, owner in s[k].owners)) else None
  }

  function Wanted(x: Step): Option<Fields> {
    if x.Ensure? then Some(Fields(x.labels, x.body, true)) else None
  }

  lemma {:induction false} OwnerIsSet(owners: seq<OwnerRef>, ref: OwnerRef)
    requires ref.controller
    ensures ref in Discovery.SetOwner(owners, ref)
    ensures Discovery.SetOwner(Discovery.SetOwner(owners, ref), ref) == Discovery.SetOwner(owners, ref)
    ensures Discovery.Controllable(owners, ref) ==> Discovery.Controllable(Discovery.SetOwner(owners, ref), ref)
  {
    if owners == [] {
    } else {
      OwnerIsSet(owners[1..], ref);
    }
  }

  /** After success the fields the controller sets are those of the steps: the store before has no say. */
  lemma StepsDecide(s: Store, owner: OwnerRef, steps: seq<Step>, i: nat)
    requires DistinctKeys(steps) && owner.controller && i < |steps| && Exec(s, owner, steps).1
    ensures View(Exec(s, owner, steps).0, owner, steps[i].key) == Wanted(steps[i])
  {
    ExecIs(s, owner, steps);
    OwnerIsSet(Existing(s, steps[i].key).owners, owner);
    assert Get(Exec(s, owner, steps).0, steps[i].key) == Get(Do(s, owner, steps[i]), steps[i].key);
  }

  /** What the controller does not set stays: status and foreign fields, and the references to other owners. */
  lemma StepKeepsForeign(s: Store, owner: OwnerRef, steps: seq<Step>, i: nat)
    requires DistinctKeys(steps) && i < |steps| && steps[i].Ensure? && Exec(s, owner, steps).1
    ensures var k, t := steps[i].key, Exec(s, owner, steps).0;
            && k in t
            && (k in s ==> t[k].foreign == s[k].foreign)
            && (k in s ==> forall o: OwnerRef :: o.kind != owner.kind || o.name != owner.name ==>
                  multiset(t[k].owners)[o] == multiset(s[k].owners)[o])
            && (k !in s ==> t[k].owners == [owner])
  {
    ExecIs(s, owner, steps);
    var k := steps[i].key;
    assert Get(Exec(s, owner, steps).0, k) == Get(Do(s, owner, steps[i]), k);
    forall o: OwnerRef | o.kind != owner.kind || o.name != owner.name
      ensures multiset(Discovery.SetOwner(Existing(s, k).owners, owner))[o] == multiset(Existing(s, k).owners)[o]
    {
      Discovery.SetOwnerKeeps(Existing(s, k).owners, owner, o);
    }
  }

  /** A step on an object that it has already written changes nothing. */
  lemma StepAgain(s: Store, t: Store, owner: OwnerRef, x: Step)
    requires owner.controller && Permitted(s, owner, x) && Get(t, x.key) == Get(Do(s, owner, x), x.key)
    ensures Permitted(t, owner, x) && Do(t, owner, x) == t
  {
    OwnerIsSet(Existing(s, x.key).owners, owner);
  }

  lemma {:induction false} NothingToDo(t: Store, owner: OwnerRef, steps: seq<Step>)
    requires forall i :: 0 <= i < |steps| ==> Permitted(t, owner, steps[i]) && Do(t, owner, steps[i]) == t
    ensures Exec(t, owner, steps) == (t, true)
  {
    if steps == [] {
    } else {
      NothingToDo(t, owner, steps[1..]);
    }
  }

  /** A second pass over the same steps succeeds and leaves the store as it is. */
  lemma SecondPass(s: Store, owner: OwnerRef, steps: seq<Step>)
    requires DistinctKeys(steps) && owner.controller && Exec(s, owner, steps).1
    ensures var t := Exec(s, owner, steps).0; Exec(t, owner, steps) == (t, true)
  {
    var t := Exec(s, owner, steps).0;
    ExecIs(s, owner, steps);
    forall i | 0 <= i < |steps| ensures Permitted(t, owner, steps[i]) && Do(t, owner, steps[i]) == t {
      StepAgain(s, t, owner, steps[i]);
    }
    NothingToDo(t, owner, steps);
  }

  /******* Two lists of steps at once *******/

  datatype Job = Job(owner: OwnerRef, steps: seq<Step>)

  /** The next step of a job; a job that is refused gives up. */
  function Advance(s: Store, j: Job): (Store, Job) {
    if j.steps == [] then (s, j)
    else if !Permitted(s, j.owner, j.steps[0]) then (s, j.(steps := []))
    else (Do(s, j.owner, j.steps[0]), j.(steps := j.steps[1..]))
  }

  function Finish(s: Store, j: Job): Store { Exec(s, j.owner, j.steps).0 }

  /** Two jobs whose steps interleave: `true` in the schedule lets the first one move. */
  function Race(s: Store, a: Job, b: Job, schedule: seq<bool>): (Store, Job, Job)
    decreases |schedule|
  {
    if schedule == [] then (s, a, b)
    else if schedule[0] then var (t, a') := Advance(s, a); Race(t, a', b, schedule[1..])
    else var (t, b') := Advance(s, b); Race(t, a, b', schedule[1..])
  }

  /** The steps are on different objects, or both delete. */
  predicate Friendly(x: Step, y: Step) { x.key != y.key || (x.Remove? && y.Remove?) }

  ghost predicate FriendlyTo(x: Step, steps: seq<Step>) { forall i :: 0 <= i < |steps| ==> Friendly(x, steps[i]) }

  ghost predicate Compatible(a: seq<Step>, b: seq<Step>) { forall i :: 0 <= i < |a| ==> FriendlyTo(a[i], b) }

  lemma DisjointIsCompatible(a: seq<Step>, b: seq<Step>)
    requires KeysOf(a) !! KeysOf(b)
    ensures Compatible(a, b)
  {
    forall i, j | 0 <= i < |a| && 0 <= j < |b| ensures Friendly(a[i], b[j]) {
      assert a[i].key in KeysOf(a) && b[j].key in KeysOf(b);
    }
  }

  lemma TwoSteps(s: Store, x: Step, a: OwnerRef, y: Step, b: OwnerRef)
    requires Friendly(x, y)
    ensures Permitted(Do(s, a, x), b, y) == Permitted(s, b, y)
    ensures Do(Do(s, a, x), b, y) == Do(Do(s, b, y), a, x)
  {
    if x.key != y.key {
      assert Existing(Do(s, a, x), y.key) == Existing(s, y.key);
      assert Existing(Do(s, b, y), x.key) == Existing(s, x.key);
    }
  }

  lemma {:induction false} StepPastSteps(s: Store, x: Step, a: OwnerRef, steps: seq<Step>, b: OwnerRef)
    requires FriendlyTo(x, steps)
    ensures Permitted(Exec(s, b, steps).0, a, x) == Permitted(s, a, x)
    ensures Exec(Do(s, a, x), b, steps) == (Do(Exec(s, b, steps).0, a, x), Exec(s, b, steps).1)
    decreases |steps|
  {
    if steps == [] {
    } else {
      assert Friendly(x, steps[0]);
      TwoSteps(s, x, a, steps[0], b);
      TwoSteps(s, steps[0], b, x, a);
      if Permitted(s, b, steps[0]) { StepPastSteps(Do(s, b, steps[0]), x, a, steps[1..], b); }
    }
  }

  lemma AdvanceFirst(s: Store, a: Job, b: Job)
    ensures var (t, a') := Advance(s, a); Finish(Finish(t, a'), b) == Finish(Finish(s, a), b)
  {
  }

  lemma AdvanceSecond(s: Store, a: Job, b: Job)
    requires Compatible(a.steps, b.steps)
    ensures var (t, b') := Advance(s, b); Finish(Finish(t, a), b') == Finish(Finish(s, a), b)
  {
    if b.steps != [] {
      assert FriendlyTo(b.steps[0], a.steps) by {
        forall i | 0 <= i < |a.steps| ensures Friendly(b.steps[0], a.steps[i]) {
          assert FriendlyTo(a.steps[i], b.steps);
        }
      }
      StepPastSteps(s, b.steps[0], b.owner, a.steps, a.owner);
    }
  }

  lemma CompatibleTails(a: seq<Step>, b: seq<Step>)
    requires Compatible(a, b)
    ensures a != [] ==> Compatible(a[1..], b)
    ensures b != [] ==> Compatible(a, b[1..])
    ensures Compatible([], b) && Compatible(a, [])
  {
    if a != [] {
      forall i | 0 <= i < |a| - 1 ensures FriendlyTo(a[1..][i], b) { assert FriendlyTo(a[i + 1], b); }
    }
  }

  /** Every interleaving of two compatible jobs is on its way to the same store: the one that running the first job and
      then the second would reach. */
  lemma {:induction false} RaceIsSequential(s: Store, a: Job, b: Job, schedule: seq<bool>)
    requires Compatible(a.steps, b.steps)
    ensures var (t, a', b') := Race(s, a, b, schedule); Finish(Finish(t, a'), b') == Finish(Finish(s, a), b)
    decreases |schedule|
  {
    if schedule == [] {
    } else {
      CompatibleTails(a.steps, b.steps);
      if schedule[0] {
        AdvanceFirst(s, a, b);
        var (t, a') := Advance(s, a);
        RaceIsSequential(t, a', b, schedule[1..]);
      } else {
        AdvanceSecond(s, a, b);
        var (t, b') := Advance(s, b);
        RaceIsSequential(t, a, b', schedule[1..]);
      }
    }
  }

  /** Compatible jobs commute, and neither decides whether the other succeeds. */
  lemma {:induction false} JobsCommute(s: Store, a: Job, b: Job)
    requires Compatible(a.steps, b.steps)
    ensures Finish(Finish(s, a), b) == Finish(Finish(s, b), a)
    ensures Exec(Finish(s, b), a.owner, a.steps).1 == Exec(s, a.owner, a.steps).1
    decreases |a.steps|
  {
    if a.steps == [] {
    } else {
      var x, a' := a.steps[0], a.(steps := a.steps[1..]);
      CompatibleTails(a.steps, b.steps);
      StepPastSteps(s, x, a.owner, b.steps, b.owner);
      if Permitted(s, a.owner, x) { JobsCommute(Do(s, a.owner, x), a', b); }
    }
  }

  /** A job that is refused an object leaves it as it was. */
  lemma {:induction false} RefusedStays(s: Store, owner: OwnerRef, steps: seq<Step>, i: nat)
    requires DistinctKeys(steps) && i < |steps| && !Permitted(s, owner, steps[i])
    ensures Get(Exec(s, owner, steps).0, steps[i].key) == Get(s, steps[i].key)
    decreases |steps|
  {
    if i == 0 {
    } else if Permitted(s, owner, steps[0]) {
      var t := Do(s, owner, steps[0]);
      assert steps[1..][i - 1] == steps[i] && Get(t, steps[i].key) == Get(s, steps[i].key);
      RefusedStays(t, owner, steps[1..], i - 1);
    }
  }

  /******* Two jobs that meet *******/

  lemma FromNothing(j: Job, i: nat)
    requires DistinctKeys(j.steps) && i < |j.steps|
    ensures Get(Finish(map[], j), j.steps[i].key) == Get(Do(map[], j.owner, j.steps[i]), j.steps[i].key)
    ensures forall k :: k !in KeysOf(j.steps) ==> k !in Finish(map[], j)
  {
    ExecIs(map[], j.owner, j.steps);
    forall k | k !in KeysOf(j.steps) ensures k !in Finish(map[], j) { OthersStay(map[], j.owner, j.steps, k); }
  }

  /** The two jobs share exactly the object of `a`'s step `i` and `b`'s step `j`. */
  ghost predicate MeetAt(a: Job, i: nat, b: Job, j: nat) {
    && DistinctKeys(a.steps) && DistinctKeys(b.steps) && i < |a.steps| && j < |b.steps|
    && a.steps[i].key == b.steps[j].key && KeysOf(a.steps) * KeysOf(b.steps) == {a.steps[i].key}
    && a.owner.controller && b.owner.controller && !Discovery.SameOwner(a.owner, b.owner)
  }

  lemma MeetSymmetric(a: Job, i: nat, b: Job, j: nat)
    requires MeetAt(a, i, b, j)
    ensures MeetAt(b, j, a, i)
  {
  }

  /** After both jobs, from nothing: a deletion has the last word, a write loses against an earlier one. */
  lemma LastWord(a: Job, i: nat, b: Job, j: nat)
    requires MeetAt(a, i, b, j)
    ensures var r := Get(Finish(Finish(map[], a), b), b.steps[j].key);
            if b.steps[j].Remove? then r == None
            else r.Some? && r.value.owners == [if a.steps[i].Remove? then b.owner else a.owner]
  {
    var s, k := Finish(map[], a), b.steps[j].key;
    FromNothing(a, i);
    if a.steps[i].Ensure? && b.steps[j].Ensure? {
      assert s[k].owners == [a.owner];
      RefusedStays(s, b.owner, b.steps, j);
    } else {
      forall x | 0 <= x < |b.steps| ensures Permitted(s, b.owner, b.steps[x]) {
        assert b.steps[x].key in KeysOf(b.steps);
        assert b.steps[x].key in KeysOf(a.steps) ==> b.steps[x].key in KeysOf(a.steps) * KeysOf(b.steps);
      }
      ExecIs(s, b.owner, b.steps);
      assert Get(Finish(s, b), k) == Get(Do(s, b.owner, b.steps[j]), k);
    }
  }

  /** Two jobs that meet at one object commute only if both delete it. */
  lemma MeetingDecides(a: Job, i: nat, b: Job, j: nat)
    requires MeetAt(a, i, b, j)
    ensures (forall s :: Finish(Finish(s, a), b) == Finish(Finish(s, b), a)) <==>
              a.steps[i].Remove? && b.steps[j].Remove?
  {
    if a.steps[i].Remove? && b.steps[j].Remove? {
      forall x, y | 0 <= x < |a.steps| && 0 <= y < |b.steps| ensures Friendly(a.steps[x], b.steps[y]) {
        assert a.steps[x].key in KeysOf(a.steps) && b.steps[y].key in KeysOf(b.steps);
        if a.steps[x].key == b.steps[y].key { assert a.steps[x].key in KeysOf(a.steps) * KeysOf(b.steps); }
      }
      forall s ensures Finish(Finish(s, a), b) == Finish(Finish(s, b), a) { JobsCommute(s, a, b); }
    } else {
      LastWord(a, i, b, j);
      MeetSymmetric(a, i, b, j);
      LastWord(b, j, a, i);
      assert Finish(Finish(map[], a), b) != Finish(Finish(map[], b), a);
    }
  }
}
