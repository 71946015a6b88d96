/** Whole runs of the discovery controller: convergence, the rollout bound, the blast radius. */
module DiscoveryRuns {
  import opened Api
  import opened Discovery
  import opened Lists
  import DiscoveryCycle

  /******* Runs *******/

  /** One cycle: the store it found, what it did, and whether it ran to its end without an error. */
  datatype Cycle = Cycle(before: Store, moves: Moves, complete: bool)

  /** Between cycles phases change, and objects without the label come, go and change as they like. */
  ghost predicate Drift(s: Store, t: Store, cfg: Settings) {
    && Labelled(t, cfg) == Labelled(s, cfg)
    && forall n :: n in Labelled(s, cfg) ==> t[n] == s[n].(phase := t[n].phase)
  }

  ghost predicate ValidCycle(c: Cycle, cfg: Settings, want: Desired) {
    Allowed(c.before, cfg, want, c.moves) && (c.complete ==> Complete(c.before, cfg, want, c.moves))
  }

  ghost predicate Follows(c: Cycle, d: Cycle, cfg: Settings, want: Desired) {
    Leads(c, d.before, cfg, want)
  }

  /** The store `t` is what the cycle left, after some drift. */
  ghost predicate Leads(c: Cycle, t: Store, cfg: Settings, want: Desired) {
    ValidCycle(c, cfg, want) && Drift(After(c.before, cfg, want, c.moves), t, cfg)
  }

  ghost predicate AllValid(run: seq<Cycle>, cfg: Settings, want: Desired) {
    forall i {:trigger ValidCycle(run[i], cfg, want)} :: 0 <= i < |run| ==> ValidCycle(run[i], cfg, want)
  }

  ghost predicate Chained(run: seq<Cycle>, cfg: Settings, want: Desired) {
    forall i, j {:trigger Follows(run[i], run[j], cfg, want)} ::
      0 <= i && j == i + 1 && j < |run| ==> Follows(run[i], run[j], cfg, want)
  }

  /** Any number of cycles from any store, some of them cut short by errors, for a fixed desired state. */
  ghost predicate IsRun(run: seq<Cycle>, cfg: Settings, want: Desired) {
    AllValid(run, cfg, want) && Chained(run, cfg, want)
  }

  lemma DriftKeeps(s: Store, t: Store, cfg: Settings, want: Desired)
    requires Drift(s, t, cfg)
    ensures Labelled(t, cfg) == Labelled(s, cfg)
    ensures Missing(t, cfg, want) == Missing(s, cfg, want)
    ensures Stale(t, cfg, want) == Stale(s, cfg, want)
    ensures Surplus(t, cfg, want) == Surplus(s, cfg, want)
  {
    forall n ensures n in Stale(t, cfg, want) <==> n in Stale(s, cfg, want) {
      if n in Labelled(s, cfg) { assert HashOf(t[n]) == HashOf(s[n]); }
    }
  }

  /******* Traces: where every name stands, cycle by cycle *******/

  /** What a cycle found and did, with the stores left out. */
  datatype Look = Look(
    labelled: set<string>,
    missing: set<string>,
    stale: set<string>,
    surplus: set<string>,
    tripped: bool,
    moves: Moves,
    complete: bool)

  ghost function LookAt(c: Cycle, cfg: Settings, want: Desired): Look {
    Look(Labelled(c.before, cfg), Missing(c.before, cfg, want), Stale(c.before, cfg, want),
         Surplus(c.before, cfg, want),
         Tripped(c.before, cfg, want), c.moves, c.complete)
  }

  /** The bounds a cycle keeps, and what it achieves when it is complete. */
  ghost predicate Fair(a: Look, limit: nat, cleans: bool) {
    && a.missing !! a.labelled && a.stale <= a.labelled && a.surplus <= a.labelled && a.stale !! a.surplus
    && a.moves.created <= a.missing && |a.moves.created| <= limit
    && a.moves.updated <= a.stale && |a.moves.updated| <= Batch(|a.labelled|) && (a.moves.updated != {} ==> !a.tripped)
    && a.moves.removed <= a.surplus
    && (a.complete ==>
          && |a.moves.created| == Min(limit, |a.missing|)
          && |a.moves.updated| == (if a.tripped then 0 else Min(Batch(|a.labelled|), |a.stale|))
          && (cleans ==> a.moves.removed == a.surplus))
  }

  /** From one cycle to the next the standing of every name changes by the cycle's moves and nothing else. */
  ghost predicate Next(a: Look, b: Look) {
    && b.labelled == a.labelled + a.moves.created - a.moves.removed
    && b.missing == a.missing - a.moves.created
    && b.stale == a.stale - a.moves.updated
    && b.surplus == a.surplus - a.moves.removed
  }

  ghost predicate IsTrace(t: seq<Look>, limit: nat, cleans: bool) {
    && (forall i {:trigger Fair(t[i], limit, cleans)} :: 0 <= i < |t| ==> Fair(t[i], limit, cleans))
    && (forall i, j {:trigger Next(t[i], t[j])} :: 0 <= i && j == i + 1 && j < |t| ==> Next(t[i], t[j]))
  }

  ghost function TraceOf(run: seq<Cycle>, cfg: Settings, want: Desired): seq<Look> {
    seq(|run|, i requires 0 <= i < |run| => LookAt(run[i], cfg, want))
  }

  predicate CleansUp(cfg: Settings) { Policy(cfg) == DELETE || Policy(cfg) == ORPHAN }

  lemma CycleIsFair(c: Cycle, cfg: Settings, want: Desired)
    requires ValidCycle(c, cfg, want)
    ensures Fair(LookAt(c, cfg, want), Limit(cfg), CleansUp(cfg))
  {
  }

  lemma CycleIsNext(c: Cycle, d: Cycle, cfg: Settings, want: Desired)
    requires Follows(c, d, cfg, want)
    ensures Next(LookAt(c, cfg, want), LookAt(d, cfg, want))
  {
    MovesEffect(c.before, cfg, want, c.moves);
    DriftKeeps(After(c.before, cfg, want, c.moves), d.before, cfg, want);
  }

  /** Every run leaves a trace. */
  lemma RunIsTrace(run: seq<Cycle>, cfg: Settings, want: Desired)
    requires IsRun(run, cfg, want)
    ensures IsTrace(TraceOf(run, cfg, want), Limit(cfg), CleansUp(cfg))
  {
    var t := TraceOf(run, cfg, want);
    forall i | 0 <= i < |t| ensures Fair(t[i], Limit(cfg), CleansUp(cfg)) { CycleIsFair(run[i], cfg, want); }
    forall i, j | 0 <= i && j == i + 1 && j < |t| ensures Next(t[i], t[j]) { CycleIsNext(run[i], run[j], cfg, want); }
  }

  function Sub(a: nat, b: nat): nat { if a > b then a - b else 0 }

  lemma DifferenceSize<T>(a: set<T>, b: set<T>)
    requires b <= a
    ensures |a - b| == |a| - |b|
  {
    assert a == (a - b) + b;
  }

  /** The exact progress of one complete cycle, whatever order its loops took. */
  lemma CycleProgress(a: Look, b: Look, limit: nat, cleans: bool)
    requires Fair(a, limit, cleans) && Next(a, b) && a.complete
    ensures |b.missing| == Sub(|a.missing|, limit)
    ensures |b.stale| == Sub(|a.stale|, if a.tripped then 0 else Batch(|a.labelled|))
    ensures cleans ==> b.surplus == {}
  {
    DifferenceSize(a.missing, a.moves.created);
    DifferenceSize(a.stale, a.moves.updated);
  }

  /** No cycle, complete or not, loses ground. */
  lemma NoGroundLost(a: Look, b: Look, limit: nat, cleans: bool)
    requires Fair(a, limit, cleans) && Next(a, b)
    ensures |b.missing| <= |a.missing| && |b.stale| <= |a.stale| && b.surplus <= a.surplus
  {
    DifferenceSize(a.missing, a.moves.created);
    DifferenceSize(a.stale, a.moves.updated);
  }

  /******* Convergence *******/

  /** How many of the first `k` cycles were complete. */
  ghost function Completes(t: seq<Look>, k: nat): nat
    requires k <= |t|
  {
    if k == 0 then 0 else Completes(t, k - 1) + if t[k - 1].complete then 1 else 0
  }

  /** How many of the first `k` cycles were complete and found the gate open. */
  ghost function Rollouts(t: seq<Look>, k: nat): nat
    requires k <= |t|
  {
    if k == 0 then 0 else Rollouts(t, k - 1) + if t[k - 1].complete && !t[k - 1].tripped then 1 else 0
  }

  /** What is left of `m` after taking away `step`, as far as possible, `k` times. */
  function Drained(m: nat, step: nat, k: nat): nat {
    if k == 0 then m else Sub(Drained(m, step, k - 1), step)
  }

  lemma {:induction false} DrainedIs(m: nat, step: nat, k: nat)
    ensures Drained(m, step, k) == if k * step < m then m - k * step else 0
  {
    if k > 0 {
      DrainedIs(m, step, k - 1);
      assert k * step == (k - 1) * step + step;
    }
  }

  lemma {:induction false} MissingBound(t: seq<Look>, limit: nat, cleans: bool, k: nat)
    requires IsTrace(t, limit, cleans) && k < |t|
    ensures |t[k].missing| <= Drained(|t[0].missing|, limit, Completes(t, k))
  {
    if k > 0 {
      MissingBound(t, limit, cleans, k - 1);
      assert Fair(t[k - 1], limit, cleans) && Next(t[k - 1], t[k]);
      if t[k - 1].complete {
        CycleProgress(t[k - 1], t[k], limit, cleans);
      } else {
        NoGroundLost(t[k - 1], t[k], limit, cleans);
      }
    }
  }

  /** A stale child is one that a source asks for: it stays labelled, whatever later cycles do. */
  lemma {:induction false} StaleStay(t: seq<Look>, limit: nat, cleans: bool, k: nat)
    requires IsTrace(t, limit, cleans) && k < |t|
    ensures t[0].stale <= t[k].labelled && t[0].stale !! t[k].surplus
  {
    if k == 0 { assert Fair(t[0], limit, cleans); } else {
      StaleStay(t, limit, cleans, k - 1);
      assert Fair(t[k - 1], limit, cleans) && Next(t[k - 1], t[k]);
    }
  }

  lemma BatchMonotone(a: nat, b: nat)
    requires a <= b
    ensures Batch(a) <= Batch(b)
  {
  }

  /** The batch never gets smaller than a fifth of what was stale at the start, although the number of
      children changes from cycle to cycle. */
  lemma {:induction false} StaleBound(t: seq<Look>, limit: nat, cleans: bool, k: nat)
    requires IsTrace(t, limit, cleans) && k < |t|
    ensures |t[k].stale| <= Drained(|t[0].stale|, Batch(|t[0].stale|), Rollouts(t, k))
  {
    if k > 0 {
      StaleBound(t, limit, cleans, k - 1);
      assert Fair(t[k - 1], limit, cleans) && Next(t[k - 1], t[k]);
      if t[k - 1].complete && !t[k - 1].tripped {
        StaleStay(t, limit, cleans, k - 1);
        StaleStep(t[k - 1], t[k], t[0].stale, limit, cleans, Rollouts(t, k - 1));
      } else {
        NoGroundLost(t[k - 1], t[k], limit, cleans);
      }
    }
  }

  lemma StaleStep(a: Look, b: Look, first: set<string>, limit: nat, cleans: bool, rollouts: nat)
    requires Fair(a, limit, cleans) && Next(a, b) && a.complete && !a.tripped && first <= a.labelled
    requires |a.stale| <= Drained(|first|, Batch(|first|), rollouts)
    ensures |b.stale| <= Drained(|first|, Batch(|first|), rollouts + 1)
  {
    CycleProgress(a, b, limit, cleans);
    SubsetSize(first, a.labelled);
    BatchMonotone(|first|, |a.labelled|);
    DrainStep(|a.stale|, |first|, Batch(|first|), Batch(|a.labelled|), rollouts);
  }

  lemma DrainStep(x: nat, m: nat, step: nat, taken: nat, k: nat)
    requires x <= Drained(m, step, k) && step <= taken
    ensures Sub(x, taken) <= Drained(m, step, k + 1)
  {
  }

  lemma FiveFifths(n: nat, k: nat)
    requires k >= 5
    ensures Drained(n, Batch(n), k) == 0
  {
    DrainedIs(n, Batch(n), k);
    assert k * Batch(n) >= 5 * Batch(n) >= n;
  }

  /** Five rollout cycles update every child, from any store and however many children there are. */
  lemma FiveRollouts(run: seq<Cycle>, cfg: Settings, want: Desired, k: nat)
    requires IsRun(run, cfg, want) && k < |run|
    requires Rollouts(TraceOf(run, cfg, want), k) >= 5
    ensures Stale(run[k].before, cfg, want) == {}
  {
    var t := TraceOf(run, cfg, want);
    RunIsTrace(run, cfg, want);
    StaleBound(t, Limit(cfg), CleansUp(cfg), k);
    FiveFifths(|t[0].stale|, Rollouts(t, k));
  }

  lemma {:induction false} SurplusGone(t: seq<Look>, limit: nat, k: nat)
    requires IsTrace(t, limit, true) && k < |t|
    requires Completes(t, k) > 0
    ensures t[k].surplus == {}
  {
    assert Fair(t[k - 1], limit, true) && Next(t[k - 1], t[k]);
    if t[k - 1].complete { CycleProgress(t[k - 1], t[k], limit, true); } else { SurplusGone(t, limit, k - 1); }
  }

  lemma {:induction false} RolloutsComplete(t: seq<Look>, k: nat)
    requires k <= |t|
    ensures Rollouts(t, k) <= Completes(t, k)
  {
    if k > 0 { RolloutsComplete(t, k - 1); }
  }

  /** Nothing is left to do. */
  ghost predicate Done(a: Look) { a.missing == {} && a.stale == {} && a.surplus == {} }

  lemma {:induction false} TraceConverges(t: seq<Look>, limit: nat, k: nat, j: nat)
    requires IsTrace(t, limit, true) && k <= j < |t|
    requires Completes(t, k) * limit >= |t[0].missing| && Rollouts(t, k) >= 5
    ensures Done(t[j]) && t[j].moves == NO_MOVES
    decreases j
  {
    if j == k {
      MissingBound(t, limit, true, k);
      DrainedIs(|t[0].missing|, limit, Completes(t, k));
      StaleBound(t, limit, true, k);
      FiveFifths(|t[0].stale|, Rollouts(t, k));
      RolloutsComplete(t, k);
      SurplusGone(t, limit, k);
    } else {
      TraceConverges(t, limit, k, j - 1);
      assert Next(t[j - 1], t[j]);
    }
    assert Fair(t[j], limit, true);
  }

  /** The labelled children are exactly the desired ones, each annotated with its desired hash. */
  ghost predicate Settled(s: Store, cfg: Settings, want: Desired) {
    Labelled(s, cfg) == want.Keys && forall n :: n in want ==> HashOf(s[n]) == want[n].hash
  }

  lemma SettledIff(s: Store, cfg: Settings, want: Desired)
    ensures Settled(s, cfg, want) <==>
            Missing(s, cfg, want) == {} && Stale(s, cfg, want) == {} && Surplus(s, cfg, want) == {}
  {
    if Missing(s, cfg, want) == {} && Stale(s, cfg, want) == {} && Surplus(s, cfg, want) == {} {
      assert Labelled(s, cfg) == want.Keys by {
        assert forall n :: n in want.Keys ==> n !in Missing(s, cfg, want);
        assert forall n :: n in Labelled(s, cfg) ==> n !in Surplus(s, cfg, want);
      }
      forall n | n in want ensures HashOf(s[n]) == want[n].hash { assert n !in Stale(s, cfg, want); }
    }
  }

  lemma IdleIsDone(a: Look, limit: nat)
    requires Fair(a, limit, true) && a.complete && !a.tripped && limit > 0
    ensures a.moves == NO_MOVES <==> Done(a)
  {
    if a.moves == NO_MOVES {
      assert |a.missing| == 0 && |a.stale| == 0;
    }
  }

  /** The fixed points of complete cycles behind an open gate are exactly the settled stores. */
  lemma FixedPoints(s: Store, cfg: Settings, want: Desired, m: Moves)
    requires CleansUp(cfg) && Allowed(s, cfg, want, m) && Complete(s, cfg, want, m) && !Tripped(s, cfg, want)
    ensures m == NO_MOVES <==> Settled(s, cfg, want)
    ensures m == NO_MOVES <==> After(s, cfg, want, m) == s
  {
    var c := Cycle(s, m, true);
    CycleIsFair(c, cfg, want);
    IdleIsDone(LookAt(c, cfg, want), Limit(cfg));
    SettledIff(s, cfg, want);
    if m == NO_MOVES { NothingMoves(s, cfg, want); } else { MovesShow(s, cfg, want, m); }
  }

  /** A move changes the store. */
  lemma MovesShow(s: Store, cfg: Settings, want: Desired, m: Moves)
    requires Within(s, cfg, want, m) && m != NO_MOVES
    ensures After(s, cfg, want, m) != s
  {
    var t := After(s, cfg, want, m);
    MovesEffect(s, cfg, want, m);
    if n :| n in m.created { assert n in Missing(s, cfg, want) && n !in Missing(t, cfg, want); }
    if n :| n in m.updated { assert n in Stale(s, cfg, want) && n !in Stale(t, cfg, want); }
    if n :| n in m.removed { assert n in Surplus(s, cfg, want) && n !in Surplus(t, cfg, want); }
  }

  /** Convergence. From any store, through any number of failed cycles and closed gates: after enough
      complete cycles to create what was missing, and five that found the gate open, the store is settled
      and every later cycle of the run leaves it alone. */
  lemma Converges(run: seq<Cycle>, cfg: Settings, want: Desired, k: nat, j: nat)
    requires IsRun(run, cfg, want) && CleansUp(cfg) && k <= j < |run|
    requires Completes(TraceOf(run, cfg, want), k) * Limit(cfg) >= |Missing(run[0].before, cfg, want)|
    requires Rollouts(TraceOf(run, cfg, want), k) >= 5
    ensures Settled(run[j].before, cfg, want)
    ensures run[j].moves == NO_MOVES && After(run[j].before, cfg, want, run[j].moves) == run[j].before
    ensures forall n :: n in want ==>
              || run[j].before[n].spec == want[n].spec
              || (&& n in Labelled(run[0].before, cfg) && HashOf(run[0].before[n]) == want[n].hash
                  && run[j].before[n].spec == run[0].before[n].spec)
  {
    var t := TraceOf(run, cfg, want);
    RunIsTrace(run, cfg, want);
    TraceConverges(t, Limit(cfg), k, j);
    SettledIff(run[j].before, cfg, want);
    NothingMoves(run[j].before, cfg, want);
    forall n | n in want ensures SpecFits(run[0].before, run[j].before, cfg, want, n) {
      SpecsFit(run, cfg, want, j, n);
    }
  }

  /******* The specs of a settled store *******/

  /** A child that carries its desired hash has its desired spec, or it carried that hash already in the store `s` and
      still has the spec it had there. */
  ghost predicate SpecFits(s: Store, t: Store, cfg: Settings, want: Desired, n: string) {
    n in Labelled(t, cfg) && n in want && HashOf(t[n]) == want[n].hash ==>
      || t[n].spec == want[n].spec
      || (n in Labelled(s, cfg) && HashOf(s[n]) == want[n].hash && t[n].spec == s[n].spec)
  }

  /** The child holds what the desired state asks for. */
  ghost predicate Holds(t: Store, cfg: Settings, want: Desired, n: string) {
    n in Labelled(t, cfg) && n in want && HashOf(t[n]) == want[n].hash && t[n].spec == want[n].spec
  }

  lemma CycleWrites(c: Cycle, t: Store, cfg: Settings, want: Desired, n: string)
    requires Leads(c, t, cfg, want)
    ensures n in c.moves.created + c.moves.updated ==> Holds(t, cfg, want, n)
    ensures Holds(c.before, cfg, want, n) ==> Holds(t, cfg, want, n)
    ensures n in Labelled(t, cfg) && n in want && n !in c.moves.created + c.moves.updated ==>
              n in Labelled(c.before, cfg) && HashOf(t[n]) == HashOf(c.before[n]) && t[n].spec == c.before[n].spec
  {
    MovesOutcome(c.before, cfg, want, c.moves, n);
    LabelledAfter(c.before, cfg, want, c.moves, n);
  }

  lemma CycleHolds(c: Cycle, d: Cycle, cfg: Settings, want: Desired, n: string)
    requires Follows(c, d, cfg, want)
    requires n in c.moves.created + c.moves.updated || Holds(c.before, cfg, want, n)
    ensures Holds(d.before, cfg, want, n)
  {
    CycleWrites(c, d.before, cfg, want, n);
  }

  lemma CycleFits(s: Store, c: Cycle, d: Cycle, cfg: Settings, want: Desired, n: string)
    requires Follows(c, d, cfg, want) && SpecFits(s, c.before, cfg, want, n)
    ensures SpecFits(s, d.before, cfg, want, n)
  {
    CycleWrites(c, d.before, cfg, want, n);
  }

  /** Whatever the run created or updated holds its desired spec and hash from then on. */
  lemma {:induction false} WrittenStays(run: seq<Cycle>, cfg: Settings, want: Desired, i: nat, j: nat, n: string)
    requires IsRun(run, cfg, want) && i < j < |run| && n in run[i].moves.created + run[i].moves.updated
    ensures Holds(run[j].before, cfg, want, n)
    decreases j
  {
    if i < j - 1 { WrittenStays(run, cfg, want, i, j - 1, n); }
    CycleHolds(run[j - 1], run[j], cfg, want, n);
  }

  lemma {:induction false} SpecsFit(run: seq<Cycle>, cfg: Settings, want: Desired, j: nat, n: string)
    requires IsRun(run, cfg, want) && j < |run|
    ensures SpecFits(run[0].before, run[j].before, cfg, want, n)
  {
    if j == 0 {
    } else {
      SpecsFit(run, cfg, want, j - 1, n);
      CycleFits(run[0].before, run[j - 1], run[j], cfg, want, n);
    }
  }

  /** A labelled child that carries its desired hash is never written. */
  lemma CycleKeeps(c: Cycle, d: Cycle, cfg: Settings, want: Desired, n: string)
    requires Follows(c, d, cfg, want)
    requires n in want && n in Labelled(c.before, cfg) && HashOf(c.before[n]) == want[n].hash
    ensures n in Labelled(d.before, cfg) && HashOf(d.before[n]) == want[n].hash && d.before[n].spec == c.before[n].spec
  {
    LabelledAfter(c.before, cfg, want, c.moves, n);
    CycleWrites(c, d.before, cfg, want, n);
  }

  lemma {:induction false} SpecKept(run: seq<Cycle>, cfg: Settings, want: Desired, j: nat, n: string)
    requires IsRun(run, cfg, want) && j < |run|
    requires n in want && n in Labelled(run[0].before, cfg) && HashOf(run[0].before[n]) == want[n].hash
    ensures && n in Labelled(run[j].before, cfg) && HashOf(run[j].before[n]) == want[n].hash
            && run[j].before[n].spec == run[0].before[n].spec
  {
    if j == 0 {
    } else {
      SpecKept(run, cfg, want, j - 1, n);
      CycleKeeps(run[j - 1], run[j], cfg, want, n);
    }
  }

  /** The exact condition: a child with its desired hash has its desired spec if and only if it did not start the run
      with that hash over another spec. Drift is judged by the hash, so no cycle repairs such a child. */
  lemma SpecRightIff(run: seq<Cycle>, cfg: Settings, want: Desired, j: nat, n: string)
    requires IsRun(run, cfg, want) && j < |run|
    requires n in want && n in Labelled(run[j].before, cfg) && HashOf(run[j].before[n]) == want[n].hash
    ensures run[j].before[n].spec != want[n].spec <==>
            && n in Labelled(run[0].before, cfg) && HashOf(run[0].before[n]) == want[n].hash
            && run[0].before[n].spec != want[n].spec
  {
    SpecsFit(run, cfg, want, j, n);
    if n in Labelled(run[0].before, cfg) && HashOf(run[0].before[n]) == want[n].hash { SpecKept(run, cfg, want, j, n); }
  }

  /** Such a child: created by the discovery, then edited to another image. The store counts as settled. */
  lemma EditedChildStays(cfg: Settings, w: Wanted)
    requires w.spec.image != "edited"
    ensures var s := map["c" := Fresh(cfg, w).(spec := w.spec.(image := "edited"))];
            Settled(s, cfg, map["c" := w]) && s["c"].spec != w.spec
  {
    var s := map["c" := Fresh(cfg, w).(spec := w.spec.(image := "edited"))];
    assert "c" in s && Matches(s["c"], cfg) && "c" in Labelled(s, cfg);
  }

  lemma NothingMoves(s: Store, cfg: Settings, want: Desired)
    ensures After(s, cfg, want, NO_MOVES) == s
  {
  }

  /******* The health gate *******/

  /** While the gate is closed no labelled child that a source asks for is touched. */
  lemma GatePauses(s: Store, cfg: Settings, want: Desired, m: Moves, n: string)
    requires Allowed(s, cfg, want, m) && Tripped(s, cfg, want)
    requires n in want && n in Labelled(s, cfg)
    ensures n in After(s, cfg, want, m) && After(s, cfg, want, m)[n] == s[n]
  {
  }

  /** An updated child is up to date from then on. */
  lemma {:induction false} UpdatedStays(t: seq<Look>, limit: nat, cleans: bool, i: nat, j: nat, n: string)
    requires IsTrace(t, limit, cleans) && i < j < |t| && n in t[i].moves.updated
    ensures n in t[j].labelled && n !in t[j].stale && n !in t[j].surplus
    decreases j
  {
    assert Fair(t[j - 1], limit, cleans) && Next(t[j - 1], t[j]);
    if i < j - 1 { UpdatedStays(t, limit, cleans, i, j - 1, n); }
  }

  /** Every child that some cycle updated is unhealthy whenever a later cycle looks. */
  ghost predicate UpdatesFail(run: seq<Cycle>) {
    forall i, j, n :: 0 <= i < j < |run| && n in run[i].moves.updated && n in run[j].before ==>
      Unhealthy(run[j].before[n])
  }

  /** Blast radius. If updating is what breaks children, only one cycle of the whole run updates any: a
      broken template reaches at most one batch of the children that exist when its rollout starts. */
  lemma BlastRadius(run: seq<Cycle>, cfg: Settings, want: Desired, i: nat, j: nat)
    requires IsRun(run, cfg, want) && UpdatesFail(run)
    requires forall n :: n in want ==> want[n].hash != ""
    requires i < j < |run| && run[i].moves.updated != {}
    ensures run[j].moves.updated == {}
    ensures var updated := |run[i].moves.updated|; updated == 1 || 5 * (updated - 1) < |Labelled(run[i].before, cfg)|
  {
    var n :| n in run[i].moves.updated;
    var t := TraceOf(run, cfg, want);
    RunIsTrace(run, cfg, want);
    assert Fair(t[i], Limit(cfg), CleansUp(cfg)) && Fair(t[j], Limit(cfg), CleansUp(cfg));
    UpdatedStays(t, Limit(cfg), CleansUp(cfg), i, j, n);
    GateTrips(run[j].before, cfg, want, n);
  }

  /** The children that the first `k` cycles updated. */
  ghost function UpdatedBy(run: seq<Cycle>, k: nat): set<string>
    requires k <= |run|
  {
    if k == 0 then {} else UpdatedBy(run, k - 1) + run[k - 1].moves.updated
  }

  /** Over the whole run: the children ever updated are those of one cycle, the first that updated any, and so at most a
      fifth, rounded up, of the children that existed then. */
  lemma {:induction false} TotalBlastRadius(run: seq<Cycle>, cfg: Settings, want: Desired, k: nat)
    requires IsRun(run, cfg, want) && UpdatesFail(run) && k <= |run|
    requires forall n :: n in want ==> want[n].hash != ""
    ensures UpdatedBy(run, k) == {} || exists i :: 0 <= i < k && OneBatch(run, cfg, i, UpdatedBy(run, k))
  {
    if k == 0 {
    } else {
      TotalBlastRadius(run, cfg, want, k - 1);
      var before := UpdatedBy(run, k - 1);
      if before == {} {
        assert UpdatedBy(run, k) == run[k - 1].moves.updated;
        if run[k - 1].moves.updated != {} { FirstBatch(run, cfg, want, k - 1); }
      } else {
        var i :| 0 <= i < k - 1 && OneBatch(run, cfg, i, before);
        BlastRadius(run, cfg, want, i, k - 1);
        assert UpdatedBy(run, k) == before;
      }
    }
  }

  lemma FirstBatch(run: seq<Cycle>, cfg: Settings, want: Desired, i: nat)
    requires IsRun(run, cfg, want) && i < |run| && UpdatedBy(run, i) == {} && run[i].moves.updated != {}
    ensures OneBatch(run, cfg, i, run[i].moves.updated)
  {
    assert ValidCycle(run[i], cfg, want);
    NothingBefore(run, i);
  }

  /** `names` are what cycle `i` updated, within its batch, and no cycle before it updated anything. */
  ghost predicate OneBatch(run: seq<Cycle>, cfg: Settings, i: nat, names: set<string>)
    requires i < |run|
  {
    && names == run[i].moves.updated && names != {}
    && (|names| == 1 || 5 * (|names| - 1) < |Labelled(run[i].before, cfg)|)
    && forall j :: 0 <= j < i ==> run[j].moves.updated == {}
  }

  lemma {:induction false} NothingBefore(run: seq<Cycle>, k: nat)
    requires k <= |run| && UpdatedBy(run, k) == {}
    ensures forall j :: 0 <= j < k ==> run[j].moves.updated == {}
  {
    if k == 0 {
    } else {
      NothingBefore(run, k - 1);
    }
  }

  lemma GateTrips(s: Store, cfg: Settings, want: Desired, n: string)
    requires n in Labelled(s, cfg) && n !in Stale(s, cfg, want) && n !in Surplus(s, cfg, want)
    requires Unhealthy(s[n]) && forall x :: x in want ==> want[x].hash != ""
    ensures Tripped(s, cfg, want)
  {
    assert Alarms(s[n], want[n]);
  }

  /******* The code makes runs *******/

  lemma SameFollows(a: Cycle, b: Cycle, x: Cycle, y: Cycle, cfg: Settings, want: Desired)
    requires Follows(a, b, cfg, want) && a == x && b == y
    ensures Follows(x, y, cfg, want)
  {
  }

  lemma SameValid(a: Cycle, x: Cycle, cfg: Settings, want: Desired)
    requires ValidCycle(a, cfg, want) && a == x
    ensures ValidCycle(x, cfg, want)
  {
  }

  lemma ValidPlus(run: seq<Cycle>, c: Cycle, cfg: Settings, want: Desired)
    requires AllValid(run, cfg, want) && ValidCycle(c, cfg, want)
    ensures AllValid(run + [c], cfg, want)
  {
    var more := run + [c];
    forall i | 0 <= i < |more| ensures ValidCycle(more[i], cfg, want) {
      SameValid(if i < |run| then run[i] else c, more[i], cfg, want);
    }
  }

  lemma ChainedPlus(run: seq<Cycle>, c: Cycle, cfg: Settings, want: Desired)
    requires Chained(run, cfg, want) && (run != [] ==> Follows(run[|run| - 1], c, cfg, want))
    ensures Chained(run + [c], cfg, want)
  {
    var more := run + [c];
    forall i, j | 0 <= i && j == i + 1 && j < |more| ensures Follows(more[i], more[j], cfg, want) {
      SameFollows(run[i], if j < |run| then run[j] else c, more[i], more[j], cfg, want);
    }
  }

  /** The run starts in `s` and leads to `t`. */
  ghost predicate RunTo(run: seq<Cycle>, s: Store, t: Store, cfg: Settings, want: Desired) {
    && IsRun(run, cfg, want)
    && if run == [] then s == t else run[0].before == s && Leads(run[|run| - 1], t, cfg, want)
  }

  lemma RunToPlus(run: seq<Cycle>, c: Cycle, s: Store, t: Store, cfg: Settings, want: Desired)
    requires RunTo(run, s, c.before, cfg, want) && Leads(c, t, cfg, want)
    ensures RunTo(run + [c], s, t, cfg, want)
  {
    ValidPlus(run, c, cfg, want);
    ChainedPlus(run, c, cfg, want);
  }

  /** Every cycle that was permitted what it may try ran to its end. */
  ghost predicate Diligent(run: seq<Cycle>, cfg: Settings, want: Desired, admits: DiscoveryCycle.Webhook) {
    forall i {:trigger DiscoveryCycle.Permitted(run[i].before, cfg, want, admits)} ::
      0 <= i < |run| && DiscoveryCycle.Permitted(run[i].before, cfg, want, admits) ==> run[i].complete
  }

  lemma DiligentPlus(run: seq<Cycle>, c: Cycle, cfg: Settings, want: Desired, admits: DiscoveryCycle.Webhook)
    requires Diligent(run, cfg, want, admits)
    requires DiscoveryCycle.Permitted(c.before, cfg, want, admits) ==> c.complete
    ensures Diligent(run + [c], cfg, want, admits)
  {
    var more := run + [c];
    forall i | 0 <= i < |more| && DiscoveryCycle.Permitted(more[i].before, cfg, want, admits) ensures more[i].complete {
      assert more[i] == if i < |run| then run[i] else c;
      if i < |run| { assert DiscoveryCycle.Permitted(run[i].before, cfg, want, admits); }
    }
  }

  /** Nothing stands in the way of the run's cycles: all they may try is permitted, and the gate is open. */
  ghost predicate Unhindered(run: seq<Cycle>, cfg: Settings, want: Desired, admits: DiscoveryCycle.Webhook) {
    forall i {:trigger DiscoveryCycle.Permitted(run[i].before, cfg, want, admits)} :: 0 <= i < |run| ==>
      DiscoveryCycle.Permitted(run[i].before, cfg, want, admits) && !Tripped(run[i].before, cfg, want)
  }

  lemma {:induction false} AllCount(t: seq<Look>, k: nat)
    requires k <= |t| && forall i :: 0 <= i < k ==> t[i].complete && !t[i].tripped
    ensures Completes(t, k) == Rollouts(t, k) == k
  {
    if k == 0 {
    } else {
      AllCount(t, k - 1);
    }
  }

  /** A look at the store after the run. */
  lemma LastLook(run: seq<Cycle>, s: Store, t: Store, cfg: Settings, want: Desired)
    requires RunTo(run, s, t, cfg, want)
    ensures IsRun(run + [Cycle(t, NO_MOVES, false)], cfg, want)
  {
    var c := Cycle(t, NO_MOVES, false);
    IdleCycle(t, cfg, want);
    ValidPlus(run, c, cfg, want);
    ChainedPlus(run, c, cfg, want);
  }

  lemma IdleCycle(t: Store, cfg: Settings, want: Desired)
    ensures ValidCycle(Cycle(t, NO_MOVES, false), cfg, want)
  {
  }

  /** Five unhindered cycles, and enough of them to create what was missing, settle the store. */
  lemma UnhinderedSettles(run: seq<Cycle>, s: Store, t: Store, cfg: Settings, want: Desired,
                          admits: DiscoveryCycle.Webhook)
    requires RunTo(run, s, t, cfg, want) && Diligent(run, cfg, want, admits) && Unhindered(run, cfg, want, admits)
    requires CleansUp(cfg) && |run| >= 5 && |run| * Limit(cfg) >= |Missing(s, cfg, want)|
    ensures Settled(t, cfg, want)
  {
    var more := run + [Cycle(t, NO_MOVES, false)];
    LastLook(run, s, t, cfg, want);
    var looks := TraceOf(more, cfg, want);
    forall i | 0 <= i < |run| ensures looks[i].complete && !looks[i].tripped {
      assert DiscoveryCycle.Permitted(run[i].before, cfg, want, admits);
      assert more[i] == run[i];
    }
    AllCount(looks, |run|);
    Converges(more, cfg, want, |run|, |run|);
  }

  lemma RunSpecsFit(run: seq<Cycle>, s: Store, t: Store, cfg: Settings, want: Desired)
    requires RunTo(run, s, t, cfg, want)
    ensures forall n :: SpecFits(s, t, cfg, want, n)
  {
    var more := run + [Cycle(t, NO_MOVES, false)];
    LastLook(run, s, t, cfg, want);
    assert more[0].before == s && more[|run|].before == t;
    forall n ensures SpecFits(s, t, cfg, want, n) { SpecsFit(more, cfg, want, |run|, n); }
  }

  /** Every child that the run created or updated holds its desired spec and hash in `t`. */
  ghost predicate AllHold(run: seq<Cycle>, t: Store, cfg: Settings, want: Desired) {
    forall i, n {:trigger n in run[i].moves.created} {:trigger n in run[i].moves.updated} ::
      0 <= i < |run| && (n in run[i].moves.created || n in run[i].moves.updated) ==> Holds(t, cfg, want, n)
  }

  lemma RunHolds(run: seq<Cycle>, s: Store, t: Store, cfg: Settings, want: Desired)
    requires RunTo(run, s, t, cfg, want)
    ensures AllHold(run, t, cfg, want)
  {
    var more := run + [Cycle(t, NO_MOVES, false)];
    LastLook(run, s, t, cfg, want);
    forall i, n | 0 <= i < |run| && (n in run[i].moves.created || n in run[i].moves.updated)
      ensures Holds(t, cfg, want, n)
    {
      assert more[i] == run[i];
      WrittenStays(more, cfg, want, i, |run|, n);
    }
  }

  /** One cycle of the controller, and what happens until the next. */
  method RunCycle(cluster: DiscoveryCycle.Cluster, cfg: Settings, sources: seq<DiscoveryCycle.DiscoveredSource>,
                  render: DiscoveryCycle.Renderer, hash: DiscoveryCycle.Hasher, drift: Store -> Store)
    returns (ghost c: Cycle)
    requires DiscoveryCycle.WantedBy(cfg, sources, render, hash).Some?
    requires forall s {:trigger drift(s)} :: Drift(s, drift(s), cfg)
    modifies cluster
    ensures c.before == old(cluster.children)
    ensures var want := DiscoveryCycle.WantedBy(cfg, sources, render, hash).value;
            && Leads(c, cluster.children, cfg, want)
            && (cluster.reliable && DiscoveryCycle.Permitted(c.before, cfg, want, cluster.admits) ==> c.complete)
  {
    ghost var before, want := cluster.children, DiscoveryCycle.WantedBy(cfg, sources, render, hash).value;
    ghost var m: Moves, tried: set<string>;
    var ok, res;
    ok, res, m, tried := cluster.Cycle(cfg, sources, render, hash);
    c := Cycle(before, m, ok);
    if DiscoveryCycle.Permitted(before, cfg, want, cluster.admits) {
      ghost var may := DiscoveryCycle.MayWrite(before, cfg, want);
      DiscoveryCycle.WritableSubset(before, cfg, want, cluster.admits, tried, may);
    }
    cluster.children := drift(cluster.children);
  }

  /** Repeated cycles of the controller, whatever fails in them and however the cluster drifts in between, are a run.
      With an API that does not fail, five cycles that nothing hinders, and enough of them to create what was missing,
      leave exactly the desired children with the desired hashes; and children with the desired hash have the desired
      spec, unless they had that hash before the first cycle. */
  method RunCycles(cluster: DiscoveryCycle.Cluster, cfg: Settings, sources: seq<DiscoveryCycle.DiscoveredSource>,
                   render: DiscoveryCycle.Renderer, hash: DiscoveryCycle.Hasher, cycles: nat,
                   drift: nat -> Store -> Store)
    returns (ghost run: seq<Cycle>)
    requires DiscoveryCycle.WantedBy(cfg, sources, render, hash).Some?
    requires forall i, s {:trigger drift(i)(s)} :: Drift(s, drift(i)(s), cfg)
    modifies cluster
    ensures var want := DiscoveryCycle.WantedBy(cfg, sources, render, hash).value;
            && |run| == cycles && RunTo(run, old(cluster.children), cluster.children, cfg, want)
            && AllHold(run, cluster.children, cfg, want)
            && (forall n :: SpecFits(old(cluster.children), cluster.children, cfg, want, n))
            && (cluster.reliable ==> Diligent(run, cfg, want, cluster.admits))
            && (cluster.reliable && Unhindered(run, cfg, want, cluster.admits) && CleansUp(cfg)
                && cycles >= 5 && cycles * Limit(cfg) >= |Missing(old(cluster.children), cfg, want)|
                ==> Settled(cluster.children, cfg, want))
  {
    ghost var want := DiscoveryCycle.WantedBy(cfg, sources, render, hash).value;
    ghost var s := cluster.children;
    run := [];
    for i := 0 to cycles
      invariant |run| == i && RunTo(run, s, cluster.children, cfg, want)
      invariant cluster.reliable ==> Diligent(run, cfg, want, cluster.admits)
    {
      ghost var c := RunCycle(cluster, cfg, sources, render, hash, drift(i));
      RunToPlus(run, c, s, cluster.children, cfg, want);
      if cluster.reliable { DiligentPlus(run, c, cfg, want, cluster.admits); }
      run := run + [c];
    }
    RunHolds(run, s, cluster.children, cfg, want);
    RunSpecsFit(run, s, cluster.children, cfg, want);
    if cluster.reliable && Unhindered(run, cfg, want, cluster.admits) && CleansUp(cfg)
       && cycles >= 5 && cycles * Limit(cfg) >= |Missing(s, cfg, want)| {
      UnhinderedSettles(run, s, cluster.children, cfg, want, cluster.admits);
    }
  }
}
