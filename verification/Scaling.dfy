/** Choosing the number of replicas and of Kafka consumer threads. */
module ScalingMath {
  import opened Api
  import Admission

  datatype Result = Result(replicas: int, topicWorkers: int)

  /******* A ceiling computed in floating point *******/

  function Ceil(q: real): int { -((-q).Floor) }

  function CeilDiv(p: int, r: int): int
    requires r > 0
  {
    (p + r - 1) / r
  }

  /** Half a unit in the last place of a 64-bit floating-point number of magnitude one. */
  const EPSILON: real := 1.0 / 9007199254740992.0

  /** What IEEE 754 division guarantees of `q` for the integers `p` and `r`: it is correctly rounded, hence
      within a relative error of EPSILON, and exact when the quotient is an integer. */
  ghost predicate RoundedQuotient(p: int, r: int, q: real)
    requires r > 0
  {
    var exact := p as real / r as real;
    && exact - EPSILON * exact <= q <= exact + EPSILON * exact
    && (p % r == 0 ==> q == exact)
  }

  lemma CeilDivIs(p: int, r: int)
    requires r > 0
    ensures (CeilDiv(p, r) - 1) * r < p <= CeilDiv(p, r) * r
  {
    var k := CeilDiv(p, r);
    assert p + r - 1 == k * r + (p + r - 1) % r;
    assert (k - 1) * r == k * r - r;
  }

  lemma CeilIs(q: real, k: int)
    requires (k - 1) as real < q <= k as real
    ensures Ceil(q) == k
  {
  }

  lemma ScaleBy(a: real, b: real, r: real)
    requires r > 0.0 && a <= b
    ensures a * r <= b * r
  {
  }

  lemma CancelFactor(a: real, b: real, r: real)
    requires r > 0.0 && a * r < b * r
    ensures a < b
  {
    if b <= a { ScaleBy(b, a, r); }
  }

  lemma NextMultiple(a: int, b: int, r: int)
    requires r > 0 && a < b
    ensures a * r + r <= b * r
  {
    MultipleOfPositive(b - a, r);
    assert (b - a) * r == b * r - a * r;
  }

  lemma MultipleOfPositive(d: int, r: int)
    requires d >= 1 && r > 0
    ensures d * r >= r
  {
  }

  lemma WholeQuotient(p: int, r: int)
    requires r > 0 && p % r == 0
    ensures p == CeilDiv(p, r) * r
  {
    CeilDivIs(p, r);
    var a, k := p / r, CeilDiv(p, r);
    assert p == a * r;
    if a < k { NextMultiple(a, k, r); }
    if k < a { NextMultiple(k, a, r); }
  }

  lemma QuotientScaled(p: int, r: int, q: real)
    requires p >= 0 && r > 0 && RoundedQuotient(p, r, q)
    ensures p as real - EPSILON * p as real <= q * r as real <= p as real + EPSILON * p as real
  {
    var rp, rr := p as real, r as real;
    var exact := rp / rr;
    assert exact * rr == rp;
    ScaleBy(exact - EPSILON * exact, q, rr);
    ScaleBy(q, exact + EPSILON * exact, rr);
    assert (EPSILON * exact) * rr == EPSILON * (exact * rr);
  }

  /** The rounding error is too small to carry a non-integer quotient of 32-bit numbers past an integer. */
  lemma RoundedCeiling(p: int32, r: int32, q: real)
    requires p >= 1 && r >= 1 && RoundedQuotient(p, r, q)
    ensures Ceil(q) == CeilDiv(p, r)
  {
    var k := CeilDiv(p, r);
    CeilDivIs(p, r);
    QuotientScaled(p, r, q);
    if p % r == 0 {
      WholeQuotient(p, r);
      ExactQuotient(p, r, k);
    } else {
      assert p != k * r by { MultipleHasNoRemainder(k, r); }
      StrictlyBetween(p, r, q, k);
    }
    CeilIs(q, k);
  }

  lemma MultipleHasNoRemainder(k: int, r: int)
    requires r > 0
    ensures (k * r) % r == 0
  {
    var m := (k * r) % r;
    var d := (k * r) / r;
    assert k * r == d * r + m;
    if d < k { NextMultiple(d, k, r); }
    if k < d { NextMultiple(k, d, r); }
  }

  lemma ExactQuotient(p: int, r: int, k: int)
    requires r > 0 && p == k * r
    ensures p as real / r as real == k as real
  {
    assert p as real == k as real * r as real;
  }

  lemma WithinOne(lo: real, hi: real, p: real, x: real, e: real)
    requires lo <= p - 1.0 && p + 1.0 <= hi && e < 1.0 && p - e <= x <= p + e
    ensures lo < x < hi
  {
  }

  lemma StrictlyBetween(p: int32, r: int32, q: real, k: int)
    requires p >= 1 && r >= 1
    requires (k - 1) * r < p < k * r
    requires p as real - EPSILON * p as real <= q * r as real <= p as real + EPSILON * p as real
    ensures (k - 1) as real < q < k as real
  {
    var rp, rr, rk := p as real, r as real, k as real;
    assert EPSILON * rp < 1.0;
    assert (rk - 1.0) * rr <= rp - 1.0 by {
      assert (k - 1) as real * rr == ((k - 1) * r) as real;
    }
    assert rk * rr >= rp + 1.0 by {
      assert rk * rr == (k * r) as real;
    }
    BetweenMultiples(rp, rr, rk - 1.0, rk, q, EPSILON * rp);
  }

  lemma BetweenMultiples(p: real, r: real, a: real, b: real, q: real, e: real)
    requires r > 0.0 && e < 1.0 && a * r <= p - 1.0 && p + 1.0 <= b * r && p - e <= q * r <= p + e
    ensures a < q < b
  {
    WithinOne(a * r, b * r, p, q * r, e);
    CancelFactor(a, q, r);
    CancelFactor(q, b, r);
  }

  /******* Kafka *******/

  function Min(a: int, b: int): int { if a < b then a else b }

  function Max(a: int, b: int): int { if a > b then a else b }

  /** Floating-point division, a parameter of the model. */
  type Division = (int, int) -> real

  ghost predicate Ieee(divide: Division) {
    forall p: int32, r: int32 {:trigger RoundedQuotient(p, r, divide(p, r))} ::
      p >= 1 && r >= 1 ==> RoundedQuotient(p, r, divide(p, r))
  }

  function CalculateStatic(fixed: int32): Result { Result(Max(fixed, 1), 0) }

  /** `None` is the error for a partition count that is not positive. */
  function CalculateKafka(partitions: int32, maxReplicas: int32, minReplicas: int32, divide: Division): Option<Result> {
    if partitions <= 0 then None
    else
      var replicas := Max(Min(partitions, maxReplicas), minReplicas);
      Some(Result(replicas, Max(Ceil(divide(partitions, replicas)), 1)))
  }

  /** Enough consumers for every partition, with no thread per pod to spare, within the bounds; the lower bound
      wins when the bounds cross. Inside the bounds it is one consumer per partition. */
  lemma KafkaScaling(partitions: int32, maxReplicas: int32, minReplicas: int32, divide: Division)
    requires partitions >= 1 && maxReplicas >= 1 && minReplicas >= 1 && Ieee(divide)
    ensures var r := CalculateKafka(partitions, maxReplicas, minReplicas, divide).value;
            && r.replicas == (if partitions <= minReplicas then minReplicas
                              else if partitions <= maxReplicas then partitions
                              else if minReplicas <= maxReplicas then maxReplicas else minReplicas)
            && r.topicWorkers == CeilDiv(partitions, r.replicas)
            && (r.topicWorkers - 1) * r.replicas < partitions <= r.topicWorkers * r.replicas
            && (minReplicas <= partitions <= maxReplicas ==> r.replicas == partitions && r.topicWorkers == 1)
  {
    var replicas: int32 := Max(Min(partitions, maxReplicas), minReplicas);
    WorkersAre(partitions, replicas, divide);
    CeilDivIs(partitions, replicas);
    if partitions == replicas { SelfQuotient(replicas); }
  }

  /** The floating-point computation of the worker count is the integer one. */
  lemma WorkersAre(partitions: int32, replicas: int32, divide: Division)
    requires partitions >= 1 && replicas >= 1 && Ieee(divide)
    ensures Max(Ceil(divide(partitions, replicas)), 1) == CeilDiv(partitions, replicas)
  {
    assert RoundedQuotient(partitions, replicas, divide(partitions, replicas));
    RoundedCeiling(partitions, replicas, divide(partitions, replicas));
    CeilDivIs(partitions, replicas);
    var k := CeilDiv(partitions, replicas);
    if k <= 0 { NoPositiveProduct(k, replicas); }
  }

  lemma NoPositiveProduct(k: int, r: int)
    requires k <= 0 && r > 0
    ensures k * r <= 0
  {
  }

  lemma SelfQuotient(r: int)
    requires r > 0
    ensures CeilDiv(r, r) == 1
  {
    CeilDivIs(r, r);
    var k := CeilDiv(r, r);
    if k < 1 { NoPositiveProduct(k, r); }
    if k > 1 { MultipleOfPositive(k - 1, r); }
  }

  /** A 32-bit signed product. */
  function Wrap32(x: int): int { (x + 0x8000_0000) % 0x1_0000_0000 - 0x8000_0000 }

  const MAX_INT32 := 0x7fff_ffff

  function ReplicasFor(partitions: int32, maxReplicas: int32, minReplicas: int32): int32 {
    Max(Min(partitions, maxReplicas), minReplicas)
  }

  /** The consumer total in the status is right exactly when the partitions do not exceed the largest multiple of the
      replicas that fits 32 bits. */
  lemma TotalConsumers(partitions: int32, maxReplicas: int32, minReplicas: int32, divide: Division)
    requires partitions >= 1 && maxReplicas >= 1 && minReplicas >= 1 && Ieee(divide)
    ensures var r := CalculateKafka(partitions, maxReplicas, minReplicas, divide).value;
            && (Wrap32(r.replicas * r.topicWorkers) == r.replicas * r.topicWorkers <==>
                partitions <= MAX_INT32 - MAX_INT32 % ReplicasFor(partitions, maxReplicas, minReplicas))
            && r.replicas * r.topicWorkers < partitions + r.replicas
  {
    KafkaScaling(partitions, maxReplicas, minReplicas, divide);
    var r := CalculateKafka(partitions, maxReplicas, minReplicas, divide).value;
    Product(r.topicWorkers, r.replicas);
    WrapIff(r.replicas * r.topicWorkers);
    MultipleFits(partitions, r.replicas, r.topicWorkers);
  }

  /** The first multiple of `r` that is not below `p` fits exactly when the last one that fits is not below `p`. */
  lemma MultipleFits(p: int, r: int, k: int)
    requires r > 0 && (k - 1) * r < p <= k * r
    ensures k * r <= MAX_INT32 <==> p <= MAX_INT32 - MAX_INT32 % r
  {
    var q := MAX_INT32 / r;
    assert MAX_INT32 - MAX_INT32 % r == q * r;
    if k <= q { MultipleOrder(k, q, r); } else { MultipleOrder(q, k - 1, r); Product(k, r); }
  }

  lemma MultipleOrder(a: int, b: int, r: int)
    requires r > 0 && a <= b
    ensures a * r <= b * r
  {
  }

  /** Up to half the 32-bit range, and with a single replica, the total is always right. */
  lemma TotalNeverOverflows(partitions: int32, maxReplicas: int32, minReplicas: int32, divide: Division)
    requires partitions >= 1 && maxReplicas >= 1 && minReplicas >= 1 && Ieee(divide)
    requires partitions <= 0x4000_0000 || ReplicasFor(partitions, maxReplicas, minReplicas) == 1
    ensures var r := CalculateKafka(partitions, maxReplicas, minReplicas, divide).value;
            Wrap32(r.replicas * r.topicWorkers) == r.replicas * r.topicWorkers
  {
    TotalConsumers(partitions, maxReplicas, minReplicas, divide);
    var replicas := ReplicasFor(partitions, maxReplicas, minReplicas);
    if replicas > 0x4000_0000 { LargeRemainder(replicas); }
  }

  lemma LargeRemainder(r: int32)
    requires r > 0x4000_0000
    ensures MAX_INT32 - MAX_INT32 % r == r
  {
    assert MAX_INT32 / r == 1;
  }

  /** With two replicas for the largest possible partition count the total wraps around. */
  lemma TotalOverflows(divide: Division)
    requires Ieee(divide)
    ensures var r := CalculateKafka(MAX_INT32, 2, 2, divide).value;
            r == Result(2, 0x4000_0000) && Wrap32(r.replicas * r.topicWorkers) == -0x8000_0000
  {
    KafkaScaling(MAX_INT32, 2, 2, divide);
  }

  lemma Product(k: int, r: int)
    ensures r * k == k * r && (k - 1) * r == k * r - r
  {
  }

  lemma WrapIff(x: int)
    requires 0 <= x < 0x1_0000_0000
    ensures Wrap32(x) == x <==> x < 0x8000_0000
  {
  }

  /******* Bounds *******/

  function ScalingBounds(s: Option<Scaling>): (int32, int32) {
    (if s.Some? && s.value.minReplicas.Some? then s.value.minReplicas.value else 1,
     if s.Some? && s.value.maxReplicas.Some? then s.value.maxReplicas.value else 10)
  }

  /** What the API schema enforces on its own. */
  predicate SchemaValid(s: Option<Scaling>) {
    s.Some? ==>
      && (s.value.minReplicas.Some? ==> s.value.minReplicas.value >= 1)
      && (s.value.maxReplicas.Some? ==> s.value.maxReplicas.value >= 1)
      && (s.value.fixedReplicas.Some? ==> s.value.fixedReplicas.value >= 1)
  }

  /** Admission does not keep the bounds in order: it compares them only when both are set. Exactly then they
      cross when the minimum exceeds the default maximum. */
  lemma AdmittedBounds(s: Option<Scaling>)
    requires SchemaValid(s) && Admission.ScalingAdmitted(s)
    ensures ScalingBounds(s).0 <= ScalingBounds(s).1 <==>
            !(s.Some? && s.value.maxReplicas.None? && s.value.minReplicas.Some? && s.value.minReplicas.value > 10)
  {
  }

  lemma CrossedBoundsAdmitted()
    ensures var s := Some(Scaling(MODE_AUTO, None, Some(11), None));
            SchemaValid(s) && Admission.ScalingAdmitted(s) && ScalingBounds(s).0 > ScalingBounds(s).1
  {
    assert MODE_AUTO[0] != MODE_MANUAL[0];
  }

  /******* The strategy *******/

  /** What asking Kafka for the partition count gives. */
  datatype Lookup = NoClient | LookupFails | Partitions(count: int32)

  datatype Decision = Decision(replicas: int, topicWorkers: int, useHpa: bool, failed: bool)

  ghost predicate HasKafka(ps: seq<PipelineDefinition>) { exists i :: 0 <= i < |ps| && ps[i].source.kafka.Some? }

  ghost predicate HasS3(ps: seq<PipelineDefinition>) { exists i :: 0 <= i < |ps| && ps[i].source.s3.Some? }

  predicate Manual(s: Option<Scaling>) { s.None? || s.value.mode == "" || s.value.mode == MODE_MANUAL }

  function CalculateKafkaScaling(lookup: Lookup, minReplicas: int32, maxReplicas: int32, divide: Division): Decision {
    match lookup
    case NoClient => Decision(minReplicas, 0, false, false)
    case LookupFails => Decision(minReplicas, 0, false, true)
    case Partitions(count) =>
      var r := CalculateKafka(count, maxReplicas, minReplicas, divide);
      if r.None? then Decision(minReplicas, 0, false, true)
      else Decision(r.value.replicas, r.value.topicWorkers, false, false)
  }

  /** The Kafka source whose topic is looked up. */
  function FirstKafka(ps: seq<PipelineDefinition>): Option<KafkaSource> {
    if ps == [] then None else if ps[0].source.kafka.Some? then ps[0].source.kafka else FirstKafka(ps[1..])
  }

  lemma {:induction false} FirstKafkaIs(ps: seq<PipelineDefinition>, i: nat)
    requires i <= |ps| && forall j :: 0 <= j < i ==> ps[j].source.kafka.None?
    ensures FirstKafka(ps) == if i < |ps| && ps[i].source.kafka.Some? then ps[i].source.kafka else FirstKafka(ps[i..])
    ensures FirstKafka(ps).Some? <==> HasKafka(ps)
  {
    if ps == [] {
    } else if ps[0].source.kafka.Some? {
      assert i == 0 && ps[0..] == ps;
    } else {
      FirstKafkaIs(ps[1..], if i == 0 then 0 else i - 1);
      if i == 0 { assert ps[0..] == ps; } else { assert ps[1..][i - 1..] == ps[i..]; }
      if k :| 0 <= k < |ps| && ps[k].source.kafka.Some? { assert ps[1..][k - 1].source.kafka.Some?; }
    }
  }

  /** The decision by mode and sources; in automatic mode the first Kafka pipeline's topic is looked up. */
  ghost function DecisionFor(s: Option<Scaling>, ps: seq<PipelineDefinition>, lookup: string -> Lookup,
                             divide: Division): Decision {
    var (low, high) := ScalingBounds(s);
    if Manual(s) then
      var fixed := if s.Some? && s.value.fixedReplicas.Some? then s.value.fixedReplicas.value else 1;
      Decision(CalculateStatic(fixed).replicas, 0, false, false)
    else if FirstKafka(ps).Some? then CalculateKafkaScaling(lookup(FirstKafka(ps).value.topic), low, high, divide)
    else if HasS3(ps) then Decision(Max(low, 1), 0, false, false)
    else Decision(low, 0, true, false)
  }

  /** The decision case by case. Manual mode takes the fixed count. In automatic mode the first Kafka source decides if
      there is one, S3 sources get the lower bound, and only pipelines with neither get an autoscaler. */
  lemma DecisionIs(s: Option<Scaling>, ps: seq<PipelineDefinition>, lookup: string -> Lookup, divide: Division)
    ensures var d := DecisionFor(s, ps, lookup, divide);
            var low: int32 := if s.Some? && s.value.minReplicas.Some? then s.value.minReplicas.value else 1;
            var high: int32 := if s.Some? && s.value.maxReplicas.Some? then s.value.maxReplicas.value else 10;
            if s.None? || s.value.mode == "" || s.value.mode == "manual" then
              && !d.failed && !d.useHpa && d.topicWorkers == 0
              && d.replicas == if s.Some? && s.value.fixedReplicas.Some? && s.value.fixedReplicas.value > 1
                               then s.value.fixedReplicas.value else 1
            else
              && (forall i :: 0 <= i < |ps| && ps[i].source.kafka.Some?
                              && (forall j :: 0 <= j < i ==> ps[j].source.kafka.None?) ==>
                    KafkaDecides(lookup(ps[i].source.kafka.value.topic), low, high, divide, d))
              && ((forall i :: 0 <= i < |ps| ==> ps[i].source.kafka.None?) ==>
                    if exists i :: 0 <= i < |ps| && ps[i].source.s3.Some?
                    then d == Decision(if low > 1 then low else 1, 0, false, false)
                    else d == Decision(low, 0, true, false))
  {
    forall i | 0 <= i < |ps| && ps[i].source.kafka.Some? && (forall j :: 0 <= j < i ==> ps[j].source.kafka.None?)
      ensures FirstKafka(ps) == ps[i].source.kafka
    {
      FirstKafkaIs(ps, i);
    }
    FirstKafkaIs(ps, 0);
  }

  /** What a lookup leads to: without a client the lower bound, after an error a failure, and with a partition count the
      replicas and threads that it calls for. */
  ghost predicate KafkaDecides(found: Lookup, low: int32, high: int32, divide: Division, d: Decision) {
    && !d.useHpa && (d.failed <==> found.LookupFails? || (found.Partitions? && found.count <= 0))
    && (found.NoClient? ==> d.replicas == low && d.topicWorkers == 0)
    && (!d.failed && found.Partitions? ==>
          CalculateKafka(found.count, high, low, divide) == Some(Result(d.replicas, d.topicWorkers)))
  }

  method CalculateScaling(s: Option<Scaling>, ps: seq<PipelineDefinition>, lookup: string -> Lookup, divide: Division)
    returns (d: Decision)
    ensures d == DecisionFor(s, ps, lookup, divide)
    ensures FirstKafka(ps).Some? <==> HasKafka(ps)
  {
    FirstKafkaIs(ps, 0);
    if Manual(s) {
      var fixed: int32 := 1;
      if s.Some? && s.value.fixedReplicas.Some? { fixed := s.value.fixedReplicas.value; }
      return Decision(CalculateStatic(fixed).replicas, 0, false, false);
    }
    var (minReplicas, maxReplicas) := ScalingBounds(s);
    for i := 0 to |ps|
      invariant FirstKafka(ps) == FirstKafka(ps[i..])
    {
      assert ps[i..][1..] == ps[i + 1..];
      if ps[i].source.kafka.Some? {
        return CalculateKafkaScaling(lookup(ps[i].source.kafka.value.topic), minReplicas, maxReplicas, divide);
      }
    }
    for i := 0 to |ps|
      invariant forall j :: 0 <= j < i ==> ps[j].source.s3.None?
    {
      if ps[i].source.s3.Some? { return Decision(CalculateStatic(minReplicas).replicas, 0, false, false); }
    }
    d := Decision(minReplicas, 0, true, false);
  }

  /** With bounds that the schema allows, the outcome after the fallback fits 32 bits and has at least one replica. */
  lemma DecisionFits(s: Option<Scaling>, ps: seq<PipelineDefinition>, lookup: string -> Lookup, divide: Division)
    requires SchemaValid(s) && Ieee(divide)
    ensures var e := Effective(DecisionFor(s, ps, lookup, divide));
            1 <= e.replicas <= MAX_INT32 && 0 <= e.topicWorkers <= MAX_INT32
  {
    var (low, high) := ScalingBounds(s);
    var d := DecisionFor(s, ps, lookup, divide);
    if !Manual(s) && FirstKafka(ps).Some? {
      var found := lookup(FirstKafka(ps).value.topic);
      AlwaysAReplica(found, low, high, divide);
      if found.Partitions? && found.count >= 1 {
        KafkaScaling(found.count, high, low, divide);
        WorkersFit(d.topicWorkers, d.replicas, found.count);
      }
    }
  }

  lemma WorkersFit(workers: int, replicas: int, partitions: int)
    requires replicas >= 1 && partitions >= 1 && (workers - 1) * replicas < partitions <= workers * replicas
    ensures 0 <= workers <= partitions
  {
    if workers > partitions {
      MultipleOfPositive(workers - 1, replicas);
      MultipleOrder(1, replicas, workers - 1);
      Product(workers - 1, replicas);
    }
    if workers < 0 { NoPositiveProduct(workers, replicas); }
  }

  /** The reconciler falls back to one replica when the calculation fails. */
  function Effective(d: Decision): Decision {
    if d.failed then d.(replicas := 1, topicWorkers := 0) else d
  }

  /** Scaling trouble never blocks a pipeline: there is always at least one replica. */
  lemma AlwaysAReplica(lookup: Lookup, minReplicas: int32, maxReplicas: int32, divide: Division)
    requires minReplicas >= 1 && maxReplicas >= 1 && Ieee(divide)
    ensures Effective(CalculateKafkaScaling(lookup, minReplicas, maxReplicas, divide)).replicas >= 1
    ensures CalculateKafkaScaling(lookup, minReplicas, maxReplicas, divide).failed <==>
            lookup.LookupFails? || (lookup.Partitions? && lookup.count <= 0)
  {
    if lookup.Partitions? && lookup.count >= 1 { KafkaScaling(lookup.count, maxReplicas, minReplicas, divide); }
  }
}
