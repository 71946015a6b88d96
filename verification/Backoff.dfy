/** Counting discovery failures in an annotation, and backing off. */
module Backoff {
  import opened Api

  const POLL_INTERVAL := 30 * SECOND
  const MAX_BACKOFF := 300 * SECOND
  const MAX_INT := 0x7fff_ffff_ffff_ffff

  /******* Decimal text *******/

  function Digit(d: nat): char
    requires d < 10
  {
    "0123456789"[d]
  }

  function DigitValue(c: char): nat
    requires '0' <= c <= '9'
  {
    c as int - '0' as int
  }

  /** The decimal text of a count. */
  function Itoa(n: nat): string {
    if n < 10 then [Digit(n)] else Itoa(n / 10) + [Digit(n % 10)]
  }

  predicate AllDigits(s: string) { forall i :: 0 <= i < |s| ==> '0' <= s[i] <= '9' }

  function Value(s: string): nat
    requires AllDigits(s)
  {
    if s == "" then 0 else 10 * Value(s[..|s| - 1]) + DigitValue(s[|s| - 1])
  }

  /** Parsing with the error dropped: text that is no number counts as zero, a number out of range as the
      nearest 64-bit one. */
  function Atoi(s: string): int {
    var negative := s != "" && s[0] == '-';
    var digits := if s != "" && (s[0] == '-' || s[0] == '+') then s[1..] else s;
    if digits == "" || !AllDigits(digits) then 0
    else if negative then (if Value(digits) > MAX_INT + 1 then -MAX_INT - 1 else 0 - Value(digits))
    else if Value(digits) > MAX_INT then MAX_INT else Value(digits)
  }

  lemma {:induction false} ItoaDigits(n: nat)
    ensures Itoa(n) != "" && AllDigits(Itoa(n)) && Value(Itoa(n)) == n
  {
    if n < 10 {
      DigitRoundTrip(n);
      assert Value("") == 0;
      assert [Digit(n)][..0] == "";
    } else {
      ItoaDigits(n / 10);
      DigitRoundTrip(n % 10);
      assert (Itoa(n / 10) + [Digit(n % 10)])[..|Itoa(n / 10)|] == Itoa(n / 10);
    }
  }

  lemma DigitRoundTrip(d: nat)
    requires d < 10
    ensures '0' <= Digit(d) <= '9' && DigitValue(Digit(d)) == d
  {
  }

  /** Reading back what was written. */
  lemma CountRoundTrip(n: nat)
    requires n <= MAX_INT
    ensures Atoi(Itoa(n)) == n
  {
    ItoaDigits(n);
    assert Itoa(n)[0] != '-' && Itoa(n)[0] != '+';
  }

  /** The decimal text of any count. */
  function Signed(n: int): string { if n < 0 then "-" + Itoa(-n) else Itoa(n) }

  lemma SignedRoundTrip(n: int)
    requires -MAX_INT - 1 <= n <= MAX_INT
    ensures Atoi(Signed(n)) == n
  {
    if n >= 0 {
      CountRoundTrip(n);
    } else {
      ItoaDigits(-n);
      assert Signed(n)[1..] == Itoa(-n);
    }
  }

  /******* The delay *******/

  function Pow2(n: nat): nat { if n == 0 then 1 else 2 * Pow2(n - 1) }

  /** The source computes in floating point. The value is exact: 30 seconds is a 25-bit number times a power of
      two, and once the product overflows to infinity it is capped like any other large one. */
  function Delay(failures: int): int {
    if failures <= 1 then POLL_INTERVAL
    else if POLL_INTERVAL * Pow2(failures - 1) > MAX_BACKOFF then MAX_BACKOFF
    else POLL_INTERVAL * Pow2(failures - 1)
  }

  lemma {:induction false} Pow2Monotone(a: nat, b: nat)
    requires a <= b
    ensures 1 <= Pow2(a) <= Pow2(b)
  {
    if a > 0 { Pow2Monotone(a - 1, b - 1); } else if b > 0 { Pow2Monotone(a, b - 1); }
  }

  /** Doubling from 30 seconds, capped at five minutes from the fifth failure on. */
  lemma DelayIs(n: int)
    ensures Delay(n) == if n <= 1 then 30 * SECOND else if n == 2 then 60 * SECOND else if n == 3 then 120 * SECOND
                        else if n == 4 then 240 * SECOND else 300 * SECOND
  {
    assert Pow2(1) == 2 && Pow2(2) == 4 && Pow2(3) == 8 && Pow2(4) == 16;
    if n >= 5 { Pow2Monotone(4, n - 1); }
  }

  lemma DelayMonotone(a: int, b: int)
    requires a <= b
    ensures Delay(a) <= Delay(b)
  {
    DelayIs(a);
    DelayIs(b);
  }

  /******* The annotation *******/

  type Annotation = Option<string>

  function CountIn(a: Annotation): int { Atoi(if a.Some? then a.value else "") }

  /** Incrementing a 64-bit integer. */
  function Increment(n: int): int { if n == MAX_INT then -MAX_INT - 1 else n + 1 }

  function Bumped(a: Annotation): Annotation { Some(Signed(Increment(CountIn(a)))) }

  /** An empty annotation counts as none, and is left alone. */
  function Cleared(a: Annotation): Annotation { if a == Some("") then a else None }

  /** How one attempt to read, change and write the object ends. */
  datatype Attempt = ReadFails | Conflicts | WriteFails | Succeeds

  const ATTEMPTS := 5

  /** The discovery object in the controller's memory, which every read from the API server overwrites. */
  class Copy {
    var annotation: Annotation

    constructor (annotation: Annotation)
      ensures this.annotation == annotation
    {
      this.annotation := annotation;
    }

    method Bump() returns (count: int)
      modifies this
      ensures count == Increment(CountIn(old(annotation))) && annotation == Bumped(old(annotation))
    {
      count := Increment(CountIn(annotation));
      annotation := Some(Signed(count));
    }

    method Clear()
      modifies this
      ensures annotation == None
    {
      annotation := None;
    }
  }

  /** The failure annotation as the API server stores it. */
  class FailureRecord {
    var annotation: Annotation

    constructor (annotation: Annotation)
      ensures this.annotation == annotation
    {
      this.annotation := annotation;
    }

    /** Reads the object into `disc`, changes it there and writes it back; a conflict is retried, up to five times
        in all. Whatever `disc` held before has no influence. */
    method RetryOnConflict(disc: Copy, clear: bool) returns (persisted: bool)
      modifies this, disc
      ensures annotation == if !persisted then old(annotation)
                            else if clear then None else Bumped(old(annotation))
      ensures persisted ==> disc.annotation == annotation
    {
      persisted := false;
      var i := 0;
      while i < ATTEMPTS
        invariant annotation == old(annotation)
      {
        var attempt: Attempt := *;
        if attempt == ReadFails { return; }
        disc.annotation := annotation;
        if clear { disc.Clear(); } else { var _ := disc.Bump(); }
        match attempt {
          case Conflicts => i := i + 1;
          case Succeeds =>
            annotation := disc.annotation;
            return true;
          case _ => return;
        }
      }
    }

    /** A failed discovery. The count is bumped in memory for the delay and bumped again in every attempt to write it,
        but what is stored goes up by one, through any number of conflicts. */
    method OnFailure(disc: Copy) returns (requeue: int, persisted: bool)
      requires disc.annotation == annotation
      modifies this, disc
      ensures requeue == Delay(Increment(CountIn(old(annotation))))
      ensures annotation == Recorded(old(annotation), Failure(persisted))
    {
      var count := disc.Bump();
      requeue := Delay(count);
      persisted := RetryOnConflict(disc, false);
    }

    /** A successful discovery. */
    method OnSuccess(disc: Copy) returns (persisted: bool)
      requires disc.annotation == annotation
      modifies this, disc
      ensures annotation == Recorded(old(annotation), Success(persisted))
    {
      persisted := true;
      if disc.annotation.Some? && disc.annotation.value != "" { persisted := RetryOnConflict(disc, true); }
    }
  }

  /******* Whole runs *******/

  /** A discovery attempt, and whether the annotation could be written afterwards. */
  datatype Outcome = Failure(persisted: bool) | Success(persisted: bool)

  function Recorded(a: Annotation, e: Outcome): Annotation {
    if !e.persisted then a else if e.Failure? then Bumped(a) else Cleared(a)
  }

  function RecordedAll(a: Annotation, es: seq<Outcome>): Annotation {
    if es == [] then a else Recorded(RecordedAll(a, es[..|es| - 1]), es[|es| - 1])
  }

  /** The recorded failures since the last recorded success. */
  function Streak(es: seq<Outcome>): nat {
    if es == [] then 0
    else
      var before, last := Streak(es[..|es| - 1]), es[|es| - 1];
      if !last.persisted then before else if last.Failure? then before + 1 else 0
  }

  /** Some success was recorded. */
  predicate Succeeded(es: seq<Outcome>) {
    es != [] && (es[|es| - 1] == Success(true) || Succeeded(es[..|es| - 1]))
  }

  /** The count after the outcomes `es`, from the annotation `a`: the failures since the last success, on top of what
      the annotation said if there was none. */
  function CountAfter(a: Annotation, es: seq<Outcome>): int {
    (if Succeeded(es) then 0 else CountIn(a)) + Streak(es)
  }

  /** The 64-bit integer that a number wraps around to. */
  function Wrap64(x: int): int { (x + MAX_INT + 1) % (2 * (MAX_INT + 1)) - MAX_INT - 1 }

  lemma WrapInRange(x: int)
    ensures -MAX_INT - 1 <= Wrap64(x) <= MAX_INT
    ensures -MAX_INT - 1 <= x <= MAX_INT ==> Wrap64(x) == x
  {
  }

  lemma WrapIncrement(x: int)
    ensures Increment(Wrap64(x)) == Wrap64(x + 1)
  {
  }

  lemma CountInRange(a: Annotation)
    ensures -MAX_INT - 1 <= CountIn(a) <= MAX_INT
  {
  }

  lemma RecordedCount(a: Annotation, e: Outcome)
    ensures CountIn(Recorded(a, e)) ==
            if !e.persisted then CountIn(a) else if e.Failure? then Increment(CountIn(a)) else 0
  {
    CountInRange(a);
    SignedRoundTrip(Increment(CountIn(a)));
  }

  lemma CountStep(a: Annotation, es: seq<Outcome>, e: Outcome)
    ensures CountAfter(a, es + [e]) ==
            if !e.persisted then CountAfter(a, es) else if e.Failure? then CountAfter(a, es) + 1 else 0
  {
    assert (es + [e])[..|es|] == es;
  }

  /** Whatever annotation the object starts with, the annotation always holds that count, as a 64-bit integer. */
  lemma {:induction false} FailuresCounted(a: Annotation, es: seq<Outcome>)
    ensures CountIn(RecordedAll(a, es)) == Wrap64(CountAfter(a, es))
  {
    if es == [] {
      CountInRange(a);
      WrapInRange(CountIn(a));
    } else {
      var init, last := es[..|es| - 1], es[|es| - 1];
      FailuresCounted(a, init);
      RecordedCount(RecordedAll(a, init), last);
      assert init + [last] == es;
      CountStep(a, init, last);
      WrapIncrement(CountAfter(a, init));
      WrapInRange(0);
    }
  }

  /** The n-th consecutive failure waits 30 seconds times two to the n-1, but never more than five minutes; a negative
      count, which only a user or a wrap-around can write, waits 30 seconds. */
  lemma NthFailureDelay(a: Annotation, es: seq<Outcome>, n: int)
    requires n == Wrap64(CountAfter(a, es) + 1)
    ensures Delay(Increment(CountIn(RecordedAll(a, es)))) ==
            if n <= 1 then 30 * SECOND
            else if n == 2 then 60 * SECOND
            else if n == 3 then 120 * SECOND
            else if n == 4 then 240 * SECOND
            else 300 * SECOND
  {
    FailuresCounted(a, es);
    WrapIncrement(CountAfter(a, es));
    DelayIs(n);
  }
}
