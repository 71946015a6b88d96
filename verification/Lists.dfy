/** Lists of lists, and lists without repetitions. */
module Lists {

  function Flatten<T>(rows: seq<seq<T>>): seq<T> {
    if rows == [] then [] else Flatten(rows[..|rows| - 1]) + rows[|rows| - 1]
  }

  lemma FlattenUpTo<T>(rows: seq<seq<T>>, i: nat)
    requires i < |rows|
    ensures Flatten(rows[..i + 1]) == Flatten(rows[..i]) + rows[i]
  {
    assert rows[..i + 1][..i] == rows[..i];
  }

  lemma {:induction false} FlattenPrefix<T>(rows: seq<seq<T>>, i: nat)
    requires i <= |rows|
    ensures Flatten(rows[..i]) <= Flatten(rows)
    decreases |rows|
  {
    if i == |rows| { assert rows[..i] == rows; } else {
      FlattenPrefix(rows[..|rows| - 1], i);
      assert rows[..|rows| - 1][..i] == rows[..i];
    }
  }

  lemma {:induction false} FlattenHas<T>(rows: seq<seq<T>>, i: nat, x: T)
    requires i < |rows| && x in rows[i]
    ensures x in Flatten(rows)
    decreases |rows|
  {
    if i < |rows| - 1 { FlattenHas(rows[..|rows| - 1], i, x); }
  }

  lemma {:induction false} FlattenFrom<T>(rows: seq<seq<T>>, x: T) returns (i: nat)
    requires x in Flatten(rows)
    ensures i < |rows| && x in rows[i]
  {
    i := |rows| - 1;
    if x !in rows[i] { i := FlattenFrom(rows[..i], x); }
  }

  /** Appends the items of `s` that `known` does not list yet, each once. */
  function AppendNew<T(==)>(known: seq<T>, s: seq<T>): seq<T> {
    if s == [] then known
    else
      var before := AppendNew(known, s[..|s| - 1]);
      if s[|s| - 1] in before then before else before + [s[|s| - 1]]
  }

  lemma {:induction false} AppendNewPlus<T>(known: seq<T>, a: seq<T>, b: seq<T>)
    ensures AppendNew(known, a + b) == AppendNew(AppendNew(known, a), b)
  {
    if b == [] { assert a + b == a; } else {
      assert (a + b)[..|a + b| - 1] == a + b[..|b| - 1];
      AppendNewPlus(known, a, b[..|b| - 1]);
    }
  }

  predicate NoRepeats<T(==)>(s: seq<T>) {
    forall i, j :: 0 <= i < j < |s| ==> s[i] != s[j]
  }

  lemma NoRepeatsPlus<T>(a: seq<T>, b: seq<T>)
    requires NoRepeats(a) && NoRepeats(b) && forall x :: x in a ==> x !in b
    ensures NoRepeats(a + b)
  {
    forall i, j | 0 <= i < j < |a + b| ensures (a + b)[i] != (a + b)[j] {
      if i < |a| <= j { assert a[i] in a && b[j - |a|] in b; }
    }
  }

  lemma {:induction false} AppendNewSet<T>(known: seq<T>, s: seq<T>)
    requires NoRepeats(known)
    ensures NoRepeats(AppendNew(known, s)) && known <= AppendNew(known, s)
    ensures forall x :: x in AppendNew(known, s) <==> x in known || x in s
  {
    if s == [] {
    } else {
      AppendNewSet(known, s[..|s| - 1]);
      assert s == s[..|s| - 1] + [s[|s| - 1]];
    }
  }

  lemma SubsetSize<T>(a: set<T>, b: set<T>)
    requires a <= b
    ensures |a| <= |b| && (|a| == |b| ==> a == b)
  {
    assert b == a + (b - a);
  }
}
