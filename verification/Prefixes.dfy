/** Discovering S3 prefixes at a given depth, by recursive listing. */
module Prefixes {
  import opened Api
  import opened Lists

  /******* Slashes *******/

  function Slashes(s: string): nat {
    if s == "" then 0 else Slashes(s[..|s| - 1]) + if s[|s| - 1] == '/' then 1 else 0
  }

  lemma {:induction false} SlashesPlus(a: string, b: string)
    ensures Slashes(a + b) == Slashes(a) + Slashes(b)
  {
    if b == "" { assert a + b == a; } else {
      SlashesPlus(a, b[..|b| - 1]);
      assert (a + b)[..|a + b| - 1] == a + b[..|b| - 1];
    }
  }

  /** Where the `n`-th slash of `s` ends. */
  lemma {:induction false} NthSlash(s: string, n: nat) returns (i: nat)
    requires 1 <= n <= Slashes(s)
    ensures 0 < i <= |s| && s[i - 1] == '/' && Slashes(s[..i]) == n
  {
    if Slashes(s) == n && s[|s| - 1] == '/' {
      i := |s|;
      assert s[..i] == s;
    } else {
      i := NthSlash(s[..|s| - 1], n);
      assert s[..|s| - 1][..i] == s[..i];
    }
  }

  /******* The specification *******/

  /** `q` extends `p` up to and including the `d`-th slash after `p`. */
  ghost predicate Cut(p: string, d: nat, q: string) {
    p <= q && |p| < |q| && q[|q| - 1] == '/' && Slashes(q[|p|..]) == d
  }

  /** The prefixes of keys that end at the `d`-th slash after `p`. */
  ghost function AtDepth(keys: set<string>, p: string, d: nat): set<string> {
    set k, j | k in keys && 0 <= j <= |k| && Cut(p, d, k[..j]) :: k[..j]
  }

  lemma AtDepthIs(keys: set<string>, p: string, d: nat, q: string)
    ensures q in AtDepth(keys, p, d) <==> Cut(p, d, q) && exists k :: k in keys && q <= k
  {
    if Cut(p, d, q) && exists k :: k in keys && q <= k {
      var k :| k in keys && q <= k;
      assert k[..|q|] == q;
    }
    if q in AtDepth(keys, p, d) {
      var k, j :| k in keys && 0 <= j <= |k| && Cut(p, d, k[..j]) && q == k[..j];
      assert q <= k;
    }
  }

  /** Two cuts compose. */
  lemma CutCompose(p: string, a: nat, q: string, b: nat, x: string)
    requires Cut(p, a, q) && Cut(q, b, x)
    ensures Cut(p, a + b, x)
  {
    SlashesPlus(q[|p|..], x[|q|..]);
    assert x[|p|..] == q[|p|..] + x[|q|..];
  }

  /** A deep cut can be split at any depth in between. */
  lemma CutSplit(p: string, a: nat, b: nat, x: string) returns (q: string)
    requires a >= 1 && b >= 1 && Cut(p, a + b, x)
    ensures Cut(p, a, q) && Cut(q, b, x)
  {
    var rest := x[|p|..];
    var i := NthSlash(rest, a);
    q := x[..|p| + i];
    assert q[|p|..] == rest[..i];
    assert rest == rest[..i] + rest[i..];
    SlashesPlus(rest[..i], rest[i..]);
    assert x[|q|..] == rest[i..];
    assert rest[i..] != "";
  }

  /** The cut is unique: a string has one `d`-th slash after `p`. */
  lemma CutUnique(p: string, d: nat, q: string, r: string, x: string)
    requires Cut(p, d, q) && Cut(p, d, r) && q <= x && r <= x
    ensures q == r
  {
    if |q| < |r| { CutLonger(p, d, q, r); }
    if |r| < |q| { CutLonger(p, d, r, q); }
  }

  lemma CutLonger(p: string, d: nat, q: string, r: string)
    requires Cut(p, d, q) && p <= r && q <= r && |q| < |r| && r[|r| - 1] == '/'
    ensures Slashes(r[|p|..]) > d
  {
    var tail := r[|q|..];
    SlashesPlus(q[|p|..], tail);
    assert r[|p|..] == q[|p|..] + tail;
    assert tail[|tail| - 1] == '/';
  }

  /** Depth composes: listing `a` levels and then `b` more is listing `a + b` levels. */
  lemma DepthComposes(keys: set<string>, p: string, a: nat, b: nat, x: string)
    requires a >= 1 && b >= 1
    ensures x in AtDepth(keys, p, a + b) <==> exists q :: q in AtDepth(keys, p, a) && x in AtDepth(keys, q, b)
  {
    AtDepthIs(keys, p, a + b, x);
    if x in AtDepth(keys, p, a + b) {
      var q := CutSplit(p, a, b, x);
      var k :| k in keys && x <= k;
      assert q <= k;
      AtDepthIs(keys, p, a, q);
      AtDepthIs(keys, q, b, x);
    }
    if q :| q in AtDepth(keys, p, a) && x in AtDepth(keys, q, b) {
      AtDepthIs(keys, p, a, q);
      AtDepthIs(keys, q, b, x);
      CutCompose(p, a, q, b, x);
    }
  }

  /******* Listing one level *******/

  function FirstSlash(s: string): nat {
    if s == "" || s[0] == '/' then 0 else 1 + FirstSlash(s[1..])
  }

  /** What S3 calls the common prefixes of the keys that start with `p`, for the delimiter "/": each such key
      up to and including the first delimiter after `p`. */
  ghost function CommonPrefixes(keys: set<string>, p: string): set<string> {
    set k | k in keys && p <= k && FirstSlash(k[|p|..]) < |k| - |p| :: k[..|p| + FirstSlash(k[|p|..]) + 1]
  }

  lemma {:induction false} FirstSlashIs(s: string)
    ensures FirstSlash(s) <= |s| && Slashes(s[..FirstSlash(s)]) == 0
    ensures FirstSlash(s) < |s| ==> s[FirstSlash(s)] == '/'
  {
    if s != "" && s[0] != '/' {
      FirstSlashIs(s[1..]);
      var i := FirstSlash(s[1..]);
      assert s[..i + 1] == [s[0]] + s[1..][..i];
      SlashesPlus([s[0]], s[1..][..i]);
    }
  }

  lemma CommonIsDepthOne(keys: set<string>, p: string)
    ensures CommonPrefixes(keys, p) == AtDepth(keys, p, 1)
  {
    forall q ensures q in CommonPrefixes(keys, p) <==> q in AtDepth(keys, p, 1) {
      AtDepthIs(keys, p, 1, q);
      if q in CommonPrefixes(keys, p) {
        var k :| k in keys && p <= k && FirstSlash(k[|p|..]) < |k| - |p| && q == k[..|p| + FirstSlash(k[|p|..]) + 1];
        FirstCut(p, k);
      }
      if q in AtDepth(keys, p, 1) {
        var k :| k in keys && q <= k;
        FirstCutExists(p, q, k);
        FirstCut(p, k);
        CutUnique(p, 1, q, k[..|p| + FirstSlash(k[|p|..]) + 1], k);
      }
    }
  }

  lemma FirstCut(p: string, k: string)
    requires p <= k && FirstSlash(k[|p|..]) < |k| - |p|
    ensures Cut(p, 1, k[..|p| + FirstSlash(k[|p|..]) + 1])
  {
    var rest := k[|p|..];
    var i := FirstSlash(rest);
    FirstSlashIs(rest);
    var q := k[..|p| + i + 1];
    assert q[|p|..] == rest[..i] + ['/'];
    assert (rest[..i] + ['/'])[..i] == rest[..i];
  }

  lemma FirstCutExists(p: string, q: string, k: string)
    requires Cut(p, 1, q) && q <= k
    ensures FirstSlash(k[|p|..]) < |k| - |p|
  {
    var rest := k[|p|..];
    FirstSlashIs(rest);
    if FirstSlash(rest) == |rest| {
      assert rest[..|rest|] == rest;
      assert rest == q[|p|..] + k[|q|..];
      SlashesPlus(q[|p|..], k[|q|..]);
    }
  }

  /******* The code *******/

  /** One call to the client: the common prefixes in some order, or an error. */
  method ListPrefixes(keys: set<string>, p: string, reliable: bool) returns (r: Option<seq<string>>)
    ensures reliable ==> r.Some?
    ensures r.Some? ==> NoRepeats(r.value) && forall q :: q in r.value <==> q in CommonPrefixes(keys, p)
  {
    var fails: bool := *;
    if fails && !reliable { return None; }
    var result: seq<string> := [];
    var todo := set k | k in keys && p <= k && FirstSlash(k[|p|..]) < |k| - |p| :: k[..|p| + FirstSlash(k[|p|..]) + 1];
    ghost var all := todo;
    while todo != {}
      invariant NoRepeats(result) && forall q :: q in all <==> q in todo || q in result
      invariant forall q :: q in result ==> q !in todo
      decreases todo
    {
      var q :| q in todo;
      todo, result := todo - {q}, result + [q];
    }
    r := Some(result);
  }

  /** The recursion returns, without repetition, exactly the prefixes at the asked depth. */
  method ListAtDepth(keys: set<string>, p: string, depth: int, reliable: bool) returns (r: Option<seq<string>>)
    ensures reliable ==> r.Some?
    ensures r.Some? ==> NoRepeats(r.value)
    ensures r.Some? ==> forall x :: x in r.value <==> x in AtDepth(keys, p, if depth <= 1 then 1 else depth)
    decreases depth
  {
    var prefixes := ListPrefixes(keys, p, reliable);
    CommonIsDepthOne(keys, p);
    if prefixes.None? { return None; }
    if depth <= 1 { return prefixes; }
    var result: seq<string> := [];
    for i := 0 to |prefixes.value|
      invariant NoRepeats(result)
      invariant forall x :: x in result <==> exists j :: 0 <= j < i && x in AtDepth(keys, prefixes.value[j], depth - 1)
    {
      var sub := ListAtDepth(keys, prefixes.value[i], depth - 1, reliable);
      if sub.None? { return None; }
      DisjointBranches(keys, p, prefixes.value, i, depth - 1, result, sub.value);
      result := result + sub.value;
    }
    forall x ensures x in result <==> x in AtDepth(keys, p, depth) { DepthComposes(keys, p, 1, depth - 1, x); }
    r := Some(result);
  }

  lemma DisjointBranches(keys: set<string>, p: string, prefixes: seq<string>, i: nat, d: nat, result: seq<string>,
                         sub: seq<string>)
    requires d >= 1 && i < |prefixes| && NoRepeats(prefixes) && NoRepeats(result) && NoRepeats(sub)
    requires forall q :: q in prefixes ==> q in AtDepth(keys, p, 1)
    requires forall x :: x in result <==> exists j :: 0 <= j < i && x in AtDepth(keys, prefixes[j], d)
    requires forall x :: x in sub <==> x in AtDepth(keys, prefixes[i], d)
    ensures NoRepeats(result + sub)
    ensures forall x :: x in result + sub <==> exists j :: 0 <= j < i + 1 && x in AtDepth(keys, prefixes[j], d)
  {
    forall x | x in result && x in sub ensures false {
      var j :| 0 <= j < i && x in AtDepth(keys, prefixes[j], d);
      assert prefixes[i] in prefixes && prefixes[j] in prefixes;
      AtDepthIs(keys, prefixes[i], d, x);
      AtDepthIs(keys, prefixes[j], d, x);
      AtDepthIs(keys, p, 1, prefixes[i]);
      AtDepthIs(keys, p, 1, prefixes[j]);
      CutUnique(p, 1, prefixes[j], prefixes[i], x);
    }
    NoRepeatsPlus(result, sub);
  }

  /******* Sources *******/

  /** The slash at the end goes, the others become hyphens. */
  function PrefixToName(p: string): string {
    var trimmed := if p != "" && p[|p| - 1] == '/' then p[..|p| - 1] else p;
    seq(|trimmed|, i requires 0 <= i < |trimmed| => if trimmed[i] == '/' then '-' else trimmed[i])
  }

  /** Prefixes at the same depth can share a name. */
  lemma NamesCollide()
    ensures PrefixToName("a/b-c/") == PrefixToName("a-b/c/") == "a-b-c"
    ensures Cut("", 2, "a/b-c/") && Cut("", 2, "a-b/c/")
  {
    assert PrefixToName("a/b-c/") == "a-b-c";
    assert PrefixToName("a-b/c/") == "a-b-c";
    assert "a/b-c/" == "a/" + "b-c/" && "a-b/c/" == "a-b/" + "c/";
    SlashesPlus("a/", "b-c/");
    SlashesPlus("a-b/", "c/");
    assert Slashes("a/") == 1 && Slashes("c/") == 1;
    assert "b-c/" == "b-" + "c/" && "a-b/" == "a-" + "b/";
    SlashesPlus("b-", "c/");
    SlashesPlus("a-", "b/");
    assert Slashes("b-") == 0 && Slashes("a-") == 0 && Slashes("b/") == 1;
    assert "a/b-c/"[0..] == "a/b-c/" && "a-b/c/"[0..] == "a-b/c/";
  }

  function HyphensToSlashes(s: string): string {
    seq(|s|, i requires 0 <= i < |s| => if s[i] == '-' then '/' else s[i])
  }

  /** A name has no slash, and a prefix without hyphens can be read back from it. */
  lemma PrefixReadsBack(p: string)
    requires p != "" && p[|p| - 1] == '/'
    ensures '/' !in PrefixToName(p) && ('-' !in p ==> HyphensToSlashes(PrefixToName(p)) + "/" == p)
  {
    var back := HyphensToSlashes(PrefixToName(p)) + "/";
    if '-' !in p {
      forall i | 0 <= i < |p| ensures back[i] == p[i] { assert p[i] in p; }
    }
  }

  predicate Confused(a: char, b: char) { a == b || (a == '/' && b == '-') || (a == '-' && b == '/') }

  /** Exactly when two prefixes share a name: when a slash in one stands where the other has a hyphen, and they are
      otherwise the same. */
  lemma SharedNameIff(p: string, q: string)
    requires p != "" && q != "" && p[|p| - 1] == '/' && q[|q| - 1] == '/'
    ensures PrefixToName(p) == PrefixToName(q) <==>
            |p| == |q| && forall i :: 0 <= i < |p| ==> Confused(p[i], q[i])
  {
    var m, n := PrefixToName(p), PrefixToName(q);
    assert |m| == |p| - 1 && |n| == |q| - 1;
    if m == n {
      forall i | 0 <= i < |p| ensures Confused(p[i], q[i]) {
        if i < |p| - 1 { assert m[i] == n[i]; }
      }
    }
  }
}
