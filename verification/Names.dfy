/** Turning the name of a discovered source into the name of its pipeline. */
module Names {

  const MAX_LENGTH := 253

  predicate IsAlnum(c: char) { 'a' <= c <= 'z' || '0' <= c <= '9' }

  predicate IsNameChar(c: char) { IsAlnum(c) || c == '-' }

  /** A DNS subdomain label as in section 2.1 of RFC 1123, but up to 253 characters long. */
  predicate IsName(s: string) {
    && 0 < |s| <= MAX_LENGTH
    && (forall i :: 0 <= i < |s| ==> IsNameChar(s[i]))
    && s[0] != '-' && s[|s| - 1] != '-'
  }

  function MapChar(c: char): char {
    if IsNameChar(c) then c
    else if 'A' <= c <= 'Z' then ((c as int) + 32) as char
    else '-'
  }

  function MapChars(s: string): string {
    seq(|s|, i requires 0 <= i < |s| => MapChar(s[i]))
  }

  function TrimLeft(s: string): string {
    if s != "" && s[0] == '-' then TrimLeft(s[1..]) else s
  }

  function TrimRight(s: string): string {
    if s != "" && s[|s| - 1] == '-' then TrimRight(s[..|s| - 1]) else s
  }

  function SanitizeName(name: string): string {
    var trimmed := TrimRight(TrimLeft(MapChars(name)));
    var short := if |trimmed| > MAX_LENGTH then TrimRight(trimmed[..MAX_LENGTH]) else trimmed;
    if short == "" then "unnamed" else short
  }

  ghost predicate NameChars(s: string) {
    forall i :: 0 <= i < |s| ==> IsNameChar(s[i])
  }

  lemma {:induction false} TrimLeftResult(s: string)
    requires NameChars(s)
    ensures NameChars(TrimLeft(s)) && |TrimLeft(s)| <= |s|
    ensures TrimLeft(s) != "" ==> TrimLeft(s)[0] != '-'
  {
    if s != "" && s[0] == '-' { TrimLeftResult(s[1..]); }
  }

  lemma {:induction false} TrimRightResult(s: string)
    requires NameChars(s)
    ensures TrimRight(s) <= s && NameChars(TrimRight(s))
    ensures TrimRight(s) != "" ==> TrimRight(s)[|TrimRight(s)| - 1] != '-'
  {
    if s != "" && s[|s| - 1] == '-' { TrimRightResult(s[..|s| - 1]); }
  }

  /** Whatever the source is called, its pipeline has a well-formed name. */
  lemma SanitizedIsName(name: string)
    ensures IsName(SanitizeName(name))
  {
    var mapped := MapChars(name);
    assert NameChars(mapped) by {
      forall i | 0 <= i < |mapped| ensures IsNameChar(mapped[i]) {
        if !IsNameChar(name[i]) && 'A' <= name[i] <= 'Z' { assert 'a' as int == 97 && 'z' as int == 122; }
      }
    }
    TrimLeftResult(mapped);
    var left := TrimLeft(mapped);
    TrimRightResult(left);
    var trimmed := TrimRight(left);
    if |trimmed| > MAX_LENGTH {
      TrimRightResult(trimmed[..MAX_LENGTH]);
    }
    assert IsName("unnamed");
  }

  /** Well-formed names are left alone, so sanitizing twice is sanitizing once. */
  lemma NameUnchanged(s: string)
    requires IsName(s)
    ensures SanitizeName(s) == s
  {
    assert MapChars(s) == s;
  }

  lemma SanitizeIdempotent(name: string)
    ensures SanitizeName(SanitizeName(name)) == SanitizeName(name)
  {
    SanitizedIsName(name);
    NameUnchanged(SanitizeName(name));
  }

  /** Different sources can share a pipeline. */
  lemma SanitizeCollides()
    ensures SanitizeName("d-a.b") == SanitizeName("d-a_b") && "d-a.b" != "d-a_b"
  {
    assert MapChars("d-a.b") == "d-a-b" && MapChars("d-a_b") == "d-a-b";
    NameUnchanged("d-a-b");
    assert MapChars("d-a-b") == "d-a-b";
    assert "d-a.b"[3] != "d-a_b"[3];
  }

  /******* Exactly when two names become the same *******/

  predicate LetterOrDigit(c: char) { IsAlnum(c) || 'A' <= c <= 'Z' }

  function Lower(c: char): char { if 'A' <= c <= 'Z' then ((c as int) + 32) as char else c }

  /** The same letter or digit in either case, or two characters of which neither is one. */
  predicate Alike(a: char, b: char) {
    LetterOrDigit(a) == LetterOrDigit(b) && (LetterOrDigit(a) ==> Lower(a) == Lower(b))
  }

  predicate AlikeText(a: string, b: string) {
    |a| == |b| && forall i :: 0 <= i < |a| ==> Alike(a[i], b[i])
  }

  function DropLeft(s: string): string {
    if s != "" && !LetterOrDigit(s[0]) then DropLeft(s[1..]) else s
  }

  function DropRight(s: string): string {
    if s != "" && !LetterOrDigit(s[|s| - 1]) then DropRight(s[..|s| - 1]) else s
  }

  /** The part of a source's name that counts: from its first letter or digit to its last one, or to the last one among
      253 characters. */
  function Essence(s: string): string {
    var core := DropRight(DropLeft(s));
    var short := if |core| > MAX_LENGTH then DropRight(core[..MAX_LENGTH]) else core;
    if short == "" then "unnamed" else short
  }

  lemma MapCharIs(c: char)
    ensures MapChar(c) == if LetterOrDigit(c) then Lower(c) else '-'
    ensures MapChar(c) == '-' <==> !LetterOrDigit(c)
  {
    assert 'a' as int == 97 && 'z' as int == 122 && '-' as int == 45 && '0' as int == 48;
  }

  lemma MapCharAlike(a: char, b: char)
    ensures MapChar(a) == MapChar(b) <==> Alike(a, b)
  {
    MapCharIs(a);
    MapCharIs(b);
  }

  lemma {:induction false} TrimLeftMapped(s: string)
    ensures TrimLeft(MapChars(s)) == MapChars(DropLeft(s))
  {
    if s == "" {
    } else {
      MapCharIs(s[0]);
      if !LetterOrDigit(s[0]) {
        assert MapChars(s)[1..] == MapChars(s[1..]);
        TrimLeftMapped(s[1..]);
      }
    }
  }

  lemma {:induction false} TrimRightMapped(s: string)
    ensures TrimRight(MapChars(s)) == MapChars(DropRight(s))
  {
    if s == "" {
    } else {
      MapCharIs(s[|s| - 1]);
      if !LetterOrDigit(s[|s| - 1]) {
        assert MapChars(s)[..|s| - 1] == MapChars(s[..|s| - 1]);
        TrimRightMapped(s[..|s| - 1]);
      }
    }
  }

  lemma SanitizedEssence(s: string)
    ensures SanitizeName(s) == MapChars(Essence(s))
  {
    TrimLeftMapped(s);
    TrimRightMapped(DropLeft(s));
    var core := DropRight(DropLeft(s));
    if |core| > MAX_LENGTH {
      assert MapChars(core)[..MAX_LENGTH] == MapChars(core[..MAX_LENGTH]);
      TrimRightMapped(core[..MAX_LENGTH]);
    }
    assert MapChars("unnamed") == "unnamed";
  }

  /** Two names become the same exactly when the parts of them that count differ only in case and in which separators
      they use. */
  lemma SharedNameIff(a: string, b: string)
    ensures SanitizeName(a) == SanitizeName(b) <==> AlikeText(Essence(a), Essence(b))
  {
    SanitizedEssence(a);
    SanitizedEssence(b);
    var x, y := Essence(a), Essence(b);
    if MapChars(x) == MapChars(y) {
      assert |MapChars(x)| == |x| && |MapChars(y)| == |y|;
      forall i | 0 <= i < |x| ensures Alike(x[i], y[i]) {
        assert MapChars(x)[i] == MapChars(y)[i];
        MapCharAlike(x[i], y[i]);
      }
    }
    if AlikeText(x, y) {
      forall i | 0 <= i < |x| ensures MapChars(x)[i] == MapChars(y)[i] { MapCharAlike(x[i], y[i]); }
    }
  }

  lemma {:induction false} DropRightPlus(p: string, x: string)
    ensures DropRight(p + x) == if DropRight(x) == "" then DropRight(p) else p + DropRight(x)
  {
    if x == "" {
      assert p + x == p;
    } else if !LetterOrDigit(x[|x| - 1]) {
      assert (p + x)[..|p + x| - 1] == p + x[..|x| - 1];
      DropRightPlus(p, x[..|x| - 1]);
    }
  }

  /** Behind a prefix that starts with a letter or digit, short names share a result exactly when they are alike after
      dropping the separators at their ends. */
  lemma SharedSuffixIff(p: string, x: string, y: string)
    requires p != "" && LetterOrDigit(p[0]) && |p| + |x| <= MAX_LENGTH && |p| + |y| <= MAX_LENGTH
    ensures SanitizeName(p + x) == SanitizeName(p + y) <==> AlikeText(DropRight(x), DropRight(y))
  {
    SharedNameIff(p + x, p + y);
    DropRightPlus(p, x);
    DropRightPlus(p, y);
    DropRightShrinks(p);
    DropRightShrinks(x);
    DropRightShrinks(y);
    KeepsFirst(p);
    var a, b := DropRight(x), DropRight(y);
    if a != "" && b != "" {
      if AlikeText(p + a, p + b) {
        forall i | 0 <= i < |a| ensures Alike(a[i], b[i]) {
          assert (p + a)[|p| + i] == a[i] && (p + b)[|p| + i] == b[i];
        }
      }
    }
  }

  lemma {:induction false} DropRightShrinks(s: string)
    ensures DropRight(s) <= s
  {
    if s == "" {
    } else if !LetterOrDigit(s[|s| - 1]) {
      DropRightShrinks(s[..|s| - 1]);
    }
  }

  lemma {:induction false} KeepsFirst(s: string)
    requires s != "" && LetterOrDigit(s[0])
    ensures DropRight(s) != ""
  {
    if |s| == 1 {
    } else if !LetterOrDigit(s[|s| - 1]) {
      KeepsFirst(s[..|s| - 1]);
    }
  }
}
