/** `commonspace/pubsub/topic.go`: topics and subscription patterns. */
module Topics {

  const MaxTopicLen := 256
  const MaxSegments := 16

  /** strings.IndexByte: the first position of c, or -1. */
  function IndexByte(s: string, c: char): (r: int)
    ensures -1 <= r < |s|
    ensures r < 0 ==> c !in s
    ensures r >= 0 ==> s[r] == c && c !in s[..r]
  {
    if s == "" then -1
    else if s[0] == c then 0
    else
      var r := IndexByte(s[1..], c);
      assert s == [s[0]] + s[1..];
      if r < 0 then -1
      else
        assert s[..r + 1] == [s[0]] + s[1..][..r];
        r + 1
  }

  /** The segments of rest when n more fit: separators beyond the n-th stay in the last segment. */
  function SplitFrom(rest: string, n: nat): seq<string>
    decreases n
  {
    var idx := IndexByte(rest, '/');
    if n == 0 || idx < 0 then [rest] else [rest[..idx]] + SplitFrom(rest[idx + 1..], n - 1)
  }

  /** One round of the splitting loop. */
  lemma SplitStep(rest: string, n: nat)
    ensures n == 0 || '/' !in rest ==> SplitFrom(rest, n) == [rest]
    ensures n > 0 && '/' in rest ==>
              var idx := IndexByte(rest, '/');
              idx >= 0 && SplitFrom(rest, n) == [rest[..idx]] + SplitFrom(rest[idx + 1..], n - 1)
  {
  }

  function Split(topic: string): seq<string> {
    SplitFrom(topic, MaxSegments)
  }

  function Join(segs: seq<string>): string {
    if segs == [] then ""
    else if |segs| == 1 then segs[0]
    else segs[0] + "/" + Join(segs[1..])
  }

  /** splitTopic. */
  method SplitTopic(topic: string) returns (segs: seq<string>)
    ensures segs == Split(topic)
  {
    hide SplitFrom;
    var tsa := new string[MaxSegments](_ => "");
    var n := 0;
    var rest := topic;
    while n < MaxSegments
      invariant 0 <= n <= MaxSegments
      invariant Split(topic) == tsa[..n] + SplitFrom(rest, MaxSegments - n)
    {
      var idx := IndexByte(rest, '/');
      SplitStep(rest, MaxSegments - n);
      if idx < 0 {
        tsa[n] := rest;
        n := n + 1;
        return tsa[..n];
      }
      ghost var before := tsa[..n];
      tsa[n] := rest[..idx];
      assert tsa[..n + 1] == before + [rest[..idx]];
      n := n + 1;
      rest := rest[idx + 1..];
    }
    SplitStep(rest, 0);
    return tsa[..n] + [rest];
  }

  // ---- splitting and joining ------------------------------------------------------------------------

  lemma {:induction false} JoinSplitFrom(rest: string, n: nat)
    ensures Join(SplitFrom(rest, n)) == rest
    ensures 1 <= |SplitFrom(rest, n)| <= n + 1
    ensures forall i | 0 <= i < |SplitFrom(rest, n)| && i < n :: '/' !in SplitFrom(rest, n)[i]
    decreases n
  {
    hide SplitFrom;
    var idx := IndexByte(rest, '/');
    SplitStep(rest, n);
    if n > 0 && idx >= 0 {
      JoinSplitFrom(rest[idx + 1..], n - 1);
      var tail := SplitFrom(rest[idx + 1..], n - 1);
      assert SplitFrom(rest, n)[1..] == tail;
      assert rest == rest[..idx] + "/" + rest[idx + 1..];
    }
  }

  /** Joining the segments restores any topic. */
  lemma JoinSplit(topic: string)
    ensures Join(Split(topic)) == topic
    ensures 1 <= |Split(topic)| <= MaxSegments + 1
    ensures forall i | 0 <= i < |Split(topic)| && i < MaxSegments :: '/' !in Split(topic)[i]
  {
    JoinSplitFrom(topic, MaxSegments);
  }

  lemma {:induction false} FirstIndex(s: string, c: char, i: nat)
    requires i < |s| && s[i] == c && c !in s[..i]
    ensures IndexByte(s, c) == i
    decreases |s|
  {
    if i > 0 {
      assert s[0] in s[..i];
      assert s[1..][..i - 1] == s[1..i];
      assert forall x | x in s[1..i] :: x in s[..i];
      FirstIndex(s[1..], c, i - 1);
    }
  }

  lemma IndexOfJoin(a: string, b: string)
    requires '/' !in a
    ensures IndexByte(a + "/" + b, '/') == |a|
    ensures (a + "/" + b)[..|a|] == a && (a + "/" + b)[|a| + 1..] == b
  {
    var s := a + "/" + b;
    assert s[|a|] == '/' && s[..|a|] == a;
    FirstIndex(s, '/', |a|);
  }

  lemma {:induction false} SplitJoinFrom(segs: seq<string>, n: nat)
    requires 0 < |segs| <= n && forall s | s in segs :: '/' !in s
    ensures SplitFrom(Join(segs), n) == segs
    decreases |segs|
  {
    hide SplitFrom, IndexByte;
    SplitStep(Join(segs), n);
    assert segs[0] in segs && segs == [segs[0]] + segs[1..];
    if |segs| > 1 {
      var tail := segs[1..];
      IndexOfJoin(segs[0], Join(tail));
      SplitJoinFrom(tail, n - 1);
    }
  }

  /** Splitting a joined list of at most sixteen separator-free segments restores the list. */
  lemma SplitJoin(segs: seq<string>)
    requires 0 < |segs| <= MaxSegments && forall s | s in segs :: '/' !in s
    ensures Split(Join(segs)) == segs
  {
    SplitJoinFrom(segs, MaxSegments);
  }

  // ---- validation -------------------------------------------------------------------------------------

  predicate Bare(s: string) {
    '*' !in s && '>' !in s
  }

  function Separators(t: string): nat {
    if t == "" then 0 else (if t[0] == '/' then 1 else 0) + Separators(t[1..])
  }

  /** No leading, trailing or doubled separator. */
  predicate Canonical(t: string) {
    t != "" && t[0] != '/' && t[|t| - 1] != '/' && forall i | 0 <= i < |t| - 1 :: !(t[i] == '/' && t[i + 1] == '/')
  }

  /** A wildcard at position i is a whole segment, and '>' ends the pattern. */
  predicate PlacedAt(t: string, i: nat)
    requires i < |t|
  {
    t[i] == '*' || t[i] == '>' ==>
      && (i > 0 ==> t[i - 1] == '/')
      && (i < |t| - 1 ==> t[i] == '*' && t[i + 1] == '/')
  }

  predicate WildcardsPlaced(t: string) {
    forall i: nat | i < |t| :: PlacedAt(t, i)
  }

  predicate WellFormed(t: string) {
    |t| <= MaxTopicLen && Separators(t) < MaxSegments && Canonical(t)
  }

  lemma {:induction false} SeparatorsSplit(a: string, b: string)
    requires '/' !in a
    ensures Separators(a + "/" + b) == 1 + Separators(b)
    decreases |a|
  {
    var s := a + "/" + b;
    if a == "" {
      assert s[1..] == b;
    } else {
      assert s[1..] == a[1..] + "/" + b;
      SeparatorsSplit(a[1..], b);
    }
  }

  lemma {:induction false} NoSeparators(a: string)
    requires '/' !in a
    ensures Separators(a) == 0
    decreases |a|
  {
    if a != "" {
      NoSeparators(a[1..]);
    }
  }

  lemma CanonicalSplit(a: string, b: string)
    requires '/' !in a
    ensures Canonical(a + "/" + b) <==> a != "" && Canonical(b)
  {
    var s := a + "/" + b;
    assert s[|a|] == '/' && forall i | 0 <= i < |a| :: s[i] == a[i];
    assert forall i | 0 <= i < |b| :: s[|a| + 1 + i] == b[i];
    if a != "" && Canonical(b) {
      forall i | 0 <= i < |s| - 1
        ensures !(s[i] == '/' && s[i + 1] == '/')
      {
        if i > |a| {
          assert s[i] == b[i - |a| - 1] && s[i + 1] == b[i - |a|];
        }
      }
    }
    if Canonical(s) {
      assert |a| != |s| - 1;
      assert !(s[|a|] == '/' && s[|a| + 1] == '/');
      assert s[|s| - 1] == b[|b| - 1];
      forall i | 0 <= i < |b| - 1
        ensures !(b[i] == '/' && b[i + 1] == '/')
      {
        assert s[|a| + 1 + i] == b[i] && s[|a| + 1 + i + 1] == b[i + 1];
      }
    }
  }

  lemma CanonicalPlain(t: string)
    requires '/' !in t
    ensures Canonical(t) <==> t != ""
    ensures Separators(t) == 0
  {
    NoSeparators(t);
    assert forall i | 0 <= i < |t| :: t[i] in t;
  }

  /** The segments fit and none is empty exactly when the text is canonical with few separators. */
  lemma {:induction false} CanonicalIff(t: string, n: nat)
    ensures (|SplitFrom(t, n)| <= n && "" !in SplitFrom(t, n)) <==> Canonical(t) && Separators(t) < n
    decreases n
  {
    hide SplitFrom, Canonical, Separators;
    var idx := IndexByte(t, '/');
    SplitStep(t, n);
    if n > 0 {
      if idx < 0 {
        CanonicalPlain(t);
      } else {
        var a, b := t[..idx], t[idx + 1..];
        assert t == a + "/" + b;
        CanonicalIff(b, n - 1);
        SeparatorsSplit(a, b);
        CanonicalSplit(a, b);
        var tail := SplitFrom(b, n - 1);
        assert SplitFrom(t, n) == [a] + tail;
        assert "" in [a] + tail <==> a == "" || "" in tail;
      }
    }
  }

  /** What ValidatePattern asks of each segment. */
  predicate PatternSegments(segs: seq<string>) {
    forall i | 0 <= i < |segs| :: segs[i] == "*" || (segs[i] == ">" && i == |segs| - 1) || Bare(segs[i])
  }

  lemma OneSegment(a: string)
    requires '/' !in a
    ensures WildcardsPlaced(a) <==> a == "*" || a == ">" || Bare(a)
  {
    forall k | 0 <= k < |a|
      ensures a[k] != '/'
    {
      assert a[k] in a;
    }
    if WildcardsPlaced(a) && !Bare(a) {
      var i :| 0 <= i < |a| && (a[i] == '*' || a[i] == '>');
      assert PlacedAt(a, i);
      assert i == 0 && |a| == 1;
      assert a == [a[0]];
    }
  }

  lemma WildcardsSplit(a: string, b: string)
    requires '/' !in a && b != ""
    ensures WildcardsPlaced(a + "/" + b) <==> (a == "*" || Bare(a)) && WildcardsPlaced(b)
  {
    if (a == "*" || Bare(a)) && WildcardsPlaced(b) {
      WildcardsJoin(a, b);
    }
    if WildcardsPlaced(a + "/" + b) {
      WildcardsTail(a, b);
      WildcardsHead(a, b);
    }
  }

  lemma WildcardsJoin(a: string, b: string)
    requires '/' !in a && b != "" && (a == "*" || Bare(a)) && WildcardsPlaced(b)
    ensures WildcardsPlaced(a + "/" + b)
  {
    var s := a + "/" + b;
    forall i: nat | i < |s|
      ensures PlacedAt(s, i)
    {
      if i > |a| {
        var j := i - |a| - 1;
        assert PlacedAt(b, j);
        assert b[j] == s[i];
        assert j > 0 ==> s[i - 1] == b[j - 1];
        assert j < |b| - 1 ==> s[i + 1] == b[j + 1];
      } else if i < |a| {
        assert s[i] == a[i] && a[i] in a;
      }
    }
  }

  lemma WildcardsTail(a: string, b: string)
    requires WildcardsPlaced(a + "/" + b)
    ensures WildcardsPlaced(b)
  {
    var s := a + "/" + b;
    forall j: nat | j < |b|
      ensures PlacedAt(b, j)
    {
      var i := |a| + 1 + j;
      assert PlacedAt(s, i);
      assert s[i] == b[j];
      assert j > 0 ==> s[i - 1] == b[j - 1];
      assert j < |b| - 1 ==> s[i + 1] == b[j + 1];
    }
  }

  lemma WildcardsHead(a: string, b: string)
    requires '/' !in a && b != "" && WildcardsPlaced(a + "/" + b)
    ensures a == "*" || Bare(a)
  {
    var s := a + "/" + b;
    forall k | 0 <= k < |a|
      ensures a[k] != '/' && s[k] == a[k]
    {
      assert a[k] in a;
    }
    if !Bare(a) {
      var i :| 0 <= i < |a| && (a[i] == '*' || a[i] == '>');
      assert s[i] == a[i];
      assert PlacedAt(s, i);
      assert i == 0 && s[0] == '*' && s[1] == '/';
      assert |a| == 1 && a == [a[0]];
    }
  }

  lemma PatternCons(a: string, tail: seq<string>)
    requires |tail| >= 1
    ensures PatternSegments([a] + tail) <==> (a == "*" || Bare(a)) && PatternSegments(tail)
  {
    var segs := [a] + tail;
    if PatternSegments(segs) {
      assert segs[0] == a;
      forall i | 0 <= i < |tail|
        ensures tail[i] == "*" || (tail[i] == ">" && i == |tail| - 1) || Bare(tail[i])
      {
        assert tail[i] == segs[i + 1];
      }
    }
    if (a == "*" || Bare(a)) && PatternSegments(tail) {
      forall i | 0 <= i < |segs|
        ensures segs[i] == "*" || (segs[i] == ">" && i == |segs| - 1) || Bare(segs[i])
      {
        if i > 0 {
          assert segs[i] == tail[i - 1];
        }
      }
    }
  }

  lemma {:induction false} PatternIff(t: string, n: nat)
    requires |SplitFrom(t, n)| <= n && "" !in SplitFrom(t, n)
    ensures PatternSegments(SplitFrom(t, n)) <==> WildcardsPlaced(t)
    decreases n
  {
    hide SplitFrom, WildcardsPlaced, Bare, Canonical;
    var idx := IndexByte(t, '/');
    SplitStep(t, n);
    if idx < 0 {
      OneSegment(t);
      PatternOne(t);
    } else {
      assert n > 0;
      var a, b := t[..idx], t[idx + 1..];
      assert t == a + "/" + b;
      var tail := SplitFrom(b, n - 1);
      assert forall s | s in tail :: s in [a] + tail;
      JoinSplitFrom(b, n - 1);
      NotEmpty(b, n - 1);
      PatternIff(b, n - 1);
      WildcardsSplit(a, b);
      PatternCons(a, tail);
    }
  }

  lemma NotEmpty(b: string, n: nat)
    requires "" !in SplitFrom(b, n)
    ensures b != ""
  {
    SplitStep(b, n);
  }

  lemma PatternOne(t: string)
    ensures PatternSegments([t]) <==> t == "*" || t == ">" || Bare(t)
  {
    assert [t][0] == t;
  }

  lemma {:induction false} BareIff(t: string, n: nat)
    ensures (forall s | s in SplitFrom(t, n) :: Bare(s)) <==> Bare(t)
    decreases n
  {
    hide SplitFrom;
    var idx := IndexByte(t, '/');
    SplitStep(t, n);
    if n > 0 && idx >= 0 {
      var a, b := t[..idx], t[idx + 1..];
      assert t == a + "/" + b;
      var tail := SplitFrom(b, n - 1);
      assert forall s :: s in [a] + tail <==> s == a || s in tail;
      BareIff(b, n - 1);
      assert Bare(t) <==> Bare(a) && Bare(b);
    }
  }

  method ValidateSegments(topic: string, segs: seq<string>) returns (ok: bool)
    requires segs == Split(topic)
    ensures ok <==> WellFormed(topic)
  {
    hide SplitFrom, Separators;
    CanonicalIff(topic, MaxSegments);
    if |topic| == 0 || |topic| > MaxTopicLen {
      return false;
    }
    if |segs| > MaxSegments {
      return false;
    }
    for i := 0 to |segs|
      invariant "" !in segs[..i]
    {
      if segs[i] == "" {
        return false;
      }
    }
    assert segs[..|segs|] == segs;
    return true;
  }

  /** A publish topic is well formed and free of wildcards. */
  method ValidateTopic(topic: string) returns (ok: bool)
    ensures ok <==> WellFormed(topic) && Bare(topic)
  {
    hide SplitFrom, WellFormed;
    var segs := SplitTopic(topic);
    ok := ValidateSegments(topic, segs);
    BareIff(topic, MaxSegments);
    if ok {
      for i := 0 to |segs|
        invariant forall s | s in segs[..i] :: Bare(s)
      {
        if '*' in segs[i] || '>' in segs[i] {
          assert segs[i] in segs;
          return false;
        }
      }
      assert segs[..|segs|] == segs;
    }
  }

  /** A subscription pattern is well formed and has its wildcards as whole segments, '>' last. */
  method ValidatePattern(pattern: string) returns (ok: bool)
    ensures ok <==> WellFormed(pattern) && WildcardsPlaced(pattern)
  {
    hide SplitFrom, Canonical, Separators, WildcardsPlaced;
    var segs := SplitTopic(pattern);
    ok := ValidateSegments(pattern, segs);
    if ok {
      CanonicalIff(pattern, MaxSegments);
      PatternIff(pattern, MaxSegments);
      for i := 0 to |segs|
        invariant forall j | 0 <= j < i :: segs[j] == "*" || (segs[j] == ">" && j == |segs| - 1) || Bare(segs[j])
      {
        if segs[i] == "*" {
          continue;
        } else if segs[i] == ">" {
          if i != |segs| - 1 {
            return false;
          }
        } else if '*' in segs[i] || '>' in segs[i] {
          return false;
        }
      }
    }
  }

  // ---- tags ---------------------------------------------------------------------------------------------

  function InterestTag(space: string, pattern: string): string {
    space + "/" + pattern
  }

  /** validateSpaceId. */
  predicate ValidSpace(space: string) {
    space != "" && '/' !in space
  }

  /** The validated spaces are the non-empty ones that every tag of theirs shows ahead of its first separator. */
  lemma ValidSpaceIff(space: string, pattern: string)
    ensures ValidSpace(space) <==> space != "" && IndexByte(InterestTag(space, pattern), '/') == |space|
  {
    var tag := InterestTag(space, pattern);
    assert tag[|space|] == '/';
    if '/' in space {
      var i :| 0 <= i < |space| && space[i] == '/';
      assert tag[i] == '/';
    } else {
      IndexOfJoin(space, pattern);
    }
  }

  /** A tag names one space and one pattern, once space ids are validated. */
  lemma TagInjective(s1: string, p1: string, s2: string, p2: string)
    requires ValidSpace(s1) && ValidSpace(s2) && InterestTag(s1, p1) == InterestTag(s2, p2)
    ensures s1 == s2 && p1 == p2
  {
    IndexOfJoin(s1, p1);
    IndexOfJoin(s2, p2);
  }

  /** Without that validation two interests can share a tag. */
  lemma TagAmbiguous()
    ensures InterestTag("s", "a/b") == InterestTag("s/a", "b")
  {
    assert "s" + "/" + "a/b" == "s/a" + "/" + "b";
  }
}
