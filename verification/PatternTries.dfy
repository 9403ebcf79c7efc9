/** The trie object of `commonspace/pubsub/trie.go` against a multiset of patterns. */
module PatternTries {
  import opened Sequences
  import opened Topics
  import opened Tries

  function CountIn(root: Level, pattern: string): nat {
    Refs(root, Split(pattern))
  }

  /** No dead branch, every terminal carries its own pattern, and size counts the live patterns. */
  ghost predicate TrieOk(root: Level, size: int) {
    && Healthy(root) && size == |Live(root)|
    && forall q | q in Live(root) :: PatternAt(root, q) == Join(q) && Split(Join(q)) == q
  }

  lemma SplitInjective(p: string, q: string)
    requires Split(p) == Split(q)
    ensures p == q
  {
    hide Split;
    JoinSplit(p);
    JoinSplit(q);
  }

  /** Add raises one multiplicity by one; size grows exactly when the pattern is new. */
  lemma AddOk(root: Level, size: int, p: string)
    requires TrieOk(root, size)
    ensures Split(p) != []
    ensures var root' := AddAt(root, Split(p), p);
            && TrieOk(root', size + if CountIn(root', p) == 1 then 1 else 0)
            && forall q :: CountIn(root', q) == CountIn(root, q) + if q == p then 1 else 0
  {
    hide Split, Live, Healthy, AddAt, Refs, PatternAt;
    JoinSplit(p);
    var segs := Split(p);
    var root' := AddAt(root, segs, p);
    AddHealthy(root, segs, p);
    forall q: Path
      ensures q in Live(root') <==> q in Live(root) || q == segs
      ensures q in Live(root') ==> PatternAt(root', q) == Join(q) && Split(Join(q)) == q
    {
      AddRefs(root, segs, p, q);
      LiveIff(root, q);
      LiveIff(root', q);
    }
    assert Live(root') == Live(root) + {segs};
    LiveIff(root, segs);
    AddRefs(root, segs, p, segs);
    forall q: string
      ensures CountIn(root', q) == CountIn(root, q) + if q == p then 1 else 0
    {
      AddRefs(root, segs, p, Split(q));
      if Split(q) == segs {
        SplitInjective(p, q);
      }
    }
  }

  /** Remove lowers one multiplicity by one, if it was positive; size falls exactly with the last one. */
  lemma RemoveOk(root: Level, size: int, p: string)
    requires TrieOk(root, size)
    ensures var (root', last) := RemoveAt(root, Split(p));
            && TrieOk(root', size - if last then 1 else 0)
            && (last <==> CountIn(root, p) == 1)
            && forall q :: CountIn(root', q) == CountIn(root, q) - if q == p && CountIn(root, p) > 0 then 1 else 0
  {
    hide Split, Live, Healthy, RemoveAt, Refs, PatternAt;
    var segs := Split(p);
    var (root', last) := RemoveAt(root, segs);
    RemoveHealthy(root, segs);
    forall q: Path
      ensures q in Live(root') <==> q in Live(root) && (q == segs ==> Refs(root, segs) > 1)
      ensures q in Live(root') ==> PatternAt(root', q) == Join(q) && Split(Join(q)) == q
    {
      RemoveRefs(root, segs, q);
      LiveIff(root, q);
      LiveIff(root', q);
    }
    RemoveRefs(root, segs, segs);
    LiveIff(root, segs);
    if last {
      assert Live(root') == Live(root) - {segs};
    } else {
      assert Live(root') == Live(root);
    }
    forall q: string
      ensures CountIn(root', q) == CountIn(root, q) - if q == p && CountIn(root, p) > 0 then 1 else 0
    {
      RemoveRefs(root, segs, Split(q));
      if Split(q) == segs {
        SplitInjective(p, q);
      }
    }
  }

  /** The paths Match collects are live paths that cover the topic, each with its own pattern. */
  lemma FoundPaths(root: Level, size: int, segs: Path, q: Path)
    requires TrieOk(root, size) && segs != []
    ensures q in Found(root, segs) <==> Refs(root, q) > 0 && Matches(q, segs)
    ensures q in Found(root, segs) ==> PatternAt(root, q) == Join(q) && Split(Join(q)) == q
  {
    hide Split, Live, Healthy, Refs, PatternAt, Found, Matches, Join;
    FoundExact(root, segs, q);
    LiveIff(root, q);
  }

  lemma MatchMember(root: Level, size: int, segs: Path, p: string)
    requires TrieOk(root, size) && segs != []
    ensures p in PatternsOf(root, Found(root, segs)) <==> CountIn(root, p) > 0 && Matches(Split(p), segs)
  {
    hide Split, TrieOk, Refs, PatternAt, Found, Matches, Join;
    var paths := Found(root, segs);
    var found := PatternsOf(root, paths);
    if p in found {
      var i :| 0 <= i < |found| && found[i] == p;
      assert paths[i] in paths;
      FoundPaths(root, size, segs, paths[i]);
    }
    FoundPaths(root, size, segs, Split(p));
    if Split(p) in paths {
      var i :| 0 <= i < |paths| && paths[i] == Split(p);
      JoinSplit(p);
      assert found[i] == p;
    }
  }

  lemma MatchOnce(root: Level, size: int, segs: Path)
    requires TrieOk(root, size) && segs != []
    ensures Distinct(PatternsOf(root, Found(root, segs)))
  {
    hide Split, Refs, PatternAt, Found, Matches, Join;
    var paths := Found(root, segs);
    FoundOnce(root, segs);
    forall i, j | 0 <= i < j < |paths|
      ensures PatternAt(root, paths[i]) != PatternAt(root, paths[j])
    {
      assert paths[i] in paths && paths[j] in paths;
      FoundPaths(root, size, segs, paths[i]);
      FoundPaths(root, size, segs, paths[j]);
    }
  }

  /** Match lists each live pattern that covers the topic once, and nothing else. */
  lemma MatchOk(root: Level, size: int, topic: string)
    requires TrieOk(root, size)
    ensures var found := MatchLevel(root, Split(topic), []);
            && Distinct(found)
            && forall p :: p in found <==> CountIn(root, p) > 0 && Matches(Split(p), Split(topic))
  {
    hide Split, CountIn, Found, Matches, MatchLevel, Distinct, PatternsOf;
    var segs := Split(topic);
    JoinSplit(topic);
    MatchIsFound(root, segs, []);
    MatchOnce(root, size, segs);
    assert MatchLevel(root, segs, []) == PatternsOf(root, Found(root, segs));
    forall p: string
      ensures p in MatchLevel(root, segs, []) <==> CountIn(root, p) > 0 && Matches(Split(p), segs)
    {
      MatchMember(root, size, segs, p);
    }
  }

  lemma EmptyOk()
    ensures TrieOk(EmptyLevel, 0) && forall p :: CountIn(EmptyLevel, p) == 0
  {
    hide Split;
    assert Live(EmptyLevel) == {};
  }

  function Joined(paths: set<Path>): set<string> {
    set q | q in paths :: Join(q)
  }

  /** The patterns that are live. */
  ghost function LivePatterns(root: Level): set<string> {
    Joined(Live(root))
  }

  lemma {:induction false} JoinedSize(paths: set<Path>)
    requires forall q | q in paths :: Split(Join(q)) == q
    ensures |Joined(paths)| == |paths|
  {
    hide Split, Join;
    if paths == {} {
      assert Joined(paths) == {};
    } else {
      var q :| q in paths;
      var rest := paths - {q};
      JoinedSize(rest);
      assert Joined(paths) == Joined(rest) + {Join(q)};
      assert Join(q) !in Joined(rest);
    }
  }

  /** Size is the number of different patterns with a positive count. */
  lemma SizeCounts(root: Level, size: int)
    requires TrieOk(root, size)
    ensures size == |LivePatterns(root)| && forall p :: p in LivePatterns(root) <==> CountIn(root, p) > 0
  {
    hide Split, Live, Healthy, Refs, PatternAt, Join;
    JoinedSize(Live(root));
    forall p: string
      ensures p in LivePatterns(root) <==> CountIn(root, p) > 0
    {
      JoinSplit(p);
      LiveIff(root, Split(p));
      if p in LivePatterns(root) {
        var q :| q in Live(root) && Join(q) == p;
        assert Split(p) == q;
      }
    }
  }

  class PatternTrie {
    var root: Level
    var size: int

    ghost predicate Valid()
      reads this
    {
      TrieOk(root, size)
    }

    /** The multiplicity of a pattern. */
    ghost function Count(p: string): nat
      reads this
    {
      CountIn(root, p)
    }

    constructor ()
      ensures Valid() && forall p :: Count(p) == 0
    {
      root := EmptyLevel;
      size := 0;
      new;
      EmptyOk();
    }

    ghost function Patterns(): (ps: set<string>)
      requires Valid()
      reads this
      ensures forall p :: p in ps <==> Count(p) > 0
    {
      SizeCounts(root, size);
      LivePatterns(root)
    }

    method Len() returns (n: int)
      requires Valid()
      ensures n == |Patterns()|
    {
      hide Split, TrieOk, LivePatterns;
      SizeCounts(root, size);
      n := size;
    }

    method Add(pattern: string) returns (isNew: bool)
      requires Valid()
      modifies this
      ensures Valid()
      ensures forall q :: Count(q) == old(Count(q)) + if q == pattern then 1 else 0
      ensures isNew <==> old(Count(pattern)) == 0
      ensures size == old(size) + if isNew then 1 else 0
    {
      hide Split, AddAt, Refs, TrieOk;
      AddOk(root, size, pattern);
      var segs := SplitTopic(pattern);
      root := AddAt(root, segs, pattern);
      if Refs(root, segs) == 1 {
        size := size + 1;
        return true;
      }
      return false;
    }

    method Remove(pattern: string) returns (removed: bool)
      requires Valid()
      modifies this
      ensures Valid()
      ensures forall q :: Count(q) == old(Count(q)) - if q == pattern && old(Count(q)) > 0 then 1 else 0
      ensures removed <==> old(Count(pattern)) == 1
      ensures size == old(size) - if removed then 1 else 0
    {
      hide Split, RemoveAt, Refs, TrieOk;
      RemoveOk(root, size, pattern);
      var segs := SplitTopic(pattern);
      var (below, last) := RemoveAt(root, segs);
      root := below;
      removed := last;
      if removed {
        size := size - 1;
      }
    }

    method Match(topic: string) returns (patterns: seq<string>)
      requires Valid()
      ensures Distinct(patterns)
      ensures forall p :: p in patterns <==> Count(p) > 0 && Matches(Split(p), Split(topic))
    {
      hide Split, MatchLevel, Matches, Distinct, TrieOk;
      MatchOk(root, size, topic);
      var segs := SplitTopic(topic);
      patterns := MatchLevel(root, segs, []);
    }
  }
}
