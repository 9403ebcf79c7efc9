/** `commonspace/pubsub/trie.go`: the refcounted wildcard trie. */
module Tries {
  import opened Options
  import opened Sequences

  type Path = seq<string>

  datatype Level = Level(nodes: map<string, Node>, pwc: Option<Node>, fwc: Option<Node>)

  datatype Node = Node(next: Option<Level>, pattern: string, refs: nat)

  const EmptyLevel := Level(map[], None, None)

  function Child(l: Level, seg: string): Option<Node> {
    if seg == "*" then l.pwc
    else if seg == ">" then l.fwc
    else if seg in l.nodes then Some(l.nodes[seg]) else None
  }

  function SetChild(l: Level, seg: string, n: Node): Level {
    if seg == "*" then l.(pwc := Some(n))
    else if seg == ">" then l.(fwc := Some(n))
    else l.(nodes := l.nodes[seg := n])
  }

  function DeleteChild(l: Level, seg: string): Level {
    if seg == "*" then l.(pwc := None)
    else if seg == ">" then l.(fwc := None)
    else l.(nodes := l.nodes - {seg})
  }

  // ---- the operations ----------------------------------------------------------------------------------

  function NextLevel(n: Node): Level {
    if n.next.Some? then n.next.value else EmptyLevel
  }

  function NodeFor(l: Level, seg: string): Node {
    if Child(l, seg).Some? then Child(l, seg).value else Node(None, "", 0)
  }

  function AddAt(l: Level, segs: Path, pattern: string): Level
    requires segs != []
    decreases |segs|
  {
    var node := NodeFor(l, segs[0]);
    if |segs| == 1
    then SetChild(l, segs[0], Node(Some(NextLevel(node)), pattern, node.refs + 1))
    else SetChild(l, segs[0], node.(next := Some(AddAt(NextLevel(node), segs[1..], pattern))))
  }

  /** Put a node back, or drop it when it neither ends a pattern nor leads to one. */
  function Prune(l: Level, seg: string, n: Node): Level {
    if n.refs == 0 && (n.next == None || n.next.value == EmptyLevel) then DeleteChild(l, seg) else SetChild(l, seg, n)
  }

  /** The level without one reference of the pattern, and whether that was the last one. */
  function RemoveAt(l: Level, segs: Path): (Level, bool)
    decreases |segs|
  {
    if segs == [] || Child(l, segs[0]) == None then (l, false)
    else
      var node := Child(l, segs[0]).value;
      if |segs| == 1 then
        if node.refs == 0 then (l, false)
        else if node.refs > 1 then (SetChild(l, segs[0], node.(refs := node.refs - 1)), false)
        else (Prune(l, segs[0], node.(refs := 0, pattern := "")), true)
      else if node.next == None then (l, false)
      else
        var (below, removed) := RemoveAt(node.next.value, segs[1..]);
        (Prune(l, segs[0], node.(next := Some(below))), removed)
  }

  function MatchLevel(l: Level, segs: Path, dst: seq<string>): seq<string>
    decreases |segs|, 1
  {
    if segs == [] then dst
    else
      var dst := if l.fwc.Some? && l.fwc.value.refs > 0 then dst + [l.fwc.value.pattern] else dst;
      var dst := if l.pwc.Some? then MatchNode(l.pwc.value, segs[1..], dst) else dst;
      if segs[0] in l.nodes then MatchNode(l.nodes[segs[0]], segs[1..], dst) else dst
  }

  function MatchNode(n: Node, rest: Path, dst: seq<string>): seq<string>
    decreases |rest|, 2
  {
    if rest == [] then if n.refs > 0 then dst + [n.pattern] else dst
    else if n.next.Some? then MatchLevel(n.next.value, rest, dst) else dst
  }

  // ---- what a level holds ---------------------------------------------------------------------------------

  /** How many references end at the path. */
  function Refs(l: Level, q: Path): nat
    decreases |q|, 0
  {
    if q == [] || Child(l, q[0]) == None then 0
    else NodeRefs(Child(l, q[0]).value, q[1..])
  }

  function NodeRefs(n: Node, q: Path): nat
    decreases |q|, 1
  {
    if q == [] then n.refs else if n.next == None then 0 else Refs(n.next.value, q)
  }

  function PatternAt(l: Level, q: Path): string
    decreases |q|, 0
  {
    if q == [] || Child(l, q[0]) == None then "" else NodePattern(Child(l, q[0]).value, q[1..])
  }

  function NodePattern(n: Node, q: Path): string
    decreases |q|, 1
  {
    if q == [] then n.pattern else if n.next == None then "" else PatternAt(n.next.value, q)
  }

  /** Wildcards sit in their own slots and no branch is dead. */
  ghost predicate Healthy(l: Level)
    decreases l
  {
    && "*" !in l.nodes && ">" !in l.nodes
    && (forall seg | seg in l.nodes :: HealthyNode(l.nodes[seg]))
    && (l.pwc.Some? ==> HealthyNode(l.pwc.value))
    && (l.fwc.Some? ==> HealthyNode(l.fwc.value))
  }

  ghost predicate HealthyNode(n: Node)
    decreases n
  {
    && (n.refs > 0 || (n.next.Some? && n.next.value != EmptyLevel))
    && (n.next.Some? ==> Healthy(n.next.value))
  }

  /** The paths of the live patterns. */
  ghost function Live(l: Level): set<Path>
    decreases l
  {
    (set seg, q | seg in l.nodes && q in LiveNode(l.nodes[seg]) :: [seg] + q)
    + (if l.pwc.Some? then set q | q in LiveNode(l.pwc.value) :: ["*"] + q else {})
    + (if l.fwc.Some? then set q | q in LiveNode(l.fwc.value) :: [">"] + q else {})
  }

  ghost function LiveNode(n: Node): set<Path>
    decreases n
  {
    (if n.refs > 0 then {[]} else {}) + (if n.next.Some? then Live(n.next.value) else {})
  }

  lemma HealthyChild(l: Level, seg: string)
    requires Healthy(l) && Child(l, seg).Some?
    ensures HealthyNode(Child(l, seg).value)
  {
  }

  lemma SetHealthy(l: Level, seg: string, n: Node)
    requires Healthy(l) && HealthyNode(n)
    ensures Healthy(SetChild(l, seg, n)) && SetChild(l, seg, n) != EmptyLevel
  {
    if seg != "*" && seg != ">" {
      assert seg in SetChild(l, seg, n).nodes;
    }
  }

  lemma DeleteHealthy(l: Level, seg: string)
    requires Healthy(l)
    ensures Healthy(DeleteChild(l, seg))
  {
  }

  lemma ChildOfSet(l: Level, seg: string, n: Node, s: string)
    ensures Child(SetChild(l, seg, n), s) == if s == seg then Some(n) else Child(l, s)
    ensures Child(DeleteChild(l, seg), s) == if s == seg then None else Child(l, s)
  {
  }

  lemma {:induction false} LiveIff(l: Level, q: Path)
    requires Healthy(l)
    ensures q in Live(l) <==> Refs(l, q) > 0
    decreases l, 1
  {
    if q != [] {
      assert q == [q[0]] + q[1..];
      if Child(l, q[0]).Some? {
        HealthyChild(l, q[0]);
        LiveNodeIff(Child(l, q[0]).value, q[1..]);
      }
      LiveByChild(l, q);
    }
  }

  lemma LiveByChild(l: Level, q: Path)
    requires Healthy(l) && q != []
    ensures q in Live(l) <==> Child(l, q[0]).Some? && q[1..] in LiveNode(Child(l, q[0]).value)
  {
    assert q == [q[0]] + q[1..];
    if q in Live(l) {
      if seg, r :| seg in l.nodes && r in LiveNode(l.nodes[seg]) && q == [seg] + r {
        assert q[0] == seg && q[1..] == r;
      } else if r :| l.pwc.Some? && r in LiveNode(l.pwc.value) && q == ["*"] + r {
        assert q[0] == "*" && q[1..] == r;
      } else {
        var r :| r in LiveNode(l.fwc.value) && q == [">"] + r;
        assert q[0] == ">" && q[1..] == r;
      }
    }
  }

  lemma {:induction false} LiveNodeIff(n: Node, q: Path)
    requires HealthyNode(n)
    ensures q in LiveNode(n) <==> NodeRefs(n, q) > 0
    decreases n, 0
  {
    if n.next.Some? {
      if q == [] {
        assert [] !in Live(n.next.value);
      } else {
        LiveIff(n.next.value, q);
      }
    }
  }

  // ---- Add and Remove -----------------------------------------------------------------------------------------

  lemma EmptyRefs(q: Path)
    ensures Refs(EmptyLevel, q) == 0 && PatternAt(EmptyLevel, q) == ""
  {
  }

  lemma SetRefs(l: Level, seg: string, n: Node, q: Path)
    ensures Refs(SetChild(l, seg, n), q) == if q != [] && q[0] == seg then NodeRefs(n, q[1..]) else Refs(l, q)
    ensures PatternAt(SetChild(l, seg, n), q) == if q != [] && q[0] == seg then NodePattern(n, q[1..]) else PatternAt(l, q)
  {
    if q != [] {
      ChildOfSet(l, seg, n, q[0]);
    }
  }

  lemma RefsBelow(l: Level, q: Path)
    requires q != []
    ensures Refs(l, q) == NodeRefs(NodeFor(l, q[0]), q[1..]) && PatternAt(l, q) == NodePattern(NodeFor(l, q[0]), q[1..])
  {
  }

  lemma NextRefs(n: Node, q: Path)
    requires q != []
    ensures NodeRefs(n, q) == Refs(NextLevel(n), q) && NodePattern(n, q) == PatternAt(NextLevel(n), q)
  {
    EmptyRefs(q);
  }

  lemma {:induction false} AddRefs(l: Level, segs: Path, pattern: string, q: Path)
    requires segs != []
    ensures Refs(AddAt(l, segs, pattern), q) == Refs(l, q) + (if q == segs then 1 else 0)
    ensures PatternAt(AddAt(l, segs, pattern), q) == if q == segs then pattern else PatternAt(l, q)
    decreases |segs|
  {
    hide SetChild, Refs, PatternAt, NodeFor;
    var node := NodeFor(l, segs[0]);
    var next := NextLevel(node);
    if q == [] {
      NothingAtRoot(l);
      NothingAtRoot(AddAt(l, segs, pattern));
    } else {
      RefsBelow(l, q);
      assert segs == [segs[0]] + segs[1..] && q == [q[0]] + q[1..];
      if |segs| == 1 {
        SetRefs(l, segs[0], Node(Some(next), pattern, node.refs + 1), q);
        if q[1..] != [] {
          NextRefs(node, q[1..]);
          NextRefs(Node(Some(next), pattern, node.refs + 1), q[1..]);
        }
      } else {
        var below := AddAt(next, segs[1..], pattern);
        SetRefs(l, segs[0], node.(next := Some(below)), q);
        if q[1..] != [] {
          NextRefs(node, q[1..]);
          NextRefs(node.(next := Some(below)), q[1..]);
          AddRefs(next, segs[1..], pattern, q[1..]);
        }
      }
    }
  }

  lemma NothingAtRoot(l: Level)
    ensures Refs(l, []) == 0 && PatternAt(l, []) == ""
  {
  }

  lemma {:induction false} AddHealthy(l: Level, segs: Path, pattern: string)
    requires segs != [] && Healthy(l)
    ensures Healthy(AddAt(l, segs, pattern)) && AddAt(l, segs, pattern) != EmptyLevel
    decreases |segs|
  {
    var node := NodeFor(l, segs[0]);
    if Child(l, segs[0]).Some? {
      HealthyChild(l, segs[0]);
    }
    if |segs| > 1 {
      AddHealthy(NextLevel(node), segs[1..], pattern);
    }
    SetHealthy(l, segs[0], NodeFor(AddAt(l, segs, pattern), segs[0]));
  }

  lemma {:induction false} RemoveRefs(l: Level, segs: Path, q: Path)
    ensures Refs(RemoveAt(l, segs).0, q) == Refs(l, q) - (if q == segs && Refs(l, q) > 0 then 1 else 0)
    ensures Refs(RemoveAt(l, segs).0, q) > 0 ==> PatternAt(RemoveAt(l, segs).0, q) == PatternAt(l, q)
    ensures RemoveAt(l, segs).1 <==> Refs(l, segs) == 1
    decreases |segs|
  {
    if segs != [] && Child(l, segs[0]).Some? {
      var node := Child(l, segs[0]).value;
      assert segs == [segs[0]] + segs[1..];
      var rest := if q != [] then q[1..] else [];
      assert q != [] ==> q == [q[0]] + rest;
      if |segs| == 1 {
        PruneRefs(l, segs[0], node.(refs := 0, pattern := ""), q);
        if node.refs > 1 {
          SetRefs(l, segs[0], node.(refs := node.refs - 1), q);
        }
      } else if node.next.Some? {
        RemoveRefs(node.next.value, segs[1..], rest);
        PruneRefs(l, segs[0], node.(next := Some(RemoveAt(node.next.value, segs[1..]).0)), q);
      }
    }
  }

  /** Pruning loses no reference. */
  lemma PruneRefs(l: Level, seg: string, n: Node, q: Path)
    requires Child(l, seg).Some?
    ensures Refs(Prune(l, seg, n), q) == if q != [] && q[0] == seg then NodeRefs(n, q[1..]) else Refs(l, q)
    ensures Refs(Prune(l, seg, n), q) > 0 ==>
              PatternAt(Prune(l, seg, n), q) == if q != [] && q[0] == seg then NodePattern(n, q[1..]) else PatternAt(l, q)
  {
    if q != [] {
      ChildOfSet(l, seg, n, q[0]);
      EmptyRefs(q[1..]);
    }
  }

  lemma {:induction false} RemoveHealthy(l: Level, segs: Path)
    requires Healthy(l)
    ensures Healthy(RemoveAt(l, segs).0)
    decreases |segs|
  {
    if segs != [] && Child(l, segs[0]).Some? {
      var node := Child(l, segs[0]).value;
      HealthyChild(l, segs[0]);
      DeleteHealthy(l, segs[0]);
      if |segs| == 1 {
        if node.refs > 1 {
          SetHealthy(l, segs[0], node.(refs := node.refs - 1));
        } else if node.refs == 1 {
          PruneHealthy(l, segs[0], node.(refs := 0, pattern := ""));
        }
      } else if node.next.Some? {
        RemoveHealthy(node.next.value, segs[1..]);
        PruneHealthy(l, segs[0], node.(next := Some(RemoveAt(node.next.value, segs[1..]).0)));
      }
    }
  }

  lemma PruneHealthy(l: Level, seg: string, n: Node)
    requires Healthy(l) && (n.next.Some? ==> Healthy(n.next.value))
    ensures Healthy(Prune(l, seg, n))
  {
    DeleteHealthy(l, seg);
    if !(n.refs == 0 && (n.next == None || n.next.value == EmptyLevel)) {
      SetHealthy(l, seg, n);
    }
  }

  /** Every branch of a healthy trie leads to a live pattern. */
  lemma {:induction false} NoDeadBranch(l: Level) returns (q: Path)
    requires Healthy(l) && l != EmptyLevel
    ensures Refs(l, q) > 0
    decreases l
  {
    var seg: string;
    if l.pwc.Some? {
      seg := "*";
    } else if l.fwc.Some? {
      seg := ">";
    } else {
      assert l.nodes != map[];
      seg :| seg in l.nodes;
    }
    HealthyChild(l, seg);
    var node := Child(l, seg).value;
    if node.refs > 0 {
      q := [seg];
    } else {
      var below := NoDeadBranch(node.next.value);
      q := [seg] + below;
      assert q[1..] == below;
      assert below != [];
    }
  }

  // ---- Match -----------------------------------------------------------------------------------------------------

  predicate Fits(p: string, s: string) {
    p == "*" || (p == s && p != ">")
  }

  /** The pattern covers the topic: segment by segment, or with a tail wildcard over one or more. */
  predicate Matches(q: Path, topic: Path) {
    || (|q| == |topic| && |q| > 0 && forall i | 0 <= i < |q| :: Fits(q[i], topic[i]))
    || (0 < |q| <= |topic| && q[|q| - 1] == ">" && forall i | 0 <= i < |q| - 1 :: Fits(q[i], topic[i]))
  }

  lemma MatchesStep(q: Path, topic: Path)
    requires q != [] && topic != []
    ensures Matches(q, topic) <==>
              || q == [">"]
              || (Fits(q[0], topic[0]) && (if |q| == 1 then |topic| == 1 else Matches(q[1..], topic[1..])))
  {
    var r, rest := q[1..], topic[1..];
    if |q| == 1 {
      assert q == [q[0]];
    } else {
      assert r[|r| - 1] == q[|q| - 1];
      if Fits(q[0], topic[0]) && Matches(r, rest) {
        forall i | 0 <= i < |q| && (i < |q| - 1 || q[i] != ">")
          ensures Fits(q[i], topic[i])
        {
          if i > 0 {
            assert Fits(r[i - 1], rest[i - 1]);
          }
        }
      }
      if Matches(q, topic) {
        forall i | 0 <= i < |r| && (i < |r| - 1 || r[i] != ">")
          ensures Fits(r[i], rest[i])
        {
          assert r[i] == q[i + 1] && rest[i] == topic[i + 1];
        }
      }
    }
  }

  function Prefixed(seg: string, qs: seq<Path>): seq<Path> {
    seq(|qs|, i requires 0 <= i < |qs| => [seg] + qs[i])
  }

  /** The paths Match collects, in its order: the tail wildcard, the '*' branch, the literal branch. */
  ghost function Found(l: Level, segs: Path): seq<Path>
    decreases |segs|, 1
  {
    if segs == [] then []
    else
      FoundTail(l) + FoundStar(l, segs[1..]) + FoundLiteral(l, segs[0], segs[1..])
  }

  ghost function FoundStar(l: Level, rest: Path): seq<Path>
    decreases |rest|, 3
  {
    if l.pwc.Some? then Prefixed("*", FoundNode(l.pwc.value, rest)) else []
  }

  ghost function FoundLiteral(l: Level, seg: string, rest: Path): seq<Path>
    decreases |rest|, 3
  {
    if seg in l.nodes then Prefixed(seg, FoundNode(l.nodes[seg], rest)) else []
  }

  ghost function FoundTail(l: Level): seq<Path> {
    if l.fwc.Some? && l.fwc.value.refs > 0 then [[">"]] else []
  }

  ghost function FoundNode(n: Node, rest: Path): seq<Path>
    decreases |rest|, 2
  {
    if rest == [] then if n.refs > 0 then [[]] else []
    else if n.next.Some? then Found(n.next.value, rest) else []
  }

  ghost function PatternsOf(l: Level, qs: seq<Path>): seq<string> {
    seq(|qs|, i requires 0 <= i < |qs| => PatternAt(l, qs[i]))
  }

  ghost function NodePatternsOf(n: Node, qs: seq<Path>): seq<string> {
    seq(|qs|, i requires 0 <= i < |qs| => NodePattern(n, qs[i]))
  }

  lemma {:induction false} MatchIsFound(l: Level, segs: Path, dst: seq<string>)
    requires Healthy(l)
    ensures MatchLevel(l, segs, dst) == dst + PatternsOf(l, Found(l, segs))
    decreases |segs|, 1
  {
    NoPatterns(l);
    if segs != [] {
      hide Healthy, MatchNode, FoundTail, FoundStar, FoundLiteral, PatternsOf;
      var seg, rest := segs[0], segs[1..];
      var da := if l.fwc.Some? && l.fwc.value.refs > 0 then dst + [l.fwc.value.pattern] else dst;
      var db := if l.pwc.Some? then MatchNode(l.pwc.value, rest, da) else da;
      TailPatterns(l, dst);
      StarPatterns(l, rest, da);
      LiteralPatterns(l, seg, rest, db);
      ThreeParts(l, dst, FoundTail(l), FoundStar(l, rest), FoundLiteral(l, seg, rest));
    }
  }

  lemma ThreeParts(l: Level, dst: seq<string>, a: seq<Path>, b: seq<Path>, c: seq<Path>)
    ensures dst + PatternsOf(l, a) + PatternsOf(l, b) + PatternsOf(l, c) == dst + PatternsOf(l, a + b + c)
  {
  }

  lemma {:induction false} StarPatterns(l: Level, rest: Path, dst: seq<string>)
    requires Healthy(l)
    ensures (if l.pwc.Some? then MatchNode(l.pwc.value, rest, dst) else dst) == dst + PatternsOf(l, FoundStar(l, rest))
    decreases |rest|, 3
  {
    NoPatterns(l);
    if l.pwc.Some? {
      hide PatternsOf, Prefixed, FoundNode, MatchNode;
      MatchNodeIsFound(l.pwc.value, rest, dst);
      PrefixedPatterns(l, "*", FoundNode(l.pwc.value, rest));
    }
  }

  lemma {:induction false} LiteralPatterns(l: Level, seg: string, rest: Path, dst: seq<string>)
    requires Healthy(l)
    ensures (if seg in l.nodes then MatchNode(l.nodes[seg], rest, dst) else dst) == dst + PatternsOf(l, FoundLiteral(l, seg, rest))
    decreases |rest|, 3
  {
    NoPatterns(l);
    if seg in l.nodes {
      hide PatternsOf, Prefixed, FoundNode, MatchNode;
      HealthySlots(l, seg);
      MatchNodeIsFound(l.nodes[seg], rest, dst);
      PrefixedPatterns(l, seg, FoundNode(l.nodes[seg], rest));
    }
  }

  lemma HealthySlots(l: Level, seg: string)
    requires Healthy(l)
    ensures l.pwc.Some? ==> Child(l, "*") == l.pwc && HealthyNode(l.pwc.value)
    ensures seg in l.nodes ==> Child(l, seg) == Some(l.nodes[seg]) && HealthyNode(l.nodes[seg])
  {
  }

  lemma TailPatterns(l: Level, dst: seq<string>)
    ensures dst + PatternsOf(l, FoundTail(l)) ==
            if l.fwc.Some? && l.fwc.value.refs > 0 then dst + [l.fwc.value.pattern] else dst
  {
    assert PatternAt(l, [">"]) == if l.fwc.Some? then l.fwc.value.pattern else "";
  }

  lemma NoPatterns(l: Level)
    ensures PatternsOf(l, []) == []
  {
  }

  lemma PrefixedPatterns(l: Level, seg: string, qs: seq<Path>)
    requires Child(l, seg).Some?
    ensures PatternsOf(l, Prefixed(seg, qs)) == NodePatternsOf(Child(l, seg).value, qs)
  {
    forall i | 0 <= i < |qs|
      ensures PatternAt(l, [seg] + qs[i]) == NodePattern(Child(l, seg).value, qs[i])
    {
      assert ([seg] + qs[i])[1..] == qs[i];
    }
  }

  lemma {:induction false} MatchNodeIsFound(n: Node, rest: Path, dst: seq<string>)
    requires HealthyNode(n)
    ensures MatchNode(n, rest, dst) == dst + NodePatternsOf(n, FoundNode(n, rest))
    decreases |rest|, 2
  {
    if rest != [] && n.next.Some? {
      MatchIsFound(n.next.value, rest, dst);
      FoundNonEmpty(n.next.value, rest);
      assert NodePatternsOf(n, Found(n.next.value, rest)) == PatternsOf(n.next.value, Found(n.next.value, rest));
    }
  }

  lemma FoundNonEmpty(l: Level, segs: Path)
    ensures [] !in Found(l, segs)
  {
  }

  /** Match collects exactly the live paths that cover the topic. */
  lemma {:induction false} FoundExact(l: Level, segs: Path, q: Path)
    requires Healthy(l) && segs != []
    ensures q in Found(l, segs) <==> Refs(l, q) > 0 && Matches(q, segs)
    decreases |segs|, 1
  {
    FoundNonEmpty(l, segs);
    if q != [] {
      assert q == [q[0]] + q[1..];
      MatchesStep(q, segs);
      if Child(l, q[0]).Some? {
        HealthyChild(l, q[0]);
        FoundNodeExact(Child(l, q[0]).value, segs[1..], q[1..]);
      }
      FoundByChild(l, segs, q);
    }
  }

  lemma FoundByChild(l: Level, segs: Path, q: Path)
    requires Healthy(l) && segs != [] && q != []
    ensures q in Found(l, segs) <==>
              Child(l, q[0]).Some? &&
              ((q == [">"] && l.fwc.value.refs > 0) || (Fits(q[0], segs[0]) && q[1..] in FoundNode(Child(l, q[0]).value, segs[1..])))
  {
    var a := FoundTail(l);
    var b, c := FoundStar(l, segs[1..]), FoundLiteral(l, segs[0], segs[1..]);
    assert q in Found(l, segs) <==> q in a || q in b || q in c;
    if l.pwc.Some? {
      PrefixedIn("*", FoundNode(l.pwc.value, segs[1..]), q);
    }
    if segs[0] in l.nodes {
      PrefixedIn(segs[0], FoundNode(l.nodes[segs[0]], segs[1..]), q);
    }
  }

  lemma PrefixedIn(seg: string, qs: seq<Path>, q: Path)
    requires q != []
    ensures q in Prefixed(seg, qs) <==> q[0] == seg && q[1..] in qs
  {
    assert q == [q[0]] + q[1..];
    if q in Prefixed(seg, qs) {
      var i :| 0 <= i < |qs| && q == [seg] + qs[i];
      assert q[1..] == qs[i];
    }
    if q[0] == seg && q[1..] in qs {
      var i :| 0 <= i < |qs| && q[1..] == qs[i];
      assert Prefixed(seg, qs)[i] == q;
    }
  }

  lemma {:induction false} FoundNodeExact(n: Node, rest: Path, q: Path)
    requires HealthyNode(n)
    ensures q in FoundNode(n, rest) <==> NodeRefs(n, q) > 0 && (if q == [] then rest == [] else rest != [] && Matches(q, rest))
    decreases |rest|, 2
  {
    if rest != [] && n.next.Some? {
      FoundNonEmpty(n.next.value, rest);
      if q != [] {
        FoundExact(n.next.value, rest, q);
      }
    }
  }

  lemma {:induction false} FoundOnce(l: Level, segs: Path)
    requires Healthy(l)
    ensures Distinct(Found(l, segs))
    decreases |segs|, 1
  {
    if segs != [] {
      hide Prefixed, FoundNode;
      var a := FoundTail(l);
      var b, c := FoundStar(l, segs[1..]), FoundLiteral(l, segs[0], segs[1..]);
      if l.pwc.Some? {
        FoundNodeOnce(l.pwc.value, segs[1..]);
        PrefixedOnce("*", FoundNode(l.pwc.value, segs[1..]));
      }
      if segs[0] in l.nodes {
        FoundNodeOnce(l.nodes[segs[0]], segs[1..]);
        PrefixedOnce(segs[0], FoundNode(l.nodes[segs[0]], segs[1..]));
      }
      DistinctAppend(a, b);
      DistinctAppend(a + b, c);
    }
  }

  lemma PrefixedOnce(seg: string, qs: seq<Path>)
    requires Distinct(qs)
    ensures Distinct(Prefixed(seg, qs)) && forall q | q in Prefixed(seg, qs) :: q != [] && q[0] == seg
  {
    forall i, j | 0 <= i < j < |qs|
      ensures Prefixed(seg, qs)[i] != Prefixed(seg, qs)[j]
    {
      assert ([seg] + qs[i])[1..] == qs[i] && ([seg] + qs[j])[1..] == qs[j];
    }
  }

  lemma {:induction false} FoundNodeOnce(n: Node, rest: Path)
    requires HealthyNode(n)
    ensures Distinct(FoundNode(n, rest))
    decreases |rest|, 2
  {
    if rest != [] && n.next.Some? {
      FoundOnce(n.next.value, rest);
    }
  }
}
