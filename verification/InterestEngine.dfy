/** The serving side of `commonspace/pubsub/service.go`: one trie of patterns per space whose
    refcounts count subscribing streams, the streams' own records, and the pool's routing tags.
    Each step is one hold of remoteMu or one call of the pool outside it. */
module InterestEngine {
  import opened Topics
  import opened Tries
  import opened PatternTries
  import opened Interest

  class Engine {
    const caps: Caps
    var remote: map<string, PatternTrie>
    var streams: Streams
    // the stream pool: the tags of every stream it still holds
    var pool: map<StreamId, set<string>>
    // the tags an unsubscribe has withdrawn under the lock and not yet taken from the pool
    ghost var late: map<StreamId, set<string>>

    ghost function Refcount(space: string, p: string): nat
      reads this`remote, this`streams, remote.Values
    {
      if space in remote then remote[space].Count(p) else 0
    }

    ghost predicate TriesOk()
      reads this`remote, this`streams, remote.Values
    {
      && (forall s | s in remote :: ValidSpace(s) && remote[s].Valid())
      && (forall s, u | s in remote && u in remote && s != u :: remote[s] != remote[u])
    }

    /** Each refcount is the number of streams that record the pattern. */
    ghost predicate Balanced()
      reads this`remote, this`streams, remote.Values
    {
      forall s, p :: Refcount(s, p) == |Recorders(streams, s, p)|
    }

    ghost predicate Consistent()
      reads this`remote, this`streams, remote.Values
    {
      TriesOk() && Balanced() && StreamsOk(streams, caps)
    }

    ghost function Late(sid: StreamId): set<string>
      reads this`late
    {
      LateOf(late, sid)
    }

    /** The pool's tags are exactly the recorded interest of the streams it still holds, and apart from
        it what unsubscribes have yet to take out. */
    ghost predicate Tagged()
      reads this`streams, this`pool, this`late
    {
      AllTagged(pool, streams, late)
    }

    ghost predicate Valid()
      reads this, remote.Values
    {
      Consistent() && Tagged()
    }

    constructor (caps: Caps)
      ensures Valid() && streams == map[] && pool == map[] && late == map[] && this.caps == caps
    {
      this.caps := caps;
      remote := map[];
      streams := map[];
      pool := map[];
      late := map[];
    }

    // ---- one pattern -----------------------------------------------------------------------------------

    method AddPattern(sid: StreamId, si: PatternTrie, space: string, p: string)
      requires Consistent() && sid in streams && space in remote && remote[space] == si
      requires !Subscribes(streams[sid], space, p) && !Full(streams[sid], space, caps)
      modifies this`streams, si
      ensures Consistent()
      ensures streams == old(streams)[sid := WithPattern(old(streams)[sid], space, p)]
    {
      hide Split, CountIn, TrieOk, Recorders, StreamOk, ValidSpace;
      var st := WithPattern(streams[sid], space, p);
      WithPatternOk(streams[sid], space, p, caps);
      HasWith(streams[sid], space, p);
      streams := streams[sid := st];
      var isNew := si.Add(p);
      forall s, q
        ensures Refcount(s, q) == |Recorders(streams, s, q)|
      {
        RecordersCount(old(streams), sid, st, s, q);
        assert old(Refcount(s, q)) == |Recorders(old(streams), s, q)|;
      }
    }

    /** removeStreamPattern. */
    method RemoveStreamPattern(sid: StreamId, si: PatternTrie, space: string, p: string) returns (present: bool)
      requires Consistent() && sid in streams && space in remote && remote[space] == si
      modifies this`streams, si
      ensures Consistent()
      ensures present <==> old(Subscribes(streams[sid], space, p))
      ensures streams == if present then old(streams)[sid := WithoutPattern(old(streams)[sid], space, p)] else old(streams)
    {
      hide Split, CountIn, TrieOk, StreamOk, ValidSpace;
      if !Subscribes(streams[sid], space, p) {
        return false;
      }
      var st := WithoutPattern(streams[sid], space, p);
      WithoutPatternOk(streams[sid], space, p, caps);
      assert sid in Recorders(streams, space, p);
      streams := streams[sid := st];
      var last := si.Remove(p);
      forall s, q
        ensures Refcount(s, q) == |Recorders(streams, s, q)|
      {
        RecordersCount(old(streams), sid, st, s, q);
        assert old(Refcount(s, q)) == |Recorders(old(streams), s, q)|;
      }
      return true;
    }

    /** pruneStream. */
    method PruneStream(sid: StreamId)
      requires Consistent() && sid in streams
      modifies this`streams
      ensures Consistent()
      ensures streams == if old(streams)[sid].total == 0 then old(streams) - {sid} else old(streams)
      ensures forall t, s, p :: Recorded(streams, t, s, p) <==> Recorded(old(streams), t, s, p)
    {
      hide Split, CountIn, TrieOk, StreamOk, ValidSpace;
      if streams[sid].total == 0 {
        ZeroTotal(streams[sid], caps);
        streams := streams - {sid};
        forall s, q
          ensures Refcount(s, q) == |Recorders(streams, s, q)|
        {
          RecordersCount(old(streams), sid, old(streams)[sid], s, q);
          assert old(Refcount(s, q)) == |Recorders(old(streams), s, q)|;
        }
      }
    }

    /** pruneSpace. */
    method PruneSpace(space: string)
      requires Consistent() && space in remote
      modifies this`remote
      ensures Consistent() && remote.Values <= old(remote.Values)
      ensures remote == old(remote) || remote == old(remote) - {space}
    {
      hide Split, CountIn, TrieOk, StreamOk, ValidSpace;
      var n := remote[space].Len();
      if n == 0 {
        assert forall q :: Refcount(space, q) == 0 && Refcount(space, q) == |Recorders(streams, space, q)|;
        remote := remote - {space};
        forall s, q
          ensures Refcount(s, q) == |Recorders(streams, s, q)|
        {
          assert old(Refcount(s, q)) == |Recorders(streams, s, q)|;
        }
      }
    }

    /** The trie of a space, made when it is missing. */
    method TrieOf(space: string) returns (si: PatternTrie)
      requires Consistent() && ValidSpace(space)
      modifies this`remote
      ensures Consistent() && space in remote && remote[space] == si
      ensures space in old(remote) ==> remote == old(remote)
      ensures space !in old(remote) ==> fresh(si) && remote == old(remote)[space := si]
    {
      hide Split, CountIn, TrieOk, StreamOk, ValidSpace;
      if space in remote {
        return remote[space];
      }
      si := new PatternTrie();
      remote := remote[space := si];
      forall s, q
        ensures Refcount(s, q) == |Recorders(streams, s, q)|
      {
        assert old(Refcount(s, q)) == |Recorders(streams, s, q)|;
      }
    }

    // ---- a subscribe message -------------------------------------------------------------------------------

    method OpenStream(sid: StreamId, account: string, space: string)
      requires Consistent() && ValidSpace(space)
      modifies this`streams
      ensures Consistent()
      ensures streams == old(streams)[sid := Opened(old(streams), sid, account, space)]
      ensures forall t, s, p :: Recorded(streams, t, s, p) <==> Recorded(old(streams), t, s, p)
    {
      hide Split, CountIn, TrieOk, StreamOk, ValidSpace;
      var st := Opened(streams, sid, account, space);
      OpenedOk(streams, sid, account, space, caps);
      streams := streams[sid := st];
      forall s, q
        ensures Refcount(s, q) == |Recorders(streams, s, q)|
      {
        RecordersCount(old(streams), sid, st, s, q);
        assert old(Refcount(s, q)) == |Recorders(old(streams), s, q)|;
      }
    }

    method Accept(sid: StreamId, si: PatternTrie, space: string, topics: seq<string>)
      returns (accepted: seq<string>, rejected: seq<string>)
      requires Consistent() && sid in streams && space in remote && remote[space] == si
      modifies this`streams, si
      ensures Consistent()
      ensures var (st, left) := Take(old(streams)[sid], space, topics, caps); streams == old(streams)[sid := st] && rejected == left
      ensures forall s, p :: Subscribes(streams[sid], s, p) <==> Subscribes(old(streams)[sid], s, p) || (s == space && p in accepted)
      ensures forall p | p in accepted :: !Subscribes(old(streams)[sid], space, p)
      ensures accepted == [] <==> streams == old(streams)
    {
      hide Split, Consistent, Full, ValidSpace, WithPattern;
      accepted, rejected := [], [];
      var i := 0;
      while i < |topics|
        invariant 0 <= i <= |topics| && Consistent() && sid in streams && remote == old(remote)
        invariant streams == old(streams)[sid := streams[sid]]
        invariant Take(streams[sid], space, topics[i..], caps) == Take(old(streams)[sid], space, topics, caps)
        invariant forall s, p :: Subscribes(streams[sid], s, p) <==> Subscribes(old(streams)[sid], s, p) || (s == space && p in accepted)
        invariant forall p | p in accepted :: !Subscribes(old(streams)[sid], space, p)
        invariant accepted == [] ==> streams == old(streams)
      {
        assert topics[i..] == [topics[i]] + topics[i + 1..];
        var p := topics[i];
        i := i + 1;
        if Subscribes(streams[sid], space, p) {
          continue;
        }
        if Full(streams[sid], space, caps) {
          rejected := topics[i - 1..];
          break;
        }
        HasWith(streams[sid], space, p);
        AddPattern(sid, si, space, p);
        accepted := accepted + [p];
      }
      if accepted != [] {
        assert accepted[0] in accepted;
      }
    }

    /** removeStreamPattern for each pattern in turn. */
    method RemoveAll(sid: StreamId, si: PatternTrie, space: string, patterns: seq<string>) returns (removed: seq<string>)
      requires Consistent() && sid in streams && space in remote && remote[space] == si
      modifies this`streams, si
      ensures Consistent() && sid in streams && streams == old(streams)[sid := streams[sid]]
      ensures forall s, p :: Subscribes(streams[sid], s, p) <==> Subscribes(old(streams)[sid], s, p) && !(s == space && p in patterns)
      ensures forall p :: p in removed <==> p in patterns && Subscribes(old(streams)[sid], space, p)
    {
      hide Split, Consistent, ValidSpace, WithoutPattern;
      removed := [];
      for i := 0 to |patterns|
        invariant Consistent() && sid in streams && remote == old(remote)
        invariant streams == old(streams)[sid := streams[sid]]
        invariant forall s, p :: Subscribes(streams[sid], s, p) <==> Subscribes(old(streams)[sid], s, p) && !(s == space && p in patterns[..i])
        invariant forall p :: p in removed <==> p in patterns[..i] && Subscribes(old(streams)[sid], space, p)
      {
        HasWithout(streams[sid], space, patterns[i]);
        assert patterns[..i + 1] == patterns[..i] + [patterns[i]];
        var present := RemoveStreamPattern(sid, si, space, patterns[i]);
        if present {
          removed := removed + [patterns[i]];
        }
      }
      assert patterns[..|patterns|] == patterns;
    }

    /** The patterns leave the stream and the trie, and both are pruned. */
    method RemovePatterns(sid: StreamId, si: PatternTrie, space: string, patterns: seq<string>) returns (removed: seq<string>)
      requires Consistent() && sid in streams && space in remote && remote[space] == si
      modifies this`streams, this`remote, si
      ensures Consistent() && remote.Values <= old(remote.Values)
      ensures forall t, s, p :: Recorded(streams, t, s, p) <==>
                Recorded(old(streams), t, s, p) && !(t == sid && s == space && p in patterns)
      ensures forall p :: p in removed <==> p in patterns && Recorded(old(streams), sid, space, p)
      ensures sid in streams ==> streams[sid].total != 0
    {
      hide Split, Consistent, ValidSpace;
      removed := RemoveAll(sid, si, space, patterns);
      PruneStream(sid);
      PruneSpace(space);
    }

    /** A record with a positive total records something. */
    lemma KeptMeansRecorded(sid: StreamId)
      requires Consistent() && sid in streams
      ensures streams[sid].total != 0 ==> exists s, p :: Recorded(streams, sid, s, p)
    {
      hide Split, Balanced, TriesOk, Pairs, ValidSpace;
      var st := streams[sid];
      assert StreamOk(st, caps);
      if st.total != 0 {
        var pair :| pair in Pairs(st);
        InPairs(st, pair.0, pair.1);
        assert Recorded(streams, sid, pair.0, pair.1);
      }
    }

    /** Set the routing tags of the accepted patterns, or take them back when the pool has dropped the stream. */
    method Settle(sid: StreamId, si: PatternTrie, space: string, accepted: seq<string>, ghost was: Streams)
      requires Consistent() && sid in streams && space in remote && remote[space] == si
      requires Late(sid) == {} && AllTagged(pool, was, late)
      requires forall t, s, p :: Recorded(streams, t, s, p) <==>
                 Recorded(was, t, s, p) || (t == sid && s == space && p in accepted)
      requires forall p | p in accepted :: !Recorded(was, sid, space, p)
      modifies this`streams, this`remote, this`pool, si
      ensures Valid() && remote.Values <= old(remote.Values) && pool.Keys == old(pool.Keys)
      ensures sid in pool ==> streams == old(streams)
      ensures sid !in pool ==> forall t, s, p :: Recorded(streams, t, s, p) <==> Recorded(was, t, s, p)
      ensures sid !in pool && accepted != [] && sid in streams ==> streams[sid].total != 0
      ensures accepted == [] ==> streams == old(streams)
    {
      hide Split, Consistent, ValidSpace, Tags, Recorded, InterestTag;
      ghost var ps := set p | p in accepted;
      if accepted != [] {
        if sid in pool {
          var tags := set p | p in accepted :: InterestTag(space, p);
          pool := pool[sid := pool[sid] + tags];
          assert tags == SpaceTags(space, ps);
        } else {
          var removed := RemovePatterns(sid, si, space, accepted);
        }
      }
      forall t | t in pool
        ensures TagsAgree(pool[t], Tags(streams, t), LateOf(late, t))
      {
        TagsGrow(was, streams, t, space, if t == sid then ps else {});
      }
    }

    /** The part of handleSubscribe under the lock. */
    method Enroll(sid: StreamId, account: string, space: string, topics: seq<string>) returns (rejected: seq<string>)
      requires Valid() && ValidSpace(space) && Late(sid) == {}
      modifies this`remote, this`streams, this`pool, remote.Values
      ensures Valid() && fresh(remote.Values - old(remote.Values))
      ensures pool.Keys == old(pool.Keys)
      ensures rejected == Take(Opened(old(streams), sid, account, space), space, topics, caps).1
      ensures sid !in pool ==> forall t, s, p :: Recorded(streams, t, s, p) <==> Recorded(old(streams), t, s, p)
      ensures sid in pool ==> streams == old(streams)[sid := Take(Opened(old(streams), sid, account, space), space, topics, caps).0]
      ensures sid in pool ==> Enrolled(old(streams), sid, account, space, topics, caps, streams, rejected)
      ensures sid !in pool && sid !in old(streams) ==>
                (sid in streams <==> topics == [] || caps.perSpace == 0 || caps.perStream == 0)
    {
      hide Split, Consistent, ValidSpace, AllTagged, Take, Opened, Subscribes, Enrolled;
      SpaceIsValid(space);
      TakeNothing(streams, sid, account, space, topics, caps);
      EnrolledMeans(streams, sid, account, space, topics, caps);
      var si := TrieOf(space);
      OpenStream(sid, account, space);
      var accepted;
      accepted, rejected := Accept(sid, si, space, topics);
      Settle(sid, si, space, accepted, old(streams));
      if sid in streams && sid !in old(streams) {
        KeptMeansRecorded(sid);
      }
    }

    /** A refused message changes nothing.  On a stream the pool still holds, what the caps allow is
        recorded and tagged.  On a stream it has dropped nothing stays recorded; an empty record is left
        behind exactly when no pattern was accepted.  A stream's messages are handled one at a time, so no
        unsubscribe of it is under way. */
    method HandleSubscribe(sid: StreamId, account: string, space: string, topics: seq<string>, responsible: bool, member: bool)
      returns (status: Status)
      requires Valid() && Late(sid) == {}
      modifies this`remote, this`streams, this`pool, remote.Values
      ensures Valid() && fresh(remote.Values - old(remote.Values))
      ensures pool.Keys == old(pool.Keys)
      ensures status == SubscribeStatus(old(streams), sid, account, space, topics, responsible, member, caps)
      ensures status.Refused? ==> streams == old(streams)
      ensures !status.Refused? && sid !in pool ==>
                forall t, s, p :: Recorded(streams, t, s, p) <==> Recorded(old(streams), t, s, p)
      ensures !status.Refused? && sid in pool ==>
                streams == old(streams)[sid := Take(Opened(old(streams), sid, account, space), space, topics, caps).0]
      ensures !status.Refused? && sid in pool ==>
                Enrolled(old(streams), sid, account, space, topics, caps, streams, if status.TooManyTopics? then status.rejected else [])
      ensures !status.Refused? && sid !in pool && sid !in old(streams) ==>
                (sid in streams <==> topics == [] || caps.perSpace == 0 || caps.perStream == 0)
    {
      hide Split, Valid, ValidSpace, WellFormed, WildcardsPlaced, Recorded, Take, Opened, Enrolled;
      if !ValidSpace(space) {
        return Refused(InvalidTopic);
      }
      if !responsible {
        return Refused(NotResponsible);
      }
      var valid := ValidPatterns(topics);
      if !valid {
        return Refused(InvalidTopic);
      }
      if !member {
        return Refused(NotAMember);
      }
      var rejected := Enroll(sid, account, space, topics);
      status := if rejected == [] then Done else TooManyTopics(rejected);
    }

    // ---- an unsubscribe message ----------------------------------------------------------------------------

    /** The part of handleUnsubscribe under the lock.  No topics means every pattern of the space. */
    method Withdraw(sid: StreamId, space: string, topics: seq<string>) returns (removed: seq<string>)
      requires Valid() && Late(sid) == {}
      modifies this`remote, this`streams, this`late, remote.Values
      ensures Valid() && remote.Values <= old(remote.Values)
      ensures Late(sid) == SpaceTags(space, set p | p in removed) && forall t | t != sid :: Late(t) == old(Late(t))
      ensures forall t, s, p :: Recorded(streams, t, s, p) <==>
                Recorded(old(streams), t, s, p) && !(t == sid && s == space && (topics == [] || p in topics))
    {
      hide Split, Consistent, AllTagged, LateOf, ValidSpace, SpaceTags;
      removed := [];
      NoSpaceTags(space);
      if sid !in streams || space !in remote {
        NoTrie(space);
        return;
      }
      SpaceIsValid(space);
      var si := remote[space];
      var patterns := topics;
      if topics == [] {
        patterns := Listing(PatternsIn(streams[sid], space));
      }
      removed := RemovePatterns(sid, si, space, patterns);
      ghost var ps := set p | p in removed;
      late := late[sid := SpaceTags(space, ps)];
      TaggedLate(pool, old(streams), streams, old(late), sid, space, ps, caps);
      LateAfter(old(late), sid, SpaceTags(space, ps));
    }

    lemma SpaceIsValid(space: string)
      requires Consistent()
      ensures StreamsOk(streams, caps) && (space in remote ==> ValidSpace(space))
    {
    }

    /** The pool call after it: take the tags of the removed patterns from the stream. */
    method Untag(sid: StreamId, space: string, removed: seq<string>)
      requires Valid() && Late(sid) == SpaceTags(space, set p | p in removed)
      modifies this`pool, this`late
      ensures Valid() && pool.Keys == old(pool.Keys) && late == old(late)[sid := {}]
      ensures sid in pool ==> pool[sid] == Tags(streams, sid)
      ensures forall t | t in pool && t != sid :: pool[t] == old(pool)[t]
    {
      hide Split, Consistent, Tags, InterestTag;
      if removed != [] && sid in pool {
        var tags := set p | p in removed :: InterestTag(space, p);
        assert tags == SpaceTags(space, set p | p in removed);
        pool := pool[sid := pool[sid] - tags];
      }
      late := late[sid := {}];
    }

    /** handleUnsubscribe when nothing happens in between. */
    method HandleUnsubscribe(sid: StreamId, space: string, topics: seq<string>)
      requires Valid() && Late(sid) == {}
      modifies this, remote.Values
      ensures Valid() && Late(sid) == {} && remote.Values <= old(remote.Values) && pool.Keys == old(pool.Keys)
      ensures forall t, s, p :: Recorded(streams, t, s, p) <==>
                Recorded(old(streams), t, s, p) && !(t == sid && s == space && (topics == [] || p in topics))
    {
      hide Split, Consistent, AllTagged, Tags, SpaceTags;
      var removed := Withdraw(sid, space, topics);
      Untag(sid, space, removed);
    }

    /** A space without a trie has no recorded pattern. */
    lemma NoTrie(space: string)
      requires Consistent()
      ensures space !in remote ==> forall t, p :: !Recorded(streams, t, space, p)
    {
      hide Split, CountIn, TrieOk, StreamOk, ValidSpace;
      if space !in remote {
        forall t, p
          ensures !Recorded(streams, t, space, p)
        {
          assert Refcount(space, p) == |Recorders(streams, space, p)|;
          assert t in Recorders(streams, space, p) <==> Recorded(streams, t, space, p);
        }
      }
    }

    // ---- streams come and go ---------------------------------------------------------------------------------

    /** The pool registers a stream under a fresh id. */
    method StreamOpens(sid: StreamId)
      requires Valid() && sid !in pool && sid !in streams && Late(sid) == {}
      modifies this`pool
      ensures Valid() && pool == old(pool)[sid := {}]
    {
      pool := pool[sid := {}];
    }

    /** The pool drops a stream with its tags; the close hook runs some time later. */
    method StreamDrops(sid: StreamId)
      requires Valid()
      modifies this`pool
      ensures Valid() && pool == old(pool) - {sid}
    {
      pool := pool - {sid};
    }

    /** The refcounts lack what st records in the spaces done. */
    ghost predicate Owing(st: Stream, done: set<string>)
      reads this`remote, this`streams, remote.Values
    {
      TriesOk() && forall s, p :: Refcount(s, p) + (if s in done && Subscribes(st, s, p) then 1 else 0) == |Recorders(streams, s, p)|
    }

    lemma OwesNothing(st: Stream)
      requires TriesOk() && Balanced()
      ensures Owing(st, {})
    {
      hide TriesOk, Refcount, Recorders;
    }

    /** onStreamClose: the closed stream's contribution leaves every trie. */
    method OnStreamClose(sid: StreamId)
      requires Valid() && sid !in pool
      modifies this`remote, this`streams, remote.Values
      ensures Valid() && remote.Values <= old(remote.Values)
      ensures streams == old(streams) - {sid}
    {
      hide Split, Owing, Balanced, TriesOk, TagsOf, StreamsOk;
      if sid !in streams {
        assert streams == streams - {sid};
        return;
      }
      var st := streams[sid];
      OwesNothing(st);
      WithdrawAll(sid, st);
      DropStream(sid, st);
    }

    method WithdrawAll(sid: StreamId, st: Stream)
      requires Owing(st, {}) && sid in streams && streams[sid] == st
      modifies this`remote, remote.Values
      ensures Owing(st, st.bySpace.Keys) && remote.Values <= old(remote.Values)
    {
      hide Split, Owing;
      var spaces := st.bySpace.Keys;
      ghost var done: set<string> := {};
      while spaces != {}
        invariant spaces <= st.bySpace.Keys && done == st.bySpace.Keys - spaces
        invariant Owing(st, done) && remote.Values <= old(remote.Values)
        decreases |spaces|
      {
        var space :| space in spaces;
        spaces := spaces - {space};
        WithdrawFrom(sid, space, st, done);
        done := done + {space};
      }
      assert done == st.bySpace.Keys;
    }

    /** delete(s.streams, streamId), once no trie counts the stream. */
    method DropStream(sid: StreamId, ghost st: Stream)
      requires sid in streams && streams[sid] == st && Owing(st, st.bySpace.Keys) && StreamsOk(streams, caps)
      modifies this`streams
      ensures Consistent() && streams == old(streams) - {sid}
    {
      hide Split, CountIn, TrieOk, StreamOk, ValidSpace, Recorders;
      streams := streams - {sid};
      forall s, p
        ensures Refcount(s, p) == |Recorders(streams, s, p)|
      {
        RecordersCount(old(streams), sid, st, s, p);
        assert old(Refcount(s, p)) + (if s in st.bySpace.Keys && Subscribes(st, s, p) then 1 else 0) == |Recorders(old(streams), s, p)|;
      }
    }

    /** One round of the close loop: the patterns of one space leave its trie. */
    method WithdrawFrom(sid: StreamId, space: string, st: Stream, ghost done: set<string>)
      requires Owing(st, done) && sid in streams && streams[sid] == st && space in st.bySpace && space !in done
      modifies this`remote, remote.Values
      ensures Owing(st, done + {space}) && remote.Values <= old(remote.Values)
    {
      hide Split, ValidSpace, CountIn, TrieOk, Recorders;
      forall p
        ensures Subscribes(st, space, p) ==> |Recorders(streams, space, p)| > 0
      {
        RecordersUpdate(streams, sid, st, space, p);
      }
      if space in remote {
        var si := remote[space];
        DropRefs(si, st.bySpace[space]);
        forall s, p
          ensures Refcount(s, p) + (if s in done + {space} && Subscribes(st, s, p) then 1 else 0) == |Recorders(streams, s, p)|
        {
          assert old(Refcount(s, p)) + (if s in done && Subscribes(st, s, p) then 1 else 0) == |Recorders(streams, s, p)|;
        }
        DropEmpty(space, st, done + {space});
      }
    }

    /** pruneSpace inside the close loop. */
    method DropEmpty(space: string, ghost st: Stream, ghost done: set<string>)
      requires Owing(st, done) && space in remote
      modifies this`remote
      ensures Owing(st, done) && remote.Values <= old(remote.Values)
    {
      hide Split, ValidSpace, CountIn, TrieOk, Recorders;
      var n := remote[space].Len();
      if n == 0 {
        assert forall p :: Refcount(space, p) == 0 && Refcount(space, p) + (if space in done && Subscribes(st, space, p) then 1 else 0) == |Recorders(streams, space, p)|;
        remote := remote - {space};
        forall s, p
          ensures Refcount(s, p) + (if s in done && Subscribes(st, s, p) then 1 else 0) == |Recorders(streams, s, p)|
        {
          assert old(Refcount(s, p)) + (if s in done && Subscribes(st, s, p) then 1 else 0) == |Recorders(streams, s, p)|;
        }
      }
    }

    // ---- spaces close, members leave --------------------------------------------------------------------------

    /** A stream's interest in a space goes, with its tags, and the stream's record when nothing is left. */
    method StripSpace(sid: StreamId, space: string)
      requires StreamsOk(streams, caps) && Tagged() && sid in streams && space in streams[sid].bySpace
      modifies this`streams, this`pool
      ensures StreamsOk(streams, caps) && Tagged() && pool.Keys == old(pool.Keys)
      ensures forall t | t != sid :: (t in streams <==> t in old(streams)) && (t in streams ==> streams[t] == old(streams)[t])
      ensures forall t, s, p :: Recorded(streams, t, s, p) <==> Recorded(old(streams), t, s, p) && !(t == sid && s == space)
      ensures forall s, p :: |Recorders(streams, s, p)| ==
                |Recorders(old(streams), s, p)| - if s == space && Recorded(old(streams), sid, s, p) then 1 else 0
    {
      hide Split, StreamOk, Recorders, AllTagged, Tags, InterestTag, ValidSpace;
      var st := streams[sid];
      SpaceOk(st, space, caps);
      var st' := WithoutSpace(st, space);
      WithoutSpaceOk(st, space, caps);
      StrippedTagged(pool, streams, late, sid, space, caps);
      streams := streams[sid := st'];
      if sid in pool {
        var tags := set p | p in st.bySpace[space] :: InterestTag(space, p);
        assert tags == SpaceTags(space, st.bySpace[space]);
        pool := pool[sid := pool[sid] - tags];
      }
      if st'.total == 0 {
        ZeroTotal(st', caps);
        streams := streams - {sid};
        assert old(streams)[sid := st'] - {sid} == old(streams) - {sid};
      }
      forall s, p
        ensures |Recorders(streams, s, p)| ==
                |Recorders(old(streams), s, p)| - if s == space && Recorded(old(streams), sid, s, p) then 1 else 0
      {
        RecordersCount(old(streams), sid, st', s, p);
        RecordersCount(old(streams)[sid := st'], sid, st', s, p);
        assert old(streams)[sid := st'] - {sid} == old(streams) - {sid};
      }
    }

    /** The serving half of CloseSpace. */
    method CloseSpace(space: string)
      requires Valid()
      modifies this`remote, this`streams, this`pool
      ensures Valid() && remote == old(remote) - {space} && pool.Keys == old(pool.Keys)
      ensures forall t, s, p :: Recorded(streams, t, s, p) <==> Recorded(old(streams), t, s, p) && s != space
    {
      hide Split, StreamsOk, AllTagged, Tags, Recorders, CountIn, TrieOk, ValidSpace;
      remote := remote - {space};
      StripAll(space);
      forall s, p
        ensures Refcount(s, p) == |Recorders(streams, s, p)|
      {
        assert old(Refcount(s, p)) == |Recorders(old(streams), s, p)|;
        if s == space {
          NoRecorders(streams, s, p);
        }
      }
    }

    /** Its loop over the streams. */
    method StripAll(space: string)
      requires StreamsOk(streams, caps) && Tagged()
      modifies this`streams, this`pool
      ensures StreamsOk(streams, caps) && Tagged() && pool.Keys == old(pool.Keys)
      ensures forall t, s, p :: Recorded(streams, t, s, p) <==> Recorded(old(streams), t, s, p) && s != space
      ensures forall s, p | s != space :: |Recorders(streams, s, p)| == |Recorders(old(streams), s, p)|
    {
      hide Split, StreamsOk, AllTagged, Recorders;
      var todo := streams.Keys;
      while todo != {}
        invariant todo <= old(streams).Keys && pool.Keys == old(pool.Keys)
        invariant StreamsOk(streams, caps) && Tagged()
        invariant forall t | t in todo :: t in streams && streams[t] == old(streams)[t]
        invariant forall t, s, p :: Recorded(streams, t, s, p) <==> Recorded(old(streams), t, s, p) && (s != space || t in todo)
        invariant forall s, p | s != space :: |Recorders(streams, s, p)| == |Recorders(old(streams), s, p)|
        decreases |todo|
      {
        var sid :| sid in todo;
        todo := todo - {sid};
        if PatternsIn(streams[sid], space) == {} {
          continue;
        }
        StripSpace(sid, space);
      }
    }

    /** One round of evictSpaceStreams. */
    method EvictOne(sid: StreamId, space: string)
      requires Valid() && sid in streams && space in streams[sid].bySpace
      modifies this`streams, this`pool, remote.Values
      ensures Valid() && pool.Keys == old(pool.Keys)
      ensures forall t | t != sid :: (t in streams <==> t in old(streams)) && (t in streams ==> streams[t] == old(streams)[t])
      ensures forall t, s, p :: Recorded(streams, t, s, p) <==> Recorded(old(streams), t, s, p) && !(t == sid && s == space)
    {
      hide Split, StreamsOk, AllTagged, Recorders, CountIn, TrieOk, ValidSpace;
      NoTrie(space);
      forall p
        ensures Recorded(streams, sid, space, p) ==> |Recorders(streams, space, p)| > 0
      {
        RecordersUpdate(streams, sid, streams[sid], space, p);
      }
      if space in remote {
        DropRefs(remote[space], streams[sid].bySpace[space]);
      }
      StripSpace(sid, space);
      forall s, p
        ensures Refcount(s, p) == |Recorders(streams, s, p)|
      {
        assert old(Refcount(s, p)) == |Recorders(old(streams), s, p)|;
      }
    }

    /** evictSpaceStreams: the interest in the space of every stream whose account is to be evicted. */
    method EvictSpaceStreams(space: string, evict: string -> bool)
      requires Valid()
      modifies this`remote, this`streams, this`pool, remote.Values
      ensures Valid() && remote.Values <= old(remote.Values) && pool.Keys == old(pool.Keys)
      ensures forall t, s, p :: Recorded(streams, t, s, p) <==>
                Recorded(old(streams), t, s, p) && !(s == space && evict(old(streams)[t].account))
    {
      hide Split, Consistent, AllTagged;
      var todo := streams.Keys;
      while todo != {}
        invariant Valid() && remote == old(remote) && todo <= old(streams).Keys && pool.Keys == old(pool.Keys)
        invariant forall t | t in todo :: t in streams && streams[t] == old(streams)[t]
        invariant forall t, s, p :: Recorded(streams, t, s, p) <==>
                    Recorded(old(streams), t, s, p) && !(s == space && t !in todo && evict(old(streams)[t].account))
        decreases |todo|
      {
        var sid :| sid in todo;
        todo := todo - {sid};
        if PatternsIn(streams[sid], space) == {} || !evict(streams[sid].account) {
          continue;
        }
        EvictOne(sid, space);
      }
      if space in remote {
        PruneSpace(space);
      }
    }

    /** A member subscribes on a new stream and is evicted later: nothing of the space stays recorded for it. */
    method SubscribeThenEvict(sid: StreamId, account: string, space: string, topics: seq<string>, evict: string -> bool)
      requires Valid() && Late(sid) == {} && sid in pool && sid !in streams && evict(account)
      modifies this`remote, this`streams, this`pool, remote.Values
      ensures Valid() && forall p :: !Recorded(streams, sid, space, p)
    {
      hide Split, Consistent, AllTagged, ValidSpace, WellFormed, WildcardsPlaced, Take, Opened;
      var status := HandleSubscribe(sid, account, space, topics, true, true);
      EvictSpaceStreams(space, evict);
    }

    // ---- delivery -------------------------------------------------------------------------------------------

    /** The pool sends what is tagged with the pattern to the stream: it records the pattern, or an
        unsubscribe from it has not reached the pool. */
    ghost predicate Routed(sid: StreamId, space: string, p: string)
      reads this`streams, this`pool, this`late
    {
      sid in pool && (Recorded(streams, sid, space, p) || InterestTag(space, p) in Late(sid))
    }

    /** The first half of fanout, under the lock: the recorded patterns of the space that cover the topic. */
    method MatchTopic(space: string, topic: string) returns (patterns: seq<string>)
      requires Valid()
      ensures forall p :: p in patterns <==> Matches(Split(p), Split(topic)) && exists sid :: Recorded(streams, sid, space, p)
      ensures patterns != [] ==> ValidSpace(space)
    {
      hide Split, Matches, StreamsOk, CountIn, TrieOk, ValidSpace, AllTagged;
      NoTrie(space);
      if space !in remote {
        return [];
      }
      patterns := remote[space].Match(topic);
      forall p
        ensures remote[space].Count(p) > 0 <==> exists sid :: Recorded(streams, sid, space, p)
      {
        assert Refcount(space, p) == |Recorders(streams, space, p)|;
        SomeRecorder(streams, space, p);
      }
    }

    /** The second half, after the lock is released and whatever happened since: the streams the pool holds
        that are routed one of the patterns now. */
    method Broadcast(space: string, patterns: seq<string>) returns (delivered: set<StreamId>)
      requires Valid() && (patterns != [] ==> ValidSpace(space))
      ensures forall sid :: sid in delivered <==> exists p | p in patterns :: Routed(sid, space, p)
    {
      hide Split, Consistent, AllTagged, InterestTag, ValidSpace, Routed;
      var tags := set p | p in patterns :: InterestTag(space, p);
      delivered := set sid | sid in pool && exists tag :: tag in tags && tag in pool[sid];
      forall sid
        ensures sid in delivered <==> exists p | p in patterns :: Routed(sid, space, p)
      {
        forall p | p in patterns
          ensures Routed(sid, space, p) <==> sid in pool && InterestTag(space, p) in pool[sid]
        {
          TagRoutes(sid, space, p);
        }
      }
    }

    lemma TagRoutes(sid: StreamId, space: string, p: string)
      requires Valid() && ValidSpace(space)
      ensures Routed(sid, space, p) <==> sid in pool && InterestTag(space, p) in pool[sid]
    {
      hide Split, CountIn, TrieOk, InterestTag, TagsOf, ValidSpace, TriesOk, Balanced;
      if sid in pool {
        if sid in streams {
          assert StreamOk(streams[sid], caps);
          HasTag(streams[sid], space, p, caps);
        }
      }
    }

    /** The stream is still in the pool and records a pattern of the space that covers the topic. */
    ghost predicate Subscribed(sid: StreamId, space: string, topic: string)
      reads this
    {
      sid in pool && exists p :: Recorded(streams, sid, space, p) && Matches(Split(p), Split(topic))
    }

    /** The stream has unsubscribed from such a pattern, another stream records it, and the pool still has
        the tag. */
    ghost predicate Lingers(sid: StreamId, space: string, topic: string)
      reads this
    {
      && sid in pool
      && exists p :: InterestTag(space, p) in Late(sid) && Matches(Split(p), Split(topic)) && exists t :: Recorded(streams, t, space, p)
    }

    /** fanout when nothing happens in between: it reaches exactly the subscribed streams, and those whose
        unsubscribe is between its two halves. */
    method Fanout(space: string, topic: string) returns (delivered: set<StreamId>)
      requires Valid()
      ensures forall sid :: sid in delivered <==> Subscribed(sid, space, topic) || Lingers(sid, space, topic)
    {
      hide Split, Matches, Consistent, AllTagged, InterestTag, ValidSpace, Recorded;
      var patterns := MatchTopic(space, topic);
      delivered := Broadcast(space, patterns);
    }
  }

  /** Remove one reference of each pattern. */
  method DropRefs(si: PatternTrie, patterns: set<string>)
    requires si.Valid()
    modifies si
    ensures si.Valid()
    ensures forall p :: si.Count(p) == old(si.Count(p)) - if p in patterns && old(si.Count(p)) > 0 then 1 else 0
  {
    hide Split, CountIn, TrieOk;
    var todo := patterns;
    while todo != {}
      invariant si.Valid() && todo <= patterns
      invariant forall p :: si.Count(p) == old(si.Count(p)) - if p in patterns && p !in todo && old(si.Count(p)) > 0 then 1 else 0
      decreases |todo|
    {
      var p :| p in todo;
      todo := todo - {p};
      var last := si.Remove(p);
    }
  }

  /** The members of a set in some order. */
  method Listing(ps: set<string>) returns (list: seq<string>)
    ensures forall p :: p in list <==> p in ps
  {
    list := [];
    var todo := ps;
    while todo != {}
      invariant todo <= ps && forall p :: p in list <==> p in ps && p !in todo
      decreases |todo|
    {
      var p :| p in todo;
      todo := todo - {p};
      list := list + [p];
    }
  }

  method ValidPatterns(topics: seq<string>) returns (ok: bool)
    ensures ok <==> forall p | p in topics :: WellFormed(p) && WildcardsPlaced(p)
  {
    hide WellFormed, WildcardsPlaced;
    for i := 0 to |topics|
      invariant forall p | p in topics[..i] :: WellFormed(p) && WildcardsPlaced(p)
    {
      var good := ValidatePattern(topics[i]);
      if !good {
        assert topics[i] in topics;
        return false;
      }
    }
    assert topics[..|topics|] == topics;
    return true;
  }

  datatype Code = InvalidTopic | NotResponsible | NotAMember

  datatype Status = Done | Refused(code: Code) | TooManyTopics(rejected: seq<string>)

  /** The answer to a subscribe message: the checks in their order, then what the caps leave out. */
  ghost function SubscribeStatus(streams: Streams, sid: StreamId, account: string, space: string, topics: seq<string>,
                                 responsible: bool, member: bool, caps: Caps): Status {
    if !ValidSpace(space) then Refused(InvalidTopic)
    else if !responsible then Refused(NotResponsible)
    else if !(forall p | p in topics :: WellFormed(p) && WildcardsPlaced(p)) then Refused(InvalidTopic)
    else if !member then Refused(NotAMember)
    else
      var rejected := Take(Opened(streams, sid, account, space), space, topics, caps).1;
      if rejected == [] then Done else TooManyTopics(rejected)
  }

  /** The record handleSubscribe starts from: the stream's own, or a fresh one, with an entry for the space. */
  function Opened(streams: Streams, sid: StreamId, account: string, space: string): Stream {
    var st := if sid in streams then streams[sid] else Stream(account, map[], 0);
    st.(bySpace := st.bySpace[space := PatternsIn(st, space)])
  }

  /** What a subscribe message that is not refused does to a stream the pool holds: a new record gets the
      account, an old one keeps its own; the topics ahead of the rejected ones are recorded and nothing else
      changes; something is rejected only at a cap. */
  ghost predicate Enrolled(was: Streams, sid: StreamId, account: string, space: string, topics: seq<string>, caps: Caps,
                           now: Streams, rejected: seq<string>) {
    && now.Keys == was.Keys + {sid} && (forall t | t in was && t != sid :: now[t] == was[t])
    && now[sid].account == (if sid in was then was[sid].account else account)
    && |rejected| <= |topics| && topics[|topics| - |rejected|..] == rejected
    && (forall s, p :: Recorded(now, sid, s, p) <==>
          Recorded(was, sid, s, p) || (s == space && p in topics[..|topics| - |rejected|]))
    && (rejected != [] ==> AtCap(now[sid], space, caps) && !Recorded(now, sid, space, rejected[0]))
  }

  lemma EnrolledMeans(streams: Streams, sid: StreamId, account: string, space: string, topics: seq<string>, caps: Caps)
    requires StreamsOk(streams, caps) && ValidSpace(space)
    ensures var (st, rejected) := Take(Opened(streams, sid, account, space), space, topics, caps);
            Enrolled(streams, sid, account, space, topics, caps, streams[sid := st], rejected)
  {
    hide ValidSpace, StreamOk, Take, Subscribes, AtCap;
    OpenedOk(streams, sid, account, space, caps);
    TakeMeaning(Opened(streams, sid, account, space), space, topics, caps);
    var (st, rejected) := Take(Opened(streams, sid, account, space), space, topics, caps);
    var now := streams[sid := st];
    forall s, p
      ensures Recorded(now, sid, s, p) <==> Subscribes(st, s, p)
    {
    }
  }

  /** A stream without a record has nothing accepted exactly when no topic came or a cap is zero. */
  lemma TakeNothing(streams: Streams, sid: StreamId, account: string, space: string, topics: seq<string>, caps: Caps)
    requires sid !in streams ==> StreamsOk(streams, caps) && ValidSpace(space)
    ensures sid !in streams ==>
              var st := Opened(streams, sid, account, space);
              Take(st, space, topics, caps).0 == st <==> topics == [] || caps.perSpace == 0 || caps.perStream == 0
  {
    if sid !in streams && topics != [] {
      hide ValidSpace, StreamOk;
      var st := Opened(streams, sid, account, space);
      OpenedOk(streams, sid, account, space, caps);
      assert !Subscribes(st, space, topics[0]);
      if !Full(st, space, caps) {
        WithPatternOk(st, space, topics[0], caps);
        HasWith(st, space, topics[0]);
        TakeMeaning(WithPattern(st, space, topics[0]), space, topics[1..], caps);
        assert Subscribes(Take(st, space, topics, caps).0, space, topics[0]);
      }
    }
  }

  lemma OpenedOk(streams: Streams, sid: StreamId, account: string, space: string, caps: Caps)
    requires StreamsOk(streams, caps) && ValidSpace(space)
    ensures StreamOk(Opened(streams, sid, account, space), caps)
    ensures forall s, p :: Subscribes(Opened(streams, sid, account, space), s, p) <==> Recorded(streams, sid, s, p)
  {
    hide ValidSpace, Pairs;
    var st := if sid in streams then streams[sid] else Stream(account, map[], 0);
    var st' := Opened(streams, sid, account, space);
    forall pair
      ensures pair in Pairs(st') <==> pair in Pairs(st)
    {
      InPairs(st, pair.0, pair.1);
      InPairs(st', pair.0, pair.1);
    }
    assert Pairs(st') == Pairs(st);
    if sid !in streams {
      assert Pairs(st) == {} by {
        forall pair
          ensures pair !in Pairs(st)
        {
          InPairs(st, pair.0, pair.1);
        }
      }
    }
  }
}
