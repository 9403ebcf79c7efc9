/** What one inbound stream has subscribed to (`commonspace/pubsub/service.go`, streamInterest), and
    how many streams record a pattern. */
module Interest {
  import opened Topics

  type StreamId = nat

  datatype Stream = Stream(account: string, bySpace: map<string, set<string>>, total: int)

  type Streams = map<StreamId, Stream>

  datatype Caps = Caps(perSpace: nat, perStream: nat)

  predicate Subscribes(st: Stream, space: string, p: string) {
    space in st.bySpace && p in st.bySpace[space]
  }

  predicate Recorded(streams: Streams, sid: StreamId, space: string, p: string) {
    sid in streams && Subscribes(streams[sid], space, p)
  }

  /** The streams that record the pattern in the space. */
  function Recorders(streams: Streams, space: string, p: string): set<StreamId> {
    set sid | sid in streams && Subscribes(streams[sid], space, p)
  }

  function Pairs(st: Stream): set<(string, string)> {
    set s, p | s in st.bySpace && p in st.bySpace[s] :: (s, p)
  }

  function TagsOf(st: Stream): set<string> {
    set pair | pair in Pairs(st) :: InterestTag(pair.0, pair.1)
  }

  /** The routing tags the stream pool should hold for a stream. */
  function Tags(streams: Streams, sid: StreamId): set<string> {
    if sid in streams then TagsOf(streams[sid]) else {}
  }

  function SpaceTags(space: string, ps: set<string>): set<string> {
    set p | p in ps :: InterestTag(space, p)
  }

  /** The total is the number of recorded patterns, and both caps hold. */
  ghost predicate StreamOk(st: Stream, caps: Caps) {
    && st.total == |Pairs(st)| && st.total <= caps.perStream
    && forall s | s in st.bySpace :: ValidSpace(s) && |st.bySpace[s]| <= caps.perSpace
  }

  ghost predicate StreamsOk(streams: Streams, caps: Caps) {
    forall sid | sid in streams :: StreamOk(streams[sid], caps)
  }

  function PatternsIn(st: Stream, space: string): set<string> {
    if space in st.bySpace then st.bySpace[space] else {}
  }

  predicate Full(st: Stream, space: string, caps: Caps) {
    |PatternsIn(st, space)| >= caps.perSpace || st.total >= caps.perStream
  }

  // ---- changes to one stream ------------------------------------------------------------------------------

  function WithPattern(st: Stream, space: string, p: string): Stream {
    st.(bySpace := st.bySpace[space := PatternsIn(st, space) + {p}], total := st.total + 1)
  }

  function WithoutPattern(st: Stream, space: string, p: string): Stream {
    var left := PatternsIn(st, space) - {p};
    st.(bySpace := if left == {} then st.bySpace - {space} else st.bySpace[space := left], total := st.total - 1)
  }

  function WithoutSpace(st: Stream, space: string): Stream {
    st.(bySpace := st.bySpace - {space}, total := st.total - |PatternsIn(st, space)|)
  }

  lemma InPairs(st: Stream, s: string, p: string)
    ensures (s, p) in Pairs(st) <==> Subscribes(st, s, p)
  {
  }

  lemma WithPatternOk(st: Stream, space: string, p: string, caps: Caps)
    requires StreamOk(st, caps) && ValidSpace(space) && !Subscribes(st, space, p) && !Full(st, space, caps)
    ensures StreamOk(WithPattern(st, space, p), caps)
    ensures Pairs(WithPattern(st, space, p)) == Pairs(st) + {(space, p)}
  {
    hide Pairs, ValidSpace;
    var st' := WithPattern(st, space, p);
    forall pair
      ensures pair in Pairs(st') <==> pair in Pairs(st) || pair == (space, p)
    {
      InPairs(st, pair.0, pair.1);
      InPairs(st', pair.0, pair.1);
    }
    assert Pairs(st') == Pairs(st) + {(space, p)};
    InPairs(st, space, p);
  }

  lemma WithoutPatternOk(st: Stream, space: string, p: string, caps: Caps)
    requires StreamOk(st, caps) && Subscribes(st, space, p)
    ensures StreamOk(WithoutPattern(st, space, p), caps)
    ensures Pairs(WithoutPattern(st, space, p)) == Pairs(st) - {(space, p)}
  {
    hide Pairs, ValidSpace;
    var left := st.bySpace[space] - {p};
    var st' := WithoutPattern(st, space, p);
    forall pair
      ensures pair in Pairs(st') <==> pair in Pairs(st) && pair != (space, p)
    {
      InPairs(st, pair.0, pair.1);
      InPairs(st', pair.0, pair.1);
    }
    assert Pairs(st') == Pairs(st) - {(space, p)};
    InPairs(st, space, p);
    assert |left| == |st.bySpace[space]| - 1;
  }

  lemma {:induction false} PairCount(space: string, ps: set<string>)
    ensures |set p | p in ps :: (space, p)| == |ps|
  {
    if ps != {} {
      var p :| p in ps;
      PairCount(space, ps - {p});
      assert (set x | x in ps :: (space, x)) == (set x | x in ps - {p} :: (space, x)) + {(space, p)};
    }
  }

  lemma WithoutSpaceOk(st: Stream, space: string, caps: Caps)
    requires StreamOk(st, caps)
    ensures StreamOk(WithoutSpace(st, space), caps)
    ensures forall s, p :: Subscribes(WithoutSpace(st, space), s, p) <==> s != space && Subscribes(st, s, p)
  {
    hide Pairs, ValidSpace;
    var gone := set p | p in PatternsIn(st, space) :: (space, p);
    PairCount(space, PatternsIn(st, space));
    var st' := WithoutSpace(st, space);
    forall pair
      ensures pair in Pairs(st) <==> pair in Pairs(st') || pair in gone
      ensures !(pair in Pairs(st') && pair in gone)
    {
      InPairs(st, pair.0, pair.1);
      InPairs(st', pair.0, pair.1);
    }
    assert Pairs(st) == Pairs(st') + gone;
    assert Pairs(st') !! gone;
  }

  /** A total of zero means nothing is recorded. */
  lemma ZeroTotal(st: Stream, caps: Caps)
    requires StreamOk(st, caps) && st.total == 0
    ensures forall s, p :: !Subscribes(st, s, p)
  {
    forall s, p
      ensures !Subscribes(st, s, p)
    {
      assert Subscribes(st, s, p) ==> (s, p) in Pairs(st);
    }
  }

  // ---- tags ---------------------------------------------------------------------------------------------

  lemma InTags(st: Stream, tag: string)
    ensures tag in TagsOf(st) <==> exists s, p :: Subscribes(st, s, p) && InterestTag(s, p) == tag
  {
    if tag in TagsOf(st) {
      var pair :| pair in Pairs(st) && InterestTag(pair.0, pair.1) == tag;
      InPairs(st, pair.0, pair.1);
    }
    if s, p :| Subscribes(st, s, p) && InterestTag(s, p) == tag {
      InPairs(st, s, p);
    }
  }

  lemma TagsAdd(st: Stream, st': Stream, space: string, ps: set<string>)
    requires forall s, p :: Subscribes(st', s, p) <==> Subscribes(st, s, p) || (s == space && p in ps)
    ensures TagsOf(st') == TagsOf(st) + SpaceTags(space, ps)
  {
    hide InterestTag, TagsOf, Subscribes;
    forall tag
      ensures tag in TagsOf(st') <==> tag in TagsOf(st) || tag in SpaceTags(space, ps)
    {
      InTags(st, tag);
      InTags(st', tag);
      if tag in SpaceTags(space, ps) {
        var p :| p in ps && InterestTag(space, p) == tag;
        assert Subscribes(st', space, p);
      }
    }
  }

  lemma TagsRemove(st: Stream, st': Stream, space: string, ps: set<string>)
    requires forall s, p :: Subscribes(st', s, p) <==> Subscribes(st, s, p) && !(s == space && p in ps)
    requires ValidSpace(space) && forall s, p | Subscribes(st, s, p) :: ValidSpace(s)
    ensures TagsOf(st') == TagsOf(st) - SpaceTags(space, ps)
  {
    hide InterestTag, TagsOf, Subscribes, ValidSpace;
    forall tag
      ensures tag in TagsOf(st') <==> tag in TagsOf(st) && tag !in SpaceTags(space, ps)
    {
      InTags(st, tag);
      InTags(st', tag);
      if tag in SpaceTags(space, ps) {
        var p :| p in ps && InterestTag(space, p) == tag;
        forall s, q | Subscribes(st', s, q) && InterestTag(s, q) == tag
          ensures s == space && q == p
        {
          TagInjective(s, q, space, p);
        }
      }
    }
  }

  /** The tags of a stream depend on what it records only. */
  lemma TagsGrow(was: Streams, now: Streams, sid: StreamId, space: string, ps: set<string>)
    requires forall s, p :: Recorded(now, sid, s, p) <==> Recorded(was, sid, s, p) || (s == space && p in ps)
    ensures Tags(now, sid) == Tags(was, sid) + SpaceTags(space, ps)
    ensures ps == {} ==> Tags(now, sid) == Tags(was, sid)
  {
    hide TagsOf;
    NoTags();
    var none := Stream("", map[], 0);
    var a := if sid in was then was[sid] else none;
    var b := if sid in now then now[sid] else none;
    forall s, p
      ensures Subscribes(b, s, p) <==> Subscribes(a, s, p) || (s == space && p in ps)
    {
      assert Recorded(now, sid, s, p) <==> Subscribes(b, s, p);
      assert Recorded(was, sid, s, p) <==> Subscribes(a, s, p);
    }
    TagsAdd(a, b, space, ps);
  }

  lemma NoTags()
    ensures TagsOf(Stream("", map[], 0)) == {}
  {
  }

  /** A stream's tags are its recorded ones and, apart from them, the late ones. */
  ghost predicate TagsAgree(tags: set<string>, recorded: set<string>, late: set<string>) {
    tags == recorded + late && late !! recorded
  }

  ghost function LateOf(late: map<StreamId, set<string>>, sid: StreamId): set<string> {
    if sid in late then late[sid] else {}
  }

  ghost predicate AllTagged(pool: map<StreamId, set<string>>, streams: Streams, late: map<StreamId, set<string>>) {
    forall sid | sid in pool :: TagsAgree(pool[sid], Tags(streams, sid), LateOf(late, sid))
  }

  lemma LateAfter(late: map<StreamId, set<string>>, sid: StreamId, tags: set<string>)
    ensures LateOf(late[sid := tags], sid) == tags && forall t | t != sid :: LateOf(late[sid := tags], t) == LateOf(late, t)
  {
  }

  lemma NoSpaceTags(space: string)
    ensures SpaceTags(space, set p | p in []) == {}
  {
  }

  /** Withdrawn patterns leave the record; their tags become late. */
  lemma TaggedLate(pool: map<StreamId, set<string>>, was: Streams, now: Streams, late: map<StreamId, set<string>>,
                   sid: StreamId, space: string, ps: set<string>, caps: Caps)
    requires AllTagged(pool, was, late) && LateOf(late, sid) == {} && ValidSpace(space) && StreamsOk(was, caps)
    requires forall p | p in ps :: Recorded(was, sid, space, p)
    requires forall t, s, p :: Recorded(now, t, s, p) <==> Recorded(was, t, s, p) && !(t == sid && s == space && p in ps)
    ensures AllTagged(pool, now, late[sid := SpaceTags(space, ps)])
  {
    hide ValidSpace, Tags, Recorded, InterestTag, SpaceTags;
    var late' := late[sid := SpaceTags(space, ps)];
    SpaceTagsIn(was, sid, space, ps);
    forall t | t in pool
      ensures TagsAgree(pool[t], Tags(now, t), LateOf(late', t))
    {
      TagsShrink(was, now, t, space, if t == sid then ps else {}, caps);
    }
  }

  /** A stream loses a space and the tags of it, and its record when that leaves nothing. */
  lemma StrippedTagged(pool: map<StreamId, set<string>>, streams: Streams, late: map<StreamId, set<string>>,
                       sid: StreamId, space: string, caps: Caps)
    requires AllTagged(pool, streams, late) && StreamsOk(streams, caps) && sid in streams && space in streams[sid].bySpace
    ensures var st := WithoutSpace(streams[sid], space);
            var pool' := if sid in pool then pool[sid := pool[sid] - SpaceTags(space, streams[sid].bySpace[space])] else pool;
            AllTagged(pool', streams[sid := st], late) && (st.total == 0 ==> AllTagged(pool', streams - {sid}, late))
  {
    hide TagsOf, InterestTag, StreamOk, ValidSpace, SpaceTags;
    var st, ps := streams[sid], streams[sid].bySpace[space];
    var st' := WithoutSpace(st, space);
    assert StreamOk(st, caps);
    SpaceOk(st, space, caps);
    WithoutSpaceOk(st, space, caps);
    TagsRemove(st, st', space, ps);
    SpaceTagsIn(streams, sid, space, ps);
    var pool' := if sid in pool then pool[sid := pool[sid] - SpaceTags(space, ps)] else pool;
    if st'.total == 0 {
      ZeroTotal(st', caps);
      NothingTagged(st');
    }
    forall t | t in pool'
      ensures TagsAgree(pool'[t], Tags(streams[sid := st'], t), LateOf(late, t))
      ensures st'.total == 0 ==> TagsAgree(pool'[t], Tags(streams - {sid}, t), LateOf(late, t))
    {
      assert TagsAgree(pool[t], Tags(streams, t), LateOf(late, t));
    }
  }

  lemma SpaceTagsIn(streams: Streams, sid: StreamId, space: string, ps: set<string>)
    requires forall p | p in ps :: Recorded(streams, sid, space, p)
    ensures SpaceTags(space, ps) <= Tags(streams, sid)
  {
    hide InterestTag, TagsOf;
    forall tag | tag in SpaceTags(space, ps)
      ensures tag in Tags(streams, sid)
    {
      var p :| p in ps && InterestTag(space, p) == tag;
      assert Recorded(streams, sid, space, p);
      InTags(streams[sid], tag);
    }
  }

  /** A recorded pattern is known by its tag. */
  lemma HasTag(st: Stream, space: string, p: string, caps: Caps)
    requires StreamOk(st, caps) && ValidSpace(space)
    ensures Subscribes(st, space, p) <==> InterestTag(space, p) in TagsOf(st)
  {
    hide InterestTag, TagsOf, Pairs, ValidSpace;
    InTags(st, InterestTag(space, p));
    forall s, q | Subscribes(st, s, q) && InterestTag(s, q) == InterestTag(space, p)
      ensures s == space && q == p
    {
      TagInjective(s, q, space, p);
    }
  }

  lemma SomeRecorder(streams: Streams, space: string, p: string)
    ensures |Recorders(streams, space, p)| > 0 <==> exists sid :: Recorded(streams, sid, space, p)
  {
    if sid :| Recorded(streams, sid, space, p) {
      assert sid in Recorders(streams, space, p);
    } else {
      NoRecorders(streams, space, p);
    }
  }

  lemma NothingTagged(st: Stream)
    requires forall s, p :: !Subscribes(st, s, p)
    ensures TagsOf(st) == {}
  {
    forall tag
      ensures tag !in TagsOf(st)
    {
      InTags(st, tag);
    }
  }

  lemma NoRecorders(streams: Streams, space: string, p: string)
    requires forall t :: !Recorded(streams, t, space, p)
    ensures Recorders(streams, space, p) == {}
  {
    forall t
      ensures t !in Recorders(streams, space, p)
    {
      assert !Recorded(streams, t, space, p);
    }
  }

  lemma SpaceOk(st: Stream, space: string, caps: Caps)
    requires StreamOk(st, caps) && space in st.bySpace
    ensures ValidSpace(space) && forall s, p | Subscribes(st, s, p) :: ValidSpace(s)
  {
  }

  lemma TagsShrink(was: Streams, now: Streams, sid: StreamId, space: string, ps: set<string>, caps: Caps)
    requires forall s, p :: Recorded(now, sid, s, p) <==> Recorded(was, sid, s, p) && !(s == space && p in ps)
    requires StreamsOk(was, caps) && ValidSpace(space)
    ensures Tags(now, sid) == Tags(was, sid) - SpaceTags(space, ps)
    ensures ps == {} ==> Tags(now, sid) == Tags(was, sid)
  {
    hide TagsOf, ValidSpace;
    NoTags();
    var none := Stream("", map[], 0);
    var a := if sid in was then was[sid] else none;
    var b := if sid in now then now[sid] else none;
    assert sid in was ==> StreamOk(was[sid], caps);
    forall s, p
      ensures Subscribes(b, s, p) <==> Subscribes(a, s, p) && !(s == space && p in ps)
    {
      assert Recorded(now, sid, s, p) <==> Subscribes(b, s, p);
      assert Recorded(was, sid, s, p) <==> Subscribes(a, s, p);
    }
    TagsRemove(a, b, space, ps);
  }

  // ---- counting recorders -----------------------------------------------------------------------------------

  lemma RecordersUpdate(streams: Streams, sid: StreamId, st: Stream, space: string, p: string)
    ensures Recorders(streams[sid := st], space, p) ==
            if Subscribes(st, space, p) then Recorders(streams, space, p) + {sid} else Recorders(streams, space, p) - {sid}
    ensures Recorders(streams - {sid}, space, p) == Recorders(streams, space, p) - {sid}
    ensures sid in Recorders(streams, space, p) <==> Recorded(streams, sid, space, p)
  {
  }

  /** Changing one stream changes the number of recorders by what changes for that stream. */
  lemma RecordersCount(streams: Streams, sid: StreamId, st: Stream, space: string, p: string)
    ensures |Recorders(streams[sid := st], space, p)| ==
            |Recorders(streams, space, p)| + (if Subscribes(st, space, p) then 1 else 0) - (if Recorded(streams, sid, space, p) then 1 else 0)
    ensures |Recorders(streams - {sid}, space, p)| ==
            |Recorders(streams, space, p)| - (if Recorded(streams, sid, space, p) then 1 else 0)
  {
    hide Recorders, Recorded, Subscribes;
    RecordersUpdate(streams, sid, st, space, p);
    var before := Recorders(streams, space, p);
    if sid in before {
      assert before == (before - {sid}) + {sid};
    } else {
      assert before - {sid} == before;
    }
  }

  // ---- what one subscribe message records ---------------------------------------------------------------------

  /** The loop of handleSubscribe: known patterns are skipped, and the first new one that meets a full
      stream is rejected with everything after it. */
  function Take(st: Stream, space: string, topics: seq<string>, caps: Caps): (Stream, seq<string>)
    decreases |topics|
  {
    if topics == [] then (st, [])
    else if Subscribes(st, space, topics[0]) then Take(st, space, topics[1..], caps)
    else if Full(st, space, caps) then (st, topics)
    else Take(WithPattern(st, space, topics[0]), space, topics[1..], caps)
  }

  /** The stream records as many patterns of the space, or of all spaces, as it may. */
  ghost predicate AtCap(st: Stream, space: string, caps: Caps) {
    |PatternsIn(st, space)| >= caps.perSpace || |Pairs(st)| >= caps.perStream
  }

  lemma FullIsAtCap(st: Stream, space: string, caps: Caps)
    requires StreamOk(st, caps)
    ensures Full(st, space, caps) <==> AtCap(st, space, caps)
  {
    hide Pairs;
  }

  ghost predicate Taken(st: Stream, space: string, topics: seq<string>, caps: Caps, st': Stream, rejected: seq<string>) {
    && st'.account == st.account
    && |rejected| <= |topics| && topics[|topics| - |rejected|..] == rejected
    && (forall s, p :: Subscribes(st', s, p) <==> Subscribes(st, s, p) || (s == space && p in topics[..|topics| - |rejected|]))
    && (rejected != [] ==> AtCap(st', space, caps) && !Subscribes(st', space, rejected[0]))
  }

  /** What is recorded afterwards is what was recorded before and the topics ahead of the rejected ones;
      something is rejected only when a cap has been reached, and then its first topic was not recorded. */
  lemma {:induction false} TakeMeaning(st: Stream, space: string, topics: seq<string>, caps: Caps)
    requires StreamOk(st, caps) && ValidSpace(space)
    ensures StreamOk(Take(st, space, topics, caps).0, caps)
    ensures Taken(st, space, topics, caps, Take(st, space, topics, caps).0, Take(st, space, topics, caps).1)
    decreases |topics|
  {
    hide StreamOk, ValidSpace, Full, AtCap, Subscribes, WithPattern, Taken;
    if topics == [] {
      TakenNothing(st, space, topics, caps);
    } else if Subscribes(st, space, topics[0]) {
      TakeMeaning(st, space, topics[1..], caps);
      var (st', rejected) := Take(st, space, topics[1..], caps);
      TakenStep(st, st, space, topics, caps, st', rejected);
    } else if Full(st, space, caps) {
      FullIsAtCap(st, space, caps);
      TakenNothing(st, space, topics, caps);
    } else {
      var st1 := WithPattern(st, space, topics[0]);
      WithPatternOk(st, space, topics[0], caps);
      HasWith(st, space, topics[0]);
      TakeMeaning(st1, space, topics[1..], caps);
      var (st', rejected) := Take(st1, space, topics[1..], caps);
      TakenStep(st, st1, space, topics, caps, st', rejected);
    }
  }

  lemma HasWith(st: Stream, space: string, p: string)
    ensures forall s, q :: Subscribes(WithPattern(st, space, p), s, q) <==> Subscribes(st, s, q) || (s == space && q == p)
    ensures WithPattern(st, space, p).account == st.account
  {
  }

  lemma HasWithout(st: Stream, space: string, p: string)
    ensures forall s, q :: Subscribes(WithoutPattern(st, space, p), s, q) <==> Subscribes(st, s, q) && !(s == space && q == p)
  {
    var left := PatternsIn(st, space) - {p};
    assert forall q | q in PatternsIn(st, space) :: q == p || q in left;
  }

  lemma TakenNothing(st: Stream, space: string, topics: seq<string>, caps: Caps)
    requires topics != [] ==> AtCap(st, space, caps) && !Subscribes(st, space, topics[0])
    ensures Taken(st, space, topics, caps, st, topics)
  {
  }

  lemma TakenStep(st: Stream, st1: Stream, space: string, topics: seq<string>, caps: Caps, st': Stream, rejected: seq<string>)
    requires topics != [] && Taken(st1, space, topics[1..], caps, st', rejected) && st1.account == st.account
    requires forall s, q :: Subscribes(st1, s, q) <==> Subscribes(st, s, q) || (s == space && q == topics[0])
    ensures Taken(st, space, topics, caps, st', rejected)
  {
    hide Subscribes, AtCap;
    TakeSplit(topics, |rejected|);
  }

  lemma TakeSplit(topics: seq<string>, k: nat)
    requires 0 < |topics| && k <= |topics| - 1
    ensures topics[|topics| - k..] == topics[1..][|topics| - 1 - k..]
    ensures topics[..|topics| - k] == [topics[0]] + topics[1..][..|topics| - 1 - k]
  {
  }
}
