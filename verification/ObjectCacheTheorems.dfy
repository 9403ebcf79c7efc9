/** What the object cache promises, for every run of any number of threads. */
module ObjectCacheTheorems {
  import opened Options
  import opened ObjectCache
  import opened ObjectCacheProof
  import opened ObjectCacheSteps

  lemma ReachableInv(s: State)
    requires Reachable(s)
    ensures Inv(s)
  {
    var actions :| Run(actions) == Some(s);
    RunKeeps(actions);
  }

  // ---- objects ----------------------------------------------------------------------------------------

  /** Where an unclosed object is: in the entry the map holds for its id, or in the hands of a load. */
  lemma UnclosedPlace(s: State, o: Obj)
    requires Inv(s) && o in s.objs && s.objs[o].closes == 0
    ensures s.objs[o].holder.InEntry? ==>
              var e := s.objs[o].holder.e;
              e in s.entries && s.objs[o].id in s.data && s.data[s.objs[o].id] == e && s.entries[e].value == Some(o)
    ensures s.objs[o].holder.WithLoader? ==>
              var t := s.objs[o].holder.t;
              HasInHand(PcOf(s, t), o) && PcOf(s, t).id == s.objs[o].id && ThreadOk(s, t)
  {
    hide Inv, GlobalOk, DataOk;
    AtObj(s, o);
    match s.objs[o].holder
    case InEntry(e) => AtEntry(s, e);
    case WithLoader(t) => AtThread(s, t);
  }

  /** A load whose result is not recorded yet has its entry in the map. */
  lemma PendingInMap(s: State, t: Tid, id: Id, e: Ref)
    requires Inv(s) && LoadPending(s, t, id, e)
    ensures id in s.data && s.data[id] == e && s.entries[e].value == None
  {
    AtEntry(s, e);
  }

  /** At most one unclosed object exists per id. */
  lemma OneObjectPerId(s: State, o: Obj, p: Obj)
    requires Reachable(s) && o in s.objs && p in s.objs
    requires s.objs[o].id == s.objs[p].id && s.objs[o].closes == 0 && s.objs[p].closes == 0
    ensures o == p
  {
    hide Inv;
    ReachableInv(s);
    UnclosedPlace(s, o);
    UnclosedPlace(s, p);
    if s.objs[o].holder.WithLoader? {
      InHandCases(s, o);
    }
    if s.objs[p].holder.WithLoader? {
      InHandCases(s, p);
    }
    if s.objs[o].holder.WithLoader? && s.objs[p].holder.WithLoader? {
      SameHand(s, s.objs[o].holder.t, s.objs[p].holder.t, o, p);
    }
  }

  lemma InHandCases(s: State, o: Obj)
    requires Inv(s) && o in s.objs && s.objs[o].closes == 0 && s.objs[o].holder.WithLoader?
    ensures var pc := PcOf(s, s.objs[o].holder.t);
            if pc.LoadDone? then s.objs[o].id in s.data && s.data[s.objs[o].id] in s.entries && s.entries[s.data[s.objs[o].id]].value == None
            else s.objs[o].id !in s.data
  {
    hide Inv;
    UnclosedPlace(s, o);
    var t := s.objs[o].holder.t;
    if PcOf(s, t).LoadDone? {
      PendingInMap(s, t, PcOf(s, t).id, PcOf(s, t).e);
    }
  }

  lemma SameHand(s: State, t: Tid, u: Tid, o: Obj, p: Obj)
    requires Inv(s) && HasInHand(PcOf(s, t), o) && HasInHand(PcOf(s, u), p) && PcOf(s, t).id == PcOf(s, u).id
    ensures t == u && o == p
  {
    hide Inv, EntryOk, DataOk, ObjOk;
    InvParts(s, t);
    InvParts(s, u);
    var a, b := PcOf(s, t), PcOf(s, u);
    if a.LoadDone? {
      PendingInMap(s, t, a.id, a.e);
    }
    if b.LoadDone? {
      PendingInMap(s, u, b.id, b.e);
    }
  }

  /** At most one load function runs per id. */
  lemma OneLoadPerId(s: State, t: Tid, u: Tid)
    requires Reachable(s) && PcOf(s, t).LoadRun? && PcOf(s, u).LoadRun? && PcOf(s, t).id == PcOf(s, u).id
    ensures t == u
  {
    hide Inv;
    ReachableInv(s);
    AtThread(s, t);
    AtThread(s, u);
    PendingInMap(s, t, PcOf(s, t).id, PcOf(s, t).e);
    PendingInMap(s, u, PcOf(s, u).id, PcOf(s, u).e);
  }

  /** No object is closed twice, and no channel is. */
  lemma ClosedAtMostOnce(s: State, o: Obj)
    requires Reachable(s) && o in s.objs
    ensures s.objs[o].closes <= 1 && !s.doubleClose
  {
    hide Inv;
    ReachableInv(s);
    AtObj(s, o);
    AtThread(s, 0);
  }

  /** Whoever is about to close a channel finds it open. */
  lemma ChannelsOpenUntilClosed(s: State, t: Tid)
    requires Reachable(s)
    ensures PcOf(s, t).LoadRelease? ==> PcOf(s, t).e in s.entries && !s.entries[PcOf(s, t).e].loaded
    ensures PcOf(s, t).TryDeclined? || PcOf(s, t).Finalize? ==> PcOf(s, t).e in s.entries && s.entries[PcOf(s, t).e].open
  {
    hide Inv;
    ReachableInv(s);
    AtThread(s, t);
    var pc := PcOf(s, t);
    if pc.LoadRelease? || pc.TryDeclined? || pc.Finalize? {
      AtEntry(s, pc.e);
    }
  }

  // ---- entries ------------------------------------------------------------------------------------------

  /** A closing entry has exactly one owner, and only closing entries have one. */
  lemma ExclusiveOwner(s: State, e: Ref)
    requires Reachable(s) && e in s.entries
    ensures s.entries[e].state == Closing <==> exists t :: Owns(PcOf(s, t), e)
    ensures forall t, u :: Owns(PcOf(s, t), e) && Owns(PcOf(s, u), e) ==> t == u
  {
    hide Inv;
    ReachableInv(s);
    AtEntry(s, e);
    forall t: Tid | Owns(PcOf(s, t), e)
      ensures s.entries[e].state == Closing && s.entries[e].closer == Some(t)
    {
      AtThread(s, t);
    }
  }

  /** The map holds every active or closing entry under its id, and never a closed one. */
  lemma MapHoldsLive(s: State, e: Ref)
    requires Reachable(s) && e in s.entries
    ensures s.entries[e].state == Active || s.entries[e].state == Closing ==>
              s.entries[e].id in s.data && s.data[s.entries[e].id] == e
    ensures s.entries[e].state == Closed ==> e !in s.data.Values
  {
    hide Inv;
    ReachableInv(s);
    AtEntry(s, e);
    forall id | id in s.data
      ensures s.data[id] in s.entries && s.entries[s.data[id]].state != Closed
    {
      AtData(s, id);
    }
  }

  // ---- callers ------------------------------------------------------------------------------------------

  /** A caller gets exactly one of a value and an error. */
  lemma ValueOrError(s: State, t: Tid)
    requires Reachable(s) && PcOf(s, t).GotBack?
    ensures PcOf(s, t).value.Some? <==> PcOf(s, t).err == None
  {
    ReachableInv(s);
    AtThread(s, t);
  }

  /** The value Get returns is an object loaded or added for the id that was asked for. */
  lemma GetReturnsItsId(s: State, t: Tid, a: Action, s': State, o: Obj)
    requires Reachable(s) && Next(s, a) == Some(s') && a.t == t && (a.GetLoaded? || a.ReleaseLoad?)
    requires PcOf(s', t).GotBack? && PcOf(s', t).value == Some(o)
    ensures o in s.objs && s.objs[o].id == PcOf(s, t).id
  {
    hide Inv;
    ReachableInv(s);
    AtThread(s, t);
    AtEntry(s, PcOf(s, t).e);
  }

  /** RemoveSame closes the instance it was given and no other object. */
  lemma RemoveSameClosesItsOwn(s: State, t: Tid, s': State, o: Obj)
    requires Reachable(s) && DoCallClose(s, t) == Some(s') && PcOf(s, t).next == Finish(Some(o))
    ensures o in s.objs && s.objs[o].closes == 0 && s'.objs == s.objs[o := s.objs[o].(closes := 1)]
  {
    hide Inv;
    ReachableInv(s);
    AtThread(s, t);
  }

  /** The last step of thread t in the run, at position i, finalized an entry on behalf of a removal call. */
  ghost predicate RemovedAt(actions: seq<Action>, t: Tid, i: nat) {
    && i < |actions| && actions[i] == CloseAndDelete(t)
    && (forall j | i < j < |actions| :: actions[j].t != t)
    && Run(actions[..i]).Some?
    && var pc := PcOf(Run(actions[..i]).value, t); pc.Finalize? && pc.next.Finish?
  }

  /** Another thread's step leaves the last step of t where it was. */
  lemma OtherStepAfter(actions: seq<Action>, t: Tid, i: nat)
    requires actions != [] && actions[|actions| - 1].t != t
    ensures RemovedAt(actions, t, i) <==> RemovedAt(actions[..|actions| - 1], t, i)
  {
    hide Run;
    var before := actions[..|actions| - 1];
    if i < |before| {
      assert before[..i] == actions[..i];
      assert forall j | i < j < |before| :: before[j] == actions[j];
    }
  }

  lemma OwnStepLast(actions: seq<Action>, t: Tid, i: nat)
    requires actions != [] && actions[|actions| - 1].t == t && RemovedAt(actions, t, i)
    ensures i == |actions| - 1
  {
    hide Run;
  }

  /** Remove, RemoveSame and TryRemove report success exactly when the call itself finalized the entry. */
  lemma {:induction false} SuccessIffRemoved(actions: seq<Action>, t: Tid)
    requires Run(actions).Some?
    ensures PcOf(Run(actions).value, t) == Returned(true) <==> exists i: nat :: RemovedAt(actions, t, i)
    decreases |actions|
  {
    if actions != [] {
      hide Next, RemovedAt;
      var n := |actions| - 1;
      var before, a := actions[..n], actions[n];
      SuccessIffRemoved(before, t);
      EveryStep(Run(before).value, a, Run(actions).value);
      if a.t == t {
        RemovedNow(actions, t);
        forall i: nat | RemovedAt(actions, t, i)
          ensures i == n
        {
          OwnStepLast(actions, t, i);
        }
      } else {
        forall i: nat
          ensures RemovedAt(actions, t, i) <==> RemovedAt(before, t, i)
        {
          OtherStepAfter(actions, t, i);
        }
      }
    }
  }

  lemma RemovedNow(actions: seq<Action>, t: Tid)
    requires actions != [] && actions[|actions| - 1].t == t && Run(actions[..|actions| - 1]).Some?
    ensures var n: nat := |actions| - 1;
            RemovedAt(actions, t, n) <==>
            actions[n] == CloseAndDelete(t) && var pc := PcOf(Run(actions[..n]).value, t); pc.Finalize? && pc.next.Finish?
  {
    hide Run;
  }

  /** A Get call retries an aborted load at most three times. */
  lemma {:induction false} RetriesBounded(actions: seq<Action>, t: Tid)
    requires Run(actions).Some?
    ensures Retries(PcOf(Run(actions).value, t)) <= MaxLoadRetries
    decreases |actions|
  {
    if actions != [] {
      hide Next, Retries;
      var before, a := actions[..|actions| - 1], actions[|actions| - 1];
      RetriesBounded(before, t);
      EveryStep(Run(before).value, a, Run(actions).value);
    }
  }

  // ---- Close leaves nothing behind -------------------------------------------------------------------------

  ghost predicate Quiescent(s: State) {
    forall t :: Resting(PcOf(s, t))
  }

  /** When every thread of a closed cache has finished, an object is unclosed exactly when it sits in
      an entry the pass gave up on; every other object has been closed once. */
  lemma LeakIffAbandoned(s: State, o: Obj)
    requires Reachable(s) && s.closed && Quiescent(s) && o in s.objs
    ensures s.objs[o].closes == 0 <==> s.objs[o].holder.InEntry? && s.objs[o].holder.e in s.abandoned
    ensures s.objs[o].closes <= 1
  {
    hide Inv, DataOk;
    ReachableInv(s);
    InvParts(s, 0);
    assert ObjOk(s, o);
    match s.objs[o].holder
    case InEntry(e) => AtEntry(s, e);
    case WithLoader(t) => assert Resting(PcOf(s, t));
  }

  /** Action i of the run makes the pass of Close give up on e between publish and release. */
  ghost predicate GaveUpAt(actions: seq<Action>, i: int, e: Ref) {
    && 0 <= i < |actions| && Run(actions[..i]).Some?
    && GivesUpInWindow(Run(actions[..i]).value, actions[i]) && PcOf(Run(actions[..i]).value, actions[i].t).e == e
  }

  /** Action i of the run acquires the closing transition of e. */
  ghost predicate AcquiredAt(actions: seq<Action>, i: int, e: Ref) {
    && 0 <= i < |actions| && Run(actions[..i]).Some?
    && Acquires(Run(actions[..i]).value, actions[i]) && PcOf(Run(actions[..i]).value, actions[i].t).e == e
  }

  /** The pass gave up on e at action i and nobody has acquired it since. */
  ghost predicate LeftSince(actions: seq<Action>, i: int, e: Ref) {
    GaveUpAt(actions, i, e) && forall j | i < j < |actions| :: !AcquiredAt(actions, j, e)
  }

  lemma SameBefore(actions: seq<Action>, i: int, e: Ref)
    requires 0 <= i < |actions| - 1
    ensures GaveUpAt(actions, i, e) <==> GaveUpAt(actions[..|actions| - 1], i, e)
    ensures AcquiredAt(actions, i, e) <==> AcquiredAt(actions[..|actions| - 1], i, e)
  {
    hide Run, GivesUpInWindow, Acquires;
    assert actions[..|actions| - 1][..i] == actions[..i];
  }

  lemma LeftIsIndex(actions: seq<Action>, i: int, e: Ref)
    requires LeftSince(actions, i, e)
    ensures 0 <= i < |actions|
  {
  }

  lemma LeftBefore(actions: seq<Action>, i: int, e: Ref)
    requires 0 <= i < |actions| - 1
    ensures LeftSince(actions, i, e) <==>
              LeftSince(actions[..|actions| - 1], i, e) && !AcquiredAt(actions, |actions| - 1, e)
  {
    hide GaveUpAt, AcquiredAt;
    var n := |actions| - 1;
    var before := actions[..n];
    SameBefore(actions, i, e);
    forall j | i < j < n
      ensures AcquiredAt(actions, j, e) <==> AcquiredAt(before, j, e)
    {
      SameBefore(actions, j, e);
    }
    if LeftSince(actions, i, e) {
      assert !AcquiredAt(actions, n, e);
    } else if GaveUpAt(actions, i, e) {
      var j :| i < j < |actions| && AcquiredAt(actions, j, e);
      assert j < n ==> AcquiredAt(before, j, e);
    }
  }

  /** What the last action does to e. */
  lemma LastAbandons(actions: seq<Action>, e: Ref)
    requires Run(actions).Some? && actions != []
    ensures var n := |actions| - 1;
            && Run(actions[..n]).Some?
            && (e in Run(actions).value.abandoned <==>
                GaveUpAt(actions, n, e) || (e in Run(actions[..n]).value.abandoned && !AcquiredAt(actions, n, e)))
  {
    hide Next, GivesUpInWindow, Acquires;
    var n := |actions| - 1;
    var s := Run(actions[..n]).value;
    EveryStep(s, actions[n], Run(actions).value);
    NotBoth(s, actions[n]);
  }

  lemma NotBoth(s: State, a: Action)
    ensures !(GivesUpInWindow(s, a) && Acquires(s, a))
  {
  }

  lemma NoneLeft(e: Ref)
    ensures forall i :: !LeftSince([], i, e)
  {
  }

  lemma LeftStep(actions: seq<Action>, e: Ref)
    requires actions != []
    ensures var n := |actions| - 1;
            (exists i :: LeftSince(actions, i, e)) <==>
              GaveUpAt(actions, n, e) || ((exists i :: LeftSince(actions[..n], i, e)) && !AcquiredAt(actions, n, e))
  {
    hide GaveUpAt, AcquiredAt;
    var n := |actions| - 1;
    var before := actions[..n];
    if i :| LeftSince(actions, i, e) {
      LeftIsIndex(actions, i, e);
      if i < n {
        LeftBefore(actions, i, e);
        assert LeftSince(before, i, e);
      }
    }
    if GaveUpAt(actions, n, e) {
      assert LeftSince(actions, n, e);
    } else if i :| LeftSince(before, i, e) {
      LeftIsIndex(before, i, e);
      LeftBefore(actions, i, e);
    }
  }

  /** An entry counts as given up on exactly when some action of the run left it so. */
  lemma {:induction false} AbandonedIff(actions: seq<Action>, e: Ref)
    requires Run(actions).Some?
    ensures e in Run(actions).value.abandoned <==> exists i :: LeftSince(actions, i, e)
    decreases |actions|
  {
    hide Next, GaveUpAt, AcquiredAt, LeftSince;
    if actions == [] {
      NoneLeft(e);
    } else {
      LastAbandons(actions, e);
      LeftStep(actions, e);
      AbandonedIff(actions[..|actions| - 1], e);
    }
  }

  /** When every thread of a closed cache has finished, an object is unclosed exactly when the pass of Close
      gave up on its entry between publish and release and no one has acquired the entry since. */
  lemma LeakIffGivenUp(actions: seq<Action>, o: Obj)
    requires Run(actions).Some?
    requires var s := Run(actions).value; s.closed && Quiescent(s) && o in s.objs
    ensures var info := Run(actions).value.objs[o];
            info.closes == 0 <==> info.holder.InEntry? && exists i :: LeftSince(actions, i, info.holder.e)
  {
    var s := Run(actions).value;
    hide Run, LeftSince;
    assert Reachable(s);
    LeakIffAbandoned(s, o);
    if s.objs[o].holder.InEntry? {
      AbandonedIff(actions, s.objs[o].holder.e);
    }
  }

  /** The entries left in the map of such a cache are the ones given up on. */
  lemma LeftInMap(s: State, id: Id)
    requires Reachable(s) && s.closed && Quiescent(s) && id in s.data
    ensures s.data[id] in s.abandoned
  {
    hide Inv;
    ReachableInv(s);
    AtData(s, id);
    AtEntry(s, s.data[id]);
  }

  /** The pass of Close never gives up between publish and release. */
  ghost predicate SparesWindow(actions: seq<Action>) {
    forall i | 0 <= i < |actions| && Run(actions[..i]).Some? :: !GivesUpInWindow(Run(actions[..i]).value, actions[i])
  }

  lemma {:induction false} NothingAbandoned(actions: seq<Action>)
    requires Run(actions).Some? && SparesWindow(actions)
    ensures Run(actions).value.abandoned == {}
    decreases |actions|
  {
    if actions != [] {
      var n := |actions| - 1;
      var before := actions[..n];
      assert forall i | 0 <= i < n :: before[..i] == actions[..i];
      NothingAbandoned(before);
      EveryStep(Run(before).value, actions[n], Run(actions).value);
    }
  }

  /** Then every object ever loaded or added has been closed exactly once when all threads finish. */
  lemma NoLeak(actions: seq<Action>, o: Obj)
    requires Run(actions).Some? && SparesWindow(actions)
    requires var s := Run(actions).value; s.closed && Quiescent(s) && o in s.objs
    ensures Run(actions).value.objs[o].closes == 1
  {
    NothingAbandoned(actions);
    assert Reachable(Run(actions).value);
    LeakIffAbandoned(Run(actions).value, o);
  }

  // ---- the window is real --------------------------------------------------------------------------------

  /** Thread 1 loads and publishes; before it releases its waiters thread 2 runs Close with a deadline
      that is already spent. */
  const LeakingRun: seq<Action> :=
    [StartGet(1, "a"), LockForGet(1, 0), CheckClosing(1), LoadReturns(1, Loaded(0), false), LoadCommit(1),
     StartClose(2, [0]), TimeoutRemove(2), ReleaseLoad(1, true)]

  /** The state after i actions of that run. */
  function LeakState(i: nat): State
    requires i <= 8
  {
    var en := NewEntry("a", 1);
    if i == 0 then Initial
    else
      State(i >= 6,
            if i < 2 then map[] else map["a" := 0],
            if i < 2 then map[]
            else if i < 5 then map[0 := en]
            else map[0 := en.(value := Some(0), state := Active, loaded := i == 8, loader := if i == 8 then None else Some(1))],
            if i < 4 then map[] else map[0 := ObjInfo("a", 0, if i == 4 then WithLoader(1) else InEntry(0))],
            if i < 6 then map[1 := LoaderAt(i)] else map[1 := LoaderAt(i), 2 := if i == 6 then RemWait(0, Pass([])) else Returned(false)],
            if i < 6 then None else Some(2),
            if i < 7 then {} else {0},
            false)
  }

  function LoaderAt(i: nat): Pc
    requires 0 < i <= 8
  {
    if i == 1 then GetLock("a", 0)
    else if i == 2 then GetEntry("a", 0, true, 0)
    else if i == 3 then LoadRun("a", 0, 0)
    else if i == 4 then LoadDone("a", 0, 0, Loaded(0), false)
    else if i < 8 then LoadRelease("a", 0, 0, false)
    else GotBack(Some(0), None)
  }

  lemma LeakOpens(i: nat)
    requires i < 5
    ensures Next(LeakState(i), LeakingRun[i]) == Some(LeakState(i + 1))
  {
    var next, expected := Next(LeakState(i), LeakingRun[i]).value, LeakState(i + 1);
    assert next.data == expected.data;
    assert next.entries == expected.entries;
    assert next.objs == expected.objs;
    assert next.threads == expected.threads;
  }

  lemma LeakStartsClose()
    ensures DoStartClose(LeakState(5), 2, [0]) == Some(LeakState(6))
  {
    var s := LeakState(5);
    assert s.data["a"] == 0 && s.data.Values == {0};
    var order: seq<Ref> := [0];
    assert (set e | e in order) == {0} && order[1..] == [];
    assert Continue(Pass(order)) == RemWait(0, Pass([]));
    assert At(s, 2, Continue(Pass(order))).threads == LeakState(6).threads;
  }

  lemma LeakGivesUp()
    ensures DoTimeoutRemove(LeakState(6), 2) == Some(LeakState(7))
  {
    assert At(LeakState(6), 2, Returned(false)).threads == LeakState(7).threads;
    assert LeakState(6).abandoned + {0} == LeakState(7).abandoned;
  }

  lemma LeakReleases()
    ensures DoReleaseLoad(LeakState(7), 1, true) == Some(LeakState(8))
  {
    var s := LeakState(7);
    assert At(s, 1, GotBack(Some(0), None)).threads == LeakState(8).threads;
    assert s.entries[0 := s.entries[0].(loaded := true, loader := None)] == LeakState(8).entries;
  }

  lemma LeakStep(i: nat)
    requires i < 8
    ensures Next(LeakState(i), LeakingRun[i]) == Some(LeakState(i + 1))
  {
    hide LeakState, DoStartClose, DoTimeoutRemove, DoReleaseLoad;
    if i < 5 {
      LeakOpens(i);
    } else if i == 5 {
      LeakStartsClose();
    } else if i == 6 {
      LeakGivesUp();
    } else {
      LeakReleases();
    }
  }

  lemma {:induction false} LeakPrefix(i: nat)
    requires i <= 8
    ensures Run(LeakingRun[..i]) == Some(LeakState(i))
  {
    if i > 0 {
      hide LeakState, Next;
      LeakPrefix(i - 1);
      assert LeakingRun[..i][..i - 1] == LeakingRun[..i - 1];
      LeakStep(i - 1);
    }
  }

  /** The pass may give up on a value that no other path is going to close. */
  lemma CloseMayLeak()
    ensures Run(LeakingRun).Some?
    ensures var s := Run(LeakingRun).value; s.closed && Quiescent(s) && 0 in s.objs && s.objs[0].closes == 0
  {
    LeakPrefix(8);
    assert LeakingRun[..8] == LeakingRun;
  }

  // ---- nobody is stuck ------------------------------------------------------------------------------------

  /** The action carries on a call that is under way, without giving up on a deadline. */
  predicate Advances(a: Action) {
    !(a.StartGet? || a.StartPick? || a.StartRemove? || a.StartRemoveSame? || a.StartTryRemove? || a.StartGC? ||
      a.StartClose? || a.Add? || a.TimeoutGet? || a.TimeoutPick? || a.TimeoutRemove?)
  }

  predicate Waits(s: State, pc: Pc) {
    match pc
    case GetParked(_, e, gen, _) => e in s.entries && !ChannelClosed(s.entries[e], gen)
    case RemParked(e, gen, _) => e in s.entries && !ChannelClosed(s.entries[e], gen)
    case GetWait(_, e, _) => e in s.entries && !s.entries[e].loaded
    case PickWait(e) => e in s.entries && !s.entries[e].loaded
    case RemWait(e, _) => e in s.entries && !s.entries[e].loaded
    case _ => false
  }

  /** Who t waits for: the owner of the closing transition, the thread that runs the load, or nobody. */
  function WaitsFor(s: State, t: Tid): Option<Tid> {
    var pc := PcOf(s, t);
    if !Waits(s, pc) then Some(t)
    else if pc.GetParked? || pc.RemParked? then s.entries[pc.e].closer
    else s.entries[pc.e].loader
  }

  /** A deadline ends a wait: a thread that waits can give up, and one whose load has completed cannot. */
  lemma DeadlineEndsWait(s: State, t: Tid)
    requires Reachable(s)
    ensures var pc := PcOf(s, t);
            && (pc.GetParked? || (pc.GetWait? && Waits(s, pc)) <==> Next(s, TimeoutGet(t)).Some?)
            && (pc.PickWait? && Waits(s, pc) <==> Next(s, TimeoutPick(t)).Some?)
            && (pc.RemParked? || (pc.RemWait? && Waits(s, pc)) <==> Next(s, TimeoutRemove(t)).Some?)
  {
    hide Inv, Continue, At;
    ReachableInv(s);
    AtThread(s, t);
  }

  lemma {:induction false} UnusedRef(used: set<Ref>) returns (r: Ref)
    ensures r !in used
  {
    var n: nat := 0;
    var rest := used;
    while rest != {}
      invariant rest <= used
      invariant forall e | e in used && e !in rest :: e < n
      decreases |rest|
    {
      var e :| e in rest;
      rest := rest - {e};
      n := if n <= e then e + 1 else n;
    }
    r := n;
  }

  predicate Reading(pc: Pc) {
    pc.GetLock? || pc.GetEntry? || pc.GetParked? || pc.GetWait? || pc.LoadRun? || pc.LoadDone? || pc.LoadDiscard? || pc.LoadRelease? || pc.PickWait?
  }

  lemma ReaderCanStep(s: State, t: Tid) returns (a: Action)
    requires Inv(s) && Reading(PcOf(s, t)) && !Waits(s, PcOf(s, t))
    ensures a.t == t && Advances(a) && Next(s, a).Some?
  {
    hide Inv, Continue, AfterLoad, Commit;
    AtThread(s, t);
    match PcOf(s, t)
    case GetLock(_, _) =>
      var r := UnusedRef(s.entries.Keys);
      a := LockForGet(t, r);
    case GetEntry(_, _, _, _) => a := CheckClosing(t);
    case GetParked(_, _, _, _) => a := WakeGet(t);
    case GetWait(_, _, _) => a := GetLoaded(t, true);
    case LoadRun(_, _, _) => a := LoadReturns(t, Refused, false);
    case LoadDone(_, _, _, _, _) => a := LoadCommit(t);
    case LoadDiscard(_, _, _, _) => a := DiscardValue(t);
    case LoadRelease(_, _, _, _) => a := ReleaseLoad(t, true);
    case PickWait(_) => a := PickLoaded(t);
  }

  lemma OwnerCanStep(s: State, t: Tid) returns (a: Action)
    requires Inv(s) && (PcOf(s, t).TryAsk? || PcOf(s, t).TryDeclined? || PcOf(s, t).CloseValue? || PcOf(s, t).Finalize?)
    ensures a.t == t && Advances(a) && Next(s, a).Some?
  {
    hide Inv, Continue, Finished, CloseOnce;
    AtThread(s, t);
    match PcOf(s, t)
    case TryAsk(_, _) => a := CallTryClose(t, false);
    case TryDeclined(_, _) => a := Decline(t);
    case CloseValue(_, _) => a := CallClose(t);
    case Finalize(_, _) => a := CloseAndDelete(t);
  }

  lemma RemoverCanStep(s: State, t: Tid) returns (a: Action)
    requires Inv(s) && !Resting(PcOf(s, t)) && !Reading(PcOf(s, t)) && !Waits(s, PcOf(s, t))
    ensures a.t == t && Advances(a) && Next(s, a).Some?
  {
    hide Inv, Continue, AfterLoad, Commit, Acquired;
    AtThread(s, t);
    match PcOf(s, t)
    case RemWait(_, _) => a := RemoveLoaded(t);
    case RemAcquire(_, _) => a := AcquireClosing(t);
    case RemParked(_, _, _) => a := WakeRemove(t);
    case TryAcquire(_, _) => a := TryAcquireClosing(t);
    case _ => a := OwnerCanStep(s, t);
  }

  /** A thread in the middle of a call that does not wait can take a step. */
  lemma CanStep(s: State, t: Tid) returns (a: Action)
    requires Inv(s) && !Resting(PcOf(s, t)) && !Waits(s, PcOf(s, t))
    ensures a.t == t && Advances(a) && Next(s, a).Some?
  {
    if Reading(PcOf(s, t)) {
      a := ReaderCanStep(s, t);
    } else {
      a := RemoverCanStep(s, t);
    }
  }

  /** No waiter is left behind: whoever it waits for is in the middle of a call and can take a step. */
  lemma NoLostWakeup(s: State, t: Tid) returns (a: Action)
    requires Reachable(s) && !Resting(PcOf(s, t))
    ensures WaitsFor(s, t) == Some(a.t) && Advances(a) && Next(s, a).Some?
  {
    hide Inv, Next;
    ReachableInv(s);
    AtThread(s, t);
    if Waits(s, PcOf(s, t)) {
      AtEntry(s, PcOf(s, t).e);
      a := CanStep(s, WaitsFor(s, t).value);
    } else {
      a := CanStep(s, t);
    }
  }
}
