/** Every call of the object cache ends: carrying on the calls under way takes a bounded number of steps, and
    until all of them have returned some step without a deadline is possible. */
module ObjectCacheProgress {
  import opened Options
  import opened Geometry
  import opened ObjectCache
  import opened ObjectCacheProof
  import opened ObjectCacheSteps
  import opened ObjectCacheTheorems

  /** The action carries on a call that is under way; deadlines may pass. */
  predicate CarriesOn(a: Action) {
    Advances(a) || a.TimeoutGet? || a.TimeoutPick? || a.TimeoutRemove?
  }

  // ---- the measure ------------------------------------------------------------------------------------------

  function Remaining(next: Then): nat {
    match next
    case Finish(_) => 0
    case Pass(rest) => |rest|
    case Sweep(rest) => |rest|
  }

  /** How many closing transitions the call can still begin and end. */
  function Events(pc: Pc): nat {
    match pc
    case RemWait(_, next) => 2 + 2 * Remaining(next)
    case RemAcquire(_, next) => 2 + 2 * Remaining(next)
    case RemParked(_, _, next) => 2 + 2 * Remaining(next)
    case TryAcquire(_, next) => 2 + 2 * Remaining(next)
    case TryAsk(_, next) => 1 + 2 * Remaining(next)
    case TryDeclined(_, next) => 1 + 2 * Remaining(next)
    case CloseValue(_, next) => 1 + 2 * Remaining(next)
    case Finalize(_, next) => 1 + 2 * Remaining(next)
    case _ => 0
  }

  predicate Gone(s: State, e: Ref) {
    e in s.entries ==> s.entries[e].state == Closed
  }

  predicate Woken(s: State, e: Ref, gen: nat) {
    e in s.entries ==> ChannelClosed(s.entries[e], gen)
  }

  function RetriesLeft(retries: nat): nat {
    if retries <= MaxLoadRetries then MaxLoadRetries - retries else 0
  }

  const MaxRank := 73

  /** How far the call is from its end when no closing transition begins or ends.  A thread that has been
      woken, or whose entry has been finalized, has to start over. */
  function Rank(s: State, pc: Pc): (r: nat)
    ensures r <= MaxRank
  {
    match pc
    case GetLock(_, n) => 20 * RetriesLeft(n) + 12
    case GetEntry(_, e, _, n) => 20 * RetriesLeft(n) + if Gone(s, e) then 13 else 11
    case GetParked(_, e, gen, n) => 20 * RetriesLeft(n) + if Woken(s, e, gen) then 13 else 5
    case GetWait(_, _, n) => 20 * RetriesLeft(n) + 5
    case LoadRun(_, _, n) => 20 * RetriesLeft(n) + 10
    case LoadDone(_, _, n, _, _) => 20 * RetriesLeft(n) + 9
    case LoadDiscard(_, _, n, _) => 20 * RetriesLeft(n) + 8
    case LoadRelease(_, _, n, _) => 20 * RetriesLeft(n) + 7
    case RemWait(_, _) => 6
    case RemAcquire(_, _) => 5
    case RemParked(e, gen, _) => if Woken(s, e, gen) then 6 else 4
    case TryAsk(_, _) => 4
    case TryDeclined(_, _) => 3
    case CloseValue(_, _) => 2
    case PickWait(_) => 1
    case TryAcquire(_, _) => 1
    case Finalize(_, _) => 1
    case _ => 0
  }

  /** No entry is finalized and nobody is woken. */
  ghost predicate Undisturbed(s: State, s': State) {
    && (forall e :: Gone(s', e) ==> Gone(s, e))
    && (forall e, gen :: Woken(s', e, gen) ==> Woken(s, e, gen))
  }

  lemma RankKept(s: State, s': State, pc: Pc)
    requires Undisturbed(s, s')
    ensures Rank(s', pc) <= Rank(s, pc)
  {
    hide Gone, Woken, RetriesLeft;
  }

  lemma SameEntries(s: State, s': State)
    requires s'.entries == s.entries
    ensures Undisturbed(s, s')
  {
  }

  /** Only entry e is touched, and neither finalized nor its close channel closed. */
  lemma SameButOne(s: State, s': State, e: Ref)
    requires e in s.entries && e in s'.entries && s'.entries == s.entries[e := s'.entries[e]]
    requires s'.entries[e].state == Closed ==> s.entries[e].state == Closed
    requires s'.entries[e].gen == s.entries[e].gen && s'.entries[e].open == s.entries[e].open
    ensures Undisturbed(s, s')
  {
  }

  lemma ContinueEvents(next: Then)
    ensures Events(Continue(next)) == 2 * Remaining(next) == Events(Finished(next))
  {
  }

  // ---- one step -------------------------------------------------------------------------------------------------

  /** The call gets nearer to its end: a closing transition begins, ends or is passed over, or the rank falls
      and nobody is disturbed. */
  ghost predicate Nearer(s: State, t: Tid, s': State) {
    var pc, pc' := PcOf(s, t), PcOf(s', t);
    || Events(pc') < Events(pc)
    || (Events(pc') == Events(pc) && Rank(s', pc') < Rank(s, pc) && Undisturbed(s, s'))
  }

  lemma LockForGetNearer(s: State, t: Tid, newRef: Ref, s': State)
    requires Inv(s) && DoLockForGet(s, t, newRef) == Some(s')
    ensures Nearer(s, t, s')
  {
    hide Inv;
    var pc := PcOf(s, t);
    if pc.id in s.data {
      AtData(s, pc.id);
    }
  }

  lemma CheckClosingNearer(s: State, t: Tid, s': State)
    requires Inv(s) && DoCheckClosing(s, t) == Some(s')
    ensures Nearer(s, t, s')
  {
    hide Inv, ValueOk;
    AtEntry(s, PcOf(s, t).e);
    SameEntries(s, s');
  }

  lemma WakeGetNearer(s: State, t: Tid, s': State)
    requires DoWakeGet(s, t) == Some(s')
    ensures Nearer(s, t, s')
  {
    SameEntries(s, s');
  }

  lemma TimeoutGetNearer(s: State, t: Tid, s': State)
    requires DoTimeoutGet(s, t) == Some(s')
    ensures Nearer(s, t, s')
  {
    SameEntries(s, s');
  }

  lemma LoadReturnsNearer(s: State, t: Tid, outcome: LoadOutcome, aborted: bool, s': State)
    requires DoLoadReturns(s, t, outcome, aborted) == Some(s')
    ensures Nearer(s, t, s')
  {
    SameEntries(s, s');
  }

  lemma LoadCommitNearer(s: State, t: Tid, s': State)
    requires DoLoadCommit(s, t) == Some(s')
    ensures Nearer(s, t, s')
  {
    hide Commit, Undisturbed;
    CommitMoves(s, t, PcOf(s, t));
    SameButOne(s, s', PcOf(s, t).e);
  }

  lemma DiscardValueNearer(s: State, t: Tid, s': State)
    requires DoDiscardValue(s, t) == Some(s')
    ensures Nearer(s, t, s')
  {
    SameEntries(s, s');
  }

  lemma ReleaseLoadNearer(s: State, t: Tid, ctxAlive: bool, s': State)
    requires DoReleaseLoad(s, t, ctxAlive) == Some(s')
    ensures Nearer(s, t, s')
  {
    SameButOne(s, s', PcOf(s, t).e);
  }

  lemma GetLoadedNearer(s: State, t: Tid, ctxAlive: bool, s': State)
    requires DoGetLoaded(s, t, ctxAlive) == Some(s')
    ensures Nearer(s, t, s')
  {
    SameEntries(s, s');
  }

  lemma PickLoadedNearer(s: State, t: Tid, s': State)
    requires DoPickLoaded(s, t) == Some(s')
    ensures Nearer(s, t, s')
  {
    SameEntries(s, s');
  }

  lemma TimeoutPickNearer(s: State, t: Tid, s': State)
    requires DoTimeoutPick(s, t) == Some(s')
    ensures Nearer(s, t, s')
  {
    SameEntries(s, s');
  }

  lemma RemoveLoadedNearer(s: State, t: Tid, s': State)
    requires DoRemoveLoaded(s, t) == Some(s')
    ensures Nearer(s, t, s')
  {
    hide Continue;
    SameEntries(s, s');
    ContinueEvents(PcOf(s, t).next);
  }

  lemma TimeoutRemoveNearer(s: State, t: Tid, s': State)
    requires DoTimeoutRemove(s, t) == Some(s')
    ensures Nearer(s, t, s')
  {
    hide Continue;
    ContinueEvents(PcOf(s, t).next);
  }

  lemma AcquireClosingNearer(s: State, t: Tid, s': State)
    requires Inv(s) && DoAcquireClosing(s, t) == Some(s')
    ensures Nearer(s, t, s')
  {
    hide Inv, Continue, ValueOk, Acquired;
    var pc := PcOf(s, t);
    AtEntry(s, pc.e);
    ContinueEvents(pc.next);
    if s.entries[pc.e].state == Closing {
      SameEntries(s, s');
    }
  }

  lemma WakeRemoveNearer(s: State, t: Tid, s': State)
    requires DoWakeRemove(s, t) == Some(s')
    ensures Nearer(s, t, s')
  {
    SameEntries(s, s');
  }

  lemma CallCloseNearer(s: State, t: Tid, s': State)
    requires DoCallClose(s, t) == Some(s')
    ensures Nearer(s, t, s')
  {
    SameEntries(s, s');
  }

  lemma CloseAndDeleteNearer(s: State, t: Tid, s': State)
    requires DoCloseAndDelete(s, t) == Some(s')
    ensures Nearer(s, t, s')
  {
    hide Finished;
    ContinueEvents(PcOf(s, t).next);
  }

  lemma TryAcquireClosingNearer(s: State, t: Tid, s': State)
    requires DoTryAcquireClosing(s, t) == Some(s')
    ensures Nearer(s, t, s')
  {
    hide Continue;
    ContinueEvents(PcOf(s, t).next);
  }

  lemma CallTryCloseNearer(s: State, t: Tid, closes: bool, s': State)
    requires DoCallTryClose(s, t, closes) == Some(s')
    ensures Nearer(s, t, s')
  {
    SameEntries(s, s');
  }

  lemma DeclineNearer(s: State, t: Tid, s': State)
    requires DoDecline(s, t) == Some(s')
    ensures Nearer(s, t, s')
  {
    hide Continue;
    ContinueEvents(PcOf(s, t).next);
    if s.closed {
      SameEntries(s, s');
    }
  }

  lemma EveryReadNearer(s: State, a: Action, s': State)
    requires Inv(s) && Next(s, a) == Some(s') && CarriesOn(a) && Reads(a)
    ensures Nearer(s, a.t, s')
  {
    hide Inv, Nearer,
      DoStartGet, DoLockForGet, DoCheckClosing, DoWakeGet, DoTimeoutGet, DoLoadReturns,
      DoLoadCommit, DoDiscardValue, DoReleaseLoad, DoGetLoaded, DoStartPick, DoPickLoaded,
      DoTimeoutPick, DoStartRemove, DoStartRemoveSame, DoRemoveLoaded, DoTimeoutRemove, DoAcquireClosing,
      DoWakeRemove, DoCallClose, DoCloseAndDelete, DoStartTryRemove, DoTryAcquireClosing, DoCallTryClose,
      DoDecline, DoStartGC, DoStartClose, DoAdd;
    match a
    case LockForGet(t, newRef) => LockForGetNearer(s, t, newRef, s');
    case CheckClosing(t) => CheckClosingNearer(s, t, s');
    case WakeGet(t) => WakeGetNearer(s, t, s');
    case TimeoutGet(t) => TimeoutGetNearer(s, t, s');
    case LoadReturns(t, outcome, aborted) => LoadReturnsNearer(s, t, outcome, aborted, s');
    case LoadCommit(t) => LoadCommitNearer(s, t, s');
    case DiscardValue(t) => DiscardValueNearer(s, t, s');
    case ReleaseLoad(t, ctxAlive) => ReleaseLoadNearer(s, t, ctxAlive, s');
    case GetLoaded(t, ctxAlive) => GetLoadedNearer(s, t, ctxAlive, s');
    case PickLoaded(t) => PickLoadedNearer(s, t, s');
    case TimeoutPick(t) => TimeoutPickNearer(s, t, s');
  }

  lemma EveryOtherNearer(s: State, a: Action, s': State)
    requires Inv(s) && Next(s, a) == Some(s') && CarriesOn(a) && !Reads(a)
    ensures Nearer(s, a.t, s')
  {
    hide Inv, Nearer,
      DoStartGet, DoLockForGet, DoCheckClosing, DoWakeGet, DoTimeoutGet, DoLoadReturns,
      DoLoadCommit, DoDiscardValue, DoReleaseLoad, DoGetLoaded, DoStartPick, DoPickLoaded,
      DoTimeoutPick, DoStartRemove, DoStartRemoveSame, DoRemoveLoaded, DoTimeoutRemove, DoAcquireClosing,
      DoWakeRemove, DoCallClose, DoCloseAndDelete, DoStartTryRemove, DoTryAcquireClosing, DoCallTryClose,
      DoDecline, DoStartGC, DoStartClose, DoAdd;
    match a
    case RemoveLoaded(t) => RemoveLoadedNearer(s, t, s');
    case TimeoutRemove(t) => TimeoutRemoveNearer(s, t, s');
    case AcquireClosing(t) => AcquireClosingNearer(s, t, s');
    case WakeRemove(t) => WakeRemoveNearer(s, t, s');
    case CallClose(t) => CallCloseNearer(s, t, s');
    case CloseAndDelete(t) => CloseAndDeleteNearer(s, t, s');
    case TryAcquireClosing(t) => TryAcquireClosingNearer(s, t, s');
    case CallTryClose(t, closes) => CallTryCloseNearer(s, t, closes, s');
    case Decline(t) => DeclineNearer(s, t, s');
  }

  lemma EveryStepNearer(s: State, a: Action, s': State)
    requires Inv(s) && Next(s, a) == Some(s') && CarriesOn(a)
    ensures Nearer(s, a.t, s')
  {
    hide Inv, Nearer, Next, CarriesOn;
    if Reads(a) {
      EveryReadNearer(s, a, s');
    } else {
      EveryOtherNearer(s, a, s');
    }
  }

  // ---- sums over threads --------------------------------------------------------------------------------------

  ghost function Total(ts: set<Tid>, f: Tid -> nat): nat {
    if ts == {} then 0
    else
      var t :| t in ts;
      f(t) + Total(ts - {t}, f)
  }

  lemma {:induction false} TotalMono(ts: set<Tid>, f: Tid -> nat, g: Tid -> nat)
    requires forall t | t in ts :: g(t) <= f(t)
    ensures Total(ts, g) <= Total(ts, f)
  {
    if ts != {} {
      var t :| t in ts && Total(ts, f) == f(t) + Total(ts - {t}, f) && Total(ts, g) == g(t) + Total(ts - {t}, g);
      TotalMono(ts - {t}, f, g);
    }
  }

  lemma {:induction false} TotalFalls(ts: set<Tid>, f: Tid -> nat, g: Tid -> nat, u: Tid)
    requires (forall t | t in ts :: g(t) <= f(t)) && u in ts && g(u) < f(u)
    ensures Total(ts, g) < Total(ts, f)
  {
    var t :| t in ts && Total(ts, f) == f(t) + Total(ts - {t}, f) && Total(ts, g) == g(t) + Total(ts - {t}, g);
    if t == u {
      TotalMono(ts - {t}, f, g);
    } else {
      TotalFalls(ts - {t}, f, g, u);
    }
  }

  lemma {:induction false} TotalAtMost(ts: set<Tid>, f: Tid -> nat)
    requires forall t | t in ts :: f(t) <= MaxRank
    ensures Total(ts, f) <= MaxRank * |ts|
  {
    if ts != {} {
      var t :| t in ts && Total(ts, f) == f(t) + Total(ts - {t}, f);
      TotalAtMost(ts - {t}, f);
    }
  }

  ghost function AllEvents(s: State, ts: set<Tid>): nat {
    Total(ts, t => Events(PcOf(s, t)))
  }

  ghost function AllRanks(s: State, ts: set<Tid>): nat {
    Total(ts, t => Rank(s, PcOf(s, t)))
  }

  /** The steps the calls under way can take, for threads ts. */
  ghost function Budget(s: State, ts: set<Tid>): nat {
    AllEvents(s, ts) * (MaxRank * |ts| + 1) + AllRanks(s, ts)
  }

  /** Every thread in the middle of a call is in ts. */
  ghost predicate Busy(s: State, ts: set<Tid>) {
    forall t :: t in ts || Resting(PcOf(s, t))
  }

  lemma RestingIsOver(s: State, pc: Pc)
    requires Resting(pc)
    ensures Events(pc) == 0 && Rank(s, pc) == 0
  {
  }

  lemma NearerIsBusy(s: State, t: Tid, s': State)
    requires Nearer(s, t, s')
    ensures !Resting(PcOf(s, t))
  {
    hide Events, Rank, Undisturbed;
    if Resting(PcOf(s, t)) {
      RestingIsOver(s, PcOf(s, t));
    }
  }

  lemma EventsFall(s: State, t: Tid, s': State, ts: set<Tid>)
    requires t in ts && (forall u | u != t :: PcOf(s', u) == PcOf(s, u)) && Events(PcOf(s', t)) < Events(PcOf(s, t))
    ensures Budget(s', ts) < Budget(s, ts)
  {
    hide Events, Rank, PcOf;
    TotalFalls(ts, u => Events(PcOf(s, u)), u => Events(PcOf(s', u)), t);
    TotalAtMost(ts, u => Rank(s', PcOf(s', u)));
    Lower(AllEvents(s', ts), AllEvents(s, ts), MaxRank * |ts| + 1, AllRanks(s', ts), AllRanks(s, ts));
  }

  lemma Lower(a: nat, b: nat, m: nat, x: nat, y: nat)
    requires a < b && x < m
    ensures a * m + x < b * m + y
  {
    MulMono(a + 1, b, m);
    assert (a + 1) * m == a * m + m;
  }

  lemma RanksFall(s: State, t: Tid, s': State, ts: set<Tid>)
    requires t in ts && (forall u | u != t :: PcOf(s', u) == PcOf(s, u)) && Events(PcOf(s', t)) == Events(PcOf(s, t))
    requires Rank(s', PcOf(s', t)) < Rank(s, PcOf(s, t)) && Undisturbed(s, s')
    ensures Budget(s', ts) < Budget(s, ts)
  {
    hide Events, Rank, PcOf, Undisturbed;
    TotalMono(ts, u => Events(PcOf(s, u)), u => Events(PcOf(s', u)));
    TotalMono(ts, u => Events(PcOf(s', u)), u => Events(PcOf(s, u)));
    forall u | u in ts
      ensures Rank(s', PcOf(s', u)) <= Rank(s, PcOf(s, u))
    {
      RankKept(s, s', PcOf(s, u));
    }
    TotalFalls(ts, u => Rank(s, PcOf(s, u)), u => Rank(s', PcOf(s', u)), t);
  }

  /** Every step that carries on a call uses up some of the budget, and starts no call. */
  lemma StepSpends(s: State, a: Action, s': State, ts: set<Tid>)
    requires Inv(s) && Next(s, a) == Some(s') && CarriesOn(a) && Busy(s, ts)
    ensures Budget(s', ts) < Budget(s, ts) && Busy(s', ts)
  {
    hide Inv, Next, Events, Rank, Undisturbed, Budget, CarriesOn;
    EveryStep(s, a, s');
    EveryStepNearer(s, a, s');
    NearerIsBusy(s, a.t, s');
    if Events(PcOf(s', a.t)) < Events(PcOf(s, a.t)) {
      EventsFall(s, a.t, s', ts);
    } else {
      RanksFall(s, a.t, s', ts);
    }
  }

  lemma BusyThreads(s: State)
    ensures Busy(s, s.threads.Keys)
  {
  }

  lemma Prefix(actions: seq<Action>, n: nat)
    requires Run(actions).Some? && n == |actions| - 1
    ensures Run(actions[..n]).Some? && Next(Run(actions[..n]).value, actions[n]) == Run(actions)
  {
    hide Next;
  }

  lemma Extend(actions: seq<Action>, a: Action)
    requires Run(actions).Some?
    ensures Run(actions + [a]) == Next(Run(actions).value, a)
  {
    hide Next;
    assert (actions + [a])[..|actions|] == actions;
  }

  lemma {:induction false} RunSpends(all: seq<Action>, n: nat, ts: set<Tid>)
    requires n <= |all| && Run(all).Some? && forall i | n <= i < |all| :: CarriesOn(all[i])
    requires Run(all[..n]).Some? ==> Busy(Run(all[..n]).value, ts)
    ensures Run(all[..n]).Some? && Busy(Run(all).value, ts)
    ensures Budget(Run(all).value, ts) + (|all| - n) <= Budget(Run(all[..n]).value, ts)
    decreases |all|
  {
    hide Next, Run, Budget, Busy, CarriesOn, Inv;
    if n == |all| {
      assert all[..n] == all;
    } else {
      var before := all[..|all| - 1];
      assert before[..n] == all[..n];
      Prefix(all, |all| - 1);
      RunSpends(before, n, ts);
      RunKeeps(before);
      StepSpends(Run(before).value, all[|all| - 1], Run(all).value, ts);
    }
  }

  /** As long as no call starts, a run from any reachable state is no longer than its budget. */
  lemma RunsAreBounded(actions: seq<Action>, more: seq<Action>)
    requires Run(actions).Some? && Run(actions + more).Some? && forall a | a in more :: CarriesOn(a)
    ensures |more| <= Budget(Run(actions).value, Run(actions).value.threads.Keys)
  {
    hide Budget, Busy, CarriesOn, Run;
    var all, n := actions + more, |actions|;
    assert all[..n] == actions;
    forall i | n <= i < |all|
      ensures CarriesOn(all[i])
    {
      assert all[i] == more[i - n] && more[i - n] in more;
    }
    BusyThreads(Run(actions).value);
    RunSpends(all, n, Run(actions).value.threads.Keys);
  }

  /** A run that no step without a deadline can prolong has ended every call. */
  lemma EndsWhenStuck(actions: seq<Action>)
    requires Run(actions).Some? && forall a | Advances(a) :: Next(Run(actions).value, a).None?
    ensures Quiescent(Run(actions).value)
  {
    hide Next, Run, Advances;
    var s := Run(actions).value;
    assert Reachable(s);
    forall t: Tid
      ensures Resting(PcOf(s, t))
    {
      if !Resting(PcOf(s, t)) {
        var a := NoLostWakeup(s, t);
        assert false;
      }
    }
  }

  lemma {:induction false} EndCalls(actions: seq<Action>, ts: set<Tid>) returns (more: seq<Action>)
    requires Run(actions).Some? && Busy(Run(actions).value, ts)
    ensures Run(actions + more).Some? && Quiescent(Run(actions + more).value) && forall a | a in more :: Advances(a)
    decreases Budget(Run(actions).value, ts)
  {
    hide Next, Run, Advances, Budget, Busy, Inv, Resting, Reachable;
    var s := Run(actions).value;
    if t: Tid :| !Resting(PcOf(s, t)) {
      ItIsReachable(actions);
      var a := NoLostWakeup(s, t);
      Extend(actions, a);
      RunKeeps(actions);
      StepSpends(s, a, Run(actions + [a]).value, ts);
      var rest := EndCalls(actions + [a], ts);
      more := [a] + rest;
      assert actions + [a] + rest == actions + more;
    } else {
      more := [];
      assert actions + more == actions;
    }
  }

  lemma ItIsReachable(actions: seq<Action>)
    requires Run(actions).Some?
    ensures Reachable(Run(actions).value)
  {
  }

  /** From every reachable state all calls under way can end, without a new call and without a deadline. */
  lemma AllCallsEnd(actions: seq<Action>) returns (more: seq<Action>)
    requires Run(actions).Some?
    ensures Run(actions + more).Some? && Quiescent(Run(actions + more).value) && forall a | a in more :: Advances(a)
  {
    hide Run, Advances, Busy;
    BusyThreads(Run(actions).value);
    more := EndCalls(actions, Run(actions).value.threads.Keys);
  }
}
