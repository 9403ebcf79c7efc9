/** What every call on the object cache goes through, and what ends it, for every run of any number of threads. */
module ObjectCacheCalls {
  import opened Options
  import opened ObjectCache
  import opened ObjectCacheProof
  import opened ObjectCacheSteps

  predicate Starts(a: Action) {
    a.StartGet? || a.StartPick? || a.StartRemove? || a.StartRemoveSame? || a.StartTryRemove? || a.StartGC? ||
    a.StartClose? || a.Add?
  }

  lemma TakesStep(s: State, a: Action, s': State)
    requires Next(s, a) == Some(s')
    ensures Takes(PcOf(s, a.t), a)
  {
    hide Next;
    EveryStep(s, a, s');
  }

  // ---- Get ------------------------------------------------------------------------------------------------

  /** A Get of id under way. */
  predicate Seeks(pc: Pc, id: Id) {
    && (pc.GetLock? || pc.GetEntry? || pc.GetParked? || pc.GetWait? || pc.LoadRun? || pc.LoadDone? || pc.LoadDiscard? ||
        pc.LoadRelease?)
    && pc.id == id
  }

  /** The step reads what a load has recorded: the load the call waited for, or its own. */
  predicate ReadsResult(pc: Pc, a: Action) {
    (a.GetLoaded? && pc.GetWait?) || (a.ReleaseLoad? && pc.LoadRelease? && !pc.panics)
  }

  /** The load was killed, the caller is alive and has tried again less than three times. */
  predicate Retried(s: State, a: Action) {
    var pc := PcOf(s, a.t);
    && ReadsResult(pc, a) && pc.e in s.entries
    && s.entries[pc.e].loadErr.Some? && s.entries[pc.e].aborted && a.ctxAlive && pc.retries < 3
  }

  predicate GetGoesOn(s: State, a: Action, id: Id, pc': Pc) {
    var pc := PcOf(s, a.t);
    if ReadsResult(pc, a) then Retried(s, a) && pc' == GetLock(id, pc.retries + 1)
    else Seeks(pc', id) && Retries(pc') == Retries(pc)
  }

  /** What a Get of id may end with: ErrClosed on a closed cache, the context's error when it has to wait, the
      panic of its own load, or else the value or the error of an entry of id. */
  predicate GetEnds(s: State, a: Action, id: Id, pc': Pc) {
    var pc := PcOf(s, a.t);
    if a.LockForGet? then s.closed && pc' == GotBack(None, Some(ErrClosed))
    else if a.TimeoutGet? then
      && (pc.GetParked? || (pc.GetWait? && pc.e in s.entries && !s.entries[pc.e].loaded))
      && pc' == GotBack(None, Some(ErrContext))
    else if ReadsResult(pc, a) then
      && !Retried(s, a) && pc.e in s.entries && s.entries[pc.e].id == id && (a.GetLoaded? ==> s.entries[pc.e].loaded)
      && pc' == GotBack(s.entries[pc.e].value, s.entries[pc.e].loadErr)
    else a.ReleaseLoad? && pc.LoadRelease? && pc.panics && pc' == Panicked
  }

  lemma SearchStep(s: State, a: Action, s': State, id: Id)
    requires Next(s, a) == Some(s') && Seeks(PcOf(s, a.t), id)
    requires a.LockForGet? || a.CheckClosing? || a.WakeGet? || a.TimeoutGet?
    ensures GetGoesOn(s, a, id, PcOf(s', a.t)) || GetEnds(s, a, id, PcOf(s', a.t))
  {
  }

  /** The call has found its entry neither closing nor closed, and waits for its load or runs it. */
  predicate PastCheck(pc: Pc) {
    pc.GetWait? || pc.LoadRun? || pc.LoadDone? || pc.LoadDiscard? || pc.LoadRelease?
  }

  /** The step finds entry e neither closing nor closed. */
  predicate FindsLive(s: State, a: Action, e: Ref) {
    && a.CheckClosing? && PcOf(s, a.t).GetEntry? && PcOf(s, a.t).e == e && e in s.entries
    && s.entries[e].state != Closing && s.entries[e].state != Closed
  }

  lemma CommitStep(s: State, t: Tid, s': State)
    requires DoLoadCommit(s, t) == Some(s')
    ensures var pc, pc' := PcOf(s, t), PcOf(s', t);
            pc.LoadDone? && Seeks(pc', pc.id) && Retries(pc') == pc.retries && PastCheck(pc') && pc'.e == pc.e
  {
    hide CloseOnce;
  }

  lemma LoadStep(s: State, a: Action, s': State, id: Id)
    requires Next(s, a) == Some(s') && Seeks(PcOf(s, a.t), id)
    requires a.LoadReturns? || a.LoadCommit? || a.DiscardValue?
    ensures GetGoesOn(s, a, id, PcOf(s', a.t))
  {
    hide DoStartGet, DoLockForGet, DoCheckClosing, DoWakeGet, DoTimeoutGet, DoLoadCommit, DoReleaseLoad, DoGetLoaded,
      DoStartPick, DoPickLoaded, DoTimeoutPick, DoStartRemove, DoStartRemoveSame, DoRemoveLoaded, DoTimeoutRemove,
      DoAcquireClosing, DoWakeRemove, DoCallClose, DoCloseAndDelete, DoStartTryRemove, DoTryAcquireClosing,
      DoCallTryClose, DoDecline, DoStartGC, DoStartClose, DoAdd;
    if a.LoadCommit? {
      CommitStep(s, a.t, s');
    }
  }

  lemma ResultStep(s: State, a: Action, s': State, id: Id)
    requires Inv(s) && Next(s, a) == Some(s') && Seeks(PcOf(s, a.t), id) && (a.GetLoaded? || a.ReleaseLoad?)
    ensures GetGoesOn(s, a, id, PcOf(s', a.t)) || GetEnds(s, a, id, PcOf(s', a.t))
  {
    hide Inv, EntryOk;
    AtThread(s, a.t);
  }

  /** A step of a Get carries it on or ends it for a reason. */
  lemma GetStep(s: State, a: Action, s': State, id: Id)
    requires Inv(s) && Next(s, a) == Some(s') && Seeks(PcOf(s, a.t), id)
    ensures GetGoesOn(s, a, id, PcOf(s', a.t)) || GetEnds(s, a, id, PcOf(s', a.t))
  {
    hide Inv, Next, GetGoesOn, GetEnds;
    EveryStep(s, a, s');
    if a.LockForGet? || a.CheckClosing? || a.WakeGet? || a.TimeoutGet? {
      SearchStep(s, a, s', id);
    } else if a.GetLoaded? || a.ReleaseLoad? {
      ResultStep(s, a, s', id);
    } else {
      LoadStep(s, a, s', id);
    }
  }

  lemma SearchChecks(s: State, a: Action, s': State, id: Id)
    requires Next(s, a) == Some(s') && Seeks(PcOf(s, a.t), id) && PastCheck(PcOf(s', a.t))
    requires a.LockForGet? || a.CheckClosing? || a.WakeGet? || a.TimeoutGet? || a.GetLoaded? || a.ReleaseLoad?
    ensures FindsLive(s, a, PcOf(s', a.t).e)
  {
    hide DoStartGet, DoLoadReturns, DoLoadCommit, DoDiscardValue, DoStartPick, DoPickLoaded, DoTimeoutPick,
      DoStartRemove, DoStartRemoveSame, DoRemoveLoaded, DoTimeoutRemove, DoAcquireClosing, DoWakeRemove, DoCallClose,
      DoCloseAndDelete, DoStartTryRemove, DoTryAcquireClosing, DoCallTryClose, DoDecline, DoStartGC, DoStartClose, DoAdd;
  }

  lemma LoadChecks(s: State, a: Action, s': State)
    requires Next(s, a) == Some(s') && PastCheck(PcOf(s', a.t)) && (a.LoadReturns? || a.LoadCommit? || a.DiscardValue?)
    ensures PastCheck(PcOf(s, a.t)) && PcOf(s', a.t).e == PcOf(s, a.t).e
  {
    hide DoStartGet, DoLockForGet, DoCheckClosing, DoWakeGet, DoTimeoutGet, DoLoadCommit, DoReleaseLoad, DoGetLoaded,
      DoStartPick, DoPickLoaded, DoTimeoutPick, DoStartRemove, DoStartRemoveSame, DoRemoveLoaded, DoTimeoutRemove,
      DoAcquireClosing, DoWakeRemove, DoCallClose, DoCloseAndDelete, DoStartTryRemove, DoTryAcquireClosing,
      DoCallTryClose, DoDecline, DoStartGC, DoStartClose, DoAdd;
    if a.LoadCommit? {
      CommitStep(s, a.t, s');
    }
  }

  /** A Get gets there only by checking its entry. */
  lemma ChecksFirst(s: State, a: Action, s': State, id: Id)
    requires Next(s, a) == Some(s') && Seeks(PcOf(s, a.t), id) && PastCheck(PcOf(s', a.t))
    ensures var e := PcOf(s', a.t).e;
            FindsLive(s, a, e) || (PastCheck(PcOf(s, a.t)) && PcOf(s, a.t).e == e)
  {
    hide Next, FindsLive, PastCheck;
    TakesStep(s, a, s');
    if a.LoadReturns? || a.LoadCommit? || a.DiscardValue? {
      LoadChecks(s, a, s');
    } else {
      SearchChecks(s, a, s', id);
    }
  }

  // ---- Pick -----------------------------------------------------------------------------------------------

  predicate Mapped(s: State, id: Id) {
    !s.closed && id in s.data
  }

  /** Pick has something to return or to wait for. */
  predicate Available(s: State, id: Id) {
    Mapped(s, id) && s.data[id] in s.entries && s.entries[s.data[id]].state != Closing && s.entries[s.data[id]].state != Closed
  }

  /** What a Pick that found entry e may end with. */
  predicate PickEnds(s: State, a: Action, e: Ref, pc': Pc) {
    && e in s.entries
    && if s.entries[e].loaded then a.PickLoaded? && pc' == GotBack(s.entries[e].value, s.entries[e].loadErr)
       else a.TimeoutPick? && pc' == GotBack(None, Some(ErrContext))
  }

  lemma PickStep(s: State, a: Action, s': State, e: Ref)
    requires Next(s, a) == Some(s') && PcOf(s, a.t) == PickWait(e)
    ensures PickEnds(s, a, e, PcOf(s', a.t))
  {
    hide DoLoadCommit, DoStartPick, DoStartRemove, DoStartRemoveSame, DoStartGC, DoStartClose, DoAdd, DoAcquireClosing,
      DoTimeoutRemove, DoLockForGet;
    EveryStep(s, a, s');
  }

  // ---- removals -------------------------------------------------------------------------------------------

  /** Removing entry e, waiting for its load and for other closers. */
  predicate Waiting(pc: Pc, e: Ref, next: Then) {
    (pc.RemWait? || pc.RemAcquire? || pc.RemParked? || pc.CloseValue? || pc.Finalize?) && pc.e == e && pc.next == next
  }

  /** Removing entry e if it is idle and its value agrees. */
  predicate Trying(pc: Pc, e: Ref, next: Then) {
    (pc.TryAcquire? || pc.TryAsk? || pc.TryDeclined? || pc.CloseValue? || pc.Finalize?) && pc.e == e && pc.next == next
  }

  /** The reasons to leave an entry alone: the deadline passed, its load failed, it is finalized already; when
      only trying, also that it is not active, or that its value declined on an open cache. */
  predicate GivesUp(s: State, a: Action) {
    var pc := PcOf(s, a.t);
    match a
    case TimeoutRemove(_) => pc.RemParked? || (pc.RemWait? && pc.e in s.entries && !s.entries[pc.e].loaded)
    case RemoveLoaded(_) => pc.RemWait? && pc.e in s.entries && s.entries[pc.e].loaded && s.entries[pc.e].loadErr.Some?
    case AcquireClosing(_) => pc.RemAcquire? && pc.e in s.entries && s.entries[pc.e].state == Closed
    case TryAcquireClosing(_) => pc.TryAcquire? && pc.e in s.entries && s.entries[pc.e].state != Active
    case Decline(_) => pc.TryDeclined? && !s.closed
    case _ => false
  }

  lemma LoadedStep(s: State, t: Tid, s': State)
    requires DoRemoveLoaded(s, t) == Some(s')
    ensures var pc := PcOf(s, t);
            pc.RemWait? && PcOf(s', t) == if GivesUp(s, RemoveLoaded(t)) then Continue(pc.next) else RemAcquire(pc.e, pc.next)
  {
    hide Continue;
  }

  lemma DeadlineStep(s: State, t: Tid, s': State)
    requires DoTimeoutRemove(s, t) == Some(s')
    ensures GivesUp(s, TimeoutRemove(t)) && PcOf(s', t) == Continue(PcOf(s, t).next)
  {
    hide Continue;
  }

  lemma AcquireStep(s: State, t: Tid, s': State)
    requires Inv(s) && DoAcquireClosing(s, t) == Some(s')
    ensures var pc := PcOf(s, t);
            pc.RemAcquire? && if GivesUp(s, AcquireClosing(t)) then PcOf(s', t) == Continue(pc.next) else Waiting(PcOf(s', t), pc.e, pc.next)
  {
    hide Inv, Continue;
    AtThread(s, t);
  }

  lemma OwnerStep(s: State, a: Action, s': State)
    requires Next(s, a) == Some(s') && (a.WakeRemove? || a.CallClose? || a.CloseAndDelete?)
    ensures var pc, pc' := PcOf(s, a.t), PcOf(s', a.t);
            match a
            case WakeRemove(_) => pc.RemParked? && pc' == RemAcquire(pc.e, pc.next)
            case CallClose(_) => pc.CloseValue? && pc' == Finalize(pc.e, pc.next)
            case _ => pc.Finalize? && pc' == Finished(pc.next)
  {
    hide Finished, ChannelClosed, DoStartGet, DoLockForGet, DoCheckClosing, DoWakeGet, DoTimeoutGet, DoLoadReturns,
      DoLoadCommit, DoDiscardValue, DoReleaseLoad, DoGetLoaded, DoStartPick, DoPickLoaded, DoTimeoutPick, DoStartRemove,
      DoStartRemoveSame, DoRemoveLoaded, DoTimeoutRemove, DoAcquireClosing, DoStartTryRemove, DoTryAcquireClosing,
      DoCallTryClose, DoDecline, DoStartGC, DoStartClose, DoAdd;
  }

  /** A step of a removal is determined: it gives up for a reason, it finalizes, or it goes on. */
  lemma RemoveStep(s: State, a: Action, s': State, e: Ref, next: Then)
    requires Inv(s) && Next(s, a) == Some(s') && Waiting(PcOf(s, a.t), e, next)
    ensures if GivesUp(s, a) then PcOf(s', a.t) == Continue(next)
            else if a.CloseAndDelete? then PcOf(s', a.t) == Finished(next)
            else Waiting(PcOf(s', a.t), e, next)
  {
    hide Inv, Continue, Finished, PcOf, DoStartGet, DoLockForGet, DoCheckClosing, DoWakeGet, DoTimeoutGet, DoLoadReturns,
      DoLoadCommit, DoDiscardValue, DoReleaseLoad, DoGetLoaded, DoStartPick, DoPickLoaded, DoTimeoutPick, DoStartRemove,
      DoStartRemoveSame, DoRemoveLoaded, DoTimeoutRemove, DoAcquireClosing, DoWakeRemove, DoCallClose, DoCloseAndDelete,
      DoStartTryRemove, DoTryAcquireClosing, DoCallTryClose, DoDecline, DoStartGC, DoStartClose, DoAdd;
    TakesStep(s, a, s');
    match a
    case RemoveLoaded(t) => LoadedStep(s, t, s');
    case TimeoutRemove(t) => DeadlineStep(s, t, s');
    case AcquireClosing(t) => AcquireStep(s, t, s');
    case _ => OwnerStep(s, a, s');
  }

  lemma TryAcquireStep(s: State, t: Tid, s': State)
    requires DoTryAcquireClosing(s, t) == Some(s')
    ensures var pc := PcOf(s, t);
            pc.TryAcquire? && PcOf(s', t) == if GivesUp(s, TryAcquireClosing(t)) then Continue(pc.next) else TryAsk(pc.e, pc.next)
  {
    hide Continue;
  }

  lemma DeclineStep(s: State, t: Tid, s': State)
    requires DoDecline(s, t) == Some(s')
    ensures var pc := PcOf(s, t);
            pc.TryDeclined? && PcOf(s', t) == if GivesUp(s, Decline(t)) then Continue(pc.next) else CloseValue(pc.e, pc.next)
  {
    hide Continue;
  }

  lemma AskStep(s: State, t: Tid, closes: bool, s': State)
    requires DoCallTryClose(s, t, closes) == Some(s')
    ensures var pc := PcOf(s, t);
            pc.TryAsk? && PcOf(s', t) == if closes then Finalize(pc.e, pc.next) else TryDeclined(pc.e, pc.next)
  {
  }

  /** Likewise when only trying; the value is closed exactly when it agrees or the cache has been closed. */
  lemma TryStep(s: State, a: Action, s': State, e: Ref, next: Then)
    requires Next(s, a) == Some(s') && Trying(PcOf(s, a.t), e, next)
    ensures if GivesUp(s, a) then PcOf(s', a.t) == Continue(next)
            else if a.CloseAndDelete? then PcOf(s', a.t) == Finished(next)
            else if a.CallTryClose? then PcOf(s', a.t) == if a.closes then Finalize(e, next) else TryDeclined(e, next)
            else if a.TryAcquireClosing? then PcOf(s', a.t) == TryAsk(e, next)
            else if a.Decline? then PcOf(s, a.t).TryDeclined? && s.closed && PcOf(s', a.t) == CloseValue(e, next)
            else a.CallClose? && PcOf(s, a.t).CloseValue? && PcOf(s', a.t) == Finalize(e, next)
  {
    hide Continue, Finished, PcOf, DoStartGet, DoLockForGet, DoCheckClosing, DoWakeGet, DoTimeoutGet, DoLoadReturns,
      DoLoadCommit, DoDiscardValue, DoReleaseLoad, DoGetLoaded, DoStartPick, DoPickLoaded, DoTimeoutPick, DoStartRemove,
      DoStartRemoveSame, DoRemoveLoaded, DoTimeoutRemove, DoAcquireClosing, DoWakeRemove, DoCallClose, DoCloseAndDelete,
      DoStartTryRemove, DoTryAcquireClosing, DoCallTryClose, DoDecline, DoStartGC, DoStartClose, DoAdd;
    TakesStep(s, a, s');
    match a
    case TryAcquireClosing(t) => TryAcquireStep(s, t, s');
    case CallTryClose(t, closes) => AskStep(s, t, closes, s');
    case Decline(t) => DeclineStep(s, t, s');
    case _ => OwnerStep(s, a, s');
  }

  // ---- whole calls ----------------------------------------------------------------------------------------

  /** GC's sweep is at its j-th pick. */
  predicate SweepAt(pc: Pc, picks: seq<Ref>, j: nat) {
    j < |picks| && Trying(pc, picks[j], Sweep(picks[j + 1..]))
  }

  /** Close's pass is at the j-th entry of its order. */
  predicate PassAt(pc: Pc, order: seq<Ref>, j: nat) {
    j < |order| && Waiting(pc, order[j], Pass(order[j + 1..]))
  }

  /** The id is mapped to the instance RemoveSame was given. */
  predicate Holds(s: State, id: Id, o: Obj) {
    Mapped(s, id) && s.data[id] in s.entries && s.entries[s.data[id]].value == Some(o)
  }

  /** Where a call that action a0 started in state s0 may be before it ends. */
  ghost predicate Pursues(s0: State, a0: Action, pc: Pc) {
    match a0
    case StartGet(_, id) => Seeks(pc, id)
    case StartPick(_, id) => Available(s0, id) && pc == PickWait(s0.data[id])
    case StartRemove(_, id) => Mapped(s0, id) && Waiting(pc, s0.data[id], Finish(None))
    case StartRemoveSame(_, id, o) => Holds(s0, id, o) && Waiting(pc, s0.data[id], Finish(Some(o)))
    case StartTryRemove(_, id) => Mapped(s0, id) && Trying(pc, s0.data[id], Finish(None))
    case StartGC(_, picks) => !s0.closed && exists j: nat :: SweepAt(pc, picks, j)
    case StartClose(_, order) => !s0.closed && exists j: nat :: PassAt(pc, order, j)
    case _ => false
  }

  /** A removal reports that it has removed the entry, or gives up for a reason. */
  predicate RemovalEnds(s: State, a: Action, pc': Pc) {
    pc'.Returned? && if pc'.removed then a.CloseAndDelete? else GivesUp(s, a)
  }

  /** How such a call may end, by action a in state s. */
  predicate EndsWith(s0: State, a0: Action, s: State, a: Action, pc': Pc) {
    var pc := PcOf(s, a.t);
    match a0
    case StartGet(_, id) => Seeks(pc, id) && GetEnds(s, a, id, pc')
    case StartPick(_, id) =>
      if s0.closed then pc' == GotBack(None, Some(ErrClosed))
      else if !Available(s0, id) then pc' == GotBack(None, Some(ErrNotExists))
      else pc == PickWait(s0.data[id]) && PickEnds(s, a, s0.data[id], pc')
    case StartRemove(_, id) =>
      if !Mapped(s0, id) then pc' == Returned(false)
      else Waiting(pc, s0.data[id], Finish(None)) && RemovalEnds(s, a, pc')
    case StartRemoveSame(_, id, o) =>
      if !Holds(s0, id, o) then pc' == Returned(false)
      else Waiting(pc, s0.data[id], Finish(Some(o))) && RemovalEnds(s, a, pc')
    case StartTryRemove(_, id) =>
      if !Mapped(s0, id) then pc' == Returned(false)
      else Trying(pc, s0.data[id], Finish(None)) && RemovalEnds(s, a, pc')
    case StartGC(_, picks) =>
      pc' == Returned(false) && (s0.closed || picks == [] || (SweepAt(pc, picks, |picks| - 1) && (GivesUp(s, a) || a.CloseAndDelete?)))
    case StartClose(_, order) =>
      pc' == Returned(false) && (s0.closed || order == [] || (PassAt(pc, order, |order| - 1) && (GivesUp(s, a) || a.CloseAndDelete?)))
    case _ => pc' == Returned(false)
  }

  /** The step carries the call on or ends it. */
  ghost predicate Proceeds(s0: State, a0: Action, s: State, a: Action, s': State) {
    Pursues(s0, a0, PcOf(s', a.t)) || (Resting(PcOf(s', a.t)) && EndsWith(s0, a0, s, a, PcOf(s', a.t)))
  }

  lemma ReadStarts(s: State, a: Action, s': State)
    requires Next(s, a) == Some(s') && (a.StartGet? || a.StartPick?)
    ensures Proceeds(s, a, s, a, s')
  {
    hide GetEnds, PickEnds, DoLoadCommit, DoAdd, DoStartClose, DoStartGC, DoTimeoutRemove, DoAcquireClosing, DoLockForGet,
      DoReleaseLoad, DoDecline, DoCloseAndDelete, DoStartRemove, DoStartRemoveSame, DoStartTryRemove;
  }

  lemma AddStarts(s: State, t: Tid, id: Id, newRef: Ref, o: Obj, s': State)
    requires DoAdd(s, t, id, newRef, o) == Some(s')
    ensures Proceeds(s, Add(t, id, newRef, o), s, Add(t, id, newRef, o), s')
  {
    hide NewEntry;
  }

  lemma RemoveStarts(s: State, t: Tid, id: Id, s': State)
    requires DoStartRemove(s, t, id) == Some(s')
    ensures Proceeds(s, StartRemove(t, id), s, StartRemove(t, id), s')
  {
    hide RemovalEnds;
  }

  lemma RemoveSameStarts(s: State, t: Tid, id: Id, o: Obj, s': State)
    requires DoStartRemoveSame(s, t, id, o) == Some(s')
    ensures Proceeds(s, StartRemoveSame(t, id, o), s, StartRemoveSame(t, id, o), s')
  {
    hide RemovalEnds;
  }

  lemma TryRemoveStarts(s: State, t: Tid, id: Id, s': State)
    requires DoStartTryRemove(s, t, id) == Some(s')
    ensures Proceeds(s, StartTryRemove(t, id), s, StartTryRemove(t, id), s')
  {
    hide RemovalEnds;
  }

  lemma SweepStarts(s: State, t: Tid, picks: seq<Ref>, s': State)
    requires DoStartGC(s, t, picks) == Some(s')
    ensures Proceeds(s, StartGC(t, picks), s, StartGC(t, picks), s')
  {
    if !s.closed && picks != [] {
      assert SweepAt(PcOf(s', t), picks, 0);
    }
  }

  lemma PassStarts(s: State, t: Tid, order: seq<Ref>, s': State)
    requires DoStartClose(s, t, order) == Some(s')
    ensures Proceeds(s, StartClose(t, order), s, StartClose(t, order), s')
  {
    if !s.closed && order != [] {
      assert PassAt(PcOf(s', t), order, 0);
    }
  }

  /** A call either gets going or ends at once, as its arguments and the cache demand. */
  lemma StartStep(s: State, a: Action, s': State)
    requires Next(s, a) == Some(s') && Starts(a)
    ensures Proceeds(s, a, s, a, s')
  {
    hide Proceeds, DoStartGC, DoStartClose, DoStartGet, DoStartPick, DoAdd, DoStartRemove, DoStartRemoveSame, DoStartTryRemove;
    match a
    case StartGC(t, picks) => SweepStarts(s, t, picks, s');
    case StartClose(t, order) => PassStarts(s, t, order, s');
    case StartRemove(t, id) => RemoveStarts(s, t, id, s');
    case StartRemoveSame(t, id, o) => RemoveSameStarts(s, t, id, o, s');
    case StartTryRemove(t, id) => TryRemoveStarts(s, t, id, s');
    case Add(t, id, newRef, o) => AddStarts(s, t, id, newRef, o, s');
    case _ => ReadStarts(s, a, s');
  }

  /** Going on with a sweep: the next pick, or the end after the last. */
  lemma SweepGoesOn(picks: seq<Ref>, j: nat)
    requires j < |picks|
    ensures Continue(Sweep(picks[j + 1..])) == if j + 1 == |picks| then Returned(false) else TryAcquire(picks[j + 1], Sweep(picks[j + 2..]))
  {
    if j + 1 < |picks| {
      assert picks[j + 1..][1..] == picks[j + 2..];
    }
  }

  lemma PassGoesOn(order: seq<Ref>, j: nat)
    requires j < |order|
    ensures Continue(Pass(order[j + 1..])) == if j + 1 == |order| then Returned(false) else RemWait(order[j + 1], Pass(order[j + 2..]))
  {
    if j + 1 < |order| {
      assert order[j + 1..][1..] == order[j + 2..];
    }
  }

  lemma SweepStep(s: State, a: Action, s': State, picks: seq<Ref>, j: nat)
    requires Next(s, a) == Some(s') && SweepAt(PcOf(s, a.t), picks, j)
    ensures var pc' := PcOf(s', a.t);
            if !GivesUp(s, a) && !a.CloseAndDelete? then SweepAt(pc', picks, j) && !pc'.TryAcquire?
            else if j + 1 < |picks| then SweepAt(pc', picks, j + 1) && pc'.TryAcquire?
            else pc' == Returned(false)
  {
    hide Next, PcOf, GivesUp, Continue;
    TryStep(s, a, s', picks[j], Sweep(picks[j + 1..]));
    SweepGoesOn(picks, j);
  }

  lemma PassStep(s: State, a: Action, s': State, order: seq<Ref>, j: nat)
    requires Inv(s) && Next(s, a) == Some(s') && PassAt(PcOf(s, a.t), order, j)
    ensures var pc' := PcOf(s', a.t);
            if !GivesUp(s, a) && !a.CloseAndDelete? then PassAt(pc', order, j)
            else if j + 1 < |order| then PassAt(pc', order, j + 1) && pc'.RemWait?
            else pc' == Returned(false)
  {
    hide Inv, Next, PcOf, GivesUp, Continue;
    RemoveStep(s, a, s', order[j], Pass(order[j + 1..]));
    PassGoesOn(order, j);
  }

  lemma ReadProceeds(s0: State, a0: Action, s: State, a: Action, s': State)
    requires Inv(s) && Next(s, a) == Some(s') && Pursues(s0, a0, PcOf(s, a.t)) && (a0.StartGet? || a0.StartPick?)
    ensures Proceeds(s0, a0, s, a, s')
  {
    hide Inv, Next, PcOf, ReadsResult;
    match a0
    case StartGet(_, id) => GetStep(s, a, s', id);
    case StartPick(_, id) => PickStep(s, a, s', s0.data[id]);
  }

  lemma RemoveProceeds(s: State, a: Action, s': State, e: Ref, target: Option<Obj>)
    requires Inv(s) && Next(s, a) == Some(s') && Waiting(PcOf(s, a.t), e, Finish(target))
    ensures Waiting(PcOf(s', a.t), e, Finish(target)) || (Resting(PcOf(s', a.t)) && RemovalEnds(s, a, PcOf(s', a.t)))
  {
    hide Inv, Next, PcOf, GivesUp, Waiting;
    RemoveStep(s, a, s', e, Finish(target));
  }

  lemma TryProceeds(s: State, a: Action, s': State, e: Ref)
    requires Next(s, a) == Some(s') && Trying(PcOf(s, a.t), e, Finish(None))
    ensures Trying(PcOf(s', a.t), e, Finish(None)) || (Resting(PcOf(s', a.t)) && RemovalEnds(s, a, PcOf(s', a.t)))
  {
    hide Next, PcOf, GivesUp, Trying;
    TryStep(s, a, s', e, Finish(None));
    Asked(e, Finish(None));
  }

  lemma RemovalProceeds(s0: State, a0: Action, s: State, a: Action, s': State)
    requires Inv(s) && Next(s, a) == Some(s') && Pursues(s0, a0, PcOf(s, a.t))
    requires a0.StartRemove? || a0.StartRemoveSame? || a0.StartTryRemove?
    ensures Proceeds(s0, a0, s, a, s')
  {
    hide Inv, Next, PcOf, Resting, RemovalEnds, Waiting, Trying;
    match a0
    case StartRemove(_, id) => RemoveProceeds(s, a, s', s0.data[id], None);
    case StartRemoveSame(_, id, o) => RemoveProceeds(s, a, s', s0.data[id], Some(o));
    case StartTryRemove(_, id) => TryProceeds(s, a, s', s0.data[id]);
  }

  /** Asking the value goes on trying. */
  lemma Asked(e: Ref, next: Then)
    ensures Trying(Finalize(e, next), e, next) && Trying(TryDeclined(e, next), e, next)
    ensures Trying(TryAsk(e, next), e, next) && Trying(CloseValue(e, next), e, next)
  {
  }

  lemma BatchProceeds(s0: State, a0: Action, s: State, a: Action, s': State)
    requires Inv(s) && Next(s, a) == Some(s') && Pursues(s0, a0, PcOf(s, a.t)) && (a0.StartGC? || a0.StartClose?)
    ensures Proceeds(s0, a0, s, a, s')
  {
    hide Inv, Next, PcOf, GivesUp, SweepAt, PassAt;
    match a0
    case StartGC(_, picks) =>
      var j: nat :| SweepAt(PcOf(s, a.t), picks, j);
      SweepIndex(PcOf(s, a.t), picks, j);
      SweepStep(s, a, s', picks, j);
    case StartClose(_, order) =>
      var j: nat :| PassAt(PcOf(s, a.t), order, j);
      PassIndex(PcOf(s, a.t), order, j);
      PassStep(s, a, s', order, j);
  }

  /** Then each of its steps carries it on or ends it. */
  lemma CallStep(s0: State, a0: Action, s: State, a: Action, s': State)
    requires Inv(s) && Next(s, a) == Some(s') && Pursues(s0, a0, PcOf(s, a.t))
    ensures Proceeds(s0, a0, s, a, s')
  {
    hide Inv, Next, PcOf, Proceeds;
    match a0
    case StartGet(_, _) => ReadProceeds(s0, a0, s, a, s');
    case StartPick(_, _) => ReadProceeds(s0, a0, s, a, s');
    case StartRemove(_, _) => RemovalProceeds(s0, a0, s, a, s');
    case StartRemoveSame(_, _, _) => RemovalProceeds(s0, a0, s, a, s');
    case StartTryRemove(_, _) => RemovalProceeds(s0, a0, s, a, s');
    case StartGC(_, _) => BatchProceeds(s0, a0, s, a, s');
    case StartClose(_, _) => BatchProceeds(s0, a0, s, a, s');
  }

  lemma SweepIndex(pc: Pc, picks: seq<Ref>, j: nat)
    requires SweepAt(pc, picks, j)
    ensures j < |picks|
  {
  }

  lemma PassIndex(pc: Pc, order: seq<Ref>, j: nat)
    requires PassAt(pc, order, j)
    ensures j < |order|
  {
  }

  /** Action k of the run starts a call of t, and no later one does. */
  predicate CallFrom(actions: seq<Action>, t: Tid, k: nat) {
    && k < |actions| && actions[k].t == t && Starts(actions[k])
    && forall j | k < j < |actions| :: !(actions[j].t == t && Starts(actions[j]))
  }

  /** Action i is the last one of t, and ends the call that action k started. */
  ghost predicate EndedAt(actions: seq<Action>, t: Tid, k: nat, i: nat) {
    && k <= i < |actions| && actions[i].t == t && (forall j | i < j < |actions| :: actions[j].t != t)
    && Run(actions).Some? && Run(actions[..k]).Some? && Run(actions[..i]).Some?
    && EndsWith(Run(actions[..k]).value, actions[k], Run(actions[..i]).value, actions[i], PcOf(Run(actions).value, t))
  }

  ghost predicate Ended(actions: seq<Action>, t: Tid, k: nat) {
    exists i: nat :: EndedAt(actions, t, k, i)
  }

  lemma LastRun(actions: seq<Action>)
    requires Run(actions).Some? && actions != []
    ensures var n := |actions| - 1;
            Run(actions[..n]).Some? && Next(Run(actions[..n]).value, actions[n]) == Run(actions)
  {
    hide Next;
  }

  lemma {:induction false} PrefixRuns(actions: seq<Action>, i: nat)
    requires Run(actions).Some? && i <= |actions|
    ensures Run(actions[..i]).Some?
    decreases |actions|
  {
    hide Next;
    if i == |actions| {
      assert actions[..i] == actions;
    } else {
      LastRun(actions);
      PrefixRuns(actions[..|actions| - 1], i);
      assert actions[..|actions| - 1][..i] == actions[..i];
    }
  }

  /** Steps of other threads after the end do not matter. */
  lemma EndedLater(actions: seq<Action>, t: Tid, k: nat, i: nat)
    requires actions != [] && actions[|actions| - 1].t != t && EndedAt(actions[..|actions| - 1], t, k, i)
    requires Run(actions).Some? && PcOf(Run(actions).value, t) == PcOf(Run(actions[..|actions| - 1]).value, t)
    ensures EndedAt(actions, t, k, i)
  {
    hide Run, EndsWith;
    var before := actions[..|actions| - 1];
    assert before[..k] == actions[..k] && before[..i] == actions[..i];
    assert forall j | 0 <= j < |before| :: before[j] == actions[j];
  }

  lemma EndedNow(actions: seq<Action>, t: Tid, k: nat)
    requires k < |actions| && actions[|actions| - 1].t == t
    requires Run(actions).Some? && Run(actions[..k]).Some? && Run(actions[..|actions| - 1]).Some?
    requires var n := |actions| - 1;
             EndsWith(Run(actions[..k]).value, actions[k], Run(actions[..n]).value, actions[n], PcOf(Run(actions).value, t))
    ensures EndedAt(actions, t, k, |actions| - 1)
  {
    hide Run, EndsWith;
  }

  lemma CallBefore(actions: seq<Action>, t: Tid, k: nat)
    requires CallFrom(actions, t, k) && k < |actions| - 1
    ensures CallFrom(actions[..|actions| - 1], t, k) && actions[..|actions| - 1][..k] == actions[..k]
  {
  }

  /** In every run, a call is under way as it should be or it has ended as it should. */
  lemma {:induction false} CallOutcome(actions: seq<Action>, t: Tid, k: nat)
    requires Run(actions).Some? && CallFrom(actions, t, k)
    ensures Run(actions[..k]).Some?
    ensures var pc := PcOf(Run(actions).value, t);
            || Pursues(Run(actions[..k]).value, actions[k], pc)
            || (Resting(pc) && Ended(actions, t, k))
    decreases |actions|
  {
    hide Next, Run, Inv, Pursues, EndsWith, EndedAt, StepFacts;
    var n := |actions| - 1;
    var before, a := actions[..n], actions[n];
    LastRun(actions);
    if k == n {
      StartStep(Run(before).value, a, Run(actions).value);
      if Resting(PcOf(Run(actions).value, t)) && EndsWith(Run(before).value, a, Run(before).value, a, PcOf(Run(actions).value, t)) {
        EndedNow(actions, t, k);
      }
    } else {
      CallBefore(actions, t, k);
      CallOutcome(before, t, k);
      CallGoesOn(actions, t, k);
    }
  }

  lemma CallGoesOn(actions: seq<Action>, t: Tid, k: nat)
    requires Run(actions).Some? && CallFrom(actions, t, k) && k < |actions| - 1 && Run(actions[..k]).Some?
    requires Run(actions[..|actions| - 1]).Some?
    requires var pc := PcOf(Run(actions[..|actions| - 1]).value, t);
             || Pursues(Run(actions[..k]).value, actions[k], pc)
             || (Resting(pc) && Ended(actions[..|actions| - 1], t, k))
    ensures var pc := PcOf(Run(actions).value, t);
            || Pursues(Run(actions[..k]).value, actions[k], pc)
            || (Resting(pc) && Ended(actions, t, k))
  {
    hide Next, Run, Inv, Pursues, EndsWith, EndedAt;
    var n := |actions| - 1;
    var before, a := actions[..n], actions[n];
    LastRun(actions);
    var s, s' := Run(before).value, Run(actions).value;
    if a.t == t {
      TakesStep(s, a, s');
      NotResting(PcOf(s, t), a);
      RunKeeps(before);
      CallStep(Run(actions[..k]).value, actions[k], s, a, s');
      if Resting(PcOf(s', t)) && EndsWith(Run(actions[..k]).value, actions[k], s, a, PcOf(s', t)) {
        EndedNow(actions, t, k);
      }
    } else {
      OtherStays(s, a, s', t);
      if i: nat :| EndedAt(before, t, k, i) {
        EndedLater(actions, t, k, i);
      }
    }
  }

  lemma OtherStays(s: State, a: Action, s': State, t: Tid)
    requires Next(s, a) == Some(s') && a.t != t
    ensures PcOf(s', t) == PcOf(s, t)
  {
    hide Next;
    EveryStep(s, a, s');
  }

  /** Only a start finds its thread at rest. */
  lemma NotResting(pc: Pc, a: Action)
    requires Takes(pc, a) && !Starts(a)
    ensures !Resting(pc)
  {
  }
}
