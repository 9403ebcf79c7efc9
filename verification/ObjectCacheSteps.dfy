/** What every step of the object cache does to the threads' program points and to the entries given up on. */
module ObjectCacheSteps {
  import opened Options
  import opened ObjectCache

  /** How often a Get call has started over. */
  function Retries(pc: Pc): nat {
    match pc
    case GetLock(_, r) => r
    case GetEntry(_, _, _, r) => r
    case GetParked(_, _, _, r) => r
    case GetWait(_, _, r) => r
    case LoadRun(_, _, r) => r
    case LoadDone(_, _, r, _, _) => r
    case LoadDiscard(_, _, r, _) => r
    case LoadRelease(_, _, r, _) => r
    case _ => 0
  }

  /** A value is published and its waiters not released yet: the window of load between unlocking
      the cache and closing the load channel. */
  ghost predicate InWindow(s: State, e: Ref) {
    e in s.entries && s.entries[e].state == Active && !s.entries[e].loaded
  }

  /** The action makes the pass of Close give up inside that window. */
  ghost predicate GivesUpInWindow(s: State, a: Action) {
    a.TimeoutRemove? && var pc := PcOf(s, a.t); pc.RemWait? && pc.next.Pass? && InWindow(s, pc.e)
  }

  /** The action acquires the closing transition of an active entry. */
  ghost predicate Acquires(s: State, a: Action) {
    var pc := PcOf(s, a.t);
    && ((a.AcquireClosing? && pc.RemAcquire?) || (a.TryAcquireClosing? && pc.TryAcquire?))
    && pc.e in s.entries && s.entries[pc.e].state == Active
  }

  /** The entries given up on after the action. */
  ghost function Abandoned(s: State, a: Action): set<Ref> {
    if GivesUpInWindow(s, a) then s.abandoned + {PcOf(s, a.t).e}
    else if Acquires(s, a) then s.abandoned - {PcOf(s, a.t).e}
    else s.abandoned
  }

  /** Where in its call a thread takes the step; a call starts at rest. */
  predicate Takes(pc: Pc, a: Action) {
    match a
    case LockForGet(_, _) => pc.GetLock?
    case CheckClosing(_) => pc.GetEntry?
    case WakeGet(_) => pc.GetParked?
    case TimeoutGet(_) => pc.GetParked? || pc.GetWait?
    case LoadReturns(_, _, _) => pc.LoadRun?
    case LoadCommit(_) => pc.LoadDone?
    case DiscardValue(_) => pc.LoadDiscard?
    case ReleaseLoad(_, _) => pc.LoadRelease?
    case GetLoaded(_, _) => pc.GetWait?
    case PickLoaded(_) => pc.PickWait?
    case TimeoutPick(_) => pc.PickWait?
    case RemoveLoaded(_) => pc.RemWait?
    case TimeoutRemove(_) => pc.RemWait? || pc.RemParked?
    case AcquireClosing(_) => pc.RemAcquire?
    case WakeRemove(_) => pc.RemParked?
    case CallClose(_) => pc.CloseValue?
    case CloseAndDelete(_) => pc.Finalize?
    case TryAcquireClosing(_) => pc.TryAcquire?
    case CallTryClose(_, _) => pc.TryAsk?
    case Decline(_) => pc.TryDeclined?
    case _ => Resting(pc)
  }

  /** The steps that can end a Get or a Pick. */
  predicate Answers(a: Action) {
    a.LockForGet? || a.TimeoutGet? || a.ReleaseLoad? || a.GetLoaded? || a.StartPick? || a.PickLoaded? || a.TimeoutPick?
  }

  /** Where only some steps lead. */
  predicate Reaches(pc: Pc, a: Action) {
    match pc
    case GotBack(_, _) => Answers(a)
    case LoadDone(_, _, _, _, _) => a.LoadReturns?
    case LoadDiscard(_, _, _, _) => a.LoadCommit?
    case LoadRelease(_, _, _, _) => a.LoadCommit? || a.DiscardValue?
    case _ => true
  }

  /** Only the thread that takes a step moves; a call is told that it removed something only by the step
      that finalizes the entry; retries are bounded; and the entries given up on change only when a pass
      gives up inside the window and when an entry is acquired. */
  ghost predicate StepFacts(s: State, a: Action, s': State) {
    && Takes(PcOf(s, a.t), a) && Reaches(PcOf(s', a.t), a)
    && (forall t | t != a.t :: PcOf(s', t) == PcOf(s, t))
    && (PcOf(s', a.t) == Returned(true) <==> a.CloseAndDelete? && PcOf(s, a.t).Finalize? && PcOf(s, a.t).next.Finish?)
    && (Retries(PcOf(s, a.t)) <= MaxLoadRetries ==> Retries(PcOf(s', a.t)) <= MaxLoadRetries)
    && s'.abandoned == Abandoned(s, a)
  }

  /** What moving thread t leaves alone. */
  ghost predicate MovesTo(s: State, t: Tid, b: State, pc: Pc) {
    var s' := At(b, t, pc);
    && PcOf(s', t) == pc && s'.abandoned == b.abandoned
    && forall u | u != t :: PcOf(s', u) == PcOf(s, u)
  }

  lemma Moves(s: State, t: Tid)
    ensures forall b: State, pc {:trigger At(b, t, pc)} | b.threads == s.threads :: MovesTo(s, t, b, pc)
  {
    forall b: State, pc: Pc | b.threads == s.threads
      ensures MovesTo(s, t, b, pc)
    {
    }
  }

  /** Going on with the pass or the sweep reports nothing. */
  lemma GoesOn(next: Then)
    ensures Retries(Continue(next)) == 0 && Continue(next) != Returned(true) && forall a :: Reaches(Continue(next), a)
  {
  }

  lemma WaitsOn(e: Ref, next: Then)
    ensures (forall gen :: Retries(RemParked(e, gen, next)) == 0) && Retries(CloseValue(e, next)) == 0
  {
  }

  lemma StartGetFacts(s: State, t: Tid, id: Id, s': State)
    requires DoStartGet(s, t, id) == Some(s')
    ensures StepFacts(s, StartGet(t, id), s')
  {
  }

  lemma LockForGetFacts(s: State, t: Tid, newRef: Ref, s': State)
    requires DoLockForGet(s, t, newRef) == Some(s')
    ensures StepFacts(s, LockForGet(t, newRef), s')
  {
  }

  lemma CheckClosingFacts(s: State, t: Tid, s': State)
    requires DoCheckClosing(s, t) == Some(s')
    ensures StepFacts(s, CheckClosing(t), s')
  {
  }

  lemma WakeGetFacts(s: State, t: Tid, s': State)
    requires DoWakeGet(s, t) == Some(s')
    ensures StepFacts(s, WakeGet(t), s')
  {
  }

  lemma TimeoutGetFacts(s: State, t: Tid, s': State)
    requires DoTimeoutGet(s, t) == Some(s')
    ensures StepFacts(s, TimeoutGet(t), s')
  {
  }

  lemma LoadReturnsFacts(s: State, t: Tid, outcome: LoadOutcome, aborted: bool, s': State)
    requires DoLoadReturns(s, t, outcome, aborted) == Some(s')
    ensures StepFacts(s, LoadReturns(t, outcome, aborted), s')
  {
  }

  /** What load's critical section does to the thread and to its entry. */
  ghost predicate Commits(s: State, t: Tid, pc: Pc, s': State)
    requires pc.LoadDone? && pc.e in s.entries
  {
    && s'.abandoned == s.abandoned && t in s'.threads && s'.threads == s.threads[t := s'.threads[t]]
    && (s'.threads[t].LoadRelease? || s'.threads[t].LoadDiscard?) && s'.threads[t].retries == pc.retries
    && pc.e in s'.entries && s'.entries == s.entries[pc.e := s'.entries[pc.e]]
    && s'.closed == s.closed && s'.entries[pc.e].loaded == s.entries[pc.e].loaded && s'.entries[pc.e].id == s.entries[pc.e].id
    && (s'.entries[pc.e].state == s.entries[pc.e].state || s'.entries[pc.e].state == Active)
    && s'.entries[pc.e].gen == s.entries[pc.e].gen && s'.entries[pc.e].open == s.entries[pc.e].open
    && (s'.entries[pc.e].state == Closed ==> s.entries[pc.e].state == Closed)
  }

  lemma FailedCommits(s: State, t: Tid, pc: Pc, err: Error, aborted: bool, panics: bool)
    requires pc.LoadDone? && pc.e in s.entries
    ensures Commits(s, t, pc, Failed(s, t, pc, err, aborted, panics))
  {
  }

  lemma CommitMoves(s: State, t: Tid, pc: Pc)
    requires pc.LoadDone? && pc.e in s.entries && (pc.outcome.Loaded? ==> pc.outcome.o in s.objs)
    ensures Commits(s, t, pc, Commit(s, t, pc))
  {
    hide Failed;
    match pc.outcome
    case Loaded(_) =>
    case Panic => FailedCommits(s, t, pc, ErrLoadPanic, s.entries[pc.e].aborted, true);
    case Refused => FailedCommits(s, t, pc, ErrLoad, pc.aborted, false);
    case NilValue => FailedCommits(s, t, pc, ErrNilValue, pc.aborted, false);
  }

  lemma LoadCommitFacts(s: State, t: Tid, s': State)
    requires DoLoadCommit(s, t) == Some(s')
    ensures StepFacts(s, LoadCommit(t), s')
  {
    hide Commit;
    CommitMoves(s, t, PcOf(s, t));
  }

  lemma DiscardValueFacts(s: State, t: Tid, s': State)
    requires DoDiscardValue(s, t) == Some(s')
    ensures StepFacts(s, DiscardValue(t), s')
  {
  }

  lemma ReleaseLoadFacts(s: State, t: Tid, ctxAlive: bool, s': State)
    requires DoReleaseLoad(s, t, ctxAlive) == Some(s')
    ensures StepFacts(s, ReleaseLoad(t, ctxAlive), s')
  {
  }

  lemma GetLoadedFacts(s: State, t: Tid, ctxAlive: bool, s': State)
    requires DoGetLoaded(s, t, ctxAlive) == Some(s')
    ensures StepFacts(s, GetLoaded(t, ctxAlive), s')
  {
  }

  lemma StartPickFacts(s: State, t: Tid, id: Id, s': State)
    requires DoStartPick(s, t, id) == Some(s')
    ensures StepFacts(s, StartPick(t, id), s')
  {
    hide PcOf, At;
    Moves(s, t);
  }

  lemma PickLoadedFacts(s: State, t: Tid, s': State)
    requires DoPickLoaded(s, t) == Some(s')
    ensures StepFacts(s, PickLoaded(t), s')
  {
  }

  lemma TimeoutPickFacts(s: State, t: Tid, s': State)
    requires DoTimeoutPick(s, t) == Some(s')
    ensures StepFacts(s, TimeoutPick(t), s')
  {
  }

  lemma StartRemoveFacts(s: State, t: Tid, id: Id, s': State)
    requires DoStartRemove(s, t, id) == Some(s')
    ensures StepFacts(s, StartRemove(t, id), s')
  {
    hide PcOf, At;
    Moves(s, t);
  }

  lemma StartRemoveSameFacts(s: State, t: Tid, id: Id, o: Obj, s': State)
    requires DoStartRemoveSame(s, t, id, o) == Some(s')
    ensures StepFacts(s, StartRemoveSame(t, id, o), s')
  {
    hide PcOf, At;
    Moves(s, t);
  }

  lemma RemoveLoadedFacts(s: State, t: Tid, s': State)
    requires DoRemoveLoaded(s, t) == Some(s')
    ensures StepFacts(s, RemoveLoaded(t), s')
  {
    hide PcOf, At, Continue;
    Moves(s, t);
    GoesOn(PcOf(s, t).next);
  }

  lemma TimeoutRemoveFacts(s: State, t: Tid, s': State)
    requires DoTimeoutRemove(s, t) == Some(s')
    ensures StepFacts(s, TimeoutRemove(t), s')
  {
    hide PcOf, At, Continue;
    Moves(s, t);
    GoesOn(PcOf(s, t).next);
  }

  lemma AcquireClosingFacts(s: State, t: Tid, s': State)
    requires DoAcquireClosing(s, t) == Some(s')
    ensures StepFacts(s, AcquireClosing(t), s')
  {
    hide PcOf, At, Continue, Acquired, InWindow, Retries;
    Moves(s, t);
    WaitsOn(PcOf(s, t).e, PcOf(s, t).next);
    GoesOn(PcOf(s, t).next);
  }

  lemma WakeRemoveFacts(s: State, t: Tid, s': State)
    requires DoWakeRemove(s, t) == Some(s')
    ensures StepFacts(s, WakeRemove(t), s')
  {
  }

  lemma CallCloseFacts(s: State, t: Tid, s': State)
    requires DoCallClose(s, t) == Some(s')
    ensures StepFacts(s, CallClose(t), s')
  {
  }

  lemma CloseAndDeleteFacts(s: State, t: Tid, s': State)
    requires DoCloseAndDelete(s, t) == Some(s')
    ensures StepFacts(s, CloseAndDelete(t), s')
  {
  }

  lemma StartTryRemoveFacts(s: State, t: Tid, id: Id, s': State)
    requires DoStartTryRemove(s, t, id) == Some(s')
    ensures StepFacts(s, StartTryRemove(t, id), s')
  {
    hide PcOf, At;
    Moves(s, t);
  }

  lemma TryAcquireClosingFacts(s: State, t: Tid, s': State)
    requires DoTryAcquireClosing(s, t) == Some(s')
    ensures StepFacts(s, TryAcquireClosing(t), s')
  {
    hide PcOf, At, Continue;
    Moves(s, t);
    GoesOn(PcOf(s, t).next);
  }

  lemma CallTryCloseFacts(s: State, t: Tid, closes: bool, s': State)
    requires DoCallTryClose(s, t, closes) == Some(s')
    ensures StepFacts(s, CallTryClose(t, closes), s')
  {
  }

  lemma DeclineFacts(s: State, t: Tid, s': State)
    requires DoDecline(s, t) == Some(s')
    ensures StepFacts(s, Decline(t), s')
  {
    hide PcOf, At, Continue;
    Moves(s, t);
    GoesOn(PcOf(s, t).next);
  }

  lemma StartGCFacts(s: State, t: Tid, picks: seq<Ref>, s': State)
    requires DoStartGC(s, t, picks) == Some(s')
    ensures StepFacts(s, StartGC(t, picks), s')
  {
  }

  lemma StartCloseFacts(s: State, t: Tid, order: seq<Ref>, s': State)
    requires DoStartClose(s, t, order) == Some(s')
    ensures StepFacts(s, StartClose(t, order), s')
  {
  }

  lemma AddFacts(s: State, t: Tid, id: Id, newRef: Ref, o: Obj, s': State)
    requires DoAdd(s, t, id, newRef, o) == Some(s')
    ensures StepFacts(s, Add(t, id, newRef, o), s')
  {
    hide NewEntry, Resting, Retries, At, PcOf;
    Moves(s, t);
    GoesOn(Finish(None));
  }

  lemma EveryRead(s: State, a: Action, s': State)
    requires Next(s, a) == Some(s') && Reads(a)
    ensures StepFacts(s, a, s')
  {
    hide StepFacts, GivesUpInWindow, Acquires, Abandoned, PcOf, At,
      DoStartGet, DoLockForGet, DoCheckClosing, DoWakeGet, DoTimeoutGet, DoLoadReturns,
      DoLoadCommit, DoDiscardValue, DoReleaseLoad, DoGetLoaded, DoStartPick, DoPickLoaded,
      DoTimeoutPick, DoStartRemove, DoStartRemoveSame, DoRemoveLoaded, DoTimeoutRemove, DoAcquireClosing,
      DoWakeRemove, DoCallClose, DoCloseAndDelete, DoStartTryRemove, DoTryAcquireClosing, DoCallTryClose,
      DoDecline, DoStartGC, DoStartClose, DoAdd;
    match a
    case StartGet(t, id) => StartGetFacts(s, t, id, s');
    case LockForGet(t, newRef) => LockForGetFacts(s, t, newRef, s');
    case CheckClosing(t) => CheckClosingFacts(s, t, s');
    case WakeGet(t) => WakeGetFacts(s, t, s');
    case TimeoutGet(t) => TimeoutGetFacts(s, t, s');
    case LoadReturns(t, outcome, aborted) => LoadReturnsFacts(s, t, outcome, aborted, s');
    case LoadCommit(t) => LoadCommitFacts(s, t, s');
    case DiscardValue(t) => DiscardValueFacts(s, t, s');
    case ReleaseLoad(t, ctxAlive) => ReleaseLoadFacts(s, t, ctxAlive, s');
    case GetLoaded(t, ctxAlive) => GetLoadedFacts(s, t, ctxAlive, s');
    case StartPick(t, id) => StartPickFacts(s, t, id, s');
    case PickLoaded(t) => PickLoadedFacts(s, t, s');
    case TimeoutPick(t) => TimeoutPickFacts(s, t, s');
  }

  lemma EveryOther(s: State, a: Action, s': State)
    requires Next(s, a) == Some(s') && !Reads(a)
    ensures StepFacts(s, a, s')
  {
    hide StepFacts, GivesUpInWindow, Acquires, Abandoned, PcOf, At,
      DoStartGet, DoLockForGet, DoCheckClosing, DoWakeGet, DoTimeoutGet, DoLoadReturns,
      DoLoadCommit, DoDiscardValue, DoReleaseLoad, DoGetLoaded, DoStartPick, DoPickLoaded,
      DoTimeoutPick, DoStartRemove, DoStartRemoveSame, DoRemoveLoaded, DoTimeoutRemove, DoAcquireClosing,
      DoWakeRemove, DoCallClose, DoCloseAndDelete, DoStartTryRemove, DoTryAcquireClosing, DoCallTryClose,
      DoDecline, DoStartGC, DoStartClose, DoAdd;
    match a
    case StartRemove(t, id) => StartRemoveFacts(s, t, id, s');
    case StartRemoveSame(t, id, o) => StartRemoveSameFacts(s, t, id, o, s');
    case RemoveLoaded(t) => RemoveLoadedFacts(s, t, s');
    case TimeoutRemove(t) => TimeoutRemoveFacts(s, t, s');
    case AcquireClosing(t) => AcquireClosingFacts(s, t, s');
    case WakeRemove(t) => WakeRemoveFacts(s, t, s');
    case CallClose(t) => CallCloseFacts(s, t, s');
    case CloseAndDelete(t) => CloseAndDeleteFacts(s, t, s');
    case StartTryRemove(t, id) => StartTryRemoveFacts(s, t, id, s');
    case TryAcquireClosing(t) => TryAcquireClosingFacts(s, t, s');
    case CallTryClose(t, closes) => CallTryCloseFacts(s, t, closes, s');
    case Decline(t) => DeclineFacts(s, t, s');
    case StartGC(t, picks) => StartGCFacts(s, t, picks, s');
    case StartClose(t, order) => StartCloseFacts(s, t, order, s');
    case Add(t, id, newRef, o) => AddFacts(s, t, id, newRef, o, s');
  }

  lemma EveryStep(s: State, a: Action, s': State)
    requires Next(s, a) == Some(s')
    ensures StepFacts(s, a, s')
  {
    hide StepFacts, Next;
    if Reads(a) {
      EveryRead(s, a, s');
    } else {
      EveryOther(s, a, s');
    }
  }

  // ---- entries ------------------------------------------------------------------------------------------

  /** Two entries hold the same outcome of their load. */
  predicate SameResult(en: Entry, en': Entry) {
    en'.value == en.value && en'.loadErr == en.loadErr && en'.aborted == en.aborted
  }

  /** Which step changes what of entry e: load's critical section its result, the release its load channel,
      and the publication, the acquisition, the decline and the finalization its state.  A close channel that has
      been closed is never opened again; an acquisition makes a new one. */
  predicate EntryStep(pc: Pc, a: Action, e: Ref, en: Entry, en': Entry) {
    && en'.id == en.id && en.gen <= en'.gen && (en'.open && !en.open ==> en.gen < en'.gen)
    && (SameResult(en, en') || (a.LoadCommit? && pc.LoadDone? && pc.e == e))
    && (en'.loaded <==> en.loaded || (a.ReleaseLoad? && pc.LoadRelease? && pc.e == e))
    && (en'.state == en.state ||
        match en'.state
        case Loading => false
        case Active => ((a.LoadCommit? && pc.LoadDone?) || (a.Decline? && pc.TryDeclined?)) && pc.e == e
        case Closing =>
          en.state == Active && ((a.AcquireClosing? && pc.RemAcquire?) || (a.TryAcquireClosing? && pc.TryAcquire?)) && pc.e == e
        case Closed => a.CloseAndDelete? && pc.Finalize? && pc.e == e)
  }

  /** The cache closes once and for all, and entries are never forgotten. */
  ghost predicate EntryFacts(s: State, a: Action, s': State) {
    && (s'.closed <==> s.closed || a.StartClose?)
    && (forall e | e in s.entries :: e in s'.entries && EntryStep(PcOf(s, a.t), a, e, s.entries[e], s'.entries[e]))
    && (forall e | e in s'.entries && e !in s.entries :: (a.LockForGet? || a.Add?) && a.newRef == e)
  }

  /** The steps that write to an entry. */
  predicate Writes(a: Action) {
    a.LockForGet? || a.LoadCommit? || a.ReleaseLoad? || a.AcquireClosing? || a.CloseAndDelete? || a.TryAcquireClosing? ||
    a.Decline? || a.Add?
  }

  lemma ReadsWriteNothing(s: State, a: Action, s': State)
    requires Next(s, a) == Some(s') && Reads(a) && !Writes(a)
    ensures s'.entries == s.entries && s'.closed == s.closed
  {
    hide PcOf, ChannelClosed, Resting, DoLockForGet, DoLoadCommit, DoReleaseLoad, DoStartRemove, DoStartRemoveSame,
      DoRemoveLoaded, DoTimeoutRemove, DoAcquireClosing, DoWakeRemove, DoCallClose, DoCloseAndDelete, DoStartTryRemove,
      DoTryAcquireClosing, DoCallTryClose, DoDecline, DoStartGC, DoStartClose, DoAdd;
  }

  lemma StartsWriteNothing(s: State, a: Action, s': State)
    requires Next(s, a) == Some(s') && (a.StartRemove? || a.StartRemoveSame? || a.StartTryRemove? || a.StartGC? || a.StartClose?)
    ensures s'.entries == s.entries && (s'.closed <==> s.closed || a.StartClose?)
  {
    hide PcOf, Resting, Continue, DoStartGet, DoLockForGet, DoCheckClosing, DoWakeGet, DoTimeoutGet, DoLoadReturns,
      DoLoadCommit, DoDiscardValue, DoReleaseLoad, DoGetLoaded, DoStartPick, DoPickLoaded, DoTimeoutPick, DoRemoveLoaded,
      DoTimeoutRemove, DoAcquireClosing, DoWakeRemove, DoCallClose, DoCloseAndDelete, DoTryAcquireClosing, DoCallTryClose,
      DoDecline, DoAdd;
  }

  lemma OthersWriteNothing(s: State, a: Action, s': State)
    requires Next(s, a) == Some(s') && !Reads(a) && !Writes(a)
    ensures s'.entries == s.entries && (s'.closed <==> s.closed || a.StartClose?)
  {
    hide PcOf, ChannelClosed, Continue, DoStartGet, DoLockForGet, DoCheckClosing, DoWakeGet, DoTimeoutGet, DoLoadReturns,
      DoLoadCommit, DoDiscardValue, DoReleaseLoad, DoGetLoaded, DoStartPick, DoPickLoaded, DoTimeoutPick, DoStartRemove,
      DoStartRemoveSame, DoAcquireClosing, DoCloseAndDelete, DoStartTryRemove, DoTryAcquireClosing, DoDecline, DoStartGC,
      DoStartClose, DoAdd;
    if a.StartRemove? || a.StartRemoveSame? || a.StartTryRemove? || a.StartGC? || a.StartClose? {
      StartsWriteNothing(s, a, s');
    }
  }

  lemma Unwritten(s: State, a: Action, s': State)
    requires !Writes(a) && s'.entries == s.entries && (s'.closed <==> s.closed || a.StartClose?)
    ensures EntryFacts(s, a, s')
  {
  }

  lemma LockWritten(s: State, t: Tid, newRef: Ref, s': State)
    requires DoLockForGet(s, t, newRef) == Some(s')
    ensures EntryFacts(s, LockForGet(t, newRef), s')
  {
    hide PcOf;
  }

  lemma AddWritten(s: State, t: Tid, id: Id, newRef: Ref, o: Obj, s': State)
    requires DoAdd(s, t, id, newRef, o) == Some(s')
    ensures EntryFacts(s, Add(t, id, newRef, o), s')
  {
    hide PcOf, Resting, NewEntry;
  }

  lemma NewlyWritten(s: State, a: Action, s': State)
    requires Next(s, a) == Some(s') && (a.LockForGet? || a.Add?)
    ensures EntryFacts(s, a, s')
  {
    hide PcOf, EntryFacts, DoLockForGet, DoAdd;
    match a
    case LockForGet(t, newRef) => LockWritten(s, t, newRef, s');
    case Add(t, id, newRef, o) => AddWritten(s, t, id, newRef, o, s');
  }

  lemma LoadWritten(s: State, a: Action, s': State)
    requires Next(s, a) == Some(s') && (a.LoadCommit? || a.ReleaseLoad?)
    ensures EntryFacts(s, a, s')
  {
    hide PcOf, AfterLoad, Commit;
    if a.LoadCommit? {
      CommitMoves(s, a.t, PcOf(s, a.t));
    }
  }

  lemma OneWritten(s: State, a: Action, s': State, e: Ref)
    requires e in s.entries && e in s'.entries && s'.entries == s.entries[e := s'.entries[e]]
    requires s'.closed == s.closed && !a.StartClose? && !a.ReleaseLoad? && EntryStep(PcOf(s, a.t), a, e, s.entries[e], s'.entries[e])
    ensures EntryFacts(s, a, s')
  {
    hide PcOf;
  }

  /** An acquisition writes as it should, and so does a step that leaves the entry alone. */
  lemma AcquiredStep(pc: Pc, a: Action, e: Ref, en: Entry, t: Tid)
    requires (a.AcquireClosing? && pc.RemAcquire?) || (a.TryAcquireClosing? && pc.TryAcquire?)
    requires pc.e == e
    ensures en.state == Active ==> EntryStep(pc, a, e, en, Acquired(en, t))
    ensures EntryStep(pc, a, e, en, en)
  {
  }

  lemma AcquireWritten(s: State, t: Tid, s': State)
    requires DoAcquireClosing(s, t) == Some(s')
    ensures EntryFacts(s, AcquireClosing(t), s')
  {
    hide PcOf, Continue, EntryFacts, EntryStep, Acquired;
    var e := PcOf(s, t).e;
    AcquiredStep(PcOf(s, t), AcquireClosing(t), e, s.entries[e], t);
    OneWritten(s, AcquireClosing(t), s', e);
  }

  lemma TryWritten(s: State, t: Tid, s': State)
    requires DoTryAcquireClosing(s, t) == Some(s')
    ensures EntryFacts(s, TryAcquireClosing(t), s')
  {
    hide PcOf, Continue, EntryFacts, EntryStep, Acquired;
    var e := PcOf(s, t).e;
    AcquiredStep(PcOf(s, t), TryAcquireClosing(t), e, s.entries[e], t);
    OneWritten(s, TryAcquireClosing(t), s', e);
  }

  lemma FinalWritten(s: State, t: Tid, s': State)
    requires DoCloseAndDelete(s, t) == Some(s')
    ensures EntryFacts(s, CloseAndDelete(t), s')
  {
    hide PcOf, Finished, EntryFacts;
    OneWritten(s, CloseAndDelete(t), s', PcOf(s, t).e);
  }

  lemma DeclineWritten(s: State, t: Tid, s': State)
    requires DoDecline(s, t) == Some(s')
    ensures EntryFacts(s, Decline(t), s')
  {
    hide PcOf, Continue, EntryFacts;
    OneWritten(s, Decline(t), s', PcOf(s, t).e);
  }

  lemma CloseWritten(s: State, a: Action, s': State)
    requires Next(s, a) == Some(s')
    requires a.AcquireClosing? || a.CloseAndDelete? || a.TryAcquireClosing? || a.Decline?
    ensures EntryFacts(s, a, s')
  {
    hide EntryFacts, DoAcquireClosing, DoTryAcquireClosing, DoCloseAndDelete, DoDecline;
    match a
    case AcquireClosing(t) => AcquireWritten(s, t, s');
    case TryAcquireClosing(t) => TryWritten(s, t, s');
    case CloseAndDelete(t) => FinalWritten(s, t, s');
    case Decline(t) => DeclineWritten(s, t, s');
  }

  lemma EveryEntry(s: State, a: Action, s': State)
    requires Next(s, a) == Some(s')
    ensures EntryFacts(s, a, s')
  {
    hide Next, EntryFacts;
    if !Writes(a) {
      if Reads(a) {
        ReadsWriteNothing(s, a, s');
      } else {
        OthersWriteNothing(s, a, s');
      }
      Unwritten(s, a, s');
    } else if a.LockForGet? || a.Add? {
      NewlyWritten(s, a, s');
    } else if a.LoadCommit? || a.ReleaseLoad? {
      LoadWritten(s, a, s');
    } else {
      CloseWritten(s, a, s');
    }
  }

  /** The flag goes up exactly when a load channel or a close channel that is closed already is closed again. */
  lemma DoubleCloseSeen(s: State, a: Action, s': State)
    requires Next(s, a) == Some(s') && (a.ReleaseLoad? || a.CloseAndDelete? || a.Decline?)
    ensures var pc := PcOf(s, a.t);
            && (pc.LoadRelease? || pc.Finalize? || pc.TryDeclined?) && pc.e in s.entries
            && (s'.doubleClose <==>
                  || s.doubleClose
                  || (if a.ReleaseLoad? then s.entries[pc.e].loaded else !s.entries[pc.e].open && !(a.Decline? && s.closed)))
  {
    hide AfterLoad, Continue, Finished, DoStartGet, DoLockForGet, DoCheckClosing, DoWakeGet, DoTimeoutGet, DoLoadReturns,
      DoLoadCommit, DoDiscardValue, DoGetLoaded, DoStartPick, DoPickLoaded, DoTimeoutPick, DoStartRemove,
      DoStartRemoveSame, DoRemoveLoaded, DoTimeoutRemove, DoAcquireClosing, DoWakeRemove, DoCallClose, DoStartTryRemove,
      DoTryAcquireClosing, DoCallTryClose, DoStartGC, DoStartClose, DoAdd;
  }
}
