/** `app/ocache`: the object cache as a transition system.  A step is one critical section of
    `c.mu` or `e.mx`, one call into a load function or an object, or one channel operation;
    any number of threads take steps in any order.  Contexts may be done at any step. */
module ObjectCache {

  import opened Options

  type Id = string
  type Tid = nat
  type Ref = nat
  type Obj = nat

  datatype EntryState = Loading | Active | Closing | Closed

  datatype Error = ErrClosed | ErrNotExists | ErrNilValue | ErrLoadPanic | ErrLoad | ErrContext

  /** The entry struct.  `loaded` says the load channel is closed.  `gen` numbers the close
      channels made so far, `open` says the latest is open.  `loader` and `closer` record the
      thread that runs the load or has acquired the closing transition. */
  datatype Entry = Entry(id: Id, state: EntryState, value: Option<Obj>, loaded: bool, loadErr: Option<Error>,
                         aborted: bool, gen: nat, open: bool, loader: Option<Tid>, closer: Option<Tid>)

  /** Who is responsible for an object: the entry that stores it, or a load that has it in hand. */
  datatype Holder = InEntry(e: Ref) | WithLoader(t: Tid)

  datatype ObjInfo = ObjInfo(id: Id, closes: nat, holder: Holder)

  datatype LoadOutcome = Loaded(o: Obj) | Refused | NilValue | Panic

  /** What follows the current entry: the call ends (RemoveSame remembers its instance), Close's
      pass goes on, or GC's sweep goes on. */
  datatype Then = Finish(target: Option<Obj>) | Pass(rest: seq<Ref>) | Sweep(rest: seq<Ref>)

  datatype Pc =
    | Idle
    | GetLock(id: Id, retries: nat)
    | GetEntry(id: Id, e: Ref, load: bool, retries: nat)
    | GetParked(id: Id, e: Ref, gen: nat, retries: nat)
    | GetWait(id: Id, e: Ref, retries: nat)
    | LoadRun(id: Id, e: Ref, retries: nat)
    | LoadDone(id: Id, e: Ref, retries: nat, outcome: LoadOutcome, aborted: bool)
    | LoadDiscard(id: Id, e: Ref, retries: nat, o: Obj)
    | LoadRelease(id: Id, e: Ref, retries: nat, panics: bool)
    | PickWait(e: Ref)
    | RemWait(e: Ref, next: Then)
    | RemAcquire(e: Ref, next: Then)
    | RemParked(e: Ref, gen: nat, next: Then)
    | TryAcquire(e: Ref, next: Then)
    | TryAsk(e: Ref, next: Then)
    | TryDeclined(e: Ref, next: Then)
    | CloseValue(e: Ref, next: Then)
    | Finalize(e: Ref, next: Then)
    | GotBack(value: Option<Obj>, err: Option<Error>)
    | Returned(removed: bool)
    | Panicked

  /** `passer` is the thread whose Close set the closed flag; `abandoned` are the active entries
      that pass gave up on; `doubleClose` is raised when a closed channel is closed again. */
  datatype State = State(closed: bool, data: map<Id, Ref>, entries: map<Ref, Entry>, objs: map<Obj, ObjInfo>,
                         threads: map<Tid, Pc>, passer: Option<Tid>, abandoned: set<Ref>, doubleClose: bool)

  const MaxLoadRetries := 3

  const Initial := State(false, map[], map[], map[], map[], None, {}, false)

  function PcOf(s: State, t: Tid): Pc {
    if t in s.threads then s.threads[t] else Idle
  }

  function At(s: State, t: Tid, pc: Pc): State {
    s.(threads := s.threads[t := pc])
  }

  predicate Resting(pc: Pc) {
    pc.Idle? || pc.GotBack? || pc.Returned? || pc.Panicked?
  }

  function Continue(next: Then): Pc {
    match next
    case Finish(_) => Returned(false)
    case Pass(rest) => if rest == [] then Returned(false) else RemWait(rest[0], Pass(rest[1..]))
    case Sweep(rest) => if rest == [] then Returned(false) else TryAcquire(rest[0], Sweep(rest[1..]))
  }

  /** The same after this call has removed the entry: a removal call reports it. */
  function Finished(next: Then): Pc {
    if next.Finish? then Returned(true) else Continue(next)
  }

  /** Channel number gen of an entry has been closed. */
  predicate ChannelClosed(en: Entry, gen: nat) {
    gen < en.gen || !en.open
  }

  // ---- the steps ----------------------------------------------------------------------------------

  datatype Action =
    | StartGet(t: Tid, id: Id)
    | LockForGet(t: Tid, newRef: Ref)
    | CheckClosing(t: Tid)
    | WakeGet(t: Tid)
    | TimeoutGet(t: Tid)
    | LoadReturns(t: Tid, outcome: LoadOutcome, aborted: bool)
    | LoadCommit(t: Tid)
    | DiscardValue(t: Tid)
    | ReleaseLoad(t: Tid, ctxAlive: bool)
    | GetLoaded(t: Tid, ctxAlive: bool)
    | StartPick(t: Tid, id: Id)
    | PickLoaded(t: Tid)
    | TimeoutPick(t: Tid)
    | StartRemove(t: Tid, id: Id)
    | StartRemoveSame(t: Tid, id: Id, o: Obj)
    | RemoveLoaded(t: Tid)
    | TimeoutRemove(t: Tid)
    | AcquireClosing(t: Tid)
    | WakeRemove(t: Tid)
    | CallClose(t: Tid)
    | CloseAndDelete(t: Tid)
    | StartTryRemove(t: Tid, id: Id)
    | TryAcquireClosing(t: Tid)
    | CallTryClose(t: Tid, closes: bool)
    | Decline(t: Tid)
    | StartGC(t: Tid, picks: seq<Ref>)
    | StartClose(t: Tid, order: seq<Ref>)
    | Add(t: Tid, id: Id, newRef: Ref, o: Obj)

  function NewEntry(id: Id, t: Tid): Entry {
    Entry(id, Loading, None, false, None, false, 0, false, Some(t), None)
  }

  /** The end of one attempt of Get: retry an aborted load while the caller is alive. */
  function AfterLoad(id: Id, en: Entry, retries: nat, ctxAlive: bool): Pc {
    if en.loadErr.Some? && ctxAlive && en.aborted && retries < MaxLoadRetries then GetLock(id, retries + 1)
    else GotBack(en.value, en.loadErr)
  }

  function Acquired(en: Entry, t: Tid): Entry {
    en.(state := Closing, gen := en.gen + 1, open := true, closer := Some(t))
  }

  /** One object is closed once more. */
  function CloseOnce(s: State, o: Obj): State
    requires o in s.objs
  {
    s.(objs := s.objs[o := s.objs[o].(closes := s.objs[o].closes + 1)])
  }

  /** A load without a value: the entry records the error and leaves the map. */
  function Failed(s: State, t: Tid, pc: Pc, err: Error, aborted: bool, panics: bool): State
    requires pc.LoadDone? && pc.e in s.entries
  {
    At(s.(entries := s.entries[pc.e := s.entries[pc.e].(loadErr := Some(err), aborted := aborted)], data := s.data - {pc.id}),
       t, LoadRelease(pc.id, pc.e, pc.retries, panics))
  }

  /** load's critical section after the load function has returned or panicked. */
  function Commit(s: State, t: Tid, pc: Pc): State
    requires pc.LoadDone? && pc.e in s.entries && (pc.outcome.Loaded? ==> pc.outcome.o in s.objs)
  {
    var en := s.entries[pc.e];
    match pc.outcome
    case Loaded(o) =>
      if s.closed then
        At(s.(entries := s.entries[pc.e := en.(loadErr := Some(ErrClosed))], data := s.data - {pc.id}),
           t, LoadDiscard(pc.id, pc.e, pc.retries, o))
      else
        At(s.(entries := s.entries[pc.e := en.(value := Some(o), state := Active)],
              objs := s.objs[o := s.objs[o].(holder := InEntry(pc.e))]),
           t, LoadRelease(pc.id, pc.e, pc.retries, false))
    case Panic => Failed(s, t, pc, ErrLoadPanic, en.aborted, true)
    case Refused => Failed(s, t, pc, ErrLoad, pc.aborted, false)
    case NilValue => Failed(s, t, pc, ErrNilValue, pc.aborted, false)
  }

  function DoStartGet(s: State, t: Tid, id: Id): Option<State> {
    var pc := PcOf(s, t);
    if Resting(pc) then Some(At(s, t, GetLock(id, 0))) else None
  }

  function DoLockForGet(s: State, t: Tid, newRef: Ref): Option<State> {
    var pc := PcOf(s, t);
    if !pc.GetLock? then None
    else if s.closed then Some(At(s, t, GotBack(None, Some(ErrClosed))))
    else if pc.id in s.data then Some(At(s, t, GetEntry(pc.id, s.data[pc.id], false, pc.retries)))
    else if newRef in s.entries then None
    else Some(At(s.(entries := s.entries[newRef := NewEntry(pc.id, t)], data := s.data[pc.id := newRef]),
                 t, GetEntry(pc.id, newRef, true, pc.retries)))
  }

  function DoCheckClosing(s: State, t: Tid): Option<State> {
    var pc := PcOf(s, t);
    if !pc.GetEntry? || pc.e !in s.entries then None
    else
      var en := s.entries[pc.e];
      Some(At(s, t,
              if en.state == Closing then GetParked(pc.id, pc.e, en.gen, pc.retries)
              else if en.state == Closed then GetLock(pc.id, pc.retries)
              else if pc.load then LoadRun(pc.id, pc.e, pc.retries)
              else GetWait(pc.id, pc.e, pc.retries)))
  }

  function DoWakeGet(s: State, t: Tid): Option<State> {
    var pc := PcOf(s, t);
    if pc.GetParked? && pc.e in s.entries && ChannelClosed(s.entries[pc.e], pc.gen)
    then Some(At(s, t, GetLock(pc.id, pc.retries))) else None
  }

  function DoTimeoutGet(s: State, t: Tid): Option<State> {
    var pc := PcOf(s, t);
    if pc.GetParked? || (pc.GetWait? && pc.e in s.entries && !s.entries[pc.e].loaded)
    then Some(At(s, t, GotBack(None, Some(ErrContext)))) else None
  }

  function DoLoadReturns(s: State, t: Tid, outcome: LoadOutcome, aborted: bool): Option<State> {
    var pc := PcOf(s, t);
    if !pc.LoadRun? || (outcome.Loaded? && outcome.o in s.objs) then None
    else
      var s' := At(s, t, LoadDone(pc.id, pc.e, pc.retries, outcome, aborted));
      Some(if outcome.Loaded? then s'.(objs := s'.objs[outcome.o := ObjInfo(pc.id, 0, WithLoader(t))]) else s')
  }

  function DoLoadCommit(s: State, t: Tid): Option<State> {
    var pc := PcOf(s, t);
    if pc.LoadDone? && pc.e in s.entries && (pc.outcome.Loaded? ==> pc.outcome.o in s.objs) then Some(Commit(s, t, pc)) else None
  }

  function DoDiscardValue(s: State, t: Tid): Option<State> {
    var pc := PcOf(s, t);
    if pc.LoadDiscard? && pc.o in s.objs
    then Some(At(CloseOnce(s, pc.o), t, LoadRelease(pc.id, pc.e, pc.retries, false))) else None
  }

  function DoReleaseLoad(s: State, t: Tid, ctxAlive: bool): Option<State> {
    var pc := PcOf(s, t);
    if !pc.LoadRelease? || pc.e !in s.entries then None
    else
      var en := s.entries[pc.e];
      var s' := s.(entries := s.entries[pc.e := en.(loaded := true, loader := None)], doubleClose := s.doubleClose || en.loaded);
      Some(At(s', t, if pc.panics then Panicked else AfterLoad(pc.id, en, pc.retries, ctxAlive)))
  }

  function DoGetLoaded(s: State, t: Tid, ctxAlive: bool): Option<State> {
    var pc := PcOf(s, t);
    if pc.GetWait? && pc.e in s.entries && s.entries[pc.e].loaded
    then Some(At(s, t, AfterLoad(pc.id, s.entries[pc.e], pc.retries, ctxAlive))) else None
  }

  function DoStartPick(s: State, t: Tid, id: Id): Option<State> {
    var pc := PcOf(s, t);
    if !Resting(pc) then None
    else if s.closed then Some(At(s, t, GotBack(None, Some(ErrClosed))))
    else if id !in s.data || s.data[id] !in s.entries || s.entries[s.data[id]].state in {Closing, Closed}
    then Some(At(s, t, GotBack(None, Some(ErrNotExists))))
    else Some(At(s, t, PickWait(s.data[id])))
  }

  function DoPickLoaded(s: State, t: Tid): Option<State> {
    var pc := PcOf(s, t);
    if pc.PickWait? && pc.e in s.entries && s.entries[pc.e].loaded
    then Some(At(s, t, GotBack(s.entries[pc.e].value, s.entries[pc.e].loadErr))) else None
  }

  function DoTimeoutPick(s: State, t: Tid): Option<State> {
    var pc := PcOf(s, t);
    if pc.PickWait? && pc.e in s.entries && !s.entries[pc.e].loaded
    then Some(At(s, t, GotBack(None, Some(ErrContext)))) else None
  }

  function DoStartRemove(s: State, t: Tid, id: Id): Option<State> {
    var pc := PcOf(s, t);
    if !Resting(pc) then None
    else if s.closed || id !in s.data then Some(At(s, t, Returned(false)))
    else Some(At(s, t, RemWait(s.data[id], Finish(None))))
  }

  function DoStartRemoveSame(s: State, t: Tid, id: Id, o: Obj): Option<State> {
    var pc := PcOf(s, t);
    if !Resting(pc) then None
    else if s.closed || id !in s.data || s.data[id] !in s.entries || s.entries[s.data[id]].value != Some(o)
    then Some(At(s, t, Returned(false)))
    else Some(At(s, t, RemWait(s.data[id], Finish(Some(o)))))
  }

  function DoRemoveLoaded(s: State, t: Tid): Option<State> {
    var pc := PcOf(s, t);
    if pc.RemWait? && pc.e in s.entries && s.entries[pc.e].loaded
    then Some(At(s, t, if s.entries[pc.e].loadErr.Some? then Continue(pc.next) else RemAcquire(pc.e, pc.next))) else None
  }

  function DoTimeoutRemove(s: State, t: Tid): Option<State> {
    var pc := PcOf(s, t);
    if pc.RemParked? then Some(At(s, t, Continue(pc.next)))
    else if pc.RemWait? && pc.e in s.entries && !s.entries[pc.e].loaded
    then Some(At(if pc.next.Pass? && s.entries[pc.e].state == Active then s.(abandoned := s.abandoned + {pc.e}) else s,
                 t, Continue(pc.next)))
    else None
  }

  function DoAcquireClosing(s: State, t: Tid): Option<State> {
    var pc := PcOf(s, t);
    if !pc.RemAcquire? || pc.e !in s.entries then None
    else
      var en := s.entries[pc.e];
      (match en.state
       case Closing => Some(At(s, t, RemParked(pc.e, en.gen, pc.next)))
       case Active => Some(At(s.(entries := s.entries[pc.e := Acquired(en, t)], abandoned := s.abandoned - {pc.e}),
                              t, CloseValue(pc.e, pc.next)))
       case _ => Some(At(s, t, Continue(pc.next))))
  }

  function DoWakeRemove(s: State, t: Tid): Option<State> {
    var pc := PcOf(s, t);
    if pc.RemParked? && pc.e in s.entries && ChannelClosed(s.entries[pc.e], pc.gen)
    then Some(At(s, t, RemAcquire(pc.e, pc.next))) else None
  }

  function DoCallClose(s: State, t: Tid): Option<State> {
    var pc := PcOf(s, t);
    if pc.CloseValue? && pc.e in s.entries && s.entries[pc.e].value.Some? && s.entries[pc.e].value.value in s.objs
    then Some(At(CloseOnce(s, s.entries[pc.e].value.value), t, Finalize(pc.e, pc.next))) else None
  }

  function DoCloseAndDelete(s: State, t: Tid): Option<State> {
    var pc := PcOf(s, t);
    if !pc.Finalize? || pc.e !in s.entries then None
    else
      var en := s.entries[pc.e];
      Some(At(s.(entries := s.entries[pc.e := en.(state := Closed, open := false, closer := None)],
                 data := s.data - {en.id}, doubleClose := s.doubleClose || !en.open),
              t, Finished(pc.next)))
  }

  function DoStartTryRemove(s: State, t: Tid, id: Id): Option<State> {
    var pc := PcOf(s, t);
    if !Resting(pc) then None
    else if s.closed || id !in s.data then Some(At(s, t, Returned(false)))
    else Some(At(s, t, TryAcquire(s.data[id], Finish(None))))
  }

  function DoTryAcquireClosing(s: State, t: Tid): Option<State> {
    var pc := PcOf(s, t);
    if !pc.TryAcquire? || pc.e !in s.entries then None
    else if s.entries[pc.e].state == Active
    then Some(At(s.(entries := s.entries[pc.e := Acquired(s.entries[pc.e], t)], abandoned := s.abandoned - {pc.e}),
                 t, TryAsk(pc.e, pc.next)))
    else Some(At(s, t, Continue(pc.next)))
  }

  function DoCallTryClose(s: State, t: Tid, closes: bool): Option<State> {
    var pc := PcOf(s, t);
    if !pc.TryAsk? then None
    else if !closes then Some(At(s, t, TryDeclined(pc.e, pc.next)))
    else if pc.e in s.entries && s.entries[pc.e].value.Some? && s.entries[pc.e].value.value in s.objs
    then Some(At(CloseOnce(s, s.entries[pc.e].value.value), t, Finalize(pc.e, pc.next)))
    else None
  }

  function DoDecline(s: State, t: Tid): Option<State> {
    var pc := PcOf(s, t);
    if !pc.TryDeclined? || pc.e !in s.entries then None
    else if s.closed then Some(At(s, t, CloseValue(pc.e, pc.next)))
    else
      var en := s.entries[pc.e];
      Some(At(s.(entries := s.entries[pc.e := en.(state := Active, open := false, closer := None)],
                 doubleClose := s.doubleClose || !en.open),
              t, Continue(pc.next)))
  }

  function DoStartGC(s: State, t: Tid, picks: seq<Ref>): Option<State> {
    var pc := PcOf(s, t);
    if !Resting(pc) then None
    else if s.closed then Some(At(s, t, Returned(false)))
    else if forall e | e in picks :: e in s.data.Values && e in s.entries && s.entries[e].state == Active
    then Some(At(s, t, Continue(Sweep(picks))))
    else None
  }

  function DoStartClose(s: State, t: Tid, order: seq<Ref>): Option<State> {
    var pc := PcOf(s, t);
    if !Resting(pc) then None
    else if s.closed then Some(At(s, t, Returned(false)))
    else if (set e | e in order) == s.data.Values
    then Some(At(s.(closed := true, passer := Some(t)), t, Continue(Pass(order))))
    else None
  }

  function DoAdd(s: State, t: Tid, id: Id, newRef: Ref, o: Obj): Option<State> {
    var pc := PcOf(s, t);
    if !Resting(pc) then None
    else if s.closed || id in s.data then Some(At(s, t, Returned(false)))
    else if newRef in s.entries || o in s.objs then None
    else Some(At(s.(entries := s.entries[newRef := NewEntry(id, t).(state := Active, value := Some(o), loaded := true, loader := None)],
                    data := s.data[id := newRef], objs := s.objs[o := ObjInfo(id, 0, InEntry(newRef))]),
                 t, Returned(false)))
  }

  /** The state after action a, or None when a is not enabled in s. */
  function Next(s: State, a: Action): Option<State> {
    match a
    case StartGet(t, id) => DoStartGet(s, t, id)
    case LockForGet(t, newRef) => DoLockForGet(s, t, newRef)
    case CheckClosing(t) => DoCheckClosing(s, t)
    case WakeGet(t) => DoWakeGet(s, t)
    case TimeoutGet(t) => DoTimeoutGet(s, t)
    case LoadReturns(t, outcome, aborted) => DoLoadReturns(s, t, outcome, aborted)
    case LoadCommit(t) => DoLoadCommit(s, t)
    case DiscardValue(t) => DoDiscardValue(s, t)
    case ReleaseLoad(t, ctxAlive) => DoReleaseLoad(s, t, ctxAlive)
    case GetLoaded(t, ctxAlive) => DoGetLoaded(s, t, ctxAlive)
    case StartPick(t, id) => DoStartPick(s, t, id)
    case PickLoaded(t) => DoPickLoaded(s, t)
    case TimeoutPick(t) => DoTimeoutPick(s, t)
    case StartRemove(t, id) => DoStartRemove(s, t, id)
    case StartRemoveSame(t, id, o) => DoStartRemoveSame(s, t, id, o)
    case RemoveLoaded(t) => DoRemoveLoaded(s, t)
    case TimeoutRemove(t) => DoTimeoutRemove(s, t)
    case AcquireClosing(t) => DoAcquireClosing(s, t)
    case WakeRemove(t) => DoWakeRemove(s, t)
    case CallClose(t) => DoCallClose(s, t)
    case CloseAndDelete(t) => DoCloseAndDelete(s, t)
    case StartTryRemove(t, id) => DoStartTryRemove(s, t, id)
    case TryAcquireClosing(t) => DoTryAcquireClosing(s, t)
    case CallTryClose(t, closes) => DoCallTryClose(s, t, closes)
    case Decline(t) => DoDecline(s, t)
    case StartGC(t, picks) => DoStartGC(s, t, picks)
    case StartClose(t, order) => DoStartClose(s, t, order)
    case Add(t, id, newRef, o) => DoAdd(s, t, id, newRef, o)
  }

  /** The steps of Get and Pick. */
  predicate Reads(a: Action) {
    a.StartGet? || a.LockForGet? || a.CheckClosing? || a.WakeGet? || a.TimeoutGet? || a.LoadReturns? || a.LoadCommit? ||
    a.DiscardValue? || a.ReleaseLoad? || a.GetLoaded? || a.StartPick? || a.PickLoaded? || a.TimeoutPick?
  }

  // ---- runs ---------------------------------------------------------------------------------------

  /** The state after a run from the empty cache, or None when some action was not enabled. */
  function Run(actions: seq<Action>): Option<State> {
    if actions == [] then Some(Initial)
    else
      match Run(actions[..|actions| - 1])
      case None => None
      case Some(s) => Next(s, actions[|actions| - 1])
  }

  ghost predicate Reachable(s: State) {
    exists actions :: Run(actions) == Some(s)
  }

  // ---- the invariant --------------------------------------------------------------------------------

  /** The thread has acquired the closing transition of e. */
  predicate Owns(pc: Pc, e: Ref) {
    (pc.TryAsk? || pc.TryDeclined? || pc.CloseValue? || pc.Finalize?) && pc.e == e
  }

  /** The thread runs the load of e. */
  predicate Loads(pc: Pc, e: Ref) {
    ((pc.GetEntry? && pc.load) || pc.LoadRun? || pc.LoadDone? || pc.LoadDiscard? || pc.LoadRelease?) && pc.e == e
  }

  /** The thread has object o in hand, loaded and not stored. */
  predicate HasInHand(pc: Pc, o: Obj) {
    (pc.LoadDone? && pc.outcome == Loaded(o)) || (pc.LoadDiscard? && pc.o == o)
  }

  /** Close's pass will still look at e. */
  predicate Visits(pc: Pc, e: Ref) {
    match pc
    case RemWait(c, Pass(rest)) => e == c || e in rest
    case RemAcquire(c, Pass(rest)) => e == c || e in rest
    case RemParked(c, _, Pass(rest)) => e in rest
    case CloseValue(c, Pass(rest)) => e in rest
    case Finalize(c, Pass(rest)) => e in rest
    case _ => false
  }

  ghost predicate DataOk(s: State, id: Id)
    requires id in s.data
  {
    var e := s.data[id];
    && e in s.entries && s.entries[e].id == id
    && s.entries[e].state != Closed && (s.entries[e].state == Loading ==> s.entries[e].loadErr == None)
  }

  ghost predicate EntryOk(s: State, e: Ref)
    requires e in s.entries
  {
    var en := s.entries[e];
    && (en.state == Active || en.state == Closing || (en.state == Loading && en.loadErr == None) ==>
          en.id in s.data && s.data[en.id] == e)
    && (if en.state == Loading then en.value == None else en.value.Some? && en.loadErr == None)
    && (en.loaded ==> en.value.Some? || en.loadErr.Some?)
    && (en.open <==> en.state == Closing) && (en.state == Closing <==> en.closer.Some?)
    && (en.closer.Some? ==> Owns(PcOf(s, en.closer.value), e))
    && (!en.loaded <==> en.loader.Some?)
    && (en.loader.Some? ==> Loads(PcOf(s, en.loader.value), e))
    && (en.value.Some? ==> ValueOk(s, e, en.value.value))
    && (s.closed && en.state == Active ==> e in s.abandoned || (s.passer.Some? && Visits(PcOf(s, s.passer.value), e)))
  }

  ghost predicate ValueOk(s: State, e: Ref, o: Obj)
    requires e in s.entries
  {
    && o in s.objs && s.objs[o].holder == InEntry(e) && s.objs[o].id == s.entries[e].id
    && (s.entries[e].state == Active ==> s.objs[o].closes == 0)
    && (s.entries[e].state == Closed ==> s.objs[o].closes == 1)
  }

  ghost predicate ObjOk(s: State, o: Obj)
    requires o in s.objs
  {
    && s.objs[o].closes <= 1
    && match s.objs[o].holder
       case InEntry(e) => e in s.entries && s.entries[e].value == Some(o)
       case WithLoader(t) => s.objs[o].closes == 0 ==> HasInHand(PcOf(s, t), o)
  }

  ghost predicate InHandOk(s: State, t: Tid, id: Id, o: Obj) {
    o in s.objs && s.objs[o] == ObjInfo(id, 0, WithLoader(t))
  }

  /** The entry a load is working on, before its result is recorded. */
  ghost predicate LoadPending(s: State, t: Tid, id: Id, e: Ref) {
    && e in s.entries && s.entries[e].id == id && s.entries[e].loader == Some(t)
    && s.entries[e].state == Loading && s.entries[e].loadErr == None
  }

  ghost predicate ThenOk(s: State, t: Tid, e: Ref, next: Then) {
    && e in s.entries
    && match next
       case Finish(target) => target.Some? ==> s.entries[e].value == target
       case Pass(rest) => s.closed && s.passer == Some(t) && forall c | c in rest :: c in s.entries
       case Sweep(rest) => forall c | c in rest :: c in s.entries
  }

  ghost predicate OwnerOk(s: State, t: Tid, e: Ref, next: Then, closes: nat) {
    && ThenOk(s, t, e, next)
    && s.entries[e].closer == Some(t) && s.entries[e].state == Closing
    && s.entries[e].value.Some? && s.entries[e].value.value in s.objs
    && s.objs[s.entries[e].value.value].closes == closes
  }

  ghost predicate ThreadOk(s: State, t: Tid) {
    match PcOf(s, t)
    case Idle => true
    case GetLock(_, _) => true
    case GetEntry(id, e, load, _) => e in s.entries && s.entries[e].id == id && (load ==> LoadPending(s, t, id, e))
    case GetParked(id, e, gen, _) => e in s.entries && gen <= s.entries[e].gen
    case GetWait(id, e, _) => e in s.entries && s.entries[e].id == id
    case LoadRun(id, e, _) => LoadPending(s, t, id, e)
    case LoadDone(id, e, _, outcome, _) => LoadPending(s, t, id, e) && (outcome.Loaded? ==> InHandOk(s, t, id, outcome.o))
    case LoadDiscard(id, e, _, o) =>
      && e in s.entries && s.entries[e].id == id
      && s.entries[e].loader == Some(t) && s.entries[e].loadErr.Some? && s.entries[e].state == Loading
      && s.closed && id !in s.data && InHandOk(s, t, id, o)
    case LoadRelease(id, e, _, panics) =>
      && e in s.entries && s.entries[e].id == id && s.entries[e].loader == Some(t)
      && (s.entries[e].value.Some? || s.entries[e].loadErr.Some?)
    case PickWait(e) => e in s.entries
    case RemWait(e, next) => ThenOk(s, t, e, next)
    case RemAcquire(e, next) => ThenOk(s, t, e, next) && s.entries[e].state != Loading
    case RemParked(e, gen, next) =>
      ThenOk(s, t, e, next) && s.entries[e].state != Loading && gen <= s.entries[e].gen &&
      (next.Pass? ==> s.entries[e].state != Active)
    case TryAcquire(e, next) => ThenOk(s, t, e, next) && !next.Pass?
    case TryAsk(e, next) => OwnerOk(s, t, e, next, 0) && !next.Pass?
    case TryDeclined(e, next) => OwnerOk(s, t, e, next, 0) && !next.Pass?
    case CloseValue(e, next) => OwnerOk(s, t, e, next, 0)
    case Finalize(e, next) => OwnerOk(s, t, e, next, 1)
    case GotBack(value, err) => value.Some? != err.Some?
    case Returned(_) => true
    case Panicked => true
  }

  ghost predicate GlobalOk(s: State) {
    && (s.closed <==> s.passer.Some?)
    && !s.doubleClose
    && (forall e | e in s.abandoned :: e in s.entries && s.entries[e].state == Active)
    && (forall t, u | PcOf(s, t).LoadDiscard? && PcOf(s, u).LoadDiscard? && PcOf(s, t).id == PcOf(s, u).id :: t == u)
  }

  ghost predicate Inv(s: State) {
    && (forall id | id in s.data :: DataOk(s, id))
    && (forall e | e in s.entries :: EntryOk(s, e))
    && (forall o | o in s.objs :: ObjOk(s, o))
    && (forall t :: ThreadOk(s, t))
    && GlobalOk(s)
  }
}
