/** What callers of the object cache can rely on, for every run of any number of threads: every answer has its
    cause, and a removal that nothing stands in the way of removes. */
module ObjectCacheOutcomes {
  import opened Options
  import opened ObjectCache
  import opened ObjectCacheProof
  import opened ObjectCacheSteps
  import opened ObjectCacheCalls
  import opened ObjectCacheTheorems

  // ---- where results come from ----------------------------------------------------------------------------

  /** At action i the load function called for entry e returns. */
  ghost predicate LoadedAt(actions: seq<Action>, i: nat, e: Ref, outcome: LoadOutcome, aborted: bool) {
    && i < |actions| && Run(actions[..i]).Some?
    && actions[i] == LoadReturns(actions[i].t, outcome, aborted)
    && var pc := PcOf(Run(actions[..i]).value, actions[i].t); pc.LoadRun? && pc.e == e
  }

  /** Action i adds object o to the open cache, as entry e of an id that was free. */
  ghost predicate AddedAt(actions: seq<Action>, i: nat, e: Ref, o: Obj) {
    && i < |actions| && actions[i].Add? && actions[i].newRef == e && actions[i].o == o
    && Run(actions[..i]).Some? && !Run(actions[..i]).value.closed && actions[i].id !in Run(actions[..i]).value.data
  }

  predicate Blank(en: Entry) {
    en.value == None && en.loadErr == None && !en.aborted
  }

  /** The entry records how its load ended; a value that arrives after Close is turned away. */
  predicate Records(closed: bool, en: Entry, outcome: LoadOutcome, aborted: bool) {
    match outcome
    case Loaded(o) => !en.aborted &&
      ((en.value == Some(o) && en.loadErr == None) || (closed && en.value == None && en.loadErr == Some(ErrClosed)))
    case Refused => en.value == None && en.loadErr == Some(ErrLoad) && en.aborted == aborted
    case NilValue => en.value == None && en.loadErr == Some(ErrNilValue) && en.aborted == aborted
    case Panic => en.value == None && en.loadErr == Some(ErrLoadPanic) && !en.aborted
  }

  ghost predicate Explained(actions: seq<Action>, e: Ref, closed: bool, en: Entry) {
    || Blank(en)
    || (exists i: nat, outcome, aborted :: LoadedAt(actions, i, e, outcome, aborted) && Records(closed, en, outcome, aborted))
    || (exists i: nat, o: Obj :: AddedAt(actions, i, e, o) && en.value == Some(o) && en.loadErr == None && !en.aborted)
  }

  lemma LoadedLater(actions: seq<Action>, i: nat, e: Ref, outcome: LoadOutcome, aborted: bool)
    requires actions != [] && LoadedAt(actions[..|actions| - 1], i, e, outcome, aborted)
    ensures LoadedAt(actions, i, e, outcome, aborted)
  {
    hide Run;
    assert actions[..|actions| - 1][..i] == actions[..i];
  }

  lemma AddedLater(actions: seq<Action>, i: nat, e: Ref, o: Obj)
    requires actions != [] && AddedAt(actions[..|actions| - 1], i, e, o)
    ensures AddedAt(actions, i, e, o)
  {
    hide Run;
    assert actions[..|actions| - 1][..i] == actions[..i];
  }

  lemma ExplainedLater(actions: seq<Action>, e: Ref, closed: bool, en: Entry, closed': bool, en': Entry)
    requires actions != [] && Explained(actions[..|actions| - 1], e, closed, en) && SameResult(en, en') && (closed ==> closed')
    ensures Explained(actions, e, closed', en')
  {
    hide LoadedAt, AddedAt;
    var before := actions[..|actions| - 1];
    if !Blank(en) {
      if i: nat, outcome, aborted :| LoadedAt(before, i, e, outcome, aborted) && Records(closed, en, outcome, aborted) {
        LoadedLater(actions, i, e, outcome, aborted);
      } else {
        var i: nat, o: Obj :| AddedAt(before, i, e, o) && en.value == Some(o) && en.loadErr == None && !en.aborted;
        AddedLater(actions, i, e, o);
      }
    }
  }

  ghost predicate InHand(actions: seq<Action>, pc: Pc) {
    pc.LoadDone? ==> exists i: nat :: LoadedAt(actions, i, pc.e, pc.outcome, pc.aborted)
  }

  lemma ReturnIs(s: State, a: Action, s': State)
    requires Next(s, a) == Some(s') && a.LoadReturns?
    ensures PcOf(s, a.t).LoadRun? && PcOf(s', a.t) == LoadDone(PcOf(s, a.t).id, PcOf(s, a.t).e, PcOf(s, a.t).retries, a.outcome, a.aborted)
  {
  }

  lemma ReturnStep(s: State, a: Action, s': State)
    requires Next(s, a) == Some(s') && PcOf(s', a.t).LoadDone?
    ensures a.LoadReturns? && PcOf(s, a.t).LoadRun? && PcOf(s', a.t).e == PcOf(s, a.t).e
    ensures PcOf(s', a.t).outcome == a.outcome && PcOf(s', a.t).aborted == a.aborted
  {
    hide Next;
    EveryStep(s, a, s');
    ReturnIs(s, a, s');
  }

  lemma {:induction false} HandExplained(actions: seq<Action>, t: Tid)
    requires Run(actions).Some?
    ensures InHand(actions, PcOf(Run(actions).value, t))
    decreases |actions|
  {
    if actions != [] {
      hide Next, Run;
      var n: nat := |actions| - 1;
      var before, a := actions[..n], actions[n];
      LastRun(actions);
      var pc := PcOf(Run(actions).value, t);
      if a.t != t {
        HandExplained(before, t);
        OtherStays(Run(before).value, a, Run(actions).value, t);
        if pc.LoadDone? {
          var i: nat :| LoadedAt(before, i, pc.e, pc.outcome, pc.aborted);
          LoadedLater(actions, i, pc.e, pc.outcome, pc.aborted);
        }
      } else if pc.LoadDone? {
        ReturnStep(Run(before).value, a, Run(actions).value);
        assert LoadedAt(actions, n, pc.e, pc.outcome, pc.aborted);
      }
    }
  }

  lemma CommitRecords(s: State, t: Tid, s': State)
    requires DoLoadCommit(s, t) == Some(s') && Blank(s.entries[PcOf(s, t).e])
    ensures var pc := PcOf(s, t);
            pc.e in s'.entries && Records(s'.closed, s'.entries[pc.e], pc.outcome, pc.aborted)
  {
  }

  /** The entry a step makes is blank or holds the object added. */
  lemma NewIs(s: State, a: Action, s': State, e: Ref)
    requires Next(s, a) == Some(s') && e in s'.entries && e !in s.entries && (a.LockForGet? || a.Add?) && a.newRef == e
    ensures a.LockForGet? ==> Blank(s'.entries[e])
    ensures a.Add? ==> !s.closed && a.id !in s.data && s'.entries[e].value == Some(a.o) &&
                       s'.entries[e].loadErr == None && !s'.entries[e].aborted
  {
    hide PcOf, Resting;
  }

  lemma PendingIsBlank(s: State, t: Tid, closed: bool, actions: seq<Action>)
    requires Inv(s) && PcOf(s, t).LoadDone?
    requires PcOf(s, t).e in s.entries ==> Explained(actions, PcOf(s, t).e, closed, s.entries[PcOf(s, t).e])
    ensures PcOf(s, t).e in s.entries && Blank(s.entries[PcOf(s, t).e])
  {
    hide Inv, LoadedAt, AddedAt;
    AtThread(s, t);
    AtEntry(s, PcOf(s, t).e);
  }

  /** Every entry is still blank, or holds what its load or Add brought. */
  lemma {:induction false} EntryExplained(actions: seq<Action>, e: Ref)
    requires Run(actions).Some? && e in Run(actions).value.entries
    ensures Explained(actions, e, Run(actions).value.closed, Run(actions).value.entries[e])
    decreases |actions|
  {
    if actions != [] {
      hide Next, Run, Inv, Explained;
      LastRun(actions);
      var n: nat := |actions| - 1;
      var before, a := actions[..n], actions[n];
      var s, s' := Run(before).value, Run(actions).value;
      EveryEntry(s, a, s');
      if e in s.entries {
        EntryExplained(before, e);
        if SameResult(s.entries[e], s'.entries[e]) {
          ExplainedLater(actions, e, s.closed, s.entries[e], s'.closed, s'.entries[e]);
        } else {
          CommitExplained(actions);
        }
      } else {
        NewIs(s, a, s', e);
        NewExplained(actions, e);
      }
    }
  }

  lemma CommitExplained(actions: seq<Action>)
    requires Run(actions).Some? && actions != [] && Run(actions[..|actions| - 1]).Some?
    requires var s := Run(actions[..|actions| - 1]).value; var a := actions[|actions| - 1]; var pc := PcOf(s, a.t);
             && Next(s, a) == Run(actions) && a.LoadCommit? && pc.LoadDone? && pc.e in s.entries
             && Explained(actions[..|actions| - 1], pc.e, s.closed, s.entries[pc.e])
    ensures var s := Run(actions[..|actions| - 1]).value; var pc := PcOf(s, actions[|actions| - 1].t);
            pc.e in Run(actions).value.entries && Explained(actions, pc.e, Run(actions).value.closed, Run(actions).value.entries[pc.e])
  {
    hide Run, Inv, DoLoadCommit, LoadedAt, AddedAt;
    var before, a := actions[..|actions| - 1], actions[|actions| - 1];
    var s := Run(before).value;
    RunKeeps(before);
    PendingIsBlank(s, a.t, s.closed, before);
    CommitRecords(s, a.t, Run(actions).value);
    HandExplained(before, a.t);
    var pc := PcOf(s, a.t);
    var i: nat :| LoadedAt(before, i, pc.e, pc.outcome, pc.aborted);
    LoadedLater(actions, i, pc.e, pc.outcome, pc.aborted);
  }

  lemma NewExplained(actions: seq<Action>, e: Ref)
    requires Run(actions).Some? && actions != [] && Run(actions[..|actions| - 1]).Some? && e in Run(actions).value.entries
    requires var s, a, en := Run(actions[..|actions| - 1]).value, actions[|actions| - 1], Run(actions).value.entries[e];
             || Blank(en)
             || (a.Add? && a.newRef == e && !s.closed && a.id !in s.data && en.value == Some(a.o) && en.loadErr == None && !en.aborted)
    ensures Explained(actions, e, Run(actions).value.closed, Run(actions).value.entries[e])
  {
    hide Run;
    var n: nat := |actions| - 1;
    if !Blank(Run(actions).value.entries[e]) {
      assert AddedAt(actions, n, e, actions[n].o);
    }
  }

  // ---- what stays -----------------------------------------------------------------------------------------

  /** Entries are never forgotten and keep their id; a closed cache stays closed. */
  lemma {:induction false} Stays(actions: seq<Action>, m: nat)
    requires Run(actions).Some? && m <= |actions|
    ensures Run(actions[..m]).Some? && (Run(actions[..m]).value.closed ==> Run(actions).value.closed)
    ensures forall e | e in Run(actions[..m]).value.entries ::
              e in Run(actions).value.entries && Run(actions).value.entries[e].id == Run(actions[..m]).value.entries[e].id
    decreases |actions|
  {
    hide Next, Run;
    if m == |actions| {
      assert actions[..m] == actions;
    } else {
      LastRun(actions);
      var before := actions[..|actions| - 1];
      Stays(before, m);
      assert before[..m] == actions[..m];
      EveryEntry(Run(before).value, actions[|actions| - 1], Run(actions).value);
    }
  }

  lemma LoadedInPrefix(actions: seq<Action>, m: nat, i: nat, e: Ref, outcome: LoadOutcome, aborted: bool)
    requires m <= |actions| && LoadedAt(actions[..m], i, e, outcome, aborted)
    ensures LoadedAt(actions, i, e, outcome, aborted)
  {
    hide Run;
    assert actions[..m][..i] == actions[..i];
  }

  lemma AddedInPrefix(actions: seq<Action>, m: nat, i: nat, e: Ref, o: Obj)
    requires m <= |actions| && AddedAt(actions[..m], i, e, o)
    ensures AddedAt(actions, i, e, o)
  {
    hide Run;
    assert actions[..m][..i] == actions[..i];
  }

  // ---- every answer has its cause -------------------------------------------------------------------------

  /** At action i a load function called for id returns. */
  ghost predicate ReturnedFor(actions: seq<Action>, i: nat, id: Id, outcome: LoadOutcome) {
    && i < |actions| && actions[i].LoadReturns? && actions[i].outcome == outcome && Run(actions[..i]).Some?
    && var pc := PcOf(Run(actions[..i]).value, actions[i].t); pc.LoadRun? && pc.id == id
  }

  /** Action i adds o under id, which was free in the open cache. */
  ghost predicate AddedFor(actions: seq<Action>, i: nat, id: Id, o: Obj) {
    && i < |actions| && actions[i].Add? && actions[i].id == id && actions[i].o == o
    && Run(actions[..i]).Some? && !Run(actions[..i]).value.closed && id !in Run(actions[..i]).value.data
  }

  /** The result of an entry of id: a value some load of id returned or some Add brought, or else an error for what
      a load of id did; a value that came after Close is reported as ErrClosed. */
  ghost predicate Sourced(actions: seq<Action>, id: Id, value: Option<Obj>, err: Option<Error>) {
    match err
    case None => value.Some? &&
      ((exists i: nat :: ReturnedFor(actions, i, id, Loaded(value.value))) || (exists i: nat :: AddedFor(actions, i, id, value.value)))
    case Some(ErrClosed) => value == None && Run(actions).Some? && Run(actions).value.closed
    case Some(ErrLoad) => value == None && exists i: nat :: ReturnedFor(actions, i, id, Refused)
    case Some(ErrNilValue) => value == None && exists i: nat :: ReturnedFor(actions, i, id, NilValue)
    case Some(ErrLoadPanic) => value == None && exists i: nat :: ReturnedFor(actions, i, id, Panic)
    case Some(_) => false
  }

  lemma LoadedForId(actions: seq<Action>, m: nat, i: nat, e: Ref, outcome: LoadOutcome, aborted: bool)
    requires m <= |actions| && Run(actions).Some? && LoadedAt(actions[..m], i, e, outcome, aborted) && Run(actions[..m]).Some?
    requires e in Run(actions[..m]).value.entries
    ensures ReturnedFor(actions, i, Run(actions[..m]).value.entries[e].id, outcome)
  {
    hide Run, Inv;
    LoadedInPrefix(actions, m, i, e, outcome, aborted);
    RunKeeps(actions[..i]);
    AtThread(Run(actions[..i]).value, actions[i].t);
    Stays(actions[..m], i);
    assert actions[..m][..i] == actions[..i];
  }

  lemma AddedForId(actions: seq<Action>, m: nat, i: nat, e: Ref, o: Obj)
    requires m <= |actions| && Run(actions).Some? && AddedAt(actions[..m], i, e, o) && Run(actions[..m]).Some?
    requires e in Run(actions[..m]).value.entries
    ensures AddedFor(actions, i, Run(actions[..m]).value.entries[e].id, o)
  {
    hide Run, Next;
    AddedInPrefix(actions, m, i, e, o);
    assert actions[..m][..i] == actions[..i] && actions[..m][..i + 1] == actions[..i + 1];
    Stays(actions[..m], i + 1);
    LastRun(actions[..i + 1]);
    assert actions[..i + 1][..i] == actions[..i];
    AddIs(Run(actions[..i]).value, actions[i], Run(actions[..i + 1]).value);
  }

  /** Add on a free id of an open cache maps the id to the object, ready to be returned. */
  lemma AddIs(s: State, a: Action, s': State)
    requires Next(s, a) == Some(s') && a.Add? && !s.closed && a.id !in s.data
    ensures s'.data == s.data[a.id := a.newRef] && a.newRef in s'.entries && PcOf(s', a.t) == Returned(false)
    ensures var en := s'.entries[a.newRef];
            en.id == a.id && en.state == Active && en.loaded && en.value == Some(a.o) && en.loadErr == None
    ensures a.o in s'.objs && s'.objs[a.o].closes == 0
  {
  }

  /** The result of an entry, read at action m of the run. */
  lemma ResultSourced(actions: seq<Action>, m: nat, e: Ref)
    requires m <= |actions| && Run(actions).Some? && Run(actions[..m]).Some? && e in Run(actions[..m]).value.entries
    requires var en := Run(actions[..m]).value.entries[e]; en.value.Some? != en.loadErr.Some?
    ensures var en := Run(actions[..m]).value.entries[e];
            Sourced(actions, en.id, en.value, en.loadErr)
  {
    hide Run, LoadedAt, AddedAt, ReturnedFor, AddedFor;
    var en := Run(actions[..m]).value.entries[e];
    EntryExplained(actions[..m], e);
    Stays(actions, m);
    if i: nat, outcome, aborted :| LoadedAt(actions[..m], i, e, outcome, aborted) && Records(Run(actions[..m]).value.closed, en, outcome, aborted) {
      LoadedForId(actions, m, i, e, outcome, aborted);
    } else {
      var i: nat, o: Obj :| AddedAt(actions[..m], i, e, o) && en.value == Some(o) && en.loadErr == None;
      AddedForId(actions, m, i, e, o);
    }
  }

  /** Why the call of t that action k started got value and err. */
  ghost predicate Caused(actions: seq<Action>, t: Tid, k: nat, value: Option<Obj>, err: Option<Error>)
    requires k < |actions| && (actions[k].StartGet? || actions[k].StartPick?)
  {
    if err == Some(ErrContext) then
      value == None && exists i :: k < i < |actions| && actions[i] == if actions[k].StartGet? then TimeoutGet(t) else TimeoutPick(t)
    else if err == Some(ErrNotExists) then
      && value == None && actions[k].StartPick? && Run(actions[..k]).Some?
      && !Run(actions[..k]).value.closed && !Available(Run(actions[..k]).value, actions[k].id)
    else Sourced(actions, actions[k].id, value, err)
  }

  lemma GetCaused(actions: seq<Action>, t: Tid, k: nat, i: nat)
    requires Run(actions).Some? && EndedAt(actions, t, k, i) && actions[k].StartGet?
    requires var pc := PcOf(Run(actions).value, t); pc.GotBack? && pc.value.Some? != pc.err.Some?
    ensures Caused(actions, t, k, PcOf(Run(actions).value, t).value, PcOf(Run(actions).value, t).err)
  {
    hide Run, ReturnedFor, AddedFor;
    var s, a := Run(actions[..i]).value, actions[i];
    assert i != k;
    if a.LockForGet? {
      Stays(actions, i);
    } else if !a.TimeoutGet? {
      ResultSourced(actions, i, PcOf(s, t).e);
    } else {
      assert actions[i] == TimeoutGet(t);
    }
  }

  lemma PickRead(actions: seq<Action>, t: Tid, k: nat, i: nat)
    requires Run(actions).Some? && EndedAt(actions, t, k, i) && actions[k].StartPick? && actions[i].PickLoaded?
    requires Available(Run(actions[..k]).value, actions[k].id) && EntryIds(Run(actions[..k]).value)
    requires var pc := PcOf(Run(actions).value, t); pc.GotBack? && pc.value.Some? != pc.err.Some?
    ensures Sourced(actions, actions[k].id, PcOf(Run(actions).value, t).value, PcOf(Run(actions).value, t).err)
  {
    hide Run, Sourced;
    assert actions[..i][..k] == actions[..k];
    Stays(actions[..i], k);
    ResultSourced(actions, i, Run(actions[..k]).value.data[actions[k].id]);
  }

  lemma PickCaused(actions: seq<Action>, t: Tid, k: nat, i: nat)
    requires Run(actions).Some? && EndedAt(actions, t, k, i) && actions[k].StartPick?
    requires var pc := PcOf(Run(actions).value, t); pc.GotBack? && pc.value.Some? != pc.err.Some?
    requires EntryIds(Run(actions[..k]).value)
    ensures Caused(actions, t, k, PcOf(Run(actions).value, t).value, PcOf(Run(actions).value, t).err)
  {
    hide Run, EntryIds, ReturnedFor, AddedFor;
    var s0 := Run(actions[..k]).value;
    if s0.closed {
      Stays(actions, k);
    } else if Available(s0, actions[k].id) {
      hide Available, Sourced;
      if actions[i].PickLoaded? {
        PickRead(actions, t, k, i);
        NoWait(actions, actions[k].id, PcOf(Run(actions).value, t).value, PcOf(Run(actions).value, t).err);
      } else {
        assert i != k && actions[i] == TimeoutPick(t);
      }
    }
  }

  /** No entry records a caller's deadline or a missing id. */
  lemma NoWait(actions: seq<Action>, id: Id, value: Option<Obj>, err: Option<Error>)
    requires Sourced(actions, id, value, err)
    ensures err != Some(ErrContext) && err != Some(ErrNotExists)
  {
  }

  /** Every mapped entry carries its id. */
  ghost predicate EntryIds(s: State) {
    forall id | id in s.data :: s.data[id] in s.entries && s.entries[s.data[id]].id == id
  }

  lemma MappedIds(s: State)
    requires Inv(s)
    ensures EntryIds(s)
  {
  }

  /** In every run, a Get or a Pick that is over got a value that was loaded or added for its id, or an error that
      has its cause: ErrClosed a closed cache, the context's error a deadline of this very call, ErrNotExists
      a Pick that found nothing to wait for, and the others what a load of the id did. */
  lemma AnswersHaveCauses(actions: seq<Action>, t: Tid, k: nat)
    requires Run(actions).Some? && CallFrom(actions, t, k) && (actions[k].StartGet? || actions[k].StartPick?)
    requires PcOf(Run(actions).value, t).GotBack?
    ensures Caused(actions, t, k, PcOf(Run(actions).value, t).value, PcOf(Run(actions).value, t).err)
  {
    hide Run, Inv, EndedAt, Caused, EntryIds;
    CallOutcome(actions, t, k);
    RunKeeps(actions);
    AtThread(Run(actions).value, t);
    var i: nat :| EndedAt(actions, t, k, i);
    if actions[k].StartGet? {
      GetCaused(actions, t, k, i);
    } else {
      RunKeeps(actions[..k]);
      MappedIds(Run(actions[..k]).value);
      PickCaused(actions, t, k, i);
    }
  }

  // ---- retries --------------------------------------------------------------------------------------------

  /** The call reads the error of a load that was killed while the caller itself is alive. */
  predicate Killed(s: State, a: Action) {
    var pc := PcOf(s, a.t);
    ReadsResult(pc, a) && pc.e in s.entries && s.entries[pc.e].loadErr.Some? && s.entries[pc.e].aborted && a.ctxAlive
  }

  /** How often the Get that action k started has started over: whenever it met a killed load, up to three times. */
  ghost function StartedOver(actions: seq<Action>, t: Tid, k: nat): nat
    requires k < |actions|
    decreases |actions|
  {
    if |actions| == k + 1 then 0
    else
      var before, a := actions[..|actions| - 1], actions[|actions| - 1];
      var r := StartedOver(before, t, k);
      if a.t == t && Run(before).Some? && Killed(Run(before).value, a) && r < 3 then r + 1 else r
  }

  lemma StartedOverStep(actions: seq<Action>, t: Tid, k: nat)
    requires k < |actions| - 1 && Run(actions[..|actions| - 1]).Some?
    ensures var before, a := actions[..|actions| - 1], actions[|actions| - 1];
            var r := StartedOver(before, t, k);
            StartedOver(actions, t, k) == if a.t == t && Killed(Run(before).value, a) && r < 3 then r + 1 else r
  {
    hide Run, Killed;
  }

  /** The counter of a Get under way is the number of times it has started over. */
  lemma {:induction false} RetriesCount(actions: seq<Action>, t: Tid, k: nat)
    requires Run(actions).Some? && CallFrom(actions, t, k) && actions[k].StartGet?
    requires !Resting(PcOf(Run(actions).value, t))
    ensures Seeks(PcOf(Run(actions).value, t), actions[k].id)
    ensures Retries(PcOf(Run(actions).value, t)) == StartedOver(actions, t, k)
    decreases |actions|
  {
    hide Next, Run, Inv, Killed, Retries, GetGoesOn, GetEnds, Resting;
    var n := |actions| - 1;
    var before, a := actions[..n], actions[n];
    LastRun(actions);
    var s, s' := Run(before).value, Run(actions).value;
    if k == n {
      StartsAtZero(s, a, s');
    } else {
      CallBefore(actions, t, k);
      StartedOverStep(actions, t, k);
      if a.t != t {
        OtherStays(s, a, s', t);
        RetriesCount(before, t, k);
      } else {
        TakesStep(s, a, s');
        NotResting(PcOf(s, t), a);
        RetriesCount(before, t, k);
        RunKeeps(before);
        GetStep(s, a, s', actions[k].id);
        CountStep(s, a, actions[k].id, PcOf(s', t));
      }
    }
  }

  lemma StartsAtZero(s: State, a: Action, s': State)
    requires Next(s, a) == Some(s') && a.StartGet?
    ensures PcOf(s', a.t) == GetLock(a.id, 0) && Retries(PcOf(s', a.t)) == 0
  {
    hide DoLoadCommit, DoAdd, DoStartClose, DoStartGC;
  }

  lemma CountStep(s: State, a: Action, id: Id, pc': Pc)
    requires Seeks(PcOf(s, a.t), id) && !Resting(pc') && (GetGoesOn(s, a, id, pc') || GetEnds(s, a, id, pc'))
    ensures var r := Retries(PcOf(s, a.t));
            Seeks(pc', id) && Retries(pc') == if Killed(s, a) && r < 3 then r + 1 else r
  {
    hide PcOf;
    var pc := PcOf(s, a.t);
    if !ReadsResult(pc, a) {
      hide ReadsResult;
    }
  }

  /** A Get that reads the result of a load starts over exactly when the load was killed, the caller is alive and it
      has started over less than three times; else it ends with the result. */
  lemma RetryIff(actions: seq<Action>, t: Tid, k: nat)
    requires Run(actions).Some? && CallFrom(actions, t, k) && actions[k].StartGet? && k < |actions| - 1
    requires Run(actions[..|actions| - 1]).Some?
    requires var s, a := Run(actions[..|actions| - 1]).value, actions[|actions| - 1];
             a.t == t && ReadsResult(PcOf(s, t), a)
    ensures var s, a := Run(actions[..|actions| - 1]).value, actions[|actions| - 1];
            var r := StartedOver(actions[..|actions| - 1], t, k);
            && PcOf(s, t).e in s.entries && s.entries[PcOf(s, t).e].id == actions[k].id
            && PcOf(Run(actions).value, t) ==
               if Killed(s, a) && r < 3 then GetLock(actions[k].id, r + 1)
               else GotBack(s.entries[PcOf(s, t).e].value, s.entries[PcOf(s, t).e].loadErr)
  {
    hide Next, Run, Inv, Resting;
    var before, a := actions[..|actions| - 1], actions[|actions| - 1];
    LastRun(actions);
    var s := Run(before).value;
    CallBefore(actions, t, k);
    TakesStep(s, a, Run(actions).value);
    NotResting(PcOf(s, t), a);
    RetriesCount(before, t, k);
    RunKeeps(before);
    GetStep(s, a, Run(actions).value, actions[k].id);
    AtThread(s, t);
  }

  // ---- removals remove ------------------------------------------------------------------------------------

  /** Action i finalizes entry e. */
  ghost predicate FinalizedAt(actions: seq<Action>, i: nat, e: Ref) {
    && i < |actions| && actions[i].CloseAndDelete? && Run(actions[..i]).Some?
    && var pc := PcOf(Run(actions[..i]).value, actions[i].t); pc.Finalize? && pc.e == e
  }

  /** An entry that was not finalized after k actions and is now has been finalized in between. */
  lemma {:induction false} FinalizedSince(actions: seq<Action>, k: nat, e: Ref) returns (i: nat)
    requires Run(actions).Some? && k < |actions| && Run(actions[..k]).Some?
    requires e in Run(actions[..k]).value.entries && Run(actions[..k]).value.entries[e].state != Closed
    requires e in Run(actions).value.entries && Run(actions).value.entries[e].state == Closed
    ensures k <= i && FinalizedAt(actions, i, e)
    decreases |actions|
  {
    hide Next, Run;
    LastRun(actions);
    var n := |actions| - 1;
    var before, a := actions[..n], actions[n];
    assert before[..k] == actions[..k];
    EveryEntry(Run(before).value, a, Run(actions).value);
    Stays(before, k);
    if k < n && Run(before).value.entries[e].state == Closed {
      i := FinalizedSince(before, k, e);
      assert before[..i] == actions[..i];
    } else {
      i := n;
    }
  }

  /** A thread at rest stays as it is until it starts a call. */
  lemma {:induction false} RestStays(actions: seq<Action>, t: Tid, m: nat)
    requires Run(actions).Some? && m <= |actions| && Run(actions[..m]).Some? && Resting(PcOf(Run(actions[..m]).value, t))
    requires forall j | m <= j < |actions| :: !(actions[j].t == t && Starts(actions[j]))
    ensures PcOf(Run(actions).value, t) == PcOf(Run(actions[..m]).value, t)
    decreases |actions|
  {
    hide Next, Run;
    if m == |actions| {
      assert actions[..m] == actions;
    } else {
      LastRun(actions);
      var n := |actions| - 1;
      var before, a := actions[..n], actions[n];
      assert before[..m] == actions[..m];
      RestStays(before, t, m);
      if a.t == t {
        TakesStep(Run(before).value, a, Run(actions).value);
        NotResting(PcOf(Run(before).value, t), a);
        assert false;
      }
      OtherStays(Run(before).value, a, Run(actions).value, t);
    }
  }

  /** A recorded result stays: no load of the entry can end again. */
  lemma {:induction false} ResultStays(actions: seq<Action>, m: nat, e: Ref)
    requires Run(actions).Some? && m <= |actions| && Run(actions[..m]).Some? && e in Run(actions[..m]).value.entries
    requires var en := Run(actions[..m]).value.entries[e]; en.value.Some? || en.loadErr.Some?
    ensures e in Run(actions).value.entries && SameResult(Run(actions[..m]).value.entries[e], Run(actions).value.entries[e])
    decreases |actions|
  {
    hide Next, Run, Inv;
    if m == |actions| {
      assert actions[..m] == actions;
    } else {
      LastRun(actions);
      var n := |actions| - 1;
      var before, a := actions[..n], actions[n];
      assert before[..m] == actions[..m];
      ResultStays(before, m, e);
      EveryEntry(Run(before).value, a, Run(actions).value);
      RunKeeps(before);
      NotPending(Run(before).value, a.t, e);
    }
  }

  lemma NotPending(s: State, t: Tid, e: Ref)
    requires Inv(s) && e in s.entries && (s.entries[e].value.Some? || s.entries[e].loadErr.Some?)
    ensures !(PcOf(s, t).LoadDone? && PcOf(s, t).e == e)
  {
    hide Inv;
    AtThread(s, t);
    AtEntry(s, e);
  }

  /** A close channel that has been closed stays closed, so that whoever waits for it is woken for good. */
  lemma {:induction false} ChannelStays(actions: seq<Action>, m: nat, e: Ref, gen: nat)
    requires Run(actions).Some? && m <= |actions| && Run(actions[..m]).Some? && e in Run(actions[..m]).value.entries
    requires gen <= Run(actions[..m]).value.entries[e].gen && ChannelClosed(Run(actions[..m]).value.entries[e], gen)
    ensures e in Run(actions).value.entries && gen <= Run(actions).value.entries[e].gen
    ensures ChannelClosed(Run(actions).value.entries[e], gen)
    decreases |actions|
  {
    hide Next, Run;
    if m == |actions| {
      assert actions[..m] == actions;
    } else {
      LastRun(actions);
      var before := actions[..|actions| - 1];
      assert before[..m] == actions[..m];
      ChannelStays(before, m, e, gen);
      EveryEntry(Run(before).value, actions[|actions| - 1], Run(actions).value);
    }
  }

  /** The entry a removal call is about, when there is one: the id is mapped, for RemoveSame to its instance. */
  ghost predicate Targets(s: State, a: Action, e: Ref) {
    match a
    case StartRemove(_, id) => Mapped(s, id) && s.data[id] == e
    case StartRemoveSame(_, id, o) => Holds(s, id, o) && s.data[id] == e
    case StartTryRemove(_, id) => Mapped(s, id) && s.data[id] == e
    case _ => false
  }

  /** A removal without a target reports false. */
  lemma NothingToRemove(actions: seq<Action>, t: Tid, k: nat)
    requires Run(actions).Some? && CallFrom(actions, t, k) && Run(actions[..k]).Some?
    requires actions[k].StartRemove? || actions[k].StartRemoveSame? || actions[k].StartTryRemove?
    requires forall e :: !Targets(Run(actions[..k]).value, actions[k], e)
    ensures PcOf(Run(actions).value, t) == Returned(false)
  {
    hide Run;
    CallOutcome(actions, t, k);
    var s0, a0 := Run(actions[..k]).value, actions[k];
    if Mapped(s0, a0.id) {
      assert !Targets(s0, a0, s0.data[a0.id]);
    }
  }

  /** The run takes step a after action k. */
  predicate Did(actions: seq<Action>, k: nat, a: Action) {
    exists i :: k < i < |actions| && actions[i] == a
  }

  /** Something stood in the way of the call that action k started: its deadline passed, the load failed, or
      another thread finalized the entry meanwhile. */
  ghost predicate Obstructed(actions: seq<Action>, t: Tid, k: nat, e: Ref)
    requires Run(actions).Some?
  {
    || Did(actions, k, TimeoutRemove(t))
    || (e in Run(actions).value.entries && Run(actions).value.entries[e].loadErr.Some?)
    || (exists i: nat :: k < i && FinalizedAt(actions, i, e) && actions[i].t != t)
  }

  lemma PrefixCall(actions: seq<Action>, t: Tid, k: nat, j: nat)
    requires CallFrom(actions, t, k) && k < j <= |actions|
    ensures CallFrom(actions[..j], t, k) && actions[..j][..k] == actions[..k]
  {
  }

  /** A removal call that finalizes an entry reports it. */
  lemma OwnFinalization(actions: seq<Action>, t: Tid, k: nat, j: nat, e: Ref)
    requires Run(actions).Some? && CallFrom(actions, t, k) && k < j && FinalizedAt(actions, j, e) && actions[j].t == t
    requires actions[k].StartRemove? || actions[k].StartRemoveSame? || actions[k].StartTryRemove?
    ensures PcOf(Run(actions).value, t) == Returned(true)
  {
    hide Next, Run, EndedAt, Ended;
    PrefixCall(actions, t, k, j);
    CallOutcome(actions[..j], t, k);
    PrefixRuns(actions, j + 1);
    LastRun(actions[..j + 1]);
    assert actions[..j + 1][..j] == actions[..j];
    EveryStep(Run(actions[..j]).value, actions[j], Run(actions[..j + 1]).value);
    RestStays(actions, t, j + 1);
  }

  lemma MappedNotClosed(s: State, a: Action, e: Ref)
    requires Inv(s) && Targets(s, a, e)
    ensures e in s.entries && s.entries[e].state != Closed && s.entries[e].id == a.id
  {
    hide Inv;
    AtData(s, a.id);
  }

  lemma FinalizedByOther(actions: seq<Action>, t: Tid, k: nat, i: nat, e: Ref)
    requires Run(actions).Some? && CallFrom(actions, t, k) && k < i < |actions| && Run(actions[..k]).Some? && Run(actions[..i]).Some?
    requires actions[k].StartRemove? || actions[k].StartRemoveSame?
    requires Targets(Run(actions[..k]).value, actions[k], e) && PcOf(Run(actions).value, t) == Returned(false)
    requires e in Run(actions[..i]).value.entries && Run(actions[..i]).value.entries[e].state == Closed
    ensures Obstructed(actions, t, k, e)
  {
    hide Run, Inv, FinalizedAt, CallFrom;
    RunKeeps(actions[..k]);
    MappedNotClosed(Run(actions[..k]).value, actions[k], e);
    assert actions[..i][..k] == actions[..k];
    var j := FinalizedSince(actions[..i], k, e);
    FinalizedInPrefix(actions, i, j, e);
    StartsNotFinal(actions, k, j, e);
    if actions[j].t == t {
      OwnFinalization(actions, t, k, j, e);
    }
  }

  lemma FinalizedInPrefix(actions: seq<Action>, m: nat, i: nat, e: Ref)
    requires m <= |actions| && FinalizedAt(actions[..m], i, e)
    ensures FinalizedAt(actions, i, e)
  {
    hide Run;
    assert actions[..m][..i] == actions[..i];
  }

  lemma StartsNotFinal(actions: seq<Action>, k: nat, j: nat, e: Ref)
    requires k < |actions| && !actions[k].CloseAndDelete? && FinalizedAt(actions, j, e)
    ensures j != k && j < |actions|
  {
  }

  /** In every run, a Remove or RemoveSame that has a target and reports false was obstructed. */
  lemma FailedRemovalWasObstructed(actions: seq<Action>, t: Tid, k: nat, e: Ref)
    requires Run(actions).Some? && CallFrom(actions, t, k) && Run(actions[..k]).Some?
    requires actions[k].StartRemove? || actions[k].StartRemoveSame?
    requires Targets(Run(actions[..k]).value, actions[k], e) && PcOf(Run(actions).value, t) == Returned(false)
    ensures Obstructed(actions, t, k, e)
  {
    hide Run, Inv, FinalizedAt, CallFrom;
    CallOutcome(actions, t, k);
    var i: nat :| EndedAt(actions, t, k, i);
    var s, a := Run(actions[..i]).value, actions[i];
    if a.TimeoutRemove? {
      assert actions[i] == TimeoutRemove(t);
    } else if a.RemoveLoaded? {
      ResultStays(actions, i, e);
    } else {
      FinalizedByOther(actions, t, k, i, e);
    }
  }

  /** Finalized once, finalized for good. */
  lemma {:induction false} ClosedStays(actions: seq<Action>, m: nat, e: Ref)
    requires Run(actions).Some? && m <= |actions| && Run(actions[..m]).Some? && e in Run(actions[..m]).value.entries
    requires Run(actions[..m]).value.entries[e].state == Closed
    ensures e in Run(actions).value.entries && Run(actions).value.entries[e].state == Closed
    decreases |actions|
  {
    hide Next, Run, Inv;
    if m == |actions| {
      assert actions[..m] == actions;
    } else {
      LastRun(actions);
      var n := |actions| - 1;
      var before, a := actions[..n], actions[n];
      assert before[..m] == actions[..m];
      ClosedStays(before, m, e);
      EveryEntry(Run(before).value, a, Run(actions).value);
      RunKeeps(before);
      NotReopened(Run(before).value, a.t, e);
    }
  }

  lemma NotReopened(s: State, t: Tid, e: Ref)
    requires Inv(s) && e in s.entries && s.entries[e].state == Closed
    ensures !((PcOf(s, t).LoadDone? || PcOf(s, t).TryDeclined?) && PcOf(s, t).e == e)
  {
    hide Inv;
    AtThread(s, t);
  }

  /** Entry e has left the map for good and its object has been closed once. */
  ghost predicate Removed(s: State, e: Ref) {
    && e in s.entries && s.entries[e].state == Closed && e !in s.data.Values
    && s.entries[e].value.Some? && s.entries[e].value.value in s.objs && s.objs[s.entries[e].value.value].closes == 1
  }

  lemma ClosedIsRemoved(s: State, e: Ref)
    requires Inv(s) && e in s.entries && s.entries[e].state == Closed
    ensures Removed(s, e)
  {
    hide Inv;
    AtEntry(s, e);
    forall id | id in s.data
      ensures s.data[id] != e
    {
      AtData(s, id);
    }
  }

  lemma FinalizeIs(s: State, a: Action, s': State)
    requires Next(s, a) == Some(s') && a.CloseAndDelete?
    ensures PcOf(s, a.t).Finalize? && PcOf(s, a.t).e in s'.entries && s'.entries[PcOf(s, a.t).e].state == Closed
  {
    hide DoLoadCommit, DoAdd, DoStartClose, DoStartGC;
  }

  /** In every run, a removal call that reports true has removed its target. */
  lemma ReportedRemovalRemoved(actions: seq<Action>, t: Tid, k: nat, e: Ref)
    requires Run(actions).Some? && CallFrom(actions, t, k) && Run(actions[..k]).Some?
    requires Targets(Run(actions[..k]).value, actions[k], e) && PcOf(Run(actions).value, t) == Returned(true)
    ensures Removed(Run(actions).value, e)
  {
    hide Next, Run, Inv, CallFrom, Removed;
    CallOutcome(actions, t, k);
    var i: nat :| EndedAt(actions, t, k, i);
    PrefixRuns(actions, i + 1);
    LastRun(actions[..i + 1]);
    assert actions[..i + 1][..i] == actions[..i];
    FinalizeIs(Run(actions[..i]).value, actions[i], Run(actions[..i + 1]).value);
    ClosedStays(actions, i + 1, e);
    RunKeeps(actions);
    ClosedIsRemoved(Run(actions).value, e);
  }

  /** A Remove or RemoveSame that has a target, is over and was not obstructed reports true, and its target is gone. */
  lemma RemovalSucceeds(actions: seq<Action>, t: Tid, k: nat, e: Ref)
    requires Run(actions).Some? && CallFrom(actions, t, k) && Run(actions[..k]).Some?
    requires actions[k].StartRemove? || actions[k].StartRemoveSame?
    requires Targets(Run(actions[..k]).value, actions[k], e) && Resting(PcOf(Run(actions).value, t)) && !Obstructed(actions, t, k, e)
    ensures PcOf(Run(actions).value, t) == Returned(true) && Removed(Run(actions).value, e)
  {
    hide Run, CallFrom, Obstructed, Removed;
    RestsReturned(actions, t, k, e);
    if PcOf(Run(actions).value, t) == Returned(false) {
      FailedRemovalWasObstructed(actions, t, k, e);
    }
    ReportedRemovalRemoved(actions, t, k, e);
  }

  lemma RestsReturned(actions: seq<Action>, t: Tid, k: nat, e: Ref)
    requires Run(actions).Some? && CallFrom(actions, t, k) && Run(actions[..k]).Some?
    requires Targets(Run(actions[..k]).value, actions[k], e) && Resting(PcOf(Run(actions).value, t))
    ensures PcOf(Run(actions).value, t).Returned?
  {
    hide Run, CallFrom;
    CallOutcome(actions, t, k);
  }

  // ---- TryRemove ------------------------------------------------------------------------------------------

  /** What the value has said when a TryRemove is at pc. */
  ghost predicate HasAsked(actions: seq<Action>, t: Tid, k: nat, closed: bool, pc: Pc) {
    var agreed, declined := Did(actions, k, CallTryClose(t, true)), Did(actions, k, CallTryClose(t, false));
    match pc
    case TryDeclined(_, _) => declined
    case CloseValue(_, _) => declined && closed
    case Finalize(_, _) => agreed || (declined && closed)
    case Returned(removed) => removed ==> agreed || (declined && closed)
    case _ => true
  }

  lemma AskedLater(actions: seq<Action>, t: Tid, k: nat, closed: bool, pc: Pc, closed': bool)
    requires actions != [] && HasAsked(actions[..|actions| - 1], t, k, closed, pc) && (closed ==> closed')
    ensures HasAsked(actions, t, k, closed', pc)
  {
    forall a | Did(actions[..|actions| - 1], k, a)
      ensures Did(actions, k, a)
    {
      var i :| k < i < |actions| - 1 && actions[..|actions| - 1][i] == a;
      assert actions[i] == a;
    }
  }

  lemma AskedNow(actions: seq<Action>, t: Tid, k: nat, s: State, s': State)
    requires k < |actions| - 1 && actions[|actions| - 1].t == t && Next(s, actions[|actions| - 1]) == Some(s')
    requires exists e :: Trying(PcOf(s, t), e, Finish(None))
    requires HasAsked(actions[..|actions| - 1], t, k, s.closed, PcOf(s, t)) && (s.closed ==> s'.closed)
    ensures HasAsked(actions, t, k, s'.closed, PcOf(s', t))
  {
    hide Next, PcOf, Did, GivesUp;
    var a := actions[|actions| - 1];
    var e :| Trying(PcOf(s, t), e, Finish(None));
    TryStep(s, a, s', e, Finish(None));
    TakesStep(s, a, s');
    AskedLater(actions, t, k, s.closed, PcOf(s, t), s'.closed);
    DidLast(actions, k);
  }

  lemma DidLast(actions: seq<Action>, k: nat)
    requires k < |actions| - 1
    ensures Did(actions, k, actions[|actions| - 1])
  {
  }

  /** A TryRemove closes the value only if it agreed, or declined when the cache had been closed. */
  lemma {:induction false} Asks(actions: seq<Action>, t: Tid, k: nat)
    requires Run(actions).Some? && CallFrom(actions, t, k) && actions[k].StartTryRemove?
    ensures HasAsked(actions, t, k, Run(actions).value.closed, PcOf(Run(actions).value, t))
    decreases |actions|
  {
    hide Next, Run, HasAsked, EntryFacts, Did;
    var n := |actions| - 1;
    var before, a := actions[..n], actions[n];
    LastRun(actions);
    var s, s' := Run(before).value, Run(actions).value;
    Stays(actions, n);
    if k == n {
      NotAskedYet(actions, t, k, s, s');
    } else {
      CallBefore(actions, t, k);
      Asks(before, t, k);
      if a.t != t {
        OtherStays(s, a, s', t);
        AskedLater(actions, t, k, s.closed, PcOf(s, t), s'.closed);
      } else {
        TakesStep(s, a, s');
        NotResting(PcOf(s, t), a);
        CallOutcome(before, t, k);
        AskedNow(actions, t, k, s, s');
      }
    }
  }

  lemma NotAskedYet(actions: seq<Action>, t: Tid, k: nat, s: State, s': State)
    requires k == |actions| - 1 && actions[k].StartTryRemove? && actions[k].t == t && Next(s, actions[k]) == Some(s')
    ensures HasAsked(actions, t, k, s'.closed, PcOf(s', t))
  {
    hide Did, DoLoadCommit, DoAdd, DoStartClose, DoStartGC;
  }

  /** At action i the call finds entry e loading, or in the hands of another closer, or finalized. */
  ghost predicate BusyAt(actions: seq<Action>, i: nat, t: Tid, e: Ref) {
    && i < |actions| && actions[i] == TryAcquireClosing(t) && Run(actions[..i]).Some?
    && e in Run(actions[..i]).value.entries && Run(actions[..i]).value.entries[e].state != Active
  }

  /** In every run, a TryRemove with a target reports false only if the entry was not active when the call came to it,
      or the value declined; it reports true only if the value agreed, or declined on a closed cache. */
  lemma TryRemoveOutcome(actions: seq<Action>, t: Tid, k: nat, e: Ref)
    requires Run(actions).Some? && CallFrom(actions, t, k) && actions[k].StartTryRemove? && Run(actions[..k]).Some?
    requires Targets(Run(actions[..k]).value, actions[k], e)
    ensures PcOf(Run(actions).value, t) == Returned(false) ==>
              (exists i: nat :: k < i && BusyAt(actions, i, t, e)) || Did(actions, k, CallTryClose(t, false))
    ensures PcOf(Run(actions).value, t) == Returned(true) ==>
              || Did(actions, k, CallTryClose(t, true))
              || (Did(actions, k, CallTryClose(t, false)) && Run(actions).value.closed)
  {
    hide Run, Did, CallFrom;
    Asks(actions, t, k);
    CallOutcome(actions, t, k);
    if PcOf(Run(actions).value, t) == Returned(false) {
      var i: nat :| EndedAt(actions, t, k, i);
      if actions[i].TryAcquireClosing? {
        assert BusyAt(actions, i, t, e);
      } else {
        PrefixCall(actions, t, k, i);
        Asks(actions[..i], t, k);
        DidEarlier(actions, i, k, CallTryClose(t, false));
      }
    }
  }

  lemma DidEarlier(actions: seq<Action>, m: nat, k: nat, a: Action)
    requires m <= |actions|
    ensures Did(actions[..m], k, a) ==> Did(actions, k, a)
  {
    if Did(actions[..m], k, a) {
      var i :| k < i < m && actions[..m][i] == a;
      assert actions[i] == a;
    }
  }

  /** So a TryRemove that finds its target active, and whose value agrees, removes it. */
  lemma TryRemovalSucceeds(actions: seq<Action>, t: Tid, k: nat, e: Ref)
    requires Run(actions).Some? && CallFrom(actions, t, k) && actions[k].StartTryRemove? && Run(actions[..k]).Some?
    requires Targets(Run(actions[..k]).value, actions[k], e) && Resting(PcOf(Run(actions).value, t))
    requires !Did(actions, k, CallTryClose(t, false)) && forall i: nat | k < i :: !BusyAt(actions, i, t, e)
    ensures PcOf(Run(actions).value, t) == Returned(true) && Removed(Run(actions).value, e)
  {
    hide Run, Did, CallFrom, BusyAt, Removed;
    RestsReturned(actions, t, k, e);
    TryRemoveOutcome(actions, t, k, e);
    ReportedRemovalRemoved(actions, t, k, e);
  }

  // ---- a cached value is returned -------------------------------------------------------------------------

  /** A Get of id that has not met another entry than e. */
  predicate Follows(pc: Pc, id: Id, e: Ref) {
    && (pc.GetLock? || (pc.GetEntry? && !pc.load && pc.e == e) || (pc.GetParked? && pc.e == e) || (pc.GetWait? && pc.e == e))
    && pc.id == id
  }

  /** Entry e holds o for id, and has not been finalized. */
  ghost predicate Caches(s: State, id: Id, e: Ref, o: Obj) {
    e in s.entries && s.entries[e].id == id && s.entries[e].value == Some(o) && s.entries[e].state != Closed
  }

  lemma CachedIsMapped(s: State, id: Id, e: Ref, o: Obj)
    requires Inv(s) && Caches(s, id, e, o)
    ensures id in s.data && s.data[id] == e && s.entries[e].loadErr == None
  {
    hide Inv;
    AtEntry(s, e);
  }

  lemma FollowLock(s: State, t: Tid, newRef: Ref, s': State, id: Id, e: Ref)
    requires DoLockForGet(s, t, newRef) == Some(s') && Follows(PcOf(s, t), id, e) && !s.closed && id in s.data && s.data[id] == e
    ensures Follows(PcOf(s', t), id, e)
  {
  }

  lemma FollowCheck(s: State, t: Tid, s': State, id: Id, e: Ref)
    requires DoCheckClosing(s, t) == Some(s') && Follows(PcOf(s, t), id, e) && e in s.entries && s.entries[e].state != Closed
    ensures Follows(PcOf(s', t), id, e)
  {
  }

  lemma FollowWake(s: State, a: Action, s': State, id: Id, e: Ref)
    requires Next(s, a) == Some(s') && (a.WakeGet? || a.TimeoutGet?) && Follows(PcOf(s, a.t), id, e)
    ensures if a.WakeGet? then Follows(PcOf(s', a.t), id, e) else PcOf(s', a.t) == GotBack(None, Some(ErrContext))
  {
    hide DoLoadCommit, DoAdd, DoStartClose, DoStartGC, DoTimeoutRemove, DoAcquireClosing, DoLockForGet, DoReleaseLoad, DoDecline;
  }

  lemma FollowLoaded(s: State, t: Tid, ctxAlive: bool, s': State, id: Id, e: Ref)
    requires DoGetLoaded(s, t, ctxAlive) == Some(s') && Follows(PcOf(s, t), id, e) && e in s.entries && s.entries[e].loadErr == None
    ensures PcOf(s', t) == GotBack(s.entries[e].value, None)
  {
  }

  lemma FollowStep(s: State, a: Action, s': State, id: Id, e: Ref, o: Obj)
    requires Next(s, a) == Some(s') && Follows(PcOf(s, a.t), id, e) && !s.closed
    requires Caches(s, id, e, o) && id in s.data && s.data[id] == e && s.entries[e].loadErr == None
    ensures if a.TimeoutGet? then PcOf(s', a.t) == GotBack(None, Some(ErrContext))
            else if a.GetLoaded? then PcOf(s', a.t) == GotBack(Some(o), None)
            else Follows(PcOf(s', a.t), id, e)
  {
    hide PcOf, DoLockForGet, DoCheckClosing, DoGetLoaded, DoWakeGet, DoTimeoutGet, DoLoadReturns, DoLoadCommit, DoDiscardValue,
      DoReleaseLoad, DoStartPick, DoPickLoaded, DoTimeoutPick, DoStartRemove, DoStartRemoveSame, DoRemoveLoaded,
      DoTimeoutRemove, DoAcquireClosing, DoWakeRemove, DoCallClose, DoCloseAndDelete, DoStartTryRemove, DoTryAcquireClosing,
      DoCallTryClose, DoDecline, DoStartGC, DoStartClose, DoAdd, DoStartGet;
    TakesStep(s, a, s');
    match a
    case LockForGet(t, newRef) => FollowLock(s, t, newRef, s', id, e);
    case CheckClosing(t) => FollowCheck(s, t, s', id, e);
    case GetLoaded(t, ctxAlive) => FollowLoaded(s, t, ctxAlive, s', id, e);
    case _ => FollowWake(s, a, s', id, e);
  }

  lemma CachedAllAlong(actions: seq<Action>, m: nat, id: Id, e: Ref, o: Obj)
    requires Run(actions).Some? && m <= |actions| && Run(actions[..m]).Some?
    requires Caches(Run(actions[..m]).value, id, e, o)
    requires e in Run(actions).value.entries && Run(actions).value.entries[e].state != Closed
    ensures Caches(Run(actions).value, id, e, o)
  {
    hide Run;
    ResultStays(actions, m, e);
    Stays(actions, m);
  }

  /** In every run, a Get of a cached id whose entry is not finalized and whose cache is not closed meanwhile ends
      with the cached object, unless its own deadline passes. */
  lemma {:induction false} CachedIsReturned(actions: seq<Action>, t: Tid, k: nat, e: Ref, o: Obj)
    requires Run(actions).Some? && CallFrom(actions, t, k) && actions[k].StartGet? && Run(actions[..k]).Some?
    requires Caches(Run(actions[..k]).value, actions[k].id, e, o)
    requires !Run(actions).value.closed && e in Run(actions).value.entries && Run(actions).value.entries[e].state != Closed
    ensures var pc := PcOf(Run(actions).value, t);
            || Follows(pc, actions[k].id, e)
            || pc == GotBack(Some(o), None)
            || (pc == GotBack(None, Some(ErrContext)) && Did(actions, k, TimeoutGet(t)))
    decreases |actions|
  {
    hide Next, Run, Inv, Did, Caches;
    var n := |actions| - 1;
    var before, a := actions[..n], actions[n];
    LastRun(actions);
    var s, s' := Run(before).value, Run(actions).value;
    if k == n {
      StartsAtZero(s, a, s');
    } else {
      CallBefore(actions, t, k);
      Stays(actions, n);
      Stays(before, k);
      CachedEntry(Run(actions[..k]).value, actions[k].id, e, o);
      if s.entries[e].state == Closed {
        ClosedStays(actions, n, e);
      }
      CachedIsReturned(before, t, k, e, o);
      if a.t != t {
        OtherStays(s, a, s', t);
        DidEarlier(actions, n, k, TimeoutGet(t));
      } else {
        TakesStep(s, a, s');
        NotResting(PcOf(s, t), a);
        CachedAllAlong(before, k, actions[k].id, e, o);
        RunKeeps(before);
        CachedIsMapped(s, actions[k].id, e, o);
        FollowStep(s, a, s', actions[k].id, e, o);
        DidLast(actions, k);
      }
    }
  }

  lemma CachedEntry(s: State, id: Id, e: Ref, o: Obj)
    requires Caches(s, id, e, o)
    ensures e in s.entries
  {
  }

  lemma PickEnded(actions: seq<Action>, t: Tid, k: nat, i: nat, e: Ref)
    requires EndedAt(actions, t, k, i) && actions[k].StartPick?
    requires Available(Run(actions[..k]).value, actions[k].id) && Run(actions[..k]).value.data[actions[k].id] == e
    ensures k < i && PickEnds(Run(actions[..i]).value, actions[i], e, PcOf(Run(actions).value, t))
  {
    hide Run;
  }

  /** A Pick that finds a value returns it, unless its own deadline passes before the load channel is closed. */
  lemma PickReturnsCached(actions: seq<Action>, t: Tid, k: nat, o: Obj)
    requires Run(actions).Some? && CallFrom(actions, t, k) && actions[k].StartPick? && Run(actions[..k]).Some?
    requires Available(Run(actions[..k]).value, actions[k].id)
    requires var s := Run(actions[..k]).value; s.entries[s.data[actions[k].id]].value == Some(o)
    ensures var pc := PcOf(Run(actions).value, t);
            || pc.PickWait?
            || pc == GotBack(Some(o), None)
            || (pc == GotBack(None, Some(ErrContext)) && Did(actions, k, TimeoutPick(t)))
  {
    var s := Run(actions[..k]).value;
    var e := s.data[actions[k].id];
    hide Run, Inv, Did, EndedAt, Available;
    CallOutcome(actions, t, k);
    if !PcOf(Run(actions).value, t).PickWait? {
      var i: nat :| EndedAt(actions, t, k, i);
      PickEnded(actions, t, k, i, e);
      EndIndex(actions, t, k, i);
      assert actions[..i][..k] == actions[..k];
      ResultStays(actions[..i], k, e);
      RunKeeps(actions[..k]);
      NoErrorWithValue(s, e);
      DidAt(actions, k, i);
    }
  }

  lemma EndIndex(actions: seq<Action>, t: Tid, k: nat, i: nat)
    requires EndedAt(actions, t, k, i)
    ensures k <= i < |actions| && actions[i].t == t && Run(actions[..i]).Some?
  {
  }

  lemma NoErrorWithValue(s: State, e: Ref)
    requires Inv(s) && e in s.entries && s.entries[e].value.Some?
    ensures s.entries[e].loadErr == None
  {
    hide Inv;
    AtEntry(s, e);
  }

  lemma DidAt(actions: seq<Action>, k: nat, i: nat)
    requires k < i < |actions|
    ensures Did(actions, k, actions[i])
  {
  }

  // ---- no value of a closed entry ---------------------------------------------------------------------------

  /** At action j thread t found entry e neither closing nor closed. */
  ghost predicate FoundLiveAt(actions: seq<Action>, j: nat, t: Tid, e: Ref) {
    j < |actions| && actions[j].t == t && Run(actions[..j]).Some? && FindsLive(Run(actions[..j]).value, actions[j], e)
  }

  lemma FoundInPrefix(actions: seq<Action>, m: nat, j: nat, t: Tid, e: Ref)
    requires m <= |actions| && FoundLiveAt(actions[..m], j, t, e)
    ensures FoundLiveAt(actions, j, t, e)
  {
    hide Run;
    assert actions[..m][..j] == actions[..j];
  }

  lemma {:induction false} FoundLive(actions: seq<Action>, t: Tid, k: nat) returns (j: nat)
    requires Run(actions).Some? && CallFrom(actions, t, k) && actions[k].StartGet? && PastCheck(PcOf(Run(actions).value, t))
    ensures k < j && FoundLiveAt(actions, j, t, PcOf(Run(actions).value, t).e)
    decreases |actions|
  {
    hide Next, Run, Inv, FindsLive, PastCheck, FoundLiveAt, Resting;
    var n: nat := |actions| - 1;
    var before, a := actions[..n], actions[n];
    LastRun(actions);
    var s, s' := Run(before).value, Run(actions).value;
    var e := EntryOf(PcOf(s', t));
    if k == n {
      StartsAtZero(s, a, s');
      NotPastCheck(a.id);
      assert false;
    } else if a.t != t {
      CallBefore(actions, t, k);
      OtherStays(s, a, s', t);
      j := FoundLive(before, t, k);
      FoundInPrefix(actions, n, j, t, e);
    } else {
      CallBefore(actions, t, k);
      TakesStep(s, a, s');
      NotResting(PcOf(s, t), a);
      RetriesCount(before, t, k);
      ChecksFirst(s, a, s', actions[k].id);
      if FindsLive(s, a, e) {
        j := n;
        FoundNow(actions, t, e);
      } else {
        j := FoundLive(before, t, k);
        FoundInPrefix(actions, n, j, t, e);
      }
    }
  }

  lemma EntryOf(pc: Pc) returns (e: Ref)
    requires PastCheck(pc)
    ensures (pc.GetWait? || pc.LoadRun? || pc.LoadDone? || pc.LoadDiscard? || pc.LoadRelease?) && e == pc.e
  {
    e := pc.e;
  }

  lemma NotPastCheck(id: Id)
    ensures !PastCheck(GetLock(id, 0))
  {
  }

  lemma FoundNow(actions: seq<Action>, t: Tid, e: Ref)
    requires actions != [] && actions[|actions| - 1].t == t && Run(actions[..|actions| - 1]).Some?
    requires FindsLive(Run(actions[..|actions| - 1]).value, actions[|actions| - 1], e)
    ensures FoundLiveAt(actions, |actions| - 1, t, e)
  {
    hide Run, FindsLive;
  }

  /** In every run, the object a Get returns is that of an entry the call has found neither closing nor closed. */
  lemma ReturnedWasLive(actions: seq<Action>, t: Tid, k: nat, o: Obj) returns (j: nat, e: Ref)
    requires Run(actions).Some? && CallFrom(actions, t, k) && actions[k].StartGet?
    requires PcOf(Run(actions).value, t) == GotBack(Some(o), None)
    ensures k < j && FoundLiveAt(actions, j, t, e)
    ensures e in Run(actions).value.entries && Run(actions).value.entries[e].value == Some(o)
  {
    hide Run, FoundLiveAt, CallFrom;
    CallOutcome(actions, t, k);
    var i: nat :| EndedAt(actions, t, k, i);
    e := PcOf(Run(actions[..i]).value, t).e;
    ResultStays(actions, i, e);
    hide EndedAt;
    StillCalling(actions, t, k, i);
    j := FoundLive(actions[..i], t, k);
    FoundInPrefix(actions, i, j, t, e);
  }

  lemma StillCalling(actions: seq<Action>, t: Tid, k: nat, i: nat)
    requires CallFrom(actions, t, k) && EndedAt(actions, t, k, i) && actions[k].StartGet?
    ensures CallFrom(actions[..i], t, k) && actions[..i][k] == actions[k]
  {
    hide Run;
    assert i != k;
    PrefixCall(actions, t, k, i);
  }

  // ---- panics ---------------------------------------------------------------------------------------------

  /** A thread about to release its load will panic exactly when its load function did. */
  ghost predicate PanicKnown(s: State, pc: Pc) {
    match pc
    case LoadDiscard(_, e, _, _) => e in s.entries && s.entries[e].loadErr == Some(ErrClosed)
    case LoadRelease(_, e, _, panics) => e in s.entries && (panics <==> s.entries[e].loadErr == Some(ErrLoadPanic))
    case _ => true
  }

  lemma FailedPanics(s: State, t: Tid, pc: Pc, err: Error, aborted: bool, panics: bool)
    requires pc.LoadDone? && pc.e in s.entries && (panics <==> err == ErrLoadPanic)
    ensures var s' := Failed(s, t, pc, err, aborted, panics); PanicKnown(s', PcOf(s', t))
  {
  }

  lemma CommitPanicsIs(s: State, t: Tid, pc: Pc)
    requires pc.LoadDone? && pc.e in s.entries && (pc.outcome.Loaded? ==> pc.outcome.o in s.objs) && s.entries[pc.e].loadErr == None
    ensures var s' := Commit(s, t, pc); PanicKnown(s', PcOf(s', t))
  {
    hide Failed;
    match pc.outcome
    case Loaded(_) =>
    case Panic => FailedPanics(s, t, pc, ErrLoadPanic, s.entries[pc.e].aborted, true);
    case Refused => FailedPanics(s, t, pc, ErrLoad, pc.aborted, false);
    case NilValue => FailedPanics(s, t, pc, ErrNilValue, pc.aborted, false);
  }

  lemma CommitPanics(s: State, t: Tid, s': State)
    requires Inv(s) && DoLoadCommit(s, t) == Some(s')
    ensures PanicKnown(s', PcOf(s', t))
  {
    hide Inv, Commit, PanicKnown;
    StillPending(s, t);
    CommitPanicsIs(s, t, PcOf(s, t));
  }

  lemma StillPending(s: State, t: Tid)
    requires Inv(s) && PcOf(s, t).LoadDone?
    ensures var e := PcOf(s, t).e; e in s.entries && s.entries[e].loadErr == None
  {
    hide Inv;
    AtThread(s, t);
  }

  lemma DiscardPanics(s: State, t: Tid, s': State)
    requires DoDiscardValue(s, t) == Some(s') && PanicKnown(s, PcOf(s, t))
    ensures PanicKnown(s', PcOf(s', t))
  {
  }

  lemma ReleasesAfter(s: State, a: Action, s': State)
    requires Next(s, a) == Some(s') && (PcOf(s', a.t).LoadDiscard? || PcOf(s', a.t).LoadRelease?)
    ensures a.LoadCommit? || a.DiscardValue?
  {
    hide Next;
    EveryStep(s, a, s');
  }

  lemma OwnPanicKnown(s: State, a: Action, s': State)
    requires Inv(s) && Next(s, a) == Some(s') && PanicKnown(s, PcOf(s, a.t))
    ensures PanicKnown(s', PcOf(s', a.t))
  {
    hide Inv, DoLoadCommit, DoDiscardValue, PanicKnown;
    if PcOf(s', a.t).LoadDiscard? || PcOf(s', a.t).LoadRelease? {
      hide PcOf;
      ReleasesAfter(s, a, s');
      if a.LoadCommit? {
        CommitPanics(s, a.t, s');
      } else {
        DiscardPanics(s, a.t, s');
      }
    } else {
      OnlyThen(s', PcOf(s', a.t));
    }
  }

  lemma OnlyThen(s: State, pc: Pc)
    requires !pc.LoadDiscard? && !pc.LoadRelease?
    ensures PanicKnown(s, pc)
  {
  }

  lemma OtherPanicKnown(s: State, a: Action, s': State, t: Tid)
    requires Inv(s) && Next(s, a) == Some(s') && a.t != t && PanicKnown(s, PcOf(s, t))
    ensures PanicKnown(s', PcOf(s', t))
  {
    hide Inv, Next;
    OtherStays(s, a, s', t);
    EveryEntry(s, a, s');
    var pc := PcOf(s, t);
    if pc.LoadDiscard? || pc.LoadRelease? {
      Recorded(s, t);
      NotPending(s, a.t, pc.e);
    }
  }

  lemma Recorded(s: State, t: Tid)
    requires Inv(s) && (PcOf(s, t).LoadDiscard? || PcOf(s, t).LoadRelease?)
    ensures var e := PcOf(s, t).e; e in s.entries && (s.entries[e].value.Some? || s.entries[e].loadErr.Some?)
  {
    hide Inv;
    AtThread(s, t);
  }

  lemma {:induction false} PanicIsKnown(actions: seq<Action>, t: Tid)
    requires Run(actions).Some?
    ensures PanicKnown(Run(actions).value, PcOf(Run(actions).value, t))
    decreases |actions|
  {
    if actions != [] {
      hide Next, Run, Inv, PanicKnown;
      LastRun(actions);
      var before, a := actions[..|actions| - 1], actions[|actions| - 1];
      PanicIsKnown(before, t);
      RunKeeps(before);
      if a.t == t {
        OwnPanicKnown(Run(before).value, a, Run(actions).value);
      } else {
        OtherPanicKnown(Run(before).value, a, Run(actions).value, t);
      }
    }
  }

  /** A Get that ran the load itself panics exactly when the load function did. */
  lemma PanicsIffLoadDid(actions: seq<Action>, t: Tid, k: nat, i: nat)
    requires EndedAt(actions, t, k, i) && actions[k].StartGet? && actions[i].ReleaseLoad?
    ensures var s := Run(actions[..i]).value; var e := PcOf(s, t).e;
            && e in s.entries
            && (PcOf(Run(actions).value, t) == Panicked <==> s.entries[e].loadErr == Some(ErrLoadPanic))
            && (PcOf(Run(actions).value, t) == Panicked ==>
                exists j: nat, aborted :: LoadedAt(actions, j, e, Panic, aborted))
  {
    hide Run, LoadedAt, AddedAt;
    PanicIsKnown(actions[..i], t);
    var e := PcOf(Run(actions[..i]).value, t).e;
    EntryExplained(actions[..i], e);
    if PcOf(Run(actions).value, t) == Panicked {
      var j: nat, outcome, aborted :| LoadedAt(actions[..i], j, e, outcome, aborted) &&
        Records(Run(actions[..i]).value.closed, Run(actions[..i]).value.entries[e], outcome, aborted);
      LoadedInPrefix(actions, i, j, e, outcome, aborted);
    }
  }

  // ---- calls can be made ----------------------------------------------------------------------------------

  /** Any call can be started exactly by a thread that is at rest. */
  lemma CallsCanStart(s: State, t: Tid, id: Id, o: Obj)
    ensures Next(s, StartGet(t, id)).Some? <==> Resting(PcOf(s, t))
    ensures Next(s, StartPick(t, id)).Some? <==> Resting(PcOf(s, t))
    ensures Next(s, StartRemove(t, id)).Some? <==> Resting(PcOf(s, t))
    ensures Next(s, StartRemoveSame(t, id, o)).Some? <==> Resting(PcOf(s, t))
    ensures Next(s, StartTryRemove(t, id)).Some? <==> Resting(PcOf(s, t))
  {
    hide At, Continue, PcOf, Resting;
  }

  lemma AddCanStart(s: State, t: Tid, id: Id, o: Obj, e: Ref)
    ensures e !in s.entries && o !in s.objs ==> (Next(s, Add(t, id, e, o)).Some? <==> Resting(PcOf(s, t)))
  {
    hide At, Continue, NewEntry, PcOf;
  }

  /** GC can start on any active entries the map holds, and Close in any order that covers the map. */
  lemma BatchesCanStart(s: State, t: Tid, refs: seq<Ref>)
    requires Resting(PcOf(s, t))
    ensures (forall e | e in refs :: e in s.data.Values && e in s.entries && s.entries[e].state == Active) ==> Next(s, StartGC(t, refs)).Some?
    ensures (forall e :: e in refs <==> e in s.data.Values) ==> Next(s, StartClose(t, refs)).Some?
  {
    hide At, Continue, PcOf;
    if forall e :: e in refs <==> e in s.data.Values {
      assert (set e | e in refs) == s.data.Values;
    }
  }

  // ---- a sweep tries every pick, a pass waits for every entry ---------------------------------------------

  /** After action k the sweep of t asks for the closing transition of e. */
  ghost predicate TriedAt(actions: seq<Action>, i: nat, t: Tid, e: Ref) {
    && i < |actions| && actions[i] == TryAcquireClosing(t) && Run(actions[..i]).Some?
    && var pc := PcOf(Run(actions[..i]).value, t); pc.TryAcquire? && pc.e == e
  }

  /** At action i the pass of t has waited for the load of e, or its time is up. */
  ghost predicate WaitedAt(actions: seq<Action>, i: nat, t: Tid, e: Ref) {
    && i < |actions| && (actions[i] == RemoveLoaded(t) || actions[i] == TimeoutRemove(t)) && Run(actions[..i]).Some?
    && var pc := PcOf(Run(actions[..i]).value, t); pc.RemWait? && pc.e == e
  }

  /** The sweep has tried its j-th pick or has not come past it. */
  ghost predicate SweptTo(actions: seq<Action>, t: Tid, k: nat, pc: Pc, picks: seq<Ref>, j: nat)
    requires j < |picks|
  {
    || (exists i: nat :: k < i && TriedAt(actions, i, t, picks[j]))
    || (exists m: nat :: m <= j && SweepAt(pc, picks, m) && (m == j ==> pc.TryAcquire?))
  }

  ghost predicate PassedTo(actions: seq<Action>, t: Tid, k: nat, pc: Pc, order: seq<Ref>, j: nat)
    requires j < |order|
  {
    || (exists i: nat :: k < i && WaitedAt(actions, i, t, order[j]))
    || (exists m: nat :: m <= j && PassAt(pc, order, m) && (m == j ==> pc.RemWait?))
  }

  lemma SweptLater(actions: seq<Action>, t: Tid, k: nat, pc: Pc, picks: seq<Ref>, j: nat)
    requires actions != [] && j < |picks| && SweptTo(actions[..|actions| - 1], t, k, pc, picks, j)
    ensures SweptTo(actions, t, k, pc, picks, j)
  {
    hide Run, SweepAt;
    var before := actions[..|actions| - 1];
    if i: nat :| k < i && TriedAt(before, i, t, picks[j]) {
      assert before[..i] == actions[..i];
      assert TriedAt(actions, i, t, picks[j]);
    }
  }

  lemma PassedLater(actions: seq<Action>, t: Tid, k: nat, pc: Pc, order: seq<Ref>, j: nat)
    requires actions != [] && j < |order| && PassedTo(actions[..|actions| - 1], t, k, pc, order, j)
    ensures PassedTo(actions, t, k, pc, order, j)
  {
    hide Run, PassAt;
    var before := actions[..|actions| - 1];
    if i: nat :| k < i && WaitedAt(before, i, t, order[j]) {
      assert before[..i] == actions[..i];
      assert WaitedAt(actions, i, t, order[j]);
    }
  }

  lemma SweepFirst(s: State, t: Tid, picks: seq<Ref>, s': State)
    requires DoStartGC(s, t, picks) == Some(s') && !s.closed && picks != []
    ensures SweepAt(PcOf(s', t), picks, 0) && PcOf(s', t).TryAcquire?
  {
  }

  lemma PassFirst(s: State, t: Tid, order: seq<Ref>, s': State)
    requires DoStartClose(s, t, order) == Some(s') && !s.closed && order != []
    ensures PassAt(PcOf(s', t), order, 0) && PcOf(s', t).RemWait?
  {
  }

  lemma StartedFirst(s: State, a: Action, s': State)
    requires Next(s, a) == Some(s') && !s.closed
    ensures a.StartGC? && a.picks != [] ==> SweepAt(PcOf(s', a.t), a.picks, 0) && PcOf(s', a.t).TryAcquire?
    ensures a.StartClose? && a.order != [] ==> PassAt(PcOf(s', a.t), a.order, 0) && PcOf(s', a.t).RemWait?
  {
    hide SweepAt, PassAt, PcOf, DoStartGC, DoStartClose;
    match a
    case StartGC(t, picks) => if picks != [] { SweepFirst(s, t, picks, s'); }
    case StartClose(t, order) => if order != [] { PassFirst(s, t, order, s'); }
    case _ =>
  }

  lemma SweptNow(actions: seq<Action>, t: Tid, k: nat, picks: seq<Ref>, j: nat, m: nat)
    requires k < |actions| - 1 && actions[|actions| - 1].t == t && j < |picks| && m <= j
    requires Run(actions).Some? && Run(actions[..|actions| - 1]).Some?
    requires var pc := PcOf(Run(actions[..|actions| - 1]).value, t); SweepAt(pc, picks, m) && (m == j ==> pc.TryAcquire?)
    ensures SweptTo(actions, t, k, PcOf(Run(actions).value, t), picks, j)
  {
    hide Next, Run, GivesUp;
    var n: nat := |actions| - 1;
    LastRun(actions);
    var s, a, s' := Run(actions[..n]).value, actions[n], Run(actions).value;
    if m == j {
      TakesStep(s, a, s');
      assert TriedAt(actions, n, t, picks[j]);
    } else {
      hide SweepAt;
      SweepStep(s, a, s', picks, m);
    }
  }

  lemma PassedNow(actions: seq<Action>, t: Tid, k: nat, order: seq<Ref>, j: nat, m: nat)
    requires k < |actions| - 1 && actions[|actions| - 1].t == t && j < |order| && m <= j
    requires Run(actions).Some? && Run(actions[..|actions| - 1]).Some?
    requires var pc := PcOf(Run(actions[..|actions| - 1]).value, t); PassAt(pc, order, m) && (m == j ==> pc.RemWait?)
    ensures PassedTo(actions, t, k, PcOf(Run(actions).value, t), order, j)
  {
    hide Next, Run, GivesUp, Inv;
    var n: nat := |actions| - 1;
    LastRun(actions);
    var s, a, s' := Run(actions[..n]).value, actions[n], Run(actions).value;
    if m == j {
      TakesStep(s, a, s');
      assert WaitedAt(actions, n, t, order[j]);
    } else {
      hide PassAt;
      RunKeeps(actions[..n]);
      PassStep(s, a, s', order, m);
    }
  }

  lemma {:induction false} SweepTries(actions: seq<Action>, t: Tid, k: nat, j: nat)
    requires Run(actions).Some? && CallFrom(actions, t, k) && actions[k].StartGC? && j < |actions[k].picks|
    requires Run(actions[..k]).Some? && !Run(actions[..k]).value.closed
    ensures SweptTo(actions, t, k, PcOf(Run(actions).value, t), actions[k].picks, j)
    decreases |actions|
  {
    hide Next, Run, SweepAt, TriedAt;
    var n := |actions| - 1;
    var before, a, picks := actions[..n], actions[n], actions[k].picks;
    LastRun(actions);
    if k == n {
      StartedFirst(Run(before).value, a, Run(actions).value);
    } else {
      CallBefore(actions, t, k);
      SweepTries(before, t, k, j);
      if a.t != t {
        OtherStays(Run(before).value, a, Run(actions).value, t);
        SweptLater(actions, t, k, PcOf(Run(actions).value, t), picks, j);
      } else if m: nat :| m <= j && SweepAt(PcOf(Run(before).value, t), picks, m) && (m == j ==> PcOf(Run(before).value, t).TryAcquire?) {
        SweptNow(actions, t, k, picks, j, m);
      } else {
        var i: nat :| k < i && TriedAt(before, i, t, picks[j]);
        TriedInPrefix(actions, n, i, t, picks[j]);
      }
    }
  }

  lemma {:induction false} PassWaits(actions: seq<Action>, t: Tid, k: nat, j: nat)
    requires Run(actions).Some? && CallFrom(actions, t, k) && actions[k].StartClose? && j < |actions[k].order|
    requires Run(actions[..k]).Some? && !Run(actions[..k]).value.closed
    ensures PassedTo(actions, t, k, PcOf(Run(actions).value, t), actions[k].order, j)
    decreases |actions|
  {
    hide Next, Run, PassAt, WaitedAt;
    var n := |actions| - 1;
    var before, a, order := actions[..n], actions[n], actions[k].order;
    LastRun(actions);
    if k == n {
      StartedFirst(Run(before).value, a, Run(actions).value);
    } else {
      CallBefore(actions, t, k);
      PassWaits(before, t, k, j);
      if a.t != t {
        OtherStays(Run(before).value, a, Run(actions).value, t);
        PassedLater(actions, t, k, PcOf(Run(actions).value, t), order, j);
      } else if m: nat :| m <= j && PassAt(PcOf(Run(before).value, t), order, m) && (m == j ==> PcOf(Run(before).value, t).RemWait?) {
        PassedNow(actions, t, k, order, j, m);
      } else {
        var i: nat :| k < i && WaitedAt(before, i, t, order[j]);
        WaitedInPrefix(actions, n, i, t, order[j]);
      }
    }
  }

  lemma TriedInPrefix(actions: seq<Action>, m: nat, i: nat, t: Tid, e: Ref)
    requires m <= |actions| && TriedAt(actions[..m], i, t, e)
    ensures TriedAt(actions, i, t, e)
  {
    hide Run;
    assert actions[..m][..i] == actions[..i];
  }

  lemma WaitedInPrefix(actions: seq<Action>, m: nat, i: nat, t: Tid, e: Ref)
    requires m <= |actions| && WaitedAt(actions[..m], i, t, e)
    ensures WaitedAt(actions, i, t, e)
  {
    hide Run;
    assert actions[..m][..i] == actions[..i];
  }

  /** When GC is over it has tried every entry it picked, and when Close is over its pass has come to every entry
      the map held when it closed the cache. */
  lemma EveryEntryVisited(actions: seq<Action>, t: Tid, k: nat, e: Ref)
    requires Run(actions).Some? && CallFrom(actions, t, k) && Run(actions[..k]).Some? && !Run(actions[..k]).value.closed
    requires Resting(PcOf(Run(actions).value, t))
    ensures actions[k].StartGC? && e in actions[k].picks ==> exists i: nat :: k < i && TriedAt(actions, i, t, e)
    ensures actions[k].StartClose? && e in Run(actions[..k]).value.data.Values ==> exists i: nat :: k < i && WaitedAt(actions, i, t, e)
  {
    hide Run, TriedAt, WaitedAt;
    if actions[k].StartGC? && e in actions[k].picks {
      var j: nat :| j < |actions[k].picks| && actions[k].picks[j] == e;
      SweepTries(actions, t, k, j);
    } else if actions[k].StartClose? && e in Run(actions[..k]).value.data.Values {
      hide PassAt;
      PrefixRuns(actions, k + 1);
      LastRun(actions[..k + 1]);
      assert actions[..k + 1][..k] == actions[..k];
      OrderCovers(Run(actions[..k]).value, actions[k], Run(actions[..k + 1]).value, e);
      var j: nat :| j < |actions[k].order| && actions[k].order[j] == e;
      PassWaits(actions, t, k, j);
      NoPassAtRest(PcOf(Run(actions).value, t), actions[k].order);
    }
  }

  lemma NoPassAtRest(pc: Pc, order: seq<Ref>)
    requires Resting(pc)
    ensures forall m: nat :: !PassAt(pc, order, m)
  {
  }

  lemma OrderCovers(s: State, a: Action, s': State, e: Ref)
    requires Next(s, a) == Some(s') && a.StartClose? && !s.closed && e in s.data.Values
    ensures e in a.order
  {
    hide DoLoadCommit, DoAdd, DoStartGC;
    assert e in (set c | c in a.order);
  }
}
