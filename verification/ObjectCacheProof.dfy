/** Every step of the object cache keeps its invariant. */
module ObjectCacheProof {
  import opened Options
  import opened ObjectCache

  /** The thread neither owns a closing entry, nor runs a load, nor has an object in hand. */
  predicate NoRole(pc: Pc) {
    !(pc.TryAsk? || pc.TryDeclined? || pc.CloseValue? || pc.Finalize? || (pc.GetEntry? && pc.load) ||
      pc.LoadRun? || pc.LoadDone? || pc.LoadDiscard? || pc.LoadRelease?)
  }

  /** The roles of a thread concern entry e only. */
  predicate RoleOnly(pc: Pc, e: Ref) {
    NoRole(pc) || pc.e == e
  }

  // ---- a step that touches one thread, one entry and one object --------------------------------------

  ghost predicate Local(s: State, s': State, t: Tid, e0: Ref, o0: Option<Obj>) {
    && (forall u | u != t :: PcOf(s', u) == PcOf(s, u))
    && (forall e | e in s.entries :: e in s'.entries && (e != e0 ==> s'.entries[e] == s.entries[e]))
    && (forall e | e in s'.entries :: e in s.entries || e == e0)
    && (forall o | o in s.objs :: o in s'.objs && (Some(o) != o0 ==> s'.objs[o] == s.objs[o]))
    && (forall o | o in s'.objs :: o in s.objs || Some(o) == o0)
    && (forall id | id in s.data && s.data[id] != e0 :: id in s'.data && s'.data[id] == s.data[id])
    && (forall id | id in s'.data && s'.data[id] != e0 :: id in s.data && s'.data[id] == s.data[id])
    && (s.closed ==> s'.closed && s'.passer == s.passer && s'.data.Keys <= s.data.Keys)
  }

  /** The pass still covers the active entries other than e0. */
  ghost predicate Covers(s: State, s': State, t: Tid, e0: Ref) {
    forall e | e in s.entries && e != e0 && s'.closed && s.entries[e].state == Active ::
      || e in s'.abandoned
      || (s'.passer.Some? && Visits(PcOf(s', s'.passer.value), e))
  }

  lemma OtherData(s: State, s': State, t: Tid, e0: Ref, o0: Option<Obj>, id: Id)
    requires Local(s, s', t, e0, o0) && id in s'.data && s'.data[id] != e0 && id in s.data && DataOk(s, id)
    ensures DataOk(s', id)
  {
  }

  lemma OtherEntry(s: State, s': State, t: Tid, e0: Ref, o0: Option<Obj>, e: Ref)
    requires Local(s, s', t, e0, o0) && Covers(s, s', t, e0)
    requires RoleOnly(PcOf(s, t), e0) && e in s'.entries && e != e0 && e in s.entries && EntryOk(s, e)
    requires o0.Some? && o0.value in s.objs ==> s.objs[o0.value].holder == InEntry(e0) || s.objs[o0.value].holder.WithLoader?
    ensures EntryOk(s', e)
  {
  }

  /** How entry e0 may change under the eyes of another thread u. */
  ghost predicate Evolves(s: State, s': State, u: Tid, e0: Ref) {
    e0 in s.entries && e0 in s'.entries ==>
      var a, b := s.entries[e0], s'.entries[e0];
      && b.id == a.id && a.gen <= b.gen && (a.value.Some? ==> b.value == a.value)
      && (a.state != Loading ==> b.state != Loading)
      && (a.loader == Some(u) ==> b.loader == a.loader && (a.state == Loading ==> b == a) &&
                                  (a.loadErr.Some? ==> b.loadErr.Some?))
      && (a.closer == Some(u) ==> b.state == a.state && b.closer == a.closer)
      && (s.closed && a.state != Active && a.state != Loading ==> b.state != Active)
  }

  lemma OtherThread(s: State, s': State, t: Tid, e0: Ref, o0: Option<Obj>, u: Tid)
    requires ThreadOk(s, u) && Local(s, s', t, e0, o0) && u != t
    requires e0 in s'.entries && Evolves(s, s', u, e0)
    requires forall e | e in s.entries :: EntryOk(s, e)
    requires o0.Some? ==> !HasInHand(PcOf(s, u), o0.value)
    requires o0.Some? && o0.value in s.objs && s.objs[o0.value].holder.InEntry? ==>
               s.objs[o0.value].holder.e == e0 && e0 in s.entries && s.entries[e0].closer != Some(u)
    ensures ThreadOk(s', u)
  {
    hide ThreadOk, EntryOk, Evolves, Local, HasInHand, PcOf;
    var pc := PcOf(s, u);
    if pc.TryAsk? || pc.TryDeclined? || pc.CloseValue? || pc.Finalize? {
      OwnersKept(s, s', t, e0, o0, u);
    } else if pc.RemWait? || pc.RemAcquire? || pc.RemParked? || pc.TryAcquire? {
      RemoverKept(s, s', t, e0, o0, u);
    } else {
      LoaderKept(s, s', t, e0, o0, u);
    }
  }

  lemma OwnersKept(s: State, s': State, t: Tid, e0: Ref, o0: Option<Obj>, u: Tid)
    requires ThreadOk(s, u) && Local(s, s', t, e0, o0) && u != t
    requires PcOf(s, u).TryAsk? || PcOf(s, u).TryDeclined? || PcOf(s, u).CloseValue? || PcOf(s, u).Finalize?
    requires e0 in s'.entries && Evolves(s, s', u, e0) && forall e | e in s.entries :: EntryOk(s, e)
    requires o0.Some? && o0.value in s.objs && s.objs[o0.value].holder.InEntry? ==>
               s.objs[o0.value].holder.e == e0 && e0 in s.entries && s.entries[e0].closer != Some(u)
    ensures ThreadOk(s', u)
  {
    hide EntryOk, Evolves;
    var pc := PcOf(s, u);
    OwnerKept(s, s', t, e0, o0, u, pc.e, pc.next, if pc.Finalize? then 1 else 0);
  }

  lemma RemoverKept(s: State, s': State, t: Tid, e0: Ref, o0: Option<Obj>, u: Tid)
    requires ThreadOk(s, u) && Local(s, s', t, e0, o0) && u != t
    requires PcOf(s, u).RemWait? || PcOf(s, u).RemAcquire? || PcOf(s, u).RemParked? || PcOf(s, u).TryAcquire?
    requires e0 in s'.entries && Evolves(s, s', u, e0)
    ensures ThreadOk(s', u)
  {
  }

  lemma LoaderKept(s: State, s': State, t: Tid, e0: Ref, o0: Option<Obj>, u: Tid)
    requires ThreadOk(s, u) && Local(s, s', t, e0, o0) && u != t
    requires var pc := PcOf(s, u);
             !pc.TryAsk? && !pc.TryDeclined? && !pc.CloseValue? && !pc.Finalize? &&
             !pc.RemWait? && !pc.RemAcquire? && !pc.RemParked? && !pc.TryAcquire?
    requires e0 in s'.entries && Evolves(s, s', u, e0)
    requires o0.Some? ==> !HasInHand(PcOf(s, u), o0.value)
    ensures ThreadOk(s', u)
  {
    hide ThenOk, OwnerOk, EntryOk;
  }

  lemma OwnerKept(s: State, s': State, t: Tid, e0: Ref, o0: Option<Obj>, u: Tid, e: Ref, next: Then, closes: nat)
    requires Local(s, s', t, e0, o0) && u != t && OwnerOk(s, u, e, next, closes) && EntryOk(s, e)
    requires e0 in s'.entries && Evolves(s, s', u, e0)
    requires o0.Some? && o0.value in s.objs && s.objs[o0.value].holder.InEntry? ==>
               s.objs[o0.value].holder.e == e0 && e0 in s.entries && s.entries[e0].closer != Some(u)
    ensures OwnerOk(s', u, e, next, closes)
  {
  }

  lemma LocalKeeps(s: State, s': State, t: Tid, e0: Ref, o0: Option<Obj>)
    requires Inv(s) && Local(s, s', t, e0, o0) && Covers(s, s', t, e0) && RoleOnly(PcOf(s, t), e0)
    requires e0 in s'.entries && EntryOk(s', e0) && ThreadOk(s', t) && GlobalOk(s')
    requires forall id | id in s'.data && s'.data[id] == e0 :: DataOk(s', id)
    requires o0.Some? && o0.value in s'.objs ==> ObjOk(s', o0.value)
    requires o0.Some? && o0.value in s.objs ==>
               (s.objs[o0.value].holder == InEntry(e0) && e0 in s.entries && (s.entries[e0].closer == None || s.entries[e0].closer == Some(t)))
               || s.objs[o0.value].holder == WithLoader(t)
    requires forall o: Obj | HasInHand(PcOf(s, t), o) :: Some(o) == o0 || HasInHand(PcOf(s', t), o)
    requires e0 in s.entries && s.entries[e0].value.Some? ==> s'.entries[e0].value == s.entries[e0].value
    requires forall u | u != t :: Evolves(s, s', u, e0)
    ensures Inv(s')
  {
    hide EntryOk, ThreadOk, ObjOk, DataOk, Evolves, Covers, GlobalOk, RoleOnly;
    forall id | id in s'.data
      ensures DataOk(s', id)
    {
      if s'.data[id] != e0 {
        OtherData(s, s', t, e0, o0, id);
      }
    }
    forall e | e in s'.entries
      ensures EntryOk(s', e)
    {
      if e != e0 {
        OtherEntry(s, s', t, e0, o0, e);
      }
    }
    forall o | o in s'.objs
      ensures ObjOk(s', o)
    {
      if Some(o) != o0 {
        UntouchedObj(s, s', t, e0, o0, o);
      }
    }
    forall u
      ensures ThreadOk(s', u)
    {
      if u != t {
        HandsApart(s, t, o0, u);
        OtherThread(s, s', t, e0, o0, u);
      }
    }
  }

  lemma UntouchedObj(s: State, s': State, t: Tid, e0: Ref, o0: Option<Obj>, o: Obj)
    requires Local(s, s', t, e0, o0) && o in s'.objs && Some(o) != o0 && o in s.objs && ObjOk(s, o)
    requires HasInHand(PcOf(s, t), o) ==> HasInHand(PcOf(s', t), o)
    requires e0 in s.entries && s.entries[e0].value.Some? ==> e0 in s'.entries && s'.entries[e0].value == s.entries[e0].value
    ensures ObjOk(s', o)
  {
  }

  /** No other thread has the object in hand. */
  lemma HandsApart(s: State, t: Tid, o0: Option<Obj>, u: Tid)
    requires ThreadOk(s, u) && u != t
    requires o0.Some? && o0.value in s.objs ==> s.objs[o0.value].holder.InEntry? || s.objs[o0.value].holder == WithLoader(t)
    ensures o0.Some? ==> !HasInHand(PcOf(s, u), o0.value)
  {
  }

  // ---- steps that only move a thread --------------------------------------------------------------------

  /** Thread t moves between two program points without a role; the pass may give up on entries. */
  lemma MoveKeeps(s: State, s': State, t: Tid)
    requires Inv(s) && NoRole(PcOf(s, t)) && NoRole(PcOf(s', t))
    requires forall u | u != t :: PcOf(s', u) == PcOf(s, u)
    requires s'.entries == s.entries && s'.data == s.data && s'.objs == s.objs && s'.closed == s.closed && s'.passer == s.passer
    requires s'.doubleClose == s.doubleClose && s.abandoned <= s'.abandoned
    requires forall e | e in s'.abandoned && e !in s.abandoned :: e in s.entries && s.entries[e].state == Active
    requires forall e | e in s.entries && s.closed && s.entries[e].state == Active && Visits(PcOf(s, t), e) ::
               Visits(PcOf(s', t), e) || e in s'.abandoned
    requires ThreadOk(s', t)
    ensures Inv(s')
  {
    hide ThreadOk, EntryOk, ObjOk, DataOk;
    forall id | id in s'.data
      ensures DataOk(s', id)
    {
      SameData(s, s', id);
    }
    forall e | e in s'.entries
      ensures EntryOk(s', e)
    {
      SameEntry(s, s', t, e);
    }
    forall o | o in s'.objs
      ensures ObjOk(s', o)
    {
      SameObj(s, s', t, o);
    }
    forall u
      ensures ThreadOk(s', u)
    {
      if u != t {
        SameThread(s, s', u);
      }
    }
  }

  lemma SameData(s: State, s': State, id: Id)
    requires id in s.data && DataOk(s, id) && s'.entries == s.entries && s'.data == s.data
    ensures DataOk(s', id)
  {
  }

  lemma SameEntry(s: State, s': State, t: Tid, e: Ref)
    requires e in s.entries && EntryOk(s, e) && NoRole(PcOf(s, t))
    requires forall u | u != t :: PcOf(s', u) == PcOf(s, u)
    requires s'.entries == s.entries && s'.data == s.data && s'.objs == s.objs && s'.closed == s.closed && s'.passer == s.passer
    requires s.abandoned <= s'.abandoned
    requires s.closed && s.entries[e].state == Active && Visits(PcOf(s, t), e) ==> Visits(PcOf(s', t), e) || e in s'.abandoned
    ensures EntryOk(s', e)
  {
  }

  lemma SameObj(s: State, s': State, t: Tid, o: Obj)
    requires o in s.objs && ObjOk(s, o) && NoRole(PcOf(s, t))
    requires forall u | u != t :: PcOf(s', u) == PcOf(s, u)
    requires s'.entries == s.entries && s'.objs == s.objs
    ensures ObjOk(s', o)
  {
  }

  lemma SameThread(s: State, s': State, u: Tid)
    requires ThreadOk(s, u) && PcOf(s', u) == PcOf(s, u)
    requires s'.entries == s.entries && s'.data == s.data && s'.objs == s.objs && s'.closed == s.closed && s'.passer == s.passer
    ensures ThreadOk(s', u)
  {
  }

  /** What follows an entry is allowed, and the pass goes on covering. */
  lemma ContinueOk(s: State, t: Tid, e: Ref, next: Then)
    requires ThenOk(s, t, e, next) && PcOf(s, t) == Continue(next)
    ensures ThreadOk(s, t) && NoRole(PcOf(s, t))
    ensures forall c | next.Pass? && c in next.rest :: Visits(PcOf(s, t), c)
  {
    match next
    case Finish(_) =>
    case Pass(rest) =>
      if rest != [] {
        assert rest[0] in rest && forall c | c in rest[1..] :: c in rest;
        assert rest == [rest[0]] + rest[1..];
      }
    case Sweep(rest) =>
      if rest != [] {
        assert rest[0] in rest && forall c | c in rest[1..] :: c in rest;
      }
  }

  // ---- the steps, one by one ------------------------------------------------------------------------------

  lemma InvParts(s: State, t: Tid)
    requires Inv(s)
    ensures ThreadOk(s, t) && GlobalOk(s)
    ensures forall e | e in s.entries :: EntryOk(s, e)
    ensures forall id | id in s.data :: DataOk(s, id)
    ensures forall o | o in s.objs :: ObjOk(s, o)
  {
  }

  lemma StartGetKeeps(s: State, t: Tid, id: Id, s': State)
    requires Inv(s) && DoStartGet(s, t, id) == Some(s')
    ensures Inv(s')
  {
    hide Inv, EntryOk, DataOk, ObjOk;
    InvParts(s, t);
    MoveKeeps(s, s', t);
  }

  lemma WakeGetKeeps(s: State, t: Tid, s': State)
    requires Inv(s) && DoWakeGet(s, t) == Some(s')
    ensures Inv(s')
  {
    hide Inv, EntryOk, DataOk, ObjOk;
    InvParts(s, t);
    MoveKeeps(s, s', t);
  }

  lemma TimeoutGetKeeps(s: State, t: Tid, s': State)
    requires Inv(s) && DoTimeoutGet(s, t) == Some(s')
    ensures Inv(s')
  {
    hide Inv, EntryOk, DataOk, ObjOk;
    InvParts(s, t);
    MoveKeeps(s, s', t);
  }

  lemma StartPickKeeps(s: State, t: Tid, id: Id, s': State)
    requires Inv(s) && DoStartPick(s, t, id) == Some(s')
    ensures Inv(s')
  {
    hide Inv, EntryOk, ObjOk;
    InvParts(s, t);
    MoveKeeps(s, s', t);
  }

  lemma PickLoadedKeeps(s: State, t: Tid, s': State)
    requires Inv(s) && DoPickLoaded(s, t) == Some(s')
    ensures Inv(s')
  {
    hide Inv, DataOk, ObjOk;
    InvParts(s, t);
    MoveKeeps(s, s', t);
  }

  lemma TimeoutPickKeeps(s: State, t: Tid, s': State)
    requires Inv(s) && DoTimeoutPick(s, t) == Some(s')
    ensures Inv(s')
  {
    hide Inv, EntryOk, DataOk, ObjOk;
    InvParts(s, t);
    MoveKeeps(s, s', t);
  }

  lemma GetLoadedKeeps(s: State, t: Tid, ctxAlive: bool, s': State)
    requires Inv(s) && DoGetLoaded(s, t, ctxAlive) == Some(s')
    ensures Inv(s')
  {
    hide Inv, DataOk, ObjOk;
    InvParts(s, t);
    MoveKeeps(s, s', t);
  }

  lemma StartRemoveKeeps(s: State, t: Tid, id: Id, s': State)
    requires Inv(s) && DoStartRemove(s, t, id) == Some(s')
    ensures Inv(s')
  {
    hide Inv, EntryOk, ObjOk;
    InvParts(s, t);
    MoveKeeps(s, s', t);
  }

  lemma StartRemoveSameKeeps(s: State, t: Tid, id: Id, o: Obj, s': State)
    requires Inv(s) && DoStartRemoveSame(s, t, id, o) == Some(s')
    ensures Inv(s')
  {
    hide Inv, EntryOk, ObjOk;
    InvParts(s, t);
    MoveKeeps(s, s', t);
  }

  lemma WakeRemoveKeeps(s: State, t: Tid, s': State)
    requires Inv(s) && DoWakeRemove(s, t) == Some(s')
    ensures Inv(s')
  {
    hide Inv, EntryOk, DataOk, ObjOk;
    InvParts(s, t);
    MoveKeeps(s, s', t);
  }

  lemma StartTryRemoveKeeps(s: State, t: Tid, id: Id, s': State)
    requires Inv(s) && DoStartTryRemove(s, t, id) == Some(s')
    ensures Inv(s')
  {
    hide Inv, EntryOk, ObjOk;
    InvParts(s, t);
    MoveKeeps(s, s', t);
  }

  lemma RemoveLoadedKeeps(s: State, t: Tid, s': State)
    requires Inv(s) && DoRemoveLoaded(s, t) == Some(s')
    ensures Inv(s')
  {
    hide Inv, DataOk, ObjOk;
    InvParts(s, t);
    var pc := PcOf(s, t);
    if PcOf(s', t) == Continue(pc.next) {
      ContinueOk(s', t, pc.e, pc.next);
    }
    MoveKeeps(s, s', t);
  }

  lemma TimeoutRemoveKeeps(s: State, t: Tid, s': State)
    requires Inv(s) && DoTimeoutRemove(s, t) == Some(s')
    ensures Inv(s')
  {
    hide Inv, EntryOk, DataOk, ObjOk;
    InvParts(s, t);
    var pc := PcOf(s, t);
    if PcOf(s', t) == Continue(pc.next) {
      ContinueOk(s', t, pc.e, pc.next);
    }
    MoveKeeps(s, s', t);
  }

  lemma StartGCKeeps(s: State, t: Tid, picks: seq<Ref>, s': State)
    requires Inv(s) && DoStartGC(s, t, picks) == Some(s')
    ensures Inv(s')
  {
    hide Inv, EntryOk, DataOk, ObjOk;
    InvParts(s, t);
    if !s.closed && picks != [] {
      assert picks[0] in picks;
      ContinueOk(s', t, picks[0], Sweep(picks));
    }
    MoveKeeps(s, s', t);
  }

  /** The pass covers the active entries other than e0 when t keeps visiting what it visited. */
  lemma CoversKept(s: State, s': State, t: Tid, e0: Ref)
    requires Inv(s) && s'.closed == s.closed && s'.passer == s.passer && s.abandoned - {e0} <= s'.abandoned
    requires forall u | u != t :: PcOf(s', u) == PcOf(s, u)
    requires forall e | e != e0 && Visits(PcOf(s, t), e) :: Visits(PcOf(s', t), e)
    ensures Covers(s, s', t, e0)
  {
    hide ThreadOk, DataOk, ObjOk, GlobalOk, Visits;
    forall e | e in s.entries && e != e0 && s'.closed && s.entries[e].state == Active
      ensures e in s'.abandoned || (s'.passer.Some? && Visits(PcOf(s', s'.passer.value), e))
    {
      assert EntryOk(s, e);
    }
  }

  lemma AtThread(s: State, t: Tid)
    requires Inv(s)
    ensures ThreadOk(s, t) && !s.doubleClose && (s.closed <==> s.passer.Some?)
  {
  }

  lemma AtEntry(s: State, e: Ref)
    requires Inv(s) && e in s.entries
    ensures EntryOk(s, e) && (s.entries[e].id in s.data ==> DataOk(s, s.entries[e].id))
  {
  }

  lemma AtData(s: State, id: Id)
    requires Inv(s) && id in s.data
    ensures DataOk(s, id)
  {
  }

  lemma AtObj(s: State, o: Obj)
    requires Inv(s) && o in s.objs
    ensures ObjOk(s, o)
  {
  }

  lemma GlobalKept(s: State, s': State, t: Tid, e: Ref)
    requires Inv(s) && s'.closed == s.closed && s'.passer == s.passer && !s'.doubleClose
    requires forall u | u != t :: PcOf(s', u) == PcOf(s, u)
    requires !PcOf(s', t).LoadDiscard?
    requires s.entries.Keys <= s'.entries.Keys && forall c | c in s.entries && c != e :: s'.entries[c] == s.entries[c]
    requires s'.abandoned <= s.abandoned
    requires e in s'.abandoned && e in s.entries && s.entries[e].state == Active ==> s'.entries[e].state == Active
    ensures GlobalOk(s')
  {
    hide EntryOk, DataOk, ObjOk, ThreadOk;
  }

  /** A fresh entry, perhaps with a fresh object, enters an open cache. */
  lemma NewEntryKeeps(s: State, s': State, t: Tid, id: Id, e: Ref, o0: Option<Obj>)
    requires Inv(s) && !s.closed && id !in s.data && e !in s.entries && (o0.Some? ==> o0.value !in s.objs)
    requires e in s'.entries && s'.entries == s.entries[e := s'.entries[e]] && s'.data == s.data[id := e]
    requires s'.objs == if o0.Some? then s.objs[o0.value := ObjInfo(id, 0, InEntry(e))] else s.objs
    requires s'.closed == s.closed && s'.passer == s.passer && s'.abandoned == s.abandoned && s'.doubleClose == s.doubleClose
    requires forall u | u != t :: PcOf(s', u) == PcOf(s, u)
    requires NoRole(PcOf(s, t)) && !PcOf(s', t).LoadDiscard?
    requires EntryOk(s', e) && DataOk(s', id) && ThreadOk(s', t)
    requires o0.Some? ==> s'.entries[e].value == o0
    ensures Inv(s')
  {
    hide Inv, ThreadOk, EntryOk;
    InvParts(s, t);
    assert GlobalOk(s');
    forall i | i in s'.data && s'.data[i] == e
      ensures DataOk(s', i)
    {
      assert i in s.data ==> DataOk(s, i);
    }
    LocalKeeps(s, s', t, e, o0);
  }

  lemma LockForGetKeeps(s: State, t: Tid, newRef: Ref, s': State)
    requires Inv(s) && DoLockForGet(s, t, newRef) == Some(s')
    ensures Inv(s')
  {
    hide Inv, ObjOk, GlobalOk;
    AtThread(s, t);
    if s.closed {
      MoveKeeps(s, s', t);
    } else if PcOf(s, t).id in s.data {
      AtData(s, PcOf(s, t).id);
      MoveKeeps(s, s', t);
    } else {
      NewEntryKeeps(s, s', t, PcOf(s, t).id, newRef, None);
    }
  }

  lemma CheckClosingKeeps(s: State, t: Tid, s': State)
    requires Inv(s) && DoCheckClosing(s, t) == Some(s')
    ensures Inv(s')
  {
    hide Inv, ObjOk, DataOk;
    InvParts(s, t);
    var pc := PcOf(s, t);
    if pc.load {
      assert EntryOk(s, pc.e);
      LoaderMoves(s, s', t, pc.e, None);
    } else {
      MoveKeeps(s, s', t);
    }
  }

  /** The entry leaves the map. */
  predicate Dropped(s: State, s': State, e: Ref)
    requires e in s.entries
  {
    var id := s.entries[e].id;
    s'.data == s.data - {id} && (id in s.data ==> s.data[id] == e)
  }

  /** Thread t changes entry e, at most one object, and perhaps drops e from the map. */
  lemma UpdateKeeps(s: State, s': State, t: Tid, e: Ref, o0: Option<Obj>)
    requires Inv(s) && e in s.entries && e in s'.entries && s'.entries == s.entries[e := s'.entries[e]]
    requires forall u | u != t :: PcOf(s', u) == PcOf(s, u)
    requires s'.data == s.data || Dropped(s, s', e)
    requires forall o | o in s.objs :: o in s'.objs && (Some(o) != o0 ==> s'.objs[o] == s.objs[o])
    requires forall o | o in s'.objs :: o in s.objs || Some(o) == o0
    requires s'.closed == s.closed && s'.passer == s.passer && s.abandoned - {e} <= s'.abandoned
    requires forall c | c != e && Visits(PcOf(s, t), c) :: Visits(PcOf(s', t), c)
    requires RoleOnly(PcOf(s, t), e) && EntryOk(s', e) && ThreadOk(s', t) && GlobalOk(s')
    requires s'.entries[e].id == s.entries[e].id
    requires s'.data == s.data && s.entries[e].id in s.data && s.data[s.entries[e].id] == e ==> DataOk(s', s.entries[e].id)
    requires o0.Some? && o0.value in s'.objs ==> ObjOk(s', o0.value)
    requires o0.Some? && o0.value in s.objs ==>
               (s.objs[o0.value].holder == InEntry(e) && (s.entries[e].closer == None || s.entries[e].closer == Some(t)))
               || s.objs[o0.value].holder == WithLoader(t)
    requires forall o: Obj | HasInHand(PcOf(s, t), o) :: Some(o) == o0 || HasInHand(PcOf(s', t), o)
    requires s.entries[e].value.Some? ==> s'.entries[e].value == s.entries[e].value
    requires forall u | u != t :: Evolves(s, s', u, e)
    ensures Inv(s')
  {
    hide Inv, ThreadOk, ObjOk, EntryOk, GlobalOk, Evolves, RoleOnly, Visits, HasInHand, PcOf, Covers;
    InvParts(s, t);
    CoversKept(s, s', t, e);
    forall id | id in s'.data && s'.data[id] == e
      ensures DataOk(s', id)
    {
      assert DataOk(s, id);
    }
    LocalKeeps(s, s', t, e, o0);
  }

  /** A load goes on: its entry stays as it was. */
  lemma LoaderMoves(s: State, s': State, t: Tid, e: Ref, o0: Option<Obj>)
    requires Inv(s) && e in s.entries && Loads(PcOf(s, t), e) && Loads(PcOf(s', t), e)
    requires s'.entries == s.entries && s'.data == s.data && s'.closed == s.closed && s'.passer == s.passer
    requires s'.abandoned == s.abandoned && s'.doubleClose == s.doubleClose
    requires forall u | u != t :: PcOf(s', u) == PcOf(s, u)
    requires forall o | o in s.objs :: o in s'.objs && (Some(o) != o0 ==> s'.objs[o] == s.objs[o])
    requires forall o | o in s'.objs :: o in s.objs || Some(o) == o0
    requires s.entries[e].value == None
    requires ThreadOk(s', t) && !PcOf(s', t).LoadDiscard?
    requires o0.Some? && o0.value in s'.objs ==> ObjOk(s', o0.value)
    requires o0.Some? && o0.value in s.objs ==> s.objs[o0.value].holder == WithLoader(t)
    requires forall o: Obj | HasInHand(PcOf(s, t), o) :: Some(o) == o0 || HasInHand(PcOf(s', t), o)
    ensures Inv(s')
  {
    hide Inv, ThreadOk, ObjOk;
    InvParts(s, t);
    CoversKept(s, s', t, e);
    assert EntryOk(s, e);
    assert EntryOk(s', e);
    forall id | id in s'.data && s'.data[id] == e
      ensures DataOk(s', id)
    {
      assert DataOk(s, id);
    }
    LocalKeeps(s, s', t, e, o0);
  }

  lemma LoadReturnsKeeps(s: State, t: Tid, outcome: LoadOutcome, aborted: bool, s': State)
    requires Inv(s) && DoLoadReturns(s, t, outcome, aborted) == Some(s')
    ensures Inv(s')
  {
    hide Inv, DataOk;
    InvParts(s, t);
    var pc := PcOf(s, t);
    assert EntryOk(s, pc.e);
    LoaderMoves(s, s', t, pc.e, if outcome.Loaded? then Some(outcome.o) else None);
  }

  lemma DiscardValueKeeps(s: State, t: Tid, s': State)
    requires Inv(s) && DoDiscardValue(s, t) == Some(s')
    ensures Inv(s')
  {
    hide Inv, DataOk;
    InvParts(s, t);
    var pc := PcOf(s, t);
    assert EntryOk(s, pc.e) && ObjOk(s, pc.o);
    LoaderMoves(s, s', t, pc.e, Some(pc.o));
  }

  lemma ReleaseLoadKeeps(s: State, t: Tid, ctxAlive: bool, s': State)
    requires Inv(s) && DoReleaseLoad(s, t, ctxAlive) == Some(s')
    ensures Inv(s')
  {
    hide Inv, ObjOk, GlobalOk, EntryOk, Evolves, OwnerOk, ThenOk, ThreadOk, DataOk;
    var e := PcOf(s, t).e;
    AtThread(s, t);
    AtEntry(s, e);
    ReleasedEntry(s, s', t, ctxAlive);
    GlobalKept(s, s', t, e);
    UpdateKeeps(s, s', t, e, None);
  }

  lemma ReleasedEntry(s: State, s': State, t: Tid, ctxAlive: bool)
    requires DoReleaseLoad(s, t, ctxAlive) == Some(s') && ThreadOk(s, t) && !s.doubleClose
    requires EntryOk(s, PcOf(s, t).e)
    ensures EntryOk(s', PcOf(s, t).e) && ThreadOk(s', t) && !s'.doubleClose
    ensures forall u | u != t :: Evolves(s, s', u, PcOf(s, t).e)
    ensures var id := s.entries[PcOf(s, t).e].id;
            id in s.data && s.data[id] == PcOf(s, t).e && DataOk(s, id) ==> DataOk(s', id)
  {
    hide OwnerOk, ThenOk;
  }

  lemma AcquireClosingKeeps(s: State, t: Tid, s': State)
    requires Inv(s) && DoAcquireClosing(s, t) == Some(s')
    ensures Inv(s')
  {
    hide Inv, ObjOk, GlobalOk;
    var pc := PcOf(s, t);
    AtThread(s, t);
    AtEntry(s, pc.e);
    if s.entries[pc.e].state == Active {
      AcquireKeeps(s, s', t, pc.e);
    } else {
      NotAcquiredKeeps(s, t, s');
    }
  }

  lemma NotAcquiredKeeps(s: State, t: Tid, s': State)
    requires Inv(s) && DoAcquireClosing(s, t) == Some(s') && s.entries[PcOf(s, t).e].state != Active
    ensures Inv(s')
  {
    hide Inv, ObjOk, GlobalOk, EntryOk, DataOk;
    var pc := PcOf(s, t);
    AtThread(s, t);
    if s.entries[pc.e].state != Closing {
      ContinueOk(s', t, pc.e, pc.next);
    }
    MoveKeeps(s, s', t);
  }

  lemma TryAcquireClosingKeeps(s: State, t: Tid, s': State)
    requires Inv(s) && DoTryAcquireClosing(s, t) == Some(s')
    ensures Inv(s')
  {
    hide Inv, ObjOk, GlobalOk;
    var pc := PcOf(s, t);
    AtThread(s, t);
    AtEntry(s, pc.e);
    if s.entries[pc.e].state == Active {
      AcquireKeeps(s, s', t, pc.e);
    } else {
      ContinueOk(s', t, pc.e, pc.next);
      InvParts(s, t);
      MoveKeeps(s, s', t);
    }
  }

  /** A thread without a role acquires the closing transition of an active entry. */
  lemma AcquireKeeps(s: State, s': State, t: Tid, e: Ref)
    requires Inv(s) && e in s.entries && s.entries[e].state == Active && NoRole(PcOf(s, t)) && Owns(PcOf(s', t), e)
    requires s'.threads == s.threads[t := PcOf(s', t)]
    requires s' == s.(entries := s.entries[e := Acquired(s.entries[e], t)], abandoned := s.abandoned - {e}, threads := s'.threads)
    requires forall c | c != e && Visits(PcOf(s, t), c) :: Visits(PcOf(s', t), c)
    requires PcOf(s', t).TryAsk? || PcOf(s', t).CloseValue?
    requires ThenOk(s', t, e, PcOf(s', t).next) && (PcOf(s', t).TryAsk? ==> !PcOf(s', t).next.Pass?)
    ensures Inv(s')
  {
    hide Inv, ObjOk, GlobalOk, Visits;
    AtEntry(s, e);
    AtThread(s, t);
    GlobalKept(s, s', t, e);
    UpdateKeeps(s, s', t, e, None);
  }

  /** The owner of the closing transition goes on; o0 is the entry's object when it is closed now. */
  lemma OwnerMoves(s: State, s': State, t: Tid, e: Ref, o0: Option<Obj>)
    requires Inv(s) && e in s.entries && Owns(PcOf(s, t), e) && Owns(PcOf(s', t), e)
    requires s'.entries == s.entries && s'.data == s.data && s'.closed == s.closed && s'.passer == s.passer
    requires s'.abandoned == s.abandoned && s'.doubleClose == s.doubleClose
    requires forall u | u != t :: PcOf(s', u) == PcOf(s, u)
    requires s'.objs == s.objs || (o0.Some? && o0.value in s.objs && s.entries[e].value == o0 && s.objs[o0.value].closes == 0 &&
                                   s'.objs == s.objs[o0.value := s.objs[o0.value].(closes := 1)])
    requires o0.Some? ==> s'.objs != s.objs
    requires ThreadOk(s, t) && ThreadOk(s', t)
    requires forall c | c != e && Visits(PcOf(s, t), c) :: Visits(PcOf(s', t), c)
    ensures Inv(s')
  {
    hide Inv, Visits, GlobalOk, ThenOk;
    AtEntry(s, e);
    AtThread(s, t);
    if o0.Some? {
      AtObj(s, o0.value);
    }
    assert EntryOk(s', e);
    GlobalKept(s, s', t, e);
    UpdateKeeps(s, s', t, e, o0);
  }

  lemma CallCloseKeeps(s: State, t: Tid, s': State)
    requires Inv(s) && DoCallClose(s, t) == Some(s')
    ensures Inv(s')
  {
    hide Inv, EntryOk, ObjOk, GlobalOk;
    AtThread(s, t);
    OwnerMoves(s, s', t, PcOf(s, t).e, s.entries[PcOf(s, t).e].value);
  }

  lemma CallTryCloseKeeps(s: State, t: Tid, closes: bool, s': State)
    requires Inv(s) && DoCallTryClose(s, t, closes) == Some(s')
    ensures Inv(s')
  {
    hide Inv, EntryOk, ObjOk, GlobalOk;
    AtThread(s, t);
    OwnerMoves(s, s', t, PcOf(s, t).e, if closes then s.entries[PcOf(s, t).e].value else None);
  }

  lemma DeclineKeeps(s: State, t: Tid, s': State)
    requires Inv(s) && DoDecline(s, t) == Some(s')
    ensures Inv(s')
  {
    hide Inv, ObjOk, GlobalOk;
    var pc := PcOf(s, t);
    AtThread(s, t);
    if s.closed {
      OwnerMoves(s, s', t, pc.e, None);
    } else {
      AtEntry(s, pc.e);
      ContinueOk(s', t, pc.e, pc.next);
      GlobalKept(s, s', t, pc.e);
      UpdateKeeps(s, s', t, pc.e, None);
    }
  }

  lemma CloseAndDeleteKeeps(s: State, t: Tid, s': State)
    requires Inv(s) && DoCloseAndDelete(s, t) == Some(s')
    ensures Inv(s')
  {
    hide Inv, ObjOk, GlobalOk, EntryOk, Evolves, DataOk;
    var pc := PcOf(s, t);
    AtThread(s, t);
    AtEntry(s, pc.e);
    ClosedEntry(s, s', t);
    if !pc.next.Finish? {
      ContinueOk(s', t, pc.e, pc.next);
    }
    GlobalKept(s, s', t, pc.e);
    UpdateKeeps(s, s', t, pc.e, None);
  }

  lemma ClosedEntry(s: State, s': State, t: Tid)
    requires DoCloseAndDelete(s, t) == Some(s') && ThreadOk(s, t) && !s.doubleClose && EntryOk(s, PcOf(s, t).e)
    ensures EntryOk(s', PcOf(s, t).e) && !s'.doubleClose && Dropped(s, s', PcOf(s, t).e)
    ensures forall u | u != t :: Evolves(s, s', u, PcOf(s, t).e)
  {
  }

  /** Add makes an entry that is active from the start. */
  lemma AddedEntry(s: State, t: Tid, id: Id, newRef: Ref, o: Obj, s': State)
    requires DoAdd(s, t, id, newRef, o) == Some(s') && !s.closed && id !in s.data
    ensures NoRole(PcOf(s, t)) && PcOf(s', t) == Returned(false) && newRef in s'.entries
    ensures EntryOk(s', newRef) && DataOk(s', id) && ThreadOk(s', t) && s'.entries[newRef].value == Some(o)
  {
  }

  lemma AddKeeps(s: State, t: Tid, id: Id, newRef: Ref, o: Obj, s': State)
    requires Inv(s) && DoAdd(s, t, id, newRef, o) == Some(s')
    ensures Inv(s')
  {
    hide Inv, ObjOk, GlobalOk, EntryOk, DataOk, NewEntry;
    if s.closed || id in s.data {
      MoveKeeps(s, s', t);
    } else {
      AddedEntry(s, t, id, newRef, o, s');
      NewEntryKeeps(s, s', t, id, newRef, Some(o));
    }
  }

  lemma LoadCommitKeeps(s: State, t: Tid, s': State)
    requires Inv(s) && DoLoadCommit(s, t) == Some(s')
    ensures Inv(s')
  {
    hide Inv, Commit;
    if !PcOf(s, t).outcome.Loaded? {
      FailedLoadKeeps(s, s', t);
    } else if s.closed {
      DiscardBegins(s, s', t);
    } else {
      PublishKeeps(s, s', t);
    }
  }

  /** The load was refused, returned nothing or panicked. */
  lemma FailedLoadKeeps(s: State, s': State, t: Tid)
    requires Inv(s) && DoLoadCommit(s, t) == Some(s') && !PcOf(s, t).outcome.Loaded?
    ensures Inv(s')
  {
    hide Inv, ObjOk, GlobalOk, EntryOk, Evolves, ThreadOk, DataOk, Commit, Visits;
    var e := PcOf(s, t).e;
    AtThread(s, t);
    AtEntry(s, e);
    FailedEntry(s, s', t);
    FailedEvolves(s, s', t);
    FailedFrame(s, s', t);
    GlobalKept(s, s', t, e);
    UpdateKeeps(s, s', t, e, None);
  }

  lemma FailedIs(s: State, s': State, t: Tid) returns (err: Error, aborted: bool, panics: bool)
    requires DoLoadCommit(s, t) == Some(s') && !PcOf(s, t).outcome.Loaded?
    ensures PcOf(s, t).LoadDone? && PcOf(s, t).e in s.entries && s' == Failed(s, t, PcOf(s, t), err, aborted, panics)
  {
    hide PcOf, Failed;
    var pc := PcOf(s, t);
    match pc.outcome
    case Panic => err, aborted, panics := ErrLoadPanic, s.entries[pc.e].aborted, true;
    case Refused => err, aborted, panics := ErrLoad, pc.aborted, false;
    case NilValue => err, aborted, panics := ErrNilValue, pc.aborted, false;
  }

  /** What the failed load wrote. */
  lemma FailedParts(s: State, s': State, t: Tid)
    requires DoLoadCommit(s, t) == Some(s') && !PcOf(s, t).outcome.Loaded?
    ensures var pc := PcOf(s, t);
            && pc.LoadDone? && pc.e in s.entries && pc.e in s'.entries && s'.data == s.data - {pc.id}
            && s'.entries[pc.e] == s.entries[pc.e].(loadErr := s'.entries[pc.e].loadErr, aborted := s'.entries[pc.e].aborted)
            && s'.entries[pc.e].loadErr.Some?
            && PcOf(s', t).LoadRelease? && PcOf(s', t).id == pc.id && PcOf(s', t).e == pc.e
  {
    var err, aborted, panics := FailedIs(s, s', t);
    hide DoLoadCommit, Commit;
  }

  lemma FailedFrame(s: State, s': State, t: Tid)
    requires DoLoadCommit(s, t) == Some(s') && !PcOf(s, t).outcome.Loaded?
    ensures var e := PcOf(s, t).e; e in s'.entries && s'.entries == s.entries[e := s'.entries[e]]
    ensures forall u | u != t :: PcOf(s', u) == PcOf(s, u)
    ensures s'.objs == s.objs && s'.closed == s.closed && s'.passer == s.passer && s'.abandoned == s.abandoned && s'.doubleClose == s.doubleClose
    ensures PcOf(s', t).LoadRelease? && forall c :: !Visits(PcOf(s, t), c)
  {
    var err, aborted, panics := FailedIs(s, s', t);
    hide DoLoadCommit, Commit;
  }

  lemma FailedEntry(s: State, s': State, t: Tid)
    requires DoLoadCommit(s, t) == Some(s') && !PcOf(s, t).outcome.Loaded?
    requires ThreadOk(s, t) && PcOf(s, t).e in s.entries && EntryOk(s, PcOf(s, t).e)
    ensures PcOf(s, t).e in s'.entries && EntryOk(s', PcOf(s, t).e) && ThreadOk(s', t)
    ensures Dropped(s, s', PcOf(s, t).e) && s.entries[PcOf(s, t).e].value == None && s.entries[PcOf(s, t).e].state == Loading
    ensures s'.entries[PcOf(s, t).e].id == s.entries[PcOf(s, t).e].id
  {
    FailedParts(s, s', t);
    FailedFrame(s, s', t);
    hide DoLoadCommit, Commit, PcOf, OwnerOk, ThenOk, ValueOk, Owns, Visits, InHandOk;
  }

  lemma FailedEvolves(s: State, s': State, t: Tid)
    requires DoLoadCommit(s, t) == Some(s') && !PcOf(s, t).outcome.Loaded?
    requires ThreadOk(s, t) && PcOf(s, t).e in s.entries && EntryOk(s, PcOf(s, t).e)
    ensures forall u | u != t :: Evolves(s, s', u, PcOf(s, t).e)
  {
    hide OwnerOk, ThenOk, ValueOk, Visits, InHandOk;
  }

  lemma DiscardBegins(s: State, s': State, t: Tid)
    requires Inv(s) && DoLoadCommit(s, t) == Some(s') && PcOf(s, t).outcome.Loaded? && s.closed
    ensures Inv(s')
  {
    hide Inv, ObjOk, GlobalOk, OwnerOk, ThenOk;
    var pc := PcOf(s, t);
    AtThread(s, t);
    AtEntry(s, pc.e);
    GlobalDiscards(s, s', t);
    UpdateKeeps(s, s', t, pc.e, None);
  }

  /** No other load of the same id is discarding: its entry would have left the map. */
  lemma GlobalDiscards(s: State, s': State, t: Tid)
    requires Inv(s) && DoLoadCommit(s, t) == Some(s') && PcOf(s, t).outcome.Loaded? && s.closed
    ensures GlobalOk(s')
  {
    hide ObjOk, EntryOk;
    var pc := PcOf(s, t);
    assert EntryOk(s, pc.e) && ThreadOk(s, t);
    AtEntry(s, pc.e);
    LoadingInMap(s, pc.e);
    forall u | PcOf(s, u).LoadDiscard?
      ensures PcOf(s, u).id != pc.id
    {
      assert ThreadOk(s, u);
    }
    forall u, v | PcOf(s', u).LoadDiscard? && PcOf(s', v).LoadDiscard? && PcOf(s', u).id == PcOf(s', v).id
      ensures u == v
    {
      assert u != t ==> PcOf(s', u) == PcOf(s, u);
      assert v != t ==> PcOf(s', v) == PcOf(s, v);
    }
  }

  lemma LoadingInMap(s: State, e: Ref)
    requires e in s.entries && EntryOk(s, e) && s.entries[e].state == Loading && s.entries[e].loadErr == None
    ensures s.entries[e].id in s.data
  {
  }

  lemma PublishKeeps(s: State, s': State, t: Tid)
    requires Inv(s) && DoLoadCommit(s, t) == Some(s') && PcOf(s, t).outcome.Loaded? && !s.closed
    ensures Inv(s')
  {
    hide Inv, GlobalOk, OwnerOk, ThenOk;
    var pc := PcOf(s, t);
    AtThread(s, t);
    AtEntry(s, pc.e);
    GlobalKept(s, s', t, pc.e);
    UpdateKeeps(s, s', t, pc.e, Some(pc.outcome.o));
  }

  // ---- Close ------------------------------------------------------------------------------------------------

  lemma StartCloseKeeps(s: State, t: Tid, order: seq<Ref>, s': State)
    requires Inv(s) && DoStartClose(s, t, order) == Some(s')
    ensures Inv(s')
  {
    if s.closed {
      hide Inv, EntryOk, DataOk, ObjOk;
      MoveKeeps(s, s', t);
    } else {
      CloseBegins(s, t, order, s');
    }
  }

  /** The flag goes up, and the pass is going to visit every entry of the map. */
  lemma CloseBegins(s: State, t: Tid, order: seq<Ref>, s': State)
    requires Inv(s) && DoStartClose(s, t, order) == Some(s') && !s.closed
    ensures Inv(s')
  {
    hide EntryOk, DataOk, ObjOk, ThreadOk, Visits, Continue;
    forall id | id in s'.data
      ensures DataOk(s', id)
    {
      SameData(s, s', id);
    }
    forall e | e in s'.entries
      ensures EntryOk(s', e)
    {
      PassCovers(s, s', t, order, e);
    }
    forall o | o in s'.objs
      ensures ObjOk(s', o)
    {
      SameObj(s, s', t, o);
    }
    forall id | id in s.data
      ensures s.data[id] in s.entries
    {
      InMap(s, id);
    }
    forall u
      ensures ThreadOk(s', u)
    {
      ClosedThread(s, s', t, order, u);
    }
    assert !PcOf(s', t).LoadDiscard? by {
      ContinueRests(order);
    }
    forall u, v | PcOf(s', u).LoadDiscard? && PcOf(s', v).LoadDiscard? && PcOf(s', u).id == PcOf(s', v).id
      ensures u == v
    {
      assert PcOf(s', u) == PcOf(s, u) && PcOf(s', v) == PcOf(s, v);
    }
  }

  lemma InMap(s: State, id: Id)
    requires id in s.data && DataOk(s, id)
    ensures s.data[id] in s.entries
  {
  }

  lemma ContinueRests(order: seq<Ref>)
    ensures NoRole(Continue(Pass(order))) && forall e | e in order :: Visits(Continue(Pass(order)), e)
  {
    if order != [] {
      assert order == [order[0]] + order[1..];
    }
  }

  lemma PassCovers(s: State, s': State, t: Tid, order: seq<Ref>, e: Ref)
    requires DoStartClose(s, t, order) == Some(s') && !s.closed && e in s.entries && EntryOk(s, e)
    ensures EntryOk(s', e)
  {
    hide Continue, Visits;
    ContinueRests(order);
    if s.entries[e].state == Active {
      assert s.entries[e].id in s.data && s.data[s.entries[e].id] == e;
      assert e in s.data.Values;
      assert e in (set c | c in order);
    }
  }

  lemma ClosedThread(s: State, s': State, t: Tid, order: seq<Ref>, u: Tid)
    requires DoStartClose(s, t, order) == Some(s') && !s.closed && ThreadOk(s, u)
    requires forall id | id in s.data :: s.data[id] in s.entries
    ensures ThreadOk(s', u)
  {
    if u == t && order != [] {
      forall e | e in order
        ensures e in s.entries
      {
        assert e in (set c | c in order);
        assert e in s.data.Values;
      }
      assert order[0] in order;
      ContinueOk(s', t, order[0], Pass(order));
    }
  }

  // ---- every run ----------------------------------------------------------------------------------------------

  lemma ReadKeeps(s: State, a: Action, s': State)
    requires Inv(s) && Next(s, a) == Some(s') && Reads(a)
    ensures Inv(s')
  {
    hide Inv,
      DoStartGet, DoLockForGet, DoCheckClosing, DoWakeGet, DoTimeoutGet, DoLoadReturns,
      DoLoadCommit, DoDiscardValue, DoReleaseLoad, DoGetLoaded, DoStartPick, DoPickLoaded,
      DoTimeoutPick, DoStartRemove, DoStartRemoveSame, DoRemoveLoaded, DoTimeoutRemove, DoAcquireClosing,
      DoWakeRemove, DoCallClose, DoCloseAndDelete, DoStartTryRemove, DoTryAcquireClosing, DoCallTryClose,
      DoDecline, DoStartGC, DoStartClose, DoAdd;
    match a
    case StartGet(t, id) => StartGetKeeps(s, t, id, s');
    case LockForGet(t, newRef) => LockForGetKeeps(s, t, newRef, s');
    case CheckClosing(t) => CheckClosingKeeps(s, t, s');
    case WakeGet(t) => WakeGetKeeps(s, t, s');
    case TimeoutGet(t) => TimeoutGetKeeps(s, t, s');
    case LoadReturns(t, outcome, aborted) => LoadReturnsKeeps(s, t, outcome, aborted, s');
    case LoadCommit(t) => LoadCommitKeeps(s, t, s');
    case DiscardValue(t) => DiscardValueKeeps(s, t, s');
    case ReleaseLoad(t, ctxAlive) => ReleaseLoadKeeps(s, t, ctxAlive, s');
    case GetLoaded(t, ctxAlive) => GetLoadedKeeps(s, t, ctxAlive, s');
    case StartPick(t, id) => StartPickKeeps(s, t, id, s');
    case PickLoaded(t) => PickLoadedKeeps(s, t, s');
    case TimeoutPick(t) => TimeoutPickKeeps(s, t, s');
  }

  lemma RemovalKeeps(s: State, a: Action, s': State)
    requires Inv(s) && Next(s, a) == Some(s') && !Reads(a)
    ensures Inv(s')
  {
    hide Inv,
      DoStartGet, DoLockForGet, DoCheckClosing, DoWakeGet, DoTimeoutGet, DoLoadReturns,
      DoLoadCommit, DoDiscardValue, DoReleaseLoad, DoGetLoaded, DoStartPick, DoPickLoaded,
      DoTimeoutPick, DoStartRemove, DoStartRemoveSame, DoRemoveLoaded, DoTimeoutRemove, DoAcquireClosing,
      DoWakeRemove, DoCallClose, DoCloseAndDelete, DoStartTryRemove, DoTryAcquireClosing, DoCallTryClose,
      DoDecline, DoStartGC, DoStartClose, DoAdd;
    match a
    case StartRemove(t, id) => StartRemoveKeeps(s, t, id, s');
    case StartRemoveSame(t, id, o) => StartRemoveSameKeeps(s, t, id, o, s');
    case RemoveLoaded(t) => RemoveLoadedKeeps(s, t, s');
    case TimeoutRemove(t) => TimeoutRemoveKeeps(s, t, s');
    case AcquireClosing(t) => AcquireClosingKeeps(s, t, s');
    case WakeRemove(t) => WakeRemoveKeeps(s, t, s');
    case CallClose(t) => CallCloseKeeps(s, t, s');
    case CloseAndDelete(t) => CloseAndDeleteKeeps(s, t, s');
    case StartTryRemove(t, id) => StartTryRemoveKeeps(s, t, id, s');
    case TryAcquireClosing(t) => TryAcquireClosingKeeps(s, t, s');
    case CallTryClose(t, closes) => CallTryCloseKeeps(s, t, closes, s');
    case Decline(t) => DeclineKeeps(s, t, s');
    case StartGC(t, picks) => StartGCKeeps(s, t, picks, s');
    case StartClose(t, order) => StartCloseKeeps(s, t, order, s');
    case Add(t, id, newRef, o) => AddKeeps(s, t, id, newRef, o, s');
  }

  /** Every step keeps the invariant. */
  lemma StepKeeps(s: State, a: Action, s': State)
    requires Inv(s) && Next(s, a) == Some(s')
    ensures Inv(s')
  {
    hide Inv, Next;
    if Reads(a) {
      ReadKeeps(s, a, s');
    } else {
      RemovalKeeps(s, a, s');
    }
  }

  /** Whatever the threads do, in whatever order, the invariant holds. */
  lemma {:induction false} RunKeeps(actions: seq<Action>)
    requires Run(actions).Some?
    ensures Inv(Run(actions).value)
    decreases |actions|
  {
    if actions != [] {
      hide Inv, Next;
      var before := actions[..|actions| - 1];
      RunKeeps(before);
      StepKeeps(Run(before).value, actions[|actions| - 1], Run(actions).value);
    }
  }
}
