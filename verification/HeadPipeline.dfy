/** Deletion against head sync: `deletionstate.go` records ids under its lock, head storage commits entries
    and then announces them into the FIFO queue of `headupdater.go`, and one goroutine applies them to the
    diff through UpdateHeads of `diffmanager.go`.  A step is one critical section, one commit or one queue
    operation. */
module HeadPipeline {
  import opened Options
  import opened Deletion

  /** A head entry as it was when committed.  `emptyRoot` says its only head is the object's own id.  `own`
      marks the entries that the deletion state's status changes cause. */
  datatype Update = Update(id: Id, status: DeletedStatus, head: string, emptyRoot: bool, own: bool)

  /** Add holds the lock while it stores the status of an id, announces it if that changed the entry, and
      then records the id. */
  datatype Adding = Storing(id: Id) | Stored(id: Id, changed: bool) | Announced(id: Id)

  /** `stored` holds the deletion statuses of head storage, `created` the ids with an object in storage, and
      `pending` the updates committed but not yet announced.  `checked` is an update that passed UpdateHeads'
      check and is about to be set; `drained` are the ids with an own deletion update already applied. */
  datatype State = State(known: set<Id>, lock: Option<Adding>, stored: map<Id, DeletedStatus>, created: set<Id>,
                         pending: seq<Update>, queue: seq<Update>, diff: map<Id, string>, checked: Option<Update>,
                         filled: bool, drained: set<Id>)

  const Initial := State({}, None, map[], {}, [], [], map[], None, false, {})

  /** Commit is UpdateEntry by anyone but the deletion state; `deleting` stands for a tree created under a
      deleted parent.  Updates of different writers may be announced in any order.  DropTree is the deleter's
      removal of a tree from storage, for a queued id or for a child bound to one. */
  datatype Action =
    | Commit(id: Id, head: string, emptyRoot: bool, deleting: bool)
    | DropTree(id: Id)
    | Announce(i: nat)
    | Startup(ids: set<Id>)
    | BeginAdd(id: Id)
    | AddStored
    | AddAnnounced
    | AddFailed
    | AddRecorded
    | RecordDelete(id: Id)
    | DeleteStored(id: Id)
    | FillDiff(els: map<Id, string>)
    | Drain
    | ApplySet

  function Status(s: State, id: Id): DeletedStatus {
    if id in s.stored then s.stored[id] else NotDeleted
  }

  function Committed(s: State, id: Id, head: string, emptyRoot: bool, deleting: bool): State {
    var stored := if deleting then s.stored[id := Queued] else s.stored;
    var status := if deleting then Queued else Status(s, id);
    s.(stored := stored, created := s.created + {id}, pending := s.pending + [Update(id, status, head, emptyRoot, false)])
  }

  /** UpdateHeads up to the point where it sets the diff: a deletion removes the id, a known id and an
      empty root are dropped.  Exists waits for the lock. */
  function Drained(s: State): Option<State> {
    if !s.filled || s.checked.Some? || s.queue == [] then None
    else
      var u := s.queue[0];
      var s' := s.(queue := s.queue[1..]);
      if u.status != NotDeleted then Some(s'.(diff := s.diff - {u.id}, drained := if u.own then s.drained + {u.id} else s.drained))
      else if s.lock.Some? then None
      else if u.id in s.known || u.emptyRoot then Some(s')
      else Some(s'.(checked := Some(u)))
  }

  /** The state after an action, or None when it is not enabled. */
  function Next(s: State, a: Action): Option<State> {
    match a
    case Commit(id, head, emptyRoot, deleting) =>
      if deleting && id in s.created then None else Some(Committed(s, id, head, emptyRoot, deleting))
    case DropTree(id) => Some(s.(created := s.created - {id}))
    case Announce(i) =>
      if i < |s.pending| then Some(s.(pending := s.pending[..i] + s.pending[i + 1..], queue := s.queue + [s.pending[i]])) else None
    case Startup(ids) => if s.filled || s.lock.Some? then None else Some(s.(known := s.known + ids))
    case BeginAdd(id) => if s.lock.Some? || id in s.known then None else Some(s.(lock := Some(Storing(id))))
    case AddStored =>
      if s.lock.Some? && s.lock.value.Storing?
      then Some(s.(lock := Some(Stored(s.lock.value.id, Status(s, s.lock.value.id) != Queued)), stored := s.stored[s.lock.value.id := Queued]))
      else None
    case AddAnnounced =>
      if s.lock.Some? && s.lock.value.Stored?
      then Some(s.(lock := Some(Announced(s.lock.value.id)),
                   queue := s.queue + if s.lock.value.changed then [Update(s.lock.value.id, Queued, "", false, true)] else []))
      else None
    case AddFailed => if s.lock.Some? && s.lock.value.Storing? then Some(s.(lock := None)) else None
    case AddRecorded =>
      if s.lock.Some? && s.lock.value.Announced? then Some(s.(lock := None, known := s.known + {s.lock.value.id})) else None
    case RecordDelete(id) => if s.lock.Some? then None else Some(s.(known := s.known + {id}))
    case DeleteStored(id) =>
      if id in s.known
      then Some(s.(stored := s.stored[id := Deleted], pending := s.pending + [Update(id, Deleted, "", false, true)]))
      else None
    case FillDiff(els) => if s.filled then None else Some(s.(diff := els, filled := true))
    case Drain => Drained(s)
    case ApplySet =>
      if s.checked.Some? then Some(s.(diff := s.diff[s.checked.value.id := s.checked.value.head], checked := None)) else None
  }

  /** The state after a run, or None when some action was not enabled. */
  function Run(actions: seq<Action>): Option<State> {
    if actions == [] then Some(Initial)
    else
      match Run(actions[..|actions| - 1])
      case None => None
      case Some(s) => Next(s, actions[|actions| - 1])
  }

  /** The deletion state knows the id, or is about to record it and holds the lock. */
  predicate Held(s: State, id: Id) {
    id in s.known || s.lock == Some(Announced(id)) || (s.lock.Some? && s.lock.value.Stored? && s.lock.value.id == id)
  }

  // ---- invariants -----------------------------------------------------------------------------------------

  /** An update on its way agrees with what is recorded: an own one is a deletion of a held id, and a
      deletion is still a deletion in storage. */
  ghost predicate Backed(s: State, u: Update) {
    (u.own ==> Held(s, u.id) && u.status != NotDeleted) && (u.status != NotDeleted ==> Status(s, u.id) != NotDeleted)
  }

  ghost predicate Inv(s: State) {
    && (forall u | u in s.queue :: Backed(s, u))
    && (forall u | u in s.pending :: Backed(s, u))
    && (s.lock.Some? && !s.lock.value.Storing? ==> Status(s, s.lock.value.id) != NotDeleted)
    && (forall id | id in s.drained :: Held(s, id) && id !in s.diff)
    && (s.checked.Some? ==> s.checked.value.id !in s.drained && s.filled)
    && (!s.filled ==> s.drained == {})
  }

  /** What a step never takes back. */
  ghost predicate Grows(s: State, s': State) {
    && s.drained <= s'.drained && s.known <= s'.known && (s.filled ==> s'.filled)
    && (forall id :: Held(s, id) ==> Held(s', id))
    && (forall id :: Status(s, id) != NotDeleted ==> Status(s', id) != NotDeleted)
  }

  lemma StepGrows(s: State, a: Action, s': State)
    requires Next(s, a) == Some(s')
    ensures Grows(s, s')
  {
  }

  /** Every update on its way afterwards was on its way before or is the one just made. */
  lemma OnTheWay(s: State, a: Action, s': State, u: Update)
    requires Inv(s) && Next(s, a) == Some(s') && (u in s'.queue || u in s'.pending)
    ensures u in s.queue || u in s.pending || Backed(s', u)
  {
  }

  lemma StepKeeps(s: State, a: Action, s': State)
    requires Inv(s) && Next(s, a) == Some(s')
    ensures Inv(s') && Grows(s, s')
  {
    StepGrows(s, a, s');
    forall u | u in s'.queue || u in s'.pending
      ensures Backed(s', u)
    {
      OnTheWay(s, a, s', u);
    }
    DrainedStaysOut(s, a, s');
  }

  lemma DrainedStaysOut(s: State, a: Action, s': State)
    requires Inv(s) && Next(s, a) == Some(s')
    ensures forall id | id in s'.drained :: Held(s', id) && id !in s'.diff
    ensures s'.checked.Some? ==> s'.checked.value.id !in s'.drained && s'.filled
  {
    if a.Drain? {
      assert s.queue[0] in s.queue;
      assert Backed(s, s.queue[0]);
    }
  }

  lemma {:induction false} RunKeeps(actions: seq<Action>)
    requires Run(actions).Some?
    ensures Inv(Run(actions).value)
    decreases |actions|
  {
    if actions != [] {
      hide Next, Inv;
      var before := actions[..|actions| - 1];
      RunKeeps(before);
      StepKeeps(Run(before).value, actions[|actions| - 1], Run(actions).value);
    } else {
      InitialInv();
    }
  }

  lemma InitialInv()
    ensures Inv(Initial)
  {
  }

  /** What is known, drained or deleted in storage stays so. */
  lemma {:induction false} OnlyGrows(actions: seq<Action>, n: nat)
    requires Run(actions).Some? && n <= |actions|
    ensures Run(actions[..n]).Some? && Grows(Run(actions[..n]).value, Run(actions).value)
    decreases |actions|
  {
    if n == |actions| {
      assert actions[..n] == actions;
    } else {
      hide Next, Held, Status;
      var before := actions[..|actions| - 1];
      assert before[..n] == actions[..n];
      OnlyGrows(before, n);
      StepGrows(Run(before).value, actions[|actions| - 1], Run(actions).value);
    }
  }

  /** Once a deletion update of the deletion state has been drained the id never returns to the diff,
      whatever updates are committed afterwards and in whatever order they are announced. */
  lemma DeletedNeverReturns(actions: seq<Action>, n: nat, id: Id)
    requires Run(actions).Some? && n <= |actions|
    ensures Run(actions[..n]).Some?
    ensures id in Run(actions[..n]).value.drained ==> id !in Run(actions).value.diff
  {
    OnlyGrows(actions, n);
    RunKeeps(actions);
  }

  // ---- exactly which ids stay out --------------------------------------------------------------------------

  /** An update that would put its id into the diff. */
  predicate Reviving(u: Update, id: Id) {
    u.id == id && u.status == NotDeleted && !u.emptyRoot
  }

  predicate Waiting(s: State, id: Id) {
    (exists u | u in s.queue :: Reviving(u, id)) || (exists u | u in s.pending :: Reviving(u, id))
  }

  /** The deletion state holds the id, or it is deleted in storage and no older update would revive it. */
  predicate Safe(s: State, id: Id) {
    Held(s, id) || (Status(s, id) != NotDeleted && !Waiting(s, id))
  }

  predicate Absent(s: State, id: Id) {
    s.filled && id !in s.diff && (s.checked.Some? ==> s.checked.value.id != id)
  }

  lemma NoNewReviver(s: State, a: Action, s': State, id: Id)
    requires Next(s, a) == Some(s') && Status(s, id) != NotDeleted && !Waiting(s, id)
    ensures !Waiting(s', id)
  {
    assert s.queue != [] ==> forall u | u in s.queue[1..] :: u in s.queue;
  }

  lemma SafeStep(s: State, a: Action, s': State, id: Id)
    requires Next(s, a) == Some(s') && Absent(s, id) && Safe(s, id)
    ensures Absent(s', id) && Safe(s', id)
  {
    StepGrows(s, a, s');
    if !Held(s, id) {
      NoNewReviver(s, a, s', id);
    }
    if a.Drain? {
      assert s.queue[0] in s.queue;
    }
  }

  lemma {:induction false} SafeForever(actions: seq<Action>, more: seq<Action>, id: Id)
    requires Run(actions).Some? && Absent(Run(actions).value, id) && Safe(Run(actions).value, id) && Run(actions + more).Some?
    ensures Absent(Run(actions + more).value, id) && Safe(Run(actions + more).value, id)
    decreases |more|
  {
    if more == [] {
      assert actions + more == actions;
    } else {
      var n := |more| - 1;
      hide Next, Absent, Safe;
      var all := actions + more;
      assert all[..|all| - 1] == actions + more[..n];
      SafeForever(actions, more[..n], id);
      SafeStep(Run(actions + more[..n]).value, all[|all| - 1], Run(all).value, id);
    }
  }

  lemma Extend(actions: seq<Action>, a: Action)
    requires Run(actions).Some?
    ensures Run(actions + [a]) == Next(Run(actions).value, a)
  {
    assert (actions + [a])[..|actions|] == actions;
  }

  /** A continuation after which the id is in the diff. */
  ghost predicate Comeback(actions: seq<Action>, more: seq<Action>, id: Id) {
    Run(actions + more).Some? && id in Run(actions + more).value.diff
  }

  lemma ComebackAfter(actions: seq<Action>, first: seq<Action>, rest: seq<Action>, id: Id)
    requires Comeback(actions + first, rest, id)
    ensures Comeback(actions, first + rest, id)
  {
    assert actions + first + rest == actions + (first + rest);
  }

  /** With the lock free, the worker gets to update j of the queue and applies it. */
  lemma {:induction false} DrainTo(actions: seq<Action>, j: nat, id: Id) returns (more: seq<Action>)
    requires Run(actions).Some?
    requires var s := Run(actions).value;
             s.filled && s.lock == None && s.checked == None && id !in s.known && j < |s.queue| && Reviving(s.queue[j], id)
    ensures Comeback(actions, more, id)
    decreases j
  {
    var s := Run(actions).value;
    Extend(actions, Drain);
    var a1 := actions + [Drain];
    var s1 := Run(a1).value;
    if s1.checked.Some? {
      Extend(a1, ApplySet);
      var a2 := a1 + [ApplySet];
      assert a2 == actions + [Drain, ApplySet];
      if j == 0 {
        more := [Drain, ApplySet];
      } else {
        assert Run(a2).value.queue[j - 1] == s.queue[j];
        var rest := DrainTo(a2, j - 1, id);
        more := [Drain, ApplySet] + rest;
        ComebackAfter(actions, [Drain, ApplySet], rest, id);
      }
    } else {
      assert s1.queue[j - 1] == s.queue[j];
      var rest := DrainTo(a1, j - 1, id);
      more := [Drain] + rest;
      ComebackAfter(actions, [Drain], rest, id);
    }
  }

  /** A reviving update in the queue comes through once the worker and the lock are free. */
  lemma QueuedReturns(actions: seq<Action>, j: nat, id: Id) returns (more: seq<Action>)
    requires Run(actions).Some?
    requires var s := Run(actions).value;
             s.filled && s.lock == None && id !in s.known && j < |s.queue| && Reviving(s.queue[j], id)
    ensures Comeback(actions, more, id)
  {
    var s := Run(actions).value;
    if s.checked.Some? {
      Extend(actions, ApplySet);
      var rest := DrainTo(actions + [ApplySet], j, id);
      more := [ApplySet] + rest;
      ComebackAfter(actions, [ApplySet], rest, id);
    } else {
      more := DrainTo(actions, j, id);
    }
  }

  lemma WaitingReturns(actions: seq<Action>, id: Id) returns (more: seq<Action>)
    requires Run(actions).Some?
    requires var s := Run(actions).value; s.filled && s.lock == None && id !in s.known && Waiting(s, id)
    ensures Comeback(actions, more, id)
  {
    var s := Run(actions).value;
    if u :| u in s.queue && Reviving(u, id) {
      var j :| 0 <= j < |s.queue| && s.queue[j] == u;
      more := QueuedReturns(actions, j, id);
    } else {
      var u :| u in s.pending && Reviving(u, id);
      var i: nat :| i < |s.pending| && s.pending[i] == u;
      Extend(actions, Announce(i));
      var rest := QueuedReturns(actions + [Announce(i)], |s.queue|, id);
      more := [Announce(i)] + rest;
      ComebackAfter(actions, [Announce(i)], rest, id);
    }
  }

  /** Whoever holds the lock for another id, or has stored nothing yet, can let it go. */
  lemma Unlock(actions: seq<Action>, id: Id) returns (more: seq<Action>)
    requires Run(actions).Some? && Run(actions).value.filled && !Held(Run(actions).value, id)
    ensures Run(actions + more).Some?
    ensures var s, s' := Run(actions).value, Run(actions + more).value;
            && s'.filled && s'.lock == None && !Held(s', id) && Status(s', id) == Status(s, id)
            && s.queue <= s'.queue && s'.pending == s.pending
  {
    var s := Run(actions).value;
    if s.lock == None {
      more := [];
      assert actions + more == actions;
    } else if s.lock.value.Storing? {
      more := [AddFailed];
      Extend(actions, AddFailed);
    } else if s.lock.value.Stored? {
      Extend(actions, AddAnnounced);
      Extend(actions + [AddAnnounced], AddRecorded);
      more := [AddAnnounced, AddRecorded];
      assert actions + more == actions + [AddAnnounced] + [AddRecorded];
    } else {
      more := [AddRecorded];
      Extend(actions, AddRecorded);
    }
  }

  lemma WaitingKept(s: State, s': State, id: Id)
    requires Waiting(s, id) && s.queue <= s'.queue && s'.pending == s.pending
    ensures Waiting(s', id)
  {
    if u :| u in s.queue && Reviving(u, id) {
      assert u in s'.queue;
    }
  }

  /** An id that is not safe can come back. */
  lemma UnsafeReturns(actions: seq<Action>, id: Id) returns (more: seq<Action>)
    requires Run(actions).Some? && Run(actions).value.filled && !Safe(Run(actions).value, id)
    ensures Comeback(actions, more, id)
  {
    var s := Run(actions).value;
    var first := Unlock(actions, id);
    var a1 := actions + first;
    var s1 := Run(a1).value;
    if Waiting(s, id) {
      WaitingKept(s, s1, id);
      var rest := WaitingReturns(a1, id);
      more := first + rest;
      ComebackAfter(actions, first, rest, id);
    } else {
      var c := Commit(id, "head", false, false);
      Extend(a1, c);
      assert Update(id, NotDeleted, "head", false, false) in Run(a1 + [c]).value.pending;
      var rest := WaitingReturns(a1 + [c], id);
      ComebackAfter(a1, [c], rest, id);
      more := first + ([c] + rest);
      ComebackAfter(actions, first, [c] + rest, id);
    }
  }

  /** An id that is out of the diff stays out in every continuation exactly when it is safe. */
  lemma OutIffSafe(actions: seq<Action>, id: Id)
    requires Run(actions).Some? && Absent(Run(actions).value, id)
    ensures Safe(Run(actions).value, id) <==>
              forall more | Run(actions + more).Some? :: id !in Run(actions + more).value.diff
  {
    hide Next, Safe;
    if Safe(Run(actions).value, id) {
      forall more | Run(actions + more).Some?
        ensures id !in Run(actions + more).value.diff
      {
        SafeForever(actions, more, id);
      }
    } else {
      var more := UnsafeReturns(actions, id);
      assert !(Run(actions + more).Some? ==> id !in Run(actions + more).value.diff);
    }
  }

  /** After any deletion update has been drained, whoever caused it, the id stays out for good exactly when
      the deletion state holds it or no live update of it was committed before and is still to be drained. */
  lemma DrainedDeletionStays(actions: seq<Action>, id: Id)
    requires Run(actions).Some? && Run(actions + [Drain]).Some?
    requires var u := Run(actions).value.queue[0]; u.id == id && u.status != NotDeleted
    ensures var s := Run(actions + [Drain]).value;
            Held(s, id) || !Waiting(s, id) <==>
              forall more | Run(actions + [Drain] + more).Some? :: id !in Run(actions + [Drain] + more).value.diff
  {
    var s := Run(actions).value;
    Extend(actions, Drain);
    RunKeeps(actions);
    assert s.queue[0] in s.queue;
    assert Backed(s, s.queue[0]);
    OutIffSafe(actions + [Drain], id);
  }

  // ---- when a deletion in storage is enough ------------------------------------------------------------------

  /** A live update on its way belongs to an object in storage or to a held id, and what is deleted in
      storage is safe. */
  ghost predicate Guarded(s: State, u: Update) {
    u.status == NotDeleted ==> u.id in s.created || Held(s, u.id)
  }

  ghost predicate AllGuarded(s: State) {
    && (forall u | u in s.queue :: Guarded(s, u)) && (forall u | u in s.pending :: Guarded(s, u))
    && (forall id | Status(s, id) != NotDeleted :: Safe(s, id))
  }

  /** The deleter has only dropped trees of ids the deletion state held. */
  ghost predicate DropsHeld(actions: seq<Action>) {
    forall i | 0 <= i < |actions| && actions[i].DropTree? && Run(actions[..i]).Some? :: Held(Run(actions[..i]).value, actions[i].id)
  }

  lemma GuardedStep(s: State, a: Action, s': State, u: Update)
    requires AllGuarded(s) && Next(s, a) == Some(s') && (a.DropTree? ==> Held(s, a.id)) && (u in s'.queue || u in s'.pending)
    ensures Guarded(s', u)
  {
    StepGrows(s, a, s');
    assert u in s.queue || u in s.pending ==> Guarded(s, u);
  }

  lemma NewlyDeleted(s: State, a: Action, s': State, id: Id)
    requires AllGuarded(s) && Next(s, a) == Some(s') && Status(s, id) == NotDeleted && Status(s', id) != NotDeleted
    ensures Safe(s', id)
  {
    if a.Commit? {
      forall u | u in s.queue || u in s.pending
        ensures Reviving(u, id) ==> Held(s, id)
      {
        assert Guarded(s, u);
      }
    }
  }

  lemma AllGuardedStep(s: State, a: Action, s': State)
    requires AllGuarded(s) && Next(s, a) == Some(s') && (a.DropTree? ==> Held(s, a.id))
    ensures AllGuarded(s')
  {
    hide Next, Status, Safe, Guarded;
    forall u | u in s'.queue || u in s'.pending
      ensures Guarded(s', u)
    {
      GuardedStep(s, a, s', u);
    }
    forall id | Status(s', id) != NotDeleted
      ensures Safe(s', id)
    {
      if Status(s, id) == NotDeleted {
        NewlyDeleted(s, a, s', id);
      } else {
        SafetyKept(s, a, s', id);
      }
    }
  }

  lemma SafetyKept(s: State, a: Action, s': State, id: Id)
    requires Next(s, a) == Some(s') && Status(s, id) != NotDeleted && Safe(s, id)
    ensures Safe(s', id)
  {
    hide Next, Status, Held, Waiting;
    StepGrows(s, a, s');
    if !Held(s, id) {
      NoNewReviver(s, a, s', id);
    }
  }

  lemma {:induction false} RunGuarded(actions: seq<Action>)
    requires Run(actions).Some? && DropsHeld(actions)
    ensures AllGuarded(Run(actions).value)
    decreases |actions|
  {
    if actions != [] {
      hide Next, AllGuarded, Held;
      var n := |actions| - 1;
      var before := actions[..n];
      assert forall i | 0 <= i < n :: before[..i] == actions[..i];
      RunGuarded(before);
      AllGuardedStep(Run(before).value, actions[n], Run(actions).value);
    }
  }

  /** As long as only trees of held ids are dropped, a deletion update drained from anywhere keeps its id
      out of the diff for good. */
  lemma DrainedDeletionIsFinal(actions: seq<Action>, more: seq<Action>, id: Id)
    requires Run(actions).Some? && Run(actions + [Drain]).Some? && Run(actions + [Drain] + more).Some? && DropsHeld(actions)
    requires var u := Run(actions).value.queue[0]; u.id == id && u.status != NotDeleted
    ensures id !in Run(actions + [Drain] + more).value.diff
  {
    var a1 := actions + [Drain];
    Extend(actions, Drain);
    assert forall i | 0 <= i < |actions| :: a1[..i] == actions[..i];
    RunGuarded(a1);
    RunKeeps(actions);
    assert Run(actions).value.queue[0] in Run(actions).value.queue;
    assert Backed(Run(actions).value, Run(actions).value.queue[0]);
    SafeForever(a1, more, id);
  }

  /** A bound child that is not queued: the deleter drops its tree before the deletion state knows the id, and
      the tree arrives again and is created under its deleted parent, while a head update of the old tree is
      not announced yet. */
  const ChildRun: seq<Action> :=
    [FillDiff(map[]), Commit("c", "h", false, false), DropTree("c"), Commit("c", "c", true, true), Announce(1), Drain]

  const OldHead := Update("c", NotDeleted, "h", false, false)
  const Reborn := Update("c", Queued, "c", true, false)

  function ChildState(i: nat): State
    requires i <= 6
  {
    State({}, None, if i < 4 then map[] else map["c" := Queued], if i == 2 || i >= 4 then {"c"} else {},
          if i < 2 then [] else if i == 4 then [OldHead, Reborn] else [OldHead], if i == 5 then [Reborn] else [],
          map[], None, i >= 1, {})
  }

  lemma ChildCommits(i: nat)
    requires i < 4
    ensures Next(ChildState(i), ChildRun[i]) == Some(ChildState(i + 1))
  {
    var empty: seq<Update> := [];
    assert empty + [OldHead] == [OldHead] && [OldHead] + [Reborn] == [OldHead, Reborn];
    assert {"c"} - {"c"} == {} && {} + {"c"} == {"c"};
  }

  lemma ChildDrains(i: nat)
    requires 4 <= i < 6
    ensures Next(ChildState(i), ChildRun[i]) == Some(ChildState(i + 1))
  {
    var both, empty: seq<Update> := [OldHead, Reborn], [];
    assert both[..1] + both[2..] == [OldHead] && both[1] == Reborn;
    assert empty + [Reborn] == [Reborn] && [Reborn][1..] == [];
    var none: map<Id, string> := map[];
    assert none - {"c"} == none;
  }

  lemma {:induction false} ChildPrefix(i: nat)
    requires i <= 6
    ensures Run(ChildRun[..i]) == Some(ChildState(i))
  {
    if i > 0 {
      hide Next, ChildState;
      assert ChildRun[..i][..i - 1] == ChildRun[..i - 1];
      ChildPrefix(i - 1);
      if i <= 4 {
        ChildCommits(i - 1);
      } else {
        ChildDrains(i - 1);
      }
    } else {
      assert ChildState(0) == Initial;
    }
  }

  /** Then a drained deletion is not final: the child can come back to the diff although storage has it
      deleted. */
  lemma BoundChildReturns() returns (more: seq<Action>)
    ensures Run(ChildRun).Some? && Absent(Run(ChildRun).value, "c") && Status(Run(ChildRun).value, "c") != NotDeleted
    ensures Comeback(ChildRun, more, "c")
  {
    hide Next, Run;
    ChildPrefix(6);
    assert ChildRun[..6] == ChildRun;
    assert OldHead in ChildState(6).pending && Reviving(OldHead, "c");
    more := UnsafeReturns(ChildRun, "c");
  }

  // ---- where the heads in the diff come from --------------------------------------------------------------

  /** FillDiff stored this head, or it was committed and is no empty root. */
  ghost predicate Sourced(actions: seq<Action>, id: Id, head: string) {
    (exists els :: FillDiff(els) in actions && id in els && els[id] == head) || Commit(id, head, false, false) in actions
  }

  ghost predicate Made(actions: seq<Action>, u: Update) {
    u.status == NotDeleted ==> Commit(u.id, u.head, u.emptyRoot, false) in actions
  }

  ghost predicate Origins(actions: seq<Action>, s: State) {
    && (forall u | u in s.queue :: Made(actions, u))
    && (forall u | u in s.pending :: Made(actions, u))
    && (forall id | id in s.stored :: s.stored[id] != NotDeleted)
    && (s.checked.Some? ==> Made(actions, s.checked.value) && s.checked.value.status == NotDeleted && !s.checked.value.emptyRoot)
    && (forall id | id in s.diff :: Sourced(actions, id, s.diff[id]))
  }

  lemma SourcedMore(actions: seq<Action>, a: Action, id: Id, head: string)
    requires Sourced(actions, id, head)
    ensures Sourced(actions + [a], id, head)
  {
    if els :| FillDiff(els) in actions && id in els && els[id] == head {
      assert FillDiff(els) in actions + [a];
    }
  }

  lemma MadeStep(actions: seq<Action>, s: State, a: Action, s': State, u: Update)
    requires Origins(actions, s) && Next(s, a) == Some(s') && (u in s'.queue || u in s'.pending)
    ensures Made(actions + [a], u)
  {
    hide Sourced;
    assert a in actions + [a] && forall b | b in actions :: b in actions + [a];
    if !(u in s.queue || u in s.pending) {
      assert a.Commit? && u.status == NotDeleted ==> !a.deleting;
    }
  }

  lemma OriginStep(actions: seq<Action>, s: State, a: Action, s': State)
    requires Origins(actions, s) && Next(s, a) == Some(s')
    ensures Origins(actions + [a], s')
  {
    hide Sourced;
    var all := actions + [a];
    assert a in all && forall b | b in actions :: b in all;
    forall u | u in s'.queue || u in s'.pending
      ensures Made(all, u)
    {
      MadeStep(actions, s, a, s', u);
    }
    forall id | id in s'.diff
      ensures Sourced(all, id, s'.diff[id])
    {
      if id in s.diff && s'.diff[id] == s.diff[id] {
        SourcedMore(actions, a, id, s.diff[id]);
      } else {
        NewlySourced(actions, s, a, s', id);
      }
    }
    assert s.queue != [] ==> s.queue[0] in s.queue;
  }

  lemma NewlySourced(actions: seq<Action>, s: State, a: Action, s': State, id: Id)
    requires Origins(actions, s) && Next(s, a) == Some(s') && id in s'.diff && !(id in s.diff && s'.diff[id] == s.diff[id])
    ensures Sourced(actions + [a], id, s'.diff[id])
  {
    var all := actions + [a];
    assert a in all && forall b | b in actions :: b in all;
    if a.FillDiff? {
      assert FillDiff(a.els) in all;
    } else {
      assert a.ApplySet? && Made(actions, s.checked.value);
    }
  }

  /** Every head in the diff was stored at startup or committed live; empty roots never enter through updates. */
  lemma {:induction false} HeadsAreSourced(actions: seq<Action>)
    requires Run(actions).Some?
    ensures Origins(actions, Run(actions).value)
    decreases |actions|
  {
    if actions != [] {
      hide Next, Origins;
      var n := |actions| - 1;
      HeadsAreSourced(actions[..n]);
      assert actions == actions[..n] + [actions[n]];
      OriginStep(actions[..n], Run(actions[..n]).value, actions[n], Run(actions).value);
    } else {
      InitialOrigins();
    }
  }

  lemma InitialOrigins()
    ensures Origins([], Initial)
  {
  }

  // ---- what the diff says ------------------------------------------------------------------------------------

  /** Action i drains an update of the id that counts: a deletion, or a live one that is no empty root, of an
      id the deletion state does not know then. */
  ghost predicate Counts(actions: seq<Action>, i: int, id: Id) {
    && 0 <= i < |actions| && actions[i].Drain? && Run(actions[..i]).Some?
    && var s := Run(actions[..i]).value;
    && s.queue != [] && s.queue[0].id == id && (s.queue[0].status != NotDeleted || (!s.queue[0].emptyRoot && id !in s.known))
  }

  ghost predicate Revives(actions: seq<Action>, i: int, id: Id, head: string) {
    Counts(actions, i, id) && Run(actions[..i]).value.queue[0].status == NotDeleted && Run(actions[..i]).value.queue[0].head == head
  }

  ghost predicate Filled(actions: seq<Action>, id: Id, head: string) {
    exists els :: FillDiff(els) in actions && id in els && els[id] == head
  }

  /** The head the drained updates leave for the id: that of the last one that counts, if it is live, or
      FillDiff's if none counts. */
  ghost predicate Says(actions: seq<Action>, id: Id, head: string) {
    || (exists i :: Revives(actions, i, id, head) && forall j | j > i :: !Counts(actions, j, id))
    || (Filled(actions, id, head) && forall i :: !Counts(actions, i, id))
  }

  lemma CountsBefore(actions: seq<Action>, i: int, id: Id)
    requires actions != [] && i < |actions| - 1
    ensures Counts(actions, i, id) <==> Counts(actions[..|actions| - 1], i, id)
    ensures forall head :: Revives(actions, i, id, head) <==> Revives(actions[..|actions| - 1], i, id, head)
  {
    hide Run;
    if 0 <= i {
      assert actions[..|actions| - 1][..i] == actions[..i];
    }
  }

  lemma CountsInside(actions: seq<Action>, i: int, id: Id)
    requires Counts(actions, i, id)
    ensures 0 <= i < |actions|
  {
  }

  /** The last action does not count for the id and does not fill the diff. */
  lemma SaysSame(actions: seq<Action>, id: Id, head: string)
    requires actions != [] && !Counts(actions, |actions| - 1, id) && !actions[|actions| - 1].FillDiff?
    ensures Says(actions, id, head) <==> Says(actions[..|actions| - 1], id, head)
  {
    hide Run, Counts, Revives;
    var n := |actions| - 1;
    var before := actions[..n];
    assert actions == before + [actions[n]];
    assert Filled(actions, id, head) <==> Filled(before, id, head);
    forall i
      ensures Counts(actions, i, id) <==> Counts(before, i, id)
      ensures Revives(actions, i, id, head) <==> Revives(before, i, id, head)
    {
      CountsAnywhere(actions, i, id, head);
    }
  }

  lemma CountsAnywhere(actions: seq<Action>, i: int, id: Id, head: string)
    requires actions != [] && !Counts(actions, |actions| - 1, id)
    ensures Counts(actions, i, id) <==> Counts(actions[..|actions| - 1], i, id)
    ensures Revives(actions, i, id, head) <==> Revives(actions[..|actions| - 1], i, id, head)
  {
    hide Run;
    if i < |actions| - 1 {
      CountsBefore(actions, i, id);
    }
  }

  /** The last action counts for the id. */
  lemma SaysLast(actions: seq<Action>, id: Id, head: string)
    requires actions != [] && Counts(actions, |actions| - 1, id)
    ensures Says(actions, id, head) <==> Revives(actions, |actions| - 1, id, head)
  {
    hide Run, Revives;
    var n := |actions| - 1;
    if i :| Revives(actions, i, id, head) && forall j | j > i :: !Counts(actions, j, id) {
      RevivesCounts(actions, i, id, head);
      CountsInside(actions, i, id);
      assert i == n;
    }
    assert forall j | j > n :: !Counts(actions, j, id);
  }

  lemma RevivesCounts(actions: seq<Action>, i: int, id: Id, head: string)
    requires Revives(actions, i, id, head)
    ensures Counts(actions, i, id)
  {
  }

  lemma StepUnfilled(s: State, a: Action, s': State)
    requires Next(s, a) == Some(s') && !s'.filled && s.checked == None
    ensures !s.filled && s'.diff == s.diff && s'.checked == None && !a.FillDiff? && !a.Drain?
  {
  }

  /** Before the diff is filled nothing is drained and the diff is empty. */
  lemma {:induction false} EmptyUntilFilled(actions: seq<Action>, id: Id)
    requires Run(actions).Some? && !Run(actions).value.filled
    ensures Run(actions).value.diff == map[] && Run(actions).value.checked == None
    ensures (forall i :: !Counts(actions, i, id)) && forall head :: !Filled(actions, id, head)
    decreases |actions|
  {
    if actions != [] {
      hide Next, Counts, Inv;
      var n := |actions| - 1;
      var before := actions[..n];
      RunKeeps(before);
      UncheckedUntilFilled(Run(before).value, actions[n], Run(actions).value);
      StepUnfilled(Run(before).value, actions[n], Run(actions).value);
      EmptyUntilFilled(before, id);
      assert actions == before + [actions[n]];
      NoDrainNow(actions, id);
      forall i
        ensures !Counts(actions, i, id)
      {
        CountsAnywhere(actions, i, id, "");
      }
      forall head
        ensures !Filled(actions, id, head)
      {
        assert !Filled(before, id, head);
      }
    } else {
      NothingCounts(id);
    }
  }

  lemma UncheckedUntilFilled(s: State, a: Action, s': State)
    requires Inv(s) && Next(s, a) == Some(s') && !s'.filled
    ensures s.checked == None
  {
    StepGrows(s, a, s');
  }

  lemma NothingCounts(id: Id)
    ensures forall i :: !Counts([], i, id)
  {
  }

  /** The head the diff has for the id, or is about to get. */
  function Shown(s: State, id: Id): Option<string> {
    if s.checked.Some? && s.checked.value.id == id then Some(s.checked.value.head)
    else if id in s.diff then Some(s.diff[id])
    else None
  }

  /** The diff says what it should, and an update about to be set is the last one that counts. */
  ghost predicate Shows(actions: seq<Action>, s: State, id: Id) {
    forall head :: Says(actions, id, head) <==> Shown(s, id) == Some(head)
  }

  predicate CountsNow(s: State, a: Action, id: Id) {
    && a.Drain? && s.queue != []
    && s.queue[0].id == id && (s.queue[0].status != NotDeleted || (!s.queue[0].emptyRoot && id !in s.known))
  }

  lemma ShownStep(s: State, a: Action, s': State, id: Id)
    requires Next(s, a) == Some(s') && !a.FillDiff?
    ensures Shown(s', id) ==
            if !CountsNow(s, a, id) then Shown(s, id) else if s.queue[0].status == NotDeleted then Some(s.queue[0].head) else None
  {
  }

  lemma ShownFilled(s: State, els: map<Id, string>, s': State, id: Id)
    requires Next(s, FillDiff(els)) == Some(s') && s.checked == None
    ensures Shown(s', id) == if id in els then Some(els[id]) else None
  {
  }

  lemma ShowsStep(actions: seq<Action>, id: Id)
    requires actions != [] && Run(actions).Some?
    requires Run(actions[..|actions| - 1]).Some? && Shows(actions[..|actions| - 1], Run(actions[..|actions| - 1]).value, id)
    ensures Shows(actions, Run(actions).value, id)
  {
    hide Says, Next, Shown;
    var n := |actions| - 1;
    var s, s', a := Run(actions[..n]).value, Run(actions).value, actions[n];
    if a.FillDiff? {
      FillsOnce(actions);
      EmptyUntilFilled(actions[..n], id);
      ShownFilled(s, a.els, s', id);
    } else {
      ShownStep(s, a, s', id);
    }
    forall head
      ensures Says(actions, id, head) <==> Shown(s', id) == Some(head)
    {
      if a.FillDiff? {
        FillSays(actions, id, head);
      } else if Counts(actions, n, id) {
        SaysLast(actions, id, head);
      } else {
        SaysSame(actions, id, head);
      }
    }
  }

  lemma FillSays(actions: seq<Action>, id: Id, head: string)
    requires actions != [] && Run(actions).Some? && actions[|actions| - 1].FillDiff?
    ensures var els := actions[|actions| - 1].els; Says(actions, id, head) <==> id in els && els[id] == head
  {
    hide Run, Counts, Revives;
    var n := |actions| - 1;
    var before := actions[..n];
    FillsOnce(actions);
    EmptyUntilFilled(before, id);
    assert actions == before + [actions[n]];
    forall i
      ensures !Counts(actions, i, id) && !Revives(actions, i, id, head)
    {
      NoDrainNow(actions, id);
      CountsAnywhere(actions, i, id, head);
      if Revives(before, i, id, head) {
        RevivesCounts(before, i, id, head);
      }
    }
    assert !Filled(before, id, head);
  }

  lemma NoDrainNow(actions: seq<Action>, id: Id)
    requires actions != [] && !actions[|actions| - 1].Drain?
    ensures !Counts(actions, |actions| - 1, id)
  {
  }

  lemma FillsOnce(actions: seq<Action>)
    requires actions != [] && Run(actions).Some? && actions[|actions| - 1].FillDiff?
    ensures Run(actions[..|actions| - 1]).Some? && !Run(actions[..|actions| - 1]).value.filled
  {
  }

  lemma {:induction false} RunShows(actions: seq<Action>, id: Id)
    requires Run(actions).Some?
    ensures Shows(actions, Run(actions).value, id)
    decreases |actions|
  {
    if actions == [] {
      EmptyUntilFilled(actions, id);
    } else {
      hide Shows, Next;
      RunShows(actions[..|actions| - 1], id);
      ShowsStep(actions, id);
    }
  }

  /** After every run, when nothing is about to be set: the diff has the id with this head exactly when the
      last drained update of it that counts was live and carried the head, or none counted and FillDiff
      supplied it. */
  lemma DiffIsLatest(actions: seq<Action>, id: Id, head: string)
    requires Run(actions).Some? && Run(actions).value.checked == None
    ensures id in Run(actions).value.diff && Run(actions).value.diff[id] == head <==> Says(actions, id, head)
  {
    hide Says, Run;
    RunShows(actions, id);
  }

  // ---- updates are neither lost nor reordered -----------------------------------------------------------------

  /** The update an action commits to head storage, if any. */
  function Writes(s: State, a: Action): seq<Update> {
    match a
    case Commit(id, head, emptyRoot, deleting) => [Update(id, if deleting then Queued else Status(s, id), head, emptyRoot, false)]
    case DeleteStored(id) => [Update(id, Deleted, "", false, true)]
    case _ => []
  }

  /** The update an action hands to the queue. */
  function Hands(s: State, a: Action): seq<Update> {
    if a.Announce? && a.i < |s.pending| then [s.pending[a.i]]
    else if a.AddAnnounced? && s.lock.Some? && s.lock.value.Stored? && s.lock.value.changed
    then [Update(s.lock.value.id, Queued, "", false, true)]
    else []
  }

  function Takes(s: State, a: Action): seq<Update> {
    if a.Drain? && s.queue != [] then [s.queue[0]] else []
  }

  /** What a run has committed, announced and drained, in order. */
  function Log(actions: seq<Action>, pick: (State, Action) -> seq<Update>): seq<Update> {
    if actions == [] then []
    else
      var n := |actions| - 1;
      Log(actions[..n], pick) + (match Run(actions[..n]) case None => [] case Some(s) => pick(s, actions[n]))
  }

  lemma FirstTaken(s: State, s': State)
    requires Drained(s) == Some(s')
    ensures s.queue != [] && [s.queue[0]] + s'.queue == s.queue
  {
  }

  lemma QueueGrows(s: State, a: Action, s': State)
    requires Next(s, a) == Some(s') && !a.Drain?
    ensures s'.queue == s.queue + Hands(s, a)
  {
    assert s.queue + [] == s.queue;
  }

  lemma QueueStep(s: State, a: Action, s': State)
    requires Next(s, a) == Some(s')
    ensures Takes(s, a) + s'.queue == s.queue + Hands(s, a)
  {
    if a.Drain? {
      FirstTaken(s, s');
      assert s.queue + [] == s.queue;
    } else {
      hide Next, Hands;
      QueueGrows(s, a, s');
      assert [] + s'.queue == s'.queue;
    }
  }

  /** First in, first out: what has been announced is what has been drained followed by the queue. */
  lemma {:induction false} FirstInFirstOut(actions: seq<Action>)
    requires Run(actions).Some?
    ensures Log(actions, Hands) == Log(actions, Takes) + Run(actions).value.queue
    decreases |actions|
  {
    if actions != [] {
      hide Next, Hands, Takes;
      var n := |actions| - 1;
      var s, s', a := Run(actions[..n]).value, Run(actions).value, actions[n];
      FirstInFirstOut(actions[..n]);
      QueueStep(s, a, s');
      var handed, taken := Log(actions[..n], Hands), Log(actions[..n], Takes);
      assert handed + Hands(s, a) == taken + (s.queue + Hands(s, a));
      assert taken + (Takes(s, a) + s'.queue) == (taken + Takes(s, a)) + s'.queue;
    }
  }

  /** The updates other writers or Delete committed that have been announced. */
  function Forwards(s: State, a: Action): seq<Update> {
    if a.Announce? then Hands(s, a) else []
  }

  lemma MultisetTakeOut(p: seq<Update>, i: nat)
    requires i < |p|
    ensures multiset(p) == multiset(p[..i] + p[i + 1..]) + multiset{p[i]}
  {
    assert p == p[..i] + [p[i]] + p[i + 1..];
  }

  lemma PendingStep(s: State, a: Action, s': State)
    requires Next(s, a) == Some(s')
    ensures multiset(s.pending) + multiset(Writes(s, a)) == multiset(s'.pending) + multiset(Forwards(s, a))
  {
    if a.Announce? {
      MultisetTakeOut(s.pending, a.i);
    }
  }

  /** Every committed update is announced once or still pending. */
  lemma {:induction false} NothingLost(actions: seq<Action>)
    requires Run(actions).Some?
    ensures multiset(Log(actions, Writes)) == multiset(Run(actions).value.pending) + multiset(Log(actions, Forwards))
    decreases |actions|
  {
    if actions != [] {
      hide Next, Writes, Forwards;
      var n := |actions| - 1;
      var s, s', a := Run(actions[..n]).value, Run(actions).value, actions[n];
      NothingLost(actions[..n]);
      PendingStep(s, a, s');
    }
  }

  // ---- the deletion state's lock ------------------------------------------------------------------------------

  /** The known ids change only while no Add is under way, or by the Add that is; the deletion state is loaded
      before the diff is filled. */
  lemma KnownUnderLock(s: State, a: Action, s': State)
    requires Next(s, a) == Some(s')
    ensures s'.known == s.known
            || (s.lock == None && (a.Startup? || a.RecordDelete?))
            || (a.AddRecorded? && s.lock.Some? && s'.known == s.known + {s.lock.value.id})
    ensures a.Startup? ==> !s.filled
  {
  }

  /** Whoever needs the lock gets it once it is free, and an Add that holds it can always go on. */
  lemma LockIsFreed(s: State, id: Id, ids: set<Id>)
    ensures s.lock == None ==> Next(s, RecordDelete(id)).Some? && (!s.filled ==> Next(s, Startup(ids)).Some?)
    ensures s.lock == None && id !in s.known ==> Next(s, BeginAdd(id)).Some?
    ensures s.lock.Some? ==> Next(s, AddStored).Some? || Next(s, AddAnnounced).Some? || Next(s, AddRecorded).Some?
  {
  }

  /** A deletion update of the id that has been committed or announced. */
  predicate QueuedBy(log: seq<Update>, id: Id) {
    exists u | u in log :: u.id == id && u.status == Queued
  }

  ghost predicate Told(actions: seq<Action>, s: State, id: Id) {
    QueuedBy(Log(actions, Writes), id) || QueuedBy(Log(actions, Hands), id) || s.lock == Some(Stored(id, true))
  }

  lemma QueuedStep(s: State, a: Action, s': State, id: Id)
    requires Next(s, a) == Some(s') && Status(s', id) == Queued
    ensures Status(s, id) == Queued || QueuedBy(Writes(s, a), id) || s'.lock == Some(Stored(id, true))
    ensures s.lock == Some(Stored(id, true)) ==> s'.lock == s.lock || QueuedBy(Hands(s, a), id)
  {
  }

  lemma QueuedInLog(actions: seq<Action>, pick: (State, Action) -> seq<Update>, id: Id)
    requires actions != [] && Run(actions[..|actions| - 1]).Some?
    ensures QueuedBy(Log(actions[..|actions| - 1], pick), id) ==> QueuedBy(Log(actions, pick), id)
    ensures QueuedBy(pick(Run(actions[..|actions| - 1]).value, actions[|actions| - 1]), id) ==> QueuedBy(Log(actions, pick), id)
  {
  }

  /** No deletion is kept from the diff: an id queued for deletion in storage has an update that says so among those
      committed or announced, or an Add is about to announce it. */
  lemma {:induction false} DeletionsAreTold(actions: seq<Action>, id: Id)
    requires Run(actions).Some? && Status(Run(actions).value, id) == Queued
    ensures Told(actions, Run(actions).value, id)
    decreases |actions|
  {
    if actions != [] {
      hide Next, Writes, Hands, QueuedBy, Status;
      var n := |actions| - 1;
      var s, s', a := Run(actions[..n]).value, Run(actions).value, actions[n];
      QueuedStep(s, a, s', id);
      QueuedInLog(actions, Writes, id);
      QueuedInLog(actions, Hands, id);
      if Status(s, id) == Queued {
        DeletionsAreTold(actions[..n], id);
      }
    }
  }
}
