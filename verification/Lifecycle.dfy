/** `app/app.go`: Start and Close over any component list and any failure point. */
module Lifecycle {

  /** What the application can observe of a component. */
  datatype Component = Component(runnable: bool, initFails: bool, runFails: bool)

  datatype Event = Inited(i: nat) | Ran(i: nat) | Closed(i: nat)

  datatype Outcome = InitFailed(k: nat) | RunFailed(k: nat) | Running

  datatype Result = Ok | ErrAlreadyStarted | ErrAppClosed | ErrInit(k: nat) | ErrRun(k: nat)

  // ---- what Start and Close should have called --------------------------------------------------------

  function Inits(k: nat): seq<Event> {
    seq(k, i requires 0 <= i < k => Inited(i))
  }

  /** Run on the runnable components below k, in order. */
  function Runs(cs: seq<Component>, k: nat): seq<Event>
    requires k <= |cs|
  {
    if k == 0 then [] else Runs(cs, k - 1) + if cs[k - 1].runnable then [Ran(k - 1)] else []
  }

  /** Close on the runnable components of [lo, hi), last registered first. */
  function Closes(cs: seq<Component>, lo: nat, hi: nat): seq<Event>
    requires hi <= |cs|
    decreases hi
  {
    if hi <= lo then [] else (if cs[hi - 1].runnable then [Closed(hi - 1)] else []) + Closes(cs, lo, hi - 1)
  }

  function FirstInitFailure(cs: seq<Component>, i: nat): (k: nat)
    requires i <= |cs|
    ensures i <= k <= |cs| && (k < |cs| ==> cs[k].initFails) && forall j | i <= j < k :: !cs[j].initFails
    decreases |cs| - i
  {
    if i == |cs| || cs[i].initFails then i else FirstInitFailure(cs, i + 1)
  }

  function FirstRunFailure(cs: seq<Component>, i: nat): (k: nat)
    requires i <= |cs|
    ensures i <= k <= |cs| && (k < |cs| ==> cs[k].runnable && cs[k].runFails)
    ensures forall j | i <= j < k :: !(cs[j].runnable && cs[j].runFails)
    decreases |cs| - i
  {
    if i == |cs| || (cs[i].runnable && cs[i].runFails) then i else FirstRunFailure(cs, i + 1)
  }

  function OutcomeOf(cs: seq<Component>): Outcome {
    var k := FirstInitFailure(cs, 0);
    if k < |cs| then InitFailed(k)
    else
      var r := FirstRunFailure(cs, 0);
      if r < |cs| then RunFailed(r) else Running
  }

  /** How many components had Init reached, had Run reached, and were closed by Start itself. */
  function Reached(cs: seq<Component>): (n: nat)
    ensures n <= |cs|
  {
    match OutcomeOf(cs) case InitFailed(k) => k + 1 case _ => |cs|
  }

  function RunReached(cs: seq<Component>): (n: nat)
    ensures n <= |cs| && (n > 0 ==> Reached(cs) == |cs| && forall i | 0 <= i < |cs| :: !cs[i].initFails)
  {
    match OutcomeOf(cs) case InitFailed(k) => 0 case RunFailed(k) => k + 1 case Running => |cs|
  }

  function SelfClosed(cs: seq<Component>): (n: nat)
    ensures n <= Reached(cs)
  {
    match OutcomeOf(cs) case InitFailed(k) => k + 1 case RunFailed(k) => k + 1 case Running => 0
  }

  function StartCalls(cs: seq<Component>): seq<Event> {
    Inits(Reached(cs)) + Runs(cs, RunReached(cs)) + Closes(cs, 0, SelfClosed(cs))
  }

  /** Every call made on components so far. */
  function Calls(cs: seq<Component>, started: bool, closed: bool): seq<Event> {
    if !started then [] else StartCalls(cs) + if closed then Closes(cs, SelfClosed(cs), Reached(cs)) else []
  }

  class App {
    const components: seq<Component>
    var started: bool
    var closed: bool
    var initialized: nat
    var closedUpTo: nat
    ghost var calls: seq<Event>

    ghost predicate Valid()
      reads this
    {
      && calls == Calls(components, started, closed)
      && initialized == (if started then Reached(components) else 0)
      && closedUpTo == (if started then SelfClosed(components) else 0)
    }

    constructor (cs: seq<Component>)
      ensures Valid() && components == cs && !started && !closed
    {
      components := cs;
      started := false;
      closed := false;
      initialized := 0;
      closedUpTo := 0;
      calls := [];
    }

    /** closeServices: close the runnable components of [lo, hi), last first. */
    method CloseRange(lo: nat, hi: nat)
      requires lo <= hi <= |components|
      modifies this`calls
      ensures calls == old(calls) + Closes(components, lo, hi)
    {
      var i := hi;
      while i > lo
        invariant lo <= i <= hi
        invariant old(calls) + Closes(components, lo, hi) == calls + Closes(components, lo, i)
      {
        i := i - 1;
        if components[i].runnable {
          calls := calls + [Closed(i)];
        }
      }
    }

    method InitAll() returns (k: nat)
      requires calls == []
      modifies this`calls, this`initialized
      ensures k == FirstInitFailure(components, 0)
      ensures initialized == (if k < |components| then k + 1 else if |components| == 0 then old(initialized) else k)
      ensures calls == Inits(if k < |components| then k + 1 else k)
    {
      k := 0;
      while k < |components|
        invariant k <= |components| && calls == Inits(k) && (k > 0 ==> initialized == k) && (k == 0 ==> initialized == old(initialized))
        invariant FirstInitFailure(components, 0) == FirstInitFailure(components, k)
      {
        calls := calls + [Inited(k)];
        assert calls == Inits(k + 1);
        initialized := k + 1;
        if components[k].initFails {
          return;
        }
        k := k + 1;
      }
    }

    method RunAll() returns (k: nat)
      modifies this`calls
      ensures k == FirstRunFailure(components, 0)
      ensures calls == old(calls) + Runs(components, if k < |components| then k + 1 else k)
    {
      k := 0;
      while k < |components|
        invariant k <= |components| && calls == old(calls) + Runs(components, k)
        invariant FirstRunFailure(components, 0) == FirstRunFailure(components, k)
      {
        if components[k].runnable {
          calls := calls + [Ran(k)];
          if components[k].runFails {
            return;
          }
        }
        k := k + 1;
      }
    }

    /** Start works at most once and never on a closed App. */
    method Start() returns (r: Result)
      requires Valid()
      modifies this
      ensures Valid() && closed == old(closed)
      ensures old(started) ==> r == ErrAlreadyStarted && started && calls == old(calls)
      ensures !old(started) && closed ==> r == ErrAppClosed && !started && calls == old(calls)
      ensures !old(started) && !closed ==> started
      ensures !old(started) && !closed ==>
                r == match OutcomeOf(components) case InitFailed(k) => ErrInit(k) case RunFailed(k) => ErrRun(k) case Running => Ok
    {
      if started {
        return ErrAlreadyStarted;
      }
      if closed {
        return ErrAppClosed;
      }
      started := true;
      var k := InitAll();
      if k < |components| {
        CloseRange(0, k + 1);
        closedUpTo := k + 1;
        return ErrInit(k);
      }
      var j := RunAll();
      if j < |components| {
        CloseRange(0, j + 1);
        closedUpTo := j + 1;
        return ErrRun(j);
      }
      return Ok;
    }

    /** Close covers what was initialised and not closed by a failed Start; a second Close does nothing. */
    method Close()
      requires Valid()
      modifies this
      ensures Valid() && closed && started == old(started)
      ensures old(closed) ==> calls == old(calls)
    {
      if closed {
        return;
      }
      closed := true;
      CloseRange(closedUpTo, initialized);
    }
  }

  /** How often an event occurs. */
  function Times(s: seq<Event>, e: Event): nat {
    if s == [] then 0 else (if s[0] == e then 1 else 0) + Times(s[1..], e)
  }

  lemma {:induction false} TimesConcat(a: seq<Event>, b: seq<Event>, e: Event)
    ensures Times(a + b, e) == Times(a, e) + Times(b, e)
    decreases |a|
  {
    if a == [] {
      assert a + b == b;
    } else {
      assert (a + b)[1..] == a[1..] + b;
      TimesConcat(a[1..], b, e);
    }
  }

  // ---- what the calls promise ------------------------------------------------------------------------------

  lemma {:induction false} CountInits(k: nat, e: Event)
    ensures Times(Inits(k), e) == if e.Inited? && e.i < k then 1 else 0
    decreases k
  {
    if k > 0 {
      assert Inits(k) == Inits(k - 1) + [Inited(k - 1)];
      CountInits(k - 1, e);
      TimesConcat(Inits(k - 1), [Inited(k - 1)], e);
    }
  }

  lemma {:induction false} CountRuns(cs: seq<Component>, k: nat, e: Event)
    requires k <= |cs|
    ensures Times(Runs(cs, k), e) == if e.Ran? && e.i < k && cs[e.i].runnable then 1 else 0
    decreases k
  {
    if k > 0 {
      CountRuns(cs, k - 1, e);
      if cs[k - 1].runnable {
        TimesConcat(Runs(cs, k - 1), [Ran(k - 1)], e);
      } else {
        assert Runs(cs, k) == Runs(cs, k - 1);
      }
    }
  }

  lemma {:induction false} CountCloses(cs: seq<Component>, lo: nat, hi: nat, e: Event)
    requires hi <= |cs|
    ensures Times(Closes(cs, lo, hi), e) == if e.Closed? && lo <= e.i < hi && cs[e.i].runnable then 1 else 0
    decreases hi
  {
    if hi > lo {
      CountCloses(cs, lo, hi - 1, e);
      if cs[hi - 1].runnable {
        TimesConcat([Closed(hi - 1)], Closes(cs, lo, hi - 1), e);
      } else {
        assert Closes(cs, lo, hi) == Closes(cs, lo, hi - 1);
      }
    }
  }

  /** How often each call was made, for any component list, failure point and sequence of Start and Close:
      Init and Run at most once, Run only when every Init succeeded, Close at most once and only after Init,
      and after Close every runnable component whose Init was reached has been closed exactly once. */
  lemma EachCallOnce(cs: seq<Component>, started: bool, closed: bool, i: nat)
    requires i < |cs|
    ensures var calls := Calls(cs, started, closed);
            && Times(calls, Inited(i)) == (if started && i < Reached(cs) then 1 else 0)
            && Times(calls, Ran(i)) <= 1
            && (Times(calls, Ran(i)) == 1 ==> cs[i].runnable && forall j | 0 <= j < |cs| :: !cs[j].initFails && Times(calls, Inited(j)) == 1)
            && Times(calls, Closed(i)) <= Times(calls, Inited(i))
            && (started && closed && cs[i].runnable ==> Times(calls, Closed(i)) == Times(calls, Inited(i)))
            && (Times(calls, Closed(i)) == 1 ==> cs[i].runnable)
  {
    hide Calls, OutcomeOf, Reached, RunReached, SelfClosed;
    CallCounts(cs, started, closed, Inited(i));
    CallCounts(cs, started, closed, Ran(i));
    CallCounts(cs, started, closed, Closed(i));
    forall j | 0 <= j < |cs|
      ensures Times(Calls(cs, started, closed), Inited(j)) == if started && j < Reached(cs) then 1 else 0
    {
      CallCounts(cs, started, closed, Inited(j));
    }
  }

  lemma CallCounts(cs: seq<Component>, started: bool, closed: bool, e: Event)
    requires e.i < |cs|
    ensures Times(Calls(cs, started, closed), e) ==
            if !started then 0
            else match e
                 case Inited(i) => if i < Reached(cs) then 1 else 0
                 case Ran(i) => if i < RunReached(cs) && cs[i].runnable then 1 else 0
                 case Closed(i) => if i < (if closed then Reached(cs) else SelfClosed(cs)) && cs[i].runnable then 1 else 0
  {
    if started {
      hide Inits, Runs, Closes, OutcomeOf, Reached, RunReached, SelfClosed;
      CountInits(Reached(cs), e);
      CountRuns(cs, RunReached(cs), e);
      CountCloses(cs, 0, SelfClosed(cs), e);
      CountCloses(cs, SelfClosed(cs), Reached(cs), e);
      var a, b, c := Inits(Reached(cs)), Runs(cs, RunReached(cs)), Closes(cs, 0, SelfClosed(cs));
      TimesConcat(a, b, e);
      TimesConcat(a + b, c, e);
      TimesConcat(a + b + c, if closed then Closes(cs, SelfClosed(cs), Reached(cs)) else [], e);
    }
  }

  /** Every Init precedes every other call. */
  lemma InitsFirst(cs: seq<Component>, started: bool, closed: bool, a: nat, b: nat)
    requires a < |Calls(cs, started, closed)| && b < |Calls(cs, started, closed)|
    requires Calls(cs, started, closed)[a].Inited? && !Calls(cs, started, closed)[b].Inited?
    ensures a < b
  {
    hide Runs, Closes, OutcomeOf, Reached, RunReached, SelfClosed;
    NoInits(cs);
    CloseHasNoInit(cs, SelfClosed(cs), Reached(cs));
    var n := Reached(cs);
    var rest := Runs(cs, RunReached(cs)) + Closes(cs, 0, SelfClosed(cs)) +
                if closed then Closes(cs, SelfClosed(cs), Reached(cs)) else [];
    var calls := Calls(cs, started, closed);
    assert calls == Inits(n) + rest;
    assert forall e | e in rest :: !e.Inited?;
    forall x | n <= x < |calls|
      ensures !calls[x].Inited?
    {
      assert calls[x] in rest;
    }
  }

  lemma NoInits(cs: seq<Component>)
    ensures forall e | e in Runs(cs, RunReached(cs)) + Closes(cs, 0, SelfClosed(cs)) :: !e.Inited?
  {
    RunHasNoInit(cs, RunReached(cs));
    CloseHasNoInit(cs, 0, SelfClosed(cs));
  }

  lemma {:induction false} RunHasNoInit(cs: seq<Component>, k: nat)
    requires k <= |cs|
    ensures forall e | e in Runs(cs, k) :: !e.Inited?
    decreases k
  {
    if k > 0 {
      RunHasNoInit(cs, k - 1);
    }
  }

  lemma {:induction false} CloseHasNoInit(cs: seq<Component>, lo: nat, hi: nat)
    requires hi <= |cs|
    ensures forall e | e in Closes(cs, lo, hi) :: !e.Inited?
    decreases hi
  {
    if hi > lo {
      CloseHasNoInit(cs, lo, hi - 1);
    }
  }

  // ---- exactly which calls, and in which order ---------------------------------------------------------------

  predicate InitsBelow(cs: seq<Component>, k: nat) {
    forall j | 0 <= j < k && j < |cs| :: !cs[j].initFails
  }

  predicate RunsBelow(cs: seq<Component>, k: nat) {
    forall j | 0 <= j < k && j < |cs| :: !(cs[j].runnable && cs[j].runFails)
  }

  /** Start stops at component k: its Init is the first to fail, or every Init succeeds and its Run is. */
  predicate StopsAt(cs: seq<Component>, k: nat) {
    && k < |cs| && InitsBelow(cs, k)
    && (cs[k].initFails || (InitsBelow(cs, |cs|) && cs[k].runnable && cs[k].runFails && RunsBelow(cs, k)))
  }

  lemma StopsMeans(cs: seq<Component>, k: nat)
    ensures StopsAt(cs, k) <==> OutcomeOf(cs) == InitFailed(k) || OutcomeOf(cs) == RunFailed(k)
    ensures OutcomeOf(cs) == InitFailed(k) ==> k < |cs| && cs[k].initFails
    ensures OutcomeOf(cs).Running? <==> InitsBelow(cs, |cs|) && RunsBelow(cs, |cs|)
  {
  }

  /** Which calls are made: Init up to and including the first that fails, then Run in the same way when every
      Init succeeded, and Close on every runnable component with an Init call, by Start up to the component it
      stops at and by Close for the rest. */
  lemma CallsExactly(cs: seq<Component>, closed: bool, i: nat)
    requires i < |cs|
    ensures var calls := Calls(cs, true, closed);
            && (Inited(i) in calls <==> InitsBelow(cs, i))
            && (Ran(i) in calls <==> cs[i].runnable && InitsBelow(cs, |cs|) && RunsBelow(cs, i))
            && (Closed(i) in calls <==> cs[i].runnable && InitsBelow(cs, i) && (closed || exists k | k >= i :: StopsAt(cs, k)))
  {
    hide Calls, Times;
    CallCounts(cs, true, closed, Inited(i));
    CallCounts(cs, true, closed, Ran(i));
    CallCounts(cs, true, closed, Closed(i));
    InTimes(Calls(cs, true, closed), Inited(i));
    InTimes(Calls(cs, true, closed), Ran(i));
    InTimes(Calls(cs, true, closed), Closed(i));
    ReachedMeans(cs, i);
  }

  lemma ReachedMeans(cs: seq<Component>, i: nat)
    requires i < |cs|
    ensures i < Reached(cs) <==> InitsBelow(cs, i)
    ensures i < RunReached(cs) <==> InitsBelow(cs, |cs|) && RunsBelow(cs, i)
    ensures i < SelfClosed(cs) <==> exists k | k >= i :: StopsAt(cs, k)
    ensures i < SelfClosed(cs) ==> InitsBelow(cs, i)
  {
    hide FirstInitFailure, FirstRunFailure;
    match OutcomeOf(cs)
    case InitFailed(k) => StopsMeans(cs, k);
    case RunFailed(k) => StopsMeans(cs, k);
    case Running =>
    if k: nat :| k >= i && StopsAt(cs, k) {
      StopsMeans(cs, k);
    }
    StopsMeans(cs, 0);
  }

  lemma {:induction false} InTimes(s: seq<Event>, e: Event)
    ensures e in s <==> Times(s, e) > 0
  {
    if s != [] {
      assert s == [s[0]] + s[1..];
      InTimes(s[1..], e);
    }
  }

  /** Call a comes before call b: Init and Run go up the list, Close goes down it. */
  predicate InOrder(a: Event, b: Event) {
    match (a, b)
    case (Inited(i), Inited(j)) => i < j
    case (Ran(i), Ran(j)) => i < j
    case (Closed(i), Closed(j)) => i > j
    case (Inited(_), _) => true
    case (Ran(_), Closed(_)) => true
    case _ => false
  }

  ghost predicate AllInOrder(s: seq<Event>) {
    forall x, y | 0 <= x < y < |s| :: InOrder(s[x], s[y])
  }

  lemma OrderConcat(a: seq<Event>, b: seq<Event>)
    requires AllInOrder(a) && AllInOrder(b) && forall e, f | e in a && f in b :: InOrder(e, f)
    ensures AllInOrder(a + b)
  {
    hide InOrder;
    var s := a + b;
    forall x, y | 0 <= x < y < |s|
      ensures InOrder(s[x], s[y])
    {
      if y < |a| {
        assert InOrder(a[x], a[y]);
      } else if x >= |a| {
        assert InOrder(b[x - |a|], b[y - |a|]);
      } else {
        assert a[x] in a && b[y - |a|] in b;
      }
    }
  }

  lemma {:induction false} RunsOrdered(cs: seq<Component>, k: nat)
    requires k <= |cs|
    ensures AllInOrder(Runs(cs, k)) && forall e | e in Runs(cs, k) :: e.Ran? && e.i < k
    decreases k
  {
    if k > 0 {
      RunsOrdered(cs, k - 1);
      OrderConcat(Runs(cs, k - 1), if cs[k - 1].runnable then [Ran(k - 1)] else []);
    }
  }

  lemma {:induction false} ClosesOrdered(cs: seq<Component>, lo: nat, hi: nat)
    requires hi <= |cs|
    ensures AllInOrder(Closes(cs, lo, hi)) && forall e | e in Closes(cs, lo, hi) :: e.Closed? && lo <= e.i < hi
    decreases hi
  {
    if hi > lo {
      ClosesOrdered(cs, lo, hi - 1);
      OrderConcat(if cs[hi - 1].runnable then [Closed(hi - 1)] else [], Closes(cs, lo, hi - 1));
    }
  }

  /** Within Start: Inits in registration order, then Runs in it, then Closes against it; within Close too. */
  lemma CallOrder(cs: seq<Component>)
    ensures AllInOrder(StartCalls(cs)) && AllInOrder(Closes(cs, SelfClosed(cs), Reached(cs)))
  {
    hide Runs, Closes, OutcomeOf, Reached, RunReached, SelfClosed;
    var a, b, c := Inits(Reached(cs)), Runs(cs, RunReached(cs)), Closes(cs, 0, SelfClosed(cs));
    RunsOrdered(cs, RunReached(cs));
    ClosesOrdered(cs, 0, SelfClosed(cs));
    ClosesOrdered(cs, SelfClosed(cs), Reached(cs));
    OrderConcat(a, b);
    OrderConcat(a + b, c);
  }
}
