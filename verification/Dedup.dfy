/** `commonspace/pubsub/dedup.go`: the duplicate-suppression ring. */
module Dedup {
  import opened Sequences

  type Id = seq<bv8>

  const MsgIdLen := 16

  /** The window after recording id: the oldest of a full window goes. */
  function Push(window: seq<Id>, id: Id, size: nat): seq<Id>
    requires size > 0
  {
    (if |window| == size then window[1..] else window) + [id]
  }

  predicate Fresh(window: seq<Id>, id: Id) {
    |id| == MsgIdLen && id !in window
  }

  /** The ids in a ring, oldest first. */
  function WindowOf(ring: seq<Id>, pos: nat, full: bool): seq<Id>
    requires pos <= |ring|
  {
    if full then ring[pos..] + ring[..pos] else ring[..pos]
  }

  function IdSet(w: seq<Id>): set<Id> {
    set id | id in w
  }

  /** Writing the slot at pos and moving on, wrapping at the end, pushes the id. */
  lemma RingStep(ring: seq<Id>, pos: nat, full: bool, id: Id)
    requires pos < |ring|
    ensures var wraps := pos + 1 == |ring|;
            WindowOf(ring[pos := id], if wraps then 0 else pos + 1, full || wraps) == Push(WindowOf(ring, pos, full), id, |ring|)
    ensures full ==> WindowOf(ring, pos, full) != [] && WindowOf(ring, pos, full)[0] == ring[pos]
    ensures full <==> |WindowOf(ring, pos, full)| == |ring|
  {
  }

  /** The set with the oldest id of a full window removed and the new one added is the set of the new window. */
  lemma PushKeeps(w: seq<Id>, id: Id, size: nat)
    requires size > 0 && Distinct(w) && id !in w
    ensures Distinct(Push(w, id, size))
    ensures IdSet(Push(w, id, size)) == (if |w| == size then IdSet(w) - {w[0]} else IdSet(w)) + {id}
  {
    if |w| == size {
      assert w == [w[0]] + w[1..];
      assert w[0] !in w[1..];
    }
  }

  class MsgIdDedup {
    var known: set<Id>
    var ring: array<Id>
    var pos: nat
    var full: bool

    /** The recorded ids that are still known, oldest first. */
    ghost function Window(): seq<Id>
      requires pos <= ring.Length
      reads this, ring
    {
      WindowOf(ring[..], pos, full)
    }

    ghost predicate Valid()
      reads this, ring
    {
      pos < ring.Length && known == IdSet(Window()) && Distinct(Window())
    }

    constructor (size: nat)
      requires size > 0
      ensures Valid() && fresh(ring) && ring.Length == size && Window() == []
    {
      known := {};
      ring := new Id[size](_ => []);
      pos := 0;
      full := false;
    }

    /** An id of the wrong length is neither known nor recorded. */
    method Seen(id: Id) returns (seen: bool)
      requires Valid()
      modifies this, ring
      ensures Valid() && ring == old(ring)
      ensures seen <==> |id| == MsgIdLen && id in old(Window())
      ensures Window() == if Fresh(old(Window()), id) then Push(old(Window()), id, ring.Length) else old(Window())
    {
      hide WindowOf, Distinct, Push;
      if |id| != MsgIdLen {
        return false;
      }
      if id in known {
        return true;
      }
      RingStep(ring[..], pos, full, id);
      PushKeeps(Window(), id, ring.Length);
      if full {
        known := known - {ring[pos]};
      }
      ring[pos] := id;
      assert ring[..] == old(ring[..])[pos := id];
      known := known + {id};
      pos := pos + 1;
      if pos == ring.Length {
        pos := 0;
        full := true;
      }
      return false;
    }
  }

  // ---- over a whole run of calls -----------------------------------------------------------------------------

  /** The window after the first n ids have been presented. */
  function WindowAfter(ids: seq<Id>, n: nat, size: nat): (w: seq<Id>)
    requires n <= |ids| && size > 0
    ensures |w| <= size
  {
    if n == 0 then []
    else
      var w := WindowAfter(ids, n - 1, size);
      if Fresh(w, ids[n - 1]) then Push(w, ids[n - 1], size) else w
  }

  /** The id presented at position i is recorded, so its message is dispatched. */
  predicate Dispatched(ids: seq<Id>, i: nat, size: nat)
    requires i < |ids| && size > 0
  {
    Fresh(WindowAfter(ids, i, size), ids[i])
  }

  /** How many ids of positions [a, b) are recorded. */
  function Recorded(ids: seq<Id>, a: nat, b: nat, size: nat): nat
    requires a <= b <= |ids| && size > 0
    decreases b
  {
    if a == b then 0 else Recorded(ids, a, b - 1, size) + if Dispatched(ids, b - 1, size) then 1 else 0
  }

  /** A recorded id moves one place towards the old end with each later recording. */
  lemma {:induction false} StaysKnown(ids: seq<Id>, i: nat, n: nat, size: nat)
    requires i < n <= |ids| && size > 0 && Dispatched(ids, i, size)
    requires Recorded(ids, i + 1, n, size) < size
    ensures var w, c := WindowAfter(ids, n, size), Recorded(ids, i + 1, n, size);
            c < |w| && w[|w| - 1 - c] == ids[i]
    decreases n
  {
    if n > i + 1 {
      StaysKnown(ids, i, n - 1, size);
    }
  }

  /** A message id is dispatched a second time only after at least size other recordings. */
  lemma DispatchedOncePerWindow(ids: seq<Id>, i: nat, j: nat, size: nat)
    requires i < j < |ids| && size > 0 && ids[i] == ids[j]
    requires Dispatched(ids, i, size) && Dispatched(ids, j, size)
    ensures Recorded(ids, i + 1, j, size) >= size
  {
    if Recorded(ids, i + 1, j, size) < size {
      StaysKnown(ids, i, j, size);
      assert false;
    }
  }

  /** The id at position j is suppressed exactly when it is among the last size ids recorded before. */
  lemma SuppressedIff(ids: seq<Id>, j: nat, size: nat)
    requires j < |ids| && size > 0 && |ids[j]| == MsgIdLen
    ensures !Dispatched(ids, j, size) <==>
              exists i: nat :: i < j && ids[i] == ids[j] && Dispatched(ids, i, size) && Recorded(ids, i + 1, j, size) < size
  {
    if !Dispatched(ids, j, size) {
      var i := Origin(ids, j, size, ids[j]);
    }
    if i: nat :| i < j && ids[i] == ids[j] && Dispatched(ids, i, size) && Recorded(ids, i + 1, j, size) < size {
      StaysKnown(ids, i, j, size);
      var w := WindowAfter(ids, j, size);
      assert w[|w| - 1 - Recorded(ids, i + 1, j, size)] in w;
    }
  }

  /** Where the k-th newest id of the window was recorded. */
  lemma {:induction false} OriginAt(ids: seq<Id>, n: nat, size: nat, k: nat) returns (i: nat)
    requires n <= |ids| && size > 0 && k < |WindowAfter(ids, n, size)|
    ensures i < n && Dispatched(ids, i, size) && Recorded(ids, i + 1, n, size) == k
    ensures ids[i] == WindowAfter(ids, n, size)[|WindowAfter(ids, n, size)| - 1 - k]
    decreases n
  {
    var w := WindowAfter(ids, n - 1, size);
    if Fresh(w, ids[n - 1]) {
      if k == 0 {
        i := n - 1;
      } else {
        i := OriginAt(ids, n - 1, size, k - 1);
      }
    } else {
      i := OriginAt(ids, n - 1, size, k);
    }
  }

  lemma Origin(ids: seq<Id>, n: nat, size: nat, id: Id) returns (i: nat)
    requires n <= |ids| && size > 0 && id in WindowAfter(ids, n, size)
    ensures i < n && ids[i] == id && Dispatched(ids, i, size) && Recorded(ids, i + 1, n, size) < size
  {
    var w := WindowAfter(ids, n, size);
    var p :| 0 <= p < |w| && w[p] == id;
    i := OriginAt(ids, n, size, |w| - 1 - p);
  }
}
