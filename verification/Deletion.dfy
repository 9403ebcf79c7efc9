/** `commonspace/deletionstate/deletionstate.go`: which objects are queued for deletion or deleted. */
module Deletion {
  import opened Sequences

  type Id = string

  datatype DeletedStatus = NotDeleted | Queued | Deleted

  /** A live child of a deleted parent that could be queued. */
  predicate Orphan(id: Id, stored: map<Id, DeletedStatus>, parent: map<Id, Id>, deleted: set<Id>, storeFails: set<Id>) {
    id in stored && stored[id] == NotDeleted && id in parent && parent[id] in deleted && id !in storeFails
  }

  class DeletionState {
    var queued: set<Id>
    var deleted: set<Id>

    ghost predicate Valid()
      reads this
    {
      queued !! deleted
    }

    function Known(): set<Id>
      reads this
    {
      queued + deleted
    }

    constructor ()
      ensures Valid() && queued == {} && deleted == {}
    {
      queued, deleted := {}, {};
    }

    /** Run: the stored statuses, then the live children of deleted parents are queued, except those
        that cannot be listed or whose status cannot be stored. */
    method Run(stored: map<Id, DeletedStatus>, parent: map<Id, Id>, storeFails: set<Id>)
      requires queued == {} && deleted == {}
      modifies this
      ensures Valid()
      ensures forall id :: id in deleted <==> id in stored && stored[id] == Deleted
      ensures forall id :: id in queued <==> id in stored && (stored[id] == Queued || Orphan(id, stored, parent, deleted, storeFails))
    {
      Load(stored);
      label Loaded:
      var parents := deleted;
      while parents != {}
        invariant parents <= deleted && deleted == old@Loaded(deleted)
        invariant forall id :: id in queued <==>
                    id in stored && (stored[id] == Queued || (Orphan(id, stored, parent, deleted, storeFails) && parent[id] !in parents))
        decreases |parents|
      {
        var p :| p in parents;
        parents := parents - {p};
        var children := set id | id in stored && id in parent && parent[id] == p && stored[id] == NotDeleted && id !in storeFails;
        queued := queued + children;
      }
    }

    /** The first loop of Run. */
    method Load(stored: map<Id, DeletedStatus>)
      requires queued == {} && deleted == {}
      modifies this
      ensures forall id :: id in deleted <==> id in stored && stored[id] == Deleted
      ensures forall id :: id in queued <==> id in stored && stored[id] == Queued
    {
      var todo := stored.Keys;
      while todo != {}
        invariant todo <= stored.Keys
        invariant forall id :: id in deleted <==> id in stored && id !in todo && stored[id] == Deleted
        invariant forall id :: id in queued <==> id in stored && id !in todo && stored[id] == Queued
        decreases |todo|
      {
        var id :| id in todo;
        todo := todo - {id};
        match stored[id]
        case Queued => queued := queued + {id};
        case Deleted => deleted := deleted + {id};
        case NotDeleted =>
      }
    }

    /** Add queues what is neither queued nor deleted yet and could be stored, and reports exactly that, once. */
    method Add(ids: set<Id>, storeFails: set<Id>) returns (added: seq<Id>)
      requires Valid()
      modifies this`queued
      ensures Valid()
      ensures forall id :: id in queued <==> id in old(queued) || (id in ids && id !in old(Known()) && id !in storeFails)
      ensures forall id :: id in added <==> id in ids && id !in old(Known()) && id !in storeFails
      ensures Distinct(added)
    {
      added := [];
      var todo := ids;
      ghost var before := Known();
      while todo != {}
        invariant todo <= ids && Valid()
        invariant forall id :: id in queued <==> id in old(queued) || (id in ids && id !in todo && id !in before && id !in storeFails)
        invariant forall id :: id in added <==> id in ids && id !in todo && id !in before && id !in storeFails
        invariant Distinct(added)
        decreases |todo|
      {
        var id :| id in todo;
        todo := todo - {id};
        if id in deleted || id in queued || id in storeFails {
          continue;
        }
        queued := queued + {id};
        added := added + [id];
      }
    }

    /** Delete moves an id to the deleted ones, also when it returns the error of storing the status. */
    method Delete(id: Id, storeFails: set<Id>) returns (ok: bool)
      requires Valid()
      modifies this
      ensures Valid() && deleted == old(deleted) + {id} && queued == old(queued) - {id}
      ensures Known() == old(Known()) + {id}
      ensures ok <==> id !in storeFails
    {
      queued := queued - {id};
      deleted := deleted + {id};
      ok := id !in storeFails;
    }

    method Exists(id: Id) returns (r: bool)
      ensures r <==> id in Known()
    {
      r := id in deleted || id in queued;
    }

    /** Filter keeps the ids that are not known, in their order. */
    method Filter(ids: seq<Id>) returns (filtered: seq<Id>)
      ensures filtered == Unknown(ids, Known())
    {
      filtered := [];
      for i := 0 to |ids|
        invariant filtered == Unknown(ids[..i], Known())
      {
        assert ids[..i + 1][..i] == ids[..i];
        var known := Exists(ids[i]);
        if !known {
          filtered := filtered + [ids[i]];
        }
      }
      assert ids[..|ids|] == ids;
    }
  }

  function Unknown(ids: seq<Id>, known: set<Id>): seq<Id> {
    if ids == [] then []
    else Unknown(ids[..|ids| - 1], known) + if ids[|ids| - 1] in known then [] else [ids[|ids| - 1]]
  }

  /** An id passes the filter exactly when it is neither queued nor deleted, as often as it came. */
  lemma {:induction false} UnknownMeaning(ids: seq<Id>, known: set<Id>, id: Id)
    ensures multiset(Unknown(ids, known))[id] == if id in known then 0 else multiset(ids)[id]
  {
    if ids != [] {
      var n := |ids| - 1;
      UnknownMeaning(ids[..n], known, id);
      assert ids == ids[..n] + [ids[n]];
    }
  }
}
