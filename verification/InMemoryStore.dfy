/** The in-memory checkpoint repository
    (infrastructure/storage/checkpoint/in_memory.py). */
module InMemoryStore {
  import opened Wrappers
  import opened Checkpoints

  class InMemoryCheckpointRepository {
    var store: map<string, Checkpoint>
    var executionIndex: map<string, set<string>>
    ghost var saves: seq<Checkpoint>  // every snapshot saved so far

    // The two dictionaries hold what the saves left in them.
    ghost predicate Valid()
      reads this
    {
      View() == AllSaved(saves)
    }

    ghost function View(): Repo
      reads this
    {
      Repo(store, executionIndex)
    }

    constructor ()
      ensures Valid() && saves == [] && View() == EMPTY
    {
      store, executionIndex, saves := map[], map[], [];
    }

    method Save(cp: Checkpoint)
      requires Valid()
      modifies this
      ensures Valid() && saves == old(saves) + [cp] && View() == old(View()).Saved(cp)
    {
      store := store[cp.checkpointId := cp];
      var ids := if cp.executionId in executionIndex then executionIndex[cp.executionId] else {};
      executionIndex := executionIndex[cp.executionId := ids + {cp.checkpointId}];
      saves := saves + [cp];
      assert saves[..|saves| - 1] == old(saves);
    }

    /** None exactly when nothing was ever saved under the id, else the snapshot
        saved last under it. */
    method Get(id: string) returns (cp: Option<Checkpoint>)
      requires Valid()
      ensures cp.None? <==> !EverSaved(saves, id)
      ensures cp.Some? ==> IsLastSaved(saves, id, cp.value)
      ensures cp == Lookup(View().store, id)
    {
      StoredIsLastSaved(saves, id);
      cp := Lookup(store, id);
    }

    // The snapshots of a set of ids, met in any order.
    method Collect(ids: set<string>) returns (found: seq<Checkpoint>)
      requires View().Valid() && ids <= store.Keys
      ensures forall i, j | 0 <= i < j < |found| :: found[i].checkpointId != found[j].checkpointId
      ensures forall c :: c in found <==> c.checkpointId in ids && store[c.checkpointId] == c
    {
      found := [];
      var rest := ids;
      while rest != {}
        invariant rest <= ids
        invariant forall i, j | 0 <= i < j < |found| :: found[i].checkpointId != found[j].checkpointId
        invariant forall c :: c in found <==> c.checkpointId in ids - rest && store[c.checkpointId] == c
        decreases rest
      {
        var id :| id in rest;
        ghost var before := found;
        found := found + [store[id]];
        assert forall i | 0 <= i < |before| :: before[i] in before;
        rest := rest - {id};
        assert ids - rest == (ids - (rest + {id})) + {id};
      }
    }

    method ListByExecution(execution: string) returns (cs: seq<Checkpoint>)
      requires Valid()
      ensures IsListing(View(), execution, cs)
    {
      AllSavedIsValid(saves);
      var ids := if execution in executionIndex then executionIndex[execution] else {};
      var found := Collect(ids);
      SortSorts(found);
      cs := Sort(found);
    }

    // The highest version, among equals whichever the set yields first.
    method GetLatest(execution: string) returns (latest: Option<Checkpoint>)
      requires Valid()
      ensures latest.None? <==> View().Ids(execution) == {}
      ensures latest.Some? ==> IsLatest(View(), execution, latest.value)
    {
      AllSavedIsValid(saves);
      var ids := if execution in executionIndex then executionIndex[execution] else {};
      if ids == {} {
        return None;
      }
      var first :| first in ids;
      var best, rest := store[first], ids - {first};
      while rest != {}
        invariant rest <= ids && best.checkpointId in ids && store[best.checkpointId] == best
        invariant forall id | id in ids - rest :: store[id].version <= best.version
        decreases rest
      {
        var id :| id in rest;
        if store[id].version > best.version {
          best := store[id];
        }
        rest := rest - {id};
      }
      return Some(best);
    }
  }
}
