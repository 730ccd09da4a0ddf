/** Checkpoints, their listing order, and a checkpoint repository on values
    (core/domain/checkpoint.py and the contract both repositories implement). */
module Checkpoints {
  import opened Wrappers

  datatype Json =
    | JNull | JString(text: string) | JNumber(n: int) | JArray(items: seq<Json>) | JObject(fields: map<string, Json>)

  datatype Trigger =
    | STEP_COMPLETE | BEFORE_TOOL_CALL | AFTER_TOOL_CALL | ERROR_RECOVERY | PAUSE_REQUEST | BEFORE_IRREVERSIBLE

  // The ISO text of a moment is never empty.
  type IsoText = s: string | s != "" witness "0"

  datatype Checkpoint = Checkpoint(
    checkpointId: string, executionId: string, version: int, triggerReason: Trigger,
    checkpointHash: string, schemaVersion: string, parentId: Option<string>, agentStateRef: Option<string>,
    memoryRefs: seq<string>, toolHistory: seq<map<string, Json>>, createdAt: Option<IsoText>)
  {
    predicate IsValid() {
      checkpointId != "" && executionId != "" && checkpointHash != "" && version >= 0
    }
  }

  /* ----- The listing order: by version, then by id ----- */

  predicate TextBefore(a: string, b: string) {
    if a == "" || b == "" then a == "" && b != ""
    else a[0] < b[0] || (a[0] == b[0] && TextBefore(a[1..], b[1..]))
  }

  lemma {:induction false} TextOrderIsTotal(a: string, b: string)
    ensures (if TextBefore(a, b) then 1 else 0) + (if TextBefore(b, a) then 1 else 0) + (if a == b then 1 else 0) == 1
  {
    if a != "" && b != "" {
      TextOrderIsTotal(a[1..], b[1..]);
      assert a == [a[0]] + a[1..] && b == [b[0]] + b[1..];
    }
  }

  lemma {:induction false} TextOrderIsTransitive(a: string, b: string, c: string)
    requires TextBefore(a, b) && TextBefore(b, c)
    ensures TextBefore(a, c)
  {
    if a != "" && b != "" && c != "" && a[0] == b[0] == c[0] {
      TextOrderIsTransitive(a[1..], b[1..], c[1..]);
    }
  }

  /** It is the lexicographic order: at the first place where the texts differ, the
      smaller character or the end of the text comes first. */
  lemma {:induction false} TextOrderIsLexicographic(a: string, b: string)
    ensures TextBefore(a, b)
       <==> exists k :: 0 <= k <= |a| && k < |b| && a[..k] == b[..k] && (k == |a| || a[k] < b[k])
  {
    if a == "" || b == "" {
      assert a[..0] == b[..0];
    } else {
      TextOrderIsLexicographic(a[1..], b[1..]);
      assert a == [a[0]] + a[1..] && b == [b[0]] + b[1..];
      if TextBefore(a, b) {
        if a[0] < b[0] {
          assert a[..0] == b[..0];
        } else {
          var k :| 0 <= k <= |a[1..]| && k < |b[1..]| && a[1..][..k] == b[1..][..k]
            && (k == |a[1..]| || a[1..][k] < b[1..][k]);
          assert a[..k + 1] == [a[0]] + a[1..][..k] && b[..k + 1] == [b[0]] + b[1..][..k];
        }
      }
      if k :| 0 <= k <= |a| && k < |b| && a[..k] == b[..k] && (k == |a| || a[k] < b[k]) {
        if k > 0 {
          assert a[0] == a[..k][0] == b[..k][0] == b[0];
          assert a[1..][..k - 1] == a[..k][1..] && b[1..][..k - 1] == b[..k][1..];
        }
      }
    }
  }

  predicate Before(x: Checkpoint, y: Checkpoint) {
    x.version < y.version || (x.version == y.version && TextBefore(x.checkpointId, y.checkpointId))
  }

  lemma BeforeIsTransitive(x: Checkpoint, y: Checkpoint, z: Checkpoint)
    requires Before(x, y) && Before(y, z)
    ensures Before(x, z)
  {
    if x.version == y.version == z.version {
      TextOrderIsTransitive(x.checkpointId, y.checkpointId, z.checkpointId);
    }
  }

  ghost predicate Sorted(cs: seq<Checkpoint>) {
    forall i, j | 0 <= i < j < |cs| :: Before(cs[i], cs[j])
  }

  // list.sort by the pair (version, id).
  function Insert(cs: seq<Checkpoint>, c: Checkpoint): seq<Checkpoint> {
    if cs == [] then [c]
    else if Before(c, cs[0]) then [c] + cs
    else [cs[0]] + Insert(cs[1..], c)
  }

  function Sort(cs: seq<Checkpoint>): seq<Checkpoint> {
    if cs == [] then [] else Insert(Sort(cs[..|cs| - 1]), cs[|cs| - 1])
  }

  lemma {:induction false} InsertMembers(cs: seq<Checkpoint>, c: Checkpoint)
    ensures forall x :: x in Insert(cs, c) <==> x in cs || x == c
  {
    if cs != [] && !Before(c, cs[0]) {
      InsertMembers(cs[1..], c);
      assert cs == [cs[0]] + cs[1..];
    }
  }

  lemma {:induction false} InsertSorts(cs: seq<Checkpoint>, c: Checkpoint)
    requires Sorted(cs) && forall x | x in cs :: x.checkpointId != c.checkpointId
    ensures Sorted(Insert(cs, c))
  {
    if cs != [] {
      TextOrderIsTotal(c.checkpointId, cs[0].checkpointId);
      if Before(c, cs[0]) {
        forall j | 1 <= j < |cs| ensures Before(c, cs[j]) {
          BeforeIsTransitive(c, cs[0], cs[j]);
        }
      } else {
        InsertSorts(cs[1..], c);
        InsertMembers(cs[1..], c);
        var rest := Insert(cs[1..], c);
        forall j | 0 <= j < |rest| ensures Before(cs[0], rest[j]) {
          assert rest[j] in rest;
          if rest[j] != c {
            var k :| 0 <= k < |cs[1..]| && cs[1..][k] == rest[j];
            assert cs[k + 1] == rest[j];
          }
        }
      }
    }
  }

  lemma {:induction false} SortSorts(cs: seq<Checkpoint>)
    requires forall i, j | 0 <= i < j < |cs| :: cs[i].checkpointId != cs[j].checkpointId
    ensures Sorted(Sort(cs)) && forall x :: x in Sort(cs) <==> x in cs
  {
    if cs != [] {
      var n := |cs| - 1;
      SortSorts(cs[..n]);
      assert cs == cs[..n] + [cs[n]];
      forall x | x in Sort(cs[..n]) ensures x.checkpointId != cs[n].checkpointId {
        var i :| 0 <= i < n && cs[..n][i] == x;
      }
      InsertSorts(Sort(cs[..n]), cs[n]);
      InsertMembers(Sort(cs[..n]), cs[n]);
    }
  }

  // Two sorted lists with the same members are the same list.
  lemma {:induction false} SortedListsAgree(a: seq<Checkpoint>, b: seq<Checkpoint>)
    requires Sorted(a) && Sorted(b) && forall x :: x in a <==> x in b
    ensures a == b
  {
    if |a| > 0 {
      assert a[0] in b;
    }
    if |b| > 0 {
      assert b[0] in a;
      HeadsAgree(a, b);
      TailMembers(a);
      TailMembers(b);
      SortedListsAgree(a[1..], b[1..]);
      assert a == [a[0]] + a[1..] && b == [b[0]] + b[1..];
    }
  }

  lemma HeadsAgree(a: seq<Checkpoint>, b: seq<Checkpoint>)
    requires Sorted(a) && Sorted(b) && a != [] && b != [] && forall x :: x in a <==> x in b
    ensures a[0] == b[0]
  {
    assert a[0] in b && b[0] in a;
    TextOrderIsTotal(a[0].checkpointId, b[0].checkpointId);
  }

  lemma TailMembers(a: seq<Checkpoint>)
    requires Sorted(a) && a != []
    ensures Sorted(a[1..]) && forall x :: x in a[1..] <==> x in a && x != a[0]
  {
    TextOrderIsTotal(a[0].checkpointId, a[0].checkpointId);
    assert a == [a[0]] + a[1..];
    forall i | 0 <= i < |a| - 1 ensures a[1..][i] != a[0] {
      assert Before(a[0], a[i + 1]);
    }
  }

  /* ----- A repository: snapshots by id, ids by execution ----- */

  datatype Repo = Repo(store: map<string, Checkpoint>, index: map<string, set<string>>)
  {
    function Ids(execution: string): set<string> {
      if execution in index then index[execution] else {}
    }

    function Saved(cp: Checkpoint): Repo {
      Repo(store[cp.checkpointId := cp], index[cp.executionId := Ids(cp.executionId) + {cp.checkpointId}])
    }

    // Snapshots sit under their own id, and indexed ids have one.
    ghost predicate Valid() {
      && (forall id | id in store :: store[id].checkpointId == id)
      && (forall e | e in index :: index[e] <= store.Keys)
    }
  }

  // The listing of an execution: the snapshots of its ids, in order.
  ghost predicate IsListing(repo: Repo, execution: string, cs: seq<Checkpoint>) {
    && Sorted(cs)
    && forall c :: c in cs <==>
         c.checkpointId in repo.Ids(execution) && c.checkpointId in repo.store && repo.store[c.checkpointId] == c
  }

  // A latest checkpoint: one of the highest version.
  ghost predicate IsLatest(repo: Repo, execution: string, c: Checkpoint) {
    && c.checkpointId in repo.Ids(execution) && c.checkpointId in repo.store && repo.store[c.checkpointId] == c
    && forall id | id in repo.Ids(execution) && id in repo.store :: repo.store[id].version <= c.version
  }

  /** The listing is determined by what is stored, not by the order it is read in. */
  lemma ListingIsUnique(repo: Repo, execution: string, a: seq<Checkpoint>, b: seq<Checkpoint>)
    requires IsListing(repo, execution, a) && IsListing(repo, execution, b)
    ensures a == b
  {
    forall x ensures x in a <==> x in b {
    }
    SortedListsAgree(a, b);
  }

  /** A latest checkpoint has the version of the last one listed. */
  lemma LatestIsLastListed(repo: Repo, execution: string, cs: seq<Checkpoint>, c: Checkpoint)
    requires IsListing(repo, execution, cs) && IsLatest(repo, execution, c)
    ensures cs != [] && c in cs && c.version == cs[|cs| - 1].version
  {
    assert c in cs;
    var i :| 0 <= i < |cs| && cs[i] == c;
    var last := cs[|cs| - 1];
    assert last in cs;
    assert i < |cs| - 1 ==> Before(cs[i], last);
  }

  /* ----- A repository after a list of saves ----- */

  const EMPTY := Repo(map[], map[])

  function AllSaved(saves: seq<Checkpoint>): Repo {
    if saves == [] then EMPTY else AllSaved(saves[..|saves| - 1]).Saved(saves[|saves| - 1])
  }

  // The snapshot was saved under that id, and nothing was since.
  ghost predicate IsLastSaved(saves: seq<Checkpoint>, id: string, cp: Checkpoint) {
    exists i :: 0 <= i < |saves| && saves[i] == cp && cp.checkpointId == id
      && forall j | i < j < |saves| :: saves[j].checkpointId != id
  }

  ghost predicate EverSaved(saves: seq<Checkpoint>, id: string) {
    exists i :: 0 <= i < |saves| && saves[i].checkpointId == id
  }

  lemma OneMoreSave(saves: seq<Checkpoint>, cp: Checkpoint, id: string)
    ensures EverSaved(saves + [cp], id) <==> EverSaved(saves, id) || cp.checkpointId == id
    ensures cp.checkpointId == id ==> IsLastSaved(saves + [cp], id, cp)
  {
    var longer := saves + [cp];
    assert longer[|saves|] == cp;
    if i :| 0 <= i < |saves| && saves[i].checkpointId == id {
      assert longer[i] == saves[i];
    }
  }

  lemma StillLastSaved(saves: seq<Checkpoint>, cp: Checkpoint, id: string, last: Checkpoint)
    requires IsLastSaved(saves, id, last) && cp.checkpointId != id
    ensures IsLastSaved(saves + [cp], id, last)
  {
    var longer := saves + [cp];
    var i :| 0 <= i < |saves| && saves[i] == last && last.checkpointId == id
      && forall j | i < j < |saves| :: saves[j].checkpointId != id;
    assert longer[i] == last;
  }

  /** What is stored under an id is the last snapshot saved under it, and nothing
      is when none was. */
  lemma {:induction false} StoredIsLastSaved(saves: seq<Checkpoint>, id: string)
    ensures var store := AllSaved(saves).store;
            && (id in store <==> EverSaved(saves, id))
            && (id in store ==> IsLastSaved(saves, id, store[id]))
  {
    if saves != [] {
      var n := |saves| - 1;
      var before, cp := saves[..n], saves[n];
      assert saves == before + [cp];
      StoredIsLastSaved(before, id);
      OneMoreSave(before, cp, id);
      if cp.checkpointId != id && id in AllSaved(before).store {
        StillLastSaved(before, cp, id, AllSaved(before).store[id]);
      }
    }
  }

  lemma {:induction false} AllSavedIsValid(saves: seq<Checkpoint>)
    ensures AllSaved(saves).Valid()
  {
    if saves != [] {
      AllSavedIsValid(saves[..|saves| - 1]);
    }
  }

  /** The ids of an execution are those saved under it. */
  lemma {:induction false} IdsAreSaved(saves: seq<Checkpoint>, e: string, id: string)
    ensures id in AllSaved(saves).Ids(e)
       <==> exists i :: 0 <= i < |saves| && saves[i].executionId == e && saves[i].checkpointId == id
  {
    if saves != [] {
      var n := |saves| - 1;
      var before, cp := saves[..n], saves[n];
      IdsAreSaved(before, e, id);
      assert AllSaved(saves).Ids(e)
          == AllSaved(before).Ids(e) + (if cp.executionId == e then {cp.checkpointId} else {});
      if i :| 0 <= i < |saves| && saves[i].executionId == e && saves[i].checkpointId == id {
        assert i < n ==> before[i] == saves[i];
      }
      if i :| 0 <= i < n && before[i].executionId == e && before[i].checkpointId == id {
        assert saves[i] == before[i];
      }
    }
  }

  /** A sorted list goes by version, and among equal versions by id. */
  lemma SortedMeans(cs: seq<Checkpoint>, i: nat, j: nat)
    requires Sorted(cs) && i < j < |cs|
    ensures cs[i].version <= cs[j].version
    ensures cs[i].version == cs[j].version ==> TextBefore(cs[i].checkpointId, cs[j].checkpointId)
  {
    assert Before(cs[i], cs[j]);
  }
}
