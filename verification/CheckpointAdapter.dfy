/** The persistence adapter that turns saved states into checkpoints
    (control_plane/adapters/to_kernel/checkpoint.py), over either repository. */
module CheckpointAdapter {
  import opened Wrappers
  import opened Checkpoints
  import opened CheckpointJson
  import opened CheckpointRepository

  // How a state becomes text and text a state; text need not be a state.
  datatype Codec = Codec(dump: Dict -> string, parse: string -> Option<Dict>)
  {
    ghost predicate RoundTrips() {
      forall state: Dict :: parse(dump(state)) == Some(state)
    }
  }

  // One call of save: `id` is the fresh checkpoint id, `hash` the digest of the state.
  datatype Request = Request(executionId: string, state: Dict, id: string, hash: string, now: IsoText)

  datatype Adapter = Adapter(versions: map<string, int>, repo: Repo)
  {
    function Version(execution: string): int {
      if execution in versions then versions[execution] else 0
    }
  }

  function MakeCheckpoint(c: Codec, r: Request, version: int): Checkpoint {
    Checkpoint(r.id, r.executionId, version, STEP_COMPLETE, r.hash, "1.0", None, Some(c.dump(r.state)), [], [],
               Some(r.now))
  }

  // The version is taken before the checkpoint is validated.
  function Step(c: Codec, a: Adapter, r: Request): Adapter {
    var cp := MakeCheckpoint(c, r, a.Version(r.executionId) + 1);
    Adapter(a.versions[r.executionId := cp.version], if cp.IsValid() then a.repo.Saved(cp) else a.repo)
  }

  function Run(c: Codec, a: Adapter, rs: seq<Request>): Adapter {
    if rs == [] then a else Step(c, Run(c, a, rs[..|rs| - 1]), rs[|rs| - 1])
  }

  // Ids as generated: never empty, never twice, never one already stored.
  ghost predicate FreshIds(repo: Repo, rs: seq<Request>) {
    && (forall i | 0 <= i < |rs| :: rs[i].id != "" && rs[i].hash != "" && rs[i].id !in repo.store)
    && (forall i, j | 0 <= i < j < |rs| :: rs[i].id != rs[j].id)
  }

  // How many of the requests are for an execution, and the state of the last one.
  function CountFor(rs: seq<Request>, e: string): nat {
    if rs == [] then 0 else CountFor(rs[..|rs| - 1], e) + (if rs[|rs| - 1].executionId == e then 1 else 0)
  }

  function LastState(rs: seq<Request>, e: string): (state: Dict)
    requires CountFor(rs, e) > 0
  {
    if rs[|rs| - 1].executionId == e then rs[|rs| - 1].state else LastState(rs[..|rs| - 1], e)
  }

  /* ----- Numbering ----- */

  // No stored version of the execution exceeds the adapter's counter.
  ghost predicate Covers(a: Adapter, e: string) {
    forall id | id in a.repo.Ids(e) && id in a.repo.store :: a.repo.store[id].version <= a.Version(e)
  }

  // Every latest checkpoint is the given one.
  ghost predicate OnlyLatest(repo: Repo, e: string, id: string) {
    forall latest | IsLatest(repo, e, latest) :: latest.checkpointId == id
  }

  lemma {:induction false} HighestExists(repo: Repo, ids: set<string>) returns (top: string)
    requires ids != {} && ids <= repo.store.Keys
    ensures top in ids && forall id | id in ids :: repo.store[id].version <= repo.store[top].version
    decreases |ids|
  {
    var first :| first in ids;
    top := first;
    if ids != {first} {
      var rest := ids - {first};
      assert ids == rest + {first};
      var other := HighestExists(repo, rest);
      if repo.store[first].version < repo.store[other].version {
        top := other;
      }
    }
  }

  /** A save becomes the one latest checkpoint of its execution exactly when no
      stored version exceeds the counter. A counter that restarted at zero over a
      repository that is not empty does not satisfy this. */
  lemma SavedIsLatestIffCovered(c: Codec, a: Adapter, r: Request)
    requires a.repo.Valid() && r.id !in a.repo.store
    requires MakeCheckpoint(c, r, a.Version(r.executionId) + 1).IsValid()
    ensures OnlyLatest(Step(c, a, r).repo, r.executionId, r.id) <==> Covers(a, r.executionId)
    ensures Covers(a, r.executionId) ==> Covers(Step(c, a, r), r.executionId)
  {
    var e, repo := r.executionId, Step(c, a, r).repo;
    var cp := MakeCheckpoint(c, r, a.Version(e) + 1);
    assert repo == a.repo.Saved(cp) && repo.Ids(e) == a.repo.Ids(e) + {r.id} && repo.store[r.id] == cp;
    assert forall id | id in a.repo.Ids(e) :: id in a.repo.store && repo.store[id] == a.repo.store[id];
    if !Covers(a, e) {
      var high :| high in a.repo.Ids(e) && high in a.repo.store && a.repo.store[high].version > a.Version(e);
      var top := HighestExists(a.repo, a.repo.Ids(e));
      assert IsLatest(repo, e, repo.store[top]) && top != r.id;
    }
  }

  /** So an adapter started anew over a repository that already holds snapshots of
      an execution hides its next save behind them, or leaves a tie. */
  lemma RestartHidesSave(c: Codec, repo: Repo, r: Request, earlier: string)
    requires repo.Valid() && r.id !in repo.store && MakeCheckpoint(c, r, 1).IsValid()
    requires earlier in repo.Ids(r.executionId) && repo.store[earlier].version >= 1
    ensures !OnlyLatest(Step(c, Adapter(map[], repo), r).repo, r.executionId, r.id)
  {
    SavedIsLatestIffCovered(c, Adapter(map[], repo), r);
  }

  // What holds of one execution: `base` is the counter at the start.
  ghost predicate Numbered(c: Codec, a: Adapter, base: int, rs: seq<Request>, e: string) {
    && a.Version(e) == base + CountFor(rs, e)
    && (forall id | id in a.repo.Ids(e) ::
          id in a.repo.store && a.repo.store[id].checkpointId == id && a.repo.store[id].version <= a.Version(e))
    && (CountFor(rs, e) > 0 ==>
          && (forall id | id in a.repo.Ids(e) && a.repo.store[id].version == a.Version(e) ::
                a.repo.store[id].agentStateRef == Some(c.dump(LastState(rs, e))))
          && (exists id :: id in a.repo.Ids(e) && id in a.repo.store && a.repo.store[id].version == a.Version(e)))
  }

  // Only ids of the repository at the start and of the requests are stored.
  lemma {:induction false} StoredIds(c: Codec, a: Adapter, rs: seq<Request>)
    ensures forall id | id in Run(c, a, rs).repo.store ::
              id in a.repo.store || exists i :: 0 <= i < |rs| && rs[i].id == id
  {
    if rs != [] {
      var n := |rs| - 1;
      StoredIds(c, a, rs[..n]);
      forall id | id in Run(c, a, rs).repo.store && id !in a.repo.store
        ensures exists i :: 0 <= i < |rs| && rs[i].id == id
      {
        if id in Run(c, a, rs[..n]).repo.store {
          var i :| 0 <= i < n && rs[..n][i].id == id;
          assert rs[i].id == id;
        } else {
          assert rs[n].id == id;
        }
      }
    }
  }

  /** Through one adapter whose counter covers an execution, its saves are numbered
      on from the counter without gap, and the highest number carries the newest
      state. A fresh execution is covered, and numbered from one. */
  lemma {:induction false} RunIsNumbered(c: Codec, a: Adapter, rs: seq<Request>, e: string)
    requires a.repo.Valid() && FreshIds(a.repo, rs) && e != "" && a.Version(e) >= 0 && Covers(a, e)
    ensures Numbered(c, Run(c, a, rs), a.Version(e), rs, e)
  {
    if rs != [] {
      var n := |rs| - 1;
      var r, earlier := rs[n], Run(c, a, rs[..n]);
      RunIsNumbered(c, a, rs[..n], e);
      StoredIds(c, a, rs[..n]);
      assert forall i | 0 <= i < n :: rs[..n][i].id == rs[i].id != r.id;
      StepIsNumbered(c, earlier, a.Version(e), rs[..n], r, e);
      assert rs == rs[..n] + [r];
    }
  }

  lemma StepIsNumbered(c: Codec, a: Adapter, base: int, rs: seq<Request>, r: Request, e: string)
    requires Numbered(c, a, base, rs, e) && base >= 0 && e != ""
    requires r.id != "" && r.hash != "" && r.id !in a.repo.store
    ensures Numbered(c, Step(c, a, r), base, rs + [r], e)
  {
    assert (rs + [r])[..|rs|] == rs;
    var a' := Step(c, a, r);
    if r.executionId == e {
      var cp := MakeCheckpoint(c, r, a.Version(e) + 1);
      assert a'.repo == a.repo.Saved(cp);
      assert a'.repo.Ids(e) == a.repo.Ids(e) + {r.id};
      assert a'.repo.store[r.id] == cp;
    } else {
      assert a'.repo.Ids(e) == a.repo.Ids(e);
      forall id | id in a.repo.Ids(e) ensures a'.repo.store[id] == a.repo.store[id] {
      }
    }
  }

  /** So every latest checkpoint of an execution is then its newest state, and its
      version counts the saves. */
  lemma LatestIsNewest(c: Codec, a: Adapter, rs: seq<Request>, e: string, latest: Checkpoint)
    requires a.repo.Valid() && FreshIds(a.repo, rs) && e != "" && a.Version(e) >= 0 && Covers(a, e)
    requires CountFor(rs, e) > 0 && IsLatest(Run(c, a, rs).repo, e, latest)
    ensures latest.version == a.Version(e) + CountFor(rs, e)
    ensures latest.agentStateRef == Some(c.dump(LastState(rs, e)))
  {
    RunIsNumbered(c, a, rs, e);
    var repo := Run(c, a, rs).repo;
    assert latest.checkpointId in repo.Ids(e);
  }

  /* ----- Round trip ----- */

  function Restored(c: Codec, repo: Repo, id: string): Option<Dict> {
    if id in repo.store && repo.store[id].agentStateRef.Some? then c.parse(repo.store[id].agentStateRef.value) else None
  }

  /** Each state saved for a named execution can be restored later, unchanged by
      any other save. */
  lemma {:induction false} SavedStatesRestore(c: Codec, a: Adapter, rs: seq<Request>, i: nat)
    requires c.RoundTrips() && FreshIds(a.repo, rs) && i < |rs| && rs[i].executionId != ""
    requires a.Version(rs[i].executionId) >= 0
    ensures Restored(c, Run(c, a, rs).repo, rs[i].id) == Some(rs[i].state)
  {
    var n := |rs| - 1;
    if i < n {
      SavedStatesRestore(c, a, rs[..n], i);
      assert rs[..n][i] == rs[i] && rs[i].id != rs[n].id;
    } else {
      VersionsGrow(c, a, rs[..n], rs[n].executionId);
    }
  }

  lemma {:induction false} VersionsGrow(c: Codec, a: Adapter, rs: seq<Request>, e: string)
    ensures Run(c, a, rs).Version(e) == a.Version(e) + CountFor(rs, e)
  {
    if rs != [] {
      VersionsGrow(c, a, rs[..|rs| - 1], e);
    }
  }

  /* ----- The adapter object ----- */

  // The reasons a CheckpointPersistenceError gives.
  datatype PersistenceError =
    | Invalid | Missing(id: string) | NoState(id: string) | Corrupted(id: string) | Storage(e: LoadError)

  class CheckpointPersistenceAdapter {
    const repo: Repository
    const codec: Codec
    var versionCounter: map<string, int>

    constructor (repo: Repository, codec: Codec)
      ensures this.repo == repo && this.codec == codec && versionCounter == map[]
    {
      this.repo, this.codec, versionCounter := repo, codec, map[];
    }

    ghost function View(): Adapter
      requires repo.Sane()
      reads this, repo.Objects()
    {
      Adapter(versionCounter, repo.View())
    }

    function Version(execution: string): int
      reads this
    {
      if execution in versionCounter then versionCounter[execution] else 0
    }

    /** The counter moves on whether or not the checkpoint is valid; a valid one
        reads back at once, and in a sane repository it is all that changed. */
    method Save(r: Request) returns (id: Result<string, PersistenceError>)
      requires repo.Valid()
      modifies this, repo.Objects()
      ensures repo.Valid()
      ensures versionCounter == old(versionCounter)[r.executionId := old(Version(r.executionId)) + 1]
      ensures id == if r.id != "" && r.executionId != "" && r.hash != "" && Version(r.executionId) >= 0
                    then Ok(r.id) else Err(Invalid)
      ensures id.Ok? ==>
                repo.Reading(r.id) == Ok(Some(
                  Checkpoint(r.id, r.executionId, Version(r.executionId), STEP_COMPLETE, r.hash, "1.0", None,
                             Some(codec.dump(r.state)), [], [], Some(r.now))))
      ensures old(repo.Sane()) ==> repo.Sane() && View() == Step(codec, old(View()), r)
    {
      var version := Version(r.executionId) + 1;
      versionCounter := versionCounter[r.executionId := version];
      var cp := MakeCheckpoint(codec, r, version);
      if !cp.IsValid() {
        return Err(Invalid);
      }
      repo.Save(cp);
      return Ok(r.id);
    }

    /** The state comes back exactly when the checkpoint is there, has one, and its
        text is a state; each other case is an error of its own. */
    method Restore(id: string) returns (state: Result<Dict, PersistenceError>)
      requires repo.Valid()
      ensures state == Err(Missing(id)) <==> repo.Reading(id) == Ok(None)
      ensures state.Err? && state.error.Storage? <==> repo.Reading(id).Err?
      ensures repo.Reading(id).Ok? && repo.Reading(id).value.Some? ==>
                var text := repo.Reading(id).value.value.agentStateRef;
                && (state == Err(NoState(id)) <==> text.None?)
                && (state == Err(Corrupted(id)) <==> text.Some? && codec.parse(text.value).None?)
                && (state.Ok? ==> text.Some? && codec.parse(text.value) == Some(state.value))
      ensures repo.Sane() ==> (if state.Ok? then Some(state.value) else None) == Restored(codec, repo.View(), id)
    {
      var cp := repo.Get(id);
      if cp.Err? {
        return Err(Storage(cp.error));
      }
      if cp.value.None? {
        return Err(Missing(id));
      }
      var text := cp.value.value.agentStateRef;
      if text.None? {
        return Err(NoState(id));
      }
      var parsed := codec.parse(text.value);
      if parsed.None? {
        return Err(Corrupted(id));
      }
      return Ok(parsed.value);
    }
  }
}
