/** The file-system checkpoint repository
    (infrastructure/storage/checkpoint/file_system.py): a temporary file and an
    atomic rename for each write, with a crash possible after every step. */
module FileSystemStore {
  import opened Wrappers
  import opened Checkpoints
  import opened CheckpointJson

  datatype Path = CheckpointFile(id: string) | CheckpointTmp(id: string) | IndexFile | IndexTmp

  type Index = map<string, seq<string>>

  // Torn is a file being written: its text is not complete JSON.
  datatype Content = Torn | CheckpointText(dict: Dict) | IndexText(index: Index)

  type Disk = map<Path, Content>

  /* ----- What reading sees ----- */

  // A missing or unreadable index reads as empty.
  function LoadIndex(d: Disk): Index {
    if IndexFile in d && d[IndexFile].IndexText? then d[IndexFile].index else map[]
  }

  // A missing, torn or incomplete file reads as none; other errors surface.
  function Load(d: Disk, id: string): Result<Option<Checkpoint>, LoadError> {
    if CheckpointFile(id) !in d || !d[CheckpointFile(id)].CheckpointText? then Ok(None)
    else
      match FromDict(d[CheckpointFile(id)].dict)
      case Ok(cp) => Ok(Some(cp))
      case Err(KeyError(_)) => Ok(None)
      case Err(e) => Err(e)
  }

  /* ----- The steps of a save ----- */

  // The disk after the first k steps of an atomic write: the temporary file is
  // opened, completed, and renamed over its destination.
  function AtomicWrite(d: Disk, tmp: Path, dest: Path, content: Content, k: nat): Disk
    requires k <= 3
  {
    if k == 0 then d
    else if k == 1 then d[tmp := Torn]
    else if k == 2 then d[tmp := content]
    else (d - {tmp})[dest := content]
  }

  function Indexed(index: Index, cp: Checkpoint): Index {
    var ids := if cp.executionId in index then index[cp.executionId] else [];
    index[cp.executionId := if cp.checkpointId in ids then ids else ids + [cp.checkpointId]]
  }

  const STEPS: nat := 6

  function WriteCheckpoint(d: Disk, cp: Checkpoint, k: nat): Disk
    requires k <= 3
  {
    AtomicWrite(d, CheckpointTmp(cp.checkpointId), CheckpointFile(cp.checkpointId), CheckpointText(ToDict(cp)), k)
  }

  function WriteIndex(d: Disk, index: Index, k: nat): Disk
    requires k <= 3
  {
    AtomicWrite(d, IndexTmp, IndexFile, IndexText(index), k)
  }

  // The disk after the first k steps of a save: the checkpoint, then the index
  // as read back with the new entry.
  function SaveStep(d: Disk, cp: Checkpoint, k: nat): Disk
    requires k <= STEPS
  {
    if k <= 3 then WriteCheckpoint(d, cp, k)
    else
      var saved := WriteCheckpoint(d, cp, 3);
      WriteIndex(saved, Indexed(LoadIndex(saved), cp), k - 3)
  }

  /* ----- The invariant, and the repository a disk stands for ----- */

  // Checkpoint files are complete and hold their own id; the index, if there is
  // one, is readable, without duplicates, and points at files only.
  ghost predicate Intact(d: Disk) {
    && (forall id | CheckpointFile(id) in d :: Holds(d, id))
    && (IndexFile in d ==> d[IndexFile].IndexText?)
    && IndexOk(d, LoadIndex(d))
  }

  ghost predicate Holds(d: Disk, id: string) {
    Load(d, id).Ok? && Load(d, id).value.Some? && Load(d, id).value.value.checkpointId == id
  }

  ghost predicate IndexOk(d: Disk, index: Index) {
    && (forall e, i | e in index && 0 <= i < |index[e]| :: CheckpointFile(index[e][i]) in d)
    && (forall e, i, j | e in index && 0 <= i < j < |index[e]| :: index[e][i] != index[e][j])
  }

  function FileIds(d: Disk): set<string> {
    set p | p in d && p.CheckpointFile? :: p.id
  }

  ghost function RepoOf(d: Disk): Repo
    requires Intact(d)
  {
    Repo(map id | id in FileIds(d) :: Load(d, id).value.value, IdSets(LoadIndex(d)))
  }

  function IdSets(index: Index): map<string, set<string>> {
    map e | e in index :: set id | id in index[e]
  }

  // Only the checkpoint files and the index matter to readers.
  ghost predicate SameReadings(d: Disk, d': Disk) {
    && (forall id :: CheckpointFile(id) in d <==> CheckpointFile(id) in d')
    && (forall id :: Load(d, id) == Load(d', id))
    && LoadIndex(d) == LoadIndex(d') && (IndexFile in d <==> IndexFile in d')
    && (IndexFile in d ==> d[IndexFile] == d'[IndexFile])
  }

  lemma SameReadingsSameRepo(d: Disk, d': Disk)
    requires Intact(d) && SameReadings(d, d')
    ensures Intact(d') && RepoOf(d') == RepoOf(d)
  {
    forall id | CheckpointFile(id) in d' ensures Holds(d', id) {
      assert CheckpointFile(id) in d && Holds(d, id);
    }
    forall id ensures id in FileIds(d) <==> CheckpointFile(id) in d {
      if CheckpointFile(id) in d { assert CheckpointFile(id).id == id; }
    }
    forall id ensures id in FileIds(d') <==> CheckpointFile(id) in d' {
      if CheckpointFile(id) in d' { assert CheckpointFile(id).id == id; }
    }
    assert FileIds(d) == FileIds(d');
  }

  // The three stages that readers can tell apart.
  lemma StagesOfSave(d: Disk, cp: Checkpoint, k: nat)
    requires k <= STEPS
    ensures k < 3 ==> SameReadings(d, SaveStep(d, cp, k))
    ensures 3 <= k < 6 ==> SameReadings(WriteCheckpoint(d, cp, 3), SaveStep(d, cp, k))
  {
  }

  lemma FileIdsAre(d: Disk)
    ensures forall id :: id in FileIds(d) <==> CheckpointFile(id) in d
  {
    forall id | CheckpointFile(id) in d ensures id in FileIds(d) {
      assert CheckpointFile(id).id == id;
    }
  }

  // The rename of the checkpoint file: that checkpoint changes, nothing else.
  lemma FileReadings(d: Disk, cp: Checkpoint)
    ensures var saved := WriteCheckpoint(d, cp, 3);
            && Load(saved, cp.checkpointId) == Ok(Some(cp))
            && (forall id | id != cp.checkpointId :: Load(saved, id) == Load(d, id))
            && FileIds(saved) == FileIds(d) + {cp.checkpointId}
            && LoadIndex(saved) == LoadIndex(d)
            && (IndexFile in saved <==> IndexFile in d) && (IndexFile in d ==> saved[IndexFile] == d[IndexFile])
  {
    DictRoundTrip(cp);
    FileIdsAre(d);
    FileIdsAre(WriteCheckpoint(d, cp, 3));
  }

  lemma FileRenamedIntact(d: Disk, cp: Checkpoint)
    requires Intact(d)
    ensures Intact(WriteCheckpoint(d, cp, 3))
  {
    var saved := WriteCheckpoint(d, cp, 3);
    FileReadings(d, cp);
    FileIdsAre(d);
    FileIdsAre(saved);
    forall id | CheckpointFile(id) in saved ensures Holds(saved, id) {
      if id != cp.checkpointId {
        assert id in FileIds(d) && Holds(d, id);
      }
    }
    forall e, i | e in LoadIndex(d) && 0 <= i < |LoadIndex(d)[e]| ensures CheckpointFile(LoadIndex(d)[e][i]) in saved {
      assert LoadIndex(d)[e][i] in FileIds(d);
    }
  }

  lemma FileRenamed(d: Disk, cp: Checkpoint)
    requires Intact(d)
    ensures var saved := WriteCheckpoint(d, cp, 3);
            Intact(saved) && RepoOf(saved) == RepoOf(d).(store := RepoOf(d).store[cp.checkpointId := cp])
  {
    FileReadings(d, cp);
    FileRenamedIntact(d, cp);
    FileIdsAre(d);
    var was, now := RepoOf(d).store, RepoOf(WriteCheckpoint(d, cp, 3)).store;
    forall id | id in now ensures now[id] == was[cp.checkpointId := cp][id] {
    }
    assert now == was[cp.checkpointId := cp];
  }

  lemma IndexedAs(index: Index, cp: Checkpoint)
    ensures var e, ids := cp.executionId, IdSets(index);
            IdSets(Indexed(index, cp)) == ids[e := (if e in ids then ids[e] else {}) + {cp.checkpointId}]
  {
    var e, after := cp.executionId, Indexed(index, cp);
    var was: set<string> := if e in index then set id | id in index[e] else {};
    forall id ensures id in after[e] <==> id in was + {cp.checkpointId} {
    }
    assert (set id | id in after[e]) == was + {cp.checkpointId};
  }

  /** What a save makes of the index it reads: an unreadable or missing one is empty;
      the id joins the end of its execution's list, once, and other lists stay. */
  lemma IndexUpdate(d: Disk, cp: Checkpoint)
    ensures var e, before, after := cp.executionId, LoadIndex(d), Indexed(LoadIndex(d), cp);
            var ids := if e in before then before[e] else [];
            && (IndexFile !in d || !d[IndexFile].IndexText? ==> before == map[])
            && (IndexFile in d && d[IndexFile].IndexText? ==> before == d[IndexFile].index)
            && after.Keys == before.Keys + {e}
            && (forall other | other in before && other != e :: after[other] == before[other])
            && (cp.checkpointId in ids ==> after[e] == ids)
            && (cp.checkpointId !in ids ==> after[e] == ids + [cp.checkpointId])
  {
  }

  // The rename of the index.
  lemma IndexReplaced(d: Disk, index: Index)
    requires Intact(d) && IndexOk(d, index)
    ensures var d' := WriteIndex(d, index, 3);
            Intact(d') && LoadIndex(d') == index && RepoOf(d') == RepoOf(d).(index := IdSets(index))
  {
    var d' := WriteIndex(d, index, 3);
    FileIdsAre(d);
    FileIdsAre(d');
    forall id ensures CheckpointFile(id) in d' <==> CheckpointFile(id) in d {
    }
    forall id | CheckpointFile(id) in d' ensures Holds(d', id) && Load(d', id) == Load(d, id) {
      assert Holds(d, id);
    }
  }

  // The rename of the index: the save is complete.
  lemma IndexRenamed(d: Disk, cp: Checkpoint)
    requires Intact(d)
    ensures var done := SaveStep(d, cp, STEPS);
            && Intact(done) && LoadIndex(done) == Indexed(LoadIndex(d), cp)
            && RepoOf(done) == RepoOf(d).Saved(cp)
  {
    var saved := WriteCheckpoint(d, cp, 3);
    FileReadings(d, cp);
    FileRenamed(d, cp);
    FileIdsAre(saved);
    var index := Indexed(LoadIndex(d), cp);
    IndexedOk(saved, cp);
    IndexReplaced(saved, index);
    IndexedAs(LoadIndex(d), cp);
  }

  lemma IndexedOk(d: Disk, cp: Checkpoint)
    requires IndexOk(d, LoadIndex(d)) && CheckpointFile(cp.checkpointId) in d
    ensures IndexOk(d, Indexed(LoadIndex(d), cp))
  {
  }

  /** Crash atomicity: stopping a save after any of its steps leaves the disk
      intact. Readers see the repository before the save, then the same with the
      new snapshot, and after the last step the completed save. */
  lemma CrashLeavesDiskIntact(d: Disk, cp: Checkpoint, k: nat)
    requires Intact(d) && k <= STEPS
    ensures Intact(SaveStep(d, cp, k))
    ensures RepoOf(SaveStep(d, cp, k))
         == (if k < 3 then RepoOf(d)
             else if k < STEPS then RepoOf(d).(store := RepoOf(d).store[cp.checkpointId := cp])
             else RepoOf(d).Saved(cp))
  {
    StagesOfSave(d, cp, k);
    if k < 3 {
      SameReadingsSameRepo(d, SaveStep(d, cp, k));
    } else if k < STEPS {
      FileRenamed(d, cp);
      SameReadingsSameRepo(WriteCheckpoint(d, cp, 3), SaveStep(d, cp, k));
    } else {
      IndexRenamed(d, cp);
    }
  }

  // The repository that a disk stands for when a save was cut after k steps.
  ghost function RepoAfterCrash(d: Disk, cp: Checkpoint, k: nat): (repo: Repo)
    requires Intact(d) && k <= STEPS
    ensures Intact(SaveStep(d, cp, k)) && repo == RepoOf(SaveStep(d, cp, k))
  {
    CrashLeavesDiskIntact(d, cp, k);
    RepoOf(SaveStep(d, cp, k))
  }

  /** So a reopened repository lists, for every execution, either the old set or
      the new one, and every earlier checkpoint reads as before. */
  lemma CrashListsOldOrNew(d: Disk, cp: Checkpoint, k: nat, e: string, cs: seq<Checkpoint>)
    requires Intact(d) && k <= STEPS
    requires IsListing(RepoAfterCrash(d, cp, k), e, cs)
    ensures IsListing(RepoOf(d), e, cs) || IsListing(RepoOf(d).Saved(cp), e, cs)
    ensures forall id | id != cp.checkpointId :: Load(SaveStep(d, cp, k), id) == Load(d, id)
  {
    CrashLeavesDiskIntact(d, cp, k);
    StagesOfSave(d, cp, k);
    FileReadings(d, cp);
    if 3 <= k < STEPS {
      HalfSavedListing(RepoOf(d), cp, e, cs);
    }
    forall id | id != cp.checkpointId ensures Load(SaveStep(d, cp, k), id) == Load(d, id) {
      assert CheckpointFile(id)
          !in {CheckpointFile(cp.checkpointId), CheckpointTmp(cp.checkpointId), IndexFile, IndexTmp};
    }
  }

  // With the snapshot stored but not yet indexed, a listing is the old or the new one.
  lemma HalfSavedListing(repo: Repo, cp: Checkpoint, e: string, cs: seq<Checkpoint>)
    requires IsListing(repo.(store := repo.store[cp.checkpointId := cp]), e, cs)
    ensures IsListing(repo, e, cs) || IsListing(repo.Saved(cp), e, cs)
  {
    if cp.checkpointId in repo.Ids(e) {
      assert repo.Saved(cp).Ids(e) == repo.Ids(e);
    } else {
      assert forall c :: c in cs ==> c.checkpointId != cp.checkpointId;
    }
  }

  /* ----- Any number of saves, each cut anywhere ----- */

  datatype Attempt = Attempt(cp: Checkpoint, steps: nat)

  function Attempted(d: Disk, attempts: seq<Attempt>): Disk
    requires forall i | 0 <= i < |attempts| :: attempts[i].steps <= STEPS
  {
    if attempts == [] then d
    else
      var n := |attempts| - 1;
      SaveStep(Attempted(d, attempts[..n]), attempts[n].cp, attempts[n].steps)
  }

  // No entry is dropped and no checkpoint disappears.
  ghost predicate Keeps(d: Disk, d': Disk) {
    && (forall e, id | e in LoadIndex(d) && id in LoadIndex(d)[e] :: e in LoadIndex(d') && id in LoadIndex(d')[e])
    && (forall id | CheckpointFile(id) in d :: CheckpointFile(id) in d')
  }

  lemma SaveKeeps(d: Disk, cp: Checkpoint, k: nat)
    requires Intact(d) && k <= STEPS
    ensures Keeps(d, SaveStep(d, cp, k))
  {
    StagesOfSave(d, cp, k);
    FileReadings(d, cp);
    IndexRenamed(d, cp);
    FileIdsAre(d);
    FileIdsAre(WriteCheckpoint(d, cp, 3));
  }

  /** Through any sequence of completed and interrupted saves the disk stays
      intact, so falling back to an empty index never drops an entry. */
  lemma {:induction false} AttemptsKeepDiskIntact(d: Disk, attempts: seq<Attempt>)
    requires Intact(d) && forall i | 0 <= i < |attempts| :: attempts[i].steps <= STEPS
    ensures Intact(Attempted(d, attempts)) && Keeps(d, Attempted(d, attempts))
  {
    if attempts != [] {
      var n := |attempts| - 1;
      var earlier := Attempted(d, attempts[..n]);
      AttemptsKeepDiskIntact(d, attempts[..n]);
      CrashLeavesDiskIntact(earlier, attempts[n].cp, attempts[n].steps);
      SaveKeeps(earlier, attempts[n].cp, attempts[n].steps);
    }
  }

  lemma RepoOfIsValid(d: Disk)
    requires Intact(d)
    ensures RepoOf(d).Valid()
  {
    FileIdsAre(d);
    forall id | id in FileIds(d) ensures Load(d, id).value.value.checkpointId == id {
      assert Holds(d, id);
    }
    forall e | e in LoadIndex(d) ensures IdSets(LoadIndex(d))[e] <= FileIds(d) {
      forall id | id in LoadIndex(d)[e] ensures id in FileIds(d) {
        var i :| 0 <= i < |LoadIndex(d)[e]| && LoadIndex(d)[e][i] == id;
      }
    }
  }

  /* ----- Listing whatever is on the disk ----- */

  type Loaded = Result<Option<Checkpoint>, LoadError>

  function Loads(d: Disk, ids: seq<string>): (rs: seq<Loaded>)
    ensures |rs| == |ids| && forall k | 0 <= k < |ids| :: rs[k] == Load(d, ids[k])
  {
    seq(|ids|, k requires 0 <= k < |ids| => Load(d, ids[k]))
  }

  // The snapshots that could be read, in order; missing and unreadable ones are
  // skipped, the first other error surfaces.
  function Gathered(rs: seq<Loaded>): Result<seq<Checkpoint>, LoadError> {
    if rs == [] then Ok([])
    else
      var earlier, last := Gathered(rs[..|rs| - 1]), rs[|rs| - 1];
      if earlier.Err? then earlier
      else if last.Err? then Err(last.error)
      else Ok(earlier.value + (if last.value.Some? then [last.value.value] else []))
  }

  function IdsOf(d: Disk, execution: string): seq<string> {
    var index := LoadIndex(d);
    if execution in index then index[execution] else []
  }

  function Listing(d: Disk, execution: string): Result<seq<Checkpoint>, LoadError> {
    var found := Gathered(Loads(d, IdsOf(d, execution)));
    if found.Ok? then Ok(Sort(found.value)) else found
  }

  lemma {:induction false} GatheredFails(rs: seq<Loaded>, i: nat)
    requires i < |rs| && Gathered(rs[..i]).Ok? && rs[i].Err?
    ensures Gathered(rs) == Err(rs[i].error)
  {
    var n := |rs| - 1;
    if i < n {
      assert rs[..n][..i] == rs[..i];
      GatheredFails(rs[..n], i);
    }
  }

  // Snapshots that were all read are gathered in place.
  lemma {:induction false} GatheredInPlace(rs: seq<Loaded>, cps: seq<Checkpoint>)
    requires |cps| == |rs| && forall k | 0 <= k < |rs| :: rs[k] == Ok(Some(cps[k]))
    ensures Gathered(rs) == Ok(cps)
  {
    if rs != [] {
      var n := |rs| - 1;
      GatheredInPlace(rs[..n], cps[..n]);
      assert cps == cps[..n] + [cps[n]];
    }
  }

  /** On an intact disk the listing is that of the repository it stands for. */
  lemma ListingIsListing(d: Disk, execution: string)
    requires Intact(d)
    ensures Listing(d, execution).Ok? && IsListing(RepoOf(d), execution, Listing(d, execution).value)
  {
    var ids := IdsOf(d, execution);
    FileIdsAre(d);
    forall k | 0 <= k < |ids| ensures Holds(d, ids[k]) {
      assert CheckpointFile(ids[k]) in d;
    }
    var found := seq(|ids|, k requires 0 <= k < |ids| => assert Holds(d, ids[k]); Load(d, ids[k]).value.value);
    GatheredInPlace(Loads(d, ids), found);
    var repo := RepoOf(d);
    SortSorts(found);
    forall c ensures c in found <==>
        c.checkpointId in repo.Ids(execution) && c.checkpointId in repo.store && repo.store[c.checkpointId] == c
    {
      if c.checkpointId in repo.Ids(execution) && c.checkpointId in repo.store && repo.store[c.checkpointId] == c {
        var k :| 0 <= k < |ids| && ids[k] == c.checkpointId;
        assert found[k] == c;
      }
    }
  }

  /* ----- The repository object ----- */

  class FileSystemCheckpointRepository {
    var disk: Disk
    ghost var journal: seq<Disk>  // the disk after each write and rename so far

    // Opening a directory: whatever an earlier process left on it.
    constructor (found: Disk)
      ensures disk == found && journal == []
    {
      disk, journal := found, [];
    }

    // Write a temporary file and rename it over its destination.
    method WriteAtomically(tmp: Path, dest: Path, content: Content)
      requires tmp != dest
      modifies this
      ensures disk == AtomicWrite(old(disk), tmp, dest, content, 3)
      ensures journal == old(journal) + [AtomicWrite(old(disk), tmp, dest, content, 1),
                                         AtomicWrite(old(disk), tmp, dest, content, 2), disk]
    {
      disk := disk[tmp := Torn];
      journal := journal + [disk];
      disk := disk[tmp := content];
      journal := journal + [disk];
      disk := (disk - {tmp})[dest := disk[tmp]];
      journal := journal + [disk];
      assert old(disk)[tmp := Torn][tmp := content] == old(disk)[tmp := content];
      assert old(disk)[tmp := content] - {tmp} == old(disk) - {tmp};
    }

    /** The save runs through exactly the steps above, whatever it finds, and
        completes them. */
    method Save(cp: Checkpoint)
      modifies this
      ensures disk == SaveStep(old(disk), cp, STEPS)
      ensures journal == old(journal) + [
                SaveStep(old(disk), cp, 1), SaveStep(old(disk), cp, 2), SaveStep(old(disk), cp, 3),
                SaveStep(old(disk), cp, 4), SaveStep(old(disk), cp, 5), SaveStep(old(disk), cp, 6)]
      ensures old(Intact(disk)) ==> Intact(disk) && RepoOf(disk) == old(RepoOf(disk)).Saved(cp)
    {
      if Intact(disk) {
        IndexRenamed(disk, cp);
      }
      WriteAtomically(CheckpointTmp(cp.checkpointId), CheckpointFile(cp.checkpointId), CheckpointText(ToDict(cp)));
      var index := UpdatedIndex(cp);
      WriteAtomically(IndexTmp, IndexFile, IndexText(index));
    }

    method UpdatedIndex(cp: Checkpoint) returns (index: Index)
      ensures index == Indexed(LoadIndex(disk), cp)
    {
      index := LoadIndex(disk);
      if cp.executionId !in index {
        index := index[cp.executionId := []];
      }
      if cp.checkpointId !in index[cp.executionId] {
        index := index[cp.executionId := index[cp.executionId] + [cp.checkpointId]];
      }
    }

    method Get(id: string) returns (r: Result<Option<Checkpoint>, LoadError>)
      ensures r == Load(disk, id)
      ensures var path := CheckpointFile(id);
              if path !in disk || !disk[path].CheckpointText? then r == Ok(None)
              else
                var read := FromDict(disk[path].dict);
                && (read.Ok? ==> r == Ok(Some(read.value)))
                && (read.Err? && read.error.KeyError? ==> r == Ok(None))
                && (read.Err? && !read.error.KeyError? ==> r == Err(read.error))
      ensures Intact(disk) ==> r == Ok(Lookup(RepoOf(disk).store, id))
    {
      r := Load(disk, id);
      FileIdsAre(disk);
      if Intact(disk) && CheckpointFile(id) in disk {
        assert Holds(disk, id);
      }
    }

    method ListByExecution(execution: string) returns (r: Result<seq<Checkpoint>, LoadError>)
      ensures r == Listing(disk, execution)
      ensures Intact(disk) ==> r.Ok? && IsListing(RepoOf(disk), execution, r.value)
    {
      var index := LoadIndex(disk);
      var ids := if execution in index then index[execution] else [];
      ghost var loads := Loads(disk, ids);
      var found: seq<Checkpoint> := [];
      for i := 0 to |ids|
        invariant Gathered(loads[..i]) == Ok(found)
      {
        assert loads[..i + 1][..i] == loads[..i];
        var cp := Get(ids[i]);
        if cp.Err? {
          GatheredFails(loads, i);
          return Err(cp.error);
        }
        if cp.value.Some? {
          found := found + [cp.value.value];
        } else {
          assert found + [] == found;
        }
      }
      assert loads[..|ids|] == loads;
      if Intact(disk) {
        ListingIsListing(disk, execution);
      }
      return Ok(Sort(found));
    }

    /** The first of the highest version in the listing; on an intact disk that is
        the one with the smallest id among those of the highest version. */
    method GetLatest(execution: string) returns (r: Result<Option<Checkpoint>, LoadError>)
      ensures r.Err? <==> Listing(disk, execution).Err?
      ensures r == Ok(None) <==> Listing(disk, execution) == Ok([])
      ensures r.Ok? && r.value.Some? ==> IsFirstHighest(Listing(disk, execution).value, r.value.value)
      ensures Intact(disk) ==>
                && r.Ok? && (r.value.None? <==> RepoOf(disk).Ids(execution) == {})
                && (r.value.Some? ==> IsSmallestLatest(RepoOf(disk), execution, r.value.value))
    {
      var cs := ListByExecution(execution);
      if Intact(disk) {
        RepoOfIsValid(disk);
        ghost var repo := RepoOf(disk);
        assert forall id | id in repo.Ids(execution) :: repo.store[id] in cs.value;
      }
      if cs.Err? {
        return Err(cs.error);
      }
      if cs.value == [] {
        return Ok(None);
      }
      var best := MaxByVersion(cs.value);
      if Intact(disk) {
        FirstHighestIsSmallest(RepoOf(disk), execution, cs.value, best);
      }
      return Ok(Some(best));
    }
  }

  // What Python's max by version picks: the first element of the highest version.
  ghost predicate IsFirstHighest(cs: seq<Checkpoint>, best: Checkpoint) {
    exists i :: 0 <= i < |cs| && cs[i] == best
      && (forall k | 0 <= k < |cs| :: cs[k].version <= best.version)
      && (forall k | 0 <= k < i :: cs[k].version < best.version)
  }

  // A latest checkpoint, and of those the one whose id comes first.
  ghost predicate IsSmallestLatest(repo: Repo, execution: string, c: Checkpoint) {
    && IsLatest(repo, execution, c)
    && forall id | id in repo.Ids(execution) && id in repo.store && repo.store[id].version == c.version ::
         id == c.checkpointId || TextBefore(c.checkpointId, id)
  }

  lemma FirstHighestIsSmallest(repo: Repo, execution: string, cs: seq<Checkpoint>, best: Checkpoint)
    requires repo.Valid() && IsListing(repo, execution, cs) && IsFirstHighest(cs, best)
    ensures IsSmallestLatest(repo, execution, best)
  {
    var i :| 0 <= i < |cs| && cs[i] == best
      && (forall k | 0 <= k < |cs| :: cs[k].version <= best.version)
      && (forall k | 0 <= k < i :: cs[k].version < best.version);
    assert best in cs;
    forall id | id in repo.Ids(execution) && id in repo.store
      ensures repo.store[id].version <= best.version
      ensures repo.store[id].version == best.version ==> id == best.checkpointId || TextBefore(best.checkpointId, id)
    {
      assert repo.store[id] in cs;
      var k :| 0 <= k < |cs| && cs[k] == repo.store[id];
      assert i < k ==> Before(cs[i], cs[k]);
    }
  }

  method MaxByVersion(cs: seq<Checkpoint>) returns (best: Checkpoint)
    requires cs != []
    ensures IsFirstHighest(cs, best)
  {
    best := cs[0];
    ghost var at := 0;
    for i := 1 to |cs|
      invariant 0 <= at < i && cs[at] == best
      invariant forall k | 0 <= k < i :: cs[k].version <= best.version
      invariant forall k | 0 <= k < at :: cs[k].version < best.version
    {
      if cs[i].version > best.version {
        best, at := cs[i], i;
      }
    }
  }

  /** Whatever is on the disk, a saved checkpoint reads back. */
  lemma SavedLoads(d: Disk, cp: Checkpoint)
    ensures Load(SaveStep(d, cp, STEPS), cp.checkpointId) == Ok(Some(cp))
  {
    FileReadings(d, cp);
    var saved := WriteCheckpoint(d, cp, 3);
    assert SaveStep(d, cp, STEPS)[CheckpointFile(cp.checkpointId)] == saved[CheckpointFile(cp.checkpointId)];
  }
}
