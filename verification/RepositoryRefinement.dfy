/** The two repositories are one: after the same saves they answer alike. */
module RepositoryRefinement {
  import opened Wrappers
  import opened Checkpoints
  import opened FileSystemStore

  // The disk after a list of saves on an empty directory.
  function DiskSaved(saves: seq<Checkpoint>): Disk {
    if saves == [] then map[] else SaveStep(DiskSaved(saves[..|saves| - 1]), saves[|saves| - 1], STEPS)
  }

  // The repository it stands for.
  ghost function RepoOnDisk(saves: seq<Checkpoint>): (repo: Repo)
    ensures Intact(DiskSaved(saves)) && repo == RepoOf(DiskSaved(saves))
  {
    DiskRefinesMemory(saves);
    RepoOf(DiskSaved(saves))
  }

  /** Refinement: from an empty start, any list of saves leaves the disk standing
      for exactly the snapshots and ids that the dictionaries hold. */
  lemma {:induction false} DiskRefinesMemory(saves: seq<Checkpoint>)
    ensures Intact(DiskSaved(saves)) && RepoOf(DiskSaved(saves)) == AllSaved(saves)
  {
    if saves == [] {
      assert FileIds(map[]) == {};
    } else {
      var n := |saves| - 1;
      DiskRefinesMemory(saves[..n]);
      IndexRenamed(DiskSaved(saves[..n]), saves[n]);
    }
  }

  /** So both list the same checkpoints in the same order, read each id alike, and
      find a latest checkpoint of the same version. */
  lemma RepositoriesAgree(saves: seq<Checkpoint>, execution: string,
                          onDisk: seq<Checkpoint>, inMemory: seq<Checkpoint>, a: Checkpoint, b: Checkpoint)
    requires IsListing(RepoOnDisk(saves), execution, onDisk)
    requires IsListing(AllSaved(saves), execution, inMemory)
    ensures onDisk == inMemory
    ensures IsLatest(RepoOnDisk(saves), execution, a) && IsLatest(AllSaved(saves), execution, b) ==>
              onDisk != [] && a.version == b.version == onDisk[|onDisk| - 1].version
    ensures forall id :: Load(DiskSaved(saves), id) == Ok(Lookup(AllSaved(saves).store, id))
  {
    DiskRefinesMemory(saves);
    var disk, repo := DiskSaved(saves), AllSaved(saves);
    ListingIsUnique(repo, execution, onDisk, inMemory);
    if IsLatest(repo, execution, a) && IsLatest(repo, execution, b) {
      LatestIsLastListed(repo, execution, onDisk, a);
      LatestIsLastListed(repo, execution, onDisk, b);
    }
    FileIdsAre(disk);
    forall id ensures Load(disk, id) == Ok(Lookup(repo.store, id)) {
      if CheckpointFile(id) in disk {
        assert Holds(disk, id);
      }
    }
  }
}
