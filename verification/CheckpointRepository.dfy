/** What the persistence adapter may be given as its repository: either of the two
    (core/contracts/checkpoint_repository.py). */
module CheckpointRepository {
  import opened Wrappers
  import opened Checkpoints
  import opened CheckpointJson
  import opened FileSystemStore
  import opened InMemoryStore

  datatype Repository =
    | InMemory(memory: InMemoryCheckpointRepository)
    | FileSystem(files: FileSystemCheckpointRepository)
  {
    ghost function Objects(): set<object> {
      match this
      case InMemory(m) => {m}
      case FileSystem(f) => {f}
    }

    // What the object itself keeps; a directory may be in any condition.
    ghost predicate Valid()
      reads Objects()
    {
      InMemory? ==> memory.Valid()
    }

    // The directory, if there is one, is as saves leave it, crashes included.
    ghost predicate Sane()
      reads Objects()
    {
      Valid() && (FileSystem? ==> Intact(files.disk))
    }

    ghost function View(): Repo
      requires Sane()
      reads Objects()
    {
      match this
      case InMemory(m) => m.View()
      case FileSystem(f) => RepoOf(f.disk)
    }

    ghost function Reading(id: string): Loaded
      reads Objects()
    {
      match this
      case InMemory(m) => Ok(Lookup(m.store, id))
      case FileSystem(f) => Load(f.disk, id)
    }

    /** A saved checkpoint reads back, whatever the condition of the directory; in
        a sane repository the save changes what is stored and nothing else. */
    method Save(cp: Checkpoint)
      requires Valid()
      modifies Objects()
      ensures Valid() && Reading(cp.checkpointId) == Ok(Some(cp))
      ensures old(Sane()) ==> Sane() && View() == old(View()).Saved(cp)
    {
      match this
      case InMemory(m) => m.Save(cp);
      case FileSystem(f) =>
        SavedLoads(f.disk, cp);
        f.Save(cp);
    }

    method Get(id: string) returns (r: Loaded)
      requires Valid()
      ensures r == Reading(id)
      ensures Sane() ==> r == Ok(Lookup(View().store, id))
    {
      match this
      case InMemory(m) =>
        var cp := m.Get(id);
        r := Ok(cp);
      case FileSystem(f) => r := f.Get(id);
    }

    /** Both list the same for the same contents. */
    method ListByExecution(execution: string) returns (r: Result<seq<Checkpoint>, LoadError>)
      requires Valid()
      ensures Sane() ==> r.Ok? && IsListing(View(), execution, r.value)
    {
      match this
      case InMemory(m) =>
        var cs := m.ListByExecution(execution);
        r := Ok(cs);
      case FileSystem(f) => r := f.ListByExecution(execution);
    }

    method GetLatest(execution: string) returns (r: Result<Option<Checkpoint>, LoadError>)
      requires Valid()
      ensures Sane() ==>
                && r.Ok? && (r.value.None? <==> View().Ids(execution) == {})
                && (r.value.Some? ==> IsLatest(View(), execution, r.value.value))
    {
      match this
      case InMemory(m) =>
        var latest := m.GetLatest(execution);
        r := Ok(latest);
      case FileSystem(f) => r := f.GetLatest(execution);
    }
  }
}
