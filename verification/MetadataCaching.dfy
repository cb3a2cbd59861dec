/** The query server's metadata cache. A method that reads the store twice is given the
    store as it is at each read; other parties may commit in between. */
module MetadataCaching {
  import opened Types
  import opened Cas
  import opened CasSafety

  datatype TableState = TableState(currentMetadataPath: string, metadata: Metadata)

  /** What a fetch finds: the pointer read first, then the metadata it names. */
  function Fetched(atPointer: Store, atMetadata: Store): (t: Option<TableState>)
    ensures t.Some? <==> HasMetadata(atMetadata.objects, atPointer.current)
    ensures t.Some? ==> t.value.currentMetadataPath == atPointer.current
                        && atMetadata.objects[t.value.currentMetadataPath] == MetadataFile(t.value.metadata)
  {
    if HasMetadata(atMetadata.objects, atPointer.current)
    then Some(TableState(atPointer.current, atMetadata.objects[atPointer.current].metadata)) else None
  }

  class MetadataCache {
    var tables: map<string, TableState>

    constructor ()
      ensures tables == map[]
    {
      tables := map[];
    }

    /** `register_with_store`. */
    method RegisterWithStore(name: string, atPointer: Store, atMetadata: Store) returns (ok: bool)
      modifies this
      ensures ok == Fetched(atPointer, atMetadata).Some?
      ensures tables == if ok then old(tables)[name := Fetched(atPointer, atMetadata).value] else old(tables)
    {
      var path := atPointer.current;
      if !HasMetadata(atMetadata.objects, path) { return false; }
      tables := tables[name := TableState(path, atMetadata.objects[path].metadata)];
      return true;
    }

    /** `refresh_one`: nothing is read beyond the pointer, and nothing changes, when the
        pointer is the one already held. */
    method RefreshOne(name: string, atPointer: Store, atMetadata: Store) returns (ok: bool)
      modifies this
      ensures name !in old(tables) ==> !ok
      ensures name in old(tables) ==> ok == (Unchanged(old(tables[name]), atPointer) || Fetched(atPointer, atMetadata).Some?)
      ensures tables == if name in old(tables)
                        then old(tables)[name := Refreshed(Some(old(tables[name])), atPointer, atMetadata).value]
                        else old(tables)
    {
      if name !in tables { return false; }
      var oldPath := tables[name].currentMetadataPath;
      if atPointer.current == oldPath { return true; }
      if !HasMetadata(atMetadata.objects, atPointer.current) { return false; }
      var metadata := atMetadata.objects[atPointer.current].metadata;
      tables := tables[name := tables[name].(currentMetadataPath := atPointer.current)];
      tables := tables[name := tables[name].(metadata := metadata)];
      return true;
    }
  }

  predicate Unchanged(t: TableState, atPointer: Store) { t.currentMetadataPath == atPointer.current }

  /** A table of the cache, as the protocol's steps see it. */
  predicate Holds(cache: Cache, t: Option<TableState>)
  {
    match t
    case None => cache.entry.None?
    case Some(t) => cache.entry.Some? && cache.entry.value.path == t.currentMetadataPath && cache.entry.value.metadata == t.metadata
  }

  /** A table's state after a refresh: as `RefreshOne` says, or as `RegisterWithStore` says
      when there was none. */
  function Refreshed(t: Option<TableState>, atPointer: Store, atMetadata: Store): Option<TableState>
  {
    if t.Some? && Unchanged(t.value, atPointer) then t
    else if Fetched(atPointer, atMetadata).Some? then Fetched(atPointer, atMetadata)
    else t
  }

  /** A refresh is two steps of the polling task, or one when the pointer has not moved. */
  lemma RefreshIsPolling(cache: Cache, t: Option<TableState>, atPointer: Store, atMetadata: Store)
    requires Holds(cache, t) && cache.flight.None?
    ensures var first := PollStep(atPointer, cache);
      if t.Some? && Unchanged(t.value, atPointer) then first == cache
      else first.flight.Some? && Holds(PollStep(atMetadata, first), Refreshed(t, atPointer, atMetadata))
           && PollStep(atMetadata, first).flight.None?
  {}

  /** What a server holds for the table is one of its versions: the path was the pointer
      after `k` commits, and the metadata lists those commits' manifest lists. */
  ghost predicate HoldsVersion(s: System, t: TableState, k: nat)
  {
    && k <= |s.log| && t.currentMetadataPath == VersionPath(s, k)
    && HasMetadata(s.store.objects, t.currentMetadataPath)
    && s.store.objects[t.currentMetadataPath].metadata == t.metadata && t.metadata.manifestLists == ListPaths(s.log[..k])
  }

  lemma FetchedVersion(s: System, t: System)
    requires Inv(s) && Inv(t) && Grows(s, t)
    ensures Fetched(s.store, t.store).Some? && HoldsVersion(t, Fetched(s.store, t.store).value, |s.log|)
  {
    hide Closed, OwnManifests, CacheOk, Commits, WorkerOk;
    assert VersionOk(s, |s.log|);
    VersionStable(s, t, |s.log|);
    assert t.log[..|s.log|] == s.log[..|s.log|];
  }

  lemma VersionKept(s: System, t: System, held: TableState, k: nat)
    requires Inv(s) && Grows(s, t) && HoldsVersion(s, held, k)
    ensures HoldsVersion(t, held, k)
  {
    hide Inv;
    VersionStable(s, t, k);
    assert t.log[..k] == s.log[..k];
  }

  lemma CurrentVersion(s: System, held: TableState, k: nat)
    requires Inv(s) && HoldsVersion(s, held, k) && Unchanged(held, s.store)
    ensures k == |s.log|
  {
    hide Closed, OwnManifests, CacheOk, Commits, WorkerOk;
    assert VersionOk(s, |s.log|);
  }

  lemma VersionLists(s: System, held: TableState, j: nat, now: TableState, k: nat)
    requires Inv(s) && j <= k && HoldsVersion(s, held, j) && HoldsVersion(s, now, k)
    ensures held.metadata.manifestLists <= now.metadata.manifestLists <= Snapshot(s)
  {
    hide Inv, Snapshot;
    SnapshotIsLog(s);
    assert s.log[..j] == s.log[..k][..j] && s.log[..k] <= s.log;
    ListPathsPrefix(s.log[..j], s.log[..k]);
    ListPathsPrefix(s.log[..k], s.log);
  }

  /** A refresh reads the pointer at one moment of a run and the metadata at a later one,
      while workers commit. A table that held a version before then holds the version the
      pointer was at; no read fails, the lists it held are a prefix of those it holds now,
      and those of the snapshot's. */
  lemma RefreshNeverGoesBack(run: seq<System>, i: nat, n: nat, m: nat, held: TableState, k: nat)
    requires Run(run) && i <= n <= m < |run| && HoldsVersion(run[i], held, k)
    ensures Unchanged(held, run[n].store) || Fetched(run[n].store, run[m].store).Some?
    ensures var now := Refreshed(Some(held), run[n].store, run[m].store);
      && now.Some? && HoldsVersion(run[m], now.value, |run[n].log|)
      && held.metadata.manifestLists <= now.value.metadata.manifestLists <= Snapshot(run[m])
  {
    hide Init, Next, Inv, Grows, HoldsVersion, Snapshot, Fetched;
    RunKeeps(run, i);
    RunKeeps(run, n);
    RunKeeps(run, m);
    RunGrows(run, i, n);
    RunGrows(run, n, m);
    RunGrows(run, i, m);
    VersionKept(run[i], run[n], held, k);
    VersionKept(run[i], run[m], held, k);
    FetchedVersion(run[n], run[m]);
    if Unchanged(held, run[n].store) { CurrentVersion(run[n], held, k); }
    VersionInLog(run[i], held, k);
    LogGrows(run[i], run[n]);
    VersionLists(run[m], held, k, Refreshed(Some(held), run[n].store, run[m].store).value, |run[n].log|);
  }

  lemma VersionInLog(s: System, held: TableState, k: nat)
    requires HoldsVersion(s, held, k)
    ensures k <= |s.log|
  {}
}
