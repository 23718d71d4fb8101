/**
 * The areas service's store adapter: area records are written in batches of
 * at most `BATCH_WRITE_MAX`, and events are deleted by key in batches the
 * same way.
 */
module AreaStore {
  import opened Options
  import opened JsonValues
  import opened DocStore
  import opened Chunking

  /** Writes every area, one batch write per chunk of at most 25 areas, and fails when any batch fails. */
  method CreateAreas(store: Store, areas: seq<Record>) returns (failure: Option<StoreError>)
    requires store.Valid() && AllKeyed(Areas, areas)
    modifies store
    ensures store.Valid()
    ensures store.calls == old(store.calls) + BatchCalls(Areas, Chunks(Puts(areas)))
    ensures failure == if areas == [] then None else store.fault
    ensures store.fault.None? ==> store.tables == old(store.tables)[Areas := ApplyWrites(Areas, old(store.tables)[Areas], Puts(areas))]
    ensures store.fault.Some? ==> store.tables == old(store.tables)
  {
    PutsAreKeyed(Areas, areas);
    failure := WriteInBatches(store, Areas, Puts(areas));
  }

  /** Deletes every listed event, one batch write per chunk of at most 25 keys. */
  method DeleteEvents(store: Store, uuids: seq<string>) returns (failure: Option<StoreError>)
    requires store.Valid()
    modifies store
    ensures store.Valid()
    ensures store.calls == old(store.calls) + BatchCalls(Events, Chunks(Deletes(uuids)))
    ensures failure == if uuids == [] then None else store.fault
    ensures store.fault.None? ==> store.tables == old(store.tables)[Events := old(store.tables)[Events] - (set k | k in uuids)]
    ensures store.fault.Some? ==> store.tables == old(store.tables)
  {
    DeletesRemove(Events, store.tables[Events], uuids);
    failure := WriteInBatches(store, Events, Deletes(uuids));
  }
}
