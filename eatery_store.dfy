/**
 * The eateries service's store adapter: eateries are written in batches of
 * at most `BATCH_WRITE_MAX`, and a building's existence is a keyed read.
 */
module EateryStore {
  import opened Options
  import opened JsonValues
  import opened DocStore
  import opened Chunking

  /** Writes every eatery, one batch write per chunk of at most 25 eateries, and fails when any batch fails. */
  method CreateEateries(store: Store, eateries: seq<Record>) returns (failure: Option<StoreError>)
    requires store.Valid() && AllKeyed(Eateries, eateries)
    modifies store
    ensures store.Valid()
    ensures store.calls == old(store.calls) + BatchCalls(Eateries, Chunks(Puts(eateries)))
    ensures failure == if eateries == [] then None else store.fault
    ensures store.fault.None? ==> store.tables == old(store.tables)[Eateries := ApplyWrites(Eateries, old(store.tables)[Eateries], Puts(eateries))]
    ensures store.fault.Some? ==> store.tables == old(store.tables)
  {
    PutsAreKeyed(Eateries, eateries);
    failure := WriteInBatches(store, Eateries, Puts(eateries));
  }

  /** Whether the buildings table holds an item under `uuid`, by one keyed read. */
  method BuildingExists(store: Store, uuid: string) returns (r: Result<bool, StoreError>)
    requires store.Valid()
    modifies store`calls
    ensures store.calls == old(store.calls) + [GetItem(Buildings, uuid)]
    ensures store.fault.Some? ==> r == Failure(store.fault.value)
    ensures store.fault.None? ==> r == Success(uuid in store.tables[Buildings])
  {
    var item := store.Get(Buildings, uuid);
    if item.Failure? {
      return Failure(item.error);
    }
    r := Success(item.value.Some?);
  }
}
