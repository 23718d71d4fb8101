/**
 * The buildings service's store adapter. Its `createBuildings` sends every
 * building in one batch write, while the store accepts between 1 and 25
 * requests per batch write: an empty list or more than 25 buildings is
 * refused. `CreateBuildingsAsWritten` models the adapter as it is;
 * `CreateBuildings` writes in slices of at most 25, as the areas and
 * eateries adapters do, and is the one the buildings handler uses here.
 */
module BuildingStore {
  import opened Options
  import opened JsonValues
  import opened DocStore
  import opened Chunking

  /** `createBuildings` as written: one batch write holding a put for every building. */
  method CreateBuildingsAsWritten(store: Store, buildings: seq<Record>) returns (failure: Option<StoreError>)
    requires store.Valid() && AllKeyed(Buildings, buildings)
    modifies store
    ensures store.Valid()
    ensures store.calls == old(store.calls) + [BatchWriteItem(Buildings, Puts(buildings))]
    ensures failure == BatchFailure(store.fault, Puts(buildings))
    ensures store.tables ==
      if failure.None? then old(store.tables)[Buildings := ApplyWrites(Buildings, old(store.tables)[Buildings], Puts(buildings))]
      else old(store.tables)
  {
    PutsAreKeyed(Buildings, buildings);
    failure := store.BatchWrite(Buildings, Puts(buildings));
  }

  /**
   * With the store up, the single batch write fails for an empty list and
   * for any list of more than 25 buildings, and then nothing is written.
   */
  lemma AsWrittenRefusesEmptyOrLarge(buildings: seq<Record>)
    ensures buildings == [] ==> BatchFailure(None, Puts(buildings)) == Some(EmptyBatch)
    ensures |buildings| > MAX_BATCH_REQUESTS ==> BatchFailure(None, Puts(buildings)) == Some(OversizedBatch)
    ensures BatchFailure(None, Puts(buildings)).None? <==> 1 <= |buildings| <= MAX_BATCH_REQUESTS
  {
  }

  /** A concrete list of 26 buildings, each under its own key. */
  lemma TwentySixBuildingsRefused()
    ensures var buildings := seq(26, i requires 0 <= i < 26 => map["uuid" := JStr([(65 + i) as char])]);
      AllKeyed(Buildings, buildings) && BatchFailure(None, Puts(buildings)) == Some(OversizedBatch)
  {
  }

  /** `createBuildings` corrected: one batch write per slice of at most 25 buildings. */
  method CreateBuildings(store: Store, buildings: seq<Record>) returns (failure: Option<StoreError>)
    requires store.Valid() && AllKeyed(Buildings, buildings)
    modifies store
    ensures store.Valid()
    ensures store.calls == old(store.calls) + BatchCalls(Buildings, Chunks(Puts(buildings)))
    ensures failure == if buildings == [] then None else store.fault
    ensures store.fault.None? ==> store.tables == old(store.tables)[Buildings := ApplyWrites(Buildings, old(store.tables)[Buildings], Puts(buildings))]
    ensures store.fault.Some? ==> store.tables == old(store.tables)
  {
    PutsAreKeyed(Buildings, buildings);
    failure := WriteInBatches(store, Buildings, Puts(buildings));
  }

  /**
   * Wherever the adapter as written succeeds, from 1 to 25 buildings, the
   * corrected one makes the very same single batch write.
   */
  lemma CorrectedAgreesWhereAsWrittenWorks(buildings: seq<Record>)
    requires 1 <= |buildings| <= MAX_BATCH_REQUESTS
    ensures BatchCalls(Buildings, Chunks(Puts(buildings))) == [BatchWriteItem(Buildings, Puts(buildings))]
  {
    var requests := Puts(buildings);
    assert ChunkCount(|requests|) == 1;
    assert Chunks(requests)[0] == requests[0..|requests|] == requests;
    assert Chunks(requests) == [requests];
  }
}
