/**
 * Attendee counters: one item per event or open house, keyed by its uuid,
 * holding the number of attendees. The store adds to the number in place;
 * a decrement is conditional on the number being above zero, so a counter
 * never drops below zero.
 */
module AttendeeStore {
  import opened Options
  import opened JsonValues
  import opened DocStore

  const ATTENDEES := "attendees"

  /** The tables that hold attendee counters. */
  predicate CounterTable(t: Table) {
    t == EventAttendees || t == OpenHouseAttendees
  }

  /**
   * The store's answer to `SET attendees = attendees + 1`: one more on an
   * existing number; without the item or its number the store refuses the
   * update; and nothing but that one counter changes.
   */
  function Incremented(rows: Rows, uuid: string): (r: Result<Rows, StoreError>)
    ensures NumberAt(rows, uuid, ATTENDEES).Some? ==>
      r == Success(rows[uuid := rows[uuid][ATTENDEES := JNum(NumberAt(rows, uuid, ATTENDEES).value + 1.0)]])
    ensures !(uuid in rows && ATTENDEES in rows[uuid]) ==> r == Failure(MissingOperand)
    ensures uuid in rows && ATTENDEES in rows[uuid] && !rows[uuid][ATTENDEES].JNum? ==> r == Failure(WrongOperandType)
    ensures r.Success? ==> OnlyCounterChanged(rows, r.value, uuid)
  {
    AddOutcome(rows, uuid, ATTENDEES, 1.0, None)
  }

  /**
   * The store's answer to `SET attendees = attendees - 1` under the
   * condition `attendees > 0`: one less on a number above zero; at zero, or
   * without the item or its number, the condition fails and nothing changes.
   */
  function Decremented(rows: Rows, uuid: string): (r: Result<Rows, StoreError>)
    ensures NumberAt(rows, uuid, ATTENDEES).Some? && NumberAt(rows, uuid, ATTENDEES).value > 0.0 ==>
      r == Success(rows[uuid := rows[uuid][ATTENDEES := JNum(NumberAt(rows, uuid, ATTENDEES).value - 1.0)]])
    ensures !(NumberAt(rows, uuid, ATTENDEES).Some? && NumberAt(rows, uuid, ATTENDEES).value > 0.0) ==>
      r == Failure(ConditionFailed)
    ensures r.Success? ==> OnlyCounterChanged(rows, r.value, uuid)
  {
    AddOutcome(rows, uuid, ATTENDEES, -1.0, Some(0.0))
  }

  /** A non-negative whole number. */
  predicate IsCount(v: Json) {
    v.JNum? && v.n >= 0.0 && v.n.Floor as real == v.n
  }

  /** Every counter that has an attendee number holds a non-negative whole number. */
  predicate CountsValid(rows: Rows) {
    forall k :: k in rows && ATTENDEES in rows[k] ==> IsCount(rows[k][ATTENDEES])
  }

  /** Whether a counter exists under `uuid`, by one keyed read. */
  method AttendeesExist(store: Store, t: Table, uuid: string) returns (r: Result<bool, StoreError>)
    requires store.Valid() && CounterTable(t)
    modifies store`calls
    ensures store.calls == old(store.calls) + [GetItem(t, uuid)]
    ensures store.fault.Some? ==> r == Failure(store.fault.value)
    ensures store.fault.None? ==> r == Success(uuid in store.tables[t])
  {
    var item := store.Get(t, uuid);
    if item.Failure? {
      return Failure(item.error);
    }
    r := Success(item.value.Some?);
  }

  /** Adds one to the counter under `uuid`. */
  method IncrementAttendees(store: Store, t: Table, uuid: string) returns (failure: Option<StoreError>)
    requires store.Valid() && CounterTable(t)
    modifies store
    ensures store.Valid() && store.calls == old(store.calls) + [AddToNumber(t, uuid, ATTENDEES, 1.0, None)]
    ensures store.fault.Some? ==> failure == store.fault && store.tables == old(store.tables)
    ensures store.fault.None? ==> match Incremented(old(store.tables)[t], uuid)
      case Failure(e) => failure == Some(e) && store.tables == old(store.tables)
      case Success(rows) => failure.None? && store.tables == old(store.tables)[t := rows]
  {
    failure := store.Add(t, uuid, ATTENDEES, 1.0, None);
  }

  /** Takes one from the counter under `uuid`, only while it is above zero. */
  method DecrementAttendees(store: Store, t: Table, uuid: string) returns (failure: Option<StoreError>)
    requires store.Valid() && CounterTable(t)
    modifies store
    ensures store.Valid() && store.calls == old(store.calls) + [AddToNumber(t, uuid, ATTENDEES, -1.0, Some(0.0))]
    ensures store.fault.Some? ==> failure == store.fault && store.tables == old(store.tables)
    ensures store.fault.None? ==> match Decremented(old(store.tables)[t], uuid)
      case Failure(e) => failure == Some(e) && store.tables == old(store.tables)
      case Success(rows) => failure.None? && store.tables == old(store.tables)[t := rows]
  {
    failure := store.Add(t, uuid, ATTENDEES, -1.0, Some(0.0));
  }

  /** Every counter other than the one under `uuid` is as it was; that one keeps its other attributes. */
  predicate OnlyCounterChanged(before: Rows, after: Rows, uuid: string) {
    && before.Keys == after.Keys
    && (forall k :: k in before && k != uuid ==> after[k] == before[k])
    && (uuid in before ==> before[uuid].Keys == after[uuid].Keys
                           && forall a :: a in before[uuid] && a != ATTENDEES ==> after[uuid][a] == before[uuid][a])
  }

  /** Neither operation ever makes a counter negative or fractional. */
  lemma CountsStayValid(rows: Rows, uuid: string)
    requires CountsValid(rows)
    ensures Incremented(rows, uuid).Success? ==> CountsValid(Incremented(rows, uuid).value)
    ensures Decremented(rows, uuid).Success? ==> CountsValid(Decremented(rows, uuid).value)
  {
    if NumberAt(rows, uuid, ATTENDEES).Some? {
      var n := NumberAt(rows, uuid, ATTENDEES).value;
      assert IsCount(rows[uuid][ATTENDEES]);
      assert IsCount(JNum(n + 1.0)) by {
        assert (n + 1.0).Floor == n.Floor + 1;
      }
      if n > 0.0 {
        assert IsCount(JNum(n - 1.0)) by {
          assert (n - 1.0).Floor == n.Floor - 1;
        }
      }
    }
  }

  /** A decrement right after an increment gives back the counters as they were. */
  lemma DecrementUndoesIncrement(rows: Rows, uuid: string)
    requires CountsValid(rows) && Incremented(rows, uuid).Success?
    ensures Decremented(Incremented(rows, uuid).value, uuid) == Success(rows)
  {
    var n := NumberAt(rows, uuid, ATTENDEES).value;
    assert IsCount(rows[uuid][ATTENDEES]);
    var up := Incremented(rows, uuid).value;
    assert NumberAt(up, uuid, ATTENDEES) == Some(n + 1.0);
    assert up[uuid][ATTENDEES := JNum(n)] == rows[uuid];
    assert up[uuid := rows[uuid]] == rows;
  }
}
