/** What any run of AdvancePointer calls leaves behind. */
module Pointers {
  import opened Ids
  import opened Messages
  import opened MessageIds
  import opened MessageStore

  datatype Call = Call(slot: Slot, value: MessageId)

  function AdvanceAll(slots: map<Slot, MessageId>, calls: seq<Call>): map<Slot, MessageId>
  {
    if calls == [] then slots
    else
      var last := calls[|calls| - 1];
      Advance(AdvanceAll(slots, calls[..|calls| - 1]), last.slot, last.value)
  }

  /** `value` was passed for the slot and nothing greater was. */
  ghost predicate IsGreatest(calls: seq<Call>, slot: Slot, value: MessageId)
  {
    && Call(slot, value) in calls
    && forall c :: c in calls && c.slot == slot ==> !Less(value, c.value)
  }

  /** From an empty store, a slot exists exactly when it was ever advanced, and
      holds the greatest value ever passed for it. */
  lemma {:induction false} PointersHoldTheGreatest(calls: seq<Call>, slot: Slot)
    ensures slot in AdvanceAll(map[], calls) <==> exists c :: c in calls && c.slot == slot
    ensures slot in AdvanceAll(map[], calls) ==> IsGreatest(calls, slot, AdvanceAll(map[], calls)[slot])
  {
    if calls != [] {
      var front, last := calls[..|calls| - 1], calls[|calls| - 1];
      assert calls == front + [last];
      PointersHoldTheGreatest(front, slot);
      var before, after := AdvanceAll(map[], front), AdvanceAll(map[], calls);
      if last.slot == slot {
        assert last in calls;
        LessIsTotal(last.value, last.value);
        forall c | c in calls && c.slot == slot ensures !Less(after[slot], c.value) {
          if slot in before && Less(before[slot], last.value) && Less(last.value, c.value) {
            LessIsTransitive(before[slot], last.value, c.value);
          }
        }
      }
    }
  }

  /** The order in which the same calls arrive does not matter. */
  lemma OrderDoesNotMatter(calls: seq<Call>, reordered: seq<Call>)
    requires multiset(calls) == multiset(reordered)
    ensures AdvanceAll(map[], calls) == AdvanceAll(map[], reordered)
  {
    var a, b := AdvanceAll(map[], calls), AdvanceAll(map[], reordered);
    forall c: Call ensures c in calls <==> c in reordered {
      assert c in multiset(calls) <==> c in multiset(reordered);
    }
    forall slot ensures slot in a <==> slot in b {
      PointersHoldTheGreatest(calls, slot);
      PointersHoldTheGreatest(reordered, slot);
    }
    forall slot | slot in a ensures a[slot] == b[slot] {
      PointersHoldTheGreatest(calls, slot);
      PointersHoldTheGreatest(reordered, slot);
      LessIsTotal(a[slot], b[slot]);
    }
  }

  /** Of two ids made after 1970, the one made in a later millisecond comes later
      in every log and moves on every pointer to the other. */
  lemma LaterIdMovesOn(early: int, late: int, x: seq<Byte>, y: seq<Byte>, log: seq<Message>, i: nat, j: nat,
                       slots: map<Slot, MessageId>, slot: Slot)
    requires 0 <= early && late <= MAX_INT64 && Millis(early) < Millis(late)
    requires Sorted(log) && i < |log| && j < |log|
    requires log[i].id == BigEndian(Millis(early), TIMESTAMP_BYTES) + x
    requires log[j].id == BigEndian(Millis(late), TIMESTAMP_BYTES) + y
    requires slot in slots && slots[slot] == log[i].id
    ensures i < j
    ensures Advance(slots, slot, log[j].id) == slots[slot := log[j].id]
  {
    LaterMillisecondSortsLater(early, late, x, y);
    LessIsTotal(log[i].id, log[j].id);
  }
}
