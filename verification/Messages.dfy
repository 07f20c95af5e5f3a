/** Messages as they are stored, and the facts about logs kept sorted by id. */
module Messages {
  import opened Ids

  datatype Content =
    | Text(text: string)
    | Reaction(reference: MessageId, emoji: string)
    | Reply(reference: MessageId, text: string)
    | Tip(reference: MessageId, quarks: nat)
    | Deleted(reference: MessageId)
    | Review(reference: MessageId, isApproved: bool)
    | Announcement(text: string)
    | Unsupported

  datatype Message = Message(id: MessageId, sender: Option<UserId>, content: Content, offStage: bool, ts: int)

  /** Strictly ascending ids. */
  predicate Sorted(log: seq<Message>)
  {
    forall i, j :: 0 <= i < j < |log| ==> Less(log[i].id, log[j].id)
  }

  function IdsIn(log: seq<Message>): set<MessageId>
  {
    set i | 0 <= i < |log| :: log[i].id
  }

  /** A log as a finite map, forgetting the order it is kept in. */
  function ById(log: seq<Message>): map<MessageId, Message>
  {
    if log == [] then map[]
    else
      var last := log[|log| - 1];
      ById(log[..|log| - 1])[last.id := last]
  }

  lemma {:induction false} ByIdKeys(log: seq<Message>)
    ensures ById(log).Keys == IdsIn(log)
  {
    if log != [] {
      var front, last := log[..|log| - 1], log[|log| - 1];
      ByIdKeys(front);
      assert IdsIn(log) == IdsIn(front) + {last.id} by {
        forall id | id in IdsIn(front) ensures id in IdsIn(log) {
          var i :| 0 <= i < |front| && front[i].id == id;
          assert log[i].id == id;
        }
        forall id | id in IdsIn(log) && id != last.id ensures id in IdsIn(front) {
          var i :| 0 <= i < |log| && log[i].id == id;
          assert front[i].id == id;
        }
      }
    }
  }

  lemma {:induction false} ByIdEntry(log: seq<Message>, i: nat)
    requires Sorted(log) && i < |log|
    ensures log[i].id in ById(log) && ById(log)[log[i].id] == log[i]
  {
    var front, last := log[..|log| - 1], log[|log| - 1];
    if i < |front| {
      ByIdEntry(front, i);
      LessIsTotal(log[i].id, last.id);
    }
  }

  /** Looking a message up by id and scanning the log for it agree. */
  lemma {:induction false} ByIdLooksUp(log: seq<Message>)
    requires Sorted(log)
    ensures ById(log).Keys == IdsIn(log)
    ensures forall m :: m in log ==> m.id in ById(log) && ById(log)[m.id] == m
    ensures forall id :: id in ById(log) ==> ById(log)[id] in log && ById(log)[id].id == id
  {
    ByIdKeys(log);
    forall m | m in log ensures m.id in ById(log) && ById(log)[m.id] == m {
      var i :| 0 <= i < |log| && log[i] == m;
      ByIdEntry(log, i);
    }
    forall id | id in ById(log) ensures ById(log)[id] in log && ById(log)[id].id == id {
      var i :| 0 <= i < |log| && log[i].id == id;
      ByIdEntry(log, i);
    }
  }

  /** The number of messages before `id`. */
  function Position(log: seq<Message>, id: MessageId): (k: nat)
    requires Sorted(log)
    ensures k <= |log|
    ensures forall i :: 0 <= i < k ==> Less(log[i].id, id)
    ensures forall i :: k <= i < |log| ==> !Less(log[i].id, id)
  {
    if log == [] then 0
    else if Less(log[|log| - 1].id, id) then
      (forall i | 0 <= i < |log| - 1 ensures Less(log[i].id, id) {
         LessIsTransitive(log[i].id, log[|log| - 1].id, id);
       }
       |log|)
    else Position(log[..|log| - 1], id)
  }

  /** The log with one message of a new id sorted in. */
  function Insert(log: seq<Message>, msg: Message): (inserted: seq<Message>)
    requires Sorted(log) && msg.id !in IdsIn(log)
    ensures Sorted(inserted)
    ensures forall m :: m in inserted <==> m in log || m == msg
  {
    var k := Position(log, msg.id);
    forall i | k <= i < |log| ensures Less(msg.id, log[i].id) {
      LessIsTotal(msg.id, log[i].id);
      assert log[i].id in IdsIn(log);
    }
    InsertKeepsSorted(log, msg, k);
    log[..k] + [msg] + log[k..]
  }

  lemma InsertKeepsSorted(log: seq<Message>, msg: Message, k: nat)
    requires Sorted(log) && k <= |log|
    requires forall i :: 0 <= i < k ==> Less(log[i].id, msg.id)
    requires forall i :: k <= i < |log| ==> Less(msg.id, log[i].id)
    ensures Sorted(log[..k] + [msg] + log[k..])
    ensures forall m :: m in log[..k] + [msg] + log[k..] <==> m in log || m == msg
  {
    var inserted := log[..k] + [msg] + log[k..];
    assert log == log[..k] + log[k..];
    forall i, j | 0 <= i < j < |inserted| ensures Less(inserted[i].id, inserted[j].id) {
      assert inserted[i] == if i < k then log[i] else if i == k then msg else log[i - 1];
      assert inserted[j] == if j < k then log[j] else if j == k then msg else log[j - 1];
    }
  }

  /** `slices.SortFunc` by id, on a list without duplicate ids. */
  function SortById(log: seq<Message>): (sorted: seq<Message>)
    requires forall i, j :: 0 <= i < j < |log| ==> log[i].id != log[j].id
    ensures Sorted(sorted)
    ensures forall m :: m in sorted <==> m in log
  {
    if log == [] then []
    else
      var last, front := log[|log| - 1], log[..|log| - 1];
      assert log == front + [last];
      var sorted := SortById(front);
      forall i | 0 <= i < |sorted| ensures sorted[i].id != last.id {
        assert sorted[i] in front;
      }
      Insert(sorted, last)
  }

  /** Sorting in one more message adds it to the map and changes no other entry. */
  lemma PutExtendsById(log: seq<Message>, msg: Message, after: seq<Message>)
    requires Sorted(log) && msg.id !in IdsIn(log)
    requires Sorted(after) && forall m :: m in after <==> m in log || m == msg
    ensures ById(after) == ById(log)[msg.id := msg]
  {
    ByIdLooksUp(log);
    ByIdLooksUp(after);
    assert msg in after;
    forall id ensures id in ById(after) <==> id in ById(log)[msg.id := msg] {
    }
    forall id | id in ById(after) ensures ById(after)[id] == ById(log)[msg.id := msg][id] {
    }
  }

  /** Appending a message of a new id and sorting again. */
  lemma {:induction false} AppendAndSort(log: seq<Message>, msg: Message)
    requires Sorted(log) && msg.id !in ById(log)
    ensures forall i, j :: 0 <= i < j <= |log| ==> (log + [msg])[i].id != (log + [msg])[j].id
    ensures var after := SortById(log + [msg]);
            && ById(after) == ById(log)[msg.id := msg]
            && forall m :: m in after <==> m in log || m == msg
  {
    ByIdKeys(log);
    forall i, j | 0 <= i < j <= |log| ensures (log + [msg])[i].id != (log + [msg])[j].id {
      if j < |log| {
        LessIsTotal(log[i].id, log[j].id);
      }
    }
    PutExtendsById(log, msg, SortById(log + [msg]));
  }
}
