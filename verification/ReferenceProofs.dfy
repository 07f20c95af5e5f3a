/** Stored messages only point to earlier messages of their chat that they may point to. */
module ReferenceProofs {
  import opened Ids
  import opened Authorizer
  import opened Server

  /** Chats keep their owner, kind and room number; logs keep their messages. */
  ghost predicate Extends(later: Stores, earlier: Stores)
  {
    && (forall chat :: chat in earlier.rooms.chats ==>
          && chat in later.rooms.chats
          && later.rooms.chats[chat].owner == earlier.rooms.chats[chat].owner
          && later.rooms.chats[chat].kind == earlier.rooms.chats[chat].kind
          && later.rooms.chats[chat].roomNumber == earlier.rooms.chats[chat].roomNumber)
    && (forall chat, id :: id in earlier.Log(chat) ==>
        id in later.Log(chat) && later.Log(chat)[id] == earlier.Log(chat)[id])
    && earlier.registered <= later.registered
    && earlier.fulfilled <= later.fulfilled
  }

  lemma AffectExtends(s: Stores, effect: Effect)
    requires effect.Puts? ==> effect.stored.msg.id !in s.Log(effect.stored.chat)
    requires effect.CreatesChat? ==> effect.md.chatID !in s.rooms.chats
    ensures Extends(Affect(s, effect), s)
  {
  }

  lemma {:induction false} StepExtends(payments: Payments, w: World, step: Step)
    ensures Extends(Next(payments, w, step).stores, w.stores)
  {
    PutsAreNew(payments, w, step);
    ChatsAreNew(payments, w, step);
    AffectExtends(w.stores, Decide(payments, w, step).effect);
  }

  lemma ChatsAreNew(payments: Payments, w: World, step: Step)
    ensures var o := Decide(payments, w, step); o.effect.CreatesChat? ==> o.effect.md.chatID !in w.stores.rooms.chats
  {
  }

  /** Owner, type and room number of a chat never change, messages are never
      changed or removed, and registrations and used intents stay. */
  lemma {:induction false} RunExtends(payments: Payments, w: World, steps: seq<Step>)
    ensures Extends(Run(payments, w, steps).stores, w.stores)
  {
    if steps != [] {
      var front := steps[..|steps| - 1];
      RunExtends(payments, w, front);
      var v := Run(payments, w, front);
      StepExtends(payments, v, steps[|steps| - 1]);
      ExtendsIsTransitive(Next(payments, v, steps[|steps| - 1]).stores, v.stores, w.stores);
    }
  }

  lemma ExtendsIsTransitive(a: Stores, b: Stores, c: Stores)
    requires Extends(a, b) && Extends(b, c)
    ensures Extends(a, c)
  {
  }

  /** The history records exactly what the logs hold. */
  ghost predicate LogsMatchHistory(s: Stores, history: seq<Stored>)
  {
    && (forall k :: 0 <= k < |history| ==> IsLogged(s, history[k]))
    && (forall chat, id :: id in s.Log(chat) ==> IsRecorded(history, |history|, chat, id))
    && (forall j, k :: 0 <= j < k < |history| && history[j].chat == history[k].chat ==>
                         history[j].msg.id != history[k].msg.id)
  }

  predicate IsLogged(s: Stores, stored: Stored)
  {
    stored.msg.id in s.Log(stored.chat) && s.Log(stored.chat)[stored.msg.id] == stored.msg
  }

  ghost predicate IsRecorded(history: seq<Stored>, n: nat, chat: ChatId, id: MessageId)
    requires n <= |history|
  {
    exists k :: 0 <= k < n && history[k].chat == chat && history[k].msg.id == id
  }

  lemma PutKeepsMatching(s: Stores, history: seq<Stored>, stored: Stored)
    requires LogsMatchHistory(s, history)
    requires stored.msg.id !in s.Log(stored.chat)
    ensures LogsMatchHistory(Affect(s, Puts(stored)), history + [stored])
  {
    var t, after, n := Affect(s, Puts(stored)), history + [stored], |history|;
    forall chat, id | id in t.Log(chat) ensures IsRecorded(after, n + 1, chat, id) {
      if chat == stored.chat && id == stored.msg.id {
        assert after[n] == stored;
      } else {
        assert IsRecorded(history, n, chat, id);
        var k :| 0 <= k < n && history[k].chat == chat && history[k].msg.id == id;
        assert after[k] == history[k];
      }
    }
    forall k | 0 <= k < n ensures IsLogged(t, history[k])
        && !(history[k].chat == stored.chat && history[k].msg.id == stored.msg.id) {
      assert IsLogged(s, history[k]);
    }
  }

  lemma PutsAreNew(payments: Payments, w: World, step: Step)
    ensures var o := Decide(payments, w, step);
            o.effect.Puts? ==> o.effect.stored.msg.id !in w.stores.Log(o.effect.stored.chat)
  {
    PutComesFrom(payments, w, step);
  }

  lemma LogsKeepMatching(s: Stores, history: seq<Stored>, effect: Effect)
    requires LogsMatchHistory(s, history)
    requires effect.Puts? ==> effect.stored.msg.id !in s.Log(effect.stored.chat)
    ensures LogsMatchHistory(Affect(s, effect), if effect.Puts? then history + [effect.stored] else history)
  {
    if effect.Puts? {
      PutKeepsMatching(s, history, effect.stored);
    } else {
      SameLogsMatch(s, Affect(s, effect), history);
    }
  }

  lemma SameLogsMatch(s: Stores, t: Stores, history: seq<Stored>)
    requires LogsMatchHistory(s, history) && t.logs == s.logs
    ensures LogsMatchHistory(t, history)
  {
    assert forall chat :: t.Log(chat) == s.Log(chat);
    assert forall k :: 0 <= k < |history| ==> IsLogged(s, history[k]);
  }

  /** The k-th stored message is an announcement of the server's, or has a sender
      and points only to a message it may point to that was stored earlier in
      the same chat. */
  ghost predicate PointsBack(s: Stores, history: seq<Stored>, k: nat)
    requires k < |history|
  {
    var content := history[k].msg.content;
    && !content.Unsupported?
    && (history[k].msg.sender.None? <==> content.Announcement?)
    && (ReferenceOf(content).Some? ==>
          exists j :: 0 <= j < k && IsTarget(s, history, j, k))
  }

  predicate IsTarget(s: Stores, history: seq<Stored>, j: nat, k: nat)
    requires j < |history| && k < |history|
  {
    var m, target := history[k].msg, history[j].msg;
    && history[j].chat == history[k].chat
    && ReferenceOf(m.content) == Some(target.id)
    && m.sender.Some?
    && MayReferTo(m.content, m.sender.value, s.IsOwner(history[k].chat, m.sender.value), target)
  }

  /** An allowed message still points to a fitting message when it is put. */
  ghost predicate AllowedPointsBack(s: Stores, t: Task)
  {
    t.SendAllowed? ==>
      && !t.content.Announcement? && !t.content.Unsupported?
      && t.chat in s.rooms.chats
      && (ReferenceOf(t.content).Some? ==>
            && ReferenceOf(t.content).value in s.Log(t.chat)
            && MayReferTo(t.content, t.user, s.IsOwner(t.chat, t.user), s.Log(t.chat)[ReferenceOf(t.content).value]))
  }

  ghost predicate ReferencesAreValid(w: World)
  {
    && LogsMatchHistory(w.stores, w.history)
    && HistoryPointsBack(w.stores, w.history)
    && TasksPointBack(w.stores, w.tasks)
  }

  lemma AllowedStaysAllowed(earlier: Stores, later: Stores, t: Task)
    requires Extends(later, earlier) && AllowedPointsBack(earlier, t)
    ensures AllowedPointsBack(later, t)
  {
  }

  lemma PointsBackStays(earlier: Stores, later: Stores, history: seq<Stored>, after: seq<Stored>, k: nat)
    requires Extends(later, earlier)
    requires k < |history| && history <= after
    requires history[k].chat in earlier.rooms.chats && PointsBack(earlier, history, k)
    ensures PointsBack(later, after, k)
  {
    if ReferenceOf(history[k].msg.content).Some? {
      var j :| 0 <= j < k && IsTarget(earlier, history, j, k);
      assert IsTarget(later, after, j, k);
    }
  }

  lemma {:induction false} NewTaskIsAllowed(payments: Payments, w: World, step: Step)
    ensures var o := Decide(payments, w, step);
            o.task.Some? ==> AllowedPointsBack(Affect(w.stores, o.effect), o.task.value)
  {
    AllowedComesFrom(payments, w, step);
    if step.SendCheck? {
      AllowedByRules(w.stores, payments, step.chat, step.user, step.content, step.intent);
    }
  }

  ghost predicate TasksPointBack(s: Stores, tasks: map<nat, Task>)
  {
    forall h :: h in tasks ==> AllowedPointsBack(s, tasks[h])
  }

  lemma {:induction false} TasksStayAllowed(s: Stores, later: Stores, tasks: map<nat, Task>, h: nat, task: Option<Task>)
    requires TasksPointBack(s, tasks) && Extends(later, s)
    requires task.Some? ==> AllowedPointsBack(later, task.value)
    ensures TasksPointBack(later, if task.Some? then tasks[h := task.value] else tasks)
  {
    forall g | g in tasks ensures AllowedPointsBack(later, tasks[g]) {
      AllowedStaysAllowed(s, later, tasks[g]);
    }
  }

  lemma AllowedMessagePointsBack(earlier: Stores, later: Stores, history: seq<Stored>, t: Task, stored: Stored)
    requires LogsMatchHistory(earlier, history) && Extends(later, earlier)
    requires t.SendAllowed? && AllowedPointsBack(earlier, t)
    requires stored.chat == t.chat && stored.msg.sender == Some(t.user) && stored.msg.content == t.content
    ensures stored.chat in later.rooms.chats && PointsBack(later, history + [stored], |history|)
  {
    var n, after := |history|, history + [stored];
    var reference := ReferenceOf(t.content);
    if reference.Some? {
      assert IsRecorded(history, n, t.chat, reference.value);
      var j :| 0 <= j < n && history[j].chat == t.chat && history[j].msg.id == reference.value;
      assert IsLogged(earlier, history[j]);
      assert after[j] == history[j];
      assert IsTarget(later, after, j, n);
    }
  }

  lemma {:induction false} NewMessagePointsBack(payments: Payments, w: World, step: Step)
    requires LogsMatchHistory(w.stores, w.history) && TasksPointBack(w.stores, w.tasks)
    requires Decide(payments, w, step).effect.Puts?
    ensures var later, stored := Next(payments, w, step).stores, Decide(payments, w, step).effect.stored;
            stored.chat in later.rooms.chats && PointsBack(later, w.history + [stored], |w.history|)
  {
    var later, stored := Next(payments, w, step).stores, Decide(payments, w, step).effect.stored;
    PutComesFrom(payments, w, step);
    StepExtends(payments, w, step);
    if step.SendPut? {
      assert AllowedPointsBack(w.stores, w.tasks[step.h]);
      AllowedMessagePointsBack(w.stores, later, w.history, w.tasks[step.h], stored);
    } else {
      AnnouncementPointsBack(w.stores, later, w.history, stored);
    }
  }

  lemma {:induction false} AnnouncementPointsBack(earlier: Stores, later: Stores, history: seq<Stored>, stored: Stored)
    requires Extends(later, earlier) && stored.chat in earlier.rooms.chats
    requires stored.msg.sender.None? && stored.msg.content.Announcement?
    ensures stored.chat in later.rooms.chats && PointsBack(later, history + [stored], |history|)
  {
  }

  ghost predicate HistoryPointsBack(s: Stores, history: seq<Stored>)
  {
    forall k :: 0 <= k < |history| ==> history[k].chat in s.rooms.chats && PointsBack(s, history, k)
  }

  lemma {:induction false} HistoryStaysPointingBack(earlier: Stores, later: Stores, history: seq<Stored>,
                                                    after: seq<Stored>)
    requires HistoryPointsBack(earlier, history) && Extends(later, earlier)
    requires history <= after && |after| <= |history| + 1
    requires |after| == |history| + 1 ==>
               after[|history|].chat in later.rooms.chats && PointsBack(later, after, |history|)
    ensures HistoryPointsBack(later, after)
  {
    forall k | 0 <= k < |after| ensures after[k].chat in later.rooms.chats && PointsBack(later, after, k) {
      if k < |history| {
        assert history[k].chat in earlier.rooms.chats && PointsBack(earlier, history, k);
        PointsBackStays(earlier, later, history, after, k);
      }
    }
  }

  lemma {:induction false} ReferencesStayValid(payments: Payments, w: World, step: Step)
    requires ReferencesAreValid(w)
    ensures ReferencesAreValid(Next(payments, w, step))
  {
    var v, o := Next(payments, w, step), Decide(payments, w, step);
    StepExtends(payments, w, step);
    PutsAreNew(payments, w, step);
    LogsKeepMatching(w.stores, w.history, o.effect);
    NewTaskIsAllowed(payments, w, step);
    TasksStayAllowed(w.stores, v.stores, w.tasks, o.h, o.task);
    if o.effect.Puts? {
      NewMessagePointsBack(payments, w, step);
    }
    HistoryStaysPointingBack(w.stores, v.stores, w.history, v.history);
  }

  /** In every reachable state every stored reaction, reply, tip, deletion and
      review points to a message stored earlier in the same chat that it may
      point to: reviews, by the owner, to off-stage text; deletions by the owner
      or the author of the target. */
  lemma {:induction false} ReferencesAlwaysValid(payments: Payments, steps: seq<Step>)
    ensures ReferencesAreValid(Run(payments, INITIAL, steps))
  {
    if steps != [] {
      ReferencesAlwaysValid(payments, steps[..|steps| - 1]);
      ReferencesStayValid(payments, Run(payments, INITIAL, steps[..|steps| - 1]), steps[|steps| - 1]);
    }
  }

  /** Following replies from the k-th message, whichever earlier message with the
      right id one takes, ends at a text message. */
  ghost predicate ChainEndsAtText(history: seq<Stored>, k: nat)
    requires k < |history|
    decreases k
  {
    match history[k].msg.content
    case Text(_) => true
    case Reply(reference, _) =>
      && IsRecorded(history, k, history[k].chat, reference)
      && (forall j :: 0 <= j < k && history[j].chat == history[k].chat && history[j].msg.id == reference ==>
            ChainEndsAtText(history, j))
    case _ => false
  }

  lemma {:induction false} RepliesEndAtText(w: World, k: nat)
    requires ReferencesAreValid(w)
    requires k < |w.history| && (w.history[k].msg.content.Text? || w.history[k].msg.content.Reply?)
    ensures ChainEndsAtText(w.history, k)
    decreases k
  {
    if w.history[k].msg.content.Reply? {
      assert PointsBack(w.stores, w.history, k);
      var j :| 0 <= j < k && IsTarget(w.stores, w.history, j, k);
      var reference := w.history[k].msg.content.reference;
      forall i | 0 <= i < k && w.history[i].chat == w.history[k].chat && w.history[i].msg.id == reference
        ensures ChainEndsAtText(w.history, i)
      {
        assert i == j;
        RepliesEndAtText(w, j);
      }
    }
  }

  /** Every reply in every reachable state answers, through a finite chain of
      replies, a text message of its chat. */
  lemma EveryReplyAnswersAText(payments: Payments, steps: seq<Step>, k: nat)
    requires var history := Run(payments, INITIAL, steps).history; k < |history| && history[k].msg.content.Reply?
    ensures ChainEndsAtText(Run(payments, INITIAL, steps).history, k)
  {
    ReferencesAlwaysValid(payments, steps);
    RepliesEndAtText(Run(payments, INITIAL, steps), k);
  }
}
