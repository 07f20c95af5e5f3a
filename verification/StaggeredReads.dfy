/** The check of a message to send, with each store read at a moment of its own.

    Runs are those of the server in which the stores may also be read one after the
    other, with any steps of other requests in between. */
module StaggeredReads {
  import opened Ids
  import opened Messages
  import opened Rooms
  import opened Authorizer
  import opened Server
  import opened PaymentProofs
  import opened ReferenceProofs
  import opened MembershipProofs

  /** When a check read each store: after so many events of the run. */
  datatype Moments = Moments(chats: nat, registered: nat, members: nat, logs: nat, intents: nat)

  datatype Event =
    | Plain(step: Step)
    | Check(h: nat, chat: ChatId, user: UserId, content: Content, intent: Option<IntentId>, read: Moments)

  predicate AreOver(read: Moments, n: nat)
  {
    read.chats <= n && read.registered <= n && read.members <= n && read.logs <= n && read.intents <= n
  }

  function After(payments: Payments, events: seq<Event>): World
    decreases |events|, 0
  {
    if events == [] then INITIAL
    else NextAfter(payments, events[..|events| - 1], events[|events| - 1])
  }

  function NextAfter(payments: Payments, past: seq<Event>, e: Event): World
    decreases |past|, 2
  {
    var w := After(payments, past);
    match e
    case Plain(step) => Next(payments, w, step)
    case Check(h, chat, user, content, intent, read) =>
      if h in w.tasks || !AreOver(read, |past|) then w
      else
        var seen := Seen(payments, past, read);
        w.(tasks := w.tasks[h :=
             if CanSendMessage(seen, payments, chat, user, content, intent) != Allow then Answered(Denied, intent)
             else SendAllowed(chat, user, content, intent, NeedsPayment(seen, chat, user, content))])
  }

  /** The stores as the check saw them, each at its moment. */
  function Seen(payments: Payments, past: seq<Event>, read: Moments): Stores
    requires AreOver(read, |past|)
    decreases |past|, 1
  {
    Stores(
      View(After(payments, past[..read.chats]).stores.rooms.chats,
           After(payments, past[..read.members]).stores.rooms.members, 0),
      After(payments, past[..read.registered]).stores.registered,
      After(payments, past[..read.logs]).stores.logs,
      After(payments, past[..read.intents]).stores.fulfilled)
  }

  lemma {:induction false} AfterOneMore(payments: Payments, events: seq<Event>, e: Event)
    ensures After(payments, events + [e]) == NextAfter(payments, events, e)
  {
    assert (events + [e])[..|events|] == events;
  }

  /** What holds at first and is kept by every event holds after every run. */
  lemma {:induction false} EventByEvent(P: seq<Event> -> bool, events: seq<Event>)
    requires P([]) && forall front, last :: P(front) ==> P(front + [last])
    ensures P(events)
  {
    if events != [] {
      EventByEvent(P, events[..|events| - 1]);
      assert events == events[..|events| - 1] + [events[|events| - 1]];
    }
  }

  // ----- One answer per payment -----

  lemma {:induction false} MarksStayUniqueAfter(payments: Payments, events: seq<Event>, e: Event)
    requires MarksAreUnique(After(payments, events))
    ensures MarksAreUnique(After(payments, events + [e]))
  {
    AfterOneMore(payments, events, e);
    if e.Plain? {
      MarksStayUnique(payments, After(payments, events), e.step);
    }
  }

  /** However the reads of checks are spread, no two requests with one payment are
      answered OK. */
  lemma {:induction false} AtMostOneOkStaggered(payments: Payments, events: seq<Event>, g: nat, h: nat)
    ensures var w := After(payments, events);
            g in w.tasks && IsOk(w.tasks[g]) && w.tasks[g].intent.Some? ==>
              && w.tasks[g].intent.value in w.stores.fulfilled
              && (h in w.tasks && g != h && IsOk(w.tasks[h]) ==> w.tasks[g].intent != w.tasks[h].intent)
  {
    var P := (s: seq<Event>) => MarksAreUnique(After(payments, s));
    forall front, last | P(front) ensures P(front + [last]) {
      MarksStayUniqueAfter(payments, front, last);
    }
    EventByEvent(P, events);
  }

  // ----- What was read stays true -----

  lemma {:induction false} EventExtends(payments: Payments, events: seq<Event>, e: Event)
    ensures Extends(After(payments, events + [e]).stores, After(payments, events).stores)
  {
    AfterOneMore(payments, events, e);
    if e.Plain? {
      StepExtends(payments, After(payments, events), e.step);
    }
  }

  lemma {:induction false} ExtendsSince(payments: Payments, events: seq<Event>, n: nat)
    requires n <= |events|
    ensures Extends(After(payments, events).stores, After(payments, events[..n]).stores)
  {
    if n == |events| {
      assert events[..n] == events;
    } else {
      var front, last := events[..|events| - 1], events[|events| - 1];
      ExtendsSince(payments, front, n);
      assert front[..n] == events[..n] && events == front + [last];
      EventExtends(payments, front, last);
      ExtendsIsTransitive(After(payments, events).stores, After(payments, front).stores,
                          After(payments, events[..n]).stores);
    }
  }

  /** A message let through by what was seen then points to a fitting message now:
      owners do not change and messages stay. */
  lemma {:induction false} SeenStaysTrue(payments: Payments, past: seq<Event>, e: Event, t: Task)
    requires e.Check? && AreOver(e.read, |past|)
    requires var seen := Seen(payments, past, e.read);
             CanSendMessage(seen, payments, e.chat, e.user, e.content, e.intent) == Allow
    requires t.SendAllowed? && t.chat == e.chat && t.user == e.user && t.content == e.content
    ensures AllowedPointsBack(After(payments, past).stores, t)
  {
    var seen := Seen(payments, past, e.read);
    AllowedByRules(seen, payments, e.chat, e.user, e.content, e.intent);
    ExtendsSince(payments, past, e.read.chats);
    ExtendsSince(payments, past, e.read.logs);
    assert seen.Log(e.chat) == After(payments, past[..e.read.logs]).stores.Log(e.chat);
  }

  lemma {:induction false} ReferencesStayValidAfter(payments: Payments, events: seq<Event>, e: Event)
    requires ReferencesAreValid(After(payments, events))
    ensures ReferencesAreValid(After(payments, events + [e]))
  {
    var w := After(payments, events);
    AfterOneMore(payments, events, e);
    if e.Plain? {
      ReferencesStayValid(payments, w, e.step);
    } else if e.h !in w.tasks && AreOver(e.read, |events|) {
      var v := After(payments, events + [e]);
      if v.tasks[e.h].SendAllowed? {
        SeenStaysTrue(payments, events, e, v.tasks[e.h]);
      }
    }
  }

  /** However the reads of checks are spread, every stored reference is valid, and
      every chain of replies ends at a text message. */
  lemma {:induction false} ReferencesValidStaggered(payments: Payments, events: seq<Event>)
    ensures ReferencesAreValid(After(payments, events))
    ensures var history := After(payments, events).history;
            forall k :: 0 <= k < |history| && history[k].msg.content.Reply? ==> ChainEndsAtText(history, k)
  {
    var P := (s: seq<Event>) => ReferencesAreValid(After(payments, s));
    assert P([]) by {
      ReferencesAlwaysValid(payments, []);
    }
    forall front, last | P(front) ensures P(front + [last]) {
      ReferencesStayValidAfter(payments, front, last);
    }
    EventByEvent(P, events);
    var w := After(payments, events);
    forall k | 0 <= k < |w.history| && w.history[k].msg.content.Reply? ensures ChainEndsAtText(w.history, k) {
      RepliesEndAtText(w, k);
    }
  }

  // ----- Mutes -----

  lemma {:induction false} SoundAfter(payments: Payments, events: seq<Event>)
    ensures MembershipIsSound(After(payments, events))
  {
    var P := (s: seq<Event>) => MembershipIsSound(After(payments, s));
    assert P([]) by {
      MembershipAlwaysSound(payments, []);
    }
    forall front, last | P(front) ensures P(front + [last]) {
      StaysSoundAfter(payments, front, last);
    }
    EventByEvent(P, events);
  }

  lemma {:induction false} StaysSoundAfter(payments: Payments, events: seq<Event>, e: Event)
    requires MembershipIsSound(After(payments, events))
    ensures MembershipIsSound(After(payments, events + [e]))
  {
    AfterOneMore(payments, events, e);
    if e.Plain? {
      MembershipStaysSound(payments, After(payments, events), e.step);
    }
  }

  /** The event is no check of this user's in this chat that read the members before the n-th event. */
  predicate ReadsSince(e: Event, chat: ChatId, user: UserId, n: nat)
  {
    e.Check? && e.chat == chat && e.user == user ==> e.read.members >= n
  }

  /** Since some moment the user has been muted in the chat, and nothing of theirs was let through. */
  ghost predicate IsSilencedSince(payments: Payments, events: seq<Event>, n: nat, chat: ChatId, user: UserId)
    requires n <= |events|
  {
    && (forall k :: n <= k <= |events| ==> IsMuted(After(payments, events[..k]).stores, chat, user))
    && !IsAboutToSend(After(payments, events), chat, user)
    && NothingNewBy(After(payments, events), After(payments, events[..n]), chat, user)
  }

  lemma {:induction false} MutedCheckIsDenied(payments: Payments, past: seq<Event>, e: Event, n: nat, chat: ChatId,
                                              user: UserId)
    requires n <= |past| && IsSilencedSince(payments, past, n, chat, user)
    requires e.Check? && ReadsSince(e, chat, user, n)
    ensures var w := NextAfter(payments, past, e);
            w.stores == After(payments, past).stores && w.history == After(payments, past).history
                && !IsAboutToSend(w, chat, user)
  {
    if e.chat == chat && e.user == user && AreOver(e.read, |past|) {
      assert IsMuted(After(payments, past[..e.read.members]).stores, chat, user);
      AllowedByRules(Seen(payments, past, e.read), payments, e.chat, e.user, e.content, e.intent);
    }
  }

  lemma {:induction false} StaysSilenced(payments: Payments, events: seq<Event>, e: Event, n: nat, chat: ChatId,
                                         user: UserId)
    requires n <= |events| && IsSilencedSince(payments, events, n, chat, user) && ReadsSince(e, chat, user, n)
    ensures IsSilencedSince(payments, events + [e], n, chat, user)
  {
    var w, all := After(payments, events), events + [e];
    AfterOneMore(payments, events, e);
    SoundAfter(payments, events);
    assert events[..|events|] == events;
    if e.Plain? {
      MutedStepIsSilent(payments, w, e.step, chat, user);
    } else {
      MutedCheckIsDenied(payments, events, e, n, chat, user);
    }
    forall k | n <= k <= |all| ensures IsMuted(After(payments, all[..k]).stores, chat, user) {
      if k <= |events| {
        assert all[..k] == events[..k];
      } else {
        assert all[..k] == all;
      }
    }
    assert all[..n] == events[..n];
  }

  /** Once a user is muted and none of their messages is past its checks, no check that
      reads the members later lets one through, and none is stored, however the other
      reads are spread. */
  lemma {:induction false} MuteSilencesStaggered(payments: Payments, before: seq<Event>, after: seq<Event>,
                                                 chat: ChatId, user: UserId)
    requires IsMuted(After(payments, before).stores, chat, user) && !IsAboutToSend(After(payments, before), chat, user)
    requires forall i :: 0 <= i < |after| ==> ReadsSince(after[i], chat, user, |before|)
    ensures NothingNewBy(After(payments, before + after), After(payments, before), chat, user)
  {
    SilencedInRun(payments, before, after, chat, user);
    assert (before + after)[..|before|] == before;
  }

  lemma {:induction false} SilencedInRun(payments: Payments, before: seq<Event>, after: seq<Event>, chat: ChatId,
                                         user: UserId)
    requires IsMuted(After(payments, before).stores, chat, user) && !IsAboutToSend(After(payments, before), chat, user)
    requires forall i :: 0 <= i < |after| ==> ReadsSince(after[i], chat, user, |before|)
    ensures IsSilencedSince(payments, before + after, |before|, chat, user)
  {
    if after == [] {
      assert before + after == before && before[..|before|] == before;
    } else {
      var front, last := after[..|after| - 1], after[|after| - 1];
      SilencedInRun(payments, before, front, chat, user);
      StaysSilenced(payments, before + front, last, |before|, chat, user);
      assert before + after == before + front + [last];
    }
  }
}
