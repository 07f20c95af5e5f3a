/** The in-memory activity feeds, which add up repeated tips. */
module ActivityStore {
  import opened Ids
  import opened NotificationIds

  const TWO_TO_64 := 0x1_0000_0000_0000_0000

  datatype Metadata =
    | WelcomeBonus(quarks: nat)
    | WeeklyBonus(quarks: nat)
    | CreateGroup(chat: ChatId, quarks: nat)
    | SendListenerMessage(chat: ChatId, message: MessageId, quarks: nat)
    | SendTip(chat: ChatId, message: MessageId, quarks: nat)
    | ReceivedTip(chat: ChatId, message: MessageId, quarks: nat)
    | PromotedToSpeaker(chat: ChatId, promoter: UserId)

  datatype Notification = Notification(id: NotificationId, ts: int, metadata: Metadata)

  datatype FeedType = TransactionHistory | OtherFeed

  datatype Result<+T> = Ok(value: T) | InvalidFeedType | InvalidNotificationType

  function KindOf(m: Metadata): nat
  {
    match m
    case WelcomeBonus(_) => WELCOME_BONUS
    case WeeklyBonus(_) => WEEKLY_BONUS
    case CreateGroup(_, _) => CREATE_GROUP
    case SendListenerMessage(_, _, _) => SEND_LISTENER_MESSAGE
    case SendTip(_, _, _) => SEND_TIP
    case ReceivedTip(_, _, _) => RECEIVED_TIP
    case PromotedToSpeaker(_, _) => PROMOTED_TO_SPEAKER
  }

  /** The id starts with the notification's own type, as the builders make it. */
  predicate IdFits(n: Notification)
  {
    |n.id| >= 4 && n.id[..4] == LittleEndian32(KindOf(n.metadata))
  }

  /** Tips with the id of an earlier one are added to it, in 64 bits. */
  function Merged(existing: Notification, n: Notification): Notification
  {
    match (existing.metadata, n.metadata)
    case (SendTip(chat, message, total), SendTip(_, _, quarks)) =>
      existing.(metadata := SendTip(chat, message, (total + quarks) % TWO_TO_64))
    case (ReceivedTip(chat, message, total), ReceivedTip(_, _, quarks)) =>
      existing.(metadata := ReceivedTip(chat, message, (total + quarks) % TWO_TO_64))
    case _ => existing
  }

  /** The feed after saving: one entry per id. */
  function Saved(feed: seq<Notification>, n: Notification): seq<Notification>
  {
    if feed == [] then [n]
    else if feed[0].id == n.id then [Merged(feed[0], n)] + feed[1..]
    else [feed[0]] + Saved(feed[1..], n)
  }

  predicate FeedFits(feed: seq<Notification>)
  {
    && (forall i :: 0 <= i < |feed| ==> IdFits(feed[i]))
    && (forall i, j :: 0 <= i < j < |feed| ==> feed[i].id != feed[j].id)
  }

  /** Two notifications with one id are of one type. */
  lemma SameIdSameKind(m: Notification, n: Notification)
    requires IdFits(m) && IdFits(n) && m.id == n.id
    ensures KindOf(m.metadata) == KindOf(n.metadata)
  {
    LittleEndian32IsInjective(KindOf(m.metadata), KindOf(n.metadata));
  }

  function FeedIds(feed: seq<Notification>): set<NotificationId>
  {
    set i | 0 <= i < |feed| :: feed[i].id
  }

  lemma IdsOfTail(feed: seq<Notification>)
    requires feed != []
    ensures FeedIds(feed) == {feed[0].id} + FeedIds(feed[1..])
  {
    forall id | id in FeedIds(feed[1..]) ensures id in FeedIds(feed) {
      var i :| 0 <= i < |feed| - 1 && feed[1..][i].id == id;
      assert feed[i + 1].id == id;
    }
    forall id | id in FeedIds(feed) && id != feed[0].id ensures id in FeedIds(feed[1..]) {
      var i :| 0 <= i < |feed| && feed[i].id == id;
      assert feed[1..][i - 1].id == id;
    }
  }

  /** Putting a new notification in front of a feed. */
  lemma FitsInFront(first: Notification, rest: seq<Notification>)
    requires IdFits(first) && FeedFits(rest) && first.id !in FeedIds(rest)
    ensures FeedFits([first] + rest)
  {
    assert forall i :: 0 <= i < |rest| ==> rest[i].id in FeedIds(rest);
  }

  lemma HeadIsNotInTail(feed: seq<Notification>)
    requires FeedFits(feed) && feed != []
    ensures FeedFits(feed[1..]) && feed[0].id !in FeedIds(feed[1..])
  {
    forall i | 0 <= i < |feed| - 1 ensures feed[1..][i].id != feed[0].id {
      assert feed[1..][i] == feed[i + 1];
    }
  }

  lemma {:induction false} SavedKeepsIds(feed: seq<Notification>, n: Notification)
    requires FeedFits(feed) && IdFits(n)
    ensures FeedFits(Saved(feed, n))
    ensures FeedIds(Saved(feed, n)) <= FeedIds(feed) + {n.id}
  {
    if feed != [] {
      HeadIsNotInTail(feed);
      IdsOfTail(feed);
      var first, rest := if feed[0].id == n.id then Merged(feed[0], n) else feed[0],
          if feed[0].id == n.id then feed[1..] else Saved(feed[1..], n);
      if feed[0].id != n.id {
        SavedKeepsIds(feed[1..], n);
      }
      FitsInFront(first, rest);
      assert ([first] + rest)[1..] == rest;
      IdsOfTail([first] + rest);
    }
  }

  lemma {:induction false} SavedAt(feed: seq<Notification>, n: Notification, i: nat)
    requires i < |feed| && feed[i].id == n.id
    requires forall j :: 0 <= j < i ==> feed[j].id != n.id
    ensures Saved(feed, n) == feed[i := Merged(feed[i], n)]
  {
    if i > 0 {
      SavedAt(feed[1..], n, i - 1);
    }
  }

  lemma {:induction false} SavedNew(feed: seq<Notification>, n: Notification)
    requires forall i :: 0 <= i < |feed| ==> feed[i].id != n.id
    ensures Saved(feed, n) == feed + [n]
  {
    if feed != [] {
      SavedNew(feed[1..], n);
    }
  }

  /** The notification found under the id of a new one, after it: a tip of the same kind is
      added to the total modulo 2^64, and everything else stays. */
  ghost predicate IsRepeated(found: Notification, n: Notification, after: Notification)
  {
    && after.id == found.id && after.ts == found.ts
    && match found.metadata {
         case SendTip(chat, message, total) =>
           if n.metadata.SendTip?
           then after.metadata == SendTip(chat, message, (total + n.metadata.quarks) % 0x1_0000_0000_0000_0000)
           else after.metadata == found.metadata
         case ReceivedTip(chat, message, total) =>
           if n.metadata.ReceivedTip?
           then after.metadata == ReceivedTip(chat, message, (total + n.metadata.quarks) % 0x1_0000_0000_0000_0000)
           else after.metadata == found.metadata
         case _ => after.metadata == found.metadata
       }
  }

  /** A notification with a new id comes last; one whose id is there is merged in its
      place; no other notification changes. */
  ghost predicate IsSaved(feed: seq<Notification>, n: Notification, after: seq<Notification>)
  {
    if exists i :: 0 <= i < |feed| && feed[i].id == n.id then
      && |after| == |feed|
      && forall i :: 0 <= i < |feed| ==>
           if feed[i].id == n.id then IsRepeated(feed[i], n, after[i]) else after[i] == feed[i]
    else after == feed + [n]
  }

  lemma {:induction false} SavedMeans(feed: seq<Notification>, n: Notification)
    requires FeedFits(feed)
    ensures IsSaved(feed, n, Saved(feed, n))
  {
    if i :| 0 <= i < |feed| && feed[i].id == n.id {
      SavedAt(feed, n, i);
    } else {
      SavedNew(feed, n);
    }
  }

  predicate NewestFirst(feed: seq<Notification>)
  {
    forall i, j :: 0 <= i < j < |feed| ==> feed[i].ts >= feed[j].ts
  }

  /** How many notifications are at least as new. */
  function Newer(sorted: seq<Notification>, ts: int): (k: nat)
    requires NewestFirst(sorted)
    ensures k <= |sorted|
    ensures forall i :: 0 <= i < k ==> sorted[i].ts >= ts
    ensures forall i :: k <= i < |sorted| ==> sorted[i].ts < ts
  {
    if sorted == [] then 0
    else if sorted[|sorted| - 1].ts >= ts then |sorted|
    else Newer(sorted[..|sorted| - 1], ts)
  }

  function PlaceNewest(sorted: seq<Notification>, n: Notification): (after: seq<Notification>)
    requires NewestFirst(sorted)
    ensures NewestFirst(after) && multiset(after) == multiset(sorted) + multiset{n}
  {
    var k := Newer(sorted, n.ts);
    assert sorted == sorted[..k] + sorted[k..];
    sorted[..k] + [n] + sorted[k..]
  }

  function SortNewestFirst(feed: seq<Notification>): (sorted: seq<Notification>)
    ensures NewestFirst(sorted) && multiset(sorted) == multiset(feed)
  {
    if feed == [] then []
    else
      assert feed == feed[..|feed| - 1] + [feed[|feed| - 1]];
      PlaceNewest(SortNewestFirst(feed[..|feed| - 1]), feed[|feed| - 1])
  }

  lemma PrefixIsNewest(sorted: seq<Notification>, limit: nat)
    requires NewestFirst(sorted) && limit < |sorted|
    ensures NewestFirst(sorted[..limit]) && multiset(sorted[..limit]) <= multiset(sorted)
    ensures forall m, n :: m in multiset(sorted) - multiset(sorted[..limit]) && n in sorted[..limit] ==> m.ts <= n.ts
  {
    var front, rest := sorted[..limit], sorted[limit..];
    assert sorted == front + rest;
    assert multiset(sorted) - multiset(front) == multiset(rest);
    forall m: Notification, n: Notification | m in multiset(rest) && n in front ensures m.ts <= n.ts {
      RestIsOlder(sorted, limit, m, n);
    }
  }

  lemma RestIsOlder(sorted: seq<Notification>, limit: nat, m: Notification, n: Notification)
    requires NewestFirst(sorted) && limit < |sorted|
    requires m in sorted[limit..] && n in sorted[..limit]
    ensures m.ts <= n.ts
  {
    var i :| limit <= i < |sorted| && sorted[i] == m;
    var j :| 0 <= j < limit && sorted[j] == n;
  }

  class InMemoryStore {
    var notifications: map<UserId, seq<Notification>>

    function Feed(user: UserId): seq<Notification>
      reads this
    {
      if user in notifications then notifications[user] else []
    }

    ghost predicate Valid()
      reads this
    {
      forall user :: user in notifications ==> FeedFits(notifications[user])
    }

    constructor ()
      ensures Valid() && notifications == map[]
    {
      notifications := map[];
    }

    method SaveNotification(feedType: FeedType, user: UserId, n: Notification) returns (r: Result<Notification>)
      requires Valid() && IdFits(n)
      modifies this
      ensures Valid()
      ensures feedType.OtherFeed? <==> r.InvalidFeedType?
      ensures feedType.TransactionHistory? ==> (n.metadata.PromotedToSpeaker? <==> r.InvalidNotificationType?)
      ensures !r.Ok? ==> notifications == old(notifications)
      ensures r.Ok? ==> notifications == old(notifications)[user := Saved(old(Feed(user)), n)]
                        && r.value in Feed(user) && r.value.id == n.id
      ensures r.Ok? ==> IsSaved(old(Feed(user)), n, Feed(user))
    {
      if !feedType.TransactionHistory? {
        return InvalidFeedType;
      }
      var feed := Feed(user);
      var i := 0;
      while i < |feed| && feed[i].id != n.id
        invariant i <= |feed|
        invariant forall j :: 0 <= j < i ==> feed[j].id != n.id
      {
        i := i + 1;
      }
      if n.metadata.PromotedToSpeaker? {
        return InvalidNotificationType;
      }
      SavedKeepsIds(feed, n);
      SavedMeans(feed, n);
      if i < |feed| {
        SavedAt(feed, n, i);
        var existing := AddTo(feed[i], n);
        feed := feed[i := existing];
        notifications := notifications[user := feed];
        assert Feed(user)[i] == existing;
        return Ok(existing);
      }
      SavedNew(feed, n);
      feed := feed + [n];
      notifications := notifications[user := feed];
      assert Feed(user)[|feed| - 1] == n;
      return Ok(n);
    }

    /** The existing notification with a repeated tip added; others stay as they are. */
    method AddTo(found: Notification, n: Notification) returns (existing: Notification)
      requires IdFits(found) && IdFits(n) && found.id == n.id
      ensures existing == Merged(found, n)
    {
      SameIdSameKind(found, n);
      existing := found;
      match n.metadata {
        case SendTip(_, _, quarks) =>
          var tip := existing.metadata;
          existing := existing.(metadata := SendTip(tip.chat, tip.message, (tip.quarks + quarks) % TWO_TO_64));
        case ReceivedTip(_, _, quarks) =>
          var tip := existing.metadata;
          existing := existing.(metadata := ReceivedTip(tip.chat, tip.message, (tip.quarks + quarks) % TWO_TO_64));
        case _ =>
      }
    }

    /** The newest notifications; the order among equal times is left open. */
    method GetLatestNotifications(feedType: FeedType, user: UserId, limit: nat) returns (r: Result<seq<Notification>>)
      ensures feedType.OtherFeed? <==> r.InvalidFeedType?
      ensures feedType.TransactionHistory? ==>
                && r.Ok? && NewestFirst(r.value)
                && |r.value| == (if |Feed(user)| > limit then limit else |Feed(user)|)
                && multiset(r.value) <= multiset(Feed(user))
                && (forall m, n :: m in multiset(Feed(user)) - multiset(r.value) && n in r.value ==> m.ts <= n.ts)
    {
      if !feedType.TransactionHistory? {
        return InvalidFeedType;
      }
      var sorted := SortNewestFirst(Feed(user));
      assert |sorted| == |multiset(sorted)| == |Feed(user)|;
      if |sorted| > limit {
        PrefixIsNewest(sorted, limit);
        sorted := sorted[..limit];
      }
      return Ok(sorted);
    }
  }
}
