/** Tips as they add up in the activity feeds of senders and receivers. */
module TipLedger {
  import opened Ids
  import opened Server
  import opened NotificationIds
  import opened ActivityStore

  type Feeds = map<UserId, seq<Notification>>

  function FeedOf(feeds: Feeds, user: UserId): seq<Notification>
  {
    if user in feeds then feeds[user] else []
  }

  /** Notification times play no part in the totals and are left at zero. */
  function SentNote(t: AcceptedTip): Notification
  {
    Notification(Preimage(SEND_TIP, t.tipper, [t.chat, t.message]), 0, SendTip(t.chat, t.message, t.quarks))
  }

  function ReceivedNote(t: AcceptedTip): Notification
  {
    Notification(Preimage(RECEIVED_TIP, t.author, [t.chat, t.message]), 0, ReceivedTip(t.chat, t.message, t.quarks))
  }

  function Post(feeds: Feeds, user: UserId, n: Notification): Feeds
  {
    feeds[user := Saved(FeedOf(feeds, user), n)]
  }

  /** The feeds after notifying about every accepted tip, in order. */
  function Ledger(tips: seq<AcceptedTip>): Feeds
  {
    if tips == [] then map[]
    else
      var last := tips[|tips| - 1];
      Post(Post(Ledger(tips[..|tips| - 1]), last.tipper, SentNote(last)), last.author, ReceivedNote(last))
  }

  function SumOfTips(tips: seq<AcceptedTip>): nat
  {
    if tips == [] then 0 else SumOfTips(tips[..|tips| - 1]) + tips[|tips| - 1].quarks
  }

  /** What the notification counts towards the total of one kind of tip. */
  function Amount(n: Notification, kind: nat): nat
  {
    if n.metadata.SendTip? && kind == SEND_TIP then n.metadata.quarks
    else if n.metadata.ReceivedTip? && kind == RECEIVED_TIP then n.metadata.quarks
    else 0
  }

  function TotalIn(feed: seq<Notification>, kind: nat): nat
  {
    if feed == [] then 0 else Amount(feed[0], kind) + TotalIn(feed[1..], kind)
  }

  ghost function TotalOver(feeds: Feeds, users: set<UserId>, kind: nat): nat
  {
    if users == {} then 0
    else
      var user :| user in users;
      TotalIn(FeedOf(feeds, user), kind) + TotalOver(feeds, users - {user}, kind)
  }

  lemma {:induction false} TotalOverWithout(feeds: Feeds, users: set<UserId>, user: UserId, kind: nat)
    requires user in users
    ensures TotalOver(feeds, users, kind) == TotalIn(FeedOf(feeds, user), kind) + TotalOver(feeds, users - {user}, kind)
  {
    var first :| first in users
      && TotalOver(feeds, users, kind) == TotalIn(FeedOf(feeds, first), kind) + TotalOver(feeds, users - {first}, kind);
    if first != user {
      TotalOverWithout(feeds, users - {first}, user, kind);
      TotalOverWithout(feeds, users - {user}, first, kind);
      assert users - {first} - {user} == users - {user} - {first};
    }
  }

  lemma {:induction false} TotalOverSame(feeds: Feeds, after: Feeds, users: set<UserId>, kind: nat)
    requires forall user :: user in users ==> FeedOf(feeds, user) == FeedOf(after, user)
    ensures TotalOver(feeds, users, kind) == TotalOver(after, users, kind)
  {
    if users != {} {
      var user :| user in users;
      TotalOverWithout(feeds, users, user, kind);
      TotalOverWithout(after, users, user, kind);
      TotalOverSame(feeds, after, users - {user}, kind);
    }
  }

  ghost function TotalOfAll(feeds: Feeds, kind: nat): nat
  {
    TotalOver(feeds, feeds.Keys, kind)
  }

  predicate IsTipNote(n: Notification)
  {
    IdFits(n) && (n.metadata.SendTip? || n.metadata.ReceivedTip?)
  }

  lemma MergedAmount(existing: Notification, n: Notification, kind: nat)
    requires IdFits(existing) && IsTipNote(n) && existing.id == n.id
    ensures IsTipNote(Merged(existing, n))
    ensures Amount(Merged(existing, n), kind) ==
            if kind == KindOf(n.metadata) then (Amount(existing, kind) + n.metadata.quarks) % TWO_TO_64 else 0
    ensures kind != KindOf(n.metadata) ==> Amount(existing, kind) == 0
    ensures KindOf(Merged(existing, n).metadata) == KindOf(existing.metadata) == KindOf(n.metadata)
  {
    SameIdSameKind(existing, n);
  }

  /** Saving a tip raises its kind's total by its amount, if 64 bits hold it. */
  lemma {:induction false} SavingAddsAmount(feed: seq<Notification>, n: Notification, kind: nat)
    requires FeedFits(feed) && IsTipNote(n)
    requires TotalIn(feed, KindOf(n.metadata)) + n.metadata.quarks < TWO_TO_64
    ensures TotalIn(Saved(feed, n), kind) == TotalIn(feed, kind) + Amount(n, kind)
  {
    if feed != [] {
      if feed[0].id == n.id {
        MergedAmount(feed[0], n, kind);
        assert Saved(feed, n)[1..] == feed[1..];
      } else {
        SavingAddsAmount(feed[1..], n, kind);
        assert Saved(feed, n)[1..] == Saved(feed[1..], n);
      }
    }
  }

  ghost predicate FeedsFit(feeds: Feeds)
  {
    forall user :: user in feeds ==> FeedFits(feeds[user])
  }

  lemma NotesAreTipNotes(t: AcceptedTip)
    ensures IsTipNote(SentNote(t)) && IsTipNote(ReceivedNote(t))
  {
  }

  lemma PostAddsAmount(feeds: Feeds, user: UserId, n: Notification, kind: nat)
    requires FeedsFit(feeds) && IsTipNote(n)
    requires TotalOfAll(feeds, KindOf(n.metadata)) + n.metadata.quarks < TWO_TO_64
    ensures FeedsFit(Post(feeds, user, n))
    ensures TotalOfAll(Post(feeds, user, n), kind) == TotalOfAll(feeds, kind) + Amount(n, kind)
  {
    var after := Post(feeds, user, n);
    var feed := FeedOf(feeds, user);
    var others := feeds.Keys - {user};
    SavedKeepsIds(feed, n);
    TotalOverWithout(after, after.Keys, user, kind);
    assert after.Keys - {user} == others;
    TotalOverSame(feeds, after, others, kind);
    if user in feeds {
      TotalOverWithout(feeds, feeds.Keys, user, kind);
      TotalOverWithout(feeds, feeds.Keys, user, KindOf(n.metadata));
    } else {
      assert feeds.Keys == others;
    }
    SavingAddsAmount(feed, n, kind);
  }

  /** While the tips together fit into 64 bits, what all users sent, what all
      users received, and the tips themselves come to the same sum. */
  lemma {:induction false} TipsAreConserved(tips: seq<AcceptedTip>)
    requires SumOfTips(tips) < TWO_TO_64
    ensures FeedsFit(Ledger(tips))
    ensures TotalOfAll(Ledger(tips), SEND_TIP) == SumOfTips(tips)
    ensures TotalOfAll(Ledger(tips), RECEIVED_TIP) == SumOfTips(tips)
  {
    if tips != [] {
      var front, last := tips[..|tips| - 1], tips[|tips| - 1];
      TipsAreConserved(front);
      NotesAreTipNotes(last);
      var sent := Post(Ledger(front), last.tipper, SentNote(last));
      PostAddsAmount(Ledger(front), last.tipper, SentNote(last), SEND_TIP);
      PostAddsAmount(Ledger(front), last.tipper, SentNote(last), RECEIVED_TIP);
      PostAddsAmount(sent, last.author, ReceivedNote(last), SEND_TIP);
      PostAddsAmount(sent, last.author, ReceivedNote(last), RECEIVED_TIP);
    }
  }

  /** The total kept under one id, or nothing. */
  function EntryOf(feed: seq<Notification>, id: NotificationId): nat
  {
    if feed == [] then 0
    else if feed[0].id == id then Amount(feed[0], KindOf(feed[0].metadata))
    else EntryOf(feed[1..], id)
  }

  lemma {:induction false} SavingAddsToEntry(feed: seq<Notification>, n: Notification, id: NotificationId)
    requires FeedFits(feed) && IsTipNote(n) && n.metadata.quarks < TWO_TO_64
    ensures EntryOf(Saved(feed, n), id) ==
            if n.id == id then (EntryOf(feed, id) + n.metadata.quarks) % TWO_TO_64 else EntryOf(feed, id)
  {
    if feed != [] {
      if feed[0].id == n.id {
        MergedAmount(feed[0], n, KindOf(n.metadata));
        assert Saved(feed, n)[1..] == feed[1..];
      } else {
        SavingAddsToEntry(feed[1..], n, id);
        assert Saved(feed, n)[1..] == Saved(feed[1..], n);
      }
    }
  }

  /** Whose feed a tip's notification of this kind goes to. */
  function Party(t: AcceptedTip, kind: nat): UserId
  {
    if kind == SEND_TIP then t.tipper else t.author
  }

  predicate IsOn(t: AcceptedTip, kind: nat, user: UserId, chat: ChatId, message: MessageId)
  {
    Party(t, kind) == user && t.chat == chat && t.message == message
  }

  /** All that one user sent to, or received on, one message. */
  function SumOn(tips: seq<AcceptedTip>, kind: nat, user: UserId, chat: ChatId, message: MessageId): nat
  {
    if tips == [] then 0
    else
      var last := tips[|tips| - 1];
      SumOn(tips[..|tips| - 1], kind, user, chat, message) + if IsOn(last, kind, user, chat, message) then last.quarks
          else 0
  }

  predicate HasUuids(t: AcceptedTip)
  {
    |t.tipper| == |t.author| == |t.message| == UUID_LENGTH && t.quarks < TWO_TO_64
  }

  lemma PostKeepsFit(feeds: Feeds, owner: UserId, n: Notification)
    requires FeedsFit(feeds) && IsTipNote(n)
    ensures FeedsFit(Post(feeds, owner, n))
  {
    SavedKeepsIds(FeedOf(feeds, owner), n);
  }

  lemma PostAddsToEntry(feeds: Feeds, owner: UserId, n: Notification, user: UserId, id: NotificationId)
    requires FeedsFit(feeds) && IsTipNote(n) && n.metadata.quarks < TWO_TO_64
    ensures EntryOf(FeedOf(Post(feeds, owner, n), user), id) ==
            if owner == user && n.id == id then (EntryOf(FeedOf(feeds, user), id) + n.metadata.quarks) % TWO_TO_64
            else EntryOf(FeedOf(feeds, user), id)
  {
    SavingAddsToEntry(FeedOf(feeds, owner), n, id);
  }

  lemma NoteIsOn(t: AcceptedTip, kind: nat, user: UserId, chat: ChatId, message: MessageId)
    requires HasUuids(t) && |user| == |message| == UUID_LENGTH && (kind == SEND_TIP || kind == RECEIVED_TIP)
    ensures var id := Preimage(kind, user, [chat, message]);
            && (t.tipper == user && SentNote(t).id == id <==> kind == SEND_TIP && IsOn(t, kind, user, chat, message))
            && (t.author == user && ReceivedNote(t).id == id <==>
                kind == RECEIVED_TIP && IsOn(t, kind, user, chat, message))
  {
    MessageIdsAreInjective(SEND_TIP, kind, t.tipper, user, t.chat, chat, t.message, message);
    MessageIdsAreInjective(RECEIVED_TIP, kind, t.author, user, t.chat, chat, t.message, message);
  }

  lemma TwoPostsAddToEntry(feeds: Feeds, sender: UserId, m: Notification, receiver: UserId, n: Notification,
                           user: UserId, id: NotificationId)
    requires FeedsFit(feeds) && IsTipNote(m) && IsTipNote(n)
    requires m.metadata.quarks < TWO_TO_64 && n.metadata.quarks < TWO_TO_64
    requires !(sender == user && m.id == id && receiver == user && n.id == id)
    ensures var after, entry := Post(Post(feeds, sender, m), receiver, n), EntryOf(FeedOf(feeds, user), id);
            && FeedsFit(after)
            && EntryOf(FeedOf(after, user), id) ==
               if sender == user && m.id == id then (entry + m.metadata.quarks) % TWO_TO_64
               else if receiver == user && n.id == id then (entry + n.metadata.quarks) % TWO_TO_64
               else entry
  {
    PostKeepsFit(feeds, sender, m);
    PostKeepsFit(Post(feeds, sender, m), receiver, n);
    PostAddsToEntry(feeds, sender, m, user, id);
    PostAddsToEntry(Post(feeds, sender, m), receiver, n, user, id);
  }

  lemma AddInRing(entry: nat, after: nat, sum: nat, quarks: nat, counts: bool)
    requires entry == sum % TWO_TO_64
    requires after == if counts then (entry + quarks) % TWO_TO_64 else entry
    ensures after == (sum + if counts then quarks else 0) % TWO_TO_64
  {
  }

  lemma TwoPostsAddToSum(feeds: Feeds, sender: UserId, m: Notification, receiver: UserId, n: Notification,
                         user: UserId, id: NotificationId,
                         sum: nat, quarks: nat, counts: bool)
    requires FeedsFit(feeds) && IsTipNote(m) && IsTipNote(n)
    requires m.metadata.quarks == n.metadata.quarks == quarks < TWO_TO_64
    requires !(sender == user && m.id == id && receiver == user && n.id == id)
    requires counts <==> (sender == user && m.id == id) || (receiver == user && n.id == id)
    requires EntryOf(FeedOf(feeds, user), id) == sum % TWO_TO_64
    ensures FeedsFit(Post(Post(feeds, sender, m), receiver, n))
    ensures EntryOf(FeedOf(Post(Post(feeds, sender, m), receiver, n), user), id)
            == (sum + if counts then quarks else 0) % TWO_TO_64
  {
    TwoPostsAddToEntry(feeds, sender, m, receiver, n, user, id);
    AddInRing(EntryOf(FeedOf(feeds, user), id), EntryOf(FeedOf(Post(Post(feeds, sender, m), receiver, n), user), id),
              sum, quarks, counts);
  }

  /** One user's entry for one message after one more tip. */
  lemma TipAddsToEntry(feeds: Feeds, t: AcceptedTip, sum: nat, kind: nat, user: UserId, chat: ChatId,
                       message: MessageId)
    requires FeedsFit(feeds) && HasUuids(t)
    requires |user| == |message| == UUID_LENGTH && (kind == SEND_TIP || kind == RECEIVED_TIP)
    requires EntryOf(FeedOf(feeds, user), Preimage(kind, user, [chat, message])) == sum % TWO_TO_64
    ensures var after := Post(Post(feeds, t.tipper, SentNote(t)), t.author, ReceivedNote(t));
            && FeedsFit(after)
            && EntryOf(FeedOf(after, user), Preimage(kind, user, [chat, message]))
               == (sum + if IsOn(t, kind, user, chat, message) then t.quarks else 0) % TWO_TO_64
  {
    NotesAreTipNotes(t);
    NoteIsOn(t, kind, user, chat, message);
    TwoPostsAddToSum(feeds, t.tipper, SentNote(t), t.author, ReceivedNote(t), user,
                     Preimage(kind, user, [chat, message]),
                     sum, t.quarks, IsOn(t, kind, user, chat, message));
  }

  /** Each entry is the sum of the tips on its message by, or to, its user, in 64
      bits; entries of different users, messages or kinds never mix. */
  lemma {:induction false} EntriesAreSums(tips: seq<AcceptedTip>, kind: nat, user: UserId, chat: ChatId,
                                          message: MessageId)
    requires forall i :: 0 <= i < |tips| ==> HasUuids(tips[i])
    requires |user| == |message| == UUID_LENGTH && (kind == SEND_TIP || kind == RECEIVED_TIP)
    ensures FeedsFit(Ledger(tips))
    ensures EntryOf(FeedOf(Ledger(tips), user), Preimage(kind, user, [chat, message]))
            == SumOn(tips, kind, user, chat, message) % TWO_TO_64
  {
    if tips != [] {
      EntriesAreSums(tips[..|tips| - 1], kind, user, chat, message);
      TipAddsToEntry(Ledger(tips[..|tips| - 1]), tips[|tips| - 1],
                     SumOn(tips[..|tips| - 1], kind, user, chat, message), kind, user, chat, message);
    }
  }
}
