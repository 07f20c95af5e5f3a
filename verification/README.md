# Flipchat server: verified model

Flipchat is a chat server in which some messages and some chats are paid for.
This project models the state behind its RPCs as the in-memory stores and the
handlers define it, and proves what holds over every run and every interleaving
of requests.

- **Stores.** `MessageStore`, `ChatStore`, `IntentStore`, `AccountStore`,
  `ActivityStore` and `ProfileStore` are classes with the source's own maps and
  lists, changed step by step; each method is proved against a view of the store
  as a plain value. `AccountCache` and `ProfileCache` are the caches in front.
- **Server.** `Server` takes the chat and messaging RPCs apart into steps, one per
  store call that changes anything, and lets the steps of any number of requests
  interleave. `PaymentProofs`, `GroupProofs`, `DenialProofs`, `ReferenceProofs`,
  `MembershipProofs`, `TipProofs` and `TipSpending` hold what is proved about all runs,
  `StaggeredReads` about runs in which a check reads each store at its own moment, and
  `DoubleStore` and `FailingRuns` give runs in which something fails. `MessagingServer` and
  `ChatServer` are the handlers, store call by store call; `Requests` and `StartRequests`
  are the function that one request computes on the stores, and prove that its steps,
  undisturbed, compute just that. `Outcomes` says what each request comes to in terms of
  the entries, chats, logs and payments before and after it, without those functions, and
  `RunOutcomes` what its last steps come to over every run, whatever came since its check.
- **Streams and typing.** `EventStream` is one bounded channel behind a mutex,
  `StreamRegistry` the two tables of live streams, `Typing` the typing notices and
  the worker that times them out.
- **Reading.** `Paging`, `Pointers` and `UnreadCount` are about the message log as
  clients see it; `MessageIds` about the time order of ids.
- **Airdrops and tips.** `Airdrop` is the weekly bonus, `TipLedger` the totals that
  tips add up to in the activity feeds.

## Assumptions

- User, message and generated chat ids are 16 bytes and new when generated. In the
  run model a message id is any byte string that is new to its chat; only the totals
  per feed entry need the 16 bytes.
- SHA-256 has no collisions on the inputs used; a hash is modelled by its input.
- The clock does not go backwards. Payment records never change.
- Sums of tips fit into 64 bits where conservation is claimed; per-entry totals are
  proved modulo 2^64 without that assumption.
- One critical section, or one store call, is one atomic step. All the checks a
  request makes before its first write are one atomic step that reads, except in
  `StaggeredReads`.

## Properties that fail, and when exactly

- A payment can back two stored messages, because a message is put before its
  payment is marked: `DoubleStore.OnePaymentBacksTwoMessages` gives a run. It backs at
  most one for good if and only if no request starts to pay with an intent, its check
  having succeeded for a message that has to be paid for, while another one pays with
  it (`PaymentProofs.PaidOnceExactlyWithoutOverlap`).
- A payment made for a tip can be used up without any tip: a message that needs no
  payment uses up whatever payment came along, here a tip payment of 5 spent by a text
  (`FailingRuns.TextUsesUpTipPayment`). All used tip payments come to the totals of
  tips sent and received if and only if none of more than nothing was spent by a
  message other than a tip (`TipProofs.FeedsConservePayments`), and do so for good if
  and only if no message other than a tip passes its check with an unused one
  (`TipSpending.ConservedExactlyWithoutMisspending`).
- A sender can be told "denied" although the message was stored. In every run, that is
  so if and only if the payment sent along was already used at the check, and not
  needed, or another request marked it between the check and the mark
  (`DenialProofs.DeniedThoughStoredExactlyWhen`). A request on its own only meets the
  first case (`Requests.DeniedButStoredExactlyWhen`). `FailingRuns.DeniedButStored`
  gives a run.
- A group can be refused although its chat was created, if and only if another request
  marked its payment in between (`DenialProofs.RefusedThoughCreatedExactlyWhen`);
  `FailingRuns.RefusedButCreated` gives a run. Its creator owns it and can enter it with
  all permissions (`GroupProofs.OwnerCanEnter`), so one payment can found two groups. It
  founds at most one for good if and only if no check for a group succeeds while another
  request founds with the same payment (`GroupProofs.FoundedOnceExactlyWithoutOverlap`).
- A muted user's messages can still be stored after the mute, exactly if one had passed
  its checks before (`MembershipProofs.MuteSilencesExactlyWhen`);
  `FailingRuns.StoredAfterMute` gives a run.
- Ids of later milliseconds sort later unless the two times straddle 1970
  (`MessageIds.LaterMillisecondSortsLater`).
- Removing a user's key can lead to a second bonus in one week. It is harmless if and
  only if each of the user's bonuses is safe with one key less and the key is not about
  to be paid, or is the only one about to be paid while every bonus so far lies before
  the current week (`Airdrop.RemovalIsHarmlessExactlyWhen`). A bonus is safe when the
  boundary after it has passed; when its user keeps several keys; when its user keeps
  one, and is not registered or not due before that boundary; when its user keeps none,
  and that boundary is the next instant, since a new key makes its user due at once; or
  when it was paid before the launch to a user who is not staff. This covers a user's
  only key and removals while a batch is out; `Airdrop.SecondBonusAfterRemoval` gives a
  run. The RPCs that would remove keys are disabled.
- A cached profile shows an X account its user no longer has exactly from when another
  user takes that account over until the user's next write or the entry's expiry
  (`ProfileCache.StaleExactlyWhenDisplaced`).
- The account cache goes on answering "registered" exactly when a cached registration
  is turned off (`AccountCache.Cache.SetRegistrationFlag`).

Where code and comments differ, the model follows the code: ids carry 48 bits of
milliseconds, not 42 (messaging/model.go:48), and setting a display name creates a
missing profile (profile/store.go:19, profile/memory/store.go:58-61).

## Model

| member | source | states |
|---|---|---|
| PaymentProofs.AtMostOneOkPerIntent | messaging/server.go:412-453 | in every interleaving of SendMessage and StartChat requests, no two requests with the same payment intent are answered OK, and the intent of one that is answered OK is marked |
| PaymentProofs.MarksAlwaysUnique | intent/memory/store.go:31-42 | in every reachable state each request that went past marking an intent made that mark, and alone |
| PaymentProofs.OneMessagePerIntent | messaging/server.go:412-453 | in every run where no request starts to pay with an intent while another pays with it, each message that needed payment is stored with an intent, and no two with the same |
| PaymentProofs.PaidOnceExactlyWithoutOverlap | messaging/server.go:412-453 | after any run without overlaps and whatever step comes next, each payment backs at most one message in every continuation without overlaps if and only if that step does not overlap |
| PaymentProofs.OverlapCanStoreTwice | messaging/server.go:439-453 | from every reachable state in which a request starts to pay while another pays with the same intent, two puts store two messages for that one payment |
| DoubleStore.OnePaymentBacksTwoMessages | messaging/server.go:439-453 | a run from the empty server that stores two tips for one payment, for any two users and any ids |
| DenialProofs.DeniedThoughStoredExactlyWhen | messaging/server.go:412-453 | in every run, with any steps of others before, between and after, a request past its put has its message stored for good and is answered "denied" if and only if its payment was used and not needed at its check, or marked by another request between check and mark; otherwise OK |
| DenialProofs.RefusedThoughCreatedExactlyWhen | chat/server.go:474-552 | in every run a group's chat, once created, stays with its owner; its request has added nobody by its mark, and is refused there if and only if another request marked the payment between check and mark, after which it never adds anyone |
| GroupProofs.OneGroupPerPayment | chat/server.go:474-552 | in every run in which no check for a group succeeds while another request founds with the same payment, no payment is behind two groups |
| GroupProofs.FoundedOnceExactlyWithoutOverlap | chat/server.go:474-552 | after any run without such overlaps and whatever step comes next, each payment founds at most one group in every continuation without overlaps if and only if that step is none |
| GroupProofs.OwnerCanEnter | chat/server.go:670-698 | the owner of any chat, also of a group that was refused, can join it with all permissions |
| FailingRuns.TextUsesUpTipPayment | messaging/server.go:446-453 | a run from the empty server in which a text uses up a payment of 5 made for a tip and both totals stay 0, for any two users and ids |
| FailingRuns.DeniedButStored | messaging/server.go:439-449 | a run from the empty server in which two tips with one payment are stored and the second is told "denied" |
| FailingRuns.RefusedButCreated | chat/server.go:533-549 | a run from the empty server in which two requests with one payment both create their group and the second is refused |
| FailingRuns.StoredAfterMute | messaging/server.go:412-439 | a run from the empty server in which a member's message is stored after MuteUser was answered OK for them |
| StaggeredReads.AtMostOneOkStaggered | auth/rpc/messaging.go:50-252 | with each store read by a check at a moment of its own and anything in between, no two requests with one payment are answered OK |
| StaggeredReads.ReferencesValidStaggered | auth/rpc/messaging.go:50-252 | with reads spread likewise, every stored reference is valid and every chain of replies ends at a text |
| StaggeredReads.MuteSilencesStaggered | auth/rpc/messaging.go:65-74 | with reads spread likewise, once a user is muted and nothing of theirs has passed its checks, nothing is stored by checks that read the members later |
| DenialProofs.UsedMeanwhile | intent/memory/store.go:31-42 | while a request has not come to its mark, its intent is used exactly if it was before or another request marked it meanwhile |
| ReferenceProofs.ReferencesAlwaysValid | auth/rpc/messaging.go:81-215 | in every reachable state every stored reaction, reply, tip, deletion and review points to an earlier message of its chat of an allowed kind; reviews by the owner to off-stage text, deletions by the owner or the target's author |
| ReferenceProofs.EveryReplyAnswersAText | auth/rpc/messaging.go:101-116 | in every reachable state every chain of replies ends, after finitely many earlier messages, at a text message |
| ReferenceProofs.RunExtends | messaging/memory/store.go:118-140 | along every run messages are never changed or removed, owner, kind and room number of a chat never change, registrations and used intents stay |
| MembershipProofs.MembershipAlwaysSound | chat/server.go:449-639 | the invariant behind moderation rights and mutes holds in every reachable state, also for requests half way through |
| MembershipProofs.OnlyOwnersModerate | chat/server.go:576-592 | in every reachable state an active member may moderate exactly when they own the chat, an active owner may send and is never muted, and exactly the group chats have owners |
| MembershipProofs.LeavingEndsOneMembership | chat/memory/store.go:221-249 | after any run, leaving soft-deletes that one entry, strips its permissions and keeps its mute, and changes no other entry |
| MembershipProofs.SuccessfulMuteMutes | chat/server.go:1391-1433 | once MuteUser has answered OK the member is muted in every later state, whatever leaves and rejoins follow |
| MembershipProofs.MuteSilencesExactlyWhen | auth/rpc/messaging.go:65-74 | from a reachable state in which a user is muted, no later step of any run stores a message of theirs in the chat if and only if none had passed its checks already |
| MembershipProofs.MutedRunIsSilent | chat/memory/store.go:188-204 | a mute survives every run of leaves, joins, promotions and demotions, and nothing the muted user sends passes the checks |
| Authorizer.AllowedExactlyWhen | auth/rpc/messaging.go:50-252 | a message is allowed if and only if its sender is a registered unmuted member; it points to a fitting message; text and replies go into an open chat or come from the owner, and from anyone but the owner and members who may send, with an unused payment of theirs for this chat; a tip comes with an unused payment for exactly this tip |
| Authorizer.ListenersPayForText | auth/rpc/messaging.go:221-249 | text or a reply that some payment gets through is refused without one exactly if its sender is neither the owner nor a member who may send, and the payment it then needs is an unused one of the sender for this chat |
| Authorizer.PaymentIsNeededExactlyWhen | auth/rpc/messaging.go:134-249 | a message that is allowed counts as one that needs payment exactly if it is refused without any |
| MessagingServer.MessagingServer.CanSendMessage | auth/rpc/messaging.go:50-252 | the authorizer's sequence of store calls, with its switch and flags, allows a message exactly when the sender may send it, and otherwise gives the specified reason |
| MessagingServer.MessagingServer.SwitchOnContent | auth/rpc/messaging.go:78-215 | the switch decides as the specification of content checks does and sets its two flags consistently |
| MessagingServer.MessagingServer.CheckTip | auth/rpc/messaging.go:134-166 | a tip's payment is accepted exactly when it is present, decodable, unused and for this chat, message, tipper and amount |
| MessagingServer.MessagingServer.CheckListener | auth/rpc/messaging.go:221-249 | a listener's payment is accepted exactly when it is present, decodable, unused and for this chat and user |
| MessagingServer.MessagingServer.GetReference | auth/rpc/messaging.go:84-97 | the reference is reported missing exactly when the chat has no such message, and otherwise judged by its kind |
| MessagingServer.MessagingServer.LoadUnusedPayment | intent/payment_metadata.go:33-56 | the first reason, in the source's order, why a payment cannot be used, or its metadata |
| MessagingServer.MessagingServer.Send | messaging/server.go:531-543 | a draft with an id is refused without change; otherwise the chat's log gains exactly the message under its new id and no other store changes |
| MessagingServer.MessagingServer.SendMessage | messaging/server.go:401-529 | a message that may be sent is stored as sent, off stage exactly if it is text or a reply with a payment, its payment is used up and nothing else changes; any other is denied without change |
| Requests.SendAlone | messaging/server.go:401-529 | the three interleavable steps of SendMessage, undisturbed in any world, compute what the handler does |
| Outcomes.SendOutcome | messaging/server.go:401-529 | undisturbed in any world, the steps of SendMessage answer OK if and only if the message may be sent and its payment is unused; a message that may be sent is stored under the new id with its sender, content and time, off stage exactly if it is text or a reply with a payment; its payment is used up, and nothing else changes |
| RunOutcomes.OffStageExactlyWhen | messaging/server.go:425-436 | in every reachable state a message of any log was stored once, and is off stage if and only if a user sent it with a payment as text or as a reply |
| Requests.DeniedButStoredExactlyWhen | messaging/server.go:446-449 | of a request that no other one disturbs: "denied" although stored, if and only if the message was allowed without payment and a used payment came along |
| Requests.MuteAlone | chat/server.go:1391-1433 | undisturbed, the steps of MuteUser compute what the handler does |
| Outcomes.MuteOutcome | chat/server.go:1391-1433 | in every reachable state, undisturbed, MuteUser is answered OK if and only if the caller owns the chat and the user is another active member, whose entry is then muted; nothing else about the entry and nothing else at all changes |
| RunOutcomes.MutingComesFrom | chat/server.go:1391-1421 | a request is about to mute a member only after a check at which the caller owned the chat and the user was another active member |
| RunOutcomes.MutingEndsRight | chat/memory/store.go:307-324 | over every run, whatever came since the check, a member who is still there is muted, and the request fails without change for one who has left |
| Requests.PromoteAlone | chat/server.go:1139-1206 | undisturbed, the steps of PromoteUser compute what the handler does |
| Outcomes.PromoteOutcome | chat/server.go:1139-1206 | in every reachable state, undisturbed, PromoteUser is answered OK if and only if the caller owns the group and the user is another active, registered member; the member may then send if the request enables it, and no other field or entry changes |
| RunOutcomes.SettingComesFrom | chat/server.go:1139-1252 | a request is about to give the send permission only after a promotion's check, and to take it only after a demotion's, at which the caller owned the group and the user was another active member |
| RunOutcomes.SettingEndsRight | chat/memory/store.go:344-361 | over every run, whatever came since the check, a member who is still there gets the permission the request was for, and one who has left stays without it |
| Requests.DemoteAlone | chat/server.go:1232-1289 | undisturbed, the steps of DemoteUser compute what the handler does |
| Outcomes.DemoteOutcome | chat/server.go:1232-1289 | in every reachable state, undisturbed, DemoteUser is answered OK if and only if the caller owns the group and the user is another active member; the member may then no longer send if the request disables it, and no other field or entry changes |
| Requests.JoinAlone | chat/server.go:641-698 | undisturbed, the steps of JoinChat compute what the handler does |
| Outcomes.JoinOutcome | chat/server.go:641-698 | undisturbed in any world, joining an existing chat is answered OK if and only if the user owns it or comes as a spectator; the entry is then active, may send and moderate exactly if the user owns the chat, keeps a mute, and no other entry changes |
| RunOutcomes.JoinEndsRight | chat/server.go:676-698 | over every run, whatever came since the check, the add step of a join leaves an active entry that may send and moderate exactly if its user owns the chat, and is muted exactly if it was |
| Requests.LeaveAlone | chat/server.go:730-741 | leaving changes no chat, message, payment or request, only memberships |
| Outcomes.LeaveOutcome | chat/memory/store.go:221-249 | in every reachable state leaving turns the user's entry into one that says they left, with the mute and no permission, and changes no other entry |
| Requests.OpenAlone | chat/server.go:762-869 | only the owner of a group opens or closes it, and nothing else about this or any other chat changes |
| StartRequests.StartAlone | chat/server.go:449-592 | the steps of StartChat, undisturbed and however many members are named, compute what the handler does |
| Outcomes.StartGroupOutcome | chat/server.go:449-592 | undisturbed in any world, a group is started if and only if its payment is given, known, unused and made for a group by the creator, and its name is not flagged; then the chat exists, open and owned by the creator, the payment is used up, everyone named may send and the creator alone moderates; otherwise nothing changes |
| Outcomes.StartTwoWayOutcome | chat/server.go:449-592 | undisturbed in any world, two users get the one chat that is theirs, without owner; both may send and neither moderates |
| RunOutcomes.GroupsAlwaysPaid | chat/server.go:474-500 | in every reachable state, whatever the interleaving, each request for a group past its check has a payment that its creator made for a group, and so has each group for its owner |
| ChatServer.ChatServer.StartChat | chat/server.go:449-592 | a group is started exactly for a known unused payment that its creator made for a group, with its members and their permissions, and otherwise nothing happens; two users get their one chat |
| ChatServer.ChatServer.CheckGroupPayment | chat/server.go:468-500 | no refusal exactly if the payment is given, known, unused and made for a group by this creator, and the name is not flagged; otherwise denied, or failed for metadata of another kind |
| ChatServer.ChatServer.AddMembers | chat/server.go:574-592 | the loop adds every user named, the creator of a group as moderator, merging with entries that exist |
| ChatServer.ChatServer.CreateAndAdd | chat/server.go:533-592 | create, mark and add in this order; with a used payment the chat exists but stays empty |
| ChatServer.ChatServer.MuteUser | chat/server.go:1391-1433 | an owner's request mutes another active member, changing nothing else, and is denied otherwise |
| ChatServer.ChatServer.PromoteUser | chat/server.go:1139-1206 | a group owner's request gives a registered active member the send permission if it says so, changing nothing else, and is refused otherwise |
| ChatServer.ChatServer.DemoteUser | chat/server.go:1232-1289 | a group owner's request takes an active member's send permission if it says so, changing nothing else, and is denied otherwise |
| ChatServer.ChatServer.JoinChat | chat/server.go:641-698 | a room number is resolved to the one chat that has it; the owner joins with both permissions and a spectator with neither, and a mute stays |
| ChatServer.ChatServer.LeaveChat | chat/server.go:730-741 | the user's entry says they left, with the mute and no permission, and nothing else changes |
| ChatServer.ChatServer.SetOpenStatus | chat/server.go:762-869 | the handlers of OpenChat and CloseChat set one flag for a group's owner, change nothing else, and are denied to everyone else |
| ChatServer.ChatServer.GetModerated | chat/server.go:1151-1183 | the member to act on, exactly when the caller owns the chat, is not that member, and the member is active |
| ChatStore.InMemoryStore.GetChatID | chat/memory/store.go:43-53 | a room number answers with the chat that has it, and with nothing only if no chat has it |
| ChatStore.InMemoryStore.GetChatMetadata | chat/memory/store.go:55-65 | the metadata of an existing chat, under that chat's own id |
| ChatStore.InMemoryStore.GetChatsForUser | chat/memory/store.go:84-95 | each chat the user is an active member of, once, and no other |
| ChatStore.InMemoryStore.GetMembers | chat/memory/store.go:97-113 | exactly the active members, strictly ordered by user id |
| ChatStore.InMemoryStore.GetMember | chat/memory/store.go:115-127 | the user's entry exactly when it is active |
| ChatStore.InMemoryStore.IsMember | chat/memory/store.go:129-141 | agrees with the active entry |
| ChatStore.InMemoryStore.CreateChat | chat/memory/store.go:143-174 | a new chat gets the next room number; an existing chat, a missing id or a given room number change nothing |
| ChatStore.InMemoryStore.AddMember | chat/memory/store.go:176-219 | revives or inserts one entry, keeping a mute, in sorted list and reverse index together |
| Rooms.JoinedMeans | chat/memory/store.go:176-219 | an added member has the permissions handed over, is muted if they were or come muted, and no other entry changes |
| Rooms.DepartedMeans | chat/memory/store.go:221-249 | what remains of a membership is an entry that says the user left, with the mute; no other entry changes |
| ChatStore.InMemoryStore.RemoveMember | chat/memory/store.go:221-249 | soft-deletes one entry and drops the chat from the user's index |
| ChatStore.InMemoryStore.SetMuteState | chat/memory/store.go:307-324 | changes the mute of one active entry, and nothing otherwise |
| ChatStore.InMemoryStore.SetSendPermission | chat/memory/store.go:344-361 | changes the permission of one active entry; for a former member no error and no change |
| ChatStore.InMemoryStore.SetOpenStatus | chat/memory/store.go:293-305 | changes whether one existing chat is open |
| ChatStore.UpdateMatches | chat/memory/store.go:176-249 | changing one entry and that user's index together keeps every list sorted with one entry per user and every index exact |
| ChatStore.RoomNumbersCountChats | chat/memory/store.go:143-174 | room numbers 1 to nextRoom - 1 and chats correspond one to one, so there are nextRoom - 1 chats |
| IntentStore.InMemoryStore.IsFulfilled | intent/memory/store.go:23-29 | whether the intent was marked |
| IntentStore.InMemoryStore.MarkFulfilled | intent/memory/store.go:31-42 | succeeds exactly when the intent was not marked before, and marks it either way |
| Ids.TwoWayChatIdNamesThePair | model/chat.go:31-45 | two pairs of users share a two-way chat id exactly when they are the same pair in either order, and such an id is never as long as a generated one |
| Ids.LessIsTotal | messaging/memory/store.go:23-27 | byte order puts any two ids in exactly one of the orders before, equal, after |
| Ids.LessIsTransitive | messaging/memory/store.go:23-27 | byte order is transitive |
| MessageIds.GenerateMessageIDFromTime | messaging/model.go:39-57 | the six shifts write the low 48 bits of the milliseconds, most significant byte first, and keep the other ten bytes |
| MessageIds.ValueOfBigEndian | messaging/model.go:45-54 | reading the written bytes back gives the number modulo 256 per byte |
| MessageIds.TimestampReadsBack | messaging/model.go:45-54 | for every time an int64 of nanoseconds expresses, the id reads back as its millisecond exactly when that is not before 1970 |
| MessageIds.LaterMillisecondSortsLater | messaging/model.go:39-57 | ids of a later millisecond sort later whatever the random bytes, if and only if the times do not straddle 1970 |
| Messages.ByIdLooksUp | messaging/memory/store.go:43-60 | scanning a sorted log for an id and looking it up in the log as a map agree |
| Messages.AppendAndSort | messaging/memory/store.go:134-137 | appending a message with a new id and sorting adds it to the map and changes no other message |
| MessageStore.Memory.GetMessage | messaging/memory/store.go:43-60 | the message of the chat with that id, or not found exactly when there is none |
| MessageStore.Memory.PutMessage | messaging/memory/store.go:118-140 | a given id is refused; otherwise the chat's sorted log gains exactly this message and no other chat or pointer changes |
| MessageStore.Memory.GetPagedMessages | messaging/memory/store.go:82-116 | filtering, reversing and cutting yield the next messages after the token in reading order |
| MessageStore.KeptIsTheRest | messaging/memory/store.go:93-109 | filtering by token first and reversing afterwards leaves what reading in order from the token leaves |
| Paging.PageIsNext | messaging/memory/store.go:82-116 | a page holds messages of the log after the token in strict reading order, at most the limit; if one after the token is not on it, the page is full and comes before that one |
| MessageStore.Memory.CountUnread | messaging/memory/store.go:147-172 | the number of positions that hold text or a reply by somebody else after the pointer, capped by a non-negative maximum |
| MessageStore.UnreadIsCounted | messaging/memory/store.go:147-172 | in a sorted log there are as many unread messages as positions that hold text or a reply by somebody else after the pointer |
| MessageStore.Memory.AdvancePointer | messaging/memory/store.go:174-207 | one pointer per chat, user and type, raised or created, and the result says whether it changed |
| MessageStore.Memory.GetPointers | messaging/memory/store.go:209-227 | at most one pointer per type, the one held |
| Pointers.PointersHoldTheGreatest | messaging/memory/store.go:174-207 | after any calls a pointer exists exactly when it was ever advanced, and is the greatest value ever passed |
| Pointers.OrderDoesNotMatter | messaging/memory/store.go:174-207 | every reordering of the same calls ends with the same pointers |
| Pointers.LaterIdMovesOn | messaging/memory/store.go:191-196 | an id of a later millisecond comes later in every log and moves on every pointer to an earlier one |
| Query.ApplyOptions | query/query.go:54-60 | the last option of each kind wins, and a limit that is not positive is ignored, so the limit is at least 1 |
| Query.ProtoOptionsReachTheStore | query/query.go:62-78 | a client's page size, token and order reach the store, with the defaults where it names none |
| Query.AppendedOptionWins | query/query.go:54-60 | an option appended to any list decides its own field, unless it is a limit that is not positive, and no other field |
| Paging.WalkNeverRepeats | messaging/memory/store.go:82-116 | whatever is put between pages, for every limit of at least 1 and both orders, a walk by last id delivers messages of the log in strict reading order, so none twice |
| Paging.FinishedWalkMissesNothing | messaging/memory/store.go:82-116 | a walk that reaches an empty page has delivered every message after its first token that was there when it began |
| Paging.WalkSkipsNothing | messaging/memory/store.go:82-116 | whether a walk has ended or not, each message there when it began, after its first token, is delivered or comes after the last one delivered |
| Paging.BackwardWalkEnds | messaging/memory/store.go:82-140 | while only newer messages are put, a descending walk ends after at most one page more than there were messages left, and delivers just those, newest first |
| Paging.UndisturbedWalkIsTheLog | messaging/memory/store.go:82-116 | with nothing put in between, a walk ends after at most one page more than there are messages and is the rest of the ordered log |
| Paging.WholeLogIsDelivered | messaging/memory/store.go:82-116 | read from the start undisturbed, the pages concatenate to the sorted log or its reverse |
| UnreadCount.GetUnreadCount | chat/server.go:1746-1770 | the answer is (min(n, 99), n > 99) for the number n of positions in the log that hold text or a reply by somebody else after the user's read pointer |
| UnreadCount.ReadingOnNeverRaisesUnread | messaging/memory/store.go:154-166 | moving the pointer on leaves a subset of the unread messages |
| UnreadCount.PutRaisesUnreadByAtMostOne | messaging/memory/store.go:118-140 | a put makes one more message unread for a user exactly if it is text or a reply, is by somebody else and comes after the user's pointer, and otherwise none |
| EventStream.StreamIsFifo | event/stream.go:43-81 | in every interleaving of concurrent Notify, Close and receive: no send on or second close of a closed channel, a bounded buffer, received then buffered values are the accepted ones in order, and only a call that ended with a send contributed |
| EventStream.ReaderSeesEverything | event/stream.go:67-81 | a reader that saw the end of the channel has received all that was ever accepted, and nothing is accepted later |
| EventStream.NotifyAlone | event/stream.go:43-65 | the interleavable steps of a Notify, undisturbed, refuse a closed stream, append one value when there is room, or close the stream and append nothing |
| EventStream.ProtoEventStream.Notify | event/stream.go:43-65 | with something to send, the call succeeds, appending one value, exactly if the stream is open, has room and the timer does not come first; otherwise it appends nothing and leaves the stream closed |
| EventStream.ProtoEventStream.Close | event/stream.go:71-81 | the stream is closed |
| StreamRegistry.RegistryIsExact | messaging/server.go:160-172 | for both tables, in every interleaving of registering, replacing, timing out and cleaning up, no user has two registered streams in a chat, every registered stream has a running handler, and a running stream is registered or closed |
| StreamRegistry.CleanUpRemovesOnlyItsOwn | messaging/server.go:229-250 | a handler's cleanup removes its own stream and leaves every other one registered |
| StreamRegistry.RegisterMeans | messaging/server.go:160-232 | a new stream is listed in place of the streams its user had in the chat, which are closed; no other stream is dropped, moved or closed |
| StreamRegistry.MessageStreams.Add | messaging/server.go:160-232 | the loop lists the new stream in place of the user's old one in the chat, which is closed, and touches no other stream |
| StreamRegistry.MessageStreams.Remove | messaging/server.go:234-252 | the deferred cleanup removes this very stream if it is still listed, and no other |
| StreamRegistry.MessageStreams.Close | event/stream.go:58-60 | a stream that times out is closed and stays in its list |
| StreamRegistry.ChatStreams.Add | chat/server.go:161-167 | the user's old stream is closed and replaced by the new one, as in the registry with each user for a chat of their own |
| StreamRegistry.ChatStreams.Close | event/stream.go:58-60 | a stream that times out is closed and stays in the table |
| StreamRegistry.ChatStreams.Remove | chat/server.go:290-307 | the deferred cleanup removes this very stream if it is still the user's, and no other, as in the registry |
| Typing.EveryTimeOutIsDue | messaging/server.go:656-684 | over every run each time-out follows a typing notice of the same user and chat at least the timeout earlier, with nothing about them in between |
| Typing.NoNoticeTimesOutTwice | messaging/server.go:656-684 | between two time-outs of one user in one chat there is a typing notice |
| Typing.PassTimesOutExactly | messaging/server.go:663-675 | a pass times out exactly the users whose latest event is a typing notice at least the timeout old |
| Typing.TypingUsers.NotifyIsTyping | messaging/server.go:586-628 | publishes a member's notice and remembers or forgets the user; a time-out from a client is invalid and a non-member is denied, without change |
| Typing.TypingUsers.CollectExpired | messaging/server.go:662-676 | publishes one time-out for each expired user and lists each once |
| Typing.TypingUsers.TimeOutPass | messaging/server.go:656-684 | one pass of the worker is one step of the protocol |
| AccountBook.BindKeepsConsistent | account/memory/store.go:52-70 | after a bind a key still maps to a user exactly when it occurs once in that user's list |
| AccountBook.RemoveKeepsConsistent | account/memory/store.go:96-113 | after a removal a key still maps to a user exactly when it occurs once in that user's list |
| AccountBook.BindThenRemove | account/memory/store.go:52-113 | removing a key just bound restores every key list and the key index |
| AccountStore.Memory.Bind | account/memory/store.go:52-70 | a bound key keeps its user, a new key is appended and starts the airdrop timestamps again, and the answer is the key's user |
| AccountStore.Memory.GetUserId | account/memory/store.go:72-82 | the user in whose list the key occurs once, or not found |
| AccountStore.Memory.GetPubKeys | account/memory/store.go:84-94 | exactly the keys that map to the user |
| AccountStore.Memory.RemoveKey | account/memory/store.go:96-113 | drops the key from the list and index if it is this user's |
| AccountStore.Memory.IsAuthorized | account/memory/store.go:115-131 | the scan of the key list agrees with the key index |
| AccountStore.Memory.IsRegistered | account/memory/store.go:137-143 | whether the user's flag is on |
| AccountStore.Memory.SetRegistrationFlag | account/memory/store.go:145-160 | sets or clears the flag of a known user and rejects an unknown one |
| AccountStore.Memory.BatchSetNextAirdropTimestamp | account/memory/store.go:162-176 | moves the timestamps of the known users named and skips unknown ones |
| AccountStore.Memory.ExtendAirdropEligibility | account/memory/store.go:190-202 | replaces the eligibility of a known user and rejects an unknown one |
| AccountStore.Memory.GetUsersToAirdrop | account/memory/store.go:216-234 | each registered, due and eligible user once, or not found exactly when there is none |
| AccountCache.Cache.GetUserId | account/cache/store.go:37-49 | the cached answer is the store's |
| AccountCache.Cache.IsRegistered | account/cache/store.go:80-91 | the cached answer is the store's while flags are only turned on |
| AccountCache.Cache.IsStaff | account/cache/store.go:68-78 | the cached answer is the store's |
| AccountCache.Cache.IsAuthorized | account/cache/store.go:60-66 | the cached answer is the store's, but for an unbound key an error where the store says no |
| AccountCache.Cache.Bind | account/cache/store.go:33-35 | binding through the cache leaves every cached answer right |
| AccountCache.Cache.RemoveKey | account/cache/store.go:55-58 | removing keys through the cache always fails |
| AccountCache.Cache.SetRegistrationFlag | account/cache/store.go:93-95 | every cached answer stays right if and only if the flag is not turned off for a cached user |
| Airdrop.GetNextAirdropTime | airdrop/integration.go:152-166 | the loop terminates at the first boundary after now |
| Airdrop.NextBoundaryIsLeast | airdrop/integration.go:156-166 | that boundary is the inaugural time plus whole weeks, after now, and no later than any boundary after now |
| Airdrop.NobodyIsPaidTwiceAWeek | airdrop/integration.go:45-121 | over every run of binds, purchases, picks, reports and harmless removals of keys, with one batch out at a time, nobody is credited twice between two boundaries |
| Airdrop.RemovalIsHarmlessExactlyWhen | account/memory/store.go:96-113 | after every run whose removals were harmless, removing any key of anyone, with or without a batch out, leaves every continuation with harmless removals free of double credits if and only if the removal is harmless: the key is not the user's, or each of the user's credits is safe with one key less and the key is not about to be paid, or alone with all credits in the past |
| Airdrop.SecondBonusAfterRemoval | account/memory/store.go:52-113 | for any user and key, a run in which the removal of a user's only key is followed by a second credit in one week |
| Airdrop.PickedUserIsUnpaid | account/memory/store.go:216-234 | a user who is picked has no credit in the current week |
| Airdrop.PickedExactly | airdrop/integration.go:45-97 | an owner is picked exactly if it is the only key of a registered user whose next airdrop is past and whose eligibility is not, and who is staff or it is after the launch |
| Airdrop.ReportPays | airdrop/integration.go:99-121 | a report credits the user behind each reported owner once and moves exactly these users to the next boundary |
| Airdrop.PurchaseSchedules | iap/server.go:117-127 | a purchase registers a known user and schedules their first airdrop for the next boundary, for nobody else |
| AirdropIntegration.FlipchatIntegration.GetOwnersToAirdropNow | airdrop/integration.go:45-97 | exactly the single keys of the users to pay now, each once |
| AirdropIntegration.FlipchatIntegration.OnSuccess | airdrop/integration.go:99-121 | moves every paid user to the next boundary, or writes nothing if any owner is unknown |
| NotificationIds.GetNotificationID | activity/model.go:33-59 | the hash is fed type, user and seeds in this order, and an unknown type is refused |
| NotificationIds.LittleEndianBytes | activity/model.go:38-39 | the type is fed as four bytes, least significant first |
| NotificationIds.TypesNeverShareIds | activity/model.go:33-59 | notifications of different types never share an id, whatever the seeds |
| NotificationIds.MessageIdsAreInjective | activity/notifications.go:127-167 | two notifications about messages share an id exactly when type, user, chat and message agree, also for chat ids of different lengths |
| ActivityStore.InMemoryStore.SaveNotification | activity/memory/store.go:36-75 | one entry per id, repeated tips added up in 64 bits, other feeds and unsupported types refused without change |
| ActivityStore.SavedMeans | activity/memory/store.go:36-75 | a notification with a new id comes last; a repeated tip is added to the one with its id modulo 2^64, in its place and with its time; any other repeat, and every other notification, stays as it is |
| ActivityStore.InMemoryStore.GetLatestNotifications | activity/memory/store.go:77-95 | the newest notifications, newest first, none older than one left out, at most the limit |
| TipLedger.TipsAreConserved | activity/memory/store.go:44-74 | the totals sent in all feeds, received in all feeds, and the tips come to one sum |
| TipLedger.EntriesAreSums | activity/memory/store.go:44-74 | each entry is the sum, modulo 2^64, of the tips its user sent to, or received on, its message |
| TipProofs.TipsAlwaysBacked | auth/rpc/messaging.go:134-166 | in every reachable state every accepted tip has a marked payment of its own for exactly this message, tipper and amount, and a receiver |
| TipProofs.MarkingRecordsTheTip | messaging/server.go:482-521 | marking the unused payment of a tip, and nothing else, records a tip with the payment's amount and the target's author |
| TipProofs.EntriesAreSumsOverRuns | messaging/server.go:482-521 | over every run, each user's entry for each message is the sum, modulo 2^64, of the run's accepted tips that the user sent to it or received on it |
| TipProofs.FeedsConservePayments | messaging/server.go:446-521 | over every run, totals sent, totals received and the payments behind accepted tips are the same sum; all used tip payments come to it and the misspent ones, so they equal it if and only if every tip payment that a message other than a tip used up is of nothing |
| TipProofs.StraysAreMisspent | messaging/server.go:446-453 | over every run the used tip payments behind no tip are exactly those that a message other than a tip marked |
| TipSpending.ConservedExactlyWithoutMisspending | messaging/server.go:412-453 | after any run without misspending and whatever step comes next, used tip payments equal the accepted tips in every continuation without misspending if and only if that step is not a successful check of other content with an unused tip payment of more than nothing |
| ProfileStore.ReverseLookUpInverts | profile/memory/store.go:133-148 | after every run no X account has two users, so the reverse look-up has one answer and inverts the forward one |
| ProfileStore.LinksStayUnique | profile/memory/store.go:71-100 | no run links an X account to two users |
| ProfileStore.AmbiguousOtherwise | profile/memory/store.go:133-148 | the reverse look-up has a single answer for every account only if no account has two users |
| ProfileStore.UnlinkUndoesLink | profile/memory/store.go:71-119 | unlinking what was just linked restores all links but that of the user it was taken from |
| ProfileStore.LinkMeans | profile/memory/store.go:71-100 | a link is refused exactly if the user has another account; otherwise the user has this one, nobody else does, and every other link stays |
| ProfileStore.Memory.GetProfile | profile/memory/store.go:30-52 | the name with the linked X account, not found without a name |
| ProfileStore.Memory.SetDisplayName | profile/memory/store.go:54-69 | sets one name and no link |
| ProfileStore.Memory.LinkXAccount | profile/memory/store.go:71-100 | refuses a second account, refreshes the same one, and takes an account over from whoever has it |
| ProfileStore.Memory.UnlinkXAccount | profile/memory/store.go:102-119 | removes the link exactly when it is to this account |
| ProfileStore.Memory.GetXProfile | profile/memory/store.go:121-131 | the linked account, not found without one |
| ProfileStore.Memory.GetUserLinkedToXAccount | profile/memory/store.go:133-148 | the one user whose link is to the account, not found exactly when there is none |
| ProfileCache.NamesAreNeverStale | profile/cache/store.go:31-80 | over every run of reads, writes and expiries, display names and "not found" are the store's |
| ProfileCache.StaleExactlyWhenDisplaced | profile/cache/store.go:31-80 | over every run a whole answer differs from the store's if and only if the user's X account was taken while cached and nothing dropped the entry since |
| ProfileCache.FreshUntilAnAccountMoves | profile/cache/store.go:31-80 | in runs where no X account moves between users every answer is the store's |
| ProfileCache.StaleAnswerExists | profile/cache/store.go:66-72 | a run in which a user is still shown with the X account that another user took |
| ProfileCache.Cache.GetProfile | profile/cache/store.go:31-56 | the read answers from the entry or the store, and fills the entry, "not found" included |
| ProfileCache.Cache.SetDisplayName | profile/cache/store.go:58-64 | the write goes to the store and drops the user's entry |
| ProfileCache.Cache.LinkXAccount | profile/cache/store.go:66-72 | a successful link drops the linking user's entry and no other |
| ProfileCache.Cache.UnlinkXAccount | profile/cache/store.go:74-80 | a successful unlink drops the user's entry |

## Left out

- gRPC transport, pings, stream health, logging, push delivery, the event bus, text moderation, the X client and receipt verification; a moderation verdict is a parameter.
- Authentication: requests arrive with the user they come from.
- The Postgres stores, whose semantics live in the database.
- The several reads of one check as separate steps, except for CanSendMessage in the results of StaggeredReads: elsewhere a check reads the stores at one moment. It may be followed by any steps of others before its request's first write.
- Failing stores and the internal errors they would cause.
- IsUserMuted, HasSendPermission and the push state of the in-memory chat store; display name, description, messaging fee and last activity of chats.
- Joining a chat by payment, which the server denies; removing and reporting users, which it denies or ignores.
- A message's content list beyond its first element, and the emoji transform.
- Announcements' texts; they are put by a step of their own at any time.
- Activity notifications other than tips in the run model, and their texts; a tip and its two notifications are one step.
- The order of notifications with equal timestamps.
- In-place mutation inside Go slices and protobuf messages: lists are values that the methods reassign; the stores clone what they hand out.
- An unbuffered event stream: the channel has the buffer it was made with, and a send needs room in it.
- Streams whose handler ends without cleaning up; cleanup is deferred in the source.
- A typing notice being published before the map is updated: both are one step.
- A purchase that computes its airdrop boundary before another week's report writes: computing and writing are one step.
- Airdrop batches that overlap, and owners that are not valid public keys.
- Purchases' receipts; a purchase registers the user and schedules the first airdrop.
- Races inside the caches between reading the store and filling the entry.
- AuthorizePublicKey and RevokePublicKey, which are disabled; RemoveKey is modelled on the store.
- Liveness: that a send completes within its timeout.
