/** The decision whether a user may send a message with given content and payment. */
module Authorizer {
  import opened Ids
  import opened Messages
  import opened Rooms

  /** What the authorizer reads: the four stores at one moment. */
  datatype Stores = Stores(
    rooms: View,
    registered: set<UserId>,
    logs: map<ChatId, map<MessageId, Message>>,
    fulfilled: set<IntentId>)
  {
    function Log(chat: ChatId): map<MessageId, Message>
    {
      if chat in logs then logs[chat] else map[]
    }

    predicate IsOwner(chat: ChatId, user: UserId)
    {
      chat in rooms.chats && rooms.chats[chat].owner == Some(user)
    }
  }

  /** Custom metadata of a payment, as far as it can be decoded. */
  datatype PaymentMetadata =
    | Missing
    | Undecodable
    | ForTip(chat: ChatId, message: MessageId, tipper: UserId)
    | ForListenerMessage(chat: ChatId, user: UserId)
    | ForGroup(user: UserId)

  datatype PaymentRecord = PaymentRecord(quantity: nat, metadata: PaymentMetadata)

  /** The payments made so far, which never change. */
  type Payments = map<IntentId, PaymentRecord>

  datatype Reason =
    | NoSuchChat | NotRegistered | NotAMember | MemberIsMuted
    | ReferenceNotFound | InvalidReferenceType | ReferenceNotOffStage
    | PaymentNotProvided | MetadataMissing | MetadataInvalid | AlreadyFulfilled
    | PaidForOtherChat | PaidForOtherMessage | PaidByOtherUser | PaidOtherAmount
    | NoDeletePermission | OnlyOwnerReviews | UnsupportedContent | ChatIsClosed

  datatype Decision = Allow | Deny(reason: Reason)

  /** The checks that depend on the kind of content. */
  function CheckContent(s: Stores, payments: Payments, chat: ChatId, user: UserId, content: Content,
                        intent: Option<IntentId>): Decision
  {
    match content
    case Text(_) => Allow
    case Reaction(reference, _) => CheckTextReference(s, chat, reference)
    case Reply(reference, _) => CheckTextReference(s, chat, reference)
    case Tip(reference, quarks) =>
      var decision := CheckTextReference(s, chat, reference);
      if decision.Deny? then decision else CheckTipPayment(s, payments, chat, user, reference, quarks, intent)
    case Deleted(reference) =>
      if reference !in s.Log(chat) then Deny(ReferenceNotFound)
      else
        var target := s.Log(chat)[reference];
        if !(target.content.Text? || target.content.Reply? || target.content.Reaction?) then Deny(InvalidReferenceType)
        else if s.IsOwner(chat, user) || target.sender == Some(user) then Allow
        else Deny(NoDeletePermission)
    case Review(reference, _) =>
      if reference !in s.Log(chat) then Deny(ReferenceNotFound)
      else if !s.Log(chat)[reference].offStage then Deny(ReferenceNotOffStage)
      else
        var decision := CheckTextReference(s, chat, reference);
        if decision.Deny? then decision
        else if !s.IsOwner(chat, user) then Deny(OnlyOwnerReviews)
        else Allow
    case Announcement(_) => Deny(UnsupportedContent)
    case Unsupported => Deny(UnsupportedContent)
  }

  function CheckTextReference(s: Stores, chat: ChatId, reference: MessageId): Decision
  {
    if reference !in s.Log(chat) then Deny(ReferenceNotFound)
    else
      var content := s.Log(chat)[reference].content;
      if content.Text? || content.Reply? then Allow else Deny(InvalidReferenceType)
  }

  /** The payment's metadata, or why it cannot be used as metadata of the wanted kind. */
  function LoadMetadata(payments: Payments, intent: IntentId,
                        wanted: PaymentMetadata -> bool): (Decision, PaymentMetadata)
  {
    if intent !in payments || payments[intent].metadata.Missing? then (Deny(MetadataMissing), Missing)
    else if !wanted(payments[intent].metadata) then (Deny(MetadataInvalid), Undecodable)
    else (Allow, payments[intent].metadata)
  }

  function CheckTipPayment(s: Stores, payments: Payments, chat: ChatId, user: UserId, reference: MessageId,
                           quarks: nat, intent: Option<IntentId>): Decision
  {
    if intent.None? then Deny(PaymentNotProvided)
    else
      var (decision, metadata) := LoadMetadata(payments, intent.value, (m: PaymentMetadata) => m.ForTip?);
      if decision.Deny? then decision
      else if intent.value in s.fulfilled then Deny(AlreadyFulfilled)
      else if metadata.chat != chat then Deny(PaidForOtherChat)
      else if metadata.message != reference then Deny(PaidForOtherMessage)
      else if metadata.tipper != user then Deny(PaidByOtherUser)
      else if payments[intent.value].quantity != quarks then Deny(PaidOtherAmount)
      else Allow
  }

  function CheckListenerPayment(s: Stores, payments: Payments, chat: ChatId, user: UserId,
                                intent: Option<IntentId>): Decision
  {
    if intent.None? then Deny(PaymentNotProvided)
    else
      var (decision, metadata) := LoadMetadata(payments, intent.value, (m: PaymentMetadata) => m.ForListenerMessage?);
      if decision.Deny? then decision
      else if intent.value in s.fulfilled then Deny(AlreadyFulfilled)
      else if metadata.chat != chat then Deny(PaidForOtherChat)
      else if metadata.user != user then Deny(PaidByOtherUser)
      else Allow
  }

  function CanSendMessage(s: Stores, payments: Payments, chat: ChatId, user: UserId, content: Content,
                          intent: Option<IntentId>): Decision
  {
    if chat !in s.rooms.chats then Deny(NoSuchChat)
    else if user !in s.registered then Deny(NotRegistered)
    else if !s.rooms.IsActive(chat, user) then Deny(NotAMember)
    else if s.rooms.Entry(chat, user).value.isMuted then Deny(MemberIsMuted)
    else
      var decision := CheckContent(s, payments, chat, user, content, intent);
      if decision.Deny? then decision
      else if (content.Text? || content.Reply?) && !s.IsOwner(chat, user)
          && !s.rooms.chats[chat].isOpen then Deny(ChatIsClosed)
      else if NeedsListenerPayment(s, chat, user, content) then CheckListenerPayment(s, payments, chat, user, intent)
      else Allow
  }

  /** User text from a member who is neither the owner nor a speaker. */
  predicate NeedsListenerPayment(s: Stores, chat: ChatId, user: UserId, content: Content)
  {
    && (content.Text? || content.Reply?)
    && !s.IsOwner(chat, user)
    && !(s.rooms.Entry(chat, user).Some? && s.rooms.Entry(chat, user).value.hasSendPermission)
  }

  /** The message has to be paid for. */
  predicate NeedsPayment(s: Stores, chat: ChatId, user: UserId, content: Content)
  {
    content.Tip? || NeedsListenerPayment(s, chat, user, content)
  }

  /** The message another message points to, if its kind has one. */
  function ReferenceOf(content: Content): Option<MessageId>
  {
    match content
    case Reaction(reference, _) => Some(reference)
    case Reply(reference, _) => Some(reference)
    case Tip(reference, _) => Some(reference)
    case Deleted(reference) => Some(reference)
    case Review(reference, _) => Some(reference)
    case _ => None
  }

  /** `target` is a message that `content`, sent by `sender`, may point to. */
  predicate MayReferTo(content: Content, sender: UserId, isOwner: bool, target: Message)
  {
    match content
    case Reaction(_, _) => target.content.Text? || target.content.Reply?
    case Reply(_, _) => target.content.Text? || target.content.Reply?
    case Tip(_, _) => target.content.Text? || target.content.Reply?
    case Deleted(_) =>
      && (target.content.Text? || target.content.Reply? || target.content.Reaction?)
      && (isOwner || target.sender == Some(sender))
    case Review(_, _) => (target.content.Text? || target.content.Reply?) && target.offStage && isOwner
    case _ => true
  }

  /** An unused payment made for exactly this message by this user. */
  predicate IsPaidFor(s: Stores, payments: Payments, chat: ChatId, user: UserId, content: Content,
                      intent: Option<IntentId>)
  {
    && intent.Some? && intent.value in payments && intent.value !in s.fulfilled
    && var record := payments[intent.value];
       if content.Tip? then record == PaymentRecord(content.quarks, ForTip(chat, content.reference, user))
       else record.metadata == ForListenerMessage(chat, user)
  }

  predicate IsInGoodStanding(s: Stores, chat: ChatId, user: UserId)
  {
    && chat in s.rooms.chats && user in s.registered
    && s.rooms.IsActive(chat, user) && !s.rooms.Entry(chat, user).value.isMuted
  }

  /** The decision by the rules above: the sender is a registered, unmuted
      member, it is user content that points to a fitting message of the chat if
      it points to one, text goes into an open chat or comes from the owner, and
      it is paid for if it has to be. */
  lemma {:induction false} AllowedByRules(s: Stores, payments: Payments, chat: ChatId, user: UserId,
                                              content: Content, intent: Option<IntentId>)
    ensures CanSendMessage(s, payments, chat, user, content, intent) == Allow <==>
              && IsInGoodStanding(s, chat, user)
              && !content.Announcement? && !content.Unsupported?
              && (ReferenceOf(content).Some? ==>
                    && ReferenceOf(content).value in s.Log(chat)
                    && MayReferTo(content, user, s.IsOwner(chat, user), s.Log(chat)[ReferenceOf(content).value]))
              && (content.Text? || content.Reply? ==> s.IsOwner(chat, user) || s.rooms.chats[chat].isOpen)
              && (NeedsPayment(s, chat, user, content) ==> IsPaidFor(s, payments, chat, user, content, intent))
  {
    match content
    case Tip(reference, quarks) =>
      if intent.Some? && intent.value in payments {
        assert payments[intent.value].metadata.ForTip? ==>
            payments[intent.value] == PaymentRecord(payments[intent.value].quantity,
              ForTip(payments[intent.value].metadata.chat, payments[intent.value].metadata.message,
                     payments[intent.value].metadata.tipper));
      }
    case _ =>
  }

  /** What a message has to meet, written out. */
  predicate MaySend(s: Stores, payments: Payments, chat: ChatId, user: UserId, content: Content,
                    intent: Option<IntentId>)
  {
    && chat in s.rooms.chats && user in s.registered
    && var md, entry, log := s.rooms.chats[chat], s.rooms.Entry(chat, user), s.Log(chat);
       var isOwner := md.owner == Some(user);
       && entry.Some? && !entry.value.isSoftDeleted && !entry.value.isMuted
       && match content {
            case Text(_) =>
              && (isOwner || md.isOpen)
              && (isOwner || entry.value.hasSendPermission || IsPaidByListener(s, payments, chat, user, intent))
            case Reply(reference, _) =>
              && reference in log && (log[reference].content.Text? || log[reference].content.Reply?)
              && (isOwner || md.isOpen)
              && (isOwner || entry.value.hasSendPermission || IsPaidByListener(s, payments, chat, user, intent))
            case Reaction(reference, _) =>
              reference in log && (log[reference].content.Text? || log[reference].content.Reply?)
            case Tip(reference, quarks) =>
              && reference in log && (log[reference].content.Text? || log[reference].content.Reply?)
              && intent.Some? && intent.value in payments && intent.value !in s.fulfilled
              && payments[intent.value] == PaymentRecord(quarks, ForTip(chat, reference, user))
            case Deleted(reference) =>
              && reference in log
              && (log[reference].content.Text? || log[reference].content.Reply? || log[reference].content.Reaction?)
              && (isOwner || log[reference].sender == Some(user))
            case Review(reference, _) =>
              && reference in log && (log[reference].content.Text? || log[reference].content.Reply?)
              && log[reference].offStage && isOwner
            case Announcement(_) => false
            case Unsupported => false
          }
  }

  /** An unused payment made by this user for a message as a listener of this chat. */
  predicate IsPaidByListener(s: Stores, payments: Payments, chat: ChatId, user: UserId, intent: Option<IntentId>)
  {
    && intent.Some? && intent.value in payments && intent.value !in s.fulfilled
    && payments[intent.value].metadata == ForListenerMessage(chat, user)
  }

  /** A message is allowed if and only if its sender is a registered member who is not
      muted, it points to a fitting message if its kind points to one, text goes into
      an open chat or comes from the owner, text or a reply by anyone but the owner and
      the speakers comes with an unused payment of its sender for this chat, and a tip
      with an unused payment for exactly this tip. */
  lemma {:induction false} AllowedExactlyWhen(s: Stores, payments: Payments, chat: ChatId, user: UserId,
                                              content: Content, intent: Option<IntentId>)
    ensures CanSendMessage(s, payments, chat, user, content, intent) == Allow <==>
            MaySend(s, payments, chat, user, content, intent)
  {
    AllowedByRules(s, payments, chat, user, content, intent);
  }

  /** Who has to pay for text: without a payment, text or a reply that may be sent with
      some payment is refused exactly if its sender is neither the owner nor a speaker. */
  lemma {:induction false} ListenersPayForText(s: Stores, payments: Payments, chat: ChatId, user: UserId,
                                               content: Content, intent: Option<IntentId>)
    requires (content.Text? || content.Reply?) && CanSendMessage(s, payments, chat, user, content, intent) == Allow
    ensures CanSendMessage(s, payments, chat, user, content, None) == Allow <==>
              || s.rooms.chats[chat].owner == Some(user)
              || s.rooms.members[chat][user].hasSendPermission
    ensures CanSendMessage(s, payments, chat, user, content, None) != Allow ==>
              && intent.Some? && intent.value in payments && intent.value !in s.fulfilled
              && payments[intent.value].metadata == ForListenerMessage(chat, user)
  {
    AllowedByRules(s, payments, chat, user, content, intent);
    AllowedByRules(s, payments, chat, user, content, None);
  }

  /** A message needs a payment exactly if it is refused without one and allowed with some. */
  lemma {:induction false} PaymentIsNeededExactlyWhen(s: Stores, payments: Payments, chat: ChatId, user: UserId,
                                                      content: Content, intent: Option<IntentId>)
    requires CanSendMessage(s, payments, chat, user, content, intent) == Allow
    ensures NeedsPayment(s, chat, user, content) <==>
            CanSendMessage(s, payments, chat, user, content, None) != Allow
  {
    AllowedByRules(s, payments, chat, user, content, intent);
    AllowedByRules(s, payments, chat, user, content, None);
  }
}
