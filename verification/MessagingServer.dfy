/** The handlers of the messaging service, store call by store call. */
module MessagingServer {
  import opened Ids
  import opened Messages
  import opened Rooms
  import opened Authorizer
  import opened Backend
  import opened Server
  import opened Requests
  import opened Outcomes
  import MessageStore

  class MessagingServer {
    const b: Backend

    constructor (b: Backend)
      ensures this.b == b
    {
      this.b := b;
    }

    /** Looks up a message that another one points to and checks its kind. */
    method GetReference(chat: ChatId, reference: MessageId, reactionToo: bool)
        returns (decision: Decision, target: Message)
      requires b.Valid()
      ensures reference !in b.Abs().Log(chat) <==> decision == Deny(ReferenceNotFound)
      ensures reference in b.Abs().Log(chat) ==>
                && target == b.Abs().Log(chat)[reference]
                && decision == if target.content.Text? || target.content.Reply?
                   || (reactionToo && target.content.Reaction?)
                               then Allow else Deny(InvalidReferenceType)
    {
      var r := b.messages.GetMessage(chat, reference);
      if !r.Ok? {
        return Deny(ReferenceNotFound), Message(reference, None, Unsupported, false, 0);
      }
      target := r.value;
      match target.content {
        case Text(_) => decision := Allow;
        case Reply(_, _) => decision := Allow;
        case Reaction(_, _) => decision := if reactionToo then Allow else Deny(InvalidReferenceType);
        case _ => decision := Deny(InvalidReferenceType);
      }
    }

    /** A used or unsuitable payment, read from the payment data and the intent store. */
    method LoadUnusedPayment(payments: Payments, intent: Option<IntentId>, forTip: bool)
        returns (decision: Decision, metadata: PaymentMetadata)
      ensures decision ==
              if intent.None? then Deny(PaymentNotProvided)
              else if intent.value !in payments || payments[intent.value].metadata.Missing? then Deny(MetadataMissing)
              else if !(if forTip then payments[intent.value].metadata.ForTip?
                        else payments[intent.value].metadata.ForListenerMessage?)
              then Deny(MetadataInvalid)
              else if intent.value in b.Abs().fulfilled then Deny(AlreadyFulfilled)
              else Allow
      ensures decision == Allow ==> metadata == payments[intent.value].metadata
    {
      metadata := Missing;
      if intent.None? {
        return Deny(PaymentNotProvided), metadata;
      }
      if intent.value !in payments || payments[intent.value].metadata.Missing? {
        return Deny(MetadataMissing), metadata;
      }
      metadata := payments[intent.value].metadata;
      if !(if forTip then metadata.ForTip? else metadata.ForListenerMessage?) {
        return Deny(MetadataInvalid), metadata;
      }
      var isFulfilled := b.intents.IsFulfilled(intent.value);
      if isFulfilled {
        return Deny(AlreadyFulfilled), metadata;
      }
      return Allow, metadata;
    }

    method CheckTip(payments: Payments, chat: ChatId, user: UserId, reference: MessageId, quarks: nat,
                    intent: Option<IntentId>)
      returns (decision: Decision)
      requires b.Valid()
      ensures decision == CheckTipPayment(b.Abs(), payments, chat, user, reference, quarks, intent)
      ensures decision == Allow <==>
                && intent.Some? && intent.value in payments && intent.value !in b.Abs().fulfilled
                && payments[intent.value] == PaymentRecord(quarks, ForTip(chat, reference, user))
    {
      var metadata;
      decision, metadata := LoadUnusedPayment(payments, intent, true);
      if decision.Deny? {
        return;
      }
      if metadata.chat != chat {
        return Deny(PaidForOtherChat);
      }
      if metadata.message != reference {
        return Deny(PaidForOtherMessage);
      }
      if metadata.tipper != user {
        return Deny(PaidByOtherUser);
      }
      if payments[intent.value].quantity != quarks {
        return Deny(PaidOtherAmount);
      }
    }

    method CheckListener(payments: Payments, chat: ChatId, user: UserId, intent: Option<IntentId>)
        returns (decision: Decision)
      requires b.Valid()
      ensures decision == CheckListenerPayment(b.Abs(), payments, chat, user, intent)
      ensures decision == Allow <==>
                && intent.Some? && intent.value in payments && intent.value !in b.Abs().fulfilled
                && payments[intent.value].metadata == ForListenerMessage(chat, user)
    {
      var metadata;
      decision, metadata := LoadUnusedPayment(payments, intent, false);
      if decision.Deny? {
        return;
      }
      if metadata.chat != chat {
        return Deny(PaidForOtherChat);
      }
      if metadata.user != user {
        return Deny(PaidByOtherUser);
      }
    }

    /** The switch over the content type, with the two flags it sets. */
    method SwitchOnContent(payments: Payments, chat: ChatId, user: UserId, isOwner: bool, content: Content,
                           intent: Option<IntentId>)
      returns (decision: Decision, canSendWhenClosed: bool, requiresListenerPayment: bool)
      requires b.Valid() && isOwner == b.Abs().IsOwner(chat, user)
      ensures decision == CheckContent(b.Abs(), payments, chat, user, content, intent)
      ensures decision == Allow ==> requiresListenerPayment == (content.Text? || content.Reply?)
                                    && canSendWhenClosed == !requiresListenerPayment
    {
      canSendWhenClosed, requiresListenerPayment := false, false;
      var target;
      match content {
        case Text(_) =>
          requiresListenerPayment := true;
          decision := Allow;
        case Reaction(reference, _) =>
          canSendWhenClosed := true;
          decision, target := GetReference(chat, reference, false);
        case Reply(reference, _) =>
          requiresListenerPayment := true;
          decision, target := GetReference(chat, reference, false);
        case Tip(reference, quarks) =>
          canSendWhenClosed := true;
          decision, target := GetReference(chat, reference, false);
          if decision == Allow {
            decision := CheckTip(payments, chat, user, reference, quarks, intent);
          }
        case Deleted(reference) =>
          canSendWhenClosed := true;
          decision, target := GetReference(chat, reference, true);
          if decision == Allow {
            var hasDeletePermission := false;
            if isOwner {
              hasDeletePermission := true;
            }
            if target.sender == Some(user) {
              hasDeletePermission := true;
            }
            if !hasDeletePermission {
              decision := Deny(NoDeletePermission);
            }
          }
        case Review(reference, _) =>
          canSendWhenClosed := true;
          decision, target := GetReference(chat, reference, false);
          if decision != Deny(ReferenceNotFound) && !target.offStage {
            decision := Deny(ReferenceNotOffStage);
          } else if decision == Allow && !isOwner {
            decision := Deny(OnlyOwnerReviews);
          }
        case _ =>
          decision := Deny(UnsupportedContent);
      }
    }

    /** The authorizer, one store call after another, decides as specified. */
    method CanSendMessage(payments: Payments, chat: ChatId, user: UserId, content: Content, intent: Option<IntentId>)
      returns (decision: Decision)
      requires b.Valid()
      ensures decision == Authorizer.CanSendMessage(b.Abs(), payments, chat, user, content, intent)
      ensures decision == Allow <==> MaySend(b.Abs(), payments, chat, user, content, intent)
    {
      AllowedExactlyWhen(b.Abs(), payments, chat, user, content, intent);
      var md := b.chats.GetChatMetadata(chat);
      if md.None? {
        return Deny(NoSuchChat);
      }
      var isRegistered := b.accounts.IsRegistered(user);
      if !isRegistered {
        return Deny(Reason.NotRegistered);
      }
      var member := b.chats.GetMember(chat, user);
      if member.None? {
        return Deny(NotAMember);
      }
      if member.value.isMuted {
        return Deny(MemberIsMuted);
      }
      decision := CheckMessage(payments, md.value, user, member.value, content, intent);
    }

    /** What depends on the message, once its sender may send in the chat at all. */
    method CheckMessage(payments: Payments, md: Metadata, user: UserId, member: Member, content: Content,
                        intent: Option<IntentId>)
      returns (decision: Decision)
      requires b.Valid()
      requires md.chatID in b.Abs().rooms.chats && b.Abs().rooms.chats[md.chatID] == md
      requires b.Abs().rooms.IsActive(md.chatID, user) && b.Abs().rooms.Entry(md.chatID, user) == Some(member)
      requires user in b.Abs().registered && !member.isMuted
      ensures decision == Authorizer.CanSendMessage(b.Abs(), payments, md.chatID, user, content, intent)
    {
      var chat := md.chatID;
      var isOwner := md.owner == Some(user);
      var canSendWhenClosed, requiresListenerPayment;
      decision, canSendWhenClosed, requiresListenerPayment :=
          SwitchOnContent(payments, chat, user, isOwner, content, intent);
      if decision.Deny? {
        return;
      }
      if !canSendWhenClosed && !isOwner && !md.isOpen {
        return Deny(ChatIsClosed);
      }
      if !isOwner && !member.hasSendPermission && requiresListenerPayment {
        decision := CheckListener(payments, chat, user, intent);
      }
    }

    /** Puts a message, also for announcements; the event bus is not modelled here. */
    method Send(chat: ChatId, draft: MessageStore.Draft, newId: MessageId, now: int)
        returns (r: MessageStore.Result<Message>)
      requires b.Valid() && newId !in b.Abs().Log(chat)
      modifies b.messages
      ensures b.Valid()
      ensures draft.id.Some? ==> r.IdProvided? && b.Abs() == old(b.Abs())
      ensures draft.id.None? ==>
                && r.Ok?
                && r.value == Message(newId, draft.sender, draft.content, draft.offStage,
                                      if draft.ts.Some? then draft.ts.value else now)
                && b.Abs() == old(b.Abs()).(logs := old(b.Abs()).logs[chat := old(b.Abs()).Log(chat)[newId := r.value]])
    {
      r := b.messages.PutMessage(chat, draft, newId, now);
      if draft.id.None? {
        assert b.Abs().logs == old(b.Abs()).logs[chat := old(b.Abs()).Log(chat)[newId := r.value]];
      } else {
        assert b.Abs().logs == old(b.Abs()).logs;
      }
    }

    method SendMessage(payments: Payments, chat: ChatId, user: UserId, content: Content, intent: Option<IntentId>,
                       newId: MessageId, now: int) returns (answer: Answer)
      requires b.Valid() && newId !in b.Abs().Log(chat)
      modifies b.messages, b.intents
      ensures b.Valid()
      ensures (b.Abs(), answer) == SendRequest(old(b.Abs()), payments, chat, user, content, intent, newId, now)
      ensures IsSend(old(b.Abs()), b.Abs(), answer, payments, chat, user, content, intent, newId, now)
    {
      SendMeans(b.Abs(), payments, chat, user, content, intent, newId, now);
      var decision := CanSendMessage(payments, chat, user, content, intent);
      if decision != Allow {
        return Denied;
      }
      var wasSenderOffStage := false;
      if intent.Some? {
        if content.Text? || content.Reply? {
          wasSenderOffStage := true;
        }
      }
      var msg := MessageStore.Draft(None, Some(user), content, wasSenderOffStage, None);
      var sent := Send(chat, msg, newId, now);
      if intent.Some? {
        var marked := b.MarkFulfilled(intent.value);
        if !marked {
          return Denied;
        }
      }
      return SendOk;
    }
  }
}
