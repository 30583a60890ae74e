/** Properties that involve both collections: the chat handlers look users up
    in the User collection, which the user handlers change. */
module Marketplace {
  import opened Common
  import UserController
  import ChatController

  /** Deleting a chat's buyer leaves the chat in place, and from then on
      `index` on it never answers: the populated buyer is null before either
      party is compared. */
  lemma DeletedBuyerSilencesIndex(users: map<UserId, UserController.User>, chats: map<ChatController.ChatId, ChatController.Chat>,
                                  id: ChatController.ChatId, reader: UserId)
    requires id in chats
    ensures var after := UserController.DeleteStep(users, chats[id].buyer).users;
            ChatController.Index(chats, after.Keys, id, reader) == NoReply
  {
  }

  /** `initialize` needs the buyer in the User collection and nothing else
      from it: once the buyer is registered, the seller may be deleted and the
      chat is still opened. */
  lemma InitializeIgnoresSellerRecord(users: map<UserId, UserController.User>,
                                      chats: map<ChatController.ChatId, ChatController.Chat>,
                                      buyer: UserId, seller: UserId, product: ChatController.ProductId,
                                      chatId: ChatController.ChatId, welcomeId: ChatController.MessageId, now: Time)
    requires chatId !in chats && buyer in users && buyer != seller
    requires !ChatController.HasChat(chats, buyer, product)
    ensures var after := UserController.DeleteStep(users, seller).users;
            ChatController.InitializeStep(chats, after.Keys, buyer, product, seller, false, chatId, welcomeId, now).reply.Json?
  {
  }

  /** A run of the chat handlers: U1 opens a chat with U2 about P1, posts
      "hello", U3 is refused, and a second opening is refused. After the
      post the chat holds two messages while its counter still reads 1. */
  lemma ChatScenario(users: set<UserId>, now: Time)
    requires "U1" in users
    ensures var created := ChatController.InitializeStep(map[], users, "U1", "P1", "U2", false, "C1", "M0", now);
            && created.reply.Json?
            && |created.chats["C1"].messages| == 1
            && created.chats["C1"].messages[0].sent_by == ChatController.SYSTEM_SENDER
            && var sent := ChatController.StoreStep(created.chats, "C1", "U1", Some("hello"), Some("buyer"), "M1", now + 1);
               && sent.reply == Json(ChatController.OK)
               && |sent.chats["C1"].messages| == 2
               && sent.chats["C1"].messages[1].content == "hello"
               && sent.chats["C1"].messagesLength == 1
               && var refused := ChatController.StoreStep(sent.chats, "C1", "U3", Some("hi"), Some("buyer"), "M2", now + 2);
                  && refused == ChatController.ChatStep(Fail(401, ChatController.FORBIDDEN), sent.chats)
                  && ChatController.InitializeStep(sent.chats, users, "U1", "P1", "U2", false, "C2", "M3", now + 3) ==
                     ChatController.ChatStep(Fail(400, ChatController.CHAT_EXISTS), sent.chats)
  {
  }
}
