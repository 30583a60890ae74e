/** The chat half of the marketplace backend: the Chat collection, seen as a
    map from chat id to chat record, and the four handlers of ChatController
    (initialize, store, index, show) as guarded steps over it.

    Each handler that writes is given twice: a pure step function that says
    what reply it gives and what the collection becomes (the specification,
    with the source's guard order in its contract), and a method of
    ChatCollection that does the same work the way the handler does it,
    fetching a record, changing it field by field and saving it. */
module ChatController {
  import opened Common

  type ChatId = string
  type ProductId = string
  type MessageId = string

  /** The `sent_by` label of the welcome message. */
  const SYSTEM_SENDER: string := "chat"
  const WELCOME_TEXT: string :=
    "Bem vindo ao chat da lojinha! Tome cuidado com quais informações com quais informações compartilhar!"

  const SELF_PURCHASE: string := "Você não pode comprar seu próprio produto"
  const USER_NOT_FOUND: string := "Usuário não encontrado!"
  const CHAT_EXISTS: string := "Chat já criado!"
  const PRODUCT_NOT_FOUND: string := "Produto não encontrado"
  const INVALID_MESSAGE: string := "Mensagem inválida!"
  const CHAT_NOT_FOUND: string := "Chat não encontrado!"
  const FORBIDDEN: string := "Você não pode acessar esse chat!"
  const OK: string := "Ok!"

  datatype Message = Message(id: MessageId, content: string, date: Time, sent_by: string)

  /** A chat document. `messagesLength` is the counter the document is created
      with; `last_message` is unset until the first append. */
  datatype Chat = Chat(
    buyer: UserId,
    seller: UserId,
    product: ProductId,
    messagesLength: int,
    messages: seq<Message>,
    last_message: Option<Time>)

  /** The reply a handler gives and the Chat collection after it. */
  datatype ChatStep<+T> = ChatStep(reply: Reply<T>, chats: map<ChatId, Chat>)

  predicate IsParty(c: Chat, user: UserId) {
    c.buyer == user || c.seller == user
  }

  /** `Chat.find({ buyer, product })` returns a non-empty array. */
  predicate HasChat(chats: map<ChatId, Chat>, buyer: UserId, product: ProductId) {
    exists id :: id in chats && chats[id].buyer == buyer && chats[id].product == product
  }

  /** The document `initialize` builds: one welcome message from the system
      sender and a counter set to 1. */
  function WelcomeChat(buyer: UserId, seller: UserId, product: ProductId, welcomeId: MessageId, now: Time): Chat {
    Chat(buyer, seller, product, 1, [Message(welcomeId, WELCOME_TEXT, now, SYSTEM_SENDER)], None)
  }

  // ---------------------------------------------------------------------
  // Invariants of every collection reachable through initialize and store
  // ---------------------------------------------------------------------

  /** At most one chat per (buyer, product) pair. */
  ghost predicate UniquePairs(chats: map<ChatId, Chat>) {
    forall a, b ::
      a in chats && b in chats && chats[a].buyer == chats[b].buyer && chats[a].product == chats[b].product
      ==> a == b
  }

  /** Every chat has two distinct parties and starts with the welcome message.
      Its counter stays at 1: `store` increments a misspelled field, so the
      stored `messagesLength` never moves from the value `initialize` gave it. */
  ghost predicate WellFormed(c: Chat) {
    && c.buyer != c.seller
    && c.messagesLength == 1
    && |c.messages| >= 1
    && c.messages[0].sent_by == SYSTEM_SENDER
    && c.messages[0].content == WELCOME_TEXT
  }

  ghost predicate ChatsValid(chats: map<ChatId, Chat>) {
    && UniquePairs(chats)
    && forall id :: id in chats ==> WellFormed(chats[id])
  }

  /** `after` is `before` with message `m` appended to chat `id` at time `now`,
      and nothing else changed. */
  ghost predicate Appended(before: map<ChatId, Chat>, after: map<ChatId, Chat>, id: ChatId, m: Message, now: Time) {
    && id in before
    && after.Keys == before.Keys
    && (forall k :: k in before && k != id ==> after[k] == before[k])
    && after[id].buyer == before[id].buyer
    && after[id].seller == before[id].seller
    && after[id].product == before[id].product
    && after[id].messagesLength == before[id].messagesLength
    && after[id].messages == before[id].messages + [m]
    && after[id].last_message == Some(now)
  }

  // ---------------------------------------------------------------------
  // The handlers as steps
  // ---------------------------------------------------------------------

  /** `initialize`: the user opens a chat with the seller about a product.
      `productQueryFailed` says whether `Product.find` threw; its result is an
      array, always truthy, so that is the only way the product check fails.
      `chatId` and `welcomeId` are the fresh ObjectIds, `now` the clock. */
  function InitializeStep(chats: map<ChatId, Chat>, users: set<UserId>, user: UserId, product: ProductId,
                          seller: UserId, productQueryFailed: bool,
                          chatId: ChatId, welcomeId: MessageId, now: Time): (s: ChatStep<Chat>)
    requires chatId !in chats
    ensures !s.reply.Json? ==> s.chats == chats
    ensures !s.reply.NoReply?
    ensures user == seller ==> s.reply == Fail(400, SELF_PURCHASE)
    ensures user != seller && user !in users ==> s.reply == Fail(404, USER_NOT_FOUND)
    ensures user != seller && user in users && HasChat(chats, user, product) ==>
              s.reply == Fail(400, CHAT_EXISTS)
    ensures user != seller && user in users && !HasChat(chats, user, product) && productQueryFailed ==>
              s.reply == Fail(404, PRODUCT_NOT_FOUND)
    ensures s.reply.Json? <==>
              user != seller && user in users && !HasChat(chats, user, product) && !productQueryFailed
    ensures s.reply.Json? ==>
              && s.chats == chats[chatId := s.reply.body]
              && s.reply.body.buyer == user && s.reply.body.seller == seller && s.reply.body.product == product
              && s.reply.body.messagesLength == 1
              && s.reply.body.messages == [Message(welcomeId, WELCOME_TEXT, now, SYSTEM_SENDER)]
              && s.reply.body.last_message == None
  {
    if user == seller then ChatStep(Fail(400, SELF_PURCHASE), chats)
    else if user !in users then ChatStep(Fail(404, USER_NOT_FOUND), chats)
    else if HasChat(chats, user, product) then ChatStep(Fail(400, CHAT_EXISTS), chats)
    else if productQueryFailed then ChatStep(Fail(404, PRODUCT_NOT_FOUND), chats)
    else
      var chat := WelcomeChat(user, seller, product, welcomeId, now);
      ChatStep(Json(chat), chats[chatId := chat])
  }

  /** `store`: `user` posts `message` labelled `sent_by` to chat `chatId`.
      `messageId` is the fresh ObjectId, `now` the clock. */
  function StoreStep(chats: map<ChatId, Chat>, chatId: ChatId, user: UserId,
                     message: Option<string>, sent_by: Option<string>,
                     messageId: MessageId, now: Time): (s: ChatStep<string>)
    ensures !s.reply.Json? ==> s.chats == chats
    ensures !s.reply.NoReply?
    ensures !Provided(message) || !Provided(sent_by) ==> s.reply == Fail(400, INVALID_MESSAGE)
    ensures Provided(message) && Provided(sent_by) && chatId !in chats ==> s.reply == Fail(404, CHAT_NOT_FOUND)
    ensures Provided(message) && Provided(sent_by) && chatId in chats && !IsParty(chats[chatId], user) ==>
              s.reply == Fail(401, FORBIDDEN)
    ensures s.reply.Json? <==>
              Provided(message) && Provided(sent_by) && chatId in chats && IsParty(chats[chatId], user)
    ensures s.reply.Json? ==>
              s.reply.body == OK &&
              Appended(chats, s.chats, chatId, Message(messageId, message.value, now, sent_by.value), now)
  {
    if !Provided(message) || !Provided(sent_by) then ChatStep(Fail(400, INVALID_MESSAGE), chats)
    else if chatId !in chats then ChatStep(Fail(404, CHAT_NOT_FOUND), chats)
    else if !IsParty(chats[chatId], user) then ChatStep(Fail(401, FORBIDDEN), chats)
    else
      var c := chats[chatId];
      var m := Message(messageId, message.value, now, sent_by.value);
      ChatStep(Json(OK), chats[chatId := c.(messages := c.messages + [m], last_message := Some(now))])
  }

  /** `index`: `user` reads chat `id`. The handler populates buyer and seller
      from the User collection (`users` holds its ids); a reference to a user
      that no longer exists populates as null, and reading `.id` off it
      throws, so such a chat gets no reply. The seller is only looked at when
      the user is not the buyer. */
  function Index(chats: map<ChatId, Chat>, users: set<UserId>, id: ChatId, user: UserId): (r: Reply<Chat>)
    ensures id !in chats ==> r == Fail(404, CHAT_NOT_FOUND)
    ensures r.Json? ==> id in chats && r.body == chats[id] && IsParty(chats[id], user)
    ensures r.Json? <==>
              id in chats && chats[id].buyer in users && IsParty(chats[id], user) &&
              (chats[id].buyer == user || chats[id].seller in users)
    ensures id in chats && chats[id].buyer in users && chats[id].buyer == user ==> r == Json(chats[id])
    ensures id in chats && chats[id].buyer in users && chats[id].seller in users ==>
              (r.Json? <==> IsParty(chats[id], user)) &&
              (!IsParty(chats[id], user) ==> r == Fail(401, FORBIDDEN))
    ensures r.NoReply? <==>
              id in chats && (chats[id].buyer !in users || (chats[id].buyer != user && chats[id].seller !in users))
  {
    if id !in chats then Fail(404, CHAT_NOT_FOUND)
    else
      var c := chats[id];
      if c.buyer !in users then NoReply
      else if c.buyer == user then Json(c)
      else if c.seller !in users then NoReply
      else if c.seller == user then Json(c)
      else Fail(401, FORBIDDEN)
  }

  /** `show`: every chat in which `user` is buyer or seller. */
  function Show(chats: map<ChatId, Chat>, user: UserId): (r: map<ChatId, Chat>)
    ensures forall id :: id in r <==> id in chats && IsParty(chats[id], user)
    ensures forall id :: id in r ==> r[id] == chats[id]
  {
    map id | id in chats && IsParty(chats[id], user) :: chats[id]
  }

  // ---------------------------------------------------------------------
  // The collection, changed in place by the handlers
  // ---------------------------------------------------------------------

  class ChatCollection {
    var chats: map<ChatId, Chat>
    /** The messages emitted on the realtime channel, in emit order. */
    ghost var broadcast: seq<Message>

    ghost predicate Valid()
      reads this
    {
      ChatsValid(chats)
    }

    constructor ()
      ensures Valid() && chats == map[] && broadcast == []
    {
      chats := map[];
      broadcast := [];
    }

    method Initialize(users: set<UserId>, user: UserId, product: ProductId, seller: UserId,
                      productQueryFailed: bool, chatId: ChatId, welcomeId: MessageId, now: Time)
      returns (r: Reply<Chat>)
      requires Valid() && chatId !in chats
      modifies this
      ensures Valid() && broadcast == old(broadcast)
      ensures ChatStep(r, chats) ==
              InitializeStep(old(chats), users, user, product, seller, productQueryFailed, chatId, welcomeId, now)
    {
      if user == seller {
        return Fail(400, SELF_PURCHASE);
      }
      if user !in users {
        return Fail(404, USER_NOT_FOUND);
      }
      if HasChat(chats, user, product) {
        return Fail(400, CHAT_EXISTS);
      }
      if productQueryFailed {
        return Fail(404, PRODUCT_NOT_FOUND);
      }
      var chat := WelcomeChat(user, seller, product, welcomeId, now);
      InitializePreservesValid(chats, users, user, product, seller, productQueryFailed, chatId, welcomeId, now);
      chats := chats[chatId := chat];
      r := Json(chat);
    }

    /** Fetches the chat, pushes the message, sets `last_message`, saves, and
        emits the message. */
    method Store(chatId: ChatId, user: UserId, message: Option<string>, sent_by: Option<string>,
                 messageId: MessageId, now: Time)
      returns (r: Reply<string>)
      requires Valid()
      modifies this
      ensures Valid()
      ensures ChatStep(r, chats) == StoreStep(old(chats), chatId, user, message, sent_by, messageId, now)
      ensures broadcast ==
              if r.Json? then old(broadcast) + [Message(messageId, message.value, now, sent_by.value)]
              else old(broadcast)
    {
      if !Provided(message) || !Provided(sent_by) {
        return Fail(400, INVALID_MESSAGE);
      }
      if chatId !in chats {
        return Fail(404, CHAT_NOT_FOUND);
      }
      var found := chats[chatId];
      if found.buyer != user && found.seller != user {
        return Fail(401, FORBIDDEN);
      }
      var messageObj := Message(messageId, message.value, now, sent_by.value);
      found := found.(messages := found.messages + [messageObj]);
      // The counter increment targets `messagesLenght`, a field the document
      // does not have: `messagesLength` keeps its value.
      found := found.(last_message := Some(now));
      StorePreservesValid(chats, chatId, user, message, sent_by, messageId, now);
      chats := chats[chatId := found];
      broadcast := broadcast + [messageObj];
      r := Json(OK);
    }
  }

  // ---------------------------------------------------------------------
  // Properties
  // ---------------------------------------------------------------------

  lemma InitializePreservesValid(chats: map<ChatId, Chat>, users: set<UserId>, user: UserId, product: ProductId,
                                 seller: UserId, productQueryFailed: bool,
                                 chatId: ChatId, welcomeId: MessageId, now: Time)
    requires chatId !in chats && ChatsValid(chats)
    ensures ChatsValid(InitializeStep(chats, users, user, product, seller, productQueryFailed, chatId, welcomeId, now).chats)
  {
  }

  lemma StorePreservesValid(chats: map<ChatId, Chat>, chatId: ChatId, user: UserId,
                            message: Option<string>, sent_by: Option<string>, messageId: MessageId, now: Time)
    requires ChatsValid(chats)
    ensures ChatsValid(StoreStep(chats, chatId, user, message, sent_by, messageId, now).chats)
  {
  }

  /** Once `initialize` has succeeded for a (buyer, product) pair, a second
      `initialize` for that pair, with any seller other than the buyer, is refused with 400 and
      adds nothing. */
  lemma InitializeTwiceConflicts(chats: map<ChatId, Chat>, users: set<UserId>, user: UserId, product: ProductId,
                                 seller: UserId, seller': UserId, productQueryFailed: bool, productQueryFailed': bool,
                                 chatId: ChatId, chatId': ChatId, welcomeId: MessageId, welcomeId': MessageId,
                                 now: Time, now': Time)
    requires chatId !in chats
    requires InitializeStep(chats, users, user, product, seller, productQueryFailed, chatId, welcomeId, now).reply.Json?
    requires user != seller'
    requires chatId' !in InitializeStep(chats, users, user, product, seller, productQueryFailed, chatId, welcomeId, now).chats
    ensures var first := InitializeStep(chats, users, user, product, seller, productQueryFailed, chatId, welcomeId, now);
            InitializeStep(first.chats, users, user, product, seller', productQueryFailed', chatId', welcomeId', now') ==
            ChatStep(Fail(400, CHAT_EXISTS), first.chats)
  {
    var first := InitializeStep(chats, users, user, product, seller, productQueryFailed, chatId, welcomeId, now);
    assert first.chats[chatId].buyer == user && first.chats[chatId].product == product;
    assert HasChat(first.chats, user, product);
  }

  /** Appending grows a well-formed chat's message list past its counter, which
      stays at 1. */
  lemma CounterLagsAfterStore(chats: map<ChatId, Chat>, chatId: ChatId, user: UserId,
                              message: Option<string>, sent_by: Option<string>, messageId: MessageId, now: Time)
    requires ChatsValid(chats)
    requires StoreStep(chats, chatId, user, message, sent_by, messageId, now).reply.Json?
    ensures var after := StoreStep(chats, chatId, user, message, sent_by, messageId, now).chats[chatId];
            after.messagesLength == 1 && |after.messages| >= 2
  {
  }

  /** The `sent_by` label is whatever the request says: a party may post a
      message that carries the system sender's label. */
  lemma SentByIsNotChecked(chats: map<ChatId, Chat>, chatId: ChatId, user: UserId,
                           message: Option<string>, messageId: MessageId, now: Time)
    requires chatId in chats && IsParty(chats[chatId], user) && Provided(message)
    ensures var s := StoreStep(chats, chatId, user, message, Some(SYSTEM_SENDER), messageId, now);
            s.reply == Json(OK) && Last(s.chats[chatId].messages).sent_by == SYSTEM_SENDER
  {
  }

  function Last(ms: seq<Message>): Message
    requires ms != []
  {
    ms[|ms| - 1]
  }

  /** `show(user)` lists exactly the chats `index` lets the user read, as long
      as both parties of each chat still exist. */
  lemma ShowMatchesIndex(chats: map<ChatId, Chat>, users: set<UserId>, id: ChatId, user: UserId)
    requires id in chats ==> chats[id].buyer in users && chats[id].seller in users
    ensures id in Show(chats, user) <==> Index(chats, users, id, user).Json?
    ensures id in Show(chats, user) ==> Index(chats, users, id, user).body == Show(chats, user)[id]
  {
  }

  // ---------------------------------------------------------------------
  // A run of messages
  // ---------------------------------------------------------------------

  /** One `store` request against a fixed chat. */
  datatype Send = Send(user: UserId, message: string, sent_by: string, id: MessageId, at: Time)

  /** The request passes every guard of `store` against chat `c`. */
  predicate Accepted(c: Chat, s: Send) {
    s.message != "" && s.sent_by != "" && IsParty(c, s.user)
  }

  /** The collection after the requests are handled one after another. */
  function StoreAll(chats: map<ChatId, Chat>, chatId: ChatId, sends: seq<Send>): (r: map<ChatId, Chat>)
    ensures r.Keys == chats.Keys
    decreases |sends|
  {
    if sends == [] then chats
    else
      var s := sends[0];
      StoreAll(StoreStep(chats, chatId, s.user, Some(s.message), Some(s.sent_by), s.id, s.at).chats, chatId, sends[1..])
  }

  /** The messages the requests carry, in request order. */
  function Delivered(sends: seq<Send>): seq<Message> {
    if sends == [] then []
    else [Message(sends[0].id, sends[0].message, sends[0].at, sends[0].sent_by)] + Delivered(sends[1..])
  }

  /** Accepted requests append their messages in request order after the
      existing ones; the parties, the product and the counter do not move, and
      no other chat changes. */
  lemma {:induction false} StoreAllAppendsInOrder(chats: map<ChatId, Chat>, chatId: ChatId, sends: seq<Send>)
    requires chatId in chats
    requires forall i :: 0 <= i < |sends| ==> Accepted(chats[chatId], sends[i])
    ensures var after := StoreAll(chats, chatId, sends);
            && after.Keys == chats.Keys
            && (forall k :: k in chats && k != chatId ==> after[k] == chats[k])
            && after[chatId].buyer == chats[chatId].buyer
            && after[chatId].seller == chats[chatId].seller
            && after[chatId].product == chats[chatId].product
            && after[chatId].messagesLength == chats[chatId].messagesLength
            && after[chatId].messages == chats[chatId].messages + Delivered(sends)
            && (sends != [] ==> after[chatId].last_message == Some(sends[|sends| - 1].at))
  {
    if sends == [] {
      assert Delivered(sends) == [];
      assert chats[chatId].messages + [] == chats[chatId].messages;
    } else {
      var s := sends[0];
      var m := Message(s.id, s.message, s.at, s.sent_by);
      var next := StoreStep(chats, chatId, s.user, Some(s.message), Some(s.sent_by), s.id, s.at).chats;
      assert Accepted(chats[chatId], s);
      assert Appended(chats, next, chatId, m, s.at);
      var rest := sends[1..];
      forall i | 0 <= i < |rest| ensures Accepted(next[chatId], rest[i]) {
        assert rest[i] == sends[i + 1];
        assert Accepted(chats[chatId], sends[i + 1]);
      }
      StoreAllAppendsInOrder(next, chatId, rest);
      assert Delivered(sends) == [m] + Delivered(rest);
      assert chats[chatId].messages + Delivered(sends) == (chats[chatId].messages + [m]) + Delivered(rest);
      if rest != [] {
        assert rest[|rest| - 1] == sends[|sends| - 1];
      }
    }
  }

  /** A chat opened by `initialize` and then sent N accepted messages holds
      N + 1 messages, the welcome message first, while its counter still reads 1. */
  lemma FreshChatAfterSends(chats: map<ChatId, Chat>, users: set<UserId>, user: UserId, product: ProductId,
                            seller: UserId, chatId: ChatId, welcomeId: MessageId, now: Time, sends: seq<Send>)
    requires chatId !in chats
    requires InitializeStep(chats, users, user, product, seller, false, chatId, welcomeId, now).reply.Json?
    requires forall i :: 0 <= i < |sends| ==> Accepted(WelcomeChat(user, seller, product, welcomeId, now), sends[i])
    ensures var created := InitializeStep(chats, users, user, product, seller, false, chatId, welcomeId, now).chats;
            var c := StoreAll(created, chatId, sends)[chatId];
            && |c.messages| == |sends| + 1
            && c.messages[0] == Message(welcomeId, WELCOME_TEXT, now, SYSTEM_SENDER)
            && c.messages[1..] == Delivered(sends)
            && c.messagesLength == 1
  {
    var created := InitializeStep(chats, users, user, product, seller, false, chatId, welcomeId, now).chats;
    assert created[chatId] == WelcomeChat(user, seller, product, welcomeId, now);
    StoreAllAppendsInOrder(created, chatId, sends);
    DeliveredLength(sends);
  }

  lemma {:induction false} DeliveredLength(sends: seq<Send>)
    ensures |Delivered(sends)| == |sends|
  {
    if sends != [] {
      DeliveredLength(sends[1..]);
    }
  }
}
