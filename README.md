# minilojinha chat and user controllers, in Dafny

This project models the two Express controllers of the minilojinha
marketplace backend:

- **ChatController**: chats between a product's buyer and its seller.
  `initialize` opens a chat seeded with a system welcome message. `store`
  appends a message and emits it on the realtime channel. `index` lets a
  party read one chat. `show` lists a user's chats.
- **UserController**: registration (`store`), lookup (`index`), partial
  update (`update`) and `delete`.

Each MongoDB collection is a map from document id to a record:
`map<ChatId, Chat>` and `map<UserId, User>`. Each handler's response is a
`Reply`:

- `Json(body)` for a 200 answer;
- `Fail(status, error)` for an error answer;
- `NoReply` for a handler that throws after its last `catch`. Express
  before version 5 does not catch a rejected promise from an async handler,
  so the request is then never answered (see "Unhandled rejections" under "## Left out").

Every handler that writes is written twice:

- a pure **step function** (`InitializeStep`, `StoreStep`, `RegisterStep`,
  `UpdateStep`, `DeleteStep`). It returns the reply together with the
  collection after the call. Its contract lists the guards in the order the
  handler checks them.
- a **method** of the collection class (`ChatCollection`, `UserCollection`).
  It does the same work the way the handler does: fetch the document, change
  it field by field, then save. An early `return` leaves the fetched copy
  unsaved. Each method's contract equates its reply and new state with the
  step function. Each method also keeps its class invariant `Valid()`.

The reads `index` and `show` are plain functions.

Behaviour of the source that the model keeps as written:

- `store` adds 1 to `messagesLenght`, a misspelled field
  (ChatController.js:116). The stored `messagesLength` therefore stays at
  the 1 that `initialize` set (line 65). The collection invariant
  `WellFormed` includes `messagesLength == 1`. `CounterLagsAfterStore` and
  `FreshChatAfterSends` show the counter falling behind the message count.
- `Product.find` returns an array, which is always truthy. The product check
  in `initialize` fails only when the query throws (the `productQueryFailed`
  parameter). The seller's ownership of the product is never checked.
- `UserController.store` sends the same CPF query twice (lines 31 and 43).
  The "Usuário já registrado" branch is therefore dead
  (`RegisterNeverReportsAlreadyRegistered`).
- `sent_by` is taken from the request unchecked. A party may label a message
  `"chat"`, the system sender (`SentByIsNotChecked`).
- `index` on a chat populates the buyer and the seller. A deleted user
  populates as `null`, and reading `.id` off it throws, so the request gets
  no reply (`Index`, `Marketplace.DeletedBuyerSilencesIndex`).
- `update` looks for the new email among all users, the user being updated
  included. A user asking for their current email is refused
  (`UpdateRejectsOwnEmail`).
- `update` overwrites the CPF without any check, so two users can end up
  with the same CPF (`UpdateCanDuplicateCpf`). Provided every query succeeds,
  emails stay unique under both registration and update, and CPFs stay
  unique only under registration. A failed query breaks this (see
  "Failed database queries" under "## Left out").
- `update` with a new password but no old one calls `bcrypt.compareSync`
  with `undefined`, which throws, so there is no reply.

bcrypt is modelled down to the key it derives from a password. bcryptjs
encodes the password as UTF-8 and appends a zero byte. It repeats those bytes
cyclically and reads only the first 72 of them (`Key`). `Hash(password, salt)`
is a symbolic `Digest` of the salt and that key.
`Matches(password, digest)` holds exactly when the password derives the
digest's key. Two passwords that agree on their first 72 bytes therefore
match the same digest (`KeyIgnoresBytesAfter72`).

`isCPFValid` is a predicate that the caller passes
to `RegisterStep`. Fresh ObjectIds, salts and clock readings are
parameters.

## Model

| member | source | states |
|---|---|---|
| ChatController.InitializeStep | src/app/controllers/ChatController.js:27-80 | Checks run in order: self-purchase gives 400, unknown buyer gives 404, an existing chat for (buyer, product) gives 400, a thrown product query gives 404. It succeeds exactly when all four pass. On any failure the collection is unchanged. On success exactly one chat is added: the given buyer, seller and product, `messagesLength` 1, and a single welcome message with `sent_by == "chat"`, with `last_message` unset |
| ChatController.StoreStep | src/app/controllers/ChatController.js:82-129 | A missing or empty message or sent_by gives 400, an unknown chat gives 404, a non-party gives 401. Any failure leaves the collection unchanged. It succeeds exactly when all guards pass, and then only that chat changes: the new message is appended after the old ones, `last_message` is set, and parties, product and counter are kept |
| ChatController.Index | src/app/controllers/ChatController.js:131-163 | An unknown chat gives 404. The chat is returned exactly when the buyer exists, the reader is a party, and the reader is the buyer or the seller exists; in particular the buyer always gets it, even when the seller is gone. When both parties exist, a non-party gets 401. There is no reply exactly when the buyer is gone, or when the reader is not the buyer and the seller is gone |
| ChatController.Show | src/app/controllers/ChatController.js:165-191 | Returns exactly the chats in which the user is buyer or seller, unchanged |
| ChatController.ChatCollection.Initialize | src/app/controllers/ChatController.js:27-80 | The handler's check-then-insert on the collection gives the reply and new collection of `InitializeStep`, keeps the invariant (unique pairs, well-formed chats) and emits nothing |
| ChatController.ChatCollection.Store | src/app/controllers/ChatController.js:82-129 | Fetch, push, set `last_message`, save: gives the reply and collection of `StoreStep` and keeps the invariant. The emitted log grows by the stored message exactly on success |
| ChatController.InitializePreservesValid | src/app/controllers/ChatController.js:44-75 | `initialize` keeps at most one chat per (buyer, product) and keeps every chat well-formed |
| ChatController.StorePreservesValid | src/app/controllers/ChatController.js:108-119 | `store` keeps pair uniqueness, the welcome message first, and the counter at 1 |
| ChatController.InitializeTwiceConflicts | src/app/controllers/ChatController.js:44-50 | After a successful `initialize`, a second one for the same buyer and product, with any seller other than the buyer, gets 400 "Chat já criado!" and adds nothing |
| ChatController.CounterLagsAfterStore | src/app/controllers/ChatController.js:108-119 | After a successful `store` on a well-formed chat, the counter is still 1 while there are at least two messages |
| ChatController.SentByIsNotChecked | src/app/controllers/ChatController.js:102-115 | A party's message labelled `"chat"` is accepted and stored with the system sender's label |
| ChatController.ShowMatchesIndex | src/app/controllers/ChatController.js:152-170 | When a chat's parties exist, it is listed by `show(user)` exactly when `index` returns it to that user, and with the same content |
| ChatController.StoreAllAppendsInOrder | src/app/controllers/ChatController.js:108-119 | A run of accepted `store` requests appends its messages in request order after the old ones. Parties, product and counter are kept, `last_message` is the last request's time, and other chats do not change |
| ChatController.FreshChatAfterSends | src/app/controllers/ChatController.js:61-119 | A new chat after N accepted messages holds N + 1 messages, welcome first, while its counter reads 1 |
| UserController.RegisterStep | src/app/controllers/UserController.js:10-72 | Checks run in order: a missing required field gives 400, an invalid CPF gives 400, an email in use gives 401, a CPF in use gives 401. It succeeds exactly when none applies. On failure the table is unchanged. On success exactly one user is added with the given fields, the hash of the password, the first `avatar_id` or none, and unverified |
| UserController.Index | src/app/controllers/UserController.js:74-91 | An empty id or an unknown user gives 401. Otherwise every field of the user except the password hash is returned |
| UserController.UpdateStep | src/app/controllers/UserController.js:93-178 | An unknown user gives 400. An email already used by any user gives 400. A new password with no old one gives no reply, and with a wrong old one gives 401. None of these persist anything. It succeeds exactly when none applies. Then only that user changes: avatar (only if the file exists), email (resetting verification), password hash, name and cpf are overwritten only when provided |
| UserController.DeleteStep | src/app/controllers/UserController.js:180-186 | Removes exactly the given id, leaves every other user unchanged, and always replies "Ok!" |
| UserController.UserCollection.Register | src/app/controllers/UserController.js:10-72 | The handler's query sequence gives the reply and table of `RegisterStep` and keeps emails unique |
| UserController.UserCollection.Update | src/app/controllers/UserController.js:93-178 | Field-by-field overwrite of the fetched document, saved only at the end: gives the reply and table of `UpdateStep` and keeps emails unique |
| UserController.UserCollection.Delete | src/app/controllers/UserController.js:180-186 | Gives the reply and table of `DeleteStep` and keeps emails unique |
| UserController.RegisterNeverReportsAlreadyRegistered | src/app/controllers/UserController.js:31-57 | Registration never answers 400 "Usuário já registrado" |
| UserController.RegisterPreservesUniqueness | src/app/controllers/UserController.js:35-49 | Registration keeps emails unique and keeps CPFs unique, given that its lookups succeed |
| UserController.RegisterThenIndex | src/app/controllers/UserController.js:59-90 | After a successful registration, `index` on the new id returns the registered name, email, cpf and avatar, unverified |
| UserController.RegisterThenDelete | src/app/controllers/UserController.js:62-69 | Deleting a user who was just registered gives back the previous table |
| UserController.DeleteThenIndex | src/app/controllers/UserController.js:180-186 | After `delete`, `index` on that id answers 401 |
| UserController.UpdatePreservesUniqueEmails | src/app/controllers/UserController.js:139-151 | `update` keeps emails unique, given that its email lookup succeeds |
| UserController.UpdateRejectsOwnEmail | src/app/controllers/UserController.js:139-146 | Providing the user's current email gets 400 "Email já em uso" and changes nothing |
| UserController.UpdateCanDuplicateCpf | src/app/controllers/UserController.js:172-174 | For a concrete table with unique CPFs, an `update` of one user's CPF to another's succeeds and leaves two users with the same CPF |
| UserController.PasswordChangeTakesEffect | src/app/controllers/UserController.js:153-167 | After a successful password change, the new password matches the stored hash, and the old one matches exactly when it derives the same bcrypt key |
| UserController.Key | src/app/controllers/UserController.js:60 | The key `hashSync` derives has 72 bytes. For a password of at least 72 UTF-8 bytes it is the first 72 of them. For a shorter one it starts with the password's bytes and a zero byte |
| UserController.Utf8Append | src/app/controllers/UserController.js:60 | The UTF-8 encoding of a concatenation is the concatenation of the encodings |
| UserController.KeyIgnoresBytesAfter72 | src/app/controllers/UserController.js:153-164 | Anything appended to a password of at least 72 bytes leaves its key unchanged, so the extended password matches the digest of the original |
| UserController.LongOldPasswordStillMatches | src/app/controllers/UserController.js:153-167 | Changing a 73-byte password to another with the same first 72 bytes succeeds, and afterwards the old password, and any other with that prefix, still matches |
| Marketplace.DeletedBuyerSilencesIndex | src/app/controllers/ChatController.js:134-160 | Once a chat's buyer is deleted from the User collection, `index` on that chat gives no reply, whoever reads it |
| Marketplace.InitializeIgnoresSellerRecord | src/app/controllers/ChatController.js:36-59 | `initialize` opens the chat even when the seller is not in the User collection |
| Marketplace.ChatScenario | src/app/controllers/ChatController.js:27-129 | U1 opens a chat with U2 about P1: one system message. U1 posts "hello": two messages, the second "hello", counter still 1. U3 posting gets 401 with no change. Opening again gets 400 |

## Left out

- Unhandled rejections: `NoReply` assumes that the app installs no error handling for async handlers. That setup is outside the two controllers. With `express-async-errors` and an error middleware, the client would get a 500 instead. On Node 15 or later with no `unhandledRejection` listener, the whole process would exit. This affects `ChatController.Index`, `UserController.UpdateStep` and `Marketplace.DeletedBuyerSilencesIndex`.
- Persistence: un-awaited `save()` calls are taken to succeed, and concurrent requests (check-then-act races) are not modelled.
- Failed database queries: when a query fails, the source logs the error and the result becomes `undefined`. The model can express this in two places only: the buyer lookup in `initialize` (a buyer outside `users`) and `Product.find` (`productQueryFailed`). Every other query is taken to succeed. So the model does not capture:
  - a failed `User.findOne` for the email or the CPF in user `store` (UserController.js:35-45), or for the email in `update` (UserController.js:141-143). The source reads it as "not found" and can write a duplicate email or CPF, which `RegisterPreservesUniqueness` and `UpdatePreservesUniqueEmails` do not cover;
  - a failed `findById` in chat `store` and `index` or in user `index`, `update` and `delete`;
  - a failed `Chat.find` in `initialize`, where `findChat[0]` would then throw;
  - a failed query in `show`, which answers with an empty body.
- Malformed ObjectIds: ids are plain strings, so cast errors are not modelled. This includes `findByIdAndDelete` throwing in `delete`.
- Projections: the populated buyer, seller and product summaries in chat `index` and `show` are not modelled. The model returns the stored chat record. Only the `null` that a missing user populates as is kept.
- UserController.Index: returns the stored avatar id. The source's `.populate('avatar')` (UserController.js:83) replaces it with the File document, or with `null` when that file no longer exists. Files are not part of this model.
- The realtime `emit`: it is a ghost log, `ChatCollection.broadcast`. Broadcasting to every client, rather than to the chat's room, is not distinguished.
- Hashing: salt generation and the Blowfish rounds are not modelled. A digest records the salt and the 72-byte key, and two different keys are taken never to give the same digest. Lone UTF-16 surrogates, which bcryptjs would encode on their own, cannot occur in a Dafny string.
- CPF check: `isCPFValid` (src/services/cpfValidation) is not part of this model. It is a parameter.
- Yup type checks: the fields that `store` (users) and `update` validate are typed options, so a field of the wrong JSON type cannot be written. The 400 "Informações inválidas!!" branch of `update` is therefore not modelled.
- Missing fields in the chat handlers: `initialize` takes `user`, `product` and `seller`, and `store` takes `user` and the chat id, as plain strings. A request whose body leaves one of these out, where the source compares or queries with `undefined`, is not modelled.
- Avatar files: registration's file lookup has no effect and is omitted. `update` takes the set of existing file ids.
- Clock readings: the two reads in chat `store` (message date and `last_message`) are one `now`. The welcome message's `date: Date.now` passes the function itself, not a timestamp. How the Chat schema (not part of this model) casts that value is not modelled; the model records `now`.
- UserController.RegisterStep: new users are unverified. The `mail_verification` default comes from the User schema, which is not part of this model.
- UserController.UpdateStep: the reply body is the updated record. The source replies with the spread `{...findOne, password_hash: null}` of a Mongoose document. What that spread serialises to depends on Mongoose internals and is not modelled.
- ChatController.Show: returns a map, so the order in which the query lists chats is not modelled.
