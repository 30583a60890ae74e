/** The user half of the marketplace backend: the User collection, seen as a
    map from user id to user record, and the four handlers of UserController
    (store, index, update, delete).

    bcrypt is modelled down to the key it derives from a password and no
    further: a digest remembers its salt and that key, and comparing a
    password against a digest succeeds exactly when the password derives the
    same key. Blowfish itself is taken to be collision-free. CPF validity is
    a predicate the caller supplies. */
module UserController {
  import opened Common

  type FileId = string
  type Salt = string

  const INVALID_INFO: string := "Informações inválidas"
  const INVALID_CPF: string := "CPF inválido!"
  const EMAIL_IN_USE: string := "Email já em uso"
  const CPF_IN_USE: string := "CPF já em uso"
  const ALREADY_REGISTERED: string := "Usuário já registrado"
  const REGISTERED: string := "User registered!"
  const NOT_FOUND: string := "Usuário não encontrado"
  const NOT_FOUND_ON_UPDATE: string := "Usuário não encontrado!"
  const WRONG_PASSWORD: string := "Senha inválida!"
  const OK: string := "Ok!"

  /** The number of key bytes the Blowfish key schedule of bcrypt reads. */
  const KEY_BYTES: nat := 72

  /** The UTF-8 encoding of one character. */
  function CharUtf8(c: char): (b: seq<int>)
    ensures 1 <= |b| <= 4
    ensures forall i :: 0 <= i < |b| ==> 0 <= b[i] < 0x100
  {
    var n := c as int;
    if n < 0x80 then [n]
    else if n < 0x800 then [0xC0 + n / 0x40, 0x80 + n % 0x40]
    else if n < 0x1_0000 then [0xE0 + n / 0x1000, 0x80 + (n / 0x40) % 0x40, 0x80 + n % 0x40]
    else [0xF0 + n / 0x4_0000, 0x80 + (n / 0x1000) % 0x40, 0x80 + (n / 0x40) % 0x40, 0x80 + n % 0x40]
  }

  /** The UTF-8 encoding of a string, as bcryptjs computes it before hashing. */
  function Utf8(s: string): (b: seq<int>)
    ensures |s| <= |b| <= 4 * |s|
  {
    if s == [] then [] else CharUtf8(s[0]) + Utf8(s[1..])
  }

  /** The key bcrypt hashes: the password's UTF-8 bytes followed by a zero
      byte, repeated cyclically, of which the first `KEY_BYTES` are read.
      Bytes past the 72nd therefore never reach the digest. */
  function Key(password: string): (k: seq<int>)
    ensures |k| == KEY_BYTES
    ensures |Utf8(password)| >= KEY_BYTES ==> k == Utf8(password)[..KEY_BYTES]
    ensures |Utf8(password)| < KEY_BYTES ==> k[..|Utf8(password)| + 1] == Utf8(password) + [0]
  {
    Cycle(Utf8(password) + [0], KEY_BYTES)
  }

  /** The first `n` elements of `b` repeated forever. */
  function Cycle(b: seq<int>, n: nat): (r: seq<int>)
    requires b != []
    ensures |r| == n
    ensures forall i :: 0 <= i < |r| && i < |b| ==> r[i] == b[i]
  {
    seq(n, i requires 0 <= i < n => b[i % |b|])
  }

  datatype Digest = Digest(salt: Salt, key: seq<int>)

  /** `bcrypt.hashSync(password, salt)`. */
  function Hash(password: string, salt: Salt): Digest {
    Digest(salt, Key(password))
  }

  /** `bcrypt.compareSync(password, digest)`: it rehashes `password` with the
      digest's salt and compares the results. */
  predicate Matches(password: string, digest: Digest) {
    Key(password) == digest.key
  }

  /** A user document; `verified` is `mail_verification.isVerified`. */
  datatype User = User(
    name: string,
    email: string,
    cpf: string,
    password_hash: Digest,
    avatar: Option<FileId>,
    verified: bool)

  /** A user document as `index` sends it: everything but the password hash. */
  datatype UserView = UserView(name: string, email: string, cpf: string, avatar: Option<FileId>, verified: bool)

  function View(u: User): UserView {
    UserView(u.name, u.email, u.cpf, u.avatar, u.verified)
  }

  /** The reply a handler gives and the User collection after it. */
  datatype UserStep<+T> = UserStep(reply: Reply<T>, users: map<UserId, User>)

  /** `User.findOne({ email })` finds a document. */
  predicate EmailTaken(users: map<UserId, User>, email: string) {
    exists id :: id in users && users[id].email == email
  }

  /** `User.findOne({ cpf })` finds a document. */
  predicate CpfTaken(users: map<UserId, User>, cpf: string) {
    exists id :: id in users && users[id].cpf == cpf
  }

  ghost predicate UniqueEmails(users: map<UserId, User>) {
    forall a, b :: a in users && b in users && users[a].email == users[b].email ==> a == b
  }

  ghost predicate UniqueCpfs(users: map<UserId, User>) {
    forall a, b :: a in users && b in users && users[a].cpf == users[b].cpf ==> a == b
  }

  /** The four fields the registration schema marks required. */
  predicate RequiredPresent(name: Option<string>, email: Option<string>, cpf: Option<string>, password: Option<string>) {
    Provided(name) && Provided(email) && Provided(cpf) && Provided(password)
  }

  /** `avatar_id ? avatar_id[0] : null`: an empty array is truthy, and its
      missing first element leaves the avatar unset. */
  function FirstAvatar(avatar_id: Option<seq<FileId>>): Option<FileId> {
    if avatar_id.Some? && |avatar_id.value| > 0 then Some(avatar_id.value[0]) else None
  }

  // ---------------------------------------------------------------------
  // The handlers as steps
  // ---------------------------------------------------------------------

  /** `store`: registration. `newId` is the fresh ObjectId, `salt` the
      generated salt. The avatar file is looked up but the answer is unused,
      so it does not appear here. */
  function RegisterStep(users: map<UserId, User>, name: Option<string>, email: Option<string>, cpf: Option<string>,
                        password: Option<string>, avatar_id: Option<seq<FileId>>, isCpfValid: string -> bool,
                        newId: UserId, salt: Salt): (s: UserStep<string>)
    requires newId !in users
    ensures !s.reply.Json? ==> s.users == users
    ensures !s.reply.NoReply?
    ensures !RequiredPresent(name, email, cpf, password) ==> s.reply == Fail(400, INVALID_INFO)
    ensures RequiredPresent(name, email, cpf, password) && !isCpfValid(cpf.value) ==> s.reply == Fail(400, INVALID_CPF)
    ensures RequiredPresent(name, email, cpf, password) && isCpfValid(cpf.value) && EmailTaken(users, email.value) ==>
              s.reply == Fail(401, EMAIL_IN_USE)
    ensures RequiredPresent(name, email, cpf, password) && isCpfValid(cpf.value) && !EmailTaken(users, email.value) &&
            CpfTaken(users, cpf.value) ==>
              s.reply == Fail(401, CPF_IN_USE)
    ensures s.reply.Json? <==>
              RequiredPresent(name, email, cpf, password) && isCpfValid(cpf.value) &&
              !EmailTaken(users, email.value) && !CpfTaken(users, cpf.value)
    ensures s.reply.Json? ==>
              && s.reply.body == REGISTERED
              && newId in s.users && s.users == users[newId := s.users[newId]]
              && s.users[newId].name == name.value
              && s.users[newId].email == email.value
              && s.users[newId].cpf == cpf.value
              && s.users[newId].password_hash == Hash(password.value, salt)
              && s.users[newId].avatar == FirstAvatar(avatar_id)
              && !s.users[newId].verified
  {
    if !RequiredPresent(name, email, cpf, password) then UserStep(Fail(400, INVALID_INFO), users)
    else if !isCpfValid(cpf.value) then UserStep(Fail(400, INVALID_CPF), users)
    else
      var findOne := CpfTaken(users, cpf.value);
      if EmailTaken(users, email.value) then UserStep(Fail(401, EMAIL_IN_USE), users)
      else if CpfTaken(users, cpf.value) then UserStep(Fail(401, CPF_IN_USE), users)
      else if findOne then UserStep(Fail(400, ALREADY_REGISTERED), users)
      else
        var user := User(name.value, email.value, cpf.value, Hash(password.value, salt), FirstAvatar(avatar_id), false);
        UserStep(Json(REGISTERED), users[newId := user])
  }

  /** `index`: the user with id `id`, without its password hash. */
  function Index(users: map<UserId, User>, id: UserId): (r: Reply<UserView>)
    ensures id == "" ==> r == Fail(401, INVALID_INFO)
    ensures id != "" && id !in users ==> r == Fail(401, NOT_FOUND)
    ensures r.Json? <==> id != "" && id in users
    ensures r.Json? ==>
              && r.body.name == users[id].name
              && r.body.email == users[id].email
              && r.body.cpf == users[id].cpf
              && r.body.avatar == users[id].avatar
              && r.body.verified == users[id].verified
  {
    if id == "" then Fail(401, INVALID_INFO)
    else if id !in users then Fail(401, NOT_FOUND)
    else Json(View(users[id]))
  }

  /** `update`: fields that are provided overwrite the stored ones.
      `files` holds the ids of the existing avatar files, `salt` the salt a
      new password is hashed with. A new password needs the old one; with no
      old password at all, `bcrypt.compareSync` throws and nothing answers.
      The reply carries the updated document. */
  function UpdateStep(users: map<UserId, User>, id: UserId, avatar_id: Option<FileId>, name: Option<string>,
                      email: Option<string>, cpf: Option<string>, oldPassword: Option<string>,
                      newPassword: Option<string>, files: set<FileId>, salt: Salt): (s: UserStep<User>)
    ensures !s.reply.Json? ==> s.users == users
    ensures id !in users ==> s.reply == Fail(400, NOT_FOUND_ON_UPDATE)
    ensures id in users && Provided(email) && EmailTaken(users, email.value) ==> s.reply == Fail(400, EMAIL_IN_USE)
    ensures id in users && !(Provided(email) && EmailTaken(users, email.value)) && Provided(newPassword) ==>
              && (oldPassword.None? ==> s.reply == NoReply)
              && (oldPassword.Some? && !Matches(oldPassword.value, users[id].password_hash) ==>
                    s.reply == Fail(401, WRONG_PASSWORD))
    ensures s.reply.Json? <==>
              && id in users
              && (Provided(email) ==> !EmailTaken(users, email.value))
              && (Provided(newPassword) ==> oldPassword.Some? && Matches(oldPassword.value, users[id].password_hash))
    ensures s.reply.Json? ==>
              && s.users == users[id := s.reply.body]
              && s.reply.body.name == (if Provided(name) then name.value else users[id].name)
              && s.reply.body.email == (if Provided(email) then email.value else users[id].email)
              && s.reply.body.verified == (if Provided(email) then false else users[id].verified)
              && s.reply.body.cpf == (if Provided(cpf) then cpf.value else users[id].cpf)
              && s.reply.body.password_hash ==
                 (if Provided(newPassword) then Hash(newPassword.value, salt) else users[id].password_hash)
              && s.reply.body.avatar ==
                 (if Provided(avatar_id) && avatar_id.value in files then avatar_id else users[id].avatar)
  {
    if id !in users then UserStep(Fail(400, NOT_FOUND_ON_UPDATE), users)
    else if Provided(email) && EmailTaken(users, email.value) then UserStep(Fail(400, EMAIL_IN_USE), users)
    else if Provided(newPassword) && oldPassword.None? then UserStep(NoReply, users)
    else if Provided(newPassword) && !Matches(oldPassword.value, users[id].password_hash) then
      UserStep(Fail(401, WRONG_PASSWORD), users)
    else
      var u := users[id];
      var u := if Provided(avatar_id) && avatar_id.value in files then u.(avatar := avatar_id) else u;
      var u := if Provided(email) then u.(email := email.value, verified := false) else u;
      var u := if Provided(newPassword) then u.(password_hash := Hash(newPassword.value, salt)) else u;
      var u := if Provided(name) then u.(name := name.value) else u;
      var u := if Provided(cpf) then u.(cpf := cpf.value) else u;
      UserStep(Json(u), users[id := u])
  }

  /** `delete`: `User.findByIdAndDelete(id)`, answered with "Ok!" whether or
      not the user existed. */
  function DeleteStep(users: map<UserId, User>, id: UserId): (s: UserStep<string>)
    ensures s.reply == Json(OK)
    ensures s.users.Keys == users.Keys - {id}
    ensures forall k :: k in s.users ==> s.users[k] == users[k]
  {
    UserStep(Json(OK), users - {id})
  }

  // ---------------------------------------------------------------------
  // The collection, changed in place by the handlers
  // ---------------------------------------------------------------------

  class UserCollection {
    var users: map<UserId, User>

    /** No two users share an email. (CPFs are not kept unique: `update`
        overwrites the CPF without looking.) */
    ghost predicate Valid()
      reads this
    {
      UniqueEmails(users)
    }

    constructor ()
      ensures Valid() && users == map[]
    {
      users := map[];
    }

    method Register(name: Option<string>, email: Option<string>, cpf: Option<string>, password: Option<string>,
                    avatar_id: Option<seq<FileId>>, isCpfValid: string -> bool, newId: UserId, salt: Salt)
      returns (r: Reply<string>)
      requires Valid() && newId !in users
      modifies this
      ensures Valid()
      ensures UserStep(r, users) ==
              RegisterStep(old(users), name, email, cpf, password, avatar_id, isCpfValid, newId, salt)
    {
      if !RequiredPresent(name, email, cpf, password) {
        return Fail(400, INVALID_INFO);
      }
      if !isCpfValid(cpf.value) {
        return Fail(400, INVALID_CPF);
      }
      var findOne := CpfTaken(users, cpf.value);
      var findEmail := EmailTaken(users, email.value);
      if findEmail {
        return Fail(401, EMAIL_IN_USE);
      }
      var findCPF := CpfTaken(users, cpf.value);
      if findCPF {
        return Fail(401, CPF_IN_USE);
      }
      // `findOne` is the query `findCPF` repeats, so it too found nothing and
      // the "already registered" reply is never sent.
      assert !findOne;
      var password_hash := Hash(password.value, salt);
      var user := User(name.value, email.value, cpf.value, password_hash, FirstAvatar(avatar_id), false);
      RegisterPreservesUniqueness(users, name, email, cpf, password, avatar_id, isCpfValid, newId, salt);
      users := users[newId := user];
      r := Json(REGISTERED);
    }

    /** Fetches the user, overwrites the provided fields one by one, and saves;
        an early reply leaves the fetched copy unsaved. */
    method Update(id: UserId, avatar_id: Option<FileId>, name: Option<string>, email: Option<string>,
                  cpf: Option<string>, oldPassword: Option<string>, newPassword: Option<string>,
                  files: set<FileId>, salt: Salt)
      returns (r: Reply<User>)
      requires Valid()
      modifies this
      ensures Valid()
      ensures UserStep(r, users) ==
              UpdateStep(old(users), id, avatar_id, name, email, cpf, oldPassword, newPassword, files, salt)
    {
      if id !in users {
        return Fail(400, NOT_FOUND_ON_UPDATE);
      }
      var found := users[id];
      if Provided(avatar_id) {
        if avatar_id.value in files {
          found := found.(avatar := avatar_id);
        }
      }
      if Provided(email) {
        if EmailTaken(users, email.value) {
          return Fail(400, EMAIL_IN_USE);
        }
        found := found.(email := email.value);
        found := found.(verified := false);
      }
      if Provided(newPassword) {
        if oldPassword.None? {
          return NoReply;
        }
        if !Matches(oldPassword.value, found.password_hash) {
          return Fail(401, WRONG_PASSWORD);
        }
        found := found.(password_hash := Hash(newPassword.value, salt));
      }
      if Provided(name) {
        found := found.(name := name.value);
      }
      if Provided(cpf) {
        found := found.(cpf := cpf.value);
      }
      UpdatePreservesUniqueEmails(users, id, avatar_id, name, email, cpf, oldPassword, newPassword, files, salt);
      users := users[id := found];
      r := Json(found);
    }

    method Delete(id: UserId) returns (r: Reply<string>)
      requires Valid()
      modifies this
      ensures Valid()
      ensures UserStep(r, users) == DeleteStep(old(users), id)
    {
      users := users - {id};
      r := Json(OK);
    }
  }

  // ---------------------------------------------------------------------
  // Properties
  // ---------------------------------------------------------------------

  /** The "already registered" branch is dead: it repeats the CPF query whose
      answer was already no. */
  lemma RegisterNeverReportsAlreadyRegistered(users: map<UserId, User>, name: Option<string>, email: Option<string>,
                                              cpf: Option<string>, password: Option<string>,
                                              avatar_id: Option<seq<FileId>>, isCpfValid: string -> bool,
                                              newId: UserId, salt: Salt)
    requires newId !in users
    ensures RegisterStep(users, name, email, cpf, password, avatar_id, isCpfValid, newId, salt).reply !=
            Fail(400, ALREADY_REGISTERED)
  {
  }

  /** Registration keeps emails and CPFs unique. */
  lemma RegisterPreservesUniqueness(users: map<UserId, User>, name: Option<string>, email: Option<string>,
                                    cpf: Option<string>, password: Option<string>,
                                    avatar_id: Option<seq<FileId>>, isCpfValid: string -> bool,
                                    newId: UserId, salt: Salt)
    requires newId !in users
    ensures var after := RegisterStep(users, name, email, cpf, password, avatar_id, isCpfValid, newId, salt).users;
            && (UniqueEmails(users) ==> UniqueEmails(after))
            && (UniqueCpfs(users) ==> UniqueCpfs(after))
  {
  }

  /** A registered user can be looked up, and `index` shows what was
      registered. */
  lemma RegisterThenIndex(users: map<UserId, User>, name: Option<string>, email: Option<string>,
                          cpf: Option<string>, password: Option<string>,
                          avatar_id: Option<seq<FileId>>, isCpfValid: string -> bool,
                          newId: UserId, salt: Salt)
    requires newId !in users && newId != ""
    requires RegisterStep(users, name, email, cpf, password, avatar_id, isCpfValid, newId, salt).reply.Json?
    ensures var after := RegisterStep(users, name, email, cpf, password, avatar_id, isCpfValid, newId, salt).users;
            Index(after, newId) == Json(UserView(name.value, email.value, cpf.value, FirstAvatar(avatar_id), false))
  {
  }

  /** Deleting a user that was just registered gives back the collection as
      it was before. */
  lemma RegisterThenDelete(users: map<UserId, User>, name: Option<string>, email: Option<string>,
                           cpf: Option<string>, password: Option<string>,
                           avatar_id: Option<seq<FileId>>, isCpfValid: string -> bool,
                           newId: UserId, salt: Salt)
    requires newId !in users
    ensures var after := RegisterStep(users, name, email, cpf, password, avatar_id, isCpfValid, newId, salt).users;
            DeleteStep(after, newId).users == users
  {
  }

  /** After `delete`, `index` no longer finds the user. */
  lemma DeleteThenIndex(users: map<UserId, User>, id: UserId)
    ensures Index(DeleteStep(users, id).users, id).Fail?
    ensures Index(DeleteStep(users, id).users, id).status == 401
  {
  }

  /** `update` keeps emails unique: a new email is refused when any user,
      including the one being updated, already has it. */
  lemma UpdatePreservesUniqueEmails(users: map<UserId, User>, id: UserId, avatar_id: Option<FileId>,
                                    name: Option<string>, email: Option<string>, cpf: Option<string>,
                                    oldPassword: Option<string>, newPassword: Option<string>,
                                    files: set<FileId>, salt: Salt)
    requires UniqueEmails(users)
    ensures UniqueEmails(UpdateStep(users, id, avatar_id, name, email, cpf, oldPassword, newPassword, files, salt).users)
  {
  }

  /** Asking `update` for the email the user already has is refused as
      "in use". */
  lemma UpdateRejectsOwnEmail(users: map<UserId, User>, id: UserId, avatar_id: Option<FileId>,
                              name: Option<string>, cpf: Option<string>,
                              oldPassword: Option<string>, newPassword: Option<string>,
                              files: set<FileId>, salt: Salt)
    requires id in users && users[id].email != ""
    ensures UpdateStep(users, id, avatar_id, name, Some(users[id].email), cpf, oldPassword, newPassword, files, salt) ==
            UserStep(Fail(400, EMAIL_IN_USE), users)
  {
  }

  /** `update` does not look at the CPF it writes: two users can end up with
      the same CPF. */
  lemma UpdateCanDuplicateCpf()
    ensures var digest := Hash("segredo", "sal");
            var users := map["a" := User("Ana", "ana@x", "111", digest, None, true),
                             "b" := User("Bia", "bia@x", "222", digest, None, true)];
            var s := UpdateStep(users, "a", None, None, None, Some("222"), None, None, {}, "sal");
            UniqueCpfs(users) && s.reply.Json? && !UniqueCpfs(s.users)
  {
    var digest := Hash("segredo", "sal");
    var users := map["a" := User("Ana", "ana@x", "111", digest, None, true),
                     "b" := User("Bia", "bia@x", "222", digest, None, true)];
    var s := UpdateStep(users, "a", None, None, None, Some("222"), None, None, {}, "sal");
    assert s.users["a"].cpf == s.users["b"].cpf;
  }

  /** After a password change the new password is the one that matches, and
      the old one still matches exactly when it derives the same key. */
  lemma PasswordChangeTakesEffect(users: map<UserId, User>, id: UserId, avatar_id: Option<FileId>,
                                  name: Option<string>, email: Option<string>, cpf: Option<string>,
                                  oldPassword: Option<string>, newPassword: Option<string>,
                                  files: set<FileId>, salt: Salt)
    requires Provided(newPassword)
    requires UpdateStep(users, id, avatar_id, name, email, cpf, oldPassword, newPassword, files, salt).reply.Json?
    ensures var after := UpdateStep(users, id, avatar_id, name, email, cpf, oldPassword, newPassword, files, salt).users;
            && Matches(newPassword.value, after[id].password_hash)
            && (Matches(oldPassword.value, after[id].password_hash) <==> Key(oldPassword.value) == Key(newPassword.value))
  {
  }

  /** Encoding a concatenation encodes the parts one after the other. */
  lemma {:induction false} Utf8Append(s: string, t: string)
    ensures Utf8(s + t) == Utf8(s) + Utf8(t)
  {
    if s == [] {
      assert s + t == t;
    } else {
      assert (s + t)[1..] == s[1..] + t;
      Utf8Append(s[1..], t);
    }
  }

  /** Once a password is 72 bytes long, nothing appended to it changes its
      key, so every such extension matches its digest. */
  lemma KeyIgnoresBytesAfter72(password: string, suffix: string, salt: Salt)
    requires |Utf8(password)| >= KEY_BYTES
    ensures Key(password + suffix) == Key(password)
    ensures Matches(password + suffix, Hash(password, salt))
  {
    Utf8Append(password, suffix);
  }

  /** A concrete password change between two passwords that agree on their
      first 72 bytes: it succeeds, and afterwards the old password, like
      every other password with that prefix, still logs in. */
  lemma LongOldPasswordStillMatches(salt: Salt, salt': Salt)
    ensures var prefix := seq(72, _ => 'a');
            var users := map["a" := User("Ana", "ana@x", "111", Hash(prefix + "x", salt), None, true)];
            var s := UpdateStep(users, "a", None, None, None, None, Some(prefix + "x"), Some(prefix + "y"), {}, salt');
            && s.reply.Json?
            && Matches(prefix + "x", s.users["a"].password_hash)
            && forall suffix: string :: Matches(prefix + suffix, s.users["a"].password_hash)
  {
    var prefix := seq(72, _ => 'a');
    KeyIgnoresBytesAfter72(prefix, "x", salt);
    KeyIgnoresBytesAfter72(prefix, "y", salt);
    forall suffix: string {
      KeyIgnoresBytesAfter72(prefix, suffix, salt);
    }
  }
}
