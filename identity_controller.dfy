/** The identity service's handlers
    (identity-service/src/controllers/identity-controller.js) over two
    tables kept in natural order: users and stored refresh tokens. The
    request validators, the password check (`user.comparePassword`) and
    token issuing (`generateTokens`) are parameters; the clock is the
    parameter `now`, in milliseconds. The ghost `trace` records every
    awaited table or collaborator call in order. */
module IdentityController {
  import opened Base

  datatype User = User(id: nat, email: string, username: string, password: string)

  /** A stored refresh token: record id, token text, owning user id, expiry. */
  datatype TokenRecord = TokenRecord(id: nat, token: string, user: nat, expiresAt: int)

  datatype TokenPair = TokenPair(accessToken: string, refreshToken: string)

  datatype RegisterBody = RegisterBody(email: string, password: string, username: string)
  datatype LoginBody = LoginBody(email: string, password: string)

  /** What a handler writes back. */
  datatype Reply =
    | Failure(status: nat, message: string)   // { success: false, message }
    | Registered(tokens: TokenPair)           // 201
    | LoggedIn(tokens: TokenPair, userId: nat)
    | Refreshed(tokens: TokenPair)
    | LoggedOut
  {
    function Status(): (status: nat)
    {
      match this
      case Failure(status, _) => status
      case Registered(_) => 201
      case _ => 200
    }
  }

  /** One awaited call on a table or on a collaborator. */
  datatype Step =
    | UserFindOne
    | UserSave(userId: nat)
    | UserFindById(userId: nat)
    | CheckPassword(userId: nat)
    | GenerateTokens(userId: nat)
    | TokenFindOne
    | TokenDeleteById(recordId: nat)
    | TokenDeleteByValue

  const UserExists: string := "User already exists"
  const InvalidCredentials: string := "Invalid credentials"
  const InvalidPassword: string := "Invalid password"
  const TokenNotProvided: string := "Refresh token not provided"
  const InvalidRefreshToken: string := "Invalid refresh token"
  const UserNotFound: string := "User not found"

  /** `User.findOne({ $or: [{ email }, { username }] })`. */
  function FindConflicting(users: seq<User>, email: string, username: string): (r: Option<nat>)
    ensures r.Some? ==> r.value < |users| && (users[r.value].email == email || users[r.value].username == username)
    ensures r.None? <==> forall j :: 0 <= j < |users| ==> users[j].email != email && users[j].username != username
  {
    FirstIndex(users, (u: User) => u.email == email || u.username == username)
  }

  /** `User.findOne({ email })`. */
  function FindByEmail(users: seq<User>, email: string): (r: Option<nat>)
    ensures r.Some? ==> r.value < |users| && users[r.value].email == email
    ensures r.None? <==> forall j :: 0 <= j < |users| ==> users[j].email != email
  {
    FirstIndex(users, (u: User) => u.email == email)
  }

  /** A user whose email no stored user has is the one found by it once
      appended. */
  lemma FindByEmailAppended(users: seq<User>, user: User)
    requires forall j :: 0 <= j < |users| ==> users[j].email != user.email
    ensures FindByEmail(users + [user], user.email) == Some(|users|)
  {
    var r := FindByEmail(users + [user], user.email);
    assert (users + [user])[|users|].email == user.email;
  }

  /** With unique emails, looking a user up by email finds that user and
      no other: login always reaches the account registered with it. */
  lemma EmailFindsItsUser(users: seq<User>, j: nat)
    requires j < |users|
    requires forall a, b :: 0 <= a < b < |users| ==> users[a].email != users[b].email
    ensures FindByEmail(users, users[j].email) == Some(j)
  {
    var r := FindByEmail(users, users[j].email);
    assert r.Some?;
  }

  /** `User.findById(id)`. */
  function FindUserById(users: seq<User>, id: nat): (r: Option<nat>)
    ensures r.Some? ==> r.value < |users| && users[r.value].id == id
    ensures r.None? <==> forall j :: 0 <= j < |users| ==> users[j].id != id
  {
    FirstIndex(users, (u: User) => u.id == id)
  }

  /** The `refreshToken` field of a JSON request body, as the handlers see
      it: absent (`undefined`), `null`, a string, a number or boolean
      (with its truthiness and the text the store casts it to), or an
      object or array, which the store reads as a query condition on the
      field rather than as a value. */
  datatype BodyToken =
    | Undefined
    | Null
    | Text(text: string)
    | Scalar(truthy: bool, asText: string)
    | Condition(matches: TokenRecord -> bool)

  /** Which records the filter `{ token: <value> }` selects. For
      `undefined` the store's reading is the parameter
      `undefinedMatchesAll`: the field is dropped and `{}` selects every
      record, or nothing is selected. `null` selects records without a
      token, and every stored record has one. */
  predicate Selects(token: BodyToken, undefinedMatchesAll: bool, rec: TokenRecord)
  {
    match token
    case Undefined => undefinedMatchesAll
    case Null => false
    case Text(t) => rec.token == t
    case Scalar(_, t) => rec.token == t
    case Condition(matches) => matches(rec)
  }

  /** `RefreshToken.findOne({ token })`: the first record the filter selects. */
  function FindToken(tokens: seq<TokenRecord>, token: BodyToken, undefinedMatchesAll: bool): (r: Option<nat>)
    ensures r.Some? ==> r.value < |tokens| && Selects(token, undefinedMatchesAll, tokens[r.value])
    ensures r.Some? ==> forall j :: 0 <= j < r.value ==> !Selects(token, undefinedMatchesAll, tokens[j])
    ensures r.None? <==> forall j :: 0 <= j < |tokens| ==> !Selects(token, undefinedMatchesAll, tokens[j])
    ensures token.Text? ==> (r.None? <==> forall j :: 0 <= j < |tokens| ==> tokens[j].token != token.text)
    ensures token.Text? && r.Some? ==> tokens[r.value].token == token.text
    ensures token.Undefined? ==> (r.Some? <==> undefinedMatchesAll && tokens != [])
    ensures token.Undefined? && r.Some? ==> r.value == 0
    ensures token.Null? ==> r.None?
  {
    FirstIndex(tokens, (rec: TokenRecord) => Selects(token, undefinedMatchesAll, rec))
  }

  /** `{ "$gt": "" }` sent as the token: an object, so truthy, that the
      store reads as "any non-empty token". It selects the first record
      whenever that record's token is non-empty, whoever owns it. */
  lemma NonEmptyConditionSelectsFirst(tokens: seq<TokenRecord>, undefinedMatchesAll: bool)
    requires tokens != [] && tokens[0].token != ""
    ensures !Missing(Condition((rec: TokenRecord) => rec.token != ""))
    ensures FindToken(tokens, Condition((rec: TokenRecord) => rec.token != ""), undefinedMatchesAll) == Some(0)
  {
  }

  /** `!refreshToken`: `undefined`, `null`, the empty string, and a falsy
      number or boolean (`0`, `false`). An object or array is truthy. */
  predicate Missing(token: BodyToken)
  {
    match token
    case Undefined => true
    case Null => true
    case Text(t) => t == ""
    case Scalar(truthy, _) => !truthy
    case Condition(_) => false
  }

  /** The reply written, without returning, for a missing token. */
  function MissingTokenReplies(token: BodyToken): (replies: seq<Reply>)
    ensures Missing(token) <==> replies != []
    ensures replies == [] || replies == [Failure(400, TokenNotProvided)]
  {
    if Missing(token) then [Failure(400, TokenNotProvided)] else []
  }

  /** `storedToken.expiresAt < new Date()`: strictly before now. */
  predicate Expired(record: TokenRecord, now: int)
  {
    record.expiresAt < now
  }

  ghost function UserId(u: User): nat { u.id }
  ghost function UserEmail(u: User): string { u.email }
  ghost function UserName(u: User): string { u.username }
  ghost function RecordId(r: TokenRecord): nat { r.id }

  class IdentityService {
    var users: seq<User>
    var tokens: seq<TokenRecord>
    var nextId: nat
    ghost var trace: seq<Step>

    /** User ids, emails and usernames are each unique, every user id was
        handed out before `nextId`, and token record ids are unique. */
    ghost predicate Valid()
      reads this
    {
      && DistinctKeys(users, UserId)
      && DistinctKeys(users, UserEmail)
      && DistinctKeys(users, UserName)
      && (forall j :: 0 <= j < |users| ==> users[j].id < nextId)
      && DistinctKeys(tokens, RecordId)
    }

    constructor ()
      ensures Valid()
      ensures users == [] && tokens == [] && trace == []
    {
      users, tokens, nextId, trace := [], [], 0, [];
    }

    /** `registerUser`: 400 with the validator's message on a bad body
        (no table touched); 400 "User already exists" when a user has the
        same email or the same username; otherwise exactly one new user is
        saved and its tokens are sent with 201. */
    method RegisterUser(body: RegisterBody, validate: RegisterBody -> Option<string>,
                        generateTokens: User -> TokenPair) returns (reply: Reply)
      requires Valid()
      modifies this
      ensures Valid()
      ensures tokens == old(tokens)
      ensures validate(body).Some? ==>
        reply == Failure(400, validate(body).value)
        && users == old(users) && nextId == old(nextId) && trace == old(trace)
      ensures validate(body).None? && FindConflicting(old(users), body.email, body.username).Some? ==>
        reply == Failure(400, UserExists)
        && users == old(users) && nextId == old(nextId) && trace == old(trace) + [UserFindOne]
      ensures validate(body).None? && FindConflicting(old(users), body.email, body.username).None? ==>
        var user := User(old(nextId), body.email, body.username, body.password);
        && users == old(users) + [user]
        && nextId == old(nextId) + 1
        && FindByEmail(users, body.email) == Some(|old(users)|)
        && reply == Registered(generateTokens(user)) && reply.Status() == 201
        && trace == old(trace) + [UserFindOne, UserSave(user.id), GenerateTokens(user.id)]
    {
      var error := validate(body);
      if error.Some? {
        return Failure(400, error.value);
      }
      var existing := FindConflicting(users, body.email, body.username);
      trace := trace + [UserFindOne];
      if existing.Some? {
        return Failure(400, UserExists);
      }
      var user := User(nextId, body.email, body.username, body.password);
      AppendKeepsDistinct(users, user, UserId);
      AppendKeepsDistinct(users, user, UserEmail);
      AppendKeepsDistinct(users, user, UserName);
      FindByEmailAppended(users, user);
      users := users + [user];
      nextId := nextId + 1;
      var issued := generateTokens(user);
      trace := trace + [UserSave(user.id), GenerateTokens(user.id)];
      reply := Registered(issued);
    }

    /** `loginUser`: 400 with the validator's message on a bad body (no
        table touched); 400 "Invalid credentials" for an unknown email;
        400 "Invalid password" when the password does not match; otherwise
        the user's tokens and id. Nothing is written. */
    method LoginUser(body: LoginBody, validate: LoginBody -> Option<string>,
                     comparePassword: (User, string) -> bool,
                     generateTokens: User -> TokenPair) returns (reply: Reply)
      requires Valid()
      modifies this`trace
      ensures validate(body).Some? ==> reply == Failure(400, validate(body).value) && trace == old(trace)
      ensures validate(body).None? && FindByEmail(users, body.email).None? ==>
        reply == Failure(400, InvalidCredentials) && trace == old(trace) + [UserFindOne]
      ensures validate(body).None? && FindByEmail(users, body.email).Some? ==>
        var user := users[FindByEmail(users, body.email).value];
        if !comparePassword(user, body.password) then
          reply == Failure(400, InvalidPassword)
          && trace == old(trace) + [UserFindOne, CheckPassword(user.id)]
        else
          reply == LoggedIn(generateTokens(user), user.id)
          && trace == old(trace) + [UserFindOne, CheckPassword(user.id), GenerateTokens(user.id)]
      ensures reply.Status() == if reply.LoggedIn? then 200 else 400
      ensures reply.LoggedIn? ==> exists j :: 0 <= j < |users| && users[j].id == reply.userId
                                               && users[j].email == body.email
    {
      var error := validate(body);
      if error.Some? {
        return Failure(400, error.value);
      }
      var found := FindByEmail(users, body.email);
      trace := trace + [UserFindOne];
      if found.None? {
        return Failure(400, InvalidCredentials);
      }
      var user := users[found.value];
      var isValidPassword := comparePassword(user, body.password);
      trace := trace + [CheckPassword(user.id)];
      if !isValidPassword {
        return Failure(400, InvalidPassword);
      }
      var issued := generateTokens(user);
      trace := trace + [GenerateTokens(user.id)];
      reply := LoggedIn(issued, user.id);
    }

    /** `refreshTokenController`. A missing token writes a 400 but the
        handler goes on to the lookup. An unknown or expired token (expiry
        strictly before `now`) gets 400 "Invalid refresh token"; a token
        whose user is gone gets 400 "User not found" and is kept; otherwise
        new tokens are issued and only then is the old record deleted.
        Without a token and with `undefinedMatchesAll`, the record looked
        up is the first stored one, so its owner's tokens are rotated; a
        token sent as an object writes no 400, and the record rotated is
        the first one its condition selects, whoever owns it. */
    method RefreshToken(token: BodyToken, now: int, generateTokens: User -> TokenPair, undefinedMatchesAll: bool)
      returns (replies: seq<Reply>)
      requires Valid()
      modifies this
      ensures Valid()
      ensures users == old(users) && nextId == old(nextId)
      ensures token.Undefined? && !undefinedMatchesAll ==> tokens == old(tokens)
      ensures token.Null? ==> tokens == old(tokens)
      ensures FindToken(old(tokens), token, undefinedMatchesAll).None? ==>
        replies == MissingTokenReplies(token) + [Failure(400, InvalidRefreshToken)]
        && tokens == old(tokens) && trace == old(trace) + [TokenFindOne]
      ensures FindToken(old(tokens), token, undefinedMatchesAll).Some?
              && Expired(old(tokens)[FindToken(old(tokens), token, undefinedMatchesAll).value], now) ==>
        replies == MissingTokenReplies(token) + [Failure(400, InvalidRefreshToken)]
        && tokens == old(tokens) && trace == old(trace) + [TokenFindOne]
      ensures FindToken(old(tokens), token, undefinedMatchesAll).Some?
              && !Expired(old(tokens)[FindToken(old(tokens), token, undefinedMatchesAll).value], now)
              && FindUserById(users, old(tokens)[FindToken(old(tokens), token, undefinedMatchesAll).value].user).None? ==>
        var record := old(tokens)[FindToken(old(tokens), token, undefinedMatchesAll).value];
        replies == MissingTokenReplies(token) + [Failure(400, UserNotFound)]
        && tokens == old(tokens) && trace == old(trace) + [TokenFindOne, UserFindById(record.user)]
      ensures FindToken(old(tokens), token, undefinedMatchesAll).Some?
              && !Expired(old(tokens)[FindToken(old(tokens), token, undefinedMatchesAll).value], now)
              && FindUserById(users, old(tokens)[FindToken(old(tokens), token, undefinedMatchesAll).value].user).Some? ==>
        var i := FindToken(old(tokens), token, undefinedMatchesAll).value;
        var record := old(tokens)[i];
        var user := users[FindUserById(users, record.user).value];
        && replies == MissingTokenReplies(token) + [Refreshed(generateTokens(user))]
        && tokens == RemoveAt(old(tokens), i)
        && (forall j :: 0 <= j < |tokens| ==> tokens[j].id != record.id)
        && trace == old(trace) + [TokenFindOne, UserFindById(record.user),
                                  GenerateTokens(record.user), TokenDeleteById(record.id)]
    {
      var early := MissingTokenReplies(token);
      var found := FindToken(tokens, token, undefinedMatchesAll);
      if found.None? || Expired(tokens[found.value], now) {
        trace := trace + [TokenFindOne];
        return early + [Failure(400, InvalidRefreshToken)];
      }
      var record := tokens[found.value];
      var owner := FindUserById(users, record.user);
      if owner.None? {
        trace := trace + [TokenFindOne, UserFindById(record.user)];
        return early + [Failure(400, UserNotFound)];
      }
      var issued := generateTokens(users[owner.value]);
      RemoveAtKeepsDistinct(tokens, found.value, RecordId);
      tokens := RemoveAt(tokens, found.value);
      trace := trace + [TokenFindOne, UserFindById(record.user), GenerateTokens(record.user), TokenDeleteById(record.id)];
      replies := early + [Refreshed(issued)];
    }

    /** `logout`: a missing token writes a 400 but the handler goes on; the
        first record holding exactly the supplied token, if any, is
        deleted; success is reported either way. Without a token, the
        store's reading of `{ token: undefined }` decides: nothing is
        deleted, or the first stored record is, whoever owns it. A token
        sent as an object deletes the first record its condition selects. */
    method Logout(token: BodyToken, undefinedMatchesAll: bool) returns (replies: seq<Reply>)
      requires Valid()
      modifies this
      ensures Valid()
      ensures users == old(users)
      ensures replies == MissingTokenReplies(token) + [LoggedOut]
      ensures FindToken(old(tokens), token, undefinedMatchesAll).None? ==> tokens == old(tokens)
      ensures FindToken(old(tokens), token, undefinedMatchesAll).Some? ==>
        tokens == RemoveAt(old(tokens), FindToken(old(tokens), token, undefinedMatchesAll).value)
      ensures token.Undefined? && !undefinedMatchesAll ==> tokens == old(tokens)
      ensures token.Null? ==> tokens == old(tokens)
      ensures token.Undefined? && undefinedMatchesAll && old(tokens) != [] ==> tokens == old(tokens)[1..]
      ensures nextId == old(nextId)
      ensures trace == old(trace) + [TokenDeleteByValue]
    {
      replies := MissingTokenReplies(token);
      var found := FindToken(tokens, token, undefinedMatchesAll);
      if found.Some? {
        RemoveAtKeepsDistinct(tokens, found.value, RecordId);
        tokens := RemoveAt(tokens, found.value);
      }
      trace := trace + [TokenDeleteByValue];
      replies := replies + [LoggedOut];
    }
  }
}
