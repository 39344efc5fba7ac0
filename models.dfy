/** The two database records of the game backend, users and characters, as
    objects whose methods change their attributes in place, together with the
    pure functions that specify those changes. */
module Models {
  import opened Values

  /** One minute: an existing token is handed out again only while it expires
      more than this many seconds after the current time. */
  const RENEW_MARGIN: int := 60

  /** Base64 text of 24 random bytes is always 32 characters long. */
  const TOKEN_LENGTH: nat := 32

  /** The keys `User.update` copies onto the record; every other key is skipped. */
  const USER_FIELDS: set<string> := {"username", "email", "password", "is_admin"}

  /** The keys `Characters.update` copies onto the record; `type` has no column. */
  const CHARACTER_FIELDS: set<string> :=
    {"name", "type", "strength", "agility", "intellegence", "speed", "endurance",
     "camoflague", "health", "description", "link", "wins", "champion"}

  // ---------------------------------------------------------------------------
  // Token issuing
  // ---------------------------------------------------------------------------

  /** The `token` and `token_expiration` columns of a user (times in seconds). */
  datatype TokenState = TokenState(token: Option<string>, expiration: Option<int>)
  {
    /** The two columns are only ever set together. */
    predicate Paired() {
      token.Some? <==> expiration.Some?
    }

    /** The reuse test: the token is truthy (set and non-empty) and it expires
        strictly later than one minute from `now`. */
    predicate Reusable(now: int) {
      token.Some? && token.value != "" && expiration.Some? && expiration.value > now + RENEW_MARGIN
    }
  }

  /** What `get_token` leaves behind and what it returns. */
  datatype Issued = Issued(state: TokenState, token: string)

  /** The token issued at time `now`, where `newToken` stands for the random token
      the issuer would generate. */
  function Issue(s: TokenState, now: int, expiresIn: int, newToken: string): (r: Issued)
    ensures r.state.Paired() && r.state.token == Some(r.token)
    // a live token is returned as it is, its expiry untouched
    ensures s.Reusable(now) ==> r.token == s.token.value && r.state == s
    // otherwise the new token is installed with a full lifetime
    ensures !s.Reusable(now) ==> r.token == newToken && r.state.expiration == Some(now + expiresIn)
    // either way the expiry is the kept one, more than a minute ahead, or now + expiresIn
    ensures r.state.expiration == Some(now + expiresIn)
            || (r.state.expiration == s.expiration && r.state.expiration.value > now + RENEW_MARGIN)
  {
    if s.Reusable(now) then Issued(s, s.token.value)
    else Issued(TokenState(Some(newToken), Some(now + expiresIn)), newToken)
  }

  /** Asking twice at the same moment yields the same token and the same state,
      whatever the second random draw would have been, as long as the lifetime
      is longer than the renewal margin. */
  lemma IssueIdempotent(s: TokenState, now: int, expiresIn: int, newToken: string, newToken2: string)
    requires expiresIn > RENEW_MARGIN && newToken != ""
    ensures Issue(Issue(s, now, expiresIn, newToken).state, now, expiresIn, newToken2) == Issue(s, now, expiresIn, newToken)
  {
  }

  /** When no live token exists and the random draw differs from the stored
      token, the caller gets a different token from the one stored before. */
  lemma IssueRenewsStale(s: TokenState, now: int, expiresIn: int, newToken: string)
    requires !s.Reusable(now) && s.token != Some(newToken)
    ensures Some(Issue(s, now, expiresIn, newToken).token) != s.token
  {
  }

  // ---------------------------------------------------------------------------
  // Users
  // ---------------------------------------------------------------------------

  /** A snapshot of a user object. `isAdmin` is an attribute without a column:
      `None` while it was never assigned. */
  datatype UserRow = UserRow(
    id: int,
    username: Json,
    email: Json,
    password: string,
    dateCreated: int,
    isAdmin: Option<Json>,
    tokens: TokenState)

  /** `getattr(user, key)`: the value of the attribute named `key`, `None` when
      the object has no such attribute. */
  function UserAttr(row: UserRow, key: string): Option<Json> {
    if key == "id" then Some(JInt(row.id))
    else if key == "username" then Some(row.username)
    else if key == "email" then Some(row.email)
    else if key == "password" then Some(JStr(row.password))
    else if key == "date_created" then Some(JInt(row.dateCreated))
    else if key == "token" then
      Some(if row.tokens.token.Some? then JStr(row.tokens.token.value) else JNull)
    else if key == "token_expiration" then
      Some(if row.tokens.expiration.Some? then JInt(row.tokens.expiration.value) else JNull)
    else if key == "is_admin" then row.isAdmin
    else None
  }

  /** `generate_password_hash` accepts only text: a `password` that is given
      must be a string, or hashing it raises. */
  predicate PasswordText(data: Request) {
    "password" in data ==> data["password"].JStr?
  }

  /** The record a registration persists: the password goes through the hash,
      no token has been issued yet. Only these columns are modelled. */
  function NewUserRow(id: int, data: Request, now: int, hash: string -> string): (r: UserRow)
    requires "username" in data && "email" in data && "password" in data && PasswordText(data)
    ensures r.password == hash(data["password"].s)
    ensures r.tokens == TokenState(None, None) && r.tokens.Paired()
    ensures UserAttr(r, "username") == Some(data["username"]) && UserAttr(r, "email") == Some(data["email"])
  {
    UserRow(id, data["username"], data["email"], hash(data["password"].s), now, None, TokenState(None, None))
  }

  /** The user after `update(data)`. */
  function ApplyUserUpdate(row: UserRow, data: Request, hash: string -> string): (r: UserRow)
    requires PasswordText(data)
    ensures r.id == row.id && r.dateCreated == row.dateCreated && r.tokens == row.tokens
    ensures "password" in data ==> r.password == hash(data["password"].s)
    ensures (forall k :: k in data ==> k !in USER_FIELDS) ==> r == row
  {
    row.(username := Pick(data, "username", row.username),
         email := Pick(data, "email", row.email),
         password := if "password" in data then hash(data["password"].s) else row.password,
         isAdmin := if "is_admin" in data then Some(data["is_admin"]) else row.isAdmin)
  }

  /** Attribute by attribute: a whitelisted key present in `data` overwrites its
      attribute (the password with its hash); every other attribute keeps its
      value. */
  lemma UserUpdateAttr(row: UserRow, data: Request, hash: string -> string, key: string)
    requires PasswordText(data)
    ensures UserAttr(ApplyUserUpdate(row, data, hash), key)
            == if key in USER_FIELDS && key in data then
                 (if key == "password" then Some(JStr(hash(data[key].s))) else Some(data[key]))
               else UserAttr(row, key)
  {
  }

  /** Keys outside the whitelist make no difference at all. */
  lemma UserUpdateIgnoresUnknown(row: UserRow, data: Request, hash: string -> string)
    requires PasswordText(data)
    ensures ApplyUserUpdate(row, data, hash) == ApplyUserUpdate(row, Restrict(data, USER_FIELDS), hash)
  {
  }

  class User {
    const id: int
    const dateCreated: int
    var username: Json
    var email: Json
    var password: string
    var isAdmin: Option<Json>
    var token: Option<string>
    var tokenExpiration: Option<int>

    ghost predicate Valid()
      reads this
    {
      Tokens().Paired()
    }

    function Tokens(): TokenState
      reads this
    {
      TokenState(token, tokenExpiration)
    }

    function Row(): UserRow
      reads this
    {
      UserRow(id, username, email, password, dateCreated, isAdmin, Tokens())
    }

    /** `User(**data)`: the constructor replaces the given password by its hash. */
    constructor (id: int, data: Request, now: int, hash: string -> string)
      requires "username" in data && "email" in data && "password" in data && PasswordText(data)
      ensures Valid() && Row() == NewUserRow(id, data, now, hash)
    {
      this.id := id;
      this.dateCreated := now;
      username := data["username"];
      email := data["email"];
      password := hash(data["password"].s);
      isAdmin := None;
      token := None;
      tokenExpiration := None;
    }

    /** `get_token(expires_in)` at time `now`; `newToken` is the random token. */
    method GetToken(now: int, expiresIn: int, newToken: string) returns (t: string)
      requires Valid() && |newToken| == TOKEN_LENGTH
      modifies this`token, this`tokenExpiration
      ensures Valid()
      ensures Issued(Tokens(), t) == Issue(old(Tokens()), now, expiresIn, newToken)
    {
      if token.Some? && token.value != "" && tokenExpiration.Some? && tokenExpiration.value > now + RENEW_MARGIN {
        return token.value;
      }
      token := Some(newToken);
      tokenExpiration := Some(now + expiresIn);
      t := token.value;
    }

    /** `update(data)`: each whitelisted key in `data` is copied onto the object,
        the password through the hash. */
    method Update(data: Request, hash: string -> string)
      requires PasswordText(data)
      modifies this`username, this`email, this`password, this`isAdmin
      ensures Row() == ApplyUserUpdate(old(Row()), data, hash)
    {
      var pending := data.Keys;
      while pending != {}
        invariant pending <= data.Keys
        invariant Row() == ApplyUserUpdate(old(Row()), Restrict(data, data.Keys - pending), hash)
        decreases pending
      {
        var field :| field in pending;
        ghost var before := Restrict(data, data.Keys - pending);
        pending := pending - {field};
        assert Restrict(data, data.Keys - pending) == before[field := data[field]];
        if field !in USER_FIELDS {
          continue;
        }
        if field == "password" {
          password := hash(data[field].s);
        } else if field == "username" {
          username := data[field];
        } else if field == "email" {
          email := data[field];
        } else {
          isAdmin := Some(data[field]);
        }
      }
      assert Restrict(data, data.Keys - pending) == data;
    }
  }

  // ---------------------------------------------------------------------------
  // Characters
  // ---------------------------------------------------------------------------

  /** A snapshot of a character object. `typeAttr` is the `type` attribute,
      which has no column: `None` while it was never assigned. */
  datatype CharacterRow = CharacterRow(
    id: int,
    userId: int,
    dateCreated: int,
    name: Json,
    strength: Json,
    agility: Json,
    intellegence: Json,
    speed: Json,
    endurance: Json,
    camoflague: Json,
    health: Json,
    link: Json,
    description: Json,
    champion: Json,
    wins: Json,
    typeAttr: Option<Json>)

  /** `getattr(character, key)`, `None` when there is no such attribute. */
  function CharacterAttr(row: CharacterRow, key: string): Option<Json> {
    if key == "id" then Some(JInt(row.id))
    else if key == "user_id" then Some(JInt(row.userId))
    else if key == "date_created" then Some(JInt(row.dateCreated))
    else if key == "name" then Some(row.name)
    else if key == "strength" then Some(row.strength)
    else if key == "agility" then Some(row.agility)
    else if key == "intellegence" then Some(row.intellegence)
    else if key == "speed" then Some(row.speed)
    else if key == "endurance" then Some(row.endurance)
    else if key == "camoflague" then Some(row.camoflague)
    else if key == "health" then Some(row.health)
    else if key == "link" then Some(row.link)
    else if key == "description" then Some(row.description)
    else if key == "champion" then Some(row.champion)
    else if key == "wins" then Some(row.wins)
    else if key == "type" then row.typeAttr
    else None
  }

  /** The columns a new character needs because they are neither nullable nor
      defaulted. */
  predicate CharacterComplete(data: Request) {
    && "name" in data && "description" in data && "link" in data
    && "strength" in data && "agility" in data && "intellegence" in data
    && "speed" in data && "endurance" in data && "camoflague" in data && "health" in data
  }

  /** The record `Characters(**data)` persists for owner `userId`: `champion`
      defaults to false and `wins` to 0, when absent or null. */
  function NewCharacterRow(id: int, data: Request, userId: int, now: int): (r: CharacterRow)
    requires CharacterComplete(data)
    ensures r.userId == userId && r.link == data["link"] && r.typeAttr.None?
    ensures r.champion != JNull && r.wins != JNull
    ensures "champion" in data && data["champion"] != JNull ==> r.champion == data["champion"]
    ensures "wins" in data && data["wins"] != JNull ==> r.wins == data["wins"]
    ensures "champion" !in data || data["champion"] == JNull ==> r.champion == JBool(false)
    ensures "wins" !in data || data["wins"] == JNull ==> r.wins == JInt(0)
  {
    CharacterRow(id, userId, now, data["name"], data["strength"], data["agility"],
                 data["intellegence"], data["speed"], data["endurance"], data["camoflague"],
                 data["health"], data["link"], data["description"],
                 PickOrDefault(data, "champion", JBool(false)), PickOrDefault(data, "wins", JInt(0)), None)
  }

  /** The character after `update(data)`. */
  function ApplyCharacterUpdate(row: CharacterRow, data: Request): (r: CharacterRow)
    ensures r.id == row.id && r.userId == row.userId && r.dateCreated == row.dateCreated
    ensures (forall k :: k in data ==> k !in CHARACTER_FIELDS) ==> r == row
  {
    row.(name := Pick(data, "name", row.name),
         strength := Pick(data, "strength", row.strength),
         agility := Pick(data, "agility", row.agility),
         intellegence := Pick(data, "intellegence", row.intellegence),
         speed := Pick(data, "speed", row.speed),
         endurance := Pick(data, "endurance", row.endurance),
         camoflague := Pick(data, "camoflague", row.camoflague),
         health := Pick(data, "health", row.health),
         link := Pick(data, "link", row.link),
         description := Pick(data, "description", row.description),
         champion := Pick(data, "champion", row.champion),
         wins := Pick(data, "wins", row.wins),
         typeAttr := if "type" in data then Some(data["type"]) else row.typeAttr)
  }

  /** Attribute by attribute: exactly the whitelisted keys present in `data`
      take their given values; every other attribute keeps its value. */
  lemma CharacterUpdateAttr(row: CharacterRow, data: Request, key: string)
    ensures CharacterAttr(ApplyCharacterUpdate(row, data), key)
            == if key in CHARACTER_FIELDS && key in data then Some(data[key]) else CharacterAttr(row, key)
  {
  }

  /** Keys outside the whitelist make no difference at all. */
  lemma CharacterUpdateIgnoresUnknown(row: CharacterRow, data: Request)
    ensures ApplyCharacterUpdate(row, data) == ApplyCharacterUpdate(row, Restrict(data, CHARACTER_FIELDS))
  {
  }

  /** The row with the whitelisted attribute `key` set to `v`. */
  function SetField(row: CharacterRow, key: string, v: Json): (r: CharacterRow)
    requires key in CHARACTER_FIELDS
    ensures CharacterAttr(r, key) == Some(v)
    ensures forall k :: k != key ==> CharacterAttr(r, k) == CharacterAttr(row, k)
  {
    if key == "name" then row.(name := v)
    else if key == "type" then row.(typeAttr := Some(v))
    else if key == "strength" then row.(strength := v)
    else if key == "agility" then row.(agility := v)
    else if key == "intellegence" then row.(intellegence := v)
    else if key == "speed" then row.(speed := v)
    else if key == "endurance" then row.(endurance := v)
    else if key == "camoflague" then row.(camoflague := v)
    else if key == "health" then row.(health := v)
    else if key == "description" then row.(description := v)
    else if key == "link" then row.(link := v)
    else if key == "wins" then row.(wins := v)
    else row.(champion := v)
  }

  /** Adding one more key to the data already applied amounts to one more
      `setattr` when the key is whitelisted, and to nothing otherwise. */
  lemma CharacterUpdateStep(row: CharacterRow, done: Request, key: string, v: Json)
    requires key !in done
    ensures ApplyCharacterUpdate(row, done[key := v])
            == if key in CHARACTER_FIELDS then SetField(ApplyCharacterUpdate(row, done), key, v)
               else ApplyCharacterUpdate(row, done)
  {
    var after, applied := ApplyCharacterUpdate(row, done[key := v]), ApplyCharacterUpdate(row, done);
    if key !in CHARACTER_FIELDS {
      assert after == applied;
    } else if key == "name" {
      assert after == applied.(name := v);
    } else if key == "type" {
      assert after == applied.(typeAttr := Some(v));
    } else if key == "strength" {
      assert after == applied.(strength := v);
    } else if key == "agility" {
      assert after == applied.(agility := v);
    } else if key == "intellegence" {
      assert after == applied.(intellegence := v);
    } else if key == "speed" {
      assert after == applied.(speed := v);
    } else if key == "endurance" {
      assert after == applied.(endurance := v);
    } else if key == "camoflague" {
      assert after == applied.(camoflague := v);
    } else if key == "health" {
      assert after == applied.(health := v);
    } else if key == "description" {
      assert after == applied.(description := v);
    } else if key == "link" {
      assert after == applied.(link := v);
    } else if key == "wins" {
      assert after == applied.(wins := v);
    } else {
      assert after == applied.(champion := v);
    }
  }

  class Character {
    const id: int
    const userId: int
    const dateCreated: int
    var name: Json
    var strength: Json
    var agility: Json
    var intellegence: Json
    var speed: Json
    var endurance: Json
    var camoflague: Json
    var health: Json
    var link: Json
    var description: Json
    var champion: Json
    var wins: Json
    var typeAttr: Option<Json>

    function Row(): CharacterRow
      reads this
    {
      CharacterRow(id, userId, dateCreated, name, strength, agility, intellegence, speed,
                   endurance, camoflague, health, link, description, champion, wins, typeAttr)
    }

    /** `Characters(**data)` with `user_id` stamped as `userId`. */
    constructor (id: int, data: Request, userId: int, now: int)
      requires CharacterComplete(data)
      ensures Row() == NewCharacterRow(id, data, userId, now)
    {
      this.id := id;
      this.userId := userId;
      dateCreated := now;
      name := data["name"];
      strength := data["strength"];
      agility := data["agility"];
      intellegence := data["intellegence"];
      speed := data["speed"];
      endurance := data["endurance"];
      camoflague := data["camoflague"];
      health := data["health"];
      link := data["link"];
      description := data["description"];
      champion := PickOrDefault(data, "champion", JBool(false));
      wins := PickOrDefault(data, "wins", JInt(0));
      typeAttr := None;
    }

    /** `setattr(self, key, v)` for a whitelisted key. */
    method SetAttr(key: string, v: Json)
      requires key in CHARACTER_FIELDS
      modifies this`name, this`strength, this`agility, this`intellegence, this`speed,
               this`endurance, this`camoflague, this`health, this`link, this`description,
               this`champion, this`wins, this`typeAttr
      ensures Row() == SetField(old(Row()), key, v)
    {
      if key == "name" { name := v; }
      else if key == "type" { typeAttr := Some(v); }
      else if key == "strength" { strength := v; }
      else if key == "agility" { agility := v; }
      else if key == "intellegence" { intellegence := v; }
      else if key == "speed" { speed := v; }
      else if key == "endurance" { endurance := v; }
      else if key == "camoflague" { camoflague := v; }
      else if key == "health" { health := v; }
      else if key == "description" { description := v; }
      else if key == "link" { link := v; }
      else if key == "wins" { wins := v; }
      else { champion := v; }
    }

    /** `update(data)`: each whitelisted key in `data` is copied onto the object. */
    method Update(data: Request)
      modifies this`name, this`strength, this`agility, this`intellegence, this`speed,
               this`endurance, this`camoflague, this`health, this`link, this`description,
               this`champion, this`wins, this`typeAttr
      ensures Row() == ApplyCharacterUpdate(old(Row()), data)
    {
      var pending := data.Keys;
      while pending != {}
        invariant pending <= data.Keys
        invariant Row() == ApplyCharacterUpdate(old(Row()), Restrict(data, data.Keys - pending))
        decreases pending
      {
        var field :| field in pending;
        ghost var before := Restrict(data, data.Keys - pending);
        pending := pending - {field};
        assert Restrict(data, data.Keys - pending) == before[field := data[field]];
        if field !in CHARACTER_FIELDS {
          continue;
        }
        CharacterUpdateStep(old(Row()), before, field, data[field]);
        SetAttr(field, data[field]);
      }
      assert Restrict(data, data.Keys - pending) == data;
    }
  }
}
