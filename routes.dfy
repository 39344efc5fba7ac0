/** The request handlers of the API blueprint as guarded transitions of an
    in-memory store: the users and characters tables become maps from id to
    object. Everything a handler learns from outside (the caller's id, the
    clock, the image generator's URL, the link probe's status code, the order
    in which the database returns rows) is a parameter. */
module Routes {
  import opened Values
  import opened Models

  /** The registration handler checks for these keys, in this order. */
  const USER_REQUIRED: seq<string> := ["username", "email", "password"]

  /** The character-creation handler checks for these keys, in this order. */
  const CHARACTER_REQUIRED: seq<string> :=
    ["name", "description", "link", "strength", "agility", "intellegence", "speed",
     "endurance", "camoflague", "health"]

  /** The battle handler keeps the part of a description in front of this. */
  const MARKER: string := "in the style of"

  /** A link probe answering with a status code above this triggers a repair. */
  const REPAIR_ABOVE: int := 209

  /** The longest hall of fame the database query returns. */
  const HOF_SIZE: nat := 10

  // ---------------------------------------------------------------------------
  // Outcomes
  // ---------------------------------------------------------------------------

  /** Exceptions a handler does not catch; the framework answers them with 500. */
  datatype Crash =
    | MarkerAbsent   // `str.index` raises ValueError
    | NotText        // the description is not a string, so it has no `index`
    | NoChampion     // the champion loop never bound `champ`
    | NoTitle        // a character has no `title` attribute
    | PasswordNotText  // `generate_password_hash` is given a value that is not text

  datatype ApiError =
    | NoBody                  // "Please send a body"
    | Missing(field: string)  // "You are missing the <field> field"
    | UserExists              // username or email already registered
    | Forbidden               // caller is not the owner
    | NotFound                // `get_or_404` found no row
    | Unhandled(crash: Crash)

  /** The HTTP status each error is answered with. */
  function Status(e: ApiError): (code: int)
    ensures e.NoBody? || e.Missing? || e.UserExists? <==> code == 400
    ensures e.Forbidden? <==> code == 403
    ensures e.NotFound? <==> code == 404
    ensures e.Unhandled? <==> code == 500
  {
    match e
    case NoBody => 400
    case Missing(_) => 400
    case UserExists => 400
    case Forbidden => 403
    case NotFound => 404
    case Unhandled(_) => 500
  }

  datatype Result<T> = Ok(value: T) | Err(error: ApiError)

  // ---------------------------------------------------------------------------
  // Request validation
  // ---------------------------------------------------------------------------

  predicate HasAll(data: Request, fields: seq<string>) {
    forall i :: 0 <= i < |fields| ==> fields[i] in data
  }

  /** Position of the first of `fields` that `data` lacks: the loop that
      returns on the first missing field. */
  function FirstMissing(fields: seq<string>, data: Request): (r: Option<nat>)
    ensures r.None? <==> HasAll(data, fields)
    ensures r.Some? ==> r.value < |fields| && fields[r.value] !in data
    ensures r.Some? ==> forall j :: 0 <= j < r.value ==> fields[j] in data
  {
    if fields == [] then None
    else if fields[0] !in data then Some(0)
    else match FirstMissing(fields[1..], data)
      case None => None
      case Some(i) => Some(i + 1)
  }

  lemma UserRequiredPresent(data: Request)
    ensures HasAll(data, USER_REQUIRED) <==> "username" in data && "email" in data && "password" in data
  {
    assert USER_REQUIRED[0] == "username" && USER_REQUIRED[1] == "email" && USER_REQUIRED[2] == "password";
  }

  lemma CharacterRequiredPresent(data: Request)
    ensures HasAll(data, CHARACTER_REQUIRED) <==> CharacterComplete(data)
  {
    var f := CHARACTER_REQUIRED;
    assert f[0] == "name" && f[1] == "description" && f[2] == "link" && f[3] == "strength" && f[4] == "agility";
    assert f[5] == "intellegence" && f[6] == "speed" && f[7] == "endurance" && f[8] == "camoflague" && f[9] == "health";
  }

  /** Some registered user already has this username or this email. */
  predicate LoginTaken(rows: map<int, UserRow>, username: Json, email: Json) {
    exists id :: id in rows && (rows[id].username == username || rows[id].email == email)
  }

  /** No two users share a username or an email. */
  predicate UniqueLogins(rows: map<int, UserRow>) {
    forall a, b :: a in rows && b in rows && a != b ==>
      rows[a].username != rows[b].username && rows[a].email != rows[b].email
  }

  /** Why a registration is refused, if it is: the first missing key, then a
      clash with an existing username or email. */
  function RegisterCheck(rows: map<int, UserRow>, data: Request): (r: Option<ApiError>)
    ensures r.None? <==> "username" in data && "email" in data && "password" in data
                         && !LoginTaken(rows, data["username"], data["email"])
    ensures !HasAll(data, USER_REQUIRED) ==> r.Some? && r.value.Missing? && r.value.field !in data
    ensures !HasAll(data, USER_REQUIRED) ==>
      r == Some(Missing(USER_REQUIRED[FirstMissing(USER_REQUIRED, data).value]))
    ensures ("username" in data && "email" in data && "password" in data
             && LoginTaken(rows, data["username"], data["email"])) ==> r == Some(UserExists)
    ensures r.Some? ==> Status(r.value) == 400
  {
    UserRequiredPresent(data);
    match FirstMissing(USER_REQUIRED, data)
    case Some(i) => Some(Missing(USER_REQUIRED[i]))
    case None =>
      if LoginTaken(rows, data["username"], data["email"]) then Some(UserExists) else None
  }

  /** An accepted registration keeps usernames and emails unique. */
  lemma RegisterKeepsLoginsUnique(rows: map<int, UserRow>, data: Request, id: int, now: int, hash: string -> string)
    requires UniqueLogins(rows) && id !in rows
    requires RegisterCheck(rows, data).None? && PasswordText(data)
    ensures UniqueLogins(rows[id := NewUserRow(id, data, now, hash)])
  {
  }

  // ---------------------------------------------------------------------------
  // Battle descriptions
  // ---------------------------------------------------------------------------

  predicate OccursAt(s: string, pat: string, j: int) {
    0 <= j && j + |pat| <= |s| && s[j..j + |pat|] == pat
  }

  predicate FirstOccurrence(s: string, pat: string, i: nat) {
    OccursAt(s, pat, i) && forall j :: 0 <= j < i ==> !OccursAt(s, pat, j)
  }

  /** `s.index(pat)`, or `None` where it raises ValueError. */
  function IndexOf(s: string, pat: string): (r: Option<nat>)
    ensures r.Some? ==> FirstOccurrence(s, pat, r.value)
    ensures r.None? ==> forall j :: !OccursAt(s, pat, j)
    decreases |s|
  {
    if |s| < |pat| then None
    else if s[..|pat|] == pat then Some(0)
    else match IndexOf(s[1..], pat)
      case None =>
        assert forall j :: OccursAt(s, pat, j) ==> j >= 1 && OccursAt(s[1..], pat, j - 1);
        None
      case Some(i) =>
        assert OccursAt(s, pat, i + 1) by { assert s[i + 1..i + 1 + |pat|] == s[1..][i..i + |pat|]; }
        assert forall j :: 1 <= j < i + 1 && OccursAt(s, pat, j) ==> OccursAt(s[1..], pat, j - 1);
        Some(i + 1)
  }

  /** Python's `s[:stop]`: a negative stop counts from the end. */
  function SliceTo(s: string, stop: int): (r: string)
    ensures r <= s
    ensures 0 <= stop <= |s| ==> |r| == stop
    ensures stop > |s| ==> r == s
    ensures -|s| <= stop < 0 ==> |r| == |s| + stop
    ensures stop < -|s| ==> r == []
  {
    if stop >= 0 then s[..if stop <= |s| then stop else |s|]
    else if |s| + stop >= 0 then s[..|s| + stop]
    else []
  }

  /** `description[:description.index(MARKER) - 1]`. */
  function DescriptionPrefix(d: Json): (r: Result<string>)
    ensures !d.JStr? ==> r == Err(Unhandled(NotText))
    ensures d.JStr? ==> (r.Err? <==> forall j :: !OccursAt(d.s, MARKER, j))
    ensures r.Err? ==> Status(r.error) == 500
  {
    match d
    case JStr(s) =>
      (match IndexOf(s, MARKER)
       case None => Err(Unhandled(MarkerAbsent))
       case Some(i) => Ok(SliceTo(s, i - 1)))
    case _ => Err(Unhandled(NotText))
  }

  /** With the marker first found at `i >= 1`, the extract is the text before
      the marker without its last character (the space in front of the
      marker). With the marker at the very start, the stop -1 counts from
      the end and the whole description but its last character is kept. */
  lemma PrefixBeforeMarker(s: string, i: nat)
    requires FirstOccurrence(s, MARKER, i)
    ensures i >= 1 ==> DescriptionPrefix(JStr(s)) == Ok(s[..i - 1]) && s[..i - 1] + [s[i - 1]] == s[..i]
    ensures i == 0 ==> DescriptionPrefix(JStr(s)) == Ok(s[..|s| - 1])
  {
  }

  // ---------------------------------------------------------------------------
  // Link repair
  // ---------------------------------------------------------------------------

  predicate NeedsRepair(status: int) {
    status > REPAIR_ABOVE
  }

  /** `to_dict()` of a character, without the `creator` entry. */
  function CharacterDict(row: CharacterRow): Request {
    map["id" := JInt(row.id), "name" := row.name, "strength" := row.strength,
        "agility" := row.agility, "intellegence" := row.intellegence, "speed" := row.speed,
        "endurance" := row.endurance, "camoflague" := row.camoflague, "health" := row.health,
        "link" := row.link, "description" := row.description,
        "date_created" := JInt(row.dateCreated), "wins" := row.wins, "champion" := row.champion]
  }

  /** `to_dict()` lists every whitelisted attribute but `type`, plus `id` and
      `date_created`, each under its own name; the owner is not listed. */
  lemma CharacterDictView(row: CharacterRow)
    ensures CharacterDict(row).Keys == (CHARACTER_FIELDS - {"type"}) + {"id", "date_created"}
    ensures forall k :: k in CharacterDict(row) ==> CharacterAttr(row, k) == Some(CharacterDict(row)[k])
  {
  }

  /** The dictionary the repair writes back: the character's own values with
      the new image URL as its link. */
  function RepairPatch(row: CharacterRow, url: string): Request {
    CharacterDict(row)["link" := JStr(url)]
  }

  /** Writing a character's own dictionary back changes nothing but the link. */
  lemma RepairChangesOnlyLink(row: CharacterRow, url: string)
    ensures ApplyCharacterUpdate(row, RepairPatch(row, url)) == row.(link := JStr(url))
  {
  }

  /** `character.update(to_dict() with the new link)`: only the link changes. */
  method WriteBackLink(character: Character, url: string)
    modifies character
    ensures character.Row() == old(character.Row()).(link := JStr(url))
  {
    ghost var before := character.Row();
    var patch := RepairPatch(character.Row(), url);
    RepairChangesOnlyLink(before, url);
    character.Update(patch);
  }

  /** The character after its link is probed with answer `status`. */
  function Refreshed(row: CharacterRow, status: int, url: string): CharacterRow {
    if NeedsRepair(status) then row.(link := JStr(url)) else row
  }

  // ---------------------------------------------------------------------------
  // Champion
  // ---------------------------------------------------------------------------

  /** A `champion` value the Boolean column holds as true: `True`, or the
      integer 1, which the column accepts and which equals `True` in Python. */
  predicate IsChampion(j: Json) {
    j == JBool(true) || j == JInt(1)
  }

  // ---------------------------------------------------------------------------
  // Hall of fame
  // ---------------------------------------------------------------------------

  /** `a` ranks at least as high as `b` under ORDER BY wins DESC on the
      integer column. */
  predicate WinsAtLeast(a: Json, b: Json) {
    a.JInt? && b.JInt? && a.n >= b.n
  }

  // ---------------------------------------------------------------------------
  // The store
  // ---------------------------------------------------------------------------

  class Db {
    var users: map<int, User>
    var characters: map<int, Character>
    var nextUserId: int
    var nextCharacterId: int

    /** Every object is stored under its own primary key, keys are below the
        next one to be assigned, and every user's token columns are paired. */
    ghost predicate Valid()
      reads this, users.Values
    {
      && (forall id :: id in users ==> users[id].id == id && id < nextUserId && users[id].Valid())
      && (forall id :: id in characters ==> characters[id].id == id && id < nextCharacterId)
    }

    ghost function UserRows(): map<int, UserRow>
      reads this, users.Values
    {
      map id | id in users :: users[id].Row()
    }

    ghost function CharacterRows(): map<int, CharacterRow>
      reads this, characters.Values
    {
      map id | id in characters :: characters[id].Row()
    }

    constructor ()
      ensures Valid() && UserRows() == map[] && CharacterRows() == map[]
    {
      users, characters := map[], map[];
      nextUserId, nextCharacterId := 1, 1;
    }

    /** POST /users */
    method CreateUser(data: Request, now: int, hash: string -> string) returns (r: Result<int>)
      requires Valid()
      modifies this
      ensures Valid() && characters == old(characters)
      ensures r.Ok? <==> RegisterCheck(old(UserRows()), data).None? && PasswordText(data)
      ensures r.Err? ==> UserRows() == old(UserRows())
      ensures RegisterCheck(old(UserRows()), data).Some? ==> r == Err(RegisterCheck(old(UserRows()), data).value)
      ensures RegisterCheck(old(UserRows()), data).None? && !PasswordText(data) ==> r == Err(Unhandled(PasswordNotText))
      ensures r.Ok? ==>
        && "username" in data && "email" in data && "password" in data && PasswordText(data)
        && r.value !in old(UserRows())
        && UserRows() == old(UserRows())[r.value := NewUserRow(r.value, data, now, hash)]
        && |UserRows()| == |old(UserRows())| + 1
        && (UniqueLogins(old(UserRows())) ==> UniqueLogins(UserRows()))
    {
      UserRequiredPresent(data);
      var missing := FirstMissing(USER_REQUIRED, data);
      if missing.Some? {
        return Err(Missing(USER_REQUIRED[missing.value]));
      }
      var username, email := data["username"], data["email"];
      var taken := exists id :: id in users && (users[id].username == username || users[id].email == email);
      assert taken == LoginTaken(UserRows(), username, email) by {
        if taken {
          var id :| id in users && (users[id].username == username || users[id].email == email);
          assert UserRows()[id] == users[id].Row();
        }
      }
      if taken {
        return Err(UserExists);
      }
      if !data["password"].JStr? {
        return Err(Unhandled(PasswordNotText));
      }
      var id := nextUserId;
      ghost var before := UserRows();
      var user := new User(id, data, now, hash);
      users := users[id := user];
      nextUserId := nextUserId + 1;
      r := Ok(id);
      assert UserRows() == before[id := NewUserRow(id, data, now, hash)];
      if UniqueLogins(before) {
        RegisterKeepsLoginsUnique(before, data, id, now, hash);
      }
    }

    /** PUT /users/<id>, by the authenticated user `caller`. */
    method UpdatedUser(caller: int, id: int, data: Request, hash: string -> string) returns (r: Result<UserRow>)
      requires Valid()
      modifies users.Values
      ensures Valid() && users == old(users) && characters == old(characters)
      ensures caller != id ==> r == Err(Forbidden) && UserRows() == old(UserRows())
      ensures caller == id && id !in users ==> r == Err(NotFound) && UserRows() == old(UserRows())
      ensures caller == id && id in users && !PasswordText(data) ==>
        r == Err(Unhandled(PasswordNotText)) && UserRows() == old(UserRows())
      ensures caller == id && id in users && PasswordText(data) ==>
        && r == Ok(ApplyUserUpdate(old(UserRows())[id], data, hash))
        && UserRows() == old(UserRows())[id := r.value]
    {
      if caller != id {
        return Err(Forbidden);
      }
      if id !in users {
        return Err(NotFound);
      }
      if !PasswordText(data) {
        // Hashing raises before the commit, so nothing is stored.
        return Err(Unhandled(PasswordNotText));
      }
      var user := users[id];
      user.Update(data, hash);
      r := Ok(user.Row());
      forall k | k in users ensures UserRows()[k] == old(UserRows())[id := r.value][k] {
        if k != id {
          assert users[k].id != user.id;
        }
      }
    }

    /** DELETE /users/<id>, by the authenticated user `caller`. The user's
        characters stay behind. */
    method DeleteUser(caller: int, id: int) returns (r: Result<UserRow>)
      requires Valid()
      modifies this
      ensures Valid() && characters == old(characters)
      ensures caller != id ==> r == Err(Forbidden) && UserRows() == old(UserRows())
      ensures caller == id && id !in old(users) ==> r == Err(NotFound) && UserRows() == old(UserRows())
      ensures caller == id && id in old(users) ==>
        r == Ok(old(UserRows())[id]) && UserRows() == old(UserRows()) - {id}
    {
      if caller != id {
        return Err(Forbidden);
      }
      if id !in users {
        return Err(NotFound);
      }
      r := Ok(users[id].Row());
      users := users - {id};
    }

    /** POST /characters, by the authenticated user `caller`; `body` is `None`
        when the request is not JSON, and `url` is the image the generator
        returns for the submitted link text. */
    method CreateCharacter(caller: int, body: Option<Request>, url: string, now: int) returns (r: Result<int>)
      requires Valid()
      modifies this
      ensures Valid() && users == old(users)
      ensures body.None? ==> r == Err(NoBody) && CharacterRows() == old(CharacterRows())
      ensures body.Some? && !CharacterComplete(body.value) ==>
        && FirstMissing(CHARACTER_REQUIRED, body.value).Some?
        && r == Err(Missing(CHARACTER_REQUIRED[FirstMissing(CHARACTER_REQUIRED, body.value).value]))
        && CharacterRows() == old(CharacterRows())
      ensures body.Some? && CharacterComplete(body.value) ==>
        && r.Ok? && r.value !in old(CharacterRows())
        && CharacterRows() == old(CharacterRows())[r.value := NewCharacterRow(r.value, body.value["link" := JStr(url)], caller, now)]
        && CharacterRows()[r.value].userId == caller && CharacterRows()[r.value].link == JStr(url)
    {
      if body.None? {
        return Err(NoBody);
      }
      var data := body.value;
      CharacterRequiredPresent(data);
      var missing := FirstMissing(CHARACTER_REQUIRED, data);
      if missing.Some? {
        return Err(Missing(CHARACTER_REQUIRED[missing.value]));
      }
      data := data["link" := JStr(url)];
      var id := nextCharacterId;
      var character := new Character(id, data, caller, now);
      characters := characters[id := character];
      nextCharacterId := nextCharacterId + 1;
      r := Ok(id);
    }

    /** DELETE /characters/<id>, by the authenticated user `caller`. */
    method DeleteCharacter(caller: int, id: int) returns (e: ApiError)
      requires Valid()
      modifies this
      ensures Valid() && users == old(users)
      ensures id !in old(characters) ==> e == NotFound && CharacterRows() == old(CharacterRows())
      ensures id in old(characters) && old(characters)[id].userId != caller ==>
        e == Forbidden && CharacterRows() == old(CharacterRows())
      ensures id in old(characters) && old(characters)[id].userId == caller ==>
        e == Unhandled(NoTitle) && CharacterRows() == old(CharacterRows()) - {id}
    {
      if id !in characters {
        return NotFound;
      }
      var character := characters[id];
      if caller != character.userId {
        return Forbidden;
      }
      characters := characters - {id};
      // The success message reads `character.title` after the commit.
      e := Unhandled(NoTitle);
    }

    /** The probe-and-repair step of the two character reads: when the probe
        of the stored link answers above 209, the character's own dictionary,
        with the freshly generated `url` as link, is written back. */
    method CheckLink(id: int, status: int, url: string) returns (repaired: bool)
      requires Valid() && id in characters
      modifies characters.Values
      ensures Valid() && users == old(users) && characters == old(characters)
      ensures repaired == NeedsRepair(status)
      ensures CharacterRows() == old(CharacterRows())[id := Refreshed(old(CharacterRows())[id], status, url)]
    {
      repaired := status > REPAIR_ABOVE;
      if repaired {
        var character := characters[id];
        WriteBackLink(character, url);
        forall k | k in characters
          ensures CharacterRows()[k] == old(CharacterRows())[id := Refreshed(old(CharacterRows())[id], status, url)][k]
        {
          if k != id {
            assert characters[k].id != character.id;
          }
        }
      }
    }

    /** GET /characters/<id>; `status` is what the probe of the stored link
        answers and `url` the image generated from the description. */
    method GetCharacter(id: int, status: int, url: string) returns (r: Result<CharacterRow>, repaired: bool)
      requires Valid()
      modifies characters.Values
      ensures Valid() && users == old(users) && characters == old(characters)
      ensures id !in characters ==> r == Err(NotFound) && !repaired && CharacterRows() == old(CharacterRows())
      ensures id in characters ==>
        && repaired == NeedsRepair(status)
        && CharacterRows() == old(CharacterRows())[id := Refreshed(old(CharacterRows())[id], status, url)]
        && r == Ok(CharacterRows()[id])
    {
      if id !in characters {
        return Err(NotFound), false;
      }
      repaired := CheckLink(id, status, url);
      r := Ok(characters[id].Row());
    }

    /** The champion loop: the first of the query's rows whose `champion` is
        true, scanning in the order the database returns them. */
    method SelectChampion(order: seq<int>) returns (k: Option<nat>)
      requires forall i :: 0 <= i < |order| ==> order[i] in characters
      ensures k.None? <==> forall i :: 0 <= i < |order| ==> !IsChampion(characters[order[i]].champion)
      ensures k.Some? ==>
        && k.value < |order| && IsChampion(characters[order[k.value]].champion)
        && forall i :: 0 <= i < k.value ==> !IsChampion(characters[order[i]].champion)
    {
      k := None;
      var i := 0;
      while i < |order|
        invariant 0 <= i <= |order| && k.None?
        invariant forall j :: 0 <= j < i ==> !IsChampion(characters[order[j]].champion)
      {
        if IsChampion(characters[order[i]].champion) {
          k := Some(i);
          break;
        }
        i := i + 1;
      }
    }

    /** GET /champ. `order` lists the rows of the champion query in the order
        the database returns them: stored characters, every champion among
        them. */
    method GetChamp(order: seq<int>, status: int, url: string) returns (r: Result<CharacterRow>, repaired: bool)
      requires Valid()
      requires forall i :: 0 <= i < |order| ==> order[i] in characters
      requires forall id :: id in characters && IsChampion(characters[id].champion) ==> id in order
      modifies characters.Values
      ensures Valid() && users == old(users) && characters == old(characters)
      ensures r.Err? <==> forall id :: id in old(CharacterRows()) ==> !IsChampion(old(CharacterRows())[id].champion)
      ensures r.Err? ==> r.error == Unhandled(NoChampion) && !repaired && CharacterRows() == old(CharacterRows())
      ensures r.Ok? ==> exists k ::
        && 0 <= k < |order|
        && IsChampion(old(CharacterRows())[order[k]].champion)
        && (forall i :: 0 <= i < k ==> !IsChampion(old(CharacterRows())[order[i]].champion))
        && repaired == NeedsRepair(status)
        && CharacterRows() == old(CharacterRows())[order[k] := Refreshed(old(CharacterRows())[order[k]], status, url)]
        && r.value == CharacterRows()[order[k]]
    {
      ghost var before := CharacterRows();
      var k := SelectChampion(order);
      if k.None? {
        forall id | id in before ensures !IsChampion(before[id].champion) {
          assert before[id] == characters[id].Row();
        }
        return Err(Unhandled(NoChampion)), false;
      }
      var id := order[k.value];
      assert IsChampion(before[id].champion);
      forall i | 0 <= i < k.value ensures !IsChampion(before[order[i]].champion) {
        assert before[order[i]] == characters[order[i]].Row();
      }
      repaired := CheckLink(id, status, url);
      r := Ok(characters[id].Row());
      assert r.value == CharacterRows()[order[k.value]];
    }

    /** GET /hof. `ranked` lists the rows of the leaderboard query: at most ten
        stored characters, ordered by descending wins. Positions count from 1. */
    method GetHof(ranked: seq<int>) returns (board: map<int, CharacterRow>)
      requires |ranked| <= HOF_SIZE
      requires forall i :: 0 <= i < |ranked| ==> ranked[i] in characters
      requires forall i, j :: 0 <= i < j < |ranked| ==> WinsAtLeast(characters[ranked[i]].wins, characters[ranked[j]].wins)
      ensures forall k :: k in board <==> 1 <= k <= |ranked|
      ensures forall k :: 1 <= k <= |ranked| ==> board[k] == characters[ranked[k - 1]].Row()
      ensures forall a, b :: a in board && b in board && a < b ==> WinsAtLeast(board[a].wins, board[b].wins)
    {
      var counter := 1;
      board := map[];
      for i := 0 to |ranked|
        invariant counter == i + 1
        invariant forall k :: k in board <==> 1 <= k <= i
        invariant forall k :: 1 <= k <= i ==> board[k] == characters[ranked[k - 1]].Row()
      {
        board := board[counter := characters[ranked[i]].Row()];
        counter := counter + 1;
      }
    }

    /** GET /battle/<champId>/<challId>: the two description extracts the
        story prompts are built from. */
    method GetBattleStory(champId: int, challId: int) returns (r: Result<(string, string)>)
      ensures champId !in characters || challId !in characters ==> r == Err(NotFound)
      ensures champId in characters && challId in characters ==>
        var a, b := DescriptionPrefix(characters[champId].description), DescriptionPrefix(characters[challId].description);
        && (a.Err? ==> r == Err(a.error))
        && (a.Ok? && b.Err? ==> r == Err(b.error))
        && (a.Ok? && b.Ok? ==> r == Ok((a.value, b.value)))
    {
      if champId !in characters || challId !in characters {
        return Err(NotFound);
      }
      var champ := DescriptionPrefix(characters[champId].description);
      if champ.Err? {
        return Err(champ.error);
      }
      var chall := DescriptionPrefix(characters[challId].description);
      if chall.Err? {
        return Err(chall.error);
      }
      r := Ok((champ.value, chall.value));
    }
  }
}
