# Account and character lifecycle of the Flask_AI game backend

The backend lets players register, log in for a bearer token, and create
"characters" with stat attributes whose artwork and battle stories come from a
generative AI service. This project models the part of it that can be stated
precisely: the user and character records and the request handlers that
create, change, read-with-repair and delete them, over an in-memory store (a
map from id to user object and a map from id to character object).

- `values.dfy` (module `Values`): `Option`, scalar JSON values (`Json`) and the
  decoded request body (`Request`, a map from key to `Json`).
- `models.dfy` (module `Models`): the `User` and `Character` classes of
  `app/blueprints/api/models.py` with the methods that change them in place
  (`GetToken`, `Update`, `SetAttr`), and the pure functions that specify them
  (`Issue`, `ApplyUserUpdate`, `ApplyCharacterUpdate`, `NewUserRow`,
  `NewCharacterRow`) with lemmas about those.
- `routes.dfy` (module `Routes`): the handlers of
  `app/blueprints/api/routes.py` as methods of a `Db` class whose `users` and
  `characters` maps they reassign; request validation, the battle description
  extract, the repair decision, champion selection and leaderboard numbering.

Modelling choices:

- A record attribute that `update` may overwrite holds a `Json` value, because
  the source copies whatever the client sent without looking at its type.
  `is_admin` (users) and `type` (characters) are accepted by `update` but have
  no column; they are attributes of type `Option<Json>`, `None` until assigned.
- The password hash is a function parameter `hash: string -> string` that the
  model never interprets. `generate_password_hash` takes only text: a
  password that is not a string makes it raise, which the handlers answer
  with 500 and nothing stored (`PasswordText`). The random token is a parameter of 32 characters
  (the base64 text of 24 random bytes). Times are integer seconds; "one
  minute" is `RENEW_MARGIN = 60`.
- The authenticated caller is its user id. The link probe is its status code,
  the generated image is its URL, both parameters.
- A database query result is a parameter listing ids in the order the
  database returns them; its `requires` says what the query guarantees (every
  champion is listed; at most ten rows in descending wins).
- An exception the handler does not catch (for example `str.index` failing)
  is `Err(Unhandled(..))`, which the framework answers with status 500.
- `Db.Valid()` is the store invariant: every object is stored under its own
  id, ids lie below the next one to be assigned, and each user's `token` and
  `token_expiration` are set together.

Behaviour of the code the model keeps:

- Registration only checks that `username`, `email` and `password` are present
  as keys; empty values are accepted. A duplicate username or email is
  answered with 400.
- The battle extract is `description[:i-1]` for the first marker position
  `i`. It drops the character in front of the marker too, and when the
  description starts with the marker (`i = 0`) the stop `-1` counts from the
  end, so everything but the last character is kept (`PrefixBeforeMarker`).
- The champion is the first row of the query whose `champion` is true (`True`
  or the integer 1, which the Boolean column accepts). Nothing makes the flag
  unique.

## Model

| member | source | states |
|---|---|---|
| `Models.Issue` | app/blueprints/api/models.py:38-45 | a token is reused, with its expiry untouched, exactly when it is set, non-empty and expires more than 60 s after `now` (`TokenState.Reusable`, the test at line 40); otherwise the new token is installed with expiry `now + expiresIn`; afterwards the stored token is the returned one and the expiry is either the kept one (later than `now + 60`) or `now + expiresIn` |
| `Models.User.GetToken` | app/blueprints/api/models.py:38-45 | the token columns change as `Issue` says and the returned token is the stored one; the pairing of token and expiry is kept; no other attribute changes |
| `Models.IssueIdempotent` | app/blueprints/api/models.py:38-45 | with a lifetime above 60 s, a second request at the same moment returns the same token and leaves the same state, whatever the second random token would have been |
| `Models.IssueRenewsStale` | app/blueprints/api/models.py:40-43 | when the stored token is not reusable and the random token differs from it, the caller receives a token different from the stored one |
| `Models.NewUserRow` | app/blueprints/api/models.py:18-22 | for a text password (`PasswordText`), a new user stores `hash` applied to it (nothing is claimed about what the hash returns), the given username and email, and no token |
| `Models.User.constructor` | app/blueprints/api/models.py:18-22 | for the three keys and a text password, the new object is the row `NewUserRow` describes, with its token columns paired |
| `Models.ApplyUserUpdate` | app/blueprints/api/models.py:51-59 | for data whose password, if any, is text: `id`, `date_created`, `token` and `token_expiration` never change; a given password is stored as `hash` of its text; data with no whitelisted key leaves the user unchanged |
| `Models.User.Update` | app/blueprints/api/models.py:51-59 | for data whose password, if any, is text, the loop over the request keys leaves the object equal to `ApplyUserUpdate` of its old state, and only username, email, password and is_admin may change |
| `Models.UserUpdateAttr` | app/blueprints/api/models.py:52-58 | for data whose password, if any, is text: attribute by attribute, a whitelisted key present in the data overwrites its attribute (the password with `hash` of its text), every other attribute keeps its value |
| `Models.UserUpdateIgnoresUnknown` | app/blueprints/api/models.py:53-54 | keys outside the whitelist make no difference to the result |
| `Models.NewCharacterRow` | app/blueprints/api/models.py:75-83 | a new character belongs to the given user and has the given link; `champion` and `wins` are the given values unless absent or null, in which case the column defaults false and 0 apply; neither is ever null; no `type` attribute |
| `Models.Character.constructor` | app/blueprints/api/models.py:80-83 | the new object is the row `NewCharacterRow` describes |
| `Models.ApplyCharacterUpdate` | app/blueprints/api/models.py:118-123 | `id`, `user_id` and `date_created` never change; data with no whitelisted key, the empty request included, leaves the character unchanged |
| `Models.SetField` | app/blueprints/api/models.py:122 | setting one whitelisted attribute gives it the new value and leaves every other attribute as it was |
| `Models.Character.SetAttr` | app/blueprints/api/models.py:122 | `setattr` of one whitelisted key changes the object as `SetField` says |
| `Models.CharacterUpdateStep` | app/blueprints/api/models.py:119-122 | handling one more key of the request is one more `setattr` when the key is whitelisted and nothing otherwise |
| `Models.Character.Update` | app/blueprints/api/models.py:118-123 | the loop over the request keys leaves the object equal to `ApplyCharacterUpdate` of its old state |
| `Models.CharacterUpdateAttr` | app/blueprints/api/models.py:119-122 | attribute by attribute: exactly the whitelisted keys present in the data take their given values, every other attribute keeps its value |
| `Models.CharacterUpdateIgnoresUnknown` | app/blueprints/api/models.py:120-121 | keys outside the whitelist make no difference to the result |
| `Routes.Status` | app/blueprints/api/routes.py:39 | validation failures and duplicates are 400 (lines 39, 49, 95, 100), a caller acting on another user's record 403 (lines 64, 77, 280), a row `get_or_404` does not find 404, and an exception the handler does not catch 500 |
| `Routes.FirstMissing` | app/blueprints/api/routes.py:37-39 | the field loop finds nothing exactly when every listed key is present; otherwise it stops at a missing key all of whose predecessors are present |
| `Routes.RegisterCheck` | app/blueprints/api/routes.py:37-49 | a registration is accepted exactly when the three keys are present and no stored user has the same username or the same email (`LoginTaken`, the query at line 46); a missing key is reported by naming the first of `username`, `email`, `password` that is absent; with all three present, a duplicate is refused as `UserExists`; every refusal is a 400 |
| `Routes.RegisterKeepsLoginsUnique` | app/blueprints/api/routes.py:45-53 | adding the user of an accepted registration keeps usernames and emails unique in the store |
| `Routes.Db.CreateUser` | app/blueprints/api/routes.py:33-55 | a registration refused by `RegisterCheck` returns that reason; one that passes it with a password that is not text answers 500 (`PasswordNotText`, models.py:20); both leave the store unchanged; otherwise exactly one user is added, under a new id, as `NewUserRow` describes, and usernames and emails stay unique when they were |
| `Routes.Db.UpdatedUser` | app/blueprints/api/routes.py:59-68 | a caller updating another user gets 403 and the store is unchanged; an absent user gives 404; a password that is not text answers 500 with the store unchanged (models.py:56 raises before the commit); otherwise only that user changes, as `ApplyUserUpdate` says |
| `Routes.Db.DeleteUser` | app/blueprints/api/routes.py:72-80 | a caller deleting another user gets 403 and the store is unchanged; an absent user gives 404; otherwise exactly that id leaves the users map, all other users and all characters stay |
| `Routes.Db.CreateCharacter` | app/blueprints/api/routes.py:91-142 | a body that is not JSON gives 400; a missing field gives 400 naming the first missing one, store unchanged; otherwise exactly one character is added, owned by the caller, with the generated URL as link |
| `Routes.Db.DeleteCharacter` | app/blueprints/api/routes.py:274-281 | an absent character gives 404; a caller other than the owner gets 403 with the store unchanged; otherwise exactly that character is removed and the answer is a 500, because the success message reads `character.title` after the commit |
| `Routes.IndexOf` | app/blueprints/api/routes.py:153 | `str.index`: a found position is the first occurrence of the marker; none is found only when the marker occurs nowhere |
| `Routes.SliceTo` | app/blueprints/api/routes.py:154 | Python's `s[:stop]`: a prefix of `s`; `stop` characters when the stop lies between 0 and the length, all of `s` when it is larger, the length plus `stop` characters for a negative stop down to minus the length, and nothing below that |
| `Routes.DescriptionPrefix` | app/blueprints/api/routes.py:153-156 | the extract fails exactly when the description is not text or lacks the marker, and such a failure is a 500 |
| `Routes.PrefixBeforeMarker` | app/blueprints/api/routes.py:153-156 | with the first marker at `i >= 1` the extract is `description[0..i-1)`, one character shorter than the text before the marker; with the marker at 0 it is the description without its last character |
| `Routes.Db.GetBattleStory` | app/blueprints/api/routes.py:149-156 | an absent champion or challenger gives 404; otherwise the result is the two extracts, or the first failure among them |
| `Routes.CharacterDictView` | app/blueprints/api/models.py:88-106 | `to_dict()` without `creator` (`CharacterDict`): its keys are the whitelisted attributes other than `type`, plus `id` and `date_created`, and every entry is the character's attribute of that name |
| `Routes.RepairChangesOnlyLink` | app/blueprints/api/routes.py:204-211 | writing a character's own dictionary back with a new link (`RepairPatch`, lines 204-208) changes the link and nothing else |
| `Routes.WriteBackLink` | app/blueprints/api/routes.py:204-208 | `character.update` with the character's own dictionary and the new link changes the object's link to the new URL and nothing else |
| `Routes.Db.CheckLink` | app/blueprints/api/routes.py:196-211 | the repair runs exactly when the probe answers above 209 (`NeedsRepair`, line 198); it changes only the link of that character, as `Refreshed` gives it, and no other character |
| `Routes.Db.GetCharacter` | app/blueprints/api/routes.py:193-215 | an absent character gives 404 and nothing changes; otherwise the repair decision (`NeedsRepair`) is reported, the character becomes `Refreshed` of its old row, so only the link may change, and the returned record is the stored one |
| `Routes.Db.SelectChampion` | app/blueprints/api/routes.py:245-250 | the loop picks the first row whose `champion` the column holds as true (`IsChampion`: `True` or 1), and picks none exactly when no row has it |
| `Routes.Db.GetChamp` | app/blueprints/api/routes.py:243-270 | the request fails with an unhandled error exactly when no stored character's flag is `True` or 1, and then nothing changes; otherwise the first champion in query order is returned, after the same repair as a single read |
| `Routes.Db.GetHof` | app/blueprints/api/routes.py:229-238 | the leaderboard has the keys 1..k for the k ≤ 10 query rows, position p holds the p-th row, and positions are in non-increasing wins order |

## Left out

- The calls to the generative AI service (image creation and text
  completion) and its module-level configuration: the image URL is a
  parameter, and the two generated battle stories are not modelled;
  `GetBattleStory` returns the two description extracts the prompts embed.
- The HTTP probe of a character's link: its status code is a parameter. A
  link that is not a URL, or a probe that fails, is not modelled.
- Password hashing and checking: `hash` is an uninterpreted function
  parameter; `check_password`, salting and any round trip are not modelled.
- Token generation from random bytes and the wall clock: the token and `now`
  are parameters; sub-second precision of timestamps is dropped.
- Routing, JSON encoding of responses, request decoding beyond a map of
  scalar values (JSON arrays, objects and floating-point numbers, or a body
  that is not an object), and the framework's decorators.
- Bearer-token and basic authentication: `app/blueprints/api/http_auth.py` is
  not part of this model; the authenticated caller is a user id parameter.
- Database sessions, commits and query evaluation, including the unique
  constraints on username, email and token: an update that would duplicate a
  username or email, which the database would refuse at commit, is not
  modelled.
- `to_dict` serialisation and its `creator` lookup; reading a character whose
  owner was deleted makes that lookup fail, which is not modelled.
- The commented-out image-service code in `create_character`.
- The body of `delete_character`'s answer: reading `character.title`, which
  characters do not have, raises after the delete is committed, so every
  successful delete answers 500 with the row already removed; the model
  gives that error and no message.
- Models.NewUserRow: ignores the body's `id`, `date_created`, `token` and
  `token_expiration`, which `User(**data)` stores as given; a new user has no
  token. A body `token` without an expiry would make a later `get_token`
  compare `None` with a time and fail, and `Db.Valid` assumes token and expiry
  are set together, which such a body would break.
- Models.NewCharacterRow: ignores the body's `id` and `date_created`, which
  `Characters(**data)` stores as given (`user_id` is overwritten by the
  handler before the call).
- Other keys of `User(**data)` and `Characters(**data)` that are not mapped
  attributes (such as `is_admin` or `type`) make the ORM raise an exception;
  the model ignores them.
- Per-request attributes: `is_admin` and `type` live on the ORM object only
  for the request that set them and are gone when the row is next loaded; in
  the model they stay on the stored object and appear in later rows and
  answers.
- The ORM's type coercion of stored values: a `champion` of 1 is kept as the
  integer 1 (it counts as champion, as in the source) and is not turned into
  `True`. Other values of another type than the column's are stored as sent;
  what the database does with them (refusing some, converting others, such
  as a `wins` of `"5"` into 5) is not modelled.
- Routes.Db.GetHof: requires integer `wins` on the ranked rows, so a row whose
  `wins` the database would have converted from text is outside its contract.
- Deleting a user: `DeleteUser` removes only the user. The relationship has no
  delete cascade, so the ORM would set the characters' `user_id` to NULL,
  which the column refuses; that commit failure (a 500, nothing deleted, for a
  user who owns characters) is not modelled, and orphan characters stay.
- The handlers outside this core: `/token` (which calls `get_token` with the
  default lifetime of 1200 s), `/me`, listing all characters, and updating a
  character.
- Concurrent requests.
- Models.User.constructor: requires `username`, `email` and a text `password` in the data, because the source reads and hashes `password` unconditionally and the database refuses the other two when absent; the only caller checks all of this first.
- Models.Character.constructor: requires the ten non-nullable columns in the data, for the same reason; the only caller checks them first.
- Routes.Db.GetHof: takes the database's ordering and limit as a precondition and does not state that the rows are the ten with the most wins in the whole store.
- Models.UserUpdateAttr: requires a text password when one is given; on any other value the source raises in the middle of the loop, which `Routes.Db.UpdatedUser` answers with 500 before any attribute changes.
- Models.ApplyUserUpdate: requires a text password when one is given, for the same reason.
- Models.User.Update: requires a text password when one is given, for the same reason; the attributes the source sets before it raises are discarded with the uncommitted request, which the model does not track.
- Models.NewUserRow: requires a text password; `Routes.Db.CreateUser` answers any other value with 500 and stores nothing, as `User(**data)` raises before the row is added.
