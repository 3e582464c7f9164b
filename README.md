# Game room back end: authorization and state transitions

A Dafny model of the three game controllers of a Vapor back end for a
room-based word game. Rooms have a creator, a current admin, a privacy flag
and a five-character invitation code. Teams and a single round belong to a
room. Users join teams, and the admin starts and pauses the room's round.

The model works on an in-memory database (`Storage.Database`). Its tables
are `seq` fields in row order. The users table is a read-only map from user
id to user. `Database.Valid()` holds the keys and constraints the migrations
declare:

- distinct primary keys;
- foreign keys from rooms to users, from memberships to users, rooms and
  teams, and from teams and rounds to rooms;
- three uniqueness constraints: one room membership per user, one team
  membership per user, one round per room.

Every endpoint is a method (or a read-only function) that takes the caller as
an explicit `Option<Uuid>`. It returns `Ok(payload)` or `Err(e)` with `e` one
of `Unauthorized | NotFound | Forbidden | Conflict`. Every method keeps
`Valid()`, and on an error it changes nothing.

Helpers:

- `AdminGate` is the admin check of `startRound`, `pauseRound` and
  `createTeam`, with the checks in the code's order.
- `MemberGate` is the room-membership check of `joinTeam`.
- `Database.SaveGameRoom`, `Database.SaveTeam`, `Database.SaveTeamUser`,
  `Database.SaveRound` and `Database.UpdateRound` model Fluent's `save` and
  `update`.
- An insert that would break a unique index fails. The model calls this
  failure `Conflict`.

Where the controllers behave in ways a reader might not expect, the model
follows the code:

- `joinTeam` inserts a new `team_users` row. For a user who is already in a
  team, the unique index on `user_id` rejects that insert, and the request
  fails with the database's error. The model names this outcome `Conflict`.
  The old membership is not replaced.
- `listTeamsForGameRoom` only needs a logged-in caller. It does not check
  that the caller belongs to the room.
- `listAll` returns the invitation code of every public room to every
  logged-in caller.
- `Round.endTime` is declared as a non-optional `Date`, and the migration
  marks `end_time` as required. Yet `startRound` assigns and inserts `nil`
  there (RoundController.swift:46, 49). The model follows the controller's
  intent: `endTime` is an `Option<Time>`, and it is `None` while the round
  runs.
- The `game_rooms` migration declares a required `points_per_word` column,
  but the `GameRoom` model has no such field, so `create` inserts none. The
  model follows the controller and has no such column.
- The `state` column is a string. The controllers only write `"started"`
  and `"paused"` to it, so the model uses the enumeration `Started | Paused`.

Inputs the code takes from outside are parameters:

- the request clock (`Date.now`) is `now: Time`;
- each `randomElement()` draw of the invitation code is `draw(k)`, a position
  in the 62-symbol alphabet;
- the database's UUID generator is the counter `Database.nextId`.

## Model

| member | source | states |
|---|---|---|
| `Queries.First` | Sources/App/Controllers/RoundController.swift:39-41 | `.filter(...).first()`: the position returned holds a matching row and no earlier row matches; `None` only when no row matches |
| `Storage.FindRoom` | Sources/App/Controllers/RoundController.swift:30-36 | `GameRoom.find`: a room returned is stored and has the id; `None` exactly when no stored room has it |
| `Storage.FindTeam` | Sources/App/Controllers/TeamController.swift:58-59 | `Team.find`: a team returned is stored and has the id; `None` exactly when no stored team has it |
| `Storage.RoundOf` | Sources/App/Controllers/RoundController.swift:39-43 | the round found is a stored round of that room; `None` exactly when the room has no round |
| `Storage.RoundIndex` | Sources/App/Controllers/RoundController.swift:39-41 | the round query of `startRound` finds the first round row of the room, with no earlier row of that room; `None` means the room has no round |
| `Storage.ActiveRoundIndex` | Sources/App/Controllers/RoundController.swift:72-76 | the pause query finds a round of the room in state started, or reports that there is none |
| `Storage.RoundRowIndex` | Sources/App/Controllers/RoundController.swift:47 | `update` targets the row carrying the round's id, or there is none |
| `Storage.IsRoomMember` | Sources/App/Controllers/TeamController.swift:60-65 | true exactly when a `game_room_users` row pairs the user with the room |
| `Storage.HasTeam` | Sources/App/Migrations/MakeTeamUserUnique.swift:12 | true exactly when the user already has a `team_users` row, in any team |
| `Models.IsAdmin` | Sources/App/Controllers/RoundController.swift:38 | the admin check compares the caller with the room's current admin, not with its creator; it is the test behind every `Forbidden` of `AdminGate` |
| `Storage.OneRoomPerUser` | Sources/App/Migrations/CreateGameRoomUser.swift:15 | `game_room_users` is unique on `user_id`: no two rows share a user |
| `Storage.OneTeamPerUser` | Sources/App/Migrations/MakeTeamUserUnique.swift:12 | `team_users` is unique on `user_id`: no two rows share a user |
| `Storage.OneRoundPerRoom` | Sources/App/Migrations/MakeRoundGameRoomUnique.swift:12 | `rounds` is unique on `game_room_id`: no two rows share a room |
| `Storage.RoomUserInsertUnique` | Sources/App/Migrations/CreateGameRoomUser.swift:15 | appending a room membership keeps the index satisfied exactly when the user has no room membership yet |
| `Storage.TeamUserInsertUnique` | Sources/App/Migrations/MakeTeamUserUnique.swift:12 | appending a team membership keeps the index satisfied exactly when the user has no team yet |
| `Storage.RoundInsertUnique` | Sources/App/Migrations/MakeRoundGameRoomUnique.swift:12 | appending a round keeps the index satisfied exactly when its room has no round yet |
| `Storage.AdminGate` | Sources/App/Controllers/RoundController.swift:21-54 | `Unauthorized` exactly without a caller; `NotFound` exactly for a missing room; `Forbidden` exactly when the caller is not the room's current admin; otherwise the stored room, administered by the caller |
| `Storage.RoundOfIsTheRound` | Sources/App/Migrations/MakeRoundGameRoomUnique.swift:12 | with one round per room, any round row is the round the room lookup finds |
| `Storage.ActiveRoundIsRoundOf` | Sources/App/Controllers/RoundController.swift:72-76 | with one round per room, the pause query succeeds exactly when the room's round is started, and then finds that round |
| `Storage.RoundIndexAfterRewrite` | Sources/App/Controllers/RoundController.swift:43-47 | rewriting a round row without changing its room moves no room's round |
| `Storage.RoundOfAfterRewrite` | Sources/App/Controllers/RoundController.swift:43-47 | an in-place rewrite keeps one round per room, makes the new row its room's round and leaves every other room's round as it was |
| `Storage.RoundOfAfterInsert` | Sources/App/Controllers/RoundController.swift:48-50 | inserting the first round of a room keeps one round per room, makes the new row that room's round and leaves every other room's round as it was |
| `Storage.Database.Valid` | Sources/App/Migrations/CreateGameRoomUser.swift:13-15 | the store invariant: distinct primary keys, every foreign key names a stored row, and the three unique indexes hold |
| `Storage.Database.constructor` | Sources/App/Migrations/CreateGameRoomUser.swift:11-17 | the empty tables the migrations create, over the registered users, satisfy `Valid()` |
| `Storage.Database.SaveGameRoom` | Sources/App/Controllers/GameRoomController.swift:30 | appends exactly the given room row under a fresh id; other tables unchanged |
| `Storage.Database.SaveTeam` | Sources/App/Controllers/TeamController.swift:90-91 | appends exactly one team of the room under a fresh id; other tables unchanged |
| `Storage.Database.SaveTeamUser` | Sources/App/Controllers/TeamController.swift:66-67 | fails `Conflict`, changing nothing, exactly when the user already has a team membership (unique `user_id`); otherwise appends exactly the row (user, team) |
| `Storage.Database.SaveRound` | Sources/App/Controllers/RoundController.swift:49-50 | fails `Conflict`, changing nothing, exactly when the room already has a round (unique `game_room_id`); otherwise appends exactly the new round |
| `Storage.Database.UpdateRound` | Sources/App/Controllers/RoundController.swift:47 | replaces the row with the round's id by the round; no row added or removed; other tables unchanged |
| `RoundController.StartRound` | Sources/App/Controllers/RoundController.swift:20-57 | gate errors as `AdminGate` decides, changing nothing; past the gate it always succeeds with a round of the room, state started, start time `now`, no end time, which is now the room's round; an existing round keeps its id and row position and no row is added; without one, exactly one row with a fresh id is appended; other rooms' rounds and all other tables unchanged |
| `RoundController.PauseRound` | Sources/App/Controllers/RoundController.swift:61-86 | gate errors as `AdminGate` decides; past the gate it succeeds exactly when the room's round is started, else `NotFound` (so pausing a paused round fails); errors change nothing; success sets state paused and end time `now`, keeping id, room and start time, in the same row; other rooms' rounds and other tables unchanged |
| `RoundController.StartPauseRestart` | Sources/App/Controllers/RoundController.swift:39-80 | admin start, pause, start again: all succeed on one round id; the pause keeps the first start time and sets the end time; the restart clears it |
| `TeamController.Members` | Sources/App/Controllers/TeamController.swift:35-42 | the members listed are exactly the users with a `team_users` row for the team, with their stored names |
| `TeamController.MembersOncePerUser` | Sources/App/Controllers/TeamController.swift:35-42 | when no two membership rows share a user, the member list has no repeated user id: one entry per row |
| `TeamController.TeamView` | Sources/App/Controllers/TeamController.swift:43 | `Team.Public`: the team's id and name with the members of that team |
| `TeamController.TeamViews` | Sources/App/Controllers/TeamController.swift:30-46 | the views are exactly those of the room's teams, each with its resolved members |
| `TeamController.TeamViewsOncePerTeam` | Sources/App/Controllers/TeamController.swift:30-46 | when team ids are distinct, the team list has no repeated team id: one entry per team row |
| `TeamController.ListTeamsForGameRoom` | Sources/App/Controllers/TeamController.swift:23-48 | `Unauthorized` exactly without a caller; otherwise exactly the teams whose room is the query, each once, each with exactly its members' ids and names, each member once; reads only |
| `TeamController.MemberGate` | Sources/App/Controllers/TeamController.swift:52-74 | `Unauthorized` exactly without a caller; `NotFound` exactly for a missing team; `Forbidden` exactly when the caller has no membership row for the team's room; otherwise the team |
| `TeamController.JoinTeam` | Sources/App/Controllers/TeamController.swift:51-76 | gate errors as `MemberGate` decides; past the gate `Conflict` exactly when the caller already has any team membership; errors change nothing; success appends exactly one row (caller, team) under a fresh id; other tables unchanged |
| `TeamController.CreateTeam` | Sources/App/Controllers/TeamController.swift:79-98 | gate errors as `AdminGate` decides, adding no team; past the gate it appends exactly one team with the given name and room under a fresh id and returns it with an empty user list |
| `GameRoomController.LettersAreSymbols` | Sources/App/Controllers/GameRoomController.swift:55 | the alphabet literal is the 26 lower-case letters, then the 26 upper-case letters, then the 10 digits, in order |
| `GameRoomController.AlphabetIsAlphanumeric` | Sources/App/Controllers/GameRoomController.swift:55 | the alphabet has 62 distinct symbols, and a character is in it exactly when it is in a-z, A-Z or 0-9 |
| `GameRoomController.GenerateInvitationCode` | Sources/App/Controllers/GameRoomController.swift:54-57 | the code has exactly 5 characters, each in the alphabet, so each in a-z, A-Z or 0-9 |
| `GameRoomController.EveryCodeCanBeDrawn` | Sources/App/Controllers/GameRoomController.swift:56 | every 5-character alphanumeric string is the outcome of some sequence of draws |
| `GameRoomController.Create` | Sources/App/Controllers/GameRoomController.swift:20-31 | `Unauthorized`, changing nothing, exactly without a caller; otherwise appends one room under a fresh id with creator = admin = caller, the given name and privacy flag, and the drawn 5-character alphanumeric code; other tables unchanged |
| `GameRoomController.PublicView` | Sources/App/Controllers/GameRoomController.swift:43-48 | `GameRoom.Public`: the room's id, name, flag and code with its creator's and admin's names |
| `GameRoomController.PublicRooms` | Sources/App/Controllers/GameRoomController.swift:37-49 | the views are exactly those of the rooms that are not private |
| `GameRoomController.PublicRoomsOncePerRoom` | Sources/App/Controllers/GameRoomController.swift:37-49 | when room ids are distinct, the room list has no repeated room id: one entry per public room |
| `GameRoomController.ListAll` | Sources/App/Controllers/GameRoomController.swift:33-51 | `Unauthorized` exactly without a caller; otherwise no private room appears, every entry is a public room's id, name, flag and code, with its creator's and admin's names, and every public room has exactly one entry; reads only |

## Left out

- Sources/App/Controllers/UsersController.swift (registration, login, profile) is not part of this model. It rests on Bcrypt hashing and random token generation.
- Sources/App/UserTokenAuthenticator.swift is not part of this model. The principal it resolves is the `caller` argument. `GameRoomController.Create` requires that a caller is a stored user, because the authenticator only logs in users loaded from a token row.
- Sources/App/configure.swift (database, TLS and migration setup) is plumbing and is not modelled. Of the migrations, only the keys, foreign keys and unique indexes are kept, as `Database.Valid()`.
- Decoding the request body or query can fail (HTTP 400 for a malformed request). This is not modelled: inputs are typed parameters.
- Futures and concurrent requests are not modelled. Each endpoint is one atomic, sequential method. Transport and storage failures other than a unique-index violation are not modelled either.
- Writes that would break a foreign key are not modelled as failures. `SaveGameRoom`, `SaveTeam`, `SaveTeamUser` and `SaveRound` require the referenced rows to exist, and every endpoint proves this before it writes.
- Random UUIDs are modelled as the store's counter `nextId`, which makes fresh ids certain.
- `Date.now` and `randomElement()` are the `now` and `draw` parameters. Whether the draws are uniform is not modelled; `EveryCodeCanBeDrawn` states only that every code is possible.
- Invitation codes are not checked for uniqueness across rooms. The source does not check this either.
- Room join, leave, kick, close, admin transfer, team leave and close, and cascade deletion do not exist in these controllers and are not modelled.
- GameRoomController.ListAll: states which entries appear, each once, but not their order. The query has no ordering clause; the model keeps table order.
- TeamController.ListTeamsForGameRoom: states which teams and members appear, each once, but not their order. The queries have no ordering clause; the model keeps table order.
- A unique-index violation reaches the client as the database driver's error. With no error middleware of its own installed, Vapor answers it with HTTP 500. The model names this outcome `Conflict`.
- RoundController.StartRound: the source assigns and inserts `nil` into `endTime`, which is declared a non-optional `Date` (Sources/App/Models/Round.swift:24) and migrated as a required column (Sources/App/Migrations/CreateRound.swift:16). As written it does not type-check, and the database would reject the row. The model keeps the evident intent: an optional end time, absent while the round runs.
- GameRoomController.Create: the source saves a room without `points_per_word`, which the migration declares required (Sources/App/Migrations/CreateGameRoom.swift:22), so the database would reject the insert. The model follows the controller and leaves the column out.
