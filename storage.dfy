/** The database the controllers run against: its five tables, the keys and
    constraints the migrations declare, the lookups the controllers issue and
    the writes (`save`, `update`) they perform. */
module Storage {
  import opened Models
  import opened Queries

  // ---------------------------------------------------------------------
  // Lookups, one per query the controllers issue
  // ---------------------------------------------------------------------

  /** Position of the room row with identifier `id` (`GameRoom.find`). */
  function RoomIndex(rooms: seq<GameRoom>, id: Uuid): (r: Option<nat>)
    ensures r.Some? ==> r.value < |rooms| && rooms[r.value].id == id
    ensures r.None? ==> forall room :: room in rooms ==> room.id != id
  {
    First(rooms, (room: GameRoom) => room.id == id)
  }

  /** The room with identifier `id`, if there is one. */
  function FindRoom(rooms: seq<GameRoom>, id: Uuid): (r: Option<GameRoom>)
    ensures r.Some? ==> r.value in rooms && r.value.id == id
    ensures r.None? <==> forall room :: room in rooms ==> room.id != id
  {
    match RoomIndex(rooms, id)
    case Some(i) => Some(rooms[i])
    case None => None
  }

  /** The team with identifier `id`, if there is one (`Team.find`). */
  function FindTeam(teams: seq<Team>, id: Uuid): (r: Option<Team>)
    ensures r.Some? ==> r.value in teams && r.value.id == id
    ensures r.None? <==> forall team :: team in teams ==> team.id != id
  {
    match First(teams, (team: Team) => team.id == id)
    case Some(i) => Some(teams[i])
    case None => None
  }

  /** Position of the first round row of room `roomId`
      (`Round.query.filter(gameRoom == roomId).first()`). */
  function RoundIndex(rounds: seq<Round>, roomId: Uuid): (r: Option<nat>)
    ensures r.Some? ==> r.value < |rounds| && rounds[r.value].gameRoomId == roomId
    ensures r.Some? ==> forall j :: 0 <= j < r.value ==> rounds[j].gameRoomId != roomId
    ensures r.None? ==> forall j :: 0 <= j < |rounds| ==> rounds[j].gameRoomId != roomId
  {
    First(rounds, (round: Round) => round.gameRoomId == roomId)
  }

  /** The round of room `roomId`, if the room has one. */
  function RoundOf(rounds: seq<Round>, roomId: Uuid): (r: Option<Round>)
    ensures r.Some? ==> r.value in rounds && r.value.gameRoomId == roomId
    ensures r.None? <==> forall round :: round in rounds ==> round.gameRoomId != roomId
  {
    match RoundIndex(rounds, roomId)
    case Some(i) => Some(rounds[i])
    case None => None
  }

  /** Position of the first round of room `roomId` whose state is started
      (`...filter(gameRoom == roomId).filter(state == "started").first()`). */
  function ActiveRoundIndex(rounds: seq<Round>, roomId: Uuid): (r: Option<nat>)
    ensures r.Some? ==> r.value < |rounds| && rounds[r.value].gameRoomId == roomId && rounds[r.value].state == Started
    ensures r.None? ==> forall j :: 0 <= j < |rounds| ==> !(rounds[j].gameRoomId == roomId && rounds[j].state == Started)
  {
    First(rounds, (round: Round) => round.gameRoomId == roomId && round.state == Started)
  }

  /** Position of the round row with identifier `id` (the row `update` writes). */
  function RoundRowIndex(rounds: seq<Round>, id: Uuid): (r: Option<nat>)
    ensures r.Some? ==> r.value < |rounds| && rounds[r.value].id == id
    ensures r.None? ==> forall j :: 0 <= j < |rounds| ==> rounds[j].id != id
  {
    First(rounds, (round: Round) => round.id == id)
  }

  /** Whether user `userId` has a membership row for room `roomId`
      (`GameRoomUser.query.filter(user).filter(gameRoom).first() != nil`). */
  function IsRoomMember(roomUsers: seq<GameRoomUser>, userId: Uuid, roomId: Uuid): (b: bool)
    ensures b <==> exists m :: m in roomUsers && m.userId == userId && m.gameRoomId == roomId
  {
    var found := First(roomUsers, (m: GameRoomUser) => m.userId == userId && m.gameRoomId == roomId);
    if found.Some? then
      assert roomUsers[found.value] in roomUsers;
      true
    else
      false
  }

  /** Whether user `userId` already has a row in `team_users`, in any team. */
  function HasTeam(teamUsers: seq<TeamUser>, userId: Uuid): (b: bool)
    ensures b <==> exists m :: m in teamUsers && m.userId == userId
  {
    var found := First(teamUsers, (m: TeamUser) => m.userId == userId);
    if found.Some? then
      assert teamUsers[found.value] in teamUsers;
      true
    else
      false
  }

  /** The checks every admin-only endpoint makes before writing, in the order
      the controllers make them: a logged-in caller (else `Unauthorized`), an
      existing room (else `NotFound`), the caller being that room's current
      admin (else `Forbidden`). On success, the room. */
  function AdminGate(rooms: seq<GameRoom>, caller: Option<Uuid>, gameRoomId: Uuid): (r: Result<GameRoom>)
    ensures r == Err(Unauthorized) <==> caller.None?
    ensures r == Err(NotFound) <==> caller.Some? && FindRoom(rooms, gameRoomId).None?
    ensures r == Err(Forbidden) <==>
      caller.Some? && FindRoom(rooms, gameRoomId).Some? && !IsAdmin(FindRoom(rooms, gameRoomId).value, caller.value)
    ensures r.Err? ==> r.error in {Unauthorized, NotFound, Forbidden}
    ensures r.Ok? ==> caller.Some? && r.value in rooms && r.value.id == gameRoomId && IsAdmin(r.value, caller.value)
  {
    if caller.None? then Err(Unauthorized)
    else match FindRoom(rooms, gameRoomId)
      case None => Err(NotFound)
      case Some(room) => if IsAdmin(room, caller.value) then Ok(room) else Err(Forbidden)
  }

  // ---------------------------------------------------------------------
  // Constraints
  // ---------------------------------------------------------------------

  /** `game_room_users` is unique on `user_id`: a user is in at most one room. */
  ghost predicate OneRoomPerUser(roomUsers: seq<GameRoomUser>)
  {
    forall i, j :: 0 <= i < j < |roomUsers| ==> roomUsers[i].userId != roomUsers[j].userId
  }

  /** `team_users` is unique on `user_id`: a user is in at most one team. */
  ghost predicate OneTeamPerUser(teamUsers: seq<TeamUser>)
  {
    forall i, j :: 0 <= i < j < |teamUsers| ==> teamUsers[i].userId != teamUsers[j].userId
  }

  /** `rounds` is unique on `game_room_id`: a room has at most one round. */
  ghost predicate OneRoundPerRoom(rounds: seq<Round>)
  {
    forall i, j :: 0 <= i < j < |rounds| ==> rounds[i].gameRoomId != rounds[j].gameRoomId
  }

  /** Appending a `game_room_users` row keeps the table unique on `user_id`
      exactly when the user has no room membership yet. */
  lemma RoomUserInsertUnique(roomUsers: seq<GameRoomUser>, m: GameRoomUser)
    requires OneRoomPerUser(roomUsers)
    ensures OneRoomPerUser(roomUsers + [m]) <==> forall n :: n in roomUsers ==> n.userId != m.userId
  {
    var grown := roomUsers + [m];
    if exists n :: n in roomUsers && n.userId == m.userId {
      var n :| n in roomUsers && n.userId == m.userId;
      var i :| 0 <= i < |roomUsers| && roomUsers[i] == n;
      assert grown[i].userId == grown[|roomUsers|].userId;
    } else {
      forall i, j | 0 <= i < j < |grown| ensures grown[i].userId != grown[j].userId {
        if j == |roomUsers| {
          assert grown[i] in roomUsers;
        }
      }
    }
  }

  /** Appending a `team_users` row keeps the table unique on `user_id`
      exactly when the user has no team yet: the index rejects the others. */
  lemma TeamUserInsertUnique(teamUsers: seq<TeamUser>, m: TeamUser)
    requires OneTeamPerUser(teamUsers)
    ensures OneTeamPerUser(teamUsers + [m]) <==> !HasTeam(teamUsers, m.userId)
  {
    var grown := teamUsers + [m];
    if HasTeam(teamUsers, m.userId) {
      var n :| n in teamUsers && n.userId == m.userId;
      var i :| 0 <= i < |teamUsers| && teamUsers[i] == n;
      assert grown[i].userId == grown[|teamUsers|].userId;
    } else {
      forall i, j | 0 <= i < j < |grown| ensures grown[i].userId != grown[j].userId {
        if j == |teamUsers| {
          assert grown[i] in teamUsers;
        }
      }
    }
  }

  /** Appending a round keeps `rounds` unique on `game_room_id` exactly when
      its room has no round yet. */
  lemma RoundInsertUnique(rounds: seq<Round>, x: Round)
    requires OneRoundPerRoom(rounds)
    ensures OneRoundPerRoom(rounds + [x]) <==> RoundOf(rounds, x.gameRoomId).None?
  {
    var grown := rounds + [x];
    if RoundOf(rounds, x.gameRoomId).Some? {
      var i := RoundIndex(rounds, x.gameRoomId).value;
      assert grown[i].gameRoomId == grown[|rounds|].gameRoomId;
    } else {
      forall i, j | 0 <= i < j < |grown| ensures grown[i].gameRoomId != grown[j].gameRoomId {
        if j == |rounds| {
          assert grown[i] in rounds;
        }
      }
    }
  }

  /** Under the one-round-per-room constraint, the round `RoundOf` reports is
      the only round row of that room. */
  lemma RoundOfIsTheRound(rounds: seq<Round>, k: nat)
    requires OneRoundPerRoom(rounds)
    requires k < |rounds|
    ensures RoundIndex(rounds, rounds[k].gameRoomId) == Some(k)
    ensures RoundOf(rounds, rounds[k].gameRoomId) == Some(rounds[k])
  {
  }

  /** Under the one-round-per-room constraint, the pause query (first round
      of the room in state started) finds a round exactly when the room's
      round is started, and then finds that round. */
  lemma ActiveRoundIsRoundOf(rounds: seq<Round>, roomId: Uuid)
    requires OneRoundPerRoom(rounds)
    ensures ActiveRoundIndex(rounds, roomId).Some? <==>
            RoundOf(rounds, roomId).Some? && RoundOf(rounds, roomId).value.state == Started
    ensures ActiveRoundIndex(rounds, roomId).Some? ==>
            ActiveRoundIndex(rounds, roomId) == RoundIndex(rounds, roomId)
  {
  }

  /** Rewriting one round row without moving it to another room leaves the
      position of every room's round where it was. */
  lemma RoundIndexAfterRewrite(rounds: seq<Round>, k: nat, x: Round, roomId: Uuid)
    requires k < |rounds| && x.gameRoomId == rounds[k].gameRoomId
    ensures RoundIndex(rounds[k := x], roomId) == RoundIndex(rounds, roomId)
  {
    FirstAgrees(rounds[k := x], (round: Round) => round.gameRoomId == roomId,
                rounds, (round: Round) => round.gameRoomId == roomId);
  }

  /** Restarting or pausing a round in place: the constraint still holds, the
      rewritten row becomes its room's round, and every other room keeps its
      round. */
  lemma RoundOfAfterRewrite(rounds: seq<Round>, k: nat, x: Round)
    requires OneRoundPerRoom(rounds)
    requires k < |rounds| && x.gameRoomId == rounds[k].gameRoomId
    ensures OneRoundPerRoom(rounds[k := x])
    ensures RoundIndex(rounds, x.gameRoomId) == Some(k)
    ensures RoundOf(rounds[k := x], x.gameRoomId) == Some(x)
    ensures forall other :: other != x.gameRoomId ==> RoundOf(rounds[k := x], other) == RoundOf(rounds, other)
  {
    RoundOfIsTheRound(rounds, k);
    RoundOfIsTheRound(rounds[k := x], k);
    forall other | other != x.gameRoomId
      ensures RoundOf(rounds[k := x], other) == RoundOf(rounds, other)
    {
      RoundIndexAfterRewrite(rounds, k, x, other);
    }
  }

  /** Inserting the first round of a room: the constraint still holds, the new
      row becomes that room's round, and every other room keeps its round. */
  lemma RoundOfAfterInsert(rounds: seq<Round>, x: Round)
    requires OneRoundPerRoom(rounds)
    requires RoundOf(rounds, x.gameRoomId).None?
    ensures OneRoundPerRoom(rounds + [x])
    ensures RoundOf(rounds + [x], x.gameRoomId) == Some(x)
    ensures forall other :: other != x.gameRoomId ==> RoundOf(rounds + [x], other) == RoundOf(rounds, other)
  {
  }

  // ---------------------------------------------------------------------
  // The store
  // ---------------------------------------------------------------------

  /** The tables, in row order. `users` is read only (registration is not
      part of this model) and is keyed by user id. `nextId` stands for the
      database's identifier generator: every id in use is below it. */
  class Database {
    var users: map<Uuid, User>
    var rooms: seq<GameRoom>
    var roomUsers: seq<GameRoomUser>
    var teams: seq<Team>
    var teamUsers: seq<TeamUser>
    var rounds: seq<Round>
    var nextId: Uuid

    /** Primary keys: each table's ids are distinct and were handed out by the generator. */
    ghost predicate PrimaryKeys()
      reads this
    {
      && (forall u :: u in users ==> users[u].id == u)
      && (forall i, j :: 0 <= i < j < |rooms| ==> rooms[i].id != rooms[j].id)
      && (forall i, j :: 0 <= i < j < |roomUsers| ==> roomUsers[i].id != roomUsers[j].id)
      && (forall i, j :: 0 <= i < j < |teams| ==> teams[i].id != teams[j].id)
      && (forall i, j :: 0 <= i < j < |teamUsers| ==> teamUsers[i].id != teamUsers[j].id)
      && (forall i, j :: 0 <= i < j < |rounds| ==> rounds[i].id != rounds[j].id)
      && (forall room :: room in rooms ==> room.id < nextId)
      && (forall m :: m in roomUsers ==> m.id < nextId)
      && (forall team :: team in teams ==> team.id < nextId)
      && (forall m :: m in teamUsers ==> m.id < nextId)
      && (forall round :: round in rounds ==> round.id < nextId)
    }

    /** Identifiers of the stored rooms. */
    ghost function RoomIds(): set<Uuid>
      reads this
    {
      set room | room in rooms :: room.id
    }

    /** Identifiers of the stored teams. */
    ghost function TeamIds(): set<Uuid>
      reads this
    {
      set team | team in teams :: team.id
    }

    /** Foreign keys: every reference names a stored row. */
    ghost predicate ForeignKeys()
      reads this
    {
      && (forall room :: room in rooms ==> room.creatorId in users && room.adminId in users)
      && (forall m :: m in roomUsers ==> m.userId in users && m.gameRoomId in RoomIds())
      && (forall team :: team in teams ==> team.gameRoomId in RoomIds())
      && (forall m :: m in teamUsers ==> m.userId in users && m.teamId in TeamIds())
      && (forall round :: round in rounds ==> round.gameRoomId in RoomIds())
    }

    /** The three uniqueness constraints of the migrations. */
    ghost predicate UniqueConstraints()
      reads this
    {
      OneRoomPerUser(roomUsers) && OneTeamPerUser(teamUsers) && OneRoundPerRoom(rounds)
    }

    ghost predicate Valid()
      reads this
    {
      PrimaryKeys() && ForeignKeys() && UniqueConstraints()
    }

    /** An empty store over the registered users `us`, keyed by their ids:
        the state the migrations leave behind. */
    constructor (us: map<Uuid, User>)
      requires forall u :: u in us ==> us[u].id == u
      ensures Valid()
      ensures users == us && rooms == [] && roomUsers == [] && teams == [] && teamUsers == [] && rounds == []
    {
      users, rooms, roomUsers, teams, teamUsers, rounds, nextId := us, [], [], [], [], [], 0;
    }

    /** A caller the authenticator logged in is a stored user. */
    predicate Authenticated(caller: Option<Uuid>)
      reads this
    {
      caller.Some? ==> caller.value in users
    }

    /** `GameRoom.save`: inserts a room under a fresh id. */
    method SaveGameRoom(name: string, creatorId: Uuid, code: string, isPrivate: bool, adminId: Uuid)
      returns (room: GameRoom)
      requires Valid()
      requires creatorId in users && adminId in users
      modifies this
      ensures Valid()
      ensures room == GameRoom(old(nextId), name, code, isPrivate, creatorId, adminId)
      ensures forall r :: r in old(rooms) ==> r.id != room.id
      ensures rooms == old(rooms) + [room]
      ensures nextId == old(nextId) + 1
      ensures unchanged(this`users, this`roomUsers, this`teams, this`teamUsers, this`rounds)
    {
      room := GameRoom(nextId, name, code, isPrivate, creatorId, adminId);
      rooms := rooms + [room];
      nextId := nextId + 1;
    }

    /** `Team.save`: inserts a team of room `gameRoomId` under a fresh id. */
    method SaveTeam(name: string, gameRoomId: Uuid) returns (team: Team)
      requires Valid()
      requires gameRoomId in RoomIds()
      modifies this
      ensures Valid()
      ensures team == Team(old(nextId), name, gameRoomId)
      ensures forall t :: t in old(teams) ==> t.id != team.id
      ensures teams == old(teams) + [team]
      ensures nextId == old(nextId) + 1
      ensures unchanged(this`users, this`rooms, this`roomUsers, this`teamUsers, this`rounds)
    {
      team := Team(nextId, name, gameRoomId);
      teams := teams + [team];
      nextId := nextId + 1;
    }

    /** `TeamUser.save`: inserts a team membership, or fails `Conflict` when
        the unique index on `user_id` already holds a row for `userId`. */
    method SaveTeamUser(userId: Uuid, teamId: Uuid) returns (r: Result<TeamUser>)
      requires Valid()
      requires userId in users && teamId in TeamIds()
      modifies this
      ensures Valid()
      ensures r.Err? <==> HasTeam(old(teamUsers), userId)
      ensures r.Err? ==> r.error == Conflict && unchanged(this)
      ensures r.Ok? ==> r.value == TeamUser(old(nextId), userId, teamId)
      ensures r.Ok? ==> teamUsers == old(teamUsers) + [r.value] && nextId == old(nextId) + 1
      ensures unchanged(this`users, this`rooms, this`roomUsers, this`teams, this`rounds)
    {
      if HasTeam(teamUsers, userId) {
        r := Err(Conflict);
      } else {
        var row := TeamUser(nextId, userId, teamId);
        teamUsers := teamUsers + [row];
        nextId := nextId + 1;
        r := Ok(row);
      }
    }

    /** `Round.save`: inserts a round, or fails `Conflict` when the unique
        index on `game_room_id` already holds a round of that room. */
    method SaveRound(gameRoomId: Uuid, startTime: Time, endTime: Option<Time>, state: RoundState)
      returns (r: Result<Round>)
      requires Valid()
      requires gameRoomId in RoomIds()
      modifies this
      ensures Valid()
      ensures r.Err? <==> RoundOf(old(rounds), gameRoomId).Some?
      ensures r.Err? ==> r.error == Conflict && unchanged(this)
      ensures r.Ok? ==> r.value == Round(old(nextId), gameRoomId, startTime, endTime, state)
      ensures r.Ok? ==> rounds == old(rounds) + [r.value] && nextId == old(nextId) + 1
      ensures unchanged(this`users, this`rooms, this`roomUsers, this`teams, this`teamUsers)
    {
      if RoundOf(rounds, gameRoomId).Some? {
        r := Err(Conflict);
      } else {
        var row := Round(nextId, gameRoomId, startTime, endTime, state);
        rounds := rounds + [row];
        nextId := nextId + 1;
        r := Ok(row);
      }
    }

    /** `Round.update`: overwrites the stored row carrying `round.id` with
        `round`. The controllers only rewrite a fetched round's time and state
        columns, so the row stays in its room. */
    method UpdateRound(round: Round)
      requires Valid()
      requires RoundRowIndex(rounds, round.id).Some?
      requires rounds[RoundRowIndex(rounds, round.id).value].gameRoomId == round.gameRoomId
      modifies this
      ensures Valid()
      ensures rounds == old(rounds)[RoundRowIndex(old(rounds), round.id).value := round]
      ensures unchanged(this`users, this`rooms, this`roomUsers, this`teams, this`teamUsers, this`nextId)
    {
      var k := RoundRowIndex(rounds, round.id).value;
      rounds := rounds[k := round];
      assert forall x :: x in rounds ==> x == round || x in old(rounds);
    }
  }
}
