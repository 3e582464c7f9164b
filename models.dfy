/** Row layouts of the game back end's tables and the response shapes of its
    endpoints (the model files under Sources/App/Models and the `Public` extensions of the
    controllers), plus the outcome types every endpoint returns. */
module Models {

  /** Row identifiers. The database assigns a UUID on `save`; here an
      identifier is a natural number handed out by the store. */
  type Uuid = nat

  /** Timestamps (`Date`) are opaque instants supplied by the caller. */
  type Time = int

  datatype Option<+T> = None | Some(value: T)

  /** The HTTP aborts the controllers raise. */
  datatype Error = Unauthorized | NotFound | Forbidden | Conflict

  /** Every endpoint returns exactly one of a payload or an error. */
  datatype Result<+T> = Ok(value: T) | Err(error: Error)

  /** A row of `users`; only the columns the core reads. */
  datatype User = User(id: Uuid, name: string)

  /** A row of `game_rooms`. */
  datatype GameRoom = GameRoom(
    id: Uuid,
    name: string,
    invitationCode: string,
    isPrivate: bool,
    creatorId: Uuid,
    adminId: Uuid)

  /** A row of `game_room_users`: user `userId` is a member of room `gameRoomId`. */
  datatype GameRoomUser = GameRoomUser(id: Uuid, userId: Uuid, gameRoomId: Uuid)

  /** A row of `teams`. */
  datatype Team = Team(id: Uuid, name: string, gameRoomId: Uuid)

  /** A row of `team_users`: user `userId` is a member of team `teamId`. */
  datatype TeamUser = TeamUser(id: Uuid, userId: Uuid, teamId: Uuid)

  /** The values the controllers write into the `state` column. */
  datatype RoundState = Started | Paused

  /** A row of `rounds`; `endTime` is `None` while the round runs. */
  datatype Round = Round(
    id: Uuid,
    gameRoomId: Uuid,
    startTime: Time,
    endTime: Option<Time>,
    state: RoundState)

  /** `User.Public`. */
  datatype UserPublic = UserPublic(id: Uuid, name: string)

  /** `Team.Public`: a team with its resolved members. */
  datatype TeamPublic = TeamPublic(id: Uuid, name: string, users: seq<UserPublic>)

  /** `GameRoom.Public`: a room with its creator's and admin's names resolved. */
  datatype GameRoomPublic = GameRoomPublic(
    id: Uuid,
    name: string,
    creator: string,
    isPrivate: bool,
    invitationCode: string,
    admin: string)

  /** The one authorization rule of the admin-gated endpoints: the caller is
      the room's current admin (not necessarily its creator). */
  predicate IsAdmin(room: GameRoom, caller: Uuid)
  {
    room.adminId == caller
  }
}
