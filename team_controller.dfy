/** The team endpoints (Sources/App/Controllers/TeamController.swift): listing
    a room's teams with their members, joining a team (room members only) and
    creating a team (the room's admin only). */
module TeamController {
  import opened Models
  import opened Storage

  /** `User.Public` of the user a `team_users` row points at. */
  function MemberView(users: map<Uuid, User>, m: TeamUser): UserPublic
    requires m.userId in users
  {
    UserPublic(m.userId, users[m.userId].name)
  }

  /** The members of team `teamId`: one entry per `team_users` row of that
      team, in table order, with the user resolved. */
  function Members(teamUsers: seq<TeamUser>, users: map<Uuid, User>, teamId: Uuid): (r: seq<UserPublic>)
    requires forall m :: m in teamUsers ==> m.userId in users
    ensures |r| <= |teamUsers|
    ensures forall u :: u in r <==> exists m :: m in teamUsers && m.teamId == teamId && u == MemberView(users, m)
  {
    if teamUsers == [] then []
    else
      var rest := Members(teamUsers[1..], users, teamId);
      assert forall m :: m in teamUsers[1..] ==> m in teamUsers;
      assert forall m :: m in teamUsers ==> m == teamUsers[0] || m in teamUsers[1..];
      if teamUsers[0].teamId == teamId then [MemberView(users, teamUsers[0])] + rest else rest
  }

  /** `Team.Public` of a team: its id and name with its resolved members. */
  function TeamView(teamUsers: seq<TeamUser>, users: map<Uuid, User>, team: Team): TeamPublic
    requires forall m :: m in teamUsers ==> m.userId in users
  {
    TeamPublic(team.id, team.name, Members(teamUsers, users, team.id))
  }

  /** The views of the teams of room `roomId`, in table order. */
  function TeamViews(teams: seq<Team>, teamUsers: seq<TeamUser>, users: map<Uuid, User>, roomId: Uuid)
    : (r: seq<TeamPublic>)
    requires forall m :: m in teamUsers ==> m.userId in users
    ensures |r| <= |teams|
    ensures forall v :: v in r <==>
              exists team :: team in teams && team.gameRoomId == roomId && v == TeamView(teamUsers, users, team)
  {
    if teams == [] then []
    else
      var rest := TeamViews(teams[1..], teamUsers, users, roomId);
      assert forall t :: t in teams[1..] ==> t in teams;
      assert forall t :: t in teams ==> t == teams[0] || t in teams[1..];
      if teams[0].gameRoomId == roomId then [TeamView(teamUsers, users, teams[0])] + rest else rest
  }

  /** No two entries of a member list share a user id. */
  predicate DistinctUsers(us: seq<UserPublic>)
  {
    forall i, j :: 0 <= i < j < |us| ==> us[i].id != us[j].id
  }

  /** No two entries of a team list share a team id. */
  predicate DistinctTeams(vs: seq<TeamPublic>)
  {
    forall i, j :: 0 <= i < j < |vs| ==> vs[i].id != vs[j].id
  }

  /** With distinct membership users, each member is listed once. */
  lemma {:induction false} MembersOncePerUser(teamUsers: seq<TeamUser>, users: map<Uuid, User>, teamId: Uuid)
    requires forall m :: m in teamUsers ==> m.userId in users
    requires forall i, j :: 0 <= i < j < |teamUsers| ==> teamUsers[i].userId != teamUsers[j].userId
    ensures DistinctUsers(Members(teamUsers, users, teamId))
  {
    if teamUsers != [] {
      var tail := teamUsers[1..];
      MembersOncePerUser(tail, users, teamId);
      var rest := Members(tail, users, teamId);
      forall u | u in rest ensures u.id != teamUsers[0].userId {
        var m :| m in tail && m.teamId == teamId && u == MemberView(users, m);
        var k :| 0 <= k < |tail| && tail[k] == m;
        assert teamUsers[k + 1] == m;
      }
      var r := Members(teamUsers, users, teamId);
      if teamUsers[0].teamId == teamId {
        assert r == [MemberView(users, teamUsers[0])] + rest;
        forall i, j | 0 <= i < j < |r| ensures r[i].id != r[j].id {
          assert r[j] == rest[j - 1];
          if i > 0 {
            assert r[i] == rest[i - 1];
          } else {
            assert rest[j - 1] in rest;
          }
        }
      }
    }
  }

  /** With distinct team ids, each team of the room is listed once. */
  lemma {:induction false} TeamViewsOncePerTeam(teams: seq<Team>, teamUsers: seq<TeamUser>, users: map<Uuid, User>, roomId: Uuid)
    requires forall m :: m in teamUsers ==> m.userId in users
    requires forall i, j :: 0 <= i < j < |teams| ==> teams[i].id != teams[j].id
    ensures DistinctTeams(TeamViews(teams, teamUsers, users, roomId))
  {
    if teams != [] {
      var tail := teams[1..];
      TeamViewsOncePerTeam(tail, teamUsers, users, roomId);
      var rest := TeamViews(tail, teamUsers, users, roomId);
      forall v | v in rest ensures v.id != teams[0].id {
        var t :| t in tail && t.gameRoomId == roomId && v == TeamView(teamUsers, users, t);
        var k :| 0 <= k < |tail| && tail[k] == t;
        assert teams[k + 1] == t;
      }
      var r := TeamViews(teams, teamUsers, users, roomId);
      if teams[0].gameRoomId == roomId {
        assert r == [TeamView(teamUsers, users, teams[0])] + rest;
        forall i, j | 0 <= i < j < |r| ensures r[i].id != r[j].id {
          assert r[j] == rest[j - 1];
          if i > 0 {
            assert r[i] == rest[i - 1];
            assert rest[i - 1].id != rest[j - 1].id;
          } else {
            assert r[0].id == teams[0].id;
            assert rest[j - 1] in rest;
          }
        }
      } else {
        assert r == rest;
      }
    }
  }

  /** `GET teams/list-teams?gameRoomId=`. Any logged-in caller may list; the
      result holds exactly the teams of the room, each with exactly the users
      that have a membership row for it. Reading changes nothing. */
  function ListTeamsForGameRoom(db: Database, caller: Option<Uuid>, gameRoomId: Uuid)
    : (r: Result<seq<TeamPublic>>)
    reads db
    requires db.Valid()
    ensures r.Err? <==> caller.None?
    ensures r.Err? ==> r.error == Unauthorized
    ensures r.Ok? ==> forall v :: v in r.value <==>
              exists team :: team in db.teams && team.gameRoomId == gameRoomId &&
                v.id == team.id && v.name == team.name && v.users == Members(db.teamUsers, db.users, team.id)
    ensures r.Ok? ==> forall v, u :: v in r.value && u in v.users ==>
              exists m :: m in db.teamUsers && m.teamId == v.id && m.userId == u.id &&
                u.name == db.users[m.userId].name
    // one entry per team, one member entry per membership row
    ensures r.Ok? ==> forall i, j :: 0 <= i < j < |r.value| ==> r.value[i].id != r.value[j].id
    ensures r.Ok? ==> forall v :: v in r.value ==>
              forall i, j :: 0 <= i < j < |v.users| ==> v.users[i].id != v.users[j].id
  {
    if caller.None? then Err(Unauthorized)
    else
      TeamViewsOncePerTeam(db.teams, db.teamUsers, db.users, gameRoomId);
      var views := TeamViews(db.teams, db.teamUsers, db.users, gameRoomId);
      assert forall v :: v in views ==>
               forall i, j :: 0 <= i < j < |v.users| ==> v.users[i].id != v.users[j].id by {
        forall v | v in views
          ensures forall i, j :: 0 <= i < j < |v.users| ==> v.users[i].id != v.users[j].id
        {
          MembersOncePerUser(db.teamUsers, db.users, v.id);
        }
      }
      Ok(views)
  }

  /** The checks `joinTeam` makes before inserting, in order: a logged-in
      caller (else `Unauthorized`), an existing team (else `NotFound`), the
      caller having a membership row for the team's room (else `Forbidden`).
      On success, the team. */
  function MemberGate(teams: seq<Team>, roomUsers: seq<GameRoomUser>, caller: Option<Uuid>, teamId: Uuid)
    : (r: Result<Team>)
    ensures r == Err(Unauthorized) <==> caller.None?
    ensures r == Err(NotFound) <==> caller.Some? && FindTeam(teams, teamId).None?
    ensures r == Err(Forbidden) <==>
      caller.Some? && FindTeam(teams, teamId).Some? &&
      !IsRoomMember(roomUsers, caller.value, FindTeam(teams, teamId).value.gameRoomId)
    ensures r.Err? ==> r.error in {Unauthorized, NotFound, Forbidden}
    ensures r.Ok? ==> caller.Some? && r.value in teams && r.value.id == teamId &&
                      IsRoomMember(roomUsers, caller.value, r.value.gameRoomId)
  {
    if caller.None? then Err(Unauthorized)
    else match FindTeam(teams, teamId)
      case None => Err(NotFound)
      case Some(team) =>
        if IsRoomMember(roomUsers, caller.value, team.gameRoomId) then Ok(team) else Err(Forbidden)
  }

  /** `POST teams/join-team`. After the member gate, one `team_users` row
      (caller, team) is inserted; because that table is unique on `user_id`
      the insert fails `Conflict` when the caller is already in any team. */
  method JoinTeam(db: Database, caller: Option<Uuid>, teamId: Uuid) returns (r: Result<()>)
    requires db.Valid()
    modifies db
    ensures db.Valid()
    ensures MemberGate(old(db.teams), old(db.roomUsers), caller, teamId).Err? ==>
              r == Err(MemberGate(old(db.teams), old(db.roomUsers), caller, teamId).error)
    ensures MemberGate(old(db.teams), old(db.roomUsers), caller, teamId).Ok? ==>
              (r.Err? <==> HasTeam(old(db.teamUsers), caller.value))
    ensures MemberGate(old(db.teams), old(db.roomUsers), caller, teamId).Ok? && r.Err? ==> r.error == Conflict
    ensures r.Err? ==> unchanged(db)
    ensures r.Ok? ==> MemberGate(old(db.teams), old(db.roomUsers), caller, teamId).Ok?
    ensures r.Ok? ==> db.teamUsers == old(db.teamUsers) + [TeamUser(old(db.nextId), caller.value, teamId)]
    ensures r.Ok? ==> forall m :: m in old(db.teamUsers) ==> m.id != old(db.nextId)
    ensures unchanged(db`users, db`rooms, db`roomUsers, db`teams, db`rounds)
  {
    var gate := MemberGate(db.teams, db.roomUsers, caller, teamId);
    if gate.Err? {
      return Err(gate.error);
    }
    var user := caller.value;
    assert user in db.users by {
      var m :| m in db.roomUsers && m.userId == user && m.gameRoomId == gate.value.gameRoomId;
    }
    assert teamId in db.TeamIds() by {
      assert gate.value in db.teams;
    }
    var saved := db.SaveTeamUser(user, teamId);
    if saved.Err? {
      return Err(saved.error);
    }
    r := Ok(());
  }

  /** `POST teams/create-team`. After the admin gate, one team with the given
      name is inserted into the room; it is returned with no members. */
  method CreateTeam(db: Database, caller: Option<Uuid>, name: string, gameRoomId: Uuid)
    returns (r: Result<TeamPublic>)
    requires db.Valid()
    modifies db
    ensures db.Valid()
    ensures AdminGate(old(db.rooms), caller, gameRoomId).Err? ==>
              r == Err(AdminGate(old(db.rooms), caller, gameRoomId).error) && unchanged(db)
    ensures AdminGate(old(db.rooms), caller, gameRoomId).Ok? ==> r.Ok?
    ensures r.Ok? ==> r.value.name == name && r.value.users == []
    ensures r.Ok? ==> db.teams == old(db.teams) + [Team(r.value.id, name, gameRoomId)]
    ensures r.Ok? ==> forall t :: t in old(db.teams) ==> t.id != r.value.id
    ensures unchanged(db`users, db`rooms, db`roomUsers, db`teamUsers, db`rounds)
  {
    var gate := AdminGate(db.rooms, caller, gameRoomId);
    if gate.Err? {
      return Err(gate.error);
    }
    assert gameRoomId in db.RoomIds() by {
      assert gate.value in db.rooms;
    }
    var team := db.SaveTeam(name, gameRoomId);
    r := Ok(TeamPublic(team.id, team.name, []));
  }
}
