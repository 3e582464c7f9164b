/** The round endpoints (Sources/App/Controllers/RoundController.swift): the
    single round row of a room is started (created or restarted in place) and
    paused, by the room's current admin only. */
module RoundController {
  import opened Models
  import opened Storage

  /** `POST round/start`. After the admin gate (a logged-in caller, an
      existing room, the caller being its admin), the room's round row, if
      any, is rewritten in place to started at `now` with no end time;
      otherwise one such row is inserted. */
  method StartRound(db: Database, caller: Option<Uuid>, gameRoomId: Uuid, now: Time)
    returns (r: Result<Round>)
    requires db.Valid()
    modifies db
    ensures db.Valid()
    // Unauthorized, NotFound and Forbidden exactly as the gate decides, changing nothing
    ensures AdminGate(old(db.rooms), caller, gameRoomId).Err? ==>
              r == Err(AdminGate(old(db.rooms), caller, gameRoomId).error) && unchanged(db)
    ensures AdminGate(old(db.rooms), caller, gameRoomId).Ok? ==> r.Ok?
    // the round returned is the room's round, running since `now`
    ensures r.Ok? ==> r.value.gameRoomId == gameRoomId && r.value.state == Started &&
                      r.value.startTime == now && r.value.endTime == None
    ensures r.Ok? ==> RoundOf(db.rounds, gameRoomId) == Some(r.value)
    // restart: the same row, same id, rewritten in place; no row is added
    ensures r.Ok? && RoundOf(old(db.rounds), gameRoomId).Some? ==>
              r.value.id == RoundOf(old(db.rounds), gameRoomId).value.id &&
              db.rounds == old(db.rounds)[RoundIndex(old(db.rounds), gameRoomId).value := r.value]
    // first start: exactly one row is added, under a fresh id
    ensures r.Ok? && RoundOf(old(db.rounds), gameRoomId).None? ==>
              db.rounds == old(db.rounds) + [r.value] &&
              forall x :: x in old(db.rounds) ==> x.id != r.value.id
    // every other room keeps its round
    ensures forall other :: other != gameRoomId ==> RoundOf(db.rounds, other) == RoundOf(old(db.rounds), other)
    ensures unchanged(db`users, db`rooms, db`roomUsers, db`teams, db`teamUsers)
  {
    var gate := AdminGate(db.rooms, caller, gameRoomId);
    if gate.Err? {
      return Err(gate.error);
    }
    var k := RoundIndex(db.rounds, gameRoomId);
    if k.Some? {
      var existing := db.rounds[k.value];
      var restarted := existing.(state := Started, startTime := now, endTime := None);
      RoundOfAfterRewrite(db.rounds, k.value, restarted);
      assert RoundRowIndex(db.rounds, existing.id) == k;
      db.UpdateRound(restarted);
      r := Ok(restarted);
    } else {
      assert gameRoomId in db.RoomIds() by {
        assert gate.value in db.rooms;
      }
      r := db.SaveRound(gameRoomId, now, None, Started);
      RoundOfAfterInsert(old(db.rounds), r.value);
    }
  }

  /** `POST round/pause`. After the admin gate, the room's round must be in
      state started (otherwise `NotFound`: there is none, or it is already
      paused). That round becomes paused with end time `now`; its id, room
      and start time are kept. */
  method PauseRound(db: Database, caller: Option<Uuid>, gameRoomId: Uuid, now: Time)
    returns (r: Result<Round>)
    requires db.Valid()
    modifies db
    ensures db.Valid()
    ensures AdminGate(old(db.rooms), caller, gameRoomId).Err? ==>
              r == Err(AdminGate(old(db.rooms), caller, gameRoomId).error) && unchanged(db)
    // past the gate: success exactly when the room's round is started
    ensures AdminGate(old(db.rooms), caller, gameRoomId).Ok? ==>
              (r.Ok? <==> RoundOf(old(db.rounds), gameRoomId).Some? &&
                          RoundOf(old(db.rounds), gameRoomId).value.state == Started)
    ensures AdminGate(old(db.rooms), caller, gameRoomId).Ok? && r.Err? ==> r == Err(NotFound) && unchanged(db)
    ensures r.Ok? ==> AdminGate(old(db.rooms), caller, gameRoomId).Ok?
    ensures r.Ok? ==> r.value == RoundOf(old(db.rounds), gameRoomId).value.(state := Paused, endTime := Some(now))
    ensures r.Ok? ==> RoundOf(db.rounds, gameRoomId) == Some(r.value)
    ensures r.Ok? ==> db.rounds == old(db.rounds)[RoundIndex(old(db.rounds), gameRoomId).value := r.value]
    ensures forall other :: other != gameRoomId ==> RoundOf(db.rounds, other) == RoundOf(old(db.rounds), other)
    ensures unchanged(db`users, db`rooms, db`roomUsers, db`teams, db`teamUsers)
  {
    var gate := AdminGate(db.rooms, caller, gameRoomId);
    if gate.Err? {
      return Err(gate.error);
    }
    ActiveRoundIsRoundOf(db.rounds, gameRoomId);
    var k := ActiveRoundIndex(db.rounds, gameRoomId);
    if k.None? {
      return Err(NotFound);
    }
    var active := db.rounds[k.value];
    var paused := active.(state := Paused, endTime := Some(now));
    RoundOfAfterRewrite(db.rounds, k.value, paused);
    assert RoundRowIndex(db.rounds, active.id) == k;
    db.UpdateRound(paused);
    r := Ok(paused);
  }

  /** The restart scenario: the admin starts a room's round, pauses it and
      starts it again. The same round row is used throughout, the pause keeps
      the start time, and the restart clears the end time the pause set. */
  method StartPauseRestart(db: Database, admin: Uuid, gameRoomId: Uuid, t1: Time, t2: Time, t3: Time)
    returns (first: Result<Round>, paused: Result<Round>, again: Result<Round>)
    requires db.Valid()
    requires AdminGate(db.rooms, Some(admin), gameRoomId).Ok?
    modifies db
    ensures db.Valid()
    ensures first.Ok? && paused.Ok? && again.Ok?
    ensures first.value.id == paused.value.id == again.value.id
    ensures paused.value.state == Paused && paused.value.startTime == t1 && paused.value.endTime == Some(t2)
    ensures again.value.state == Started && again.value.startTime == t3 && again.value.endTime == None
    ensures RoundOf(db.rounds, gameRoomId) == Some(again.value)
  {
    first := StartRound(db, Some(admin), gameRoomId, t1);
    paused := PauseRound(db, Some(admin), gameRoomId, t2);
    again := StartRound(db, Some(admin), gameRoomId, t3);
  }
}
