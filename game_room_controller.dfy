/** The room endpoints (Sources/App/Controllers/GameRoomController.swift):
    creating a room with a random invitation code and listing the public
    rooms. */
module GameRoomController {
  import opened Models
  import opened Storage

  // ---------------------------------------------------------------------
  // Invitation codes
  // ---------------------------------------------------------------------

  /** The alphabet invitation codes are drawn from. */
  const Letters: string := "abcdefghijklmnopqrstuvwxyzABCDEFGHIJKLMNOPQRSTUVWXYZ0123456789"

  /** Invitation codes have this many characters. */
  const CodeLength: nat := 5

  /** A position in `Letters`: what one `randomElement()` draw picks. */
  type LetterIndex = i: nat | i < 62

  predicate IsAlphanumeric(c: char)
  {
    'a' <= c <= 'z' || 'A' <= c <= 'Z' || '0' <= c <= '9'
  }

  /** The `i`-th symbol of the alphabet, by arithmetic on character codes:
      lower-case letters, then upper-case letters, then digits. */
  function Symbol(i: LetterIndex): (c: char)
    ensures IsAlphanumeric(c)
  {
    if i < 26 then ('a' as int + i) as char
    else if i < 52 then ('A' as int + (i - 26)) as char
    else ('0' as int + (i - 52)) as char
  }

  /** Where an alphanumeric character sits in the alphabet. */
  function SymbolIndex(c: char): (i: LetterIndex)
    requires IsAlphanumeric(c)
    ensures Symbol(i) == c
  {
    if 'a' <= c <= 'z' then c as int - 'a' as int
    else if 'A' <= c <= 'Z' then 26 + (c as int - 'A' as int)
    else 52 + (c as int - '0' as int)
  }

  const LowerCase: string := "abcdefghijklmnopqrstuvwxyz"
  const UpperCase: string := "ABCDEFGHIJKLMNOPQRSTUVWXYZ"
  const Digits: string := "0123456789"

  lemma LowerCaseInOrder()
    ensures |LowerCase| == 26 && forall i :: 0 <= i < 26 ==> LowerCase[i] == Symbol(i)
  {
  }

  lemma UpperCaseInOrder()
    ensures |UpperCase| == 26 && forall i :: 0 <= i < 26 ==> UpperCase[i] == Symbol(26 + i)
  {
  }

  lemma DigitsInOrder()
    ensures |Digits| == 10 && forall i :: 0 <= i < 10 ==> Digits[i] == Symbol(52 + i)
  {
  }

  lemma LettersSplit()
    ensures Letters == LowerCase + UpperCase + Digits
  {
  }

  /** `Letters` spells out the 62 symbols in order. */
  lemma LettersAreSymbols()
    ensures |Letters| == 62
    ensures forall i: LetterIndex :: Letters[i] == Symbol(i)
  {
    LettersSplit();
    LowerCaseInOrder();
    UpperCaseInOrder();
    DigitsInOrder();
    forall i: LetterIndex ensures Letters[i] == Symbol(i) {
      if i < 26 {
        assert Letters[i] == LowerCase[i];
      } else if i < 52 {
        assert Letters[i] == UpperCase[i - 26];
      } else {
        assert Letters[i] == Digits[i - 52];
      }
    }
  }

  /** The alphabet is exactly a-z, A-Z and 0-9, and its 62 symbols are distinct. */
  lemma AlphabetIsAlphanumeric()
    ensures |Letters| == 62
    ensures forall c :: c in Letters <==> IsAlphanumeric(c)
    ensures forall i, j :: 0 <= i < j < |Letters| ==> Letters[i] != Letters[j]
  {
    LettersAreSymbols();
    forall c | IsAlphanumeric(c) ensures c in Letters {
      assert Letters[SymbolIndex(c)] == c;
    }
  }

  /** `generateInvitationCode`: five independent draws from the alphabet;
      `draw(k)` stands for the position the `k`-th `randomElement()` picks. */
  function GenerateInvitationCode(draw: nat -> LetterIndex): (code: string)
    ensures |code| == CodeLength
    ensures forall k :: 0 <= k < |code| ==> code[k] in Letters && IsAlphanumeric(code[k])
  {
    LettersAreSymbols();
    seq(CodeLength, (k: nat) => Letters[draw(k)])
  }

  /** Every five-character alphanumeric string is a possible invitation code. */
  lemma EveryCodeCanBeDrawn(code: string)
    requires |code| == CodeLength
    requires forall k :: 0 <= k < |code| ==> IsAlphanumeric(code[k])
    ensures exists draw: nat -> LetterIndex :: GenerateInvitationCode(draw) == code
  {
    LettersAreSymbols();
    var draw: nat -> LetterIndex := (k: nat) => if k < |code| then SymbolIndex(code[k]) else 0;
    assert GenerateInvitationCode(draw) == code;
  }

  // ---------------------------------------------------------------------
  // Endpoints
  // ---------------------------------------------------------------------

  /** `POST game-rooms/create`. A logged-in caller gets a new room with the
      given name and privacy flag, of which they are both creator and admin,
      with an invitation code drawn by `draw`. */
  method Create(db: Database, caller: Option<Uuid>, name: string, isPrivate: bool, draw: nat -> LetterIndex)
    returns (r: Result<GameRoom>)
    requires db.Valid()
    requires db.Authenticated(caller)
    modifies db
    ensures db.Valid()
    ensures r.Err? <==> caller.None?
    ensures r.Err? ==> r.error == Unauthorized && unchanged(db)
    ensures r.Ok? ==> r.value.creatorId == caller.value && r.value.adminId == caller.value
    ensures r.Ok? ==> r.value.name == name && r.value.isPrivate == isPrivate
    ensures r.Ok? ==> r.value.invitationCode == GenerateInvitationCode(draw)
    ensures r.Ok? ==> |r.value.invitationCode| == CodeLength &&
                      forall k :: 0 <= k < CodeLength ==> IsAlphanumeric(r.value.invitationCode[k])
    ensures r.Ok? ==> db.rooms == old(db.rooms) + [r.value]
    ensures r.Ok? ==> forall room :: room in old(db.rooms) ==> room.id != r.value.id
    ensures unchanged(db`users, db`roomUsers, db`teams, db`teamUsers, db`rounds)
  {
    if caller.None? {
      return Err(Unauthorized);
    }
    var user := caller.value;
    var room := db.SaveGameRoom(name, user, GenerateInvitationCode(draw), isPrivate, user);
    r := Ok(room);
  }

  /** `GameRoom.Public` of a room: its columns with the creator's and the
      admin's names resolved. */
  function PublicView(users: map<Uuid, User>, room: GameRoom): GameRoomPublic
    requires room.creatorId in users && room.adminId in users
  {
    GameRoomPublic(room.id, room.name, users[room.creatorId].name, room.isPrivate,
                   room.invitationCode, users[room.adminId].name)
  }

  /** The views of the rooms that are not private, in table order. */
  function PublicRooms(rooms: seq<GameRoom>, users: map<Uuid, User>): (r: seq<GameRoomPublic>)
    requires forall room :: room in rooms ==> room.creatorId in users && room.adminId in users
    ensures |r| <= |rooms|
    ensures forall v :: v in r <==> exists room :: room in rooms && !room.isPrivate && v == PublicView(users, room)
  {
    if rooms == [] then []
    else
      var rest := PublicRooms(rooms[1..], users);
      assert forall x :: x in rooms[1..] ==> x in rooms;
      assert forall x :: x in rooms ==> x == rooms[0] || x in rooms[1..];
      if rooms[0].isPrivate then rest else [PublicView(users, rooms[0])] + rest
  }

  /** No two entries of a room list share a room id. */
  predicate DistinctRooms(vs: seq<GameRoomPublic>)
  {
    forall i, j :: 0 <= i < j < |vs| ==> vs[i].id != vs[j].id
  }

  /** With distinct room ids, each public room is listed once. */
  lemma {:induction false} PublicRoomsOncePerRoom(rooms: seq<GameRoom>, users: map<Uuid, User>)
    requires forall room :: room in rooms ==> room.creatorId in users && room.adminId in users
    requires forall i, j :: 0 <= i < j < |rooms| ==> rooms[i].id != rooms[j].id
    ensures DistinctRooms(PublicRooms(rooms, users))
  {
    if rooms != [] {
      var tail := rooms[1..];
      assert forall x :: x in tail ==> x in rooms;
      PublicRoomsOncePerRoom(tail, users);
      var rest := PublicRooms(tail, users);
      forall v | v in rest ensures v.id != rooms[0].id {
        var room :| room in tail && !room.isPrivate && v == PublicView(users, room);
        var k :| 0 <= k < |tail| && tail[k] == room;
        assert rooms[k + 1] == room;
      }
      var r := PublicRooms(rooms, users);
      if !rooms[0].isPrivate {
        assert r == [PublicView(users, rooms[0])] + rest;
        forall i, j | 0 <= i < j < |r| ensures r[i].id != r[j].id {
          assert r[j] == rest[j - 1];
          if i > 0 {
            assert r[i] == rest[i - 1];
          } else {
            assert rest[j - 1] in rest;
          }
        }
      }
    }
  }

  /** `GET game-rooms/list-all`. Any logged-in caller gets exactly the public
      rooms; no private room appears. Each entry carries the room's id, name,
      privacy flag and invitation code unchanged and the names of its creator
      and admin. Reading changes nothing. */
  function ListAll(db: Database, caller: Option<Uuid>): (r: Result<seq<GameRoomPublic>>)
    reads db
    requires db.Valid()
    ensures r.Err? <==> caller.None?
    ensures r.Err? ==> r.error == Unauthorized
    ensures r.Ok? ==> forall v :: v in r.value ==> !v.isPrivate
    ensures r.Ok? ==> forall v :: v in r.value ==>
              exists room :: room in db.rooms && !room.isPrivate &&
                v.id == room.id && v.name == room.name && v.isPrivate == room.isPrivate &&
                v.invitationCode == room.invitationCode &&
                v.creator == db.users[room.creatorId].name && v.admin == db.users[room.adminId].name
    ensures r.Ok? ==> forall room :: room in db.rooms && !room.isPrivate ==>
              exists v :: v in r.value && v.id == room.id && v.name == room.name &&
                v.invitationCode == room.invitationCode &&
                v.creator == db.users[room.creatorId].name && v.admin == db.users[room.adminId].name
    // one entry per public room
    ensures r.Ok? ==> forall i, j :: 0 <= i < j < |r.value| ==> r.value[i].id != r.value[j].id
  {
    if caller.None? then Err(Unauthorized)
    else
      PublicRoomsOncePerRoom(db.rooms, db.users);
      var views := PublicRooms(db.rooms, db.users);
      assert forall room :: room in db.rooms && !room.isPrivate ==> PublicView(db.users, room) in views;
      Ok(views)
  }
}
