/** Room handlers: create, join by code, and read a room with its members. */
module Rooms {
  import opened Results
  import opened Seqs
  import opened JsValues
  import opened Storage

  /** The room fields sent by create and join. */
  datatype RoomSummary = RoomSummary(id: int, name: string, code: string, host: string, memberCount: nat)

  /** A member as shown in a room's detail. */
  datatype MemberView = MemberView(id: int, name: string, avatar: string, color: string)

  datatype RoomDetail = RoomDetail(
    id: int,
    name: string,
    code: string,
    host: string,
    members: seq<MemberView>,
    memberCount: nat,
    currentSong: Option<int>,
    queue: seq<int>)

  function MemberOf(u: User): MemberView {
    MemberView(u.id, u.nickname, u.avatar, u.color)
  }

  /** POST /api/rooms: a name is required. The room code is generated at
      random by the server; here it is a parameter. The code is not checked
      against the codes of existing rooms. `hostName` is the nickname carried
      by the caller's token. */
  function CreateRoom(s: Store, caller: int, hostName: string, name: Option<string>,
                      password: Option<string>, code: string): (r: Result<Reply<RoomSummary>>)
    ensures r.Err? <==> !Truthy(name)
    ensures r.Err? ==> r.error == MissingField
    ensures r.Ok? ==>
      && |r.value.store.rooms| == |s.rooms| + 1
      && r.value.store.rooms[..|s.rooms|] == s.rooms
      && r.value.store == s.(rooms := r.value.store.rooms, nextRoomId := s.nextRoomId + 1)
      && var room := r.value.store.rooms[|s.rooms|];
         && room.id == s.nextRoomId
         && room.name == name.value
         && room.code == code
         && room.password == OrDefault(password, "")
         && room.host == caller && room.hostName == hostName
         && room.members == [caller]
         && room.currentSong.None? && room.queue == []
         && r.value.body == RoomSummary(s.nextRoomId, name.value, code, hostName, 1)
  {
    if !Truthy(name) then Err(MissingField)
    else
      var room := Room(s.nextRoomId, name.value, code, OrDefault(password, ""), caller, hostName,
                       [caller], None, []);
      Ok(Reply(s.(rooms := s.rooms + [room], nextRoomId := s.nextRoomId + 1),
               RoomSummary(room.id, room.name, room.code, room.hostName, 1)))
  }

  lemma CreateRoomPreservesValid(s: Store, caller: int, hostName: string, name: Option<string>,
                                 password: Option<string>, code: string)
    requires Valid(s)
    requires CreateRoom(s, caller, hostName, name, password, code).Ok?
    ensures Valid(CreateRoom(s, caller, hostName, name, password, code).value.store)
  {
    var t := CreateRoom(s, caller, hostName, name, password, code).value.store;
    assert forall i :: 0 <= i < |s.rooms| ==> t.rooms[i] == s.rooms[i];
  }

  /** A room's password admits an attempt when it is empty or equal to it. */
  predicate Admits(room: Room, attempt: string) {
    room.password == "" || room.password == attempt
  }

  /** POST /api/rooms/join: the first room whose code equals the given one;
      a non-empty password must match exactly; the caller is appended to the
      members unless already there. */
  function JoinRoom(s: Store, caller: int, code: Option<string>, password: Option<string>): (r: Result<Reply<RoomSummary>>)
    ensures !Truthy(code) ==> r == Err(MissingField)
    ensures Truthy(code) && NoMatch(s.rooms, RoomWithCode(code.value)) ==> r == Err(RoomNotFound)
    ensures Truthy(code) ==> forall i | FirstMatch(s.rooms, RoomWithCode(code.value), i) ::
      && (!Admits(s.rooms[i], OrDefault(password, "")) ==> r == Err(WrongRoomPassword))
      && (Admits(s.rooms[i], OrDefault(password, "")) ==>
            && r.Ok?
            && |r.value.store.rooms| == |s.rooms|
            && r.value.store == s.(rooms := s.rooms[i := r.value.store.rooms[i]])
            && r.value.store.rooms[i] == s.rooms[i].(members := r.value.store.rooms[i].members)
            && (caller in s.rooms[i].members ==> r.value.store.rooms[i].members == s.rooms[i].members)
            && (caller !in s.rooms[i].members ==>
                  r.value.store.rooms[i].members == s.rooms[i].members + [caller])
            && r.value.body == RoomSummary(s.rooms[i].id, s.rooms[i].name, s.rooms[i].code,
                                           s.rooms[i].hostName, |r.value.store.rooms[i].members|))
  {
    if !Truthy(code) then Err(MissingField)
    else match FindIndex(s.rooms, RoomWithCode(code.value))
      case None => Err(RoomNotFound)
      case Some(i) =>
        var room := s.rooms[i];
        if !Admits(room, OrDefault(password, "")) then Err(WrongRoomPassword)
        else
          var room' := if caller in room.members then room else room.(members := room.members + [caller]);
          Ok(Reply(s.(rooms := s.rooms[i := room']),
                   RoomSummary(room'.id, room'.name, room'.code, room'.hostName, |room'.members|)))
  }

  /** Joining keeps every member list duplicate-free. */
  lemma JoinRoomPreservesValid(s: Store, caller: int, code: Option<string>, password: Option<string>)
    requires Valid(s)
    requires JoinRoom(s, caller, code, password).Ok?
    ensures Valid(JoinRoom(s, caller, code, password).value.store)
  {
    var i := FindIndex(s.rooms, RoomWithCode(code.value)).value;
    var t := JoinRoom(s, caller, code, password).value.store;
    assert NoDup(t.rooms[i].members);
    assert forall j :: 0 <= j < |s.rooms| ==> t.rooms[j].id == s.rooms[j].id;
  }

  /** Joining again with the same request changes nothing. */
  lemma JoinRoomIdempotent(s: Store, caller: int, code: Option<string>, password: Option<string>)
    requires JoinRoom(s, caller, code, password).Ok?
    ensures var rep := JoinRoom(s, caller, code, password).value;
      JoinRoom(rep.store, caller, code, password) == Ok(rep)
  {
    var i := FindIndex(s.rooms, RoomWithCode(code.value)).value;
    var rep := JoinRoom(s, caller, code, password).value;
    var t := rep.store;
    assert FirstMatch(t.rooms, RoomWithCode(code.value), i) by {
      forall j | 0 <= j < i ensures !RoomWithCode(code.value)(t.rooms[j]) {
        assert t.rooms[j] == s.rooms[j];
        assert !RoomWithCode(code.value)(s.rooms[j]);
      }
    }
    assert caller in t.rooms[i].members;
    assert t.rooms[i := t.rooms[i]] == t.rooms;
  }

  /** A room created with a code no other room uses can be joined with that
      code and the room's own password; a second user makes two members. */
  lemma CreateThenJoin(s: Store, host: int, hostName: string, name: Option<string>,
                       password: Option<string>, code: string, guest: int)
    requires CreateRoom(s, host, hostName, name, password, code).Ok?
    requires code != ""
    requires forall i :: 0 <= i < |s.rooms| ==> s.rooms[i].code != code
    ensures var t := CreateRoom(s, host, hostName, name, password, code).value.store;
      var joined := JoinRoom(t, guest, Some(code), password);
      && joined.Ok?
      && joined.value.body.id == s.nextRoomId
      && joined.value.body.memberCount == (if guest == host then 1 else 2)
  {
    var t := CreateRoom(s, host, hostName, name, password, code).value.store;
    var n := |s.rooms|;
    assert FirstMatch(t.rooms, RoomWithCode(code), n) by {
      forall j | 0 <= j < n ensures !RoomWithCode(code)(t.rooms[j]) {
        assert t.rooms[j] == s.rooms[j];
      }
    }
    assert t.rooms[n].password == OrDefault(password, "");
  }

  /** Room codes are not checked for collisions: once a room holds a code, a
      later room created with the same code is never reached by a join. */
  lemma JoinReachesOldestRoom(s: Store, caller: int, hostName: string, name: Option<string>,
                              password: Option<string>, code: string, joiner: int,
                              attempt: Option<string>, k: nat)
    requires CreateRoom(s, caller, hostName, name, password, code).Ok?
    requires code != ""
    requires k < |s.rooms| && s.rooms[k].code == code
    ensures var t := CreateRoom(s, caller, hostName, name, password, code).value.store;
      var joined := JoinRoom(t, joiner, Some(code), attempt);
      && joined != Err(RoomNotFound)
      && (joined.Ok? ==> joined.value.store.rooms[|s.rooms|] == t.rooms[|s.rooms|])
      && (joined.Ok? && Valid(s) ==> joined.value.body.id != s.nextRoomId)
  {
    var t := CreateRoom(s, caller, hostName, name, password, code).value.store;
    assert RoomWithCode(code)(t.rooms[k]);
    var i := FindIndex(t.rooms, RoomWithCode(code)).value;
    assert i <= k;
  }

  /** Resolves member ids to users, as the `map` in GET /api/rooms/:code does;
      `None` when some id has no user, where that handler throws. */
  function ResolveMembers(users: seq<User>, ids: seq<int>): (r: Option<seq<MemberView>>)
    ensures r.None? <==> exists k :: 0 <= k < |ids| && !UserExists(users, ids[k])
    ensures r.Some? ==> |r.value| == |ids|
    ensures r.Some? ==> forall k, j | 0 <= k < |ids| && FirstMatch(users, UserWithId(ids[k]), j) ::
      r.value[k] == MemberOf(users[j])
    decreases |ids|
  {
    if |ids| == 0 then Some([])
    else match FindIndex(users, UserWithId(ids[0]))
      case None => None
      case Some(j) =>
        match ResolveMembers(users, ids[1..])
        case None => None
        case Some(rest) => Some([MemberOf(users[j])] + rest)
  }

  /** GET /api/rooms/:code: the first room with the code, its members resolved
      to users in member order. A member with no user makes the handler throw,
      and its catch block answers 500. Membership of the caller is not checked. */
  function GetRoom(s: Store, code: string): (r: Result<RoomDetail>)
    ensures NoMatch(s.rooms, RoomWithCode(code)) ==> r == Err(RoomNotFound)
    ensures forall i | FirstMatch(s.rooms, RoomWithCode(code), i) ::
      && (r == Err(ServerError) <==>
            exists k :: 0 <= k < |s.rooms[i].members| && !UserExists(s.users, s.rooms[i].members[k]))
      && (r.Err? ==> r == Err(ServerError))
      && (r.Ok? ==>
            && r.value.id == s.rooms[i].id
            && r.value.name == s.rooms[i].name
            && r.value.code == s.rooms[i].code
            && r.value.host == s.rooms[i].hostName
            && r.value.memberCount == |s.rooms[i].members| == |r.value.members|
            && r.value.currentSong == s.rooms[i].currentSong
            && r.value.queue == s.rooms[i].queue
            && forall k, j | 0 <= k < |s.rooms[i].members| && FirstMatch(s.users, UserWithId(s.rooms[i].members[k]), j) ::
                 r.value.members[k] == MemberOf(s.users[j]))
  {
    match FindIndex(s.rooms, RoomWithCode(code))
    case None => Err(RoomNotFound)
    case Some(i) =>
      var room := s.rooms[i];
      match ResolveMembers(s.users, room.members)
      case None => Err(ServerError)
      case Some(members) =>
        Ok(RoomDetail(room.id, room.name, room.code, room.hostName, members, |members|,
                      room.currentSong, room.queue))
  }

  /** While every member is a registered user, reading a room never fails
      with a server error. */
  lemma GetRoomResolvesRegisteredMembers(s: Store, code: string)
    requires MembersRegistered(s)
    ensures GetRoom(s, code) != Err(ServerError)
    ensures GetRoom(s, code).Err? ==> GetRoom(s, code) == Err(RoomNotFound)
  {
    match FindIndex(s.rooms, RoomWithCode(code))
    case None =>
    case Some(i) =>
      assert forall k :: 0 <= k < |s.rooms[i].members| ==> UserExists(s.users, s.rooms[i].members[k]);
  }

  /** Creating a room as a registered user keeps every member registered. */
  lemma CreateRoomKeepsMembersRegistered(s: Store, caller: int, hostName: string, name: Option<string>,
                                         password: Option<string>, code: string)
    requires MembersRegistered(s) && UserExists(s.users, caller)
    requires CreateRoom(s, caller, hostName, name, password, code).Ok?
    ensures MembersRegistered(CreateRoom(s, caller, hostName, name, password, code).value.store)
  {
    var t := CreateRoom(s, caller, hostName, name, password, code).value.store;
    assert forall i :: 0 <= i < |s.rooms| ==> t.rooms[i] == s.rooms[i];
  }

  /** Joining as a registered user keeps every member registered. */
  lemma JoinRoomKeepsMembersRegistered(s: Store, caller: int, code: Option<string>, password: Option<string>)
    requires MembersRegistered(s) && UserExists(s.users, caller)
    requires JoinRoom(s, caller, code, password).Ok?
    ensures MembersRegistered(JoinRoom(s, caller, code, password).value.store)
  {
    var i := FindIndex(s.rooms, RoomWithCode(code.value)).value;
    var t := JoinRoom(s, caller, code, password).value.store;
    assert forall k :: 0 <= k < |t.rooms[i].members| ==>
      t.rooms[i].members[k] in s.rooms[i].members || t.rooms[i].members[k] == caller;
  }
}
