/** The backend as a state machine: one step per HTTP request handled by the
    in-memory store. A request either fails with an error response, leaving
    the store as it was, or succeeds with a new store and a response body. */
module Server {
  import opened Results
  import opened Seqs
  import opened JsValues
  import opened Storage
  import opened Identity
  import opened Catalog
  import opened Playlists
  import opened Rooms

  /** The requests the store answers. `caller` is the user id carried by the
      already verified bearer token. */
  datatype Request =
    | LoginRequest(secretCode: Option<string>)
    | ProfileRequest(caller: int)
    | ProfileUpdateRequest(caller: int, nickname: Option<string>, avatar: Option<string>, color: Option<string>)
    | RegisterRequest(nickname: Option<string>, secretCode: Option<string>, avatar: Option<string>,
                      color: Option<string>, role: Option<string>)
    | DemoSongsRequest
    | SongsRequest
    | UploadRequest(caller: int, title: Option<string>, artist: Option<string>, duration: Option<string>,
                    url: Option<string>, color: Option<string>)
    | PlaylistsRequest(caller: int)
    | CreatePlaylistRequest(caller: int, name: Option<string>, description: Option<string>, color: Option<string>)
    | UpdatePlaylistRequest(caller: int, id: int, name: Option<string>, description: Option<string>,
                            color: Option<string>)
    | DeletePlaylistRequest(caller: int, id: int)
    | AddSongRequest(caller: int, id: int, songId: Option<int>)
    | RemoveSongRequest(caller: int, id: int, removedSongId: int)
    | CreateRoomRequest(caller: int, hostName: string, name: Option<string>, roomPassword: Option<string>,
                        newCode: string)
    | JoinRoomRequest(caller: int, joinCode: Option<string>, attempt: Option<string>)
    | RoomRequest(caller: int, roomCode: string)

  datatype Response =
    | Failed(error: ApiError)
    | UserBody(user: UserView)
    | SongsBody(songs: seq<SongView>)
    | SongBody(song: SongView)
    | PlaylistsBody(playlists: seq<PlaylistEntry>)
    | PlaylistBody(playlist: Playlist)
    | Done
    | RoomBody(room: RoomSummary)
    | RoomDetailBody(detail: RoomDetail)

  datatype Transition = Transition(store: Store, response: Response)

  /** Requests whose handler never writes to the store. */
  predicate ReadOnly(q: Request) {
    q.LoginRequest? || q.ProfileRequest? || q.DemoSongsRequest? || q.SongsRequest? ||
    q.PlaylistsRequest? || q.RoomRequest?
  }

  function Answer<T>(s: Store, r: Result<T>, wrap: T -> Response): Transition {
    match r
    case Ok(v) => Transition(s, wrap(v))
    case Err(e) => Transition(s, Failed(e))
  }

  function Commit<T>(s: Store, r: Result<Reply<T>>, wrap: T -> Response): Transition {
    match r
    case Ok(rep) => Transition(rep.store, wrap(rep.body))
    case Err(e) => Transition(s, Failed(e))
  }

  /** Handles one request. */
  function Step(s: Store, q: Request): (t: Transition)
    ensures t.response.Failed? ==> t.store == s
    ensures ReadOnly(q) ==> t.store == s
  {
    match q
    case LoginRequest(code) => Answer(s, Login(s, code), (v: UserView) => UserBody(v))
    case ProfileRequest(caller) => Answer(s, GetProfile(s, caller), (v: UserView) => UserBody(v))
    case ProfileUpdateRequest(caller, nickname, avatar, color) =>
      Commit(s, UpdateProfile(s, caller, nickname, avatar, color), (v: UserView) => UserBody(v))
    case RegisterRequest(nickname, code, avatar, color, role) =>
      Commit(s, Register(s, nickname, code, avatar, color, role), (v: UserView) => UserBody(v))
    case DemoSongsRequest => Transition(s, SongsBody(DemoSongs(s)))
    case SongsRequest => Transition(s, SongsBody(ListSongs(s)))
    case UploadRequest(caller, title, artist, duration, url, color) =>
      Commit(s, UploadSong(s, caller, title, artist, duration, url, color), (v: SongView) => SongBody(v))
    case PlaylistsRequest(caller) => Transition(s, PlaylistsBody(ListPlaylists(s, caller)))
    case CreatePlaylistRequest(caller, name, description, color) =>
      Commit(s, CreatePlaylist(s, caller, name, description, color), (p: Playlist) => PlaylistBody(p))
    case UpdatePlaylistRequest(caller, id, name, description, color) =>
      Commit(s, UpdatePlaylist(s, caller, id, name, description, color), (p: Playlist) => PlaylistBody(p))
    case DeletePlaylistRequest(caller, id) => Commit(s, DeletePlaylist(s, caller, id), (_: ()) => Done)
    case AddSongRequest(caller, id, songId) =>
      Commit(s, AddSong(s, caller, id, songId), (p: Playlist) => PlaylistBody(p))
    case RemoveSongRequest(caller, id, songId) => Commit(s, RemoveSong(s, caller, id, songId), (_: ()) => Done)
    case CreateRoomRequest(caller, hostName, name, password, code) =>
      Commit(s, CreateRoom(s, caller, hostName, name, password, code), (v: RoomSummary) => RoomBody(v))
    case JoinRoomRequest(caller, code, password) =>
      Commit(s, JoinRoom(s, caller, code, password), (v: RoomSummary) => RoomBody(v))
    case RoomRequest(_, code) => Answer(s, GetRoom(s, code), (d: RoomDetail) => RoomDetailBody(d))
  }

  /** The store after handling the requests in order. */
  function Run(s: Store, qs: seq<Request>): Store
    decreases |qs|
  {
    if |qs| == 0 then s else Run(Step(s, qs[0]).store, qs[1..])
  }

  /** Every handler keeps the store invariants. */
  lemma StepPreservesValid(s: Store, q: Request)
    requires Valid(s)
    ensures Valid(Step(s, q).store)
  {
    if Step(s, q).store != s {
      if q.ProfileUpdateRequest? {
        UpdateProfilePreservesValid(s, q.caller, q.nickname, q.avatar, q.color);
      } else if q.RegisterRequest? {
        RegisterPreservesValid(s, q.nickname, q.secretCode, q.avatar, q.color, q.role);
      } else if q.UploadRequest? {
        UploadPreservesValid(s, q.caller, q.title, q.artist, q.duration, q.url, q.color);
      } else if q.CreatePlaylistRequest? {
        CreatePlaylistPreservesValid(s, q.caller, q.name, q.description, q.color);
      } else if q.UpdatePlaylistRequest? {
        UpdatePlaylistPreservesValid(s, q.caller, q.id, q.name, q.description, q.color);
      } else if q.DeletePlaylistRequest? {
        DeletePlaylistPreservesValid(s, q.caller, q.id);
      } else if q.AddSongRequest? {
        AddSongPreservesValid(s, q.caller, q.id, q.songId);
      } else if q.RemoveSongRequest? {
        RemoveSongPreservesValid(s, q.caller, q.id, q.removedSongId);
      } else if q.CreateRoomRequest? {
        CreateRoomPreservesValid(s, q.caller, q.hostName, q.name, q.roomPassword, q.newCode);
      } else if q.JoinRoomRequest? {
        JoinRoomPreservesValid(s, q.caller, q.joinCode, q.attempt);
      }
    }
  }

  /** Any sequence of requests keeps the store invariants. */
  lemma {:induction false} RunPreservesValid(s: Store, qs: seq<Request>)
    requires Valid(s)
    ensures Valid(Run(s, qs))
    decreases |qs|
  {
    if |qs| > 0 {
      StepPreservesValid(s, qs[0]);
      RunPreservesValid(Step(s, qs[0]).store, qs[1..]);
    }
  }

  /** Every store the process can reach from its seed satisfies the
      invariants: ids are fresh and distinct, secret codes unique, playlists
      and member lists duplicate-free. */
  lemma ReachableStoresValid(qs: seq<Request>)
    ensures Valid(Run(Seed(), qs))
  {
    SeedValid();
    RunPreservesValid(Seed(), qs);
  }

  /** `q` is a join of the room first found under `code` that its password refuses. */
  ghost predicate RefusedJoin(s: Store, q: Request, code: string) {
    && q.JoinRoomRequest?
    && q.joinCode == Some(code)
    && exists i :: FirstMatch(s.rooms, RoomWithCode(code), i) &&
         !Admits(s.rooms[i], OrDefault(q.attempt, ""))
  }

  /** Any number of join attempts with a wrong password leave the store,
      and so every member list, unchanged. */
  lemma {:induction false} WrongPasswordAttemptsChangeNothing(s: Store, code: string, qs: seq<Request>)
    requires code != ""
    requires forall k :: 0 <= k < |qs| ==> RefusedJoin(s, qs[k], code)
    ensures Run(s, qs) == s
    decreases |qs|
  {
    if |qs| > 0 {
      var q := qs[0];
      var i :| FirstMatch(s.rooms, RoomWithCode(code), i) && !Admits(s.rooms[i], OrDefault(q.attempt, ""));
      assert JoinRoom(s, q.caller, q.joinCode, q.attempt) == Err(WrongRoomPassword);
      assert Step(s, q).store == s;
      forall k | 0 <= k < |qs[1..]| ensures RefusedJoin(s, qs[1..][k], code) {
        assert qs[1..][k] == qs[k + 1];
      }
      WrongPasswordAttemptsChangeNothing(s, code, qs[1..]);
    }
  }

  /** Users are never removed and never change id. */
  ghost predicate UsersKept(s: Store, t: Store) {
    forall id :: UserExists(s.users, id) ==> UserExists(t.users, id)
  }

  /** The room handlers' caller is a user of the store. */
  ghost predicate CallerRegistered(s: Store, q: Request) {
    (q.CreateRoomRequest? || q.JoinRoomRequest?) ==> UserExists(s.users, q.caller)
  }

  lemma StepKeepsUsers(s: Store, q: Request)
    ensures UsersKept(s, Step(s, q).store)
  {
    var t := Step(s, q).store;
    forall id | UserExists(s.users, id) ensures UserExists(t.users, id) {
      var k :| 0 <= k < |s.users| && s.users[k].id == id;
      assert t.users[k].id == id;
    }
  }

  /** While the callers of the room handlers are registered users, every
      room member stays a registered user. */
  lemma StepKeepsMembersRegistered(s: Store, q: Request)
    requires MembersRegistered(s) && CallerRegistered(s, q)
    ensures MembersRegistered(Step(s, q).store)
  {
    var t := Step(s, q).store;
    StepKeepsUsers(s, q);
    match q
    case CreateRoomRequest(caller, hostName, name, password, code) =>
      if CreateRoom(s, caller, hostName, name, password, code).Ok? {
        CreateRoomKeepsMembersRegistered(s, caller, hostName, name, password, code);
      }
    case JoinRoomRequest(caller, code, password) =>
      if JoinRoom(s, caller, code, password).Ok? {
        JoinRoomKeepsMembersRegistered(s, caller, code, password);
      }
    case _ =>
      assert t.rooms == s.rooms;
  }

  /** Each room-handler request in `qs` comes from a user of the store as it
      stands when that request is handled, so users registered earlier in the
      sequence count. */
  ghost predicate CallersRegisteredAlong(s: Store, qs: seq<Request>)
    decreases |qs|
  {
    |qs| == 0 || (CallerRegistered(s, qs[0]) && CallersRegisteredAlong(Step(s, qs[0]).store, qs[1..]))
  }

  /** If every room member is registered and each call of a room handler
      comes from a user registered at that moment, reading any room after any
      sequence of requests never fails with a server error. */
  lemma {:induction false} RegisteredCallersNeverBreakGetRoom(s: Store, qs: seq<Request>, code: string)
    requires MembersRegistered(s)
    requires CallersRegisteredAlong(s, qs)
    ensures GetRoom(Run(s, qs), code) != Err(ServerError)
    decreases |qs|
  {
    if |qs| == 0 {
      GetRoomResolvesRegisteredMembers(s, code);
    } else {
      StepKeepsMembersRegistered(s, qs[0]);
      RegisteredCallersNeverBreakGetRoom(Step(s, qs[0]).store, qs[1..], code);
    }
  }

  /** Callers known to the first store stay known along the whole sequence,
      since users are never removed. */
  lemma {:induction false} InitialCallersRegisteredAlong(s: Store, qs: seq<Request>)
    requires forall k :: 0 <= k < |qs| ==> CallerRegistered(s, qs[k])
    ensures CallersRegisteredAlong(s, qs)
    decreases |qs|
  {
    if |qs| > 0 {
      var t := Step(s, qs[0]).store;
      StepKeepsUsers(s, qs[0]);
      forall k | 0 <= k < |qs[1..]| ensures CallerRegistered(t, qs[1..][k]) {
        assert qs[1..][k] == qs[k + 1];
        assert CallerRegistered(s, qs[k + 1]);
      }
      InitialCallersRegisteredAlong(t, qs[1..]);
    }
  }

  /** A user who registers and then opens a room is a registered caller:
      the register-then-create flow from the seed is covered. */
  lemma RegisterThenCreateRoomCovered(nickname: string, secretCode: string, hostName: string,
                                      name: Option<string>, password: Option<string>, newCode: string)
    requires nickname != "" && secretCode != ""
    requires nickname != "Принцеса" && nickname != "Гість"
    requires secretCode != "1312" && secretCode != "demo"
    ensures CallersRegisteredAlong(Seed(), [RegisterRequest(Some(nickname), Some(secretCode), None, None, None),
                                            CreateRoomRequest(3, hostName, name, password, newCode)])
  {
    var s := Seed();
    var users := SeedUsers();
    assert !UserClashing(nickname, secretCode)(users[0]) && !UserClashing(nickname, secretCode)(users[1]);
    assert NoMatch(s.users, UserClashing(nickname, secretCode));
    var q := RegisterRequest(Some(nickname), Some(secretCode), None, None, None);
    var t := Step(s, q).store;
    assert t.users[2].id == 3;
  }
}
