/** The in-memory store of the Harmony backend: users, songs, playlists and
    rooms kept in insertion order, with one id counter per collection. */
module Storage {
  import opened Results
  import opened Seqs

  /** A user. Timestamps are not modelled. */
  datatype User = User(
    id: int,
    nickname: string,
    avatar: string,
    secretCode: string,
    role: string,
    color: string)

  /** A song; `uploadedBy` is the uploader's user id. */
  datatype Song = Song(
    id: int,
    title: string,
    artist: string,
    duration: string,
    url: string,
    color: string,
    demo: bool,
    uploadedBy: int,
    plays: int)

  /** A playlist owned by user `userId`; `songs` holds song ids in order. */
  datatype Playlist = Playlist(
    id: int,
    name: string,
    description: string,
    songs: seq<int>,
    color: string,
    userId: int)

  /** A listening room. `hostName` is the nickname cached in the host's token
      when the room was created. No handler ever sets `currentSong` or `queue`. */
  datatype Room = Room(
    id: int,
    name: string,
    code: string,
    password: string,
    host: int,
    hostName: string,
    members: seq<int>,
    currentSong: Option<int>,
    queue: seq<int>)

  datatype Store = Store(
    users: seq<User>,
    songs: seq<Song>,
    playlists: seq<Playlist>,
    rooms: seq<Room>,
    nextUserId: int,
    nextSongId: int,
    nextPlaylistId: int,
    nextRoomId: int)

  /** A successful handler's new store and response body. */
  datatype Reply<+T> = Reply(store: Store, body: T)

  const DefaultColor := "#ffcfe1"

  /** Seed songs and songs uploaded without a url point at this sample site. */
  const SampleUrlPrefix := "https://www.soundhelix.com/examples/mp3/SoundHelix-Song-"

  /** A demo song owned by user 1; `n` is the sample file's number. */
  function SeedSong(id: int, title: string, artist: string, duration: string, n: string, color: string): Song {
    Song(id, title, artist, duration, SampleUrlPrefix + n + ".mp3", color, true, 1, 0)
  }

  /** The store the process starts with. */
  function Seed(): Store {
    Store(SeedUsers(), SeedSongs(), SeedPlaylists(), [], 3, 6, 3, 1)
  }

  /** The administrator and the guest. */
  function SeedUsers(): seq<User> {
    [ User(1, "Принцеса", "fas fa-crown", "1312", "admin", "#ffcfe1"),
      User(2, "Гість", "fas fa-user", "demo", "user", "#ffb6d0") ]
  }

  /** Five demo songs uploaded by the administrator. */
  function SeedSongs(): seq<Song> {
    [ SeedSong(1, "Інь-Ян", "Arina Polishchuk", "3:45", "1", "#ffcfe1"),
      SeedSong(2, "Сонячна", "Melovin", "3:22", "2", "#ffb6d0"),
      SeedSong(3, "Веснянка", "Океан Ельзи", "4:15", "3", "#ffa8d9"),
      SeedSong(4, "Місто Весни", "СКАЙ", "3:58", "4", "#ff9ac8"),
      SeedSong(5, "Ти і Я", "The Hardkiss", "4:32", "5", "#ff8cb7") ]
  }

  /** Two playlists of the administrator. */
  function SeedPlaylists(): seq<Playlist> {
    [ Playlist(1, "Улюблене", "Мої улюблені пісні", [1, 2, 3], "#ffcfe1", 1),
      Playlist(2, "Для натхнення", "Пісні для натхнення", [4, 5], "#ffb6d0", 1) ]
  }

  // Search predicates handed to `FindIndex`, one per lookup the handlers make.

  function UserWithId(id: int): User -> bool {
    (u: User) => u.id == id
  }

  function UserWithCode(code: string): User -> bool {
    (u: User) => u.secretCode == code
  }

  function UserClashing(nickname: string, code: string): User -> bool {
    (u: User) => u.nickname == nickname || u.secretCode == code
  }

  function SongWithId(id: int): Song -> bool {
    (s: Song) => s.id == id
  }

  /** The lookup of every playlist handler: the id and the owner both match. */
  function OwnedBy(caller: int, id: int): Playlist -> bool {
    (p: Playlist) => p.id == id && p.userId == caller
  }

  function RoomWithCode(code: string): Room -> bool {
    (r: Room) => r.code == code
  }

  predicate IsDemo(s: Song) {
    s.demo
  }

  function PlaylistOf(caller: int): Playlist -> bool {
    (p: Playlist) => p.userId == caller
  }

  /** Some song has id `id`. */
  predicate SongExists(songs: seq<Song>, id: int) {
    exists k :: 0 <= k < |songs| && songs[k].id == id
  }

  predicate UserExists(users: seq<User>, id: int) {
    exists k :: 0 <= k < |users| && users[k].id == id
  }

  // The store invariants.

  ghost predicate UsersValid(users: seq<User>, next: int) {
    && (forall i :: 0 <= i < |users| ==> users[i].id < next)
    && (forall i, j :: 0 <= i < j < |users| ==> users[i].id != users[j].id)
    && (forall i, j :: 0 <= i < j < |users| ==> users[i].secretCode != users[j].secretCode)
  }

  ghost predicate SongsValid(songs: seq<Song>, next: int) {
    && (forall i :: 0 <= i < |songs| ==> songs[i].id < next)
    && (forall i, j :: 0 <= i < j < |songs| ==> songs[i].id != songs[j].id)
  }

  /** Playlist ids are fresh and distinct; every playlist's song list is
      duplicate-free and names existing songs. */
  ghost predicate PlaylistsValid(playlists: seq<Playlist>, songs: seq<Song>, next: int) {
    && (forall i :: 0 <= i < |playlists| ==> playlists[i].id < next)
    && (forall i, j :: 0 <= i < j < |playlists| ==> playlists[i].id != playlists[j].id)
    && (forall i :: 0 <= i < |playlists| ==> NoDup(playlists[i].songs))
    && (forall i, k :: 0 <= i < |playlists| && 0 <= k < |playlists[i].songs| ==>
          SongExists(songs, playlists[i].songs[k]))
  }

  /** Room ids are fresh and distinct, member lists are duplicate-free. */
  ghost predicate RoomsValid(rooms: seq<Room>, next: int) {
    && (forall i :: 0 <= i < |rooms| ==> rooms[i].id < next)
    && (forall i, j :: 0 <= i < j < |rooms| ==> rooms[i].id != rooms[j].id)
    && (forall i :: 0 <= i < |rooms| ==> NoDup(rooms[i].members))
  }

  ghost predicate Valid(s: Store) {
    && UsersValid(s.users, s.nextUserId)
    && SongsValid(s.songs, s.nextSongId)
    && PlaylistsValid(s.playlists, s.songs, s.nextPlaylistId)
    && RoomsValid(s.rooms, s.nextRoomId)
  }

  /** Every room member is a registered user. Not an invariant of the store:
      it holds only while callers are users the store knows. */
  ghost predicate MembersRegistered(s: Store) {
    forall i, k :: 0 <= i < |s.rooms| && 0 <= k < |s.rooms[i].members| ==>
      UserExists(s.users, s.rooms[i].members[k])
  }

  /** The seeded store satisfies the invariants. */
  lemma SeedValid()
    ensures Valid(Seed())
  {
    SeedUsersValid();
    SeedSongsValid();
    SeedPlaylistsValid();
  }

  lemma SeedUsersValid()
    ensures UsersValid(SeedUsers(), 3)
  {
    var users := SeedUsers();
    assert users[0].secretCode[0] != users[1].secretCode[0];
  }

  lemma SeedSongsValid()
    ensures SongsValid(SeedSongs(), 6)
    ensures forall id | 1 <= id <= 5 :: SongExists(SeedSongs(), id)
  {
    var songs := SeedSongs();
    assert forall i :: 0 <= i < 5 ==> songs[i].id == i + 1;
    forall id | 1 <= id <= 5
      ensures SongExists(songs, id)
    {
      assert songs[id - 1].id == id;
    }
  }

  lemma SeedPlaylistsValid()
    ensures PlaylistsValid(SeedPlaylists(), SeedSongs(), 3)
  {
    SeedSongsValid();
    var playlists := SeedPlaylists();
    assert playlists[0].songs == [1, 2, 3];
    assert playlists[1].songs == [4, 5];
  }
}
