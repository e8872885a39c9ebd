# Harmony in-memory store

A Dafny model of the in-memory store behind the Harmony backend, a REST API for
a shared music-listening application. The store holds users, songs, playlists
and listening rooms, each kept in insertion order. It also holds one id counter
per collection. The HTTP handlers read and change the store.

The model is a state machine over an immutable `Store`:

- `Storage` defines the records, the seeded store and the store invariants.
  The invariants are: ids are below their counter and distinct, secret codes
  are unique, and playlist song lists are duplicate-free and name existing
  songs. Room member lists are also duplicate-free.
- `Identity`, `Catalog`, `Playlists` and `Rooms` hold one pure function per
  handler. Each takes the store, the request fields and, where the handler is
  authenticated and uses it, the caller's user id. A handler that writes
  returns either an error kind (`Results.ApiError`, with its HTTP status) or a
  new store with a response body. A read-only handler returns only the answer.
- `Server` dispatches requests to the handlers (`Step`) and runs sequences of
  requests (`Run`). It proves that every store reachable from the seed is
  valid.
- `Seqs` models the array operations the handlers use: `findIndex`,
  `indexOf`, `filter` and `splice`. `JsValues` models JavaScript truthiness,
  destructuring defaults and number-to-string conversion.

A body field is modelled as `Option<string>`, with `None` for `undefined`. A
field is truthy when it is present and non-empty. A destructuring default such
as `color = '#ffcfe1'` replaces only `undefined`, so an empty string is kept.
The `songId` body field of add-song is `Option<int>`, and 0 is falsy.

The model follows what the handlers do, including where they differ from the documented API:

- A room code is matched exactly, not case-insensitively. Nothing checks a new
  code against existing ones, and a join reaches the first room with that code
  (`Rooms.JoinReachesOldestRoom`).
- Duplicates found at registration and in add-song answer 400, not 409.
- Login does not create users: the two seeded users exist from the start, and
  an unknown code answers 401.
- Registration needs no authentication, despite the "admin only" comment. It
  takes the role from the body.
- The song listing is public and lists every song.
- Reading a room does not check that the caller is a member.
- A profile update does not check that the new nickname is free, although
  registration does (`Identity.UpdateProfileAllowsNicknameClash`).

## Model

| member | source | states |
|---|---|---|
| Storage.Seed | server.js:33-136 | The initial store: the administrator and the guest, five demo songs uploaded by the administrator, two playlists of the administrator, no rooms, and the counters 3, 6, 3 and 1. |
| Storage.SeedValid | server.js:33-136 | The seeded store satisfies every store invariant. The seed ids 1..5 of songs lie below the counter 6, and the two secret codes differ. |
| Identity.Login | server.js:180-191 | A falsy code answers 400. A code no user holds answers 401. Otherwise the answer is the first user holding the code, without the secret code. |
| Identity.LoginIdentifiesUser | server.js:187-191 | In a valid store, a successful login names the only user holding that secret code. |
| Identity.GetProfile | server.js:229-246 | Answers the first user with the caller's id, or 404 when there is none. |
| Identity.UpdateProfile | server.js:257-269 | 404 when no user has the caller's id. Otherwise only that user changes. Each truthy one of nickname, avatar and colour replaces the old value. Id, role and secret code stay the same, and nothing else in the store changes. |
| Identity.UpdateProfilePreservesValid | server.js:258-267 | A profile update keeps every store invariant. |
| Identity.UpdateThenGetProfile | server.js:229-269 | Reading the profile after an update answers the updated user. |
| Identity.UpdateProfileIdempotent | server.js:264-267 | Repeating a profile update leaves the store and the answer as they are. |
| Identity.UpdateProfileAllowsNicknameClash | server.js:264-267 | Registration refuses an existing nickname, but a profile update lets the guest take the administrator's nickname. |
| Identity.Register | server.js:724-748 | A falsy nickname or code answers 400. A user already holding the nickname or the code answers 400, in both directions. When both are truthy and no user clashes, the registration succeeds: one user is appended with the next user id and the body's fields or their defaults, and the counter advances. |
| Identity.RegisterPreservesValid | server.js:730-748 | Registration keeps user ids fresh and secret codes unique. |
| Identity.RegisterThenLogin | server.js:726-748 | Logging in with a freshly registered code answers the new user. |
| Identity.RegisterTwiceFails | server.js:731-734 | Registering the same nickname and code a second time answers 400. |
| Catalog.DemoSongs | server.js:306-317 | Answers exactly the songs flagged demo, in storage order, each marked demo. |
| Catalog.ListSongs | server.js:330-339 | Answers every stored song at its position, with its fields and play count. |
| Catalog.UploadSong | server.js:352-374 | A falsy title, artist or duration answers 400. Otherwise one song is appended with the next song id, not demo, with 0 plays, uploaded by the caller, and the counter advances. The song gets the given url, or a default url numbered by its id when none is given. Nothing else changes. |
| Catalog.DefaultUrlInjective | server.js:366 | Different song ids give different default urls. |
| Catalog.UploadPreservesValid | server.js:359-374 | An upload keeps song ids fresh and distinct, and playlists still name existing songs. |
| Catalog.UploadKeepsDemoSongs | server.js:361-374 | An upload does not change the demo listing. |
| Catalog.UploadThenListSongs | server.js:330-374 | After an upload, the song listing is the old listing plus the new song at the end, with 0 plays. |
| Playlists.ListPlaylists | server.js:398-406 | Answers exactly the caller's playlists, in storage order, each with its number of songs. |
| Playlists.ListPlaylistsAppend | server.js:398-406 | An appended playlist extends its owner's listing at the end and no other listing. |
| Playlists.CreatePlaylist | server.js:419-437 | A falsy name answers 400. Otherwise one empty playlist owned by the caller is appended with the next playlist id. The description defaults to empty and the colour to the default colour. The counter advances. |
| Playlists.CreatePlaylistPreservesValid | server.js:425-437 | Creating a playlist keeps every store invariant. |
| Playlists.CreateThenListPlaylists | server.js:396-437 | After a create, the creator's listing gains the new playlist at the end, and every other user's listing is unchanged. |
| Playlists.UpdatePlaylist | server.js:461-479 | 404 unless a playlist matches both the id and the caller. Only the first such playlist changes: a truthy name or colour replaces the old one, and a defined description replaces the old one. Id, songs and owner stay the same. |
| Playlists.UpdatePlaylistPreservesValid | server.js:471-474 | Updating a playlist keeps every store invariant. |
| Playlists.DeletePlaylist | server.js:492-500 | 404 unless a playlist matches both the id and the caller. Otherwise exactly that playlist is removed, and the others keep their order. |
| Playlists.DeletePlaylistPreservesValid | server.js:492-500 | Deleting a playlist keeps every store invariant. |
| Playlists.DeleteRemovesExactlyOne | server.js:492-500 | In a valid store, after a delete no playlist has that id, and every other playlist remains. |
| Playlists.AddSong | server.js:519-551 | The checks run in this order: a falsy song id answers 400; no playlist matching id and caller answers 404; an unknown song answers 404; a song already listed answers 400. Otherwise the song id is appended to that playlist only. |
| Playlists.AddSongPreservesValid | server.js:531-546 | Adding a song keeps song lists duplicate-free and naming existing songs. |
| Playlists.AddSongTwice | server.js:542-546 | Adding the same song again answers 400, so the song occurs exactly once in the playlist. |
| Playlists.RemoveSong | server.js:564-578 | 404 when no playlist matches id and caller, or when the song is not in it. Otherwise the first occurrence of the song id is spliced out of that playlist only. |
| Playlists.RemoveSongIsWithout | server.js:572-578 | In a valid store, removing a song drops exactly that id, and the other ids keep their order. |
| Playlists.RemoveSongPreservesValid | server.js:572-578 | Removing a song keeps every store invariant. |
| Playlists.AddThenRemove | server.js:514-578 | Removing a song that was just added restores the store exactly. |
| Rooms.CreateRoom | server.js:594-629 | A falsy name answers 400. Otherwise one room is appended with the next room id, the given code, and the password or an empty one. Its only member is the host, it has no current song and an empty queue, and the answer reports one member. The counter advances. |
| Rooms.CreateRoomPreservesValid | server.js:600-618 | Creating a room keeps every store invariant. |
| Rooms.JoinRoom | server.js:640-670 | A falsy code answers 400. No room with exactly that code answers 404. A non-empty password that differs from the attempt answers 403. Otherwise the caller is appended to the first such room's members unless already there. The answer gives that room's id, name, code and host name, and the new number of members. |
| Rooms.JoinRoomPreservesValid | server.js:657-660 | Joining keeps member lists duplicate-free. |
| Rooms.JoinRoomIdempotent | server.js:657-660 | Repeating a successful join leaves the store and the answer as they are. |
| Rooms.CreateThenJoin | server.js:592-670 | If no other room uses the new code, another user can join with the room's own password, and the room then has two members. |
| Rooms.JoinReachesOldestRoom | server.js:603-646 | When an older room already holds the code, a join never reaches the new room, which stays unchanged. |
| Rooms.ResolveMembers | server.js:691-699 | Resolves every member id to the first user with that id, in member order. Fails exactly when some member has no user. |
| Rooms.GetRoom | server.js:684-717 | No room with the code answers 404. For the first room with the code, a member with no user answers 500, in both directions, and no other error is possible. Otherwise the answer gives the room's id, name, code, host name, current song and queue, its members resolved in order, and a member count equal to the number of members. |
| Rooms.GetRoomResolvesRegisteredMembers | server.js:684-699 | While every member is a registered user, reading a room never answers 500: it answers the room, or 404 when no room has the code. |
| Rooms.CreateRoomKeepsMembersRegistered | server.js:610-612 | A room created by a registered user has only registered members. |
| Rooms.JoinRoomKeepsMembersRegistered | server.js:657-660 | A registered user joining keeps every member registered. |
| Server.Step | server.js:178-748 | A request that fails leaves the store unchanged. Login, the profile read and the listings never change it. |
| Server.StepPreservesValid | server.js:178-748 | Every handler keeps every store invariant. |
| Server.RunPreservesValid | server.js:178-748 | Any sequence of requests keeps every store invariant. |
| Server.ReachableStoresValid | server.js:33-136 | Every store reachable from the seed is valid. Ids are fresh, secret codes unique, and playlists and member lists duplicate-free. |
| Server.WrongPasswordAttemptsChangeNothing | server.js:652-655 | Any number of join attempts that the room's password refuses leave the store, and so every member list, unchanged. |
| Server.StepKeepsMembersRegistered | server.js:592-670 | While the room handlers are called only by registered users, every member stays a registered user. |
| Server.RegisteredCallersNeverBreakGetRoom | server.js:691-699 | If all members are registered and each call of the room handlers comes from a user registered when that call is handled, reading any room never answers 500 after any sequence of requests. This includes users who register during the sequence. |
| Server.InitialCallersRegisteredAlong | server.js:724-748 | Callers who are users of the first store remain registered at every later call, because users are never removed. |
| Server.RegisterThenCreateRoomCovered | server.js:736-748 | From the seed, a user who registers with a fresh nickname and code gets id 3, so a room that user creates next comes from a registered caller. |

## Left out

- JWT signing and verification (`authMiddleware`, and the tokens issued by login, register and profile update) are not modelled. The caller is an authenticated user id given as input. The nickname cached in the token is an input of `CreateRoom` (`hostName`).
- Express plumbing is not modelled: helmet, CORS, the rate limiter, body-size limits, the unmatched-route and global error handlers, `app.listen` and the signal handlers.
- Health, stats and reset (`/health`, `/api/stats`, `/api/reset`) are not modelled. They report process data or depend on the environment.
- Ids and counters are unbounded integers. In the source they are JavaScript numbers, so `nextSongId++` (server.js:359), `nextPlaylistId++` (server.js:425), `nextRoomId++` (server.js:600) and `nextUserId++` (server.js:736) stop increasing at 2^53, and ids would then repeat. The model's fresh-id invariants hold in the source only while the counters stay below 2^53. A default song url spells ids from 10^21 up in exponent form, and the model spells them in plain decimal.
- Timestamps (`createdAt`, `created`, `uploadedAt`) are not stored.
- Room code generation with `Math.random` is not modelled. The code is a parameter of `CreateRoom`.
- `parseInt` coercion is not modelled: path and body ids are integers. A non-numeric path id behaves like an id no record has.
- Body values of other JavaScript types are not modelled: numbers where strings are expected, a `null` description, or a string `songId`.
- Unexpected exceptions answering 500 are not modelled, except the one get-room raises for a member with no user.
- Rooms.GetRoom: does not model the caller, because the handler never uses it.
- Playlists.CreatePlaylist: answers the whole playlist record, whose owner field is the caller. The source leaves the owner out of the response.
- A playlist without a `songs` array cannot arise in the store, so the repair in add-song is not modelled.
