/** Playlist handlers. Every handler addressing one playlist looks it up by id
    AND owner, so another user's playlist is indistinguishable from a missing
    one. */
module Playlists {
  import opened Results
  import opened Seqs
  import opened JsValues
  import opened Storage

  /** A playlist as listed, with its number of songs. */
  datatype PlaylistEntry = PlaylistEntry(playlist: Playlist, songCount: nat)

  /** GET /api/playlists: exactly the caller's playlists, in storage order. */
  function ListPlaylists(s: Store, caller: int): (r: seq<PlaylistEntry>)
    ensures forall k :: 0 <= k < |r| ==>
      r[k].playlist.userId == caller && r[k].songCount == |r[k].playlist.songs|
    ensures exists ix ::
      && Enumerates(ix, s.playlists, PlaylistOf(caller))
      && |r| == |ix|
      && forall k :: 0 <= k < |ix| ==> r[k].playlist == s.playlists[ix[k]]
  {
    var ix := Positions(s.playlists, PlaylistOf(caller), 0);
    assert Enumerates(ix, s.playlists, PlaylistOf(caller));
    seq(|ix|, k requires 0 <= k < |ix| =>
      PlaylistEntry(s.playlists[ix[k]], |s.playlists[ix[k]].songs|))
  }

  /** POST /api/playlists: a name is required; the new, empty playlist takes
      the next playlist id and is appended. */
  function CreatePlaylist(s: Store, caller: int, name: Option<string>, description: Option<string>,
                          color: Option<string>): (r: Result<Reply<Playlist>>)
    ensures r.Err? <==> !Truthy(name)
    ensures r.Err? ==> r.error == MissingField
    ensures r.Ok? ==>
      && r.value.store == s.(playlists := s.playlists + [r.value.body], nextPlaylistId := s.nextPlaylistId + 1)
      && r.value.body.id == s.nextPlaylistId
      && r.value.body.name == name.value
      && r.value.body.description == OrDefault(description, "")
      && r.value.body.songs == []
      && r.value.body.color == OrDefault(color, DefaultColor)
      && r.value.body.userId == caller
  {
    if !Truthy(name) then Err(MissingField)
    else
      var p := Playlist(s.nextPlaylistId, name.value, OrDefault(description, ""), [],
                        OrDefault(color, DefaultColor), caller);
      Ok(Reply(s.(playlists := s.playlists + [p], nextPlaylistId := s.nextPlaylistId + 1), p))
  }

  lemma CreatePlaylistPreservesValid(s: Store, caller: int, name: Option<string>,
                                     description: Option<string>, color: Option<string>)
    requires Valid(s)
    requires CreatePlaylist(s, caller, name, description, color).Ok?
    ensures Valid(CreatePlaylist(s, caller, name, description, color).value.store)
  {
    var t := CreatePlaylist(s, caller, name, description, color).value.store;
    assert forall i :: 0 <= i < |s.playlists| ==> t.playlists[i] == s.playlists[i];
  }

  /** Appending a playlist extends its owner's listing and no other. */
  lemma ListPlaylistsAppend(s: Store, p: Playlist, who: int)
    ensures ListPlaylists(s.(playlists := s.playlists + [p]), who) ==
      ListPlaylists(s, who) + (if p.userId == who then [PlaylistEntry(p, |p.songs|)] else [])
  {
    var t := s.(playlists := s.playlists + [p]);
    PositionsAppend(s.playlists, p, PlaylistOf(who), 0);
    var ix := Positions(s.playlists, PlaylistOf(who), 0);
    assert forall k :: 0 <= k < |ix| ==> t.playlists[ix[k]] == s.playlists[ix[k]];
  }

  /** The creator's listing gains the new playlist at the end; nobody
      else's listing changes. */
  lemma CreateThenListPlaylists(s: Store, caller: int, name: Option<string>, description: Option<string>,
                                color: Option<string>, other: int)
    requires CreatePlaylist(s, caller, name, description, color).Ok?
    ensures var rep := CreatePlaylist(s, caller, name, description, color).value;
      && ListPlaylists(rep.store, caller) == ListPlaylists(s, caller) + [PlaylistEntry(rep.body, 0)]
      && (other != caller ==> ListPlaylists(rep.store, other) == ListPlaylists(s, other))
  {
    var rep := CreatePlaylist(s, caller, name, description, color).value;
    var s' := s.(nextPlaylistId := s.nextPlaylistId + 1);
    assert rep.store == s'.(playlists := s'.playlists + [rep.body]);
    ListPlaylistsAppend(s', rep.body, caller);
    ListPlaylistsAppend(s', rep.body, other);
    assert ListPlaylists(s', caller) == ListPlaylists(s, caller);
    assert ListPlaylists(s', other) == ListPlaylists(s, other);
  }

  /** PUT /api/playlists/:id: on the caller's playlist, a truthy name or colour
      replaces the old one and any defined description replaces the old one
      (even an empty one). Id, songs and owner never change. */
  function UpdatePlaylist(s: Store, caller: int, id: int, name: Option<string>, description: Option<string>,
                          color: Option<string>): (r: Result<Reply<Playlist>>)
    ensures NoMatch(s.playlists, OwnedBy(caller, id)) ==> r == Err(PlaylistNotFound)
    ensures forall i | FirstMatch(s.playlists, OwnedBy(caller, id), i) ::
      && r.Ok?
      && r.value.store == s.(playlists := s.playlists[i := r.value.body])
      && r.value.body.id == s.playlists[i].id
      && r.value.body.songs == s.playlists[i].songs
      && r.value.body.userId == s.playlists[i].userId
      && (Truthy(name) ==> r.value.body.name == name.value)
      && (!Truthy(name) ==> r.value.body.name == s.playlists[i].name)
      && (description.Some? ==> r.value.body.description == description.value)
      && (description.None? ==> r.value.body.description == s.playlists[i].description)
      && (Truthy(color) ==> r.value.body.color == color.value)
      && (!Truthy(color) ==> r.value.body.color == s.playlists[i].color)
  {
    match FindIndex(s.playlists, OwnedBy(caller, id))
    case None => Err(PlaylistNotFound)
    case Some(i) =>
      var p := s.playlists[i];
      var p' := p.(name := IfTruthy(name, p.name),
                   description := OrDefault(description, p.description),
                   color := IfTruthy(color, p.color));
      Ok(Reply(s.(playlists := s.playlists[i := p']), p'))
  }

  lemma UpdatePlaylistPreservesValid(s: Store, caller: int, id: int, name: Option<string>,
                                     description: Option<string>, color: Option<string>)
    requires Valid(s)
    requires UpdatePlaylist(s, caller, id, name, description, color).Ok?
    ensures Valid(UpdatePlaylist(s, caller, id, name, description, color).value.store)
  {
    var i := FindIndex(s.playlists, OwnedBy(caller, id)).value;
    var t := UpdatePlaylist(s, caller, id, name, description, color).value.store;
    assert forall j :: 0 <= j < |s.playlists| ==>
      t.playlists[j].id == s.playlists[j].id && t.playlists[j].songs == s.playlists[j].songs;
  }

  /** DELETE /api/playlists/:id: removes the caller's playlist with that id. */
  function DeletePlaylist(s: Store, caller: int, id: int): (r: Result<Reply<()>>)
    ensures NoMatch(s.playlists, OwnedBy(caller, id)) ==> r == Err(PlaylistNotFound)
    ensures forall i | FirstMatch(s.playlists, OwnedBy(caller, id), i) ::
      && r.Ok?
      && r.value.store == s.(playlists := r.value.store.playlists)
      && |r.value.store.playlists| == |s.playlists| - 1
      && (forall j :: 0 <= j < i ==> r.value.store.playlists[j] == s.playlists[j])
      && (forall j :: i < j < |s.playlists| ==> r.value.store.playlists[j - 1] == s.playlists[j])
  {
    match FindIndex(s.playlists, OwnedBy(caller, id))
    case None => Err(PlaylistNotFound)
    case Some(i) => Ok(Reply(s.(playlists := RemoveAt(s.playlists, i)), ()))
  }

  lemma DeletePlaylistPreservesValid(s: Store, caller: int, id: int)
    requires Valid(s)
    requires DeletePlaylist(s, caller, id).Ok?
    ensures Valid(DeletePlaylist(s, caller, id).value.store)
  {
    var i := FindIndex(s.playlists, OwnedBy(caller, id)).value;
    var ps := DeletePlaylist(s, caller, id).value.store.playlists;
    assert forall j :: 0 <= j < |ps| ==> ps[j] == s.playlists[if j < i then j else j + 1];
  }

  /** In a valid store, deleting leaves no playlist with that id, and every
      other playlist is still there. */
  lemma DeleteRemovesExactlyOne(s: Store, caller: int, id: int)
    requires Valid(s)
    requires DeletePlaylist(s, caller, id).Ok?
    ensures var ps := DeletePlaylist(s, caller, id).value.store.playlists;
      && |ps| == |s.playlists| - 1
      && (forall j :: 0 <= j < |ps| ==> ps[j].id != id)
      && (forall j :: 0 <= j < |s.playlists| && s.playlists[j].id != id ==> s.playlists[j] in ps)
  {
    var i := FindIndex(s.playlists, OwnedBy(caller, id)).value;
    var ps := DeletePlaylist(s, caller, id).value.store.playlists;
    assert s.playlists[i].id == id;
    forall j | 0 <= j < |ps| ensures ps[j].id != id {
      var j' := if j < i then j else j + 1;
      assert ps[j] == s.playlists[j'] && j' != i;
    }
    forall j | 0 <= j < |s.playlists| && s.playlists[j].id != id ensures s.playlists[j] in ps {
      assert ps[if j < i then j else j - 1] == s.playlists[j];
    }
  }

  /** POST /api/playlists/:id/songs. Checks, in order: a truthy song id (400),
      the caller's playlist (404), the song exists (404), the song is not
      already listed (400); then appends the song id. */
  function AddSong(s: Store, caller: int, id: int, songId: Option<int>): (r: Result<Reply<Playlist>>)
    ensures !TruthyNumber(songId) ==> r == Err(MissingField)
    ensures TruthyNumber(songId) && NoMatch(s.playlists, OwnedBy(caller, id)) ==> r == Err(PlaylistNotFound)
    ensures TruthyNumber(songId) ==> forall i | FirstMatch(s.playlists, OwnedBy(caller, id), i) ::
      && (!SongExists(s.songs, songId.value) ==> r == Err(SongNotFound))
      && (SongExists(s.songs, songId.value) && songId.value in s.playlists[i].songs ==>
            r == Err(SongAlreadyInPlaylist))
      && (SongExists(s.songs, songId.value) && songId.value !in s.playlists[i].songs ==>
            && r.Ok?
            && r.value.store == s.(playlists := s.playlists[i := r.value.body])
            && r.value.body == s.playlists[i].(songs := s.playlists[i].songs + [songId.value]))
  {
    if !TruthyNumber(songId) then Err(MissingField)
    else match FindIndex(s.playlists, OwnedBy(caller, id))
      case None => Err(PlaylistNotFound)
      case Some(i) =>
        if FindIndex(s.songs, SongWithId(songId.value)).None? then Err(SongNotFound)
        else
          var p := s.playlists[i];
          if songId.value in p.songs then Err(SongAlreadyInPlaylist)
          else
            var p' := p.(songs := p.songs + [songId.value]);
            Ok(Reply(s.(playlists := s.playlists[i := p']), p'))
  }

  /** Adding a song keeps every playlist duplicate-free and naming existing songs. */
  lemma AddSongPreservesValid(s: Store, caller: int, id: int, songId: Option<int>)
    requires Valid(s)
    requires AddSong(s, caller, id, songId).Ok?
    ensures Valid(AddSong(s, caller, id, songId).value.store)
  {
    var i := FindIndex(s.playlists, OwnedBy(caller, id)).value;
    var t := AddSong(s, caller, id, songId).value.store;
    var x := songId.value;
    assert SongExists(s.songs, x);
    assert x !in s.playlists[i].songs;
    assert NoDup(t.playlists[i].songs);
    assert forall j :: 0 <= j < |s.playlists| && j != i ==> t.playlists[j] == s.playlists[j];
    assert t.playlists[i].id == s.playlists[i].id;
  }

  /** Adding the same song twice: the second call fails, so the song occurs
      exactly once. */
  lemma AddSongTwice(s: Store, caller: int, id: int, songId: Option<int>)
    requires AddSong(s, caller, id, songId).Ok?
    ensures var rep := AddSong(s, caller, id, songId).value;
      && AddSong(rep.store, caller, id, songId) == Err(SongAlreadyInPlaylist)
      && multiset(rep.body.songs)[songId.value] == 1
  {
    var i := FindIndex(s.playlists, OwnedBy(caller, id)).value;
    var rep := AddSong(s, caller, id, songId).value;
    var t := rep.store;
    assert FirstMatch(t.playlists, OwnedBy(caller, id), i) by {
      forall j | 0 <= j < i ensures !OwnedBy(caller, id)(t.playlists[j]) {
        assert t.playlists[j] == s.playlists[j];
        assert !OwnedBy(caller, id)(s.playlists[j]);
      }
    }
    assert t.songs == s.songs;
    assert songId.value in t.playlists[i].songs;
    assert multiset(s.playlists[i].songs)[songId.value] == 0;
  }

  /** DELETE /api/playlists/:id/songs/:songId: splices out the first
      occurrence of the song id from the caller's playlist. */
  function RemoveSong(s: Store, caller: int, id: int, songId: int): (r: Result<Reply<()>>)
    ensures NoMatch(s.playlists, OwnedBy(caller, id)) ==> r == Err(PlaylistNotFound)
    ensures forall i | FirstMatch(s.playlists, OwnedBy(caller, id), i) ::
      && (songId !in s.playlists[i].songs ==> r == Err(SongNotInPlaylist))
      && forall k | FirstMatch(s.playlists[i].songs, EqualTo(songId), k) ::
           && r.Ok?
           && r.value.store == s.(playlists := s.playlists[i := s.playlists[i].(songs := RemoveAt(s.playlists[i].songs, k))])
  {
    match FindIndex(s.playlists, OwnedBy(caller, id))
    case None => Err(PlaylistNotFound)
    case Some(i) =>
      var p := s.playlists[i];
      match FindIndex(p.songs, EqualTo(songId))
      case None => Err(SongNotInPlaylist)
      case Some(k) =>
        Ok(Reply(s.(playlists := s.playlists[i := p.(songs := RemoveAt(p.songs, k))]), ()))
  }

  /** In a valid store, removing a song drops exactly that id from the
      caller's playlist; the other ids keep their relative order. */
  lemma RemoveSongIsWithout(s: Store, caller: int, id: int, songId: int)
    requires Valid(s)
    requires RemoveSong(s, caller, id, songId).Ok?
    ensures exists i ::
      && FirstMatch(s.playlists, OwnedBy(caller, id), i)
      && RemoveSong(s, caller, id, songId).value.store ==
           s.(playlists := s.playlists[i := s.playlists[i].(songs := Without(s.playlists[i].songs, songId))])
  {
    var i := FindIndex(s.playlists, OwnedBy(caller, id)).value;
    var k := FindIndex(s.playlists[i].songs, EqualTo(songId)).value;
    SpliceIsWithout(s.playlists[i].songs, k);
  }

  lemma RemoveSongPreservesValid(s: Store, caller: int, id: int, songId: int)
    requires Valid(s)
    requires RemoveSong(s, caller, id, songId).Ok?
    ensures Valid(RemoveSong(s, caller, id, songId).value.store)
  {
    var i := FindIndex(s.playlists, OwnedBy(caller, id)).value;
    var xs := s.playlists[i].songs;
    var k := FindIndex(xs, EqualTo(songId)).value;
    var t := RemoveSong(s, caller, id, songId).value.store;
    RemoveAtKeepsNoDup(xs, k);
    assert forall m :: 0 <= m < |t.playlists[i].songs| ==> t.playlists[i].songs[m] in xs;
    assert forall j :: 0 <= j < |s.playlists| && j != i ==> t.playlists[j] == s.playlists[j];
  }

  /** Removing a song just added restores the store exactly. */
  lemma AddThenRemove(s: Store, caller: int, id: int, songId: Option<int>)
    requires AddSong(s, caller, id, songId).Ok?
    ensures RemoveSong(AddSong(s, caller, id, songId).value.store, caller, id, songId.value) == Ok(Reply(s, ()))
  {
    var i := FindIndex(s.playlists, OwnedBy(caller, id)).value;
    var t := AddSong(s, caller, id, songId).value.store;
    var xs := s.playlists[i].songs;
    var x := songId.value;
    assert x !in xs;
    assert t.playlists[i].songs == xs + [x];
    assert FirstMatch(t.playlists, OwnedBy(caller, id), i) by {
      forall j | 0 <= j < i ensures !OwnedBy(caller, id)(t.playlists[j]) {
        assert t.playlists[j] == s.playlists[j];
        assert !OwnedBy(caller, id)(s.playlists[j]);
      }
    }
    assert FirstMatch(xs + [x], EqualTo(x), |xs|) by {
      forall j | 0 <= j < |xs| ensures !EqualTo(x)((xs + [x])[j]) {
        assert (xs + [x])[j] == xs[j];
      }
    }
    assert RemoveAt(xs + [x], |xs|) == xs;
    assert t.playlists[i].(songs := xs) == s.playlists[i];
    assert t.playlists[i := s.playlists[i]] == s.playlists;
    assert t.(playlists := s.playlists) == s;
  }
}
