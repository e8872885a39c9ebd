/** Song handlers: the public demo and song listings, and song upload. */
module Catalog {
  import opened Results
  import opened Seqs
  import opened JsValues
  import opened Storage

  /** What the API sends about a song; `plays` only in the full listing. */
  datatype SongView = SongView(
    id: int,
    title: string,
    artist: string,
    duration: string,
    url: string,
    color: string,
    demo: bool,
    plays: Option<int>)

  /** The song fields sent by the demo listing and by upload. */
  function CardOf(s: Song): SongView {
    SongView(s.id, s.title, s.artist, s.duration, s.url, s.color, s.demo, None)
  }

  /** The song fields sent by the full listing. */
  function ListingOf(s: Song): SongView {
    CardOf(s).(plays := Some(s.plays))
  }

  /** GET /api/demo-songs: exactly the songs flagged demo, in storage order. */
  function DemoSongs(s: Store): (r: seq<SongView>)
    ensures forall k :: 0 <= k < |r| ==> r[k].demo && r[k].plays.None?
    ensures exists ix ::
      && Enumerates(ix, s.songs, IsDemo)
      && |r| == |ix|
      && forall k :: 0 <= k < |ix| ==> r[k] == CardOf(s.songs[ix[k]])
  {
    var ix := Positions(s.songs, IsDemo, 0);
    assert Enumerates(ix, s.songs, IsDemo);
    seq(|ix|, k requires 0 <= k < |ix| => CardOf(s.songs[ix[k]]))
  }

  /** GET /api/songs: every song, uploaded or demo, in storage order. */
  function ListSongs(s: Store): (r: seq<SongView>)
    ensures |r| == |s.songs|
    ensures forall k :: 0 <= k < |r| ==>
      && r[k].id == s.songs[k].id && r[k].title == s.songs[k].title && r[k].artist == s.songs[k].artist
      && r[k].duration == s.songs[k].duration && r[k].url == s.songs[k].url && r[k].color == s.songs[k].color
      && r[k].demo == s.songs[k].demo && r[k].plays == Some(s.songs[k].plays)
  {
    seq(|s.songs|, k requires 0 <= k < |s.songs| => ListingOf(s.songs[k]))
  }

  /** The url an upload without one gets, numbered by the new song's id. */
  function DefaultUrl(id: int): string {
    SampleUrlPrefix + NumberToString(id) + ".mp3"
  }

  /** Distinct song ids give distinct default urls. */
  lemma DefaultUrlInjective(a: int, b: int)
    requires DefaultUrl(a) == DefaultUrl(b)
    ensures a == b
  {
    var p := |SampleUrlPrefix|;
    var na, nb := NumberToString(a), NumberToString(b);
    assert |na| == |nb|;
    assert na == DefaultUrl(a)[p..p + |na|];
    assert nb == DefaultUrl(b)[p..p + |nb|];
    NumberToStringInjective(a, b);
  }

  /** POST /api/songs/upload: title, artist and duration are required; the new
      song takes the next song id and is appended, not demo, with no plays. */
  function UploadSong(s: Store, caller: int, title: Option<string>, artist: Option<string>,
                      duration: Option<string>, url: Option<string>, color: Option<string>): (r: Result<Reply<SongView>>)
    ensures r.Err? <==> !Truthy(title) || !Truthy(artist) || !Truthy(duration)
    ensures r.Err? ==> r.error == MissingField
    ensures r.Ok? ==>
      && |r.value.store.songs| == |s.songs| + 1
      && r.value.store.songs[..|s.songs|] == s.songs
      && r.value.store == s.(songs := r.value.store.songs, nextSongId := s.nextSongId + 1)
      && var song := r.value.store.songs[|s.songs|];
         && song.id == s.nextSongId
         && song.title == title.value && song.artist == artist.value && song.duration == duration.value
         && (Truthy(url) ==> song.url == url.value)
         && (!Truthy(url) ==> song.url == DefaultUrl(song.id))
         && song.color == OrDefault(color, DefaultColor)
         && !song.demo && song.uploadedBy == caller && song.plays == 0
         && r.value.body == CardOf(song)
  {
    if !Truthy(title) || !Truthy(artist) || !Truthy(duration) then Err(MissingField)
    else
      var id := s.nextSongId;
      var song := Song(id, title.value, artist.value, duration.value,
                       if Truthy(url) then url.value else DefaultUrl(id),
                       OrDefault(color, DefaultColor), false, caller, 0);
      Ok(Reply(s.(songs := s.songs + [song], nextSongId := id + 1), CardOf(song)))
  }

  /** Uploading keeps song ids fresh and distinct and leaves playlists valid. */
  lemma UploadPreservesValid(s: Store, caller: int, title: Option<string>, artist: Option<string>,
                             duration: Option<string>, url: Option<string>, color: Option<string>)
    requires Valid(s)
    requires UploadSong(s, caller, title, artist, duration, url, color).Ok?
    ensures Valid(UploadSong(s, caller, title, artist, duration, url, color).value.store)
  {
    var t := UploadSong(s, caller, title, artist, duration, url, color).value.store;
    assert forall k :: 0 <= k < |s.songs| ==> t.songs[k] == s.songs[k];
    forall id | SongExists(s.songs, id) ensures SongExists(t.songs, id) {
      var k :| 0 <= k < |s.songs| && s.songs[k].id == id;
      assert t.songs[k].id == id;
    }
  }

  /** Uploaded songs are never demo songs: the demo listing is unaffected. */
  lemma UploadKeepsDemoSongs(s: Store, caller: int, title: Option<string>, artist: Option<string>,
                             duration: Option<string>, url: Option<string>, color: Option<string>)
    requires UploadSong(s, caller, title, artist, duration, url, color).Ok?
    ensures DemoSongs(UploadSong(s, caller, title, artist, duration, url, color).value.store) == DemoSongs(s)
  {
    var t := UploadSong(s, caller, title, artist, duration, url, color).value.store;
    var song := t.songs[|s.songs|];
    assert t.songs == s.songs + [song];
    PositionsAppend(s.songs, song, IsDemo, 0);
    var ix := Positions(s.songs, IsDemo, 0);
    assert forall k :: 0 <= k < |ix| ==> t.songs[ix[k]] == s.songs[ix[k]];
  }

  /** The full listing after an upload is the old listing plus the new song
      at the end, with zero plays. */
  lemma UploadThenListSongs(s: Store, caller: int, title: Option<string>, artist: Option<string>,
                            duration: Option<string>, url: Option<string>, color: Option<string>)
    requires UploadSong(s, caller, title, artist, duration, url, color).Ok?
    ensures var rep := UploadSong(s, caller, title, artist, duration, url, color).value;
      && ListSongs(rep.store) == ListSongs(s) + [rep.body.(plays := Some(0))]
      && rep.body.id == s.nextSongId
  {
    var rep := UploadSong(s, caller, title, artist, duration, url, color).value;
    assert forall k :: 0 <= k < |s.songs| ==> rep.store.songs[k] == s.songs[k];
  }
}
