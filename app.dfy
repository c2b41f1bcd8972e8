/** The analysis logic of app.py: the duration format, the rows of the track
    table with their audio-feature columns, the genre cell and the genre
    tally that reads it back, the liked-songs track lookup, and the mapping
    from the selected name to a playlist. Rendering is not modelled. */
module App {
  import opened Common
  import opened Text
  import opened Service
  import opened Lookup
  import opened Fetch

  // ------------------------------------------------------------ durations

  /** format_duration: whole minutes (never wrapped into hours), a colon,
      and the seconds left over, zero-padded to two digits. `//` and `%` of
      Python agree with Dafny's for the positive divisors used here. */
  function FormatDuration(ms: int): string {
    IntStr(ms / 60000) + ":" + Pad2((ms % 60000) / 1000)
  }

  /** The seconds field is always two digits, from 00 to 59, after a colon. */
  lemma FormatDurationShape(ms: int)
    ensures var r := FormatDuration(ms);
      |r| >= 4 && r[|r| - 3] == ':' && AllDigits(r[|r| - 2..]) && DigitsValue(r[|r| - 2..]) < 60
  {
    var s := FormatDuration(ms);
    assert s[|s| - 2..] == Pad2((ms % 60000) / 1000);
  }

  /** Reads "M:SS" back into milliseconds. */
  function ParseDuration(s: string): Option<int> {
    if |s| >= 4 && s[|s| - 3] == ':' && AllDigits(s[|s| - 2..]) then
      match ParseInt(s[..|s| - 3])
      case Some(m) => Some(m * 60000 + DigitsValue(s[|s| - 2..]) * 1000)
      case None => None
    else None
  }

  lemma WholeSeconds(ms: int)
    ensures (ms / 60000) * 60000 + ((ms % 60000) / 1000) * 1000 == (ms / 1000) * 1000
  {
    var m := ms / 60000;
    var r := ms % 60000;
    var s := r / 1000;
    assert ms == m * 60000 + r;
    assert r == s * 1000 + r % 1000;
    assert ms == (60 * m + s) * 1000 + r % 1000;
    assert ms / 1000 == 60 * m + s;
  }

  /** The formatted duration gives back the duration truncated to whole
      seconds: nothing is lost but the milliseconds. */
  lemma FormatDurationRoundTrip(ms: int)
    ensures ParseDuration(FormatDuration(ms)) == Some((ms / 1000) * 1000)
  {
    var minutes := ms / 60000;
    var seconds := (ms % 60000) / 1000;
    var s := FormatDuration(ms);
    assert s == IntStr(minutes) + ":" + Pad2(seconds);
    assert s[..|s| - 3] == IntStr(minutes);
    assert s[|s| - 2..] == Pad2(seconds);
    IntStrRoundTrip(minutes);
    WholeSeconds(ms);
  }

  /** The examples of the duration format: a minute and a second, zero,
      just under a minute, and an hour, which stays in minutes. */
  lemma DurationExamples()
    ensures FormatDuration(61000) == "1:01"
    ensures FormatDuration(0) == "0:00"
    ensures FormatDuration(59999) == "0:59"
    ensures FormatDuration(3600000) == "60:00"
  {
    Digits();
    DurationOf(61000, 1, 1);
    assert NatStr(1) + ":" + Pad2(1) == "1:01";
    DurationOf(0, 0, 0);
    assert NatStr(0) + ":" + Pad2(0) == "0:00";
    DurationOf(59999, 0, 59);
    assert NatStr(0) + ":" + Pad2(59) == "0:59";
    DurationOf(3600000, 60, 0);
    assert NatStr(60) + ":" + Pad2(0) == "60:00";
  }

  lemma Digits()
    ensures NatStr(1) == "1" && NatStr(0) == "0" && Pad2(1) == "01" && Pad2(0) == "00"
    ensures Pad2(59) == "59" && NatStr(60) == "60"
  {
    assert NatStr(59) == NatStr(5) + "9";
    assert NatStr(60) == NatStr(6) + "0";
  }

  lemma DurationOf(ms: int, m: nat, s: nat)
    requires 0 <= ms - (m * 60000 + s * 1000) < 1000 && s < 60
    ensures FormatDuration(ms) == NatStr(m) + ":" + Pad2(s)
  {
    assert ms / 60000 == m;
    assert ms % 60000 == ms - m * 60000;
    assert (ms % 60000) / 1000 == s;
  }

  // ----------------------------------------------------------- table rows

  /** One row of the track table; `audio` holds the feature record when
      the audio-feature columns are filled. */
  datatype Row<F> = Row(
    name: string,
    artists: string,
    album: string,
    albumType: string,
    releaseDate: string,
    addedAt: string,
    duration: string,
    durationMs: int,
    popularity: int,
    explicit: bool,
    trackNumber: int,
    discNumber: int,
    previewUrl: string,
    isrc: string,
    availableMarkets: nat,
    uri: string,
    genres: string,
    audio: Option<F>)

  /** The artists' names, in order. */
  function Names(artists: seq<ArtistRef>): (r: seq<string>)
    ensures |r| == |artists| && forall i :: 0 <= i < |artists| ==> r[i] == artists[i].name
  {
    if artists == [] then [] else [artists[0].name] + Names(artists[1..])
  }

  /** The 'Artist(s)' cell. */
  function ArtistNames(artists: seq<ArtistRef>): string {
    Join(", ", Names(artists))
  }

  /** The 'Genres' cell: the genres joined with ", ", or "N/A" when there are none. */
  function GenreCell(genres: seq<string>): string {
    if genres == [] then "N/A" else Join(", ", genres)
  }

  /** The dictionary built for one track, with the feature columns added
      only when the track's URI is a key of `features`. */
  function RowOf<F>(tm: TrackMetadata, features: map<string, F>): Row<F> {
    var t := tm.track;
    Row(t.name, ArtistNames(t.artists), t.album.name, t.album.albumType, t.album.releaseDate,
        tm.addedAt, FormatDuration(t.durationMs), t.durationMs, t.popularity, t.explicit,
        t.trackNumber, t.discNumber,
        if t.previewUrl.Some? && t.previewUrl.value != "" then t.previewUrl.value else "N/A",
        t.isrc.GetOr("N/A"), |t.availableMarkets|, t.uri, GenreCell(tm.genres),
        if t.uri in features then Some(features[t.uri]) else None)
  }

  /** The loop of display_track_table that fills `data`. */
  method TrackRows<F>(tracks: seq<TrackMetadata>, features: map<string, F>) returns (rows: seq<Row<F>>)
    ensures |rows| == |tracks|
    ensures forall i :: 0 <= i < |tracks| ==> rows[i] == RowOf(tracks[i], features)
  {
    rows := [];
    var i := 0;
    while i < |tracks|
      invariant 0 <= i <= |tracks|
      invariant |rows| == i
      invariant forall k :: 0 <= k < i ==> rows[k] == RowOf(tracks[k], features)
    {
      rows := rows + [RowOf(tracks[i], features)];
      i := i + 1;
    }
  }

  /** A row carries feature columns exactly when its track's URI has a
      feature record, and then that record; its duration cell reads back
      as the duration in whole seconds. */
  lemma RowColumns<F>(tm: TrackMetadata, features: map<string, F>)
    ensures RowOf(tm, features).audio.Some? <==> tm.track.uri in features
    ensures RowOf(tm, features).audio.Some? ==> RowOf(tm, features).audio.value == features[tm.track.uri]
    ensures ParseDuration(RowOf(tm, features).duration) == Some((tm.track.durationMs / 1000) * 1000)
    ensures RowOf(tm, features).uri == tm.track.uri
  {
    FormatDurationRoundTrip(tm.track.durationMs);
  }

  // ---------------------------------------------------------- genre tally

  /** `[g.strip() for g in ...]`. */
  function StripAll(xs: seq<string>): (r: seq<string>)
    ensures |r| == |xs| && forall i :: 0 <= i < |xs| ==> r[i] == Strip(xs[i])
  {
    seq(|xs|, i requires 0 <= i < |xs| => Strip(xs[i]))
  }

  /** The genres the tally collects from the 'Genres' cells, in order. */
  function TallyOf(cells: seq<string>): seq<string> {
    if cells == [] then []
    else
      var last := cells[|cells| - 1];
      TallyOf(cells[..|cells| - 1]) + (if last != "N/A" then StripAll(Split(last, ',')) else [])
  }

  /** The loop that fills `all_genres`. */
  method GenreTally(cells: seq<string>) returns (allGenres: seq<string>)
    ensures allGenres == TallyOf(cells)
  {
    allGenres := [];
    var i := 0;
    while i < |cells|
      invariant 0 <= i <= |cells|
      invariant allGenres == TallyOf(cells[..i])
    {
      assert cells[..i + 1][..i] == cells[..i];
      if cells[i] != "N/A" {
        allGenres := allGenres + StripAll(Split(cells[i], ','));
      }
      i := i + 1;
    }
    assert cells[..i] == cells;
  }

  /** A genre name the cell can carry through: no comma, no surrounding blanks. */
  predicate CleanGenre(g: string) {
    ',' !in g && Trimmed(g)
  }

  /** Stripping a clean genre after an optional blank gives the genre. */
  lemma StripField(p: string, g: string)
    requires p == "" || p == " "
    requires Trimmed(g)
    ensures Strip(p + g) == g
  {
    if p == "" {
      assert p + g == g;
      StripTrimmed(g);
    } else {
      StripAfterBlank(g);
    }
  }

  /** Splitting a joined list on ',' and stripping restores it, also after
      one leading blank (the one a preceding ", " leaves). */
  lemma {:induction false} SplitJoin(p: string, gs: seq<string>)
    requires p == "" || p == " "
    requires gs != [] && forall i :: 0 <= i < |gs| ==> CleanGenre(gs[i])
    ensures StripAll(Split(p + Join(", ", gs), ',')) == gs
    decreases |gs|
  {
    var g := gs[0];
    if |gs| == 1 {
      assert ',' !in p + g;
      StripField(p, g);
      assert p + Join(", ", gs) == p + g;
      SplitNoSep(p + g, ',');
    } else {
      SplitJoin(" ", gs[1..]);
      SplitJoinCons(p, g, gs[1..]);
      assert gs == [g] + gs[1..];
    }
  }

  /** One more genre in front of a list that already round-trips. */
  lemma SplitJoinCons(p: string, g: string, gs: seq<string>)
    requires p == "" || p == " "
    requires CleanGenre(g) && gs != []
    requires StripAll(Split(" " + Join(", ", gs), ',')) == gs
    ensures StripAll(Split(p + Join(", ", [g] + gs), ',')) == [g] + gs
  {
    assert ',' !in p + g;
    StripField(p, g);
    JoinCons(p, g, gs);
    SplitAtSep(p + g, ',', " " + Join(", ", gs));
    StripAllCons(p + g, Split(" " + Join(", ", gs), ','));
  }

  lemma JoinCons(p: string, g: string, gs: seq<string>)
    requires gs != []
    ensures p + Join(", ", [g] + gs) == (p + g) + [','] + (" " + Join(", ", gs))
  {
    assert ([g] + gs)[1..] == gs;
  }

  lemma StripAllCons(x: string, xs: seq<string>)
    ensures StripAll([x] + xs) == [Strip(x)] + StripAll(xs)
  {
  }

  /** The tally of the genre cells of a list of tracks is the concatenation
      of their genre lists, as long as no genre has a comma or surrounding
      blanks and no list is exactly ["N/A"]. */
  lemma {:induction false} TallyRoundTrip(lists: seq<seq<string>>)
    requires forall k :: 0 <= k < |lists| ==> lists[k] != ["N/A"]
    requires forall k, i :: 0 <= k < |lists| && 0 <= i < |lists[k]| ==> CleanGenre(lists[k][i])
    ensures TallyOf(seq(|lists|, k requires 0 <= k < |lists| => GenreCell(lists[k]))) == Flatten(lists)
    decreases |lists|
  {
    if lists != [] {
      var n := |lists| - 1;
      var cells := seq(|lists|, k requires 0 <= k < |lists| => GenreCell(lists[k]));
      var init := seq(n, k requires 0 <= k < n => GenreCell(lists[..n][k]));
      assert cells[..n] == init;
      TallyRoundTrip(lists[..n]);
      var gs := lists[n];
      if gs != [] {
        SplitJoin("", gs);
        assert "" + Join(", ", gs) == Join(", ", gs);
        SplitNoSep("N/A", ',');
        StripTrimmed("N/A");
        assert Join(", ", gs) != "N/A";
      }
    }
  }

  // ------------------------------------------------------ liked songs

  /** The record built for a liked track: no "added at" date, no genres. */
  function LikedRecord(t: Track): TrackMetadata {
    TrackMetadata(t.uri, "N/A", t, [])
  }

  function LikedRecords(ts: seq<Option<Track>>): seq<TrackMetadata>
    requires forall i :: 0 <= i < |ts| ==> ts[i].Some?
  {
    seq(|ts|, i requires 0 <= i < |ts| => LikedRecord(ts[i].value))
  }

  predicate AllPresent(ts: seq<Option<Track>>) {
    forall i :: 0 <= i < |ts| ==> ts[i].Some?
  }

  /** The liked-songs branch from `rest` on, after collecting `acc`: one
      lookup per 50 URIs; a lookup that raises, a response without tracks
      or a missing track raises out of the whole analysis. */
  function LikedFrom(rest: seq<string>, lookup: seq<string> -> BatchResponse<Track>, acc: seq<TrackMetadata>): Outcome<seq<TrackMetadata>>
    decreases |rest|
  {
    if rest == [] then Returned(acc)
    else
      var batch := rest[..Min(TrackBatchSize, |rest|)];
      match lookup(batch)
      case Results(ts) =>
        if AllPresent(ts) then LikedFrom(rest[|batch|..], lookup, acc + LikedRecords(ts)) else Raised
      case _ => Raised
  }

  function LikedTracks(uris: seq<string>, lookup: seq<string> -> BatchResponse<Track>): Outcome<seq<TrackMetadata>> {
    LikedFrom(uris, lookup, [])
  }

  /** `for track in results['tracks']: tracks.append(...)`; `ok` is false
      when a missing track made `track['uri']` raise. */
  method AppendLiked(tracks: seq<TrackMetadata>, ts: seq<Option<Track>>) returns (r: seq<TrackMetadata>, ok: bool)
    ensures ok <==> AllPresent(ts)
    ensures ok ==> r == tracks + LikedRecords(ts)
  {
    r := tracks;
    var j := 0;
    while j < |ts|
      invariant 0 <= j <= |ts|
      invariant AllPresent(ts[..j]) && r == tracks + LikedRecords(ts[..j])
    {
      if ts[j].None? {
        ok := false;
        return;
      }
      assert LikedRecords(ts[..j + 1]) == LikedRecords(ts[..j]) + [LikedRecord(ts[j].value)];
      r := r + [LikedRecord(ts[j].value)];
      j := j + 1;
    }
    assert ts[..j] == ts;
    ok := true;
  }

  /** One round of the liked-songs loop, at position `i`. */
  lemma LikedStep(s: seq<string>, i: nat, lookup: seq<string> -> BatchResponse<Track>, acc: seq<TrackMetadata>)
    requires i < |s|
    ensures var batch := s[i..Min(i + TrackBatchSize, |s|)];
      LikedFrom(s[i..], lookup, acc) ==
        if lookup(batch).Results? && AllPresent(lookup(batch).results)
        then LikedFrom(s[i + |batch|..], lookup, acc + LikedRecords(lookup(batch).results))
        else Raised
  {
    var batch := s[i..Min(i + TrackBatchSize, |s|)];
    assert s[i..][..Min(TrackBatchSize, |s| - i)] == batch;
    assert s[i..][|batch|..] == s[i + |batch|..];
  }

  /** The liked-songs branch of the analysis. */
  method FetchLikedSongTracks(trackUris: seq<string>, lookup: seq<string> -> BatchResponse<Track>)
    returns (r: Outcome<seq<TrackMetadata>>)
    ensures r == LikedTracks(trackUris, lookup)
  {
    var tracks: seq<TrackMetadata> := [];
    var i := 0;
    while i < |trackUris|
      invariant 0 <= i <= |trackUris|
      invariant LikedTracks(trackUris, lookup) == LikedFrom(trackUris[i..], lookup, tracks)
      decreases |trackUris| - i
    {
      var batch := trackUris[i..Min(i + TrackBatchSize, |trackUris|)];
      LikedStep(trackUris, i, lookup, tracks);
      var results := lookup(batch);
      if !results.Results? {
        r := Raised;
        return;
      }
      var ok;
      tracks, ok := AppendLiked(tracks, results.results);
      if !ok {
        r := Raised;
        return;
      }
      i := i + |batch|;
    }
    assert trackUris[i..] == [];
    r := Returned(tracks);
  }

  /** Every liked record has "N/A" as its date, no genres, and the URI of
      the track it was built from. */
  lemma {:induction false} LikedRecordsShape(rest: seq<string>, lookup: seq<string> -> BatchResponse<Track>, acc: seq<TrackMetadata>)
    requires forall i :: 0 <= i < |acc| ==> acc[i].addedAt == "N/A" && acc[i].uri == acc[i].track.uri && acc[i].genres == []
    ensures var r := LikedFrom(rest, lookup, acc);
      r.Returned? ==> forall i :: 0 <= i < |r.value| ==>
        r.value[i].addedAt == "N/A" && r.value[i].uri == r.value[i].track.uri && r.value[i].genres == []
    decreases |rest|
  {
    if rest != [] {
      var batch := rest[..Min(TrackBatchSize, |rest|)];
      if lookup(batch).Results? && AllPresent(lookup(batch).results) {
        LikedRecordsShape(rest[|batch|..], lookup, acc + LikedRecords(lookup(batch).results));
      }
    }
  }

  /** A track service that answers each URI `u` with `catalog(u)`. */
  ghost predicate TracksFrom(lookup: seq<string> -> BatchResponse<Track>, catalog: string -> Track) {
    forall b :: lookup(b) == Results(seq(|b|, i requires 0 <= i < |b| => Some(catalog(b[i]))))
  }

  /** With such a service, the branch returns one record per liked URI, in order. */
  lemma {:induction false} LikedFromCatalog(rest: seq<string>, lookup: seq<string> -> BatchResponse<Track>,
                                            catalog: string -> Track, acc: seq<TrackMetadata>)
    requires TracksFrom(lookup, catalog)
    ensures LikedFrom(rest, lookup, acc) == Returned(acc + seq(|rest|, i requires 0 <= i < |rest| => LikedRecord(catalog(rest[i]))))
    decreases |rest|
  {
    var want := seq(|rest|, i requires 0 <= i < |rest| => LikedRecord(catalog(rest[i])));
    if rest == [] {
      assert acc + want == acc;
    } else {
      var batch := rest[..Min(TrackBatchSize, |rest|)];
      var tail := rest[|batch|..];
      var ts := seq(|batch|, i requires 0 <= i < |batch| => Some(catalog(batch[i])));
      assert lookup(batch) == Results(ts);
      assert AllPresent(ts);
      LikedFromCatalog(tail, lookup, catalog, acc + LikedRecords(ts));
      var wantTail := seq(|tail|, i requires 0 <= i < |tail| => LikedRecord(catalog(tail[i])));
      var head := LikedRecords(ts);
      assert rest == batch + tail;
      forall i | 0 <= i < |rest| ensures (head + wantTail)[i] == want[i] {
        if i < |batch| { assert head[i] == LikedRecord(catalog(batch[i])); }
        else { assert wantTail[i - |batch|] == LikedRecord(catalog(rest[i])); }
      }
      assert want == head + wantTail;
      assert acc + want == (acc + head) + wantTail;
    }
  }

  // ---------------------------------------------------- playlist choice

  /** The selection list: "Liked Songs", then the playlist names in order. */
  function SelectionNames(playlists: seq<PlaylistInfo>): (r: seq<string>)
    ensures |r| == |playlists| + 1 && r[0] == "Liked Songs"
    ensures forall k :: 0 <= k < |playlists| ==> r[k + 1] == playlists[k].name
  {
    ["Liked Songs"] + PlaylistNames(playlists)
  }

  /** `[p.name for p in playlists]`. */
  function PlaylistNames(playlists: seq<PlaylistInfo>): (r: seq<string>)
    ensures |r| == |playlists| && forall k :: 0 <= k < |playlists| ==> r[k] == playlists[k].name
  {
    if playlists == [] then [] else [playlists[0].name] + PlaylistNames(playlists[1..])
  }

  /** `xs.index(x)`: the first position of `x`; `None` where Python raises. */
  function IndexOf(xs: seq<string>, x: string): (r: Option<nat>)
    ensures r.Some? ==> r.value < |xs| && xs[r.value] == x && forall j :: 0 <= j < r.value ==> xs[j] != x
    ensures r.None? <==> x !in xs
  {
    if xs == [] then None
    else if xs[0] == x then Some(0)
    else match IndexOf(xs[1..], x)
      case Some(k) => Some(k + 1)
      case None => None
  }

  datatype Selection = LikedSongs | Chosen(playlist: PlaylistInfo) | NotListed

  /** What the analysis works on for the selected name. */
  function Resolve(playlists: seq<PlaylistInfo>, selected: string): Selection {
    if selected == "Liked Songs" then LikedSongs
    else match IndexOf(SelectionNames(playlists), selected)
      case Some(k) => if 1 <= k then Chosen(playlists[k - 1]) else NotListed
      case None => NotListed
  }

  /** Choosing the name of playlist `i` works on the first playlist of
      that name; the literal "Liked Songs" always means the liked tracks. */
  lemma ResolveName(playlists: seq<PlaylistInfo>, i: nat)
    requires i < |playlists|
    ensures playlists[i].name == "Liked Songs" ==> Resolve(playlists, playlists[i].name) == LikedSongs
    ensures playlists[i].name != "Liked Songs" ==> exists j ::
      0 <= j <= i && Resolve(playlists, playlists[i].name) == Chosen(playlists[j]) &&
      playlists[j].name == playlists[i].name &&
      forall l :: 0 <= l < j ==> playlists[l].name != playlists[i].name
  {
    var names := SelectionNames(playlists);
    var x := playlists[i].name;
    if x != "Liked Songs" {
      assert names[i + 1] == x;
      var k := IndexOf(names, x).value;
      FirstNamed(playlists, x, k);
      var j := k - 1;
      assert 0 <= j <= i && Resolve(playlists, x) == Chosen(playlists[j]) && playlists[j].name == x;
    }
  }

  /** Position `k` of the selection list is playlist `k - 1`, and the
      names before it belong to the playlists before that one. */
  lemma FirstNamed(playlists: seq<PlaylistInfo>, x: string, k: nat)
    requires x != "Liked Songs" && IndexOf(SelectionNames(playlists), x) == Some(k)
    ensures 1 <= k && playlists[k - 1].name == x
    ensures forall l :: 0 <= l < k - 1 ==> playlists[l].name != x
  {
    var names := SelectionNames(playlists);
    forall l | 0 <= l < k - 1 ensures playlists[l].name != x {
      assert names[l + 1] == playlists[l].name;
    }
  }

  /** With distinct names, choosing a playlist's name works on that playlist. */
  lemma ResolveDistinct(playlists: seq<PlaylistInfo>, i: nat)
    requires i < |playlists| && playlists[i].name != "Liked Songs"
    requires forall j, l :: 0 <= j < l < |playlists| ==> playlists[j].name != playlists[l].name
    ensures Resolve(playlists, playlists[i].name) == Chosen(playlists[i])
  {
    ResolveName(playlists, i);
  }

  /** The liked-songs choice and all other listed names are resolved;
      nothing else is. */
  lemma ResolveListed(playlists: seq<PlaylistInfo>, selected: string)
    ensures Resolve(playlists, selected) == NotListed <==> selected !in SelectionNames(playlists)
  {
    var names := SelectionNames(playlists);
    if selected in names && selected != "Liked Songs" {
      var k := IndexOf(names, selected).value;
      assert k != 0;
    }
  }

  // ------------------------------------------------- features fallback

  /** The analysis catches a raising feature lookup and goes on with `{}`. */
  function AnalysisFeatures<F>(tracks: seq<TrackMetadata>, lookup: seq<string> -> BatchResponse<F>): (m: map<string, F>)
    ensures forall u :: u in m ==> u in TrackUris(tracks)
  {
    var o := AudioFeatures(TrackUris(tracks), lookup);
    if o.Raised? then map[]
    else
      AudioFeaturesExact(TrackUris(tracks), lookup);
      o.value
  }
}
