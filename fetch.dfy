/** The paginated fetches of core.py: the user's playlists (core.py:102-138),
    the liked tracks (core.py:140-172), the track URIs of a playlist
    (core.py:174-214) and the playlist tracks with their genres
    (core.py:293-356). Every loop requests offset 0, limit, 2 * limit, ...
    and is proved equal to the page sequence `Pages` of its endpoint. */
module Fetch {
  import opened Common
  import opened Service
  import opened Sorting
  import opened Lookup

  // ---------------------------------------------------------- playlists

  function InfoOf(o: PlaylistObject): PlaylistInfo {
    PlaylistInfo(o.id, o.name, o.tracksTotal)
  }

  function Infos(os: seq<PlaylistObject>): (r: seq<PlaylistInfo>)
    ensures |r| == |os| && forall i :: 0 <= i < |os| ==> r[i] == InfoOf(os[i])
  {
    seq(|os|, i requires 0 <= i < |os| => InfoOf(os[i]))
  }

  /** The `for item in results['items']` loop of fetch_user_playlists. */
  method AppendPlaylists(playlists: seq<PlaylistInfo>, items: seq<PlaylistObject>) returns (r: seq<PlaylistInfo>)
    ensures r == playlists + Infos(items)
  {
    r := playlists;
    var j := 0;
    while j < |items|
      invariant 0 <= j <= |items|
      invariant r == playlists + Infos(items[..j])
    {
      assert Infos(items[..j + 1]) == Infos(items[..j]) + [InfoOf(items[j])];
      r := r + [InfoOf(items[j])];
      j := j + 1;
    }
    assert items[..j] == items;
  }

  /** One more full page: the page and request sequences go on at
      `offset + limit`. */
  lemma PageAdvance<T>(e: ListEndpoint<T>, limit: nat, offset: nat, done: seq<seq<T>>, offsets: seq<nat>)
    requires limit > 0 && offset <= |e.all|
    requires Pages(e, limit, 0) == done + Pages(e, limit, offset)
    requires Requested(e, limit, 0) == offsets + Requested(e, limit, offset)
    requires e.Page(limit, offset).Items? && |e.Page(limit, offset).items| >= limit
    ensures offset + limit <= |e.all|
    ensures Pages(e, limit, 0) == (done + [e.Page(limit, offset).items]) + Pages(e, limit, offset + limit)
    ensures Requested(e, limit, 0) == (offsets + [offset]) + Requested(e, limit, offset + limit)
  {
    assert Pages(e, limit, offset) == [e.Page(limit, offset).items] + Pages(e, limit, offset + limit);
  }

  /** A short page, an empty one, or a request that raised or had no
      items: the loop has seen all its pages and made all its requests. */
  lemma PageFinal<T>(e: ListEndpoint<T>, limit: nat, offset: nat, done: seq<seq<T>>, offsets: seq<nat>)
    requires limit > 0
    requires Pages(e, limit, 0) == done + Pages(e, limit, offset)
    requires Requested(e, limit, 0) == offsets + Requested(e, limit, offset)
    requires !(e.Page(limit, offset).Items? && |e.Page(limit, offset).items| >= limit)
    ensures Pages(e, limit, 0) == done + (if e.Page(limit, offset).Items? then [e.Page(limit, offset).items] else [])
    ensures Requested(e, limit, 0) == offsets + [offset]
  {
    if !e.Page(limit, offset).Items? {
      assert done + [] == done;
    }
  }

  lemma InfosConcat(a: seq<PlaylistObject>, b: seq<PlaylistObject>)
    ensures Infos(a + b) == Infos(a) + Infos(b)
  {
  }

  lemma InfosStep(playlists: seq<PlaylistInfo>, done: seq<seq<PlaylistObject>>, items: seq<PlaylistObject>)
    requires playlists == Infos(Flatten(done))
    ensures playlists + Infos(items) == Infos(Flatten(done + [items]))
  {
    FlattenAppend(done, items);
    InfosConcat(Flatten(done), items);
  }

  /** The loop state of fetch_user_playlists at `offset`: the pages `done`
      received so far and the offsets requested so far. */
  ghost predicate PlaylistsSoFar(e: ListEndpoint<PlaylistObject>, offset: nat, playlists: seq<PlaylistInfo>,
                                 done: seq<seq<PlaylistObject>>, offsets: seq<nat>)
  {
    offset <= |e.all| &&
    Pages(e, PlaylistPageSize, 0) == done + Pages(e, PlaylistPageSize, offset) &&
    Requested(e, PlaylistPageSize, 0) == offsets + Requested(e, PlaylistPageSize, offset) &&
    playlists == Infos(Flatten(done))
  }

  /** One round of the `while True` loop of fetch_user_playlists: request
      the page at `offset`, then stop or move on to the next offset. */
  method PlaylistsRound(e: ListEndpoint<PlaylistObject>, offset: nat, playlists: seq<PlaylistInfo>,
                        ghost done: seq<seq<PlaylistObject>>, ghost offsets: seq<nat>)
    returns (stop: bool, playlists': seq<PlaylistInfo>, ghost done': seq<seq<PlaylistObject>>, ghost offsets': seq<nat>)
    requires PlaylistsSoFar(e, offset, playlists, done, offsets)
    ensures stop ==> playlists' == Infos(Flatten(Pages(e, PlaylistPageSize, 0))) && offsets' == Requested(e, PlaylistPageSize, 0)
    ensures !stop ==> PlaylistsSoFar(e, offset + PlaylistPageSize, playlists', done', offsets')
  {
    var limit := PlaylistPageSize;
    var results := e.Page(limit, offset);
    offsets' := offsets + [offset];
    if !results.Items? || results.items == [] {
      // a request that raises, a response without items or an empty page
      PageFinal(e, limit, offset, done, offsets);
      if results.Items? {
        FlattenAppend(done, []);
        assert Flatten(done) + [] == Flatten(done);
        done' := done + [[]];
      } else {
        assert done + [] == done;
        done' := done;
      }
      return true, playlists, done', offsets';
    }
    var items := results.items;
    InfosStep(playlists, done, items);
    playlists' := AppendPlaylists(playlists, items);
    done' := done + [items];
    if |items| < limit {
      PageFinal(e, limit, offset, done, offsets);
      return true, playlists', done', offsets';
    }
    PageAdvance(e, limit, offset, done, offsets);
    stop := false;
  }

  /** fetch_user_playlists: the playlists of the pages of 50 received
      before the loop stopped, in order; `offsets` are the offsets requested. */
  method FetchUserPlaylists(e: ListEndpoint<PlaylistObject>) returns (playlists: seq<PlaylistInfo>, ghost offsets: seq<nat>)
    ensures playlists == Infos(Flatten(Pages(e, PlaylistPageSize, 0)))
    ensures offsets == Requested(e, PlaylistPageSize, 0)
  {
    playlists := [];
    var offset: nat := 0;
    offsets := [];
    ghost var done: seq<seq<PlaylistObject>> := [];
    while true
      invariant PlaylistsSoFar(e, offset, playlists, done, offsets)
      decreases |e.all| - offset
    {
      var stop;
      stop, playlists, done, offsets := PlaylistsRound(e, offset, playlists, done, offsets);
      if stop {
        return;
      }
      offset := offset + PlaylistPageSize;
    }
  }

  /** When no request goes wrong, every playlist is listed, in order, after
      |playlists| / 50 + 1 requests. */
  lemma AllPlaylists(e: ListEndpoint<PlaylistObject>)
    requires e.Healthy()
    ensures Infos(Flatten(Pages(e, PlaylistPageSize, 0))) == Infos(e.all)
    ensures |Requested(e, PlaylistPageSize, 0)| == |e.all| / PlaylistPageSize + 1
  {
    PagesComplete(e, PlaylistPageSize, 0);
    assert e.all[0..] == e.all;
    var c := |Requested(e, PlaylistPageSize, 0)|;
    assert (c - 1) * 50 <= |e.all| < c * 50;
  }

  // -------------------------------------------------------- track URIs

  /** Entries whose track is present. */
  predicate NullFree(items: seq<Item>) {
    forall i :: 0 <= i < |items| ==> items[i].track.Some?
  }

  /** The URIs of the entries that have a track, in order. */
  function PresentUris(items: seq<Item>): seq<string> {
    if items == [] then []
    else
      var last := items[|items| - 1];
      PresentUris(items[..|items| - 1]) + (if last.track.Some? then [last.track.value.uri] else [])
  }

  lemma {:induction false} PresentUrisConcat(a: seq<Item>, b: seq<Item>)
    ensures PresentUris(a + b) == PresentUris(a) + PresentUris(b)
    decreases |b|
  {
    if b == [] {
      assert a + b == a;
    } else {
      var init := b[..|b| - 1];
      assert (a + b)[..|a + b| - 1] == a + init;
      PresentUrisConcat(a, init);
    }
  }

  /** A present track contributes its URI, an absent one nothing. */
  lemma PresentUrisCount(items: seq<Item>)
    ensures |PresentUris(items)| == |set i | 0 <= i < |items| && items[i].track.Some?|
    ensures NullFree(items) ==> |PresentUris(items)| == |items|
    decreases |items|
  {
    if items != [] {
      var n := |items| - 1;
      var init := items[..n];
      PresentUrisCount(init);
      IndexSetStep(items);
    }
  }

  /** The positions with a track, one entry more. */
  lemma IndexSetStep(items: seq<Item>)
    requires items != []
    ensures var n := |items| - 1;
      |set i | 0 <= i < |items| && items[i].track.Some?| ==
      |set i | 0 <= i < n && items[..n][i].track.Some?| + (if items[n].track.Some? then 1 else 0)
  {
    var n := |items| - 1;
    var s := set i | 0 <= i < n && items[..n][i].track.Some?;
    var s' := set i | 0 <= i < |items| && items[i].track.Some?;
    if items[n].track.Some? {
      assert s' == s + {n};
    } else {
      assert s' == s;
    }
  }

  /** The URIs of the liked tracks up to the first entry without a track,
      where `item['track']['uri']` raises and the loop stops. */
  function UrisUntilNull(items: seq<Item>): seq<string> {
    if items == [] then []
    else if items[0].track.None? then []
    else [items[0].track.value.uri] + UrisUntilNull(items[1..])
  }

  lemma {:induction false} UntilNullConcat(a: seq<Item>, b: seq<Item>)
    ensures NullFree(a) ==> UrisUntilNull(a + b) == PresentUris(a) + UrisUntilNull(b)
    ensures !NullFree(a) ==> UrisUntilNull(a + b) == UrisUntilNull(a)
    decreases |a|
  {
    if a == [] {
      assert a + b == b;
    } else if a[0].track.None? {
    } else {
      assert (a + b)[1..] == a[1..] + b;
      UntilNullConcat(a[1..], b);
      PresentUrisHead(a);
      NullFreeTail(a);
    }
  }

  lemma PresentUrisHead(a: seq<Item>)
    requires a != [] && a[0].track.Some?
    ensures PresentUris(a) == [a[0].track.value.uri] + PresentUris(a[1..])
  {
    PresentUrisConcat([a[0]], a[1..]);
    assert [a[0]] + a[1..] == a;
    assert [a[0]][..0] == [];
  }

  lemma NullFreeTail(a: seq<Item>)
    requires a != [] && a[0].track.Some?
    ensures NullFree(a) <==> NullFree(a[1..])
  {
    if !NullFree(a[1..]) {
      var i :| 0 <= i < |a[1..]| && a[1..][i].track.None?;
      assert a[i + 1].track.None?;
    }
  }

  /** The `for item in results['items']` loop of fetch_liked_tracks;
      `stopped` tells that an entry without a track ended it. */
  method AppendLikedUris(tracks: seq<string>, items: seq<Item>) returns (r: seq<string>, stopped: bool)
    ensures r == tracks + UrisUntilNull(items)
    ensures stopped <==> !NullFree(items)
  {
    r := tracks;
    var j := 0;
    while j < |items|
      invariant 0 <= j <= |items|
      invariant NullFree(items[..j]) && r == tracks + PresentUris(items[..j])
    {
      if items[j].track.None? {
        // `item['track']['uri']` raises on a missing track
        UntilNullConcat(items[..j], items[j..]);
        assert items[..j] + items[j..] == items;
        stopped := true;
        return;
      }
      PresentUrisConcat(items[..j], [items[j]]);
      assert items[..j + 1] == items[..j] + [items[j]];
      assert PresentUris([items[j]]) == [items[j].track.value.uri] by {
        assert [items[j]][..0] == [];
      }
      r := r + [items[j].track.value.uri];
      j := j + 1;
    }
    assert items[..j] == items;
    UntilNullConcat(items, []);
    assert items + [] == items;
    stopped := false;
  }

  lemma NullFreeConcat(a: seq<Item>, b: seq<Item>)
    ensures NullFree(a + b) <==> NullFree(a) && NullFree(b)
  {
    if NullFree(a + b) {
      forall i | 0 <= i < |a| ensures a[i].track.Some? {
        assert (a + b)[i] == a[i];
      }
      forall i | 0 <= i < |b| ensures b[i].track.Some? {
        assert (a + b)[|a| + i] == b[i];
      }
    }
    if NullFree(a) && NullFree(b) {
      forall i | 0 <= i < |a + b| ensures (a + b)[i].track.Some? {
        if i >= |a| { assert (a + b)[i] == b[i - |a|]; }
      }
    }
  }

  lemma FlattenNullFree(ss: seq<seq<Item>>)
    ensures NullFree(Flatten(ss)) <==> forall k :: 0 <= k < |ss| ==> NullFree(ss[k])
    decreases |ss|
  {
    if ss != [] {
      FlattenNullFree(ss[..|ss| - 1]);
      NullFreeConcat(Flatten(ss[..|ss| - 1]), ss[|ss| - 1]);
      assert forall k :: 0 <= k < |ss| - 1 ==> ss[..|ss| - 1][k] == ss[k];
    }
  }

  lemma NullFreeUris(items: seq<Item>)
    requires NullFree(items)
    ensures UrisUntilNull(items) == PresentUris(items)
  {
    UntilNullConcat(items, []);
    assert items + [] == items;
  }

  /** One more page without missing tracks: the URIs collected are still
      those of all pages so far. */
  lemma LikedPage(done: seq<seq<Item>>, items: seq<Item>)
    requires NullFree(Flatten(done)) && NullFree(items)
    ensures NullFree(Flatten(done + [items]))
    ensures PresentUris(Flatten(done + [items])) == PresentUris(Flatten(done)) + UrisUntilNull(items)
    ensures UrisUntilNull(Flatten(done + [items])) == PresentUris(Flatten(done + [items]))
  {
    FlattenAppend(done, items);
    NullFreeConcat(Flatten(done), items);
    PresentUrisConcat(Flatten(done), items);
    NullFreeUris(items);
    NullFreeUris(Flatten(done + [items]));
  }

  /** The liked-tracks loop stopped inside the page at `offset`: what it
      collected is the answer up to the first entry without a track. */
  lemma LikedStop(e: ListEndpoint<Item>, limit: nat, offset: nat, done: seq<seq<Item>>, offsets: seq<nat>)
    requires limit > 0 && offset <= |e.all|
    requires Pages(e, limit, 0) == done + Pages(e, limit, offset)
    requires Requested(e, limit, 0) == offsets + Requested(e, limit, offset)
    requires NullFree(Flatten(done))
    requires e.Page(limit, offset).Items? && !NullFree(e.Page(limit, offset).items)
    ensures UrisUntilNull(Flatten(Pages(e, limit, 0))) == PresentUris(Flatten(done)) + UrisUntilNull(e.Page(limit, offset).items)
    ensures offsets + [offset] <= Requested(e, limit, 0)
    ensures !NullFree(Flatten(Pages(e, limit, 0)))
  {
    var items := e.Page(limit, offset).items;
    var rest := if |items| >= limit then Pages(e, limit, offset + limit) else [];
    assert Pages(e, limit, offset) == [items] + rest;
    assert Requested(e, limit, offset)[0] == offset;
    assert Pages(e, limit, 0) == done + ([items] + rest);
    FlattenConcat(done, [items] + rest);
    FlattenCons(items, rest);
    var f := Flatten(done);
    var tail := Flatten(rest);
    UntilNullConcat(f, items + tail);
    UntilNullConcat(items, tail);
    NullFreeConcat(items, tail);
    NullFreeConcat(f, items + tail);
  }

  /** The loop state of fetch_liked_tracks at `offset`. */
  ghost predicate LikedSoFar(e: ListEndpoint<Item>, offset: nat, tracks: seq<string>,
                             done: seq<seq<Item>>, offsets: seq<nat>)
  {
    offset <= |e.all| &&
    Pages(e, LikedPageSize, 0) == done + Pages(e, LikedPageSize, offset) &&
    Requested(e, LikedPageSize, 0) == offsets + Requested(e, LikedPageSize, offset) &&
    NullFree(Flatten(done)) && tracks == PresentUris(Flatten(done))
  }

  /** What fetch_liked_tracks returns and requests. */
  ghost predicate LikedResult(e: ListEndpoint<Item>, tracks: seq<string>, offsets: seq<nat>) {
    tracks == UrisUntilNull(Flatten(Pages(e, LikedPageSize, 0))) &&
    offsets <= Requested(e, LikedPageSize, 0) &&
    (NullFree(Flatten(Pages(e, LikedPageSize, 0))) ==> offsets == Requested(e, LikedPageSize, 0))
  }

  /** One round of the `while True` loop of fetch_liked_tracks. */
  method LikedRound(e: ListEndpoint<Item>, offset: nat, tracks: seq<string>,
                    ghost done: seq<seq<Item>>, ghost offsets: seq<nat>)
    returns (stop: bool, tracks': seq<string>, ghost done': seq<seq<Item>>, ghost offsets': seq<nat>)
    requires LikedSoFar(e, offset, tracks, done, offsets)
    ensures stop ==> LikedResult(e, tracks', offsets')
    ensures !stop ==> LikedSoFar(e, offset + LikedPageSize, tracks', done', offsets')
  {
    var limit := LikedPageSize;
    var results := e.Page(limit, offset);
    offsets' := offsets + [offset];
    if !results.Items? || results.items == [] {
      PageFinal(e, limit, offset, done, offsets);
      if results.Items? {
        LikedPage(done, []);
        done' := done + [[]];
      } else {
        assert done + [] == done;
        NullFreeUris(Flatten(done));
        done' := done;
      }
      return true, tracks, done', offsets';
    }
    var items := results.items;
    var stopped;
    tracks', stopped := AppendLikedUris(tracks, items);
    if stopped {
      // the TypeError is caught and ends the loop
      LikedStop(e, limit, offset, done, offsets);
      return true, tracks', done, offsets';
    }
    LikedPage(done, items);
    done' := done + [items];
    if |items| < limit {
      PageFinal(e, limit, offset, done, offsets);
      return true, tracks', done', offsets';
    }
    PageAdvance(e, limit, offset, done, offsets);
    stop := false;
  }

  /** fetch_liked_tracks: the URIs of the pages of 50 received before the
      loop stopped, up to the first entry without a track. The requests
      are the ones of the page loop, cut short after such an entry. */
  method FetchLikedTracks(e: ListEndpoint<Item>) returns (tracks: seq<string>, ghost offsets: seq<nat>)
    ensures tracks == UrisUntilNull(Flatten(Pages(e, LikedPageSize, 0)))
    ensures offsets <= Requested(e, LikedPageSize, 0)
    ensures NullFree(Flatten(Pages(e, LikedPageSize, 0))) ==> offsets == Requested(e, LikedPageSize, 0)
  {
    tracks := [];
    var offset: nat := 0;
    offsets := [];
    ghost var done: seq<seq<Item>> := [];
    while true
      invariant LikedSoFar(e, offset, tracks, done, offsets)
      decreases |e.all| - offset
    {
      var stop;
      stop, tracks, done, offsets := LikedRound(e, offset, tracks, done, offsets);
      if stop {
        return;
      }
      offset := offset + LikedPageSize;
    }
  }

  /** Without failures and entries without a track, every liked track is
      listed, in order. */
  lemma AllLikedTracks(e: ListEndpoint<Item>)
    requires e.Healthy() && NullFree(e.all)
    ensures UrisUntilNull(Flatten(Pages(e, LikedPageSize, 0))) == PresentUris(e.all)
  {
    PagesComplete(e, LikedPageSize, 0);
    assert e.all[0..] == e.all;
    UntilNullConcat(e.all, []);
    assert e.all + [] == e.all;
  }

  /** The `for item in results['items']` loop of get_playlist_track_uris. */
  method AppendPresentUris(tracks: seq<string>, items: seq<Item>) returns (r: seq<string>)
    ensures r == tracks + PresentUris(items)
  {
    r := tracks;
    var j := 0;
    while j < |items|
      invariant 0 <= j <= |items|
      invariant r == tracks + PresentUris(items[..j])
    {
      assert items[..j + 1][..j] == items[..j];
      if items[j].track.Some? {
        r := r + [items[j].track.value.uri];
      }
      j := j + 1;
    }
    assert items[..j] == items;
  }

  /** The URIs of one more page follow those of the pages before it. */
  lemma PresentPage(done: seq<seq<Item>>, items: seq<Item>)
    ensures PresentUris(Flatten(done + [items])) == PresentUris(Flatten(done)) + PresentUris(items)
    ensures items == [] ==> PresentUris(Flatten(done + [items])) == PresentUris(Flatten(done))
  {
    FlattenAppend(done, items);
    PresentUrisConcat(Flatten(done), items);
  }

  /** The loop state of get_playlist_track_uris at `offset`. */
  ghost predicate ItemsSoFar(e: ListEndpoint<Item>, offset: nat, tracks: seq<string>,
                             done: seq<seq<Item>>, offsets: seq<nat>)
  {
    offset <= |e.all| &&
    Pages(e, PlaylistItemsPageSize, 0) == done + Pages(e, PlaylistItemsPageSize, offset) &&
    Requested(e, PlaylistItemsPageSize, 0) == offsets + Requested(e, PlaylistItemsPageSize, offset) &&
    tracks == PresentUris(Flatten(done))
  }

  /** One round of the `while True` loop of get_playlist_track_uris. */
  method ItemsRound(e: ListEndpoint<Item>, offset: nat, tracks: seq<string>,
                    ghost done: seq<seq<Item>>, ghost offsets: seq<nat>)
    returns (stop: bool, tracks': seq<string>, ghost done': seq<seq<Item>>, ghost offsets': seq<nat>)
    requires ItemsSoFar(e, offset, tracks, done, offsets)
    ensures stop ==> tracks' == PresentUris(Flatten(Pages(e, PlaylistItemsPageSize, 0))) &&
                     offsets' == Requested(e, PlaylistItemsPageSize, 0)
    ensures !stop ==> ItemsSoFar(e, offset + PlaylistItemsPageSize, tracks', done', offsets')
  {
    var limit := PlaylistItemsPageSize;
    var results := e.Page(limit, offset);
    offsets' := offsets + [offset];
    if !results.Items? || results.items == [] {
      PageFinal(e, limit, offset, done, offsets);
      if results.Items? {
        PresentPage(done, []);
        done' := done + [[]];
      } else {
        assert done + [] == done;
        done' := done;
      }
      return true, tracks, done', offsets';
    }
    var items := results.items;
    PresentPage(done, items);
    tracks' := AppendPresentUris(tracks, items);
    done' := done + [items];
    if |items| < limit {
      PageFinal(e, limit, offset, done, offsets);
      return true, tracks', done', offsets';
    }
    PageAdvance(e, limit, offset, done, offsets);
    stop := false;
  }

  /** get_playlist_track_uris: the URIs of the entries with a track, from
      the pages of 100 received before the loop stopped. */
  method GetPlaylistTrackUris(e: ListEndpoint<Item>) returns (tracks: seq<string>, ghost offsets: seq<nat>)
    ensures tracks == PresentUris(Flatten(Pages(e, PlaylistItemsPageSize, 0)))
    ensures offsets == Requested(e, PlaylistItemsPageSize, 0)
  {
    tracks := [];
    var offset: nat := 0;
    offsets := [];
    ghost var done: seq<seq<Item>> := [];
    while true
      invariant ItemsSoFar(e, offset, tracks, done, offsets)
      decreases |e.all| - offset
    {
      var stop;
      stop, tracks, done, offsets := ItemsRound(e, offset, tracks, done, offsets);
      if stop {
        return;
      }
      offset := offset + PlaylistItemsPageSize;
    }
  }

  /** Without failures, the URIs of all entries with a track, in playlist order. */
  lemma AllPlaylistTrackUris(e: ListEndpoint<Item>)
    requires e.Healthy()
    ensures PresentUris(Flatten(Pages(e, PlaylistItemsPageSize, 0))) == PresentUris(e.all)
  {
    PagesComplete(e, PlaylistItemsPageSize, 0);
    assert e.all[0..] == e.all;
  }

  // ------------------------------------------------ tracks with genres

  /** The ids of a track's artists. */
  function ArtistIds(artists: seq<ArtistRef>): set<string> {
    if artists == [] then {} else ArtistIds(artists[..|artists| - 1]) + {artists[|artists| - 1].id}
  }

  /** The ids of the artists of a page's entries that have a track. */
  function PageArtistIds(items: seq<Item>): set<string> {
    if items == [] then {}
    else
      var last := items[|items| - 1];
      PageArtistIds(items[..|items| - 1]) + (if last.track.Some? then ArtistIds(last.track.value.artists) else {})
  }

  /** The first loop over `results['items']`: `artist_ids.add(artist['id'])`
      for every artist of every entry with a track. */
  method CollectArtistIds(items: seq<Item>) returns (ids: set<string>)
    ensures ids == PageArtistIds(items)
  {
    ids := {};
    var j := 0;
    while j < |items|
      invariant 0 <= j <= |items|
      invariant ids == PageArtistIds(items[..j])
    {
      assert items[..j + 1][..j] == items[..j];
      if items[j].track.Some? {
        var artists := items[j].track.value.artists;
        var k := 0;
        while k < |artists|
          invariant 0 <= k <= |artists|
          invariant ids == PageArtistIds(items[..j]) + ArtistIds(artists[..k])
        {
          assert artists[..k + 1][..k] == artists[..k];
          ids := ids + {artists[k].id};
          k := k + 1;
        }
        assert artists[..k] == artists;
      }
      j := j + 1;
    }
    assert items[..j] == items;
  }

  /** `artist_genres.get(artist['id'], [])` over a track's artists, concatenated. */
  function GenreList(artists: seq<ArtistRef>, gm: map<string, seq<string>>): seq<string> {
    if artists == [] then []
    else
      var last := artists[|artists| - 1];
      GenreList(artists[..|artists| - 1], gm) + (if last.id in gm then gm[last.id] else [])
  }

  /** A genre is listed for a track exactly when one of its artists has it. */
  lemma {:induction false} GenreListElems(artists: seq<ArtistRef>, gm: map<string, seq<string>>, g: string)
    ensures g in GenreList(artists, gm) <==>
      exists i :: 0 <= i < |artists| && artists[i].id in gm && g in gm[artists[i].id]
    decreases |artists|
  {
    if artists != [] {
      var n := |artists| - 1;
      GenreListElems(artists[..n], gm, g);
      if exists i :: 0 <= i < |artists| && artists[i].id in gm && g in gm[artists[i].id] {
        var i :| 0 <= i < |artists| && artists[i].id in gm && g in gm[artists[i].id];
        if i < n {
          assert artists[..n][i] == artists[i];
        }
      }
      if exists i :: 0 <= i < n && artists[..n][i].id in gm && g in gm[artists[..n][i].id] {
        var i :| 0 <= i < n && artists[..n][i].id in gm && g in gm[artists[..n][i].id];
        assert artists[i] == artists[..n][i];
      }
    }
  }

  /** The genre loop of a track: `track_genres.update(...)`, then
      `sorted(list(track_genres))`. */
  method TrackGenres(artists: seq<ArtistRef>, gm: map<string, seq<string>>) returns (genres: seq<string>)
    ensures genres == SortedUnique(GenreList(artists, gm))
  {
    var trackGenres: set<string> := {};
    var k := 0;
    while k < |artists|
      invariant 0 <= k <= |artists|
      invariant trackGenres == Elems(GenreList(artists[..k], gm))
    {
      assert artists[..k + 1][..k] == artists[..k];
      var found := if artists[k].id in gm then gm[artists[k].id] else [];
      ElemsConcat(GenreList(artists[..k], gm), found);
      trackGenres := trackGenres + Elems(found);
      k := k + 1;
    }
    assert artists[..k] == artists;
    genres := SortedList(trackGenres);
    SortedUniqueSound(GenreList(artists, gm));
    StrictlySortedUnique(genres, SortedUnique(GenreList(artists, gm)));
  }

  /** Each track's genres are sorted, without repeats, and are exactly the
      genres the map holds for its artists; artists missing from the map
      contribute nothing. */
  lemma GenreMerge(artists: seq<ArtistRef>, gm: map<string, seq<string>>)
    ensures StrictlySorted(SortedUnique(GenreList(artists, gm)))
    ensures forall g :: g in SortedUnique(GenreList(artists, gm)) <==>
      exists i :: 0 <= i < |artists| && artists[i].id in gm && g in gm[artists[i].id]
  {
    SortedUniqueSound(GenreList(artists, gm));
    forall g ensures g in SortedUnique(GenreList(artists, gm)) <==>
      exists i :: 0 <= i < |artists| && artists[i].id in gm && g in gm[artists[i].id]
    {
      GenreListElems(artists, gm, g);
      assert g in SortedUnique(GenreList(artists, gm)) <==> g in Elems(SortedUnique(GenreList(artists, gm)));
      assert g in GenreList(artists, gm) <==> g in Elems(GenreList(artists, gm));
    }
  }

  /** The record built for an entry with a track. */
  function TrackRecord(item: Item, gm: map<string, seq<string>>): TrackMetadata
    requires item.track.Some?
  {
    TrackMetadata(item.track.value.uri, item.addedAt, item.track.value, SortedUnique(GenreList(item.track.value.artists, gm)))
  }

  /** The records of a page: one per entry with a track, in order. */
  function PageTracks(items: seq<Item>, gm: map<string, seq<string>>): seq<TrackMetadata> {
    if items == [] then []
    else
      var last := items[|items| - 1];
      PageTracks(items[..|items| - 1], gm) + (if last.track.Some? then [TrackRecord(last, gm)] else [])
  }

  /** The second loop over `results['items']`. */
  method AppendPageTracks(tracks: seq<TrackMetadata>, items: seq<Item>, gm: map<string, seq<string>>)
    returns (r: seq<TrackMetadata>)
    ensures r == tracks + PageTracks(items, gm)
  {
    r := tracks;
    var j := 0;
    while j < |items|
      invariant 0 <= j <= |items|
      invariant r == tracks + PageTracks(items[..j], gm)
    {
      assert items[..j + 1][..j] == items[..j];
      if items[j].track.Some? {
        var t := items[j].track.value;
        var genres := TrackGenres(t.artists, gm);
        r := r + [TrackMetadata(t.uri, items[j].addedAt, t, genres)];
      }
      j := j + 1;
    }
    assert items[..j] == items;
  }

  /** The records of all pages, page `k`'s genres coming from one call of
      fetch_artist_genres on `enums[k]`. */
  function MetaTracks(pages: seq<seq<Item>>, enums: seq<seq<string>>, lookup: seq<string> -> BatchResponse<ArtistObject>): seq<TrackMetadata>
    requires |enums| == |pages|
  {
    if pages == [] then []
    else
      var n := |pages| - 1;
      MetaTracks(pages[..n], enums[..n], lookup) + PageTracks(pages[n], ArtistGenres(enums[n], lookup))
  }

  lemma MetaPage(done: seq<seq<Item>>, enums: seq<seq<string>>, items: seq<Item>, ids: seq<string>,
                 lookup: seq<string> -> BatchResponse<ArtistObject>)
    requires |enums| == |done|
    ensures MetaTracks(done + [items], enums + [ids], lookup) ==
      MetaTracks(done, enums, lookup) + PageTracks(items, ArtistGenres(ids, lookup))
  {
    assert (done + [items])[..|done|] == done;
    assert (enums + [ids])[..|enums|] == enums;
  }

  lemma EnumeratesPages(done: seq<seq<Item>>, enums: seq<seq<string>>, items: seq<Item>, ids: seq<string>)
    requires |enums| == |done|
    requires forall k :: 0 <= k < |enums| ==> Enumerates(enums[k], PageArtistIds(done[k]))
    requires Enumerates(ids, PageArtistIds(items))
    ensures forall k :: 0 <= k < |enums| + 1 ==> Enumerates((enums + [ids])[k], PageArtistIds((done + [items])[k]))
  {
    forall k | 0 <= k < |enums| + 1
      ensures Enumerates((enums + [ids])[k], PageArtistIds((done + [items])[k]))
    {
      if k < |enums| {
        assert (enums + [ids])[k] == enums[k] && (done + [items])[k] == done[k];
      }
    }
  }

  /** The loop state of fetch_playlist_tracks_with_metadata at `offset`. */
  ghost predicate MetaSoFar(e: ListEndpoint<Item>, lookup: seq<string> -> BatchResponse<ArtistObject>, offset: nat,
                            tracks: seq<TrackMetadata>, done: seq<seq<Item>>, enums: seq<seq<string>>, offsets: seq<nat>)
  {
    offset <= |e.all| &&
    Pages(e, PlaylistItemsPageSize, 0) == done + Pages(e, PlaylistItemsPageSize, offset) &&
    Requested(e, PlaylistItemsPageSize, 0) == offsets + Requested(e, PlaylistItemsPageSize, offset) &&
    |enums| == |done| &&
    (forall k :: 0 <= k < |enums| ==> Enumerates(enums[k], PageArtistIds(done[k]))) &&
    tracks == MetaTracks(done, enums, lookup)
  }

  /** What fetch_playlist_tracks_with_metadata returns and requests. */
  ghost predicate MetaResult(e: ListEndpoint<Item>, lookup: seq<string> -> BatchResponse<ArtistObject>,
                             tracks: seq<TrackMetadata>, enums: seq<seq<string>>, offsets: seq<nat>)
  {
    |enums| == |Pages(e, PlaylistItemsPageSize, 0)| &&
    (forall k :: 0 <= k < |enums| ==> Enumerates(enums[k], PageArtistIds(Pages(e, PlaylistItemsPageSize, 0)[k]))) &&
    tracks == MetaTracks(Pages(e, PlaylistItemsPageSize, 0), enums, lookup) &&
    offsets == Requested(e, PlaylistItemsPageSize, 0)
  }

  /** One round of the `while True` loop of fetch_playlist_tracks_with_metadata. */
  method MetaRound(e: ListEndpoint<Item>, lookup: seq<string> -> BatchResponse<ArtistObject>, offset: nat,
                   tracks: seq<TrackMetadata>, ghost done: seq<seq<Item>>, ghost enums: seq<seq<string>>, ghost offsets: seq<nat>)
    returns (stop: bool, tracks': seq<TrackMetadata>, ghost done': seq<seq<Item>>, ghost enums': seq<seq<string>>,
             ghost offsets': seq<nat>)
    requires MetaSoFar(e, lookup, offset, tracks, done, enums, offsets)
    ensures stop ==> MetaResult(e, lookup, tracks', enums', offsets')
    ensures !stop ==> MetaSoFar(e, lookup, offset + PlaylistItemsPageSize, tracks', done', enums', offsets')
  {
    var limit := PlaylistItemsPageSize;
    var results := e.Page(limit, offset);
    offsets' := offsets + [offset];
    if !results.Items? {
      // `if not results or 'items' not in results: break`, or a raise
      PageFinal(e, limit, offset, done, offsets);
      assert done + [] == done;
      return true, tracks, done, enums, offsets';
    }
    var items := results.items;
    var artistIds := CollectArtistIds(items);
    var idList := ListOf(artistIds);
    var artistGenres, _ := FetchArtistGenres(idList, lookup);
    tracks' := AppendPageTracks(tracks, items, artistGenres);
    MetaPage(done, enums, items, idList, lookup);
    EnumeratesPages(done, enums, items, idList);
    done' := done + [items];
    enums' := enums + [idList];
    if |items| < limit {
      PageFinal(e, limit, offset, done, offsets);
      return true, tracks', done', enums', offsets';
    }
    PageAdvance(e, limit, offset, done, offsets);
    stop := false;
  }

  /** fetch_playlist_tracks_with_metadata: for each page of 100 received,
      one genre lookup on the page's artist ids, listed in the order
      `list(set)` gives (`enums[k]` for page `k`), then one record per entry
      with a track. */
  method FetchPlaylistTracksWithMetadata(e: ListEndpoint<Item>, artistLookup: seq<string> -> BatchResponse<ArtistObject>)
    returns (tracks: seq<TrackMetadata>, ghost enums: seq<seq<string>>, ghost offsets: seq<nat>)
    ensures |enums| == |Pages(e, PlaylistItemsPageSize, 0)|
    ensures forall k :: 0 <= k < |enums| ==> Enumerates(enums[k], PageArtistIds(Pages(e, PlaylistItemsPageSize, 0)[k]))
    ensures tracks == MetaTracks(Pages(e, PlaylistItemsPageSize, 0), enums, artistLookup)
    ensures offsets == Requested(e, PlaylistItemsPageSize, 0)
  {
    tracks := [];
    var offset: nat := 0;
    offsets := [];
    enums := [];
    ghost var done: seq<seq<Item>> := [];
    while true
      invariant MetaSoFar(e, artistLookup, offset, tracks, done, enums, offsets)
      decreases |e.all| - offset
    {
      var stop;
      stop, tracks, done, enums, offsets := MetaRound(e, artistLookup, offset, tracks, done, enums, offsets);
      if stop {
        return;
      }
      offset := offset + PlaylistItemsPageSize;
    }
  }

  // ------------------------------------- tracks with genres, properties

  function TrackUris(ts: seq<TrackMetadata>): (r: seq<string>)
    ensures |r| == |ts| && forall i :: 0 <= i < |ts| ==> r[i] == ts[i].uri
  {
    seq(|ts|, i requires 0 <= i < |ts| => ts[i].uri)
  }

  lemma {:induction false} PageTracksUris(items: seq<Item>, gm: map<string, seq<string>>)
    ensures TrackUris(PageTracks(items, gm)) == PresentUris(items)
    decreases |items|
  {
    if items != [] {
      PageTracksUris(items[..|items| - 1], gm);
    }
  }

  /** The records come one per entry with a track, in playlist order, with
      that entry's URI: the URIs get_playlist_track_uris lists for the same
      pages, whatever the genre lookups did. */
  lemma {:induction false} MetaTracksUris(pages: seq<seq<Item>>, enums: seq<seq<string>>, lookup: seq<string> -> BatchResponse<ArtistObject>)
    requires |enums| == |pages|
    ensures TrackUris(MetaTracks(pages, enums, lookup)) == PresentUris(Flatten(pages))
    decreases |pages|
  {
    if pages != [] {
      var n := |pages| - 1;
      MetaTracksUris(pages[..n], enums[..n], lookup);
      PageTracksUris(pages[n], ArtistGenres(enums[n], lookup));
      PresentUrisConcat(Flatten(pages[..n]), pages[n]);
      var a := MetaTracks(pages[..n], enums[..n], lookup);
      var b := PageTracks(pages[n], ArtistGenres(enums[n], lookup));
      assert TrackUris(a + b) == TrackUris(a) + TrackUris(b);
    }
  }

  /** A genre service that answers every batch from `catalog`. */
  ghost predicate AnswersFrom(lookup: seq<string> -> BatchResponse<ArtistObject>, catalog: map<string, ArtistObject>) {
    forall b :: lookup(b) == Results(CatalogAnswer(catalog, b))
  }

  /** With such a service, one page's genre map is the catalogue's genres of
      the page's artists, whichever order `list(set)` produced. */
  lemma PageGenres(ids: seq<string>, s: set<string>, lookup: seq<string> -> BatchResponse<ArtistObject>, catalog: map<string, ArtistObject>)
    requires Consistent(catalog) && AnswersFrom(lookup, catalog) && Enumerates(ids, s)
    ensures ArtistGenres(ids, lookup) == Known(catalog, s)
  {
    var cs := Chunks(ids, ArtistBatchSize);
    assert forall k :: 0 <= k < |cs| ==> lookup(cs[k]) == Results(CatalogAnswer(catalog, cs[k]));
    ArtistGenresCatalog(ids, lookup, catalog);
    AllAnswered(ids, lookup);
  }

  /** Every artist of a track is among its artist ids. */
  lemma {:induction false} ArtistIdsHas(artists: seq<ArtistRef>, j: nat)
    requires j < |artists|
    ensures artists[j].id in ArtistIds(artists)
    decreases |artists|
  {
    if j < |artists| - 1 {
      assert artists[..|artists| - 1][j] == artists[j];
      ArtistIdsHas(artists[..|artists| - 1], j);
    }
  }

  /** The artist ids a page collects include those of each of its tracks. */
  lemma {:induction false} PageArtistIdsCover(items: seq<Item>, i: nat)
    requires i < |items| && items[i].track.Some?
    ensures ArtistIds(items[i].track.value.artists) <= PageArtistIds(items)
    decreases |items|
  {
    if i < |items| - 1 {
      assert items[..|items| - 1][i] == items[i];
      PageArtistIdsCover(items[..|items| - 1], i);
    }
  }

  /** Every entry with a track has its record among the page's records. */
  lemma {:induction false} PageTracksHas(items: seq<Item>, gm: map<string, seq<string>>, i: nat)
    requires i < |items| && items[i].track.Some?
    ensures TrackRecord(items[i], gm) in PageTracks(items, gm)
    decreases |items|
  {
    if i < |items| - 1 {
      assert items[..|items| - 1][i] == items[i];
      PageTracksHas(items[..|items| - 1], gm, i);
    }
  }

  /** With a service answering from a catalogue, the record of each entry
      with a track is on its page, and its genres are sorted, without
      repeats, and exactly the catalogue's genres of the track's artists. */
  lemma PageRecordGenres(items: seq<Item>, ids: seq<string>, lookup: seq<string> -> BatchResponse<ArtistObject>,
                         catalog: map<string, ArtistObject>, i: nat)
    requires Consistent(catalog) && AnswersFrom(lookup, catalog) && Enumerates(ids, PageArtistIds(items))
    requires i < |items| && items[i].track.Some?
    ensures TrackRecord(items[i], ArtistGenres(ids, lookup)) in PageTracks(items, ArtistGenres(ids, lookup))
    ensures StrictlySorted(TrackRecord(items[i], ArtistGenres(ids, lookup)).genres)
    ensures forall g :: g in TrackRecord(items[i], ArtistGenres(ids, lookup)).genres <==>
      exists j :: 0 <= j < |items[i].track.value.artists| && items[i].track.value.artists[j].id in catalog &&
        g in GenresOf(catalog[items[i].track.value.artists[j].id])
  {
    var artists := items[i].track.value.artists;
    var gm := ArtistGenres(ids, lookup);
    PageGenres(ids, PageArtistIds(items), lookup, catalog);
    PageTracksHas(items, gm, i);
    GenreMerge(artists, gm);
    PageArtistIdsCover(items, i);
    forall j | 0 <= j < |artists|
      ensures (artists[j].id in gm <==> artists[j].id in catalog)
      ensures artists[j].id in gm ==> gm[artists[j].id] == GenresOf(catalog[artists[j].id])
    {
      ArtistIdsHas(artists, j);
    }
  }

  /** With a service that answers every batch, the records do not depend on
      the iteration order of the artist-id sets. */
  lemma {:induction false} MetaTracksOrderFree(pages: seq<seq<Item>>, enums: seq<seq<string>>, enums': seq<seq<string>>,
                                             lookup: seq<string> -> BatchResponse<ArtistObject>, catalog: map<string, ArtistObject>)
    requires Consistent(catalog) && AnswersFrom(lookup, catalog)
    requires |enums| == |pages| && |enums'| == |pages|
    requires forall k :: 0 <= k < |pages| ==> Enumerates(enums[k], PageArtistIds(pages[k]))
    requires forall k :: 0 <= k < |pages| ==> Enumerates(enums'[k], PageArtistIds(pages[k]))
    ensures MetaTracks(pages, enums, lookup) == MetaTracks(pages, enums', lookup)
    decreases |pages|
  {
    if pages != [] {
      var n := |pages| - 1;
      MetaTracksOrderFree(pages[..n], enums[..n], enums'[..n], lookup, catalog);
      PageGenres(enums[n], PageArtistIds(pages[n]), lookup, catalog);
      PageGenres(enums'[n], PageArtistIds(pages[n]), lookup, catalog);
    }
  }

  /** The artist ids of a page with tracks by [A] and [A, B]. */
  lemma PopRockIds(t1: Track, t2: Track, added1: string, added2: string)
    requires |t1.artists| == 1 && t1.artists[0].id == "A"
    requires |t2.artists| == 2 && t2.artists[0].id == "A" && t2.artists[1].id == "B"
    ensures PageArtistIds([Item(added1, Some(t1)), Item(added2, Some(t2))]) == {"A", "B"}
  {
    var items := [Item(added1, Some(t1)), Item(added2, Some(t2))];
    assert items[..1] == [items[0]] && [items[0]][..0] == [];
    assert t1.artists[..0] == [];
    assert ArtistIds(t1.artists) == {"A"};
    assert t2.artists[..1][..0] == [];
    assert ArtistIds(t2.artists[..1]) == {"A"};
    assert ArtistIds(t2.artists) == {"A", "B"};
    assert PageArtistIds([items[0]]) == PageArtistIds([]) + ArtistIds(t1.artists);
    assert PageArtistIds(items) == PageArtistIds([items[0]]) + ArtistIds(t2.artists);
  }

  /** A page of two tracks by artists [A] and [A, B], where A has the genre
      "pop" and B "rock": the tracks get ["pop"] and ["pop", "rock"]. */
  lemma PopRockPage(t1: Track, t2: Track, added1: string, added2: string, ids: seq<string>,
                    lookup: seq<string> -> BatchResponse<ArtistObject>)
    requires |t1.artists| == 1 && t1.artists[0].id == "A"
    requires |t2.artists| == 2 && t2.artists[0].id == "A" && t2.artists[1].id == "B"
    requires AnswersFrom(lookup, map["A" := ArtistObject("A", Some(["pop"])), "B" := ArtistObject("B", Some(["rock"]))])
    requires Enumerates(ids, PageArtistIds([Item(added1, Some(t1)), Item(added2, Some(t2))]))
    ensures var ts := PageTracks([Item(added1, Some(t1)), Item(added2, Some(t2))], ArtistGenres(ids, lookup));
      |ts| == 2 && ts[0].genres == ["pop"] && ts[1].genres == ["pop", "rock"]
  {
    var catalog := map["A" := ArtistObject("A", Some(["pop"])), "B" := ArtistObject("B", Some(["rock"]))];
    var items := [Item(added1, Some(t1)), Item(added2, Some(t2))];
    PopRockIds(t1, t2, added1, added2);
    PageGenres(ids, {"A", "B"}, lookup, catalog);
    var gm := Known(catalog, {"A", "B"});
    assert gm == map["A" := ["pop"], "B" := ["rock"]];
    PopRockGenres(t1, t2, gm);
    assert items[..1] == [items[0]] && [items[0]][..0] == [];
    assert PageTracks([items[0]], gm) == [TrackRecord(items[0], gm)];
    assert PageTracks(items, gm) == PageTracks([items[0]], gm) + [TrackRecord(items[1], gm)];
  }

  lemma PopRockGenres(t1: Track, t2: Track, gm: map<string, seq<string>>)
    requires |t1.artists| == 1 && t1.artists[0].id == "A"
    requires |t2.artists| == 2 && t2.artists[0].id == "A" && t2.artists[1].id == "B"
    requires gm == map["A" := ["pop"], "B" := ["rock"]]
    ensures SortedUnique(GenreList(t1.artists, gm)) == ["pop"]
    ensures SortedUnique(GenreList(t2.artists, gm)) == ["pop", "rock"]
  {
    assert t1.artists[..0] == [] && t2.artists[..1][..0] == [];
    assert GenreList(t1.artists, gm) == ["pop"];
    assert GenreList(t2.artists[..1], gm) == ["pop"];
    assert GenreList(t2.artists, gm) == ["pop", "rock"];
    assert ["pop"][..0] == [];
    assert SortedUnique(["pop"]) == ["pop"];
    assert ["pop", "rock"][..1] == ["pop"];
    assert StrLess("pop", "rock");
    assert Insert(["pop"], "rock") == ["pop", "rock"];
  }
}
