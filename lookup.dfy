/** The two batched lookups of core.py: audio features for track URIs
    (batches of 100, core.py:216-257) and genres for artist ids (batches of
    50, core.py:259-291). Feature records are kept opaque (type `F`). */
module Lookup {
  import opened Common
  import opened Service

  // ---------------------------------------------------------- track ids

  /** `uri.split(':')[-1]`: the longest suffix without a colon. */
  function StripId(uri: string): (id: string)
    ensures ':' !in id
    ensures |id| <= |uri| && uri[|uri| - |id|..] == id
    ensures |id| < |uri| ==> uri[|uri| - |id| - 1] == ':'
    decreases |uri|
  {
    if uri == [] then []
    else if uri[|uri| - 1] == ':' then []
    else
      var init := uri[..|uri| - 1];
      var r := StripId(init);
      assert uri[|uri| - |r| - 1..] == init[|init| - |r|..] + [uri[|uri| - 1]];
      r + [uri[|uri| - 1]]
  }

  /** `"spotify:track:X"`, or anything else ending in `":X"`, gives `X`. */
  lemma {:induction false} StripIdOfUri(prefix: string, x: string)
    requires ':' !in x
    ensures StripId(prefix + [':'] + x) == x
    decreases |x|
  {
    var u := prefix + [':'] + x;
    if x == [] {
      assert u[|u| - 1] == ':';
    } else {
      var x' := x[..|x| - 1];
      assert u[..|u| - 1] == prefix + [':'] + x';
      StripIdOfUri(prefix, x');
      assert x == x' + [x[|x| - 1]];
    }
  }

  /** `[uri.split(':')[-1] for uri in batch]`. */
  function StripIds(batch: seq<string>): (ids: seq<string>)
    ensures |ids| == |batch|
    ensures forall i :: 0 <= i < |batch| ==> ids[i] == StripId(batch[i])
  {
    seq(|batch|, i requires 0 <= i < |batch| => StripId(batch[i]))
  }

  // ------------------------------------------------------ audio features

  /** `for uri, feature in zip(batch, results): if feature: features[uri] = feature`,
      after the first `n` pairs. */
  function ZipStore<F>(acc: map<string, F>, batch: seq<string>, results: seq<Option<F>>, n: nat): map<string, F>
    requires n <= |batch| && n <= |results|
  {
    if n == 0 then acc
    else
      var m := ZipStore(acc, batch, results, n - 1);
      if results[n - 1].Some? then m[batch[n - 1] := results[n - 1].value] else m
  }

  /** What fetch_audio_features does with the URIs in `rest` once it has
      collected `acc`: one lookup per slice of at most 100, request order
      kept; a raising lookup aborts the whole call. */
  function AudioFrom<F>(rest: seq<string>, lookup: seq<string> -> BatchResponse<F>, acc: map<string, F>): Outcome<map<string, F>>
    decreases |rest|
  {
    if rest == [] then Returned(acc)
    else
      var batch := rest[..Min(AudioBatchSize, |rest|)];
      match lookup(StripIds(batch))
      case BatchRaised => Raised
      case NoResults => AudioFrom(rest[|batch|..], lookup, acc)
      case Results(rs) => AudioFrom(rest[|batch|..], lookup, ZipStore(acc, batch, rs, Min(|batch|, |rs|)))
  }

  function AudioFeatures<F>(uris: seq<string>, lookup: seq<string> -> BatchResponse<F>): Outcome<map<string, F>> {
    AudioFrom(uris, lookup, map[])
  }

  /** `for uri, feature in zip(batch, results): if feature: features[uri] = feature`. */
  method StoreFeatures<F>(features: map<string, F>, batch: seq<string>, results: seq<Option<F>>)
    returns (r: map<string, F>)
    ensures r == ZipStore(features, batch, results, Min(|batch|, |results|))
  {
    var n := Min(|batch|, |results|);
    r := features;
    var j := 0;
    while j < n
      invariant 0 <= j <= n
      invariant r == ZipStore(features, batch, results, j)
    {
      if results[j].Some? {
        r := r[batch[j] := results[j].value];
      }
      j := j + 1;
    }
  }

  /** The batches of ids handed to the service for the given URI slices. */
  function IdBatches(cs: seq<seq<string>>): (r: seq<seq<string>>)
    ensures |r| == |cs|
    ensures forall k :: 0 <= k < |cs| ==> r[k] == StripIds(cs[k])
  {
    seq(|cs|, k requires 0 <= k < |cs| => StripIds(cs[k]))
  }

  /** The bookkeeping of one round: the batch joins those already sent. */
  lemma BatchesAdvance(s: seq<string>, i: nat, done: seq<seq<string>>, batch: seq<string>)
    requires i < |s| && batch == s[i..Min(i + AudioBatchSize, |s|)]
    requires Chunks(s[i..], AudioBatchSize) == [batch] + Chunks(s[i + |batch|..], AudioBatchSize)
    requires Chunks(s, AudioBatchSize) == done + Chunks(s[i..], AudioBatchSize)
    ensures IdBatches(done + [batch]) == IdBatches(done) + [StripIds(batch)]
    ensures Chunks(s, AudioBatchSize) == (done + [batch]) + Chunks(s[i + |batch|..], AudioBatchSize)
    ensures done + [batch] == Chunks(s, AudioBatchSize)[..|done| + 1]
  {
    assert done + ([batch] + Chunks(s[i + |batch|..], AudioBatchSize)) == (done + [batch]) + Chunks(s[i + |batch|..], AudioBatchSize);
  }

  /** One round of the loop of fetch_audio_features, at position `i`. */
  lemma AudioStep<F>(s: seq<string>, i: nat, lookup: seq<string> -> BatchResponse<F>, acc: map<string, F>)
    requires i < |s|
    ensures var batch := s[i..Min(i + AudioBatchSize, |s|)];
      && Chunks(s[i..], AudioBatchSize) == [batch] + Chunks(s[i + |batch|..], AudioBatchSize)
      && AudioFrom(s[i..], lookup, acc) ==
        match lookup(StripIds(batch))
        case BatchRaised => Raised
        case NoResults => AudioFrom(s[i + |batch|..], lookup, acc)
        case Results(rs) => AudioFrom(s[i + |batch|..], lookup, ZipStore(acc, batch, rs, Min(|batch|, |rs|)))
  {
    var batch := s[i..Min(i + AudioBatchSize, |s|)];
    assert s[i..][..Min(AudioBatchSize, |s| - i)] == batch;
    assert s[i..][|batch|..] == s[i + |batch|..];
  }

  /** The loop state of fetch_audio_features after the URIs before `i`:
      `done` are the slices handled and `sent` the id batches sent. */
  ghost predicate AudioSoFar<F>(trackUris: seq<string>, lookup: seq<string> -> BatchResponse<F>, i: nat,
                                features: map<string, F>, done: seq<seq<string>>, sent: seq<seq<string>>)
  {
    i <= |trackUris| &&
    AudioFeatures(trackUris, lookup) == AudioFrom(trackUris[i..], lookup, features) &&
    Chunks(trackUris, AudioBatchSize) == done + Chunks(trackUris[i..], AudioBatchSize) &&
    sent == IdBatches(done) && done == Chunks(trackUris, AudioBatchSize)[..|done|]
  }

  /** One round of the loop of fetch_audio_features: the slice at `i` is
      sent; either it raised, or the loop goes on after it. */
  method AudioRound<F>(trackUris: seq<string>, lookup: seq<string> -> BatchResponse<F>, i: nat,
                       features: map<string, F>, ghost done: seq<seq<string>>, ghost sent: seq<seq<string>>)
    returns (raised: bool, i': nat, features': map<string, F>, ghost done': seq<seq<string>>, ghost sent': seq<seq<string>>)
    requires i < |trackUris| && AudioSoFar(trackUris, lookup, i, features, done, sent)
    ensures |done'| == |done| + 1 && done' == Chunks(trackUris, AudioBatchSize)[..|done'|]
    ensures sent' == IdBatches(done')
    ensures raised ==> AudioFeatures(trackUris, lookup) == Raised
    ensures !raised ==> i < i' && AudioSoFar(trackUris, lookup, i', features', done', sent')
  {
    var batch := trackUris[i..Min(i + AudioBatchSize, |trackUris|)];
    AudioStep(trackUris, i, lookup, features);
    var trackIds := StripIds(batch);
    BatchesAdvance(trackUris, i, done, batch);
    sent' := sent + [trackIds];
    done' := done + [batch];
    i' := i + |batch|;
    var results := lookup(trackIds);
    if results.BatchRaised? {
      // the batch's exception is logged and re-raised
      return true, i', features, done', sent';
    }
    if results.NoResults? || results.results == [] {
      // `if not results: continue`
      return false, i', features, done', sent';
    }
    features' := StoreFeatures(features, batch, results.results);
    raised := false;
  }

  /** fetch_audio_features. `sent` is the list of id batches handed to the
      service, in order: the batches of the input, up to the one that raised. */
  method FetchAudioFeatures<F>(trackUris: seq<string>, lookup: seq<string> -> BatchResponse<F>)
    returns (r: Outcome<map<string, F>>, ghost sent: seq<seq<string>>)
    ensures r == AudioFeatures(trackUris, lookup)
    ensures |sent| <= |Chunks(trackUris, AudioBatchSize)|
    ensures sent == IdBatches(Chunks(trackUris, AudioBatchSize)[..|sent|])
    ensures r.Returned? ==> |sent| == |Chunks(trackUris, AudioBatchSize)|
  {
    var features: map<string, F> := map[];
    var i := 0;
    sent := [];
    ghost var done: seq<seq<string>> := [];
    while i < |trackUris|
      invariant AudioSoFar(trackUris, lookup, i, features, done, sent)
      decreases |trackUris| - i
    {
      var raised;
      raised, i, features, done, sent := AudioRound(trackUris, lookup, i, features, done, sent);
      if raised {
        r := Raised;
        return;
      }
    }
    assert trackUris[i..] == [];
    assert done + [] == done;
    r := Returned(features);
  }

  // ------------------------------------------- audio features, properties

  /** The answer the service gave for position `j` of URI slice `c`, or
      `None` when it raised, gave nothing usable, or gave a shorter list. */
  function AnswerAt<F>(c: seq<string>, lookup: seq<string> -> BatchResponse<F>, j: nat): Option<F> {
    match lookup(StripIds(c))
    case Results(rs) => if j < |c| && j < |rs| then rs[j] else None
    case _ => None
  }

  /** A stored feature set is, for some slice `k` and position `j`, the
      answer to the URI at `cs[k][j]`. */
  ghost predicate AnsweredIn<F>(cs: seq<seq<string>>, lookup: seq<string> -> BatchResponse<F>, u: string, f: F) {
    exists k, j :: AnsweredAt(cs, lookup, u, f, k, j)
  }

  /** Slice `k`, position `j` of `cs` is `u`, and the service answered `f` for it. */
  ghost predicate AnsweredAt<F>(cs: seq<seq<string>>, lookup: seq<string> -> BatchResponse<F>, u: string, f: F, k: int, j: int) {
    0 <= k < |cs| && 0 <= j < |cs[k]| && cs[k][j] == u && AnswerAt(cs[k], lookup, j) == Some(f)
  }

  lemma ZipStoreFacts<F>(acc: map<string, F>, batch: seq<string>, results: seq<Option<F>>, n: nat)
    requires n <= |batch| && n <= |results|
    ensures acc.Keys <= ZipStore(acc, batch, results, n).Keys
    ensures forall j :: 0 <= j < n && results[j].Some? ==> batch[j] in ZipStore(acc, batch, results, n)
    ensures forall u :: u in ZipStore(acc, batch, results, n) ==>
      (u in acc && ZipStore(acc, batch, results, n)[u] == acc[u]) ||
      exists j :: 0 <= j < n && batch[j] == u && results[j] == Some(ZipStore(acc, batch, results, n)[u])
  {
    if n > 0 {
      ZipStoreFacts(acc, batch, results, n - 1);
    }
  }

  lemma LiftAnswered<F>(c: seq<string>, cs: seq<seq<string>>, lookup: seq<string> -> BatchResponse<F>, u: string, f: F)
    requires AnsweredIn(cs, lookup, u, f)
    ensures AnsweredIn([c] + cs, lookup, u, f)
  {
    var k, j :| AnsweredAt(cs, lookup, u, f, k, j);
    assert ([c] + cs)[k + 1] == cs[k];
    assert AnsweredAt([c] + cs, lookup, u, f, k + 1, j);
  }

  /** What the loop stores, from `acc` on: everything stored was an answer
      (or was in `acc` already), and every answer was stored. */
  lemma {:induction false} AudioFromAnswers<F>(rest: seq<string>, lookup: seq<string> -> BatchResponse<F>, acc: map<string, F>, m: map<string, F>)
    requires AudioFrom(rest, lookup, acc) == Returned(m)
    ensures acc.Keys <= m.Keys
    ensures forall u :: u in m ==> (u in acc && m[u] == acc[u]) || AnsweredIn(Chunks(rest, AudioBatchSize), lookup, u, m[u])
    ensures forall k, j ::
      (0 <= k < |Chunks(rest, AudioBatchSize)| && 0 <= j < |Chunks(rest, AudioBatchSize)[k]| &&
       AnswerAt(Chunks(rest, AudioBatchSize)[k], lookup, j).Some?) ==> Chunks(rest, AudioBatchSize)[k][j] in m
    decreases |rest|
  {
    if rest != [] {
      var batch := rest[..Min(AudioBatchSize, |rest|)];
      var tail := rest[|batch|..];
      var cs := Chunks(rest, AudioBatchSize);
      assert cs == [batch] + Chunks(tail, AudioBatchSize);
      var acc' := match lookup(StripIds(batch))
        case Results(rs) => ZipStore(acc, batch, rs, Min(|batch|, |rs|))
        case _ => acc;
      assert AudioFrom(tail, lookup, acc') == Returned(m);
      AudioFromAnswers(tail, lookup, acc', m);
      if lookup(StripIds(batch)).Results? {
        var rs := lookup(StripIds(batch)).results;
        ZipStoreFacts(acc, batch, rs, Min(|batch|, |rs|));
      }
      forall u | u in m && !(u in acc && m[u] == acc[u])
        ensures AnsweredIn(cs, lookup, u, m[u])
      {
        if AnsweredIn(Chunks(tail, AudioBatchSize), lookup, u, m[u]) {
          LiftAnswered(batch, Chunks(tail, AudioBatchSize), lookup, u, m[u]);
        } else {
          var rs := lookup(StripIds(batch)).results;
          var j :| 0 <= j < Min(|batch|, |rs|) && batch[j] == u && rs[j] == Some(m[u]);
          assert AnsweredAt(cs, lookup, u, m[u], 0, j);
        }
      }
      forall k, j | 0 <= k < |cs| && 0 <= j < |cs[k]| && AnswerAt(cs[k], lookup, j).Some?
        ensures cs[k][j] in m
      {
        if k > 0 {
          assert cs[k] == Chunks(tail, AudioBatchSize)[k - 1];
        }
      }
    }
  }

  /** When fetch_audio_features returns, a URI is a key of its result exactly
      when the service answered for it, under the answer given; every key
      is one of the input URIs. */
  lemma AudioFeaturesExact<F>(uris: seq<string>, lookup: seq<string> -> BatchResponse<F>)
    requires AudioFeatures(uris, lookup).Returned?
    ensures var m := AudioFeatures(uris, lookup).value;
      && (forall u :: u in m ==> u in uris && AnsweredIn(Chunks(uris, AudioBatchSize), lookup, u, m[u]))
      && (forall k, j ::
           (0 <= k < |Chunks(uris, AudioBatchSize)| && 0 <= j < |Chunks(uris, AudioBatchSize)[k]| &&
            AnswerAt(Chunks(uris, AudioBatchSize)[k], lookup, j).Some?) ==> Chunks(uris, AudioBatchSize)[k][j] in m)
  {
    var m := AudioFeatures(uris, lookup).value;
    AudioFromAnswers(uris, lookup, map[], m);
    forall u | u in m ensures u in uris {
      var cs := Chunks(uris, AudioBatchSize);
      var k, j :| AnsweredAt(cs, lookup, u, m[u], k, j);
      ChunkElement(uris, AudioBatchSize, k, j);
    }
  }

  /** The call raises exactly when some batch lookup raises; the batches
      before it are not returned. */
  lemma {:induction false} AudioRaisesIff<F>(rest: seq<string>, lookup: seq<string> -> BatchResponse<F>, acc: map<string, F>)
    ensures AudioFrom(rest, lookup, acc).Raised? <==>
      exists k :: 0 <= k < |Chunks(rest, AudioBatchSize)| && lookup(StripIds(Chunks(rest, AudioBatchSize)[k])).BatchRaised?
    decreases |rest|
  {
    if rest != [] {
      var batch := rest[..Min(AudioBatchSize, |rest|)];
      var tail := rest[|batch|..];
      var cs := Chunks(rest, AudioBatchSize);
      assert cs == [batch] + Chunks(tail, AudioBatchSize);
      var acc' := match lookup(StripIds(batch))
        case Results(rs) => ZipStore(acc, batch, rs, Min(|batch|, |rs|))
        case _ => acc;
      AudioRaisesIff(tail, lookup, acc');
      if !lookup(StripIds(cs[0])).BatchRaised? {
        if exists k :: 0 <= k < |cs| && lookup(StripIds(cs[k])).BatchRaised? {
          var k :| 0 <= k < |cs| && lookup(StripIds(cs[k])).BatchRaised?;
          assert cs[k] == Chunks(tail, AudioBatchSize)[k - 1];
        }
        if exists k :: 0 <= k < |Chunks(tail, AudioBatchSize)| && lookup(StripIds(Chunks(tail, AudioBatchSize)[k])).BatchRaised? {
          var k :| 0 <= k < |Chunks(tail, AudioBatchSize)| && lookup(StripIds(Chunks(tail, AudioBatchSize)[k])).BatchRaised?;
          assert cs[k + 1] == Chunks(tail, AudioBatchSize)[k];
        }
      }
    }
  }

  /** One URI whose lookup raises makes the whole call raise (the test
      suite expects `{}` in this situation; the code re-raises). */
  lemma AudioFailureRaises<F>(lookup: seq<string> -> BatchResponse<F>)
    requires lookup(["track1"]) == BatchRaised
    ensures AudioFeatures(["spotify:track:track1"], lookup) == Raised
  {
    StripIdOfUri("spotify:track", "track1");
    assert ["spotify:track:track1"][..Min(AudioBatchSize, 1)] == ["spotify:track:track1"];
    assert StripIds(["spotify:track:track1"]) == ["track1"];
  }

  /** Two URIs answered with a single feature set: `zip` pairs it with the
      first URI and the second gets none. */
  lemma AudioShortAnswer<F>(lookup: seq<string> -> BatchResponse<F>, f: F)
    requires lookup(["track1", "track2"]) == Results([Some(f)])
    ensures AudioFeatures(["spotify:track:track1", "spotify:track:track2"], lookup) == Returned(map["spotify:track:track1" := f])
  {
    var uris := ["spotify:track:track1", "spotify:track:track2"];
    TwoTrackIds();
    assert uris[..Min(AudioBatchSize, 2)] == uris;
    assert uris[2..] == [];
    assert ZipStore(map[], uris, [Some(f)], 1) == map["spotify:track:track1" := f];
    assert AudioFrom(uris, lookup, map[]) == AudioFrom([], lookup, ZipStore(map[], uris, [Some(f)], 1));
  }

  /** No URIs: no batch is sent and the result is the empty map. */
  lemma AudioEmptyInput<F>(uris: seq<string>, lookup: seq<string> -> BatchResponse<F>)
    requires uris == []
    ensures AudioFeatures(uris, lookup) == Returned(map[])
    ensures Chunks(uris, AudioBatchSize) == []
  {
  }

  lemma TwoTrackIds()
    ensures StripIds(["spotify:track:track1", "spotify:track:track2"]) == ["track1", "track2"]
  {
    StripIdOfUri("spotify:track", "track1");
    StripIdOfUri("spotify:track", "track2");
  }

  // -------------------------------------------------------- artist genres

  /** `artist.get('genres', [])`. */
  function GenresOf(a: ArtistObject): seq<string> {
    a.genres.GetOr([])
  }

  /** `for artist in results['artists']: if artist: genres[artist['id']] = ...`,
      after the first `n` entries. The key is the id the service reports. */
  function StoreArtists(acc: map<string, seq<string>>, artists: seq<Option<ArtistObject>>, n: nat): map<string, seq<string>>
    requires n <= |artists|
  {
    if n == 0 then acc
    else
      var m := StoreArtists(acc, artists, n - 1);
      if artists[n - 1].Some? then m[artists[n - 1].value.id := GenresOf(artists[n - 1].value)] else m
  }

  /** What fetch_artist_genres does with the ids in `rest` once it has
      collected `acc`: one lookup per slice of at most 50; a batch that
      raises or answers nothing usable is skipped and the next one runs. */
  function ArtistGenresFrom(rest: seq<string>, lookup: seq<string> -> BatchResponse<ArtistObject>, acc: map<string, seq<string>>): map<string, seq<string>>
    decreases |rest|
  {
    if rest == [] then acc
    else
      var batch := rest[..Min(ArtistBatchSize, |rest|)];
      match lookup(batch)
      case Results(xs) => ArtistGenresFrom(rest[|batch|..], lookup, StoreArtists(acc, xs, |xs|))
      case _ => ArtistGenresFrom(rest[|batch|..], lookup, acc)
  }

  function ArtistGenres(ids: seq<string>, lookup: seq<string> -> BatchResponse<ArtistObject>): map<string, seq<string>> {
    ArtistGenresFrom(ids, lookup, map[])
  }

  /** The inner loop of fetch_artist_genres over one response. */
  method StoreArtistGenres(genres: map<string, seq<string>>, artists: seq<Option<ArtistObject>>)
    returns (r: map<string, seq<string>>)
    ensures r == StoreArtists(genres, artists, |artists|)
  {
    r := genres;
    var j := 0;
    while j < |artists|
      invariant 0 <= j <= |artists|
      invariant r == StoreArtists(genres, artists, j)
    {
      if artists[j].Some? {
        r := r[artists[j].value.id := GenresOf(artists[j].value)];
      }
      j := j + 1;
    }
  }

  /** One round of the loop of fetch_artist_genres, at position `i`. */
  lemma ArtistStep(s: seq<string>, i: nat, lookup: seq<string> -> BatchResponse<ArtistObject>, acc: map<string, seq<string>>)
    requires i < |s|
    ensures var batch := s[i..Min(i + ArtistBatchSize, |s|)];
      && Chunks(s[i..], ArtistBatchSize) == [batch] + Chunks(s[i + |batch|..], ArtistBatchSize)
      && ArtistGenresFrom(s[i..], lookup, acc) ==
        if lookup(batch).Results?
        then ArtistGenresFrom(s[i + |batch|..], lookup, StoreArtists(acc, lookup(batch).results, |lookup(batch).results|))
        else ArtistGenresFrom(s[i + |batch|..], lookup, acc)
  {
    var batch := s[i..Min(i + ArtistBatchSize, |s|)];
    assert s[i..][..Min(ArtistBatchSize, |s| - i)] == batch;
    assert s[i..][|batch|..] == s[i + |batch|..];
  }

  /** One round of the loop of fetch_artist_genres: the slice at `i` is
      sent and its answer, if any, stored. */
  method ArtistRound(artistIds: seq<string>, lookup: seq<string> -> BatchResponse<ArtistObject>, i: nat,
                     genres: map<string, seq<string>>, ghost sent: seq<seq<string>>)
    returns (i': nat, genres': map<string, seq<string>>, ghost sent': seq<seq<string>>)
    requires i < |artistIds|
    requires ArtistGenres(artistIds, lookup) == ArtistGenresFrom(artistIds[i..], lookup, genres)
    requires Chunks(artistIds, ArtistBatchSize) == sent + Chunks(artistIds[i..], ArtistBatchSize)
    ensures i < i' <= |artistIds|
    ensures ArtistGenres(artistIds, lookup) == ArtistGenresFrom(artistIds[i'..], lookup, genres')
    ensures Chunks(artistIds, ArtistBatchSize) == sent' + Chunks(artistIds[i'..], ArtistBatchSize)
  {
    var batch := artistIds[i..Min(i + ArtistBatchSize, |artistIds|)];
    ArtistStep(artistIds, i, lookup, genres);
    var later := Chunks(artistIds[i + |batch|..], ArtistBatchSize);
    assert sent + ([batch] + later) == (sent + [batch]) + later;
    sent' := sent + [batch];
    i' := i + |batch|;
    var results := lookup(batch);
    if results.Results? {
      genres' := StoreArtistGenres(genres, results.results);
    } else {
      // a raising or empty batch is logged and skipped
      genres' := genres;
    }
  }

  /** fetch_artist_genres. Every batch of the input is sent, in order,
      whatever the earlier ones did. */
  method FetchArtistGenres(artistIds: seq<string>, lookup: seq<string> -> BatchResponse<ArtistObject>)
    returns (genres: map<string, seq<string>>, ghost sent: seq<seq<string>>)
    ensures genres == ArtistGenres(artistIds, lookup)
    ensures sent == Chunks(artistIds, ArtistBatchSize)
  {
    genres := map[];
    var i := 0;
    sent := [];
    while i < |artistIds|
      invariant 0 <= i <= |artistIds|
      invariant ArtistGenres(artistIds, lookup) == ArtistGenresFrom(artistIds[i..], lookup, genres)
      invariant Chunks(artistIds, ArtistBatchSize) == sent + Chunks(artistIds[i..], ArtistBatchSize)
      decreases |artistIds| - i
    {
      i, genres, sent := ArtistRound(artistIds, lookup, i, genres, sent);
    }
    assert artistIds[i..] == [];
    assert sent + [] == sent;
  }

  // --------------------------------------------- artist genres, properties

  /** A catalogue of artist objects, each filed under its own id. */
  predicate Consistent(catalog: map<string, ArtistObject>) {
    forall id :: id in catalog ==> catalog[id].id == id
  }

  /** The answer a service backed by `catalog` gives for `batch`. */
  function CatalogAnswer(catalog: map<string, ArtistObject>, batch: seq<string>): (r: seq<Option<ArtistObject>>)
    ensures |r| == |batch|
    ensures forall i :: 0 <= i < |batch| ==> r[i] == if batch[i] in catalog then Some(catalog[batch[i]]) else None
  {
    seq(|batch|, i requires 0 <= i < |batch| => if batch[i] in catalog then Some(catalog[batch[i]]) else None)
  }

  /** Each batch either fails or is answered from `catalog`. */
  ghost predicate ServedFrom(lookup: seq<string> -> BatchResponse<ArtistObject>, catalog: map<string, ArtistObject>, cs: seq<seq<string>>) {
    forall k :: 0 <= k < |cs| ==>
      lookup(cs[k]).BatchRaised? || lookup(cs[k]).NoResults? || lookup(cs[k]) == Results(CatalogAnswer(catalog, cs[k]))
  }

  /** The ids of the batches the service answered. */
  function AnsweredIds(cs: seq<seq<string>>, lookup: seq<string> -> BatchResponse<ArtistObject>): set<string> {
    if cs == [] then {}
    else (if lookup(cs[0]).Results? then Elems(cs[0]) else {}) + AnsweredIds(cs[1..], lookup)
  }

  /** The genres of the catalogued artists among `ids`. */
  function Known(catalog: map<string, ArtistObject>, ids: set<string>): map<string, seq<string>> {
    map id | id in ids && id in catalog :: GenresOf(catalog[id])
  }

  lemma KnownAdd(catalog: map<string, ArtistObject>, ids: set<string>, b: string)
    ensures Known(catalog, ids + {b}) ==
      if b in catalog then Known(catalog, ids)[b := GenresOf(catalog[b])] else Known(catalog, ids)
  {
  }

  lemma UnionUpdate<K, V>(acc: map<K, V>, m: map<K, V>, k: K, v: V)
    ensures acc + m[k := v] == (acc + m)[k := v]
  {
  }

  lemma {:induction false} StoreCatalog(acc: map<string, seq<string>>, catalog: map<string, ArtistObject>, batch: seq<string>, n: nat)
    requires Consistent(catalog) && n <= |batch|
    ensures StoreArtists(acc, CatalogAnswer(catalog, batch), n) == acc + Known(catalog, Elems(batch[..n]))
  {
    if n == 0 {
      assert Known(catalog, Elems(batch[..0])) == map[];
    } else {
      StoreCatalog(acc, catalog, batch, n - 1);
      var b := batch[n - 1];
      assert batch[..n] == batch[..n - 1] + [b];
      assert Elems(batch[..n]) == Elems(batch[..n - 1]) + {b};
      KnownAdd(catalog, Elems(batch[..n - 1]), b);
      if b in catalog {
        assert catalog[b].id == b;
        UnionUpdate(acc, Known(catalog, Elems(batch[..n - 1])), b, GenresOf(catalog[b]));
      }
    }
  }

  lemma KnownUnion(acc: map<string, seq<string>>, catalog: map<string, ArtistObject>, s1: set<string>, s2: set<string>)
    ensures (acc + Known(catalog, s1)) + Known(catalog, s2) == acc + Known(catalog, s1 + s2)
  {
  }

  /** With a service that answers from a catalogue, the result is that
      catalogue's genre lists for exactly the ids of the answered batches. */
  lemma {:induction false} ArtistGenresFromCatalog(rest: seq<string>, lookup: seq<string> -> BatchResponse<ArtistObject>,
                                                   catalog: map<string, ArtistObject>, acc: map<string, seq<string>>)
    requires Consistent(catalog) && ServedFrom(lookup, catalog, Chunks(rest, ArtistBatchSize))
    ensures ArtistGenresFrom(rest, lookup, acc) == acc + Known(catalog, AnsweredIds(Chunks(rest, ArtistBatchSize), lookup))
    decreases |rest|
  {
    if rest == [] {
      assert Known(catalog, {}) == map[];
    } else {
      var batch := rest[..Min(ArtistBatchSize, |rest|)];
      var tail := rest[|batch|..];
      var ts := Chunks(tail, ArtistBatchSize);
      ServedRest(rest, lookup, catalog);
      assert batch[..|batch|] == batch;
      var later := AnsweredIds(ts, lookup);
      if lookup(batch).Results? {
        var answer := CatalogAnswer(catalog, batch);
        StoreCatalog(acc, catalog, batch, |batch|);
        var acc' := StoreArtists(acc, answer, |batch|);
        assert ArtistGenresFrom(rest, lookup, acc) == ArtistGenresFrom(tail, lookup, acc');
        ArtistGenresFromCatalog(tail, lookup, catalog, acc');
        assert acc' == acc + Known(catalog, Elems(batch));
        KnownUnion(acc, catalog, Elems(batch), later);
        assert AnsweredIds(Chunks(rest, ArtistBatchSize), lookup) == Elems(batch) + later;
      } else {
        assert ArtistGenresFrom(rest, lookup, acc) == ArtistGenresFrom(tail, lookup, acc);
        ArtistGenresFromCatalog(tail, lookup, catalog, acc);
        assert AnsweredIds(Chunks(rest, ArtistBatchSize), lookup) == later;
      }
    }
  }

  /** A service that answers the batches of `rest` from a catalogue answers
      the first one from it and the batches after it too. */
  lemma ServedRest(rest: seq<string>, lookup: seq<string> -> BatchResponse<ArtistObject>, catalog: map<string, ArtistObject>)
    requires rest != [] && ServedFrom(lookup, catalog, Chunks(rest, ArtistBatchSize))
    ensures var batch := rest[..Min(ArtistBatchSize, |rest|)];
      var ts := Chunks(rest[|batch|..], ArtistBatchSize);
      Chunks(rest, ArtistBatchSize) == [batch] + ts &&
      AnsweredIds(Chunks(rest, ArtistBatchSize), lookup) ==
        (if lookup(batch).Results? then Elems(batch) else {}) + AnsweredIds(ts, lookup) &&
      (lookup(batch).Results? ==> lookup(batch) == Results(CatalogAnswer(catalog, batch))) &&
      ServedFrom(lookup, catalog, ts)
  {
    var batch := rest[..Min(ArtistBatchSize, |rest|)];
    var cs := Chunks(rest, ArtistBatchSize);
    var ts := Chunks(rest[|batch|..], ArtistBatchSize);
    assert cs == [batch] + ts;
    assert cs[0] == batch && cs[1..] == ts;
    forall k | 0 <= k < |ts|
      ensures lookup(ts[k]).BatchRaised? || lookup(ts[k]).NoResults? || lookup(ts[k]) == Results(CatalogAnswer(catalog, ts[k]))
    {
      assert ts[k] == cs[k + 1];
    }
  }

  lemma ArtistGenresCatalog(ids: seq<string>, lookup: seq<string> -> BatchResponse<ArtistObject>, catalog: map<string, ArtistObject>)
    requires Consistent(catalog) && ServedFrom(lookup, catalog, Chunks(ids, ArtistBatchSize))
    ensures ArtistGenres(ids, lookup) == Known(catalog, AnsweredIds(Chunks(ids, ArtistBatchSize), lookup))
  {
    ArtistGenresFromCatalog(ids, lookup, catalog, map[]);
    assert map[] + Known(catalog, AnsweredIds(Chunks(ids, ArtistBatchSize), lookup)) == Known(catalog, AnsweredIds(Chunks(ids, ArtistBatchSize), lookup));
  }

  /** When every batch is answered, every input id counts as answered. */
  lemma {:induction false} AllAnswered(rest: seq<string>, lookup: seq<string> -> BatchResponse<ArtistObject>)
    requires forall k :: 0 <= k < |Chunks(rest, ArtistBatchSize)| ==> lookup(Chunks(rest, ArtistBatchSize)[k]).Results?
    ensures AnsweredIds(Chunks(rest, ArtistBatchSize), lookup) == Elems(rest)
    decreases |rest|
  {
    if rest != [] {
      var m := Min(ArtistBatchSize, |rest|);
      var cs := Chunks(rest, ArtistBatchSize);
      var ts := Chunks(rest[m..], ArtistBatchSize);
      assert cs[1..] == ts;
      forall k | 0 <= k < |ts| ensures lookup(ts[k]).Results? {
        assert ts[k] == cs[k + 1];
      }
      AllAnswered(rest[m..], lookup);
      assert rest == rest[..m] + rest[m..];
      assert Elems(rest) == Elems(rest[..m]) + Elems(rest[m..]);
    }
  }
}
