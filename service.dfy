/** The records core.py builds and the streaming service it talks to, the
    service modelled as values: a list endpoint is the full item sequence it
    would page through plus the offsets at which a request fails, and a batch
    endpoint is a function from the batch sent to the response. */
module Service {
  import opened Common

  // ---------------------------------------------------------------- records

  /** core.py's `PlaylistInfo` dataclass. */
  datatype PlaylistInfo = PlaylistInfo(id: string, name: string, trackCount: int)

  datatype ArtistRef = ArtistRef(id: string, name: string)

  datatype Album = Album(name: string, albumType: string, releaseDate: string)

  /** A track object as the service returns it (the fields the core and the
      track table read). `previewUrl` and `isrc` are `None` when absent. */
  datatype Track = Track(
    uri: string,
    name: string,
    artists: seq<ArtistRef>,
    album: Album,
    durationMs: int,
    popularity: int,
    explicit: bool,
    trackNumber: int,
    discNumber: int,
    previewUrl: Option<string>,
    isrc: Option<string>,
    availableMarkets: seq<string>)

  /** core.py's `TrackMetadata` dataclass. Its `genres` default `None` is
      written `[]`: every reader tests it for truthiness only. */
  datatype TrackMetadata = TrackMetadata(uri: string, addedAt: string, track: Track, genres: seq<string>)

  // ------------------------------------------------------- service payloads

  /** An entry of the playlist listing. */
  datatype PlaylistObject = PlaylistObject(id: string, name: string, tracksTotal: int)

  /** An entry of a saved-track or playlist-item page; `track` is `None` for
      an entry whose track the catalogue no longer has. */
  datatype Item = Item(addedAt: string, track: Option<Track>)

  /** An artist object; `genres` is `None` when the key is missing. */
  datatype ArtistObject = ArtistObject(id: string, genres: Option<seq<string>>)

  /** A page request either raises, returns a response without an `items`
      key (or no response at all), or returns the items. */
  datatype PageResponse<T> = PageRaised | NoItems | Items(items: seq<T>)

  /** A batch lookup either raises, returns nothing usable (a falsy response
      or one without the list key), or returns one entry per requested id,
      `None` where the service could not resolve it. */
  datatype BatchResponse<R> = BatchRaised | NoResults | Results(results: seq<Option<R>>)

  /** A paginated list endpoint: the items it serves, the offsets at which a
      request raises, and the offsets at which the response has no items. */
  datatype ListEndpoint<T> = ListEndpoint(all: seq<T>, failing: set<nat>, missing: set<nat>) {

    /** The response to a request for `limit` items at `offset`. */
    function Page(limit: nat, offset: nat): PageResponse<T> {
      if offset in failing then PageRaised
      else if offset in missing then NoItems
      else Items(all[Min(offset, |all|)..Min(offset + limit, |all|)])
    }

    /** No request at an offset up to the end of the list goes wrong. */
    predicate Healthy() {
      (forall o :: o in failing ==> o > |all|) && (forall o :: o in missing ==> o > |all|)
    }
  }

  const PlaylistPageSize: nat := 50
  const LikedPageSize: nat := 50
  const PlaylistItemsPageSize: nat := 100
  const AudioBatchSize: nat := 100
  const ArtistBatchSize: nat := 50
  const TrackBatchSize: nat := 50

  // ----------------------------------------------------- paging, specified

  /** The item lists of the pages that a `while True` offset/limit loop
      receives, starting at `offset`: it stops after a short (or empty) page
      and before a request that raises or has no items. */
  function Pages<T>(e: ListEndpoint<T>, limit: nat, offset: nat): seq<seq<T>>
    requires limit > 0
    decreases |e.all| - offset
  {
    match e.Page(limit, offset)
    case Items(p) => if |p| < limit then [p] else [p] + Pages(e, limit, offset + limit)
    case _ => []
  }

  /** The offsets that loop requests. */
  function Requested<T>(e: ListEndpoint<T>, limit: nat, offset: nat): seq<nat>
    requires limit > 0
    decreases |e.all| - offset
  {
    match e.Page(limit, offset)
    case Items(p) => if |p| < limit then [offset] else [offset] + Requested(e, limit, offset + limit)
    case _ => [offset]
  }

  /** The requests go to offset, offset + limit, offset + 2 * limit, ... and
      there is one more request than full pages received. */
  lemma {:induction false} RequestedOffsets<T>(e: ListEndpoint<T>, limit: nat, offset: nat)
    requires limit > 0
    ensures |Requested(e, limit, offset)| >= 1
    ensures forall k :: 0 <= k < |Requested(e, limit, offset)| ==> Requested(e, limit, offset)[k] == offset + k * limit
    ensures |Pages(e, limit, offset)| <= |Requested(e, limit, offset)| <= |Pages(e, limit, offset)| + 1
    decreases |e.all| - offset
  {
    match e.Page(limit, offset)
    case Items(p) =>
      if |p| >= limit {
        RequestedOffsets(e, limit, offset + limit);
        var r := Requested(e, limit, offset);
        var r' := Requested(e, limit, offset + limit);
        forall k | 0 <= k < |r| ensures r[k] == offset + k * limit {
          if k > 0 {
            assert r[k] == r'[k - 1];
            assert (k - 1) * limit + limit == k * limit;
          }
        }
      }
    case _ =>
  }

  /** Every page but the last is full; the last one is short, or the loop
      stopped on a request that failed. */
  lemma {:induction false} PagesShape<T>(e: ListEndpoint<T>, limit: nat, offset: nat)
    requires limit > 0
    ensures forall k :: 0 <= k < |Pages(e, limit, offset)| - 1 ==> |Pages(e, limit, offset)[k]| == limit
    ensures Pages(e, limit, offset) != [] ==> |Pages(e, limit, offset)[|Pages(e, limit, offset)| - 1]| <= limit
    decreases |e.all| - offset
  {
    match e.Page(limit, offset)
    case Items(p) =>
      if |p| >= limit {
        PagesShape(e, limit, offset + limit);
        var ps := Pages(e, limit, offset);
        assert ps == [p] + Pages(e, limit, offset + limit);
        forall k | 0 <= k < |ps| - 1 ensures |ps[k]| == limit {
          if k > 0 { assert ps[k] == Pages(e, limit, offset + limit)[k - 1]; }
        }
      }
    case _ =>
  }

  /** Whatever fails, the items received are, in order, a prefix of the
      list from `offset` on. */
  lemma {:induction false} PagesPrefix<T>(e: ListEndpoint<T>, limit: nat, offset: nat)
    requires limit > 0 && offset <= |e.all|
    ensures Flatten(Pages(e, limit, offset)) <= e.all[offset..]
    decreases |e.all| - offset
  {
    var r := e.Page(limit, offset);
    if r.Items? {
      var p := r.items;
      if |p| < limit {
        assert Pages(e, limit, offset) == [p];
        PrefixStep(e.all[offset..], p, [], |p|);
      } else {
        var rest := Pages(e, limit, offset + limit);
        assert Pages(e, limit, offset) == [p] + rest;
        PagesPrefix(e, limit, offset + limit);
        assert e.all[offset..][limit..] == e.all[offset + limit..];
        PrefixStep(e.all[offset..], p, rest, limit);
      }
    }
  }

  /** A first page taken from the front of `s`, followed by pages whose
      items are a prefix of the rest of `s`. */
  lemma PrefixStep<T>(s: seq<T>, p: seq<T>, rest: seq<seq<T>>, n: nat)
    requires n <= |s| && p == s[..n]
    requires Flatten(rest) <= s[n..]
    ensures Flatten([p] + rest) <= s
  {
    FlattenCons(p, rest);
    assert s == p + s[n..];
    assert (p + s[n..])[..|p + Flatten(rest)|] == p + s[n..][..|Flatten(rest)|];
  }

  /** When nothing fails, the loop receives the whole list and makes
      |list| / limit + 1 requests (integer division): one per full page plus
      the request that returns the short, possibly empty, last page. */
  lemma PagesComplete<T>(e: ListEndpoint<T>, limit: nat, offset: nat)
    requires limit > 0 && offset <= |e.all| && e.Healthy()
    ensures Flatten(Pages(e, limit, offset)) == e.all[offset..]
    ensures (|Requested(e, limit, offset)| - 1) * limit <= |e.all| - offset < |Requested(e, limit, offset)| * limit
  {
    PagesAll(e, limit, offset);
    RequestCount(e, limit, offset);
  }

  lemma {:induction false} PagesAll<T>(e: ListEndpoint<T>, limit: nat, offset: nat)
    requires limit > 0 && offset <= |e.all| && e.Healthy()
    ensures Flatten(Pages(e, limit, offset)) == e.all[offset..]
    decreases |e.all| - offset
  {
    assert offset !in e.failing && offset !in e.missing;
    var p := e.Page(limit, offset).items;
    if |p| < limit {
      assert Pages(e, limit, offset) == [p];
      FlattenCons(p, []);
    } else {
      var rest := Pages(e, limit, offset + limit);
      assert Pages(e, limit, offset) == [p] + rest;
      PagesAll(e, limit, offset + limit);
      FlattenCons(p, rest);
      assert e.all[offset..] == p + e.all[offset + limit..];
    }
  }

  lemma {:induction false} RequestCount<T>(e: ListEndpoint<T>, limit: nat, offset: nat)
    requires limit > 0 && offset <= |e.all| && e.Healthy()
    ensures (|Requested(e, limit, offset)| - 1) * limit <= |e.all| - offset < |Requested(e, limit, offset)| * limit
    decreases |e.all| - offset
  {
    assert offset !in e.failing && offset !in e.missing;
    var p := e.all[offset..Min(offset + limit, |e.all|)];
    assert e.Page(limit, offset) == Items(p);
    if |p| >= limit {
      RequestCount(e, limit, offset + limit);
      assert |Requested(e, limit, offset)| == |Requested(e, limit, offset + limit)| + 1;
      CountStep(|Requested(e, limit, offset + limit)|, limit, |e.all| - offset);
    }
  }

  /** One more full page before the rest accounts for one more request. */
  lemma CountStep(c: int, limit: nat, n: int)
    requires (c - 1) * limit <= n - limit < c * limit
    ensures c * limit <= n < (c + 1) * limit
  {
    assert (c + 1) * limit == c * limit + limit;
    assert (c - 1) * limit == c * limit - limit;
  }
}
