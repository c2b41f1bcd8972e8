# Spotify Playlist Enhancer: a Dafny model of its aggregation core

This project models, in Dafny, the data-handling core of a small tool that reads a
user's Spotify library, collects playlists and tracks, fetches audio features and
artist genres, and shows or exports the analysis.

The parts modelled are:

- **Paginated fetches** (`core.py`). Four `while True` offset/limit loops are
  imperative methods over an abstract list endpoint: the user's playlists, the
  liked tracks, the track URIs of a playlist, and the playlist tracks with their
  genres.
  - The endpoint is `Service.ListEndpoint`. It holds the full item sequence, the
    offsets where a request raises, and the offsets where the response has no
    `items` key.
  - Each loop is proved equal to `Service.Pages`, the pages it receives, and
    `Service.Requested`, the offsets it asks for.
  - What is proved about those functions: the requests go to 0, limit,
    2·limit, …; the items received are an in-order prefix of the list; and with
    no failures they are the whole list.
- **Batched lookups** (`core.py`). `fetch_audio_features` uses slices of 100 URIs
  and `fetch_artist_genres` slices of 50 ids. Both are loops over `Common.Chunks`.
  The batch service is a function from the batch sent to a `Service.BatchResponse`,
  which is one of three cases:
  - it raises;
  - nothing usable comes back;
  - a list with `None` for each unresolved id.
- **The per-page genre merge** (`core.py`). This covers the artist-id set of a page,
  one genre lookup per page, and each track's genres as `sorted(set(...))`.
- **`app.py`**. This covers:
  - the `M:SS` duration format;
  - the rows of the track table, with the feature columns and the genre cell;
  - the genre tally that splits that cell back;
  - the liked-songs batch loop, which puts "N/A" dates on its records;
  - the mapping from the selected name to a playlist;
  - the fallback to `{}` when the feature lookup raises.
- **`cli.py`**. This covers the lines `display_playlists` echoes, the rule turning a
  typed choice into liked songs, a playlist or a retry, and the prompt loop.
- **`export.py`**. This covers the exported record, the default file name, and the
  return-or-raise behaviour of the write.

A Python call that either returns or raises is modelled as `Common.Outcome`. A call
that catches its own errors returns a plain value, and the model keeps it that way.
Feature records are an opaque type parameter `F`: nothing about their float fields is
modelled.

Three behaviours of the code are easy to misread, and the model follows the code:

- **Request count.** With no failures, a pagination loop makes `|items| / limit + 1`
  requests (integer division), not `ceil(|items| / limit)`. The two differ when the
  item count is a multiple of the page size: the code then fetches a final empty page
  (`Service.PagesComplete`, `Fetch.AllPlaylists`).
- **A raising audio-feature batch.** The code re-raises (core.py:249-255). The test
  suite expects `{}` (tests/test_core.py:76-81). The model follows the code
  (`Lookup.AudioRaisesIff`, `Lookup.AudioFailureRaises`). The `{}` fallback lives in
  the caller in app.py (`App.AnalysisFeatures`).
- **Liked tracks with a null track.** These are not skipped. `item['track']['uri']`
  raises inside the loop, and the `except` ends the whole fetch. The URIs already
  appended stay (`Fetch.AppendLikedUris`, `Fetch.FetchLikedTracks`).

## Model

| member | source | states |
|---|---|---|
| Service.RequestedOffsets | core.py:113-131 | the k-th request of a page loop goes to offset + k·limit; there is at least one request, and at most one more request than pages received |
| Service.PagesShape | core.py:129-131 | every page received before the last is full; the last has at most `limit` items |
| Service.PagesPrefix | core.py:116-135 | whatever requests fail, the items received are, in order, a prefix of the endpoint's list; a failure never raises out of the loop |
| Service.PagesComplete | core.py:116-135 | when no request fails, the pages concatenate to the whole list, and the number of requests is \|list\| / limit + 1 |
| Fetch.AppendPlaylists | core.py:122-127 | appends one `PlaylistInfo(id, name, tracks.total)` per listed playlist, in order |
| Fetch.PlaylistsRound | core.py:117-135 | one loop round: the stop conditions are a failed request, no items, an empty page or a short page; otherwise the loop state moves on by 50 |
| Fetch.FetchUserPlaylists | core.py:102-138 | the result is the playlists of all pages of 50 received before the loop stopped, in order; the offsets requested are those of the page loop |
| Fetch.AllPlaylists | core.py:112-138 | with no failing request, every playlist is returned in order, after \|playlists\| / 50 + 1 requests |
| Fetch.PresentUrisConcat | core.py:201-203 | the URIs kept from two runs of entries are those of the first followed by those of the second |
| Fetch.PresentUrisCount | core.py:201-203 | as many URIs are kept as there are entries with a non-null track; with no null entry, one per entry |
| Fetch.UntilNullConcat | core.py:160-161 | the liked-track URIs of two runs: the second run is reached only if the first has no null track |
| Fetch.AppendLikedUris | core.py:160-161 | appends the URIs of a page up to its first entry without a track, and reports whether such an entry stopped it |
| Fetch.LikedRound | core.py:155-169 | one loop round: a null track stops the loop and keeps the URIs already appended; otherwise the usual page stop rules apply |
| Fetch.FetchLikedTracks | core.py:140-172 | the result is the URIs of the pages of 50 received, up to the first null track; without null tracks the offsets requested are exactly those of the page loop, otherwise a prefix of them |
| Fetch.AllLikedTracks | core.py:150-172 | with no failure and no null track, every liked track's URI is returned in order |
| Fetch.AppendPresentUris | core.py:201-203 | appends the URIs of the entries with a track, in order, skipping null tracks |
| Fetch.ItemsRound | core.py:190-211 | one round of the loop over pages of 100 playlist items |
| Fetch.GetPlaylistTrackUris | core.py:174-214 | the result is the URIs of the non-null entries of the pages of 100 received, in playlist order; the offsets requested are those of the page loop |
| Fetch.AllPlaylistTrackUris | core.py:185-214 | with no failing request, the URIs of all entries with a track, in playlist order |
| Fetch.CollectArtistIds | core.py:323-327 | the id set collected is exactly the ids of the artists of the page's non-null tracks |
| Fetch.GenreListElems | core.py:336-338 | a genre is gathered for a track exactly when one of its artists is in the genre map with that genre |
| Fetch.TrackGenres | core.py:336-344 | a track's genres are `sorted(set(...))` of its artists' genre lists |
| Fetch.GenreMerge | core.py:336-344 | a track's genres are strictly sorted (so without repeats), and are exactly the genres the map holds for its artists; artists missing from the map contribute nothing |
| Fetch.AppendPageTracks | core.py:333-345 | appends one record per entry with a track, in order, with its URI, date, track and merged genres |
| Fetch.MetaRound | core.py:310-353 | one loop round: a raise or a response without items stops the loop before the genre lookup; otherwise there is one genre lookup on a listing of the page's artist-id set, then the page's records |
| Fetch.FetchPlaylistTracksWithMetadata | core.py:293-356 | one genre lookup per page received, on an enumeration of that page's artist ids; the records are those of all pages in order; the offsets requested are those of the page loop |
| Fetch.PageTracksUris | core.py:333-345 | a page gives one record per non-null entry, in order, and each record carries that entry's URI |
| Fetch.MetaTracksUris | core.py:333-345 | over all pages, whatever the genre lookups did, the records' URIs are those `get_playlist_track_uris` returns for the same pages |
| Fetch.PageGenres | core.py:323-330 | with a service answering from a catalogue, a page's genre map is the catalogue's genres of the page's artists, whatever order `list(set)` produced |
| Fetch.MetaTracksOrderFree | core.py:323-330 | with such a service, the records do not depend on the iteration order of the artist-id sets |
| Fetch.PageArtistIdsCover | core.py:322-327 | the artist-id set of a page holds every artist id of each of its tracks |
| Fetch.PageTracksHas | core.py:333-345 | every entry with a track has its record among the page's records |
| Fetch.PageRecordGenres | core.py:322-345 | with a service answering from a catalogue, each entry's record is on its page and its genres are strictly sorted and exactly the catalogue genres of its track's artists |
| Fetch.PopRockPage | core.py:322-345 | a page of two tracks by [A] and [A, B], with A → pop and B → rock: the genres are ["pop"] and ["pop", "rock"] |
| Common.ChunksConcat | core.py:231-232 | the slices a batch loop visits concatenate back to its input: nothing is lost, duplicated or reordered |
| Common.ChunksBounded | core.py:231-232 | every slice is non-empty and has at most the batch size |
| Common.ChunksCount | core.py:235 | there are exactly ceil(n / batch size) slices |
| Lookup.StripId | core.py:234 | `uri.split(':')[-1]` contains no ':', is a suffix of the URI, and is preceded by ':' unless it is the whole URI |
| Lookup.StripIdOfUri | core.py:234 | "spotify:track:X" (any prefix, then ":X") gives X when X has no ':' |
| Lookup.StoreFeatures | core.py:244-248 | `zip` pairs URIs and answers by position, up to the shorter list, and stores only non-null answers |
| Lookup.AudioRound | core.py:232-255 | one batch: a raise aborts the whole call; a falsy answer is skipped; otherwise the zipped answers are stored |
| Lookup.FetchAudioFeatures | core.py:216-257 | the result is that of the batch specification; the id batches sent are the stripped slices of 100, in order, all of them when the call returns |
| Lookup.AudioFromAnswers | core.py:238-248 | every stored feature set was the answer given at that URI's position, and every non-null answer given was stored |
| Lookup.AudioFeaturesExact | core.py:238-248 | when the call returns, its keys are input URIs that were answered, under their answer, and every answered URI is a key |
| Lookup.AudioRaisesIff | core.py:249-255 | the call raises exactly when some batch lookup raises |
| Lookup.AudioFailureRaises | tests/test_core.py:76-81 | a single URI whose lookup raises makes the whole call raise, where the test expects `{}` |
| Lookup.AudioShortAnswer | tests/test_core.py:60-69 | two URIs answered with one feature set give a map holding only the first URI |
| Lookup.AudioEmptyInput | tests/test_core.py:71-74 | an empty URI list sends no batch and gives the empty map |
| Lookup.StoreArtistGenres | core.py:280-284 | each present artist maps its own id to `genres`, or `[]` when that key is missing; null artists are skipped |
| Lookup.ArtistRound | core.py:274-290 | one batch of 50: its answer is stored, or a raising or empty batch is skipped, and the loop moves on |
| Lookup.FetchArtistGenres | core.py:259-291 | the result is that of the batch specification, and every slice of 50 is sent, in order, whatever the earlier ones did |
| Lookup.StoreCatalog | core.py:280-282 | storing a catalogue's answer to a batch adds exactly the catalogued ids of the batch with their genres |
| Lookup.ArtistGenresFromCatalog | core.py:273-291 | with a service answering from a catalogue, the result maps exactly the ids of the answered batches to their genres |
| Lookup.ArtistGenresCatalog | core.py:259-291 | the same, from the empty map |
| Lookup.AllAnswered | core.py:273-276 | when every batch is answered, every input id counts as answered |
| Sorting.StrLessTotal | core.py:344 | Python's string order compares any two different strings |
| Sorting.StrLessTransitive | core.py:344 | Python's string order is transitive |
| Sorting.InsertSound | core.py:344 | inserting into a strictly sorted list keeps it strictly sorted and adds exactly the new element |
| Sorting.SortedUniqueSound | core.py:344 | `sorted(set(xs))` is strictly sorted and has exactly the elements of `xs` |
| Sorting.StrictlySortedUnique | core.py:344 | a strictly sorted list is determined by its elements, so `sorted` of a set is unique |
| Sorting.SortedList | core.py:344 | `sorted(list(s))` of a set is strictly sorted with exactly the set's elements |
| Sorting.ListOf | core.py:330 | `list(s)` of a set lists each element once and nothing else |
| Text.NatStrRoundTrip | app.py:50 | `int(str(n))` gives back `n` |
| Text.IntStrRoundTrip | app.py:50 | the decimal text of any integer, sign included, reads back as that integer |
| Text.Pad2 | app.py:50 | `f"{n:02d}"` is all digits, at least two of them, and exactly two reading back as `n` when n < 100 |
| Text.LJust | cli.py:32 | `{:<w}` pads with blanks up to width `w`, keeps the text as its prefix, and never truncates |
| Text.Repeat | cli.py:27 | `c * n` is `n` copies of `c` |
| Text.SplitNoSep | app.py:307 | a string without ',' splits into itself |
| Text.SplitAtSep | app.py:307 | splitting cuts at the first separator |
| Text.StripShape | app.py:307 | `s.strip()` has no whitespace at either end, and only whitespace was removed from the ends of `s` |
| Text.StripUnique | app.py:307 | any string with no whitespace at either end that `s` holds between whitespace-only ends is `s.strip()`, so the two properties above determine `strip` |
| Text.StripAfterBlank | app.py:307 | `strip` removes the blank that `', '.join` puts after each comma |
| App.FormatDurationShape | app.py:46-50 | the seconds field is always two digits, 00 to 59, after a colon |
| App.FormatDurationRoundTrip | app.py:46-50 | the formatted duration reads back as the duration truncated to whole seconds: minutes are never wrapped into hours |
| App.DurationExamples | tests/test_app.py:17-20 | 61000 → "1:01", 0 → "0:00", 59999 → "0:59", 3600000 → "60:00" |
| App.Names | app.py:94 | the artist names of a row, in track order |
| App.TrackRows | app.py:89-130 | one row per track, in order, each built from its track |
| App.RowColumns | app.py:112-128 | a row has feature columns exactly when its URI is a key of `features`, and then that entry; its duration cell reads back as whole seconds; it keeps the track's URI |
| App.GenreTally | app.py:304-307 | `all_genres` is the stripped fields of every cell other than "N/A", cell by cell |
| App.SplitJoin | app.py:307 | splitting `', '.join(gs)` on ',' and stripping gives back `gs` when no genre has a comma or surrounding blanks |
| App.TallyRoundTrip | app.py:304-307 | the tally of the genre cells (joined with ", ", or "N/A" when empty, line 109) is the concatenation of the tracks' genre lists, for such genres and no list equal to ["N/A"] |
| App.AppendLiked | app.py:438-443 | appends one record per returned track, and fails exactly when a track is missing |
| App.FetchLikedSongTracks | app.py:433-443 | the liked-songs branch: one lookup per 50 URIs, records appended in order; a failing lookup or missing track raises |
| App.LikedRecordsShape | app.py:439-443 | every record of the branch has the date "N/A", no genres, and the URI of its own track |
| App.LikedFromCatalog | app.py:434-443 | with a service answering every URI, the branch gives one record per liked URI, in order |
| App.SelectionNames | app.py:401 | the selection list is "Liked Songs" then the playlist names, in order |
| App.PlaylistNames | app.py:401 | `[p.name for p in playlists]` |
| App.IndexOf | app.py:447 | `index` returns the first position holding the name, and fails exactly when the name is not listed |
| App.ResolveName | app.py:426-451 | choosing a playlist's name works on the first playlist of that name; the literal "Liked Songs" always takes the liked branch |
| App.ResolveDistinct | app.py:447 | with distinct names, choosing a playlist's name works on that playlist |
| App.ResolveListed | app.py:426-447 | every listed name resolves, and no other name does |
| App.AnalysisFeatures | app.py:465-476 | a raising feature lookup gives `{}`; the features used are always keyed by URIs of the tracks |
| Cli.Separator | cli.py:27 | a separator is exactly 60 '-' characters |
| Cli.DisplayPlaylists | cli.py:24-33 | the output is the title, a separator, the column header, a separator, one line per playlist numbered from 1 in list order, and a closing separator |
| Cli.ColumnsLayout | cli.py:28-32 | a line holds index, name and count, each whole and left-justified to 4, 40 and 8, separated by single blanks, with nothing truncated |
| Cli.FixedColumns | cli.py:28-32 | with values that fit, every line is 54 characters and the columns start at 0, 5 and 46 |
| Cli.RowNumber | cli.py:31-32 | the first field of row k reads back as the number k + 1 |
| Cli.LikedChoice | cli.py:64-67 | exactly "l" and "L" select the liked songs |
| Cli.NumberChoice | cli.py:68-71 | the number printed for a playlist selects it |
| Cli.PlaylistChoice | cli.py:68-71 | a playlist is selected exactly by a non-empty digit string of value 1 to the number of playlists, and it is `playlists[n - 1]` |
| Cli.RejectedChoices | cli.py:73-74 | "0", the number after the last playlist and the empty string are rejected |
| Cli.SelectPlaylist | cli.py:58-74 | over the non-empty lines `click.prompt` returns, every rejected line is followed by the retry message, and the first accepted line ends the loop with its choice; running out of input is an abort |
| Export.FileStampShape | export.py:36 | `%Y%m%d_%H%M%S` is fifteen characters: eight digits, '_', six digits, each field reading back as the time's |
| Export.ExportPath | export.py:35-37 | a non-empty given path is used as is; a missing or empty one becomes "analysis_" + stamp + ".json" |
| Export.BuildRecord | export.py:39-49 | the record has the timestamp, `track_count` = number of features, the features unchanged, and each bucket map only when given and non-empty |
| Export.RecordKeys | export.py:39-49 | the three fixed keys are always present, a bucket key exactly when that argument was given and non-empty, and there is no other key |
| Export.ExportAnalysis | export.py:17-58 | the path is returned exactly when the write succeeds, and the write gets that record at that path; otherwise the error propagates |
| Export.ExplicitPath | export.py:52-55 | an explicit non-empty path is the one written and returned |

## Left out

- Authentication and the client: `verify_env_variables`, `init_spotify_client`, OAuth,
  the `.env` lookups and the access-token logging. These are credentials and network
  I/O; the service is a parameter of every operation instead.
- Rendering: Streamlit widgets, the tabs, the metrics, the plotly charts
  (`create_audio_features_plot`) and the pandas statistics (`value_counts`, `mean`,
  dates, the substring genre filter). These are UI and floating-point computations.
  The model stops at the rows and the genre list they are computed from.
- Logging, everywhere: it does not change behaviour.
- JSON encoding and files: the write is the `writable` parameter of
  `Export.ExportAnalysis`.
- The clock: the two `datetime.now()` calls in export.py are separate parameters, a
  `DateTime` for the file name and the ISO string for the record.
- CLI plumbing:
  - click's prompt and echo are the `inputs` and the returned lines;
  - the flags that only print "not yet implemented";
  - the wrapping of errors in `ClickException`.
- The flows of `main` in app.py and cli.py outside the pieces above: the early
  returns when there are no playlists or no tracks, and the order of calls.
- The test suite for cli.py. It targets commands, helpers and record fields that
  cli.py and core.py do not have.
- Malformed service payloads, such as a missing `id` key or a non-dict entry. The
  payloads are typed records here. In the code, such a `KeyError` is caught like any
  other exception, with different effects per loop:
  - in the four pagination loops (core.py:133-135, 167-169, 209-211, 351-353) it ends
    the loop;
  - in `fetch_artist_genres` (core.py:285-290) it skips the rest of that batch, keeps
    the artists stored before it, and goes on with the next batch;
  - in `fetch_audio_features` (core.py:249-255) it is re-raised out of the call.
- A service whose contents change between requests: an endpoint is one fixed list.
- Sorting.ListOf: states only that `list(s)` lists each element once. CPython's
  iteration order is left unspecified, and
  `Fetch.FetchPlaylistTracksWithMetadata` reports the order it used as a ghost output.
- Cli.PlaylistChoice: `str.isdigit` is taken on ASCII digits, which differs from
  Python in two ways:
  - a digit such as '²' passes `isdigit` but makes `int(choice)` raise a `ValueError`.
    That error is not caught inside the prompt loop. It reaches the handler at
    cli.py:94-96, and the command ends with a `ClickException` instead of prompting
    again. The model rejects the line and prompts again;
  - a non-ASCII decimal digit such as '٣' selects playlist 3 in Python, and the model
    rejects it.
- Cli.SelectPlaylist: the prompt loop runs over a finite list of typed lines. Running
  out of lines stands for click aborting the prompt. `click.prompt` without a default
  never returns an empty line: it asks again itself, without the retry message. So
  the lines are required to be non-empty, and an empty line the user types is not
  one of them.
- Export.FileStampShape: covers years 1000 to 9999 only. `FileStamp` writes a year
  without padding, as glibc's `%Y` does.
- Export.ExportAnalysis: does not model a file that `open` created or truncated before
  `json.dump` failed.
- App.RowColumns: an `isrc` key present with a JSON null value is treated as missing,
  giving "N/A" where Python would give `None`.
- The `genres` default `None` of `TrackMetadata` is written `[]`. Every reader only
  tests it for truthiness.
