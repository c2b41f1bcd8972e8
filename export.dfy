/** export.py: the record `export_analysis` writes, the file it writes it
    to, and what the call returns. The JSON encoding and the file system
    are outside the model: the write is an effect that either succeeds or
    raises, decided by the `writable` parameter. */
module Export {
  import opened Common
  import opened Text

  /** A reading of the clock, the fields `strftime` formats. */
  datatype DateTime = DateTime(year: nat, month: nat, day: nat, hour: nat, minute: nat, second: nat)

  predicate ValidDateTime(t: DateTime) {
    1000 <= t.year <= 9999 && 1 <= t.month <= 12 && 1 <= t.day <= 31 &&
    t.hour < 24 && t.minute < 60 && t.second < 60
  }

  /** `strftime("%Y%m%d_%H%M%S")`. */
  function FileStamp(t: DateTime): string {
    NatStr(t.year) + Pad2(t.month) + Pad2(t.day) + "_" + Pad2(t.hour) + Pad2(t.minute) + Pad2(t.second)
  }

  /** The stamp of a valid time is fifteen characters: eight digits, an
      underscore, six digits, and each field reads back as the time's. */
  lemma FileStampShape(t: DateTime)
    requires ValidDateTime(t)
    ensures var s := FileStamp(t);
      |s| == 15 && s[8] == '_' && AllDigits(s[..8]) && AllDigits(s[9..]) &&
      DigitsValue(s[..4]) == t.year && DigitsValue(s[4..6]) == t.month && DigitsValue(s[6..8]) == t.day &&
      DigitsValue(s[9..11]) == t.hour && DigitsValue(s[11..13]) == t.minute && DigitsValue(s[13..]) == t.second
  {
    NatStrRoundTrip(t.year);
    var y := NatStr(t.year);
    FourDigits(t.year);
    var s := FileStamp(t);
    var date := y + Pad2(t.month) + Pad2(t.day);
    var time := Pad2(t.hour) + Pad2(t.minute) + Pad2(t.second);
    assert s == date + "_" + time;
    assert s[..8] == date && s[9..] == time;
    assert s[..4] == y && s[4..6] == Pad2(t.month) && s[6..8] == Pad2(t.day);
    assert s[9..11] == Pad2(t.hour) && s[11..13] == Pad2(t.minute) && s[13..] == Pad2(t.second);
  }

  /** `str(n)` of a year from 1000 to 9999 has four digits. */
  lemma FourDigits(n: nat)
    requires 1000 <= n <= 9999
    ensures |NatStr(n)| == 4
  {
    assert 100 <= n / 10 < 1000 && 10 <= n / 10 / 10 < 100 && 1 <= n / 10 / 10 / 10 < 10;
    assert |NatStr(n)| == |NatStr(n / 10)| + 1;
    assert |NatStr(n / 10)| == |NatStr(n / 10 / 10)| + 1;
    assert |NatStr(n / 10 / 10)| == |NatStr(n / 10 / 10 / 10)| + 1;
  }

  /** The file the analysis goes to: the given path, or a stamped name in
      the working directory when none (or an empty one) is given. */
  function ExportPath(filepath: Option<string>, now: DateTime): (path: string)
    ensures filepath.Some? && filepath.value != "" ==> path == filepath.value
    ensures (filepath.None? || filepath.value == "") ==>
      path == "analysis_" + FileStamp(now) + ".json" && path[..9] == "analysis_" && path[|path| - 5..] == ".json"
  {
    if filepath.Some? && filepath.value != "" then filepath.value
    else
      var p := "analysis_" + FileStamp(now) + ".json";
      assert p[..9] == "analysis_";
      p
  }

  type Buckets = map<string, seq<string>>

  /** The JSON document: `tempoBuckets` and `energyBuckets` stand for keys
      that are present or absent. */
  datatype ExportRecord<F> = ExportRecord(
    timestamp: string,
    trackCount: nat,
    audioFeatures: map<string, F>,
    tempoBuckets: Option<Buckets>,
    energyBuckets: Option<Buckets>)

  /** The top-level keys of the document. */
  function Keys<F>(r: ExportRecord<F>): set<string> {
    {"timestamp", "track_count", "audio_features"}
    + (if r.tempoBuckets.Some? then {"tempo_buckets"} else {})
    + (if r.energyBuckets.Some? then {"energy_buckets"} else {})
  }

  /** A bucket argument is written only when it is given and not empty. */
  function Given(b: Option<Buckets>): bool {
    b.Some? && b.value != map[]
  }

  /** The `data` dictionary: the three fixed keys, then each bucket map
      added when it is given and not empty. */
  method BuildRecord<F>(features: map<string, F>, tempo: Option<Buckets>, energy: Option<Buckets>, isoNow: string)
    returns (data: ExportRecord<F>)
    ensures data.timestamp == isoNow
    ensures data.trackCount == |features| && data.audioFeatures == features
    ensures data.tempoBuckets == (if Given(tempo) then tempo else None)
    ensures data.energyBuckets == (if Given(energy) then energy else None)
  {
    data := ExportRecord(isoNow, |features|, features, None, None);
    if Given(tempo) {
      data := data.(tempoBuckets := tempo);
    }
    if Given(energy) {
      data := data.(energyBuckets := energy);
    }
  }

  /** The document has its three fixed keys, a bucket key exactly when that
      argument was given and not empty, and no other key. */
  lemma RecordKeys<F>(data: ExportRecord<F>, features: map<string, F>, tempo: Option<Buckets>, energy: Option<Buckets>)
    requires data.tempoBuckets == (if Given(tempo) then tempo else None)
    requires data.energyBuckets == (if Given(energy) then energy else None)
    ensures {"timestamp", "track_count", "audio_features"} <= Keys(data)
    ensures Keys(data) <= {"timestamp", "track_count", "audio_features", "tempo_buckets", "energy_buckets"}
    ensures "tempo_buckets" in Keys(data) <==> Given(tempo)
    ensures "energy_buckets" in Keys(data) <==> Given(energy)
  {
  }

  /** `export_analysis`: the path written is returned, or the write error
      propagates and nothing is written. `written` is the document the
      file receives. */
  method ExportAnalysis<F>(features: map<string, F>, tempo: Option<Buckets>, energy: Option<Buckets>,
                           filepath: Option<string>, now: DateTime, isoNow: string, writable: string -> bool)
    returns (r: Outcome<string>, written: Option<(string, ExportRecord<F>)>)
    ensures var path := ExportPath(filepath, now);
      (r.Returned? <==> writable(path)) &&
      (r.Returned? ==> r.value == path)
    ensures written.Some? <==> r.Returned?
    ensures written.Some? ==>
      written.value.0 == ExportPath(filepath, now) &&
      written.value.1 == ExportRecord(isoNow, |features|, features,
                                      if Given(tempo) then tempo else None,
                                      if Given(energy) then energy else None)
  {
    var path := ExportPath(filepath, now);
    var data := BuildRecord(features, tempo, energy, isoNow);
    if writable(path) {
      written := Some((path, data));
      r := Returned(path);
    } else {
      written := None;
      r := Raised;
    }
  }

  /** An explicit, non-empty path is the one written and returned. */
  lemma ExplicitPath(path: string, now: DateTime)
    requires path != ""
    ensures ExportPath(Some(path), now) == path
  {
  }
}
