/** cli.py: the playlist table printed by `display_playlists` and the rule
    by which `main` turns the typed choice into liked songs, a playlist, or
    a new prompt. */
module Cli {
  import opened Common
  import opened Text
  import opened Service

  // ---------------------------------------------------------------- table

  const SeparatorWidth: nat := 60

  /** `"-" * 60`. */
  function Separator(): (r: string)
    ensures |r| == SeparatorWidth && forall i :: 0 <= i < |r| ==> r[i] == '-'
  {
    Repeat('-', SeparatorWidth)
  }

  /** The three columns of a table line, left-justified to 4, 40 and 8 and
      separated by one blank each. */
  function Columns(index: string, name: string, tracks: string): string {
    LJust(index, 4) + " " + (LJust(name, 40) + " " + LJust(tracks, 8))
  }

  function HeaderLine(): string {
    Columns("#", "Name", "Tracks")
  }

  /** The line for the playlist numbered `n`. */
  function RowLine(n: nat, p: PlaylistInfo): string {
    Columns(NatStr(n), p.name, IntStr(p.trackCount))
  }

  /** The lines `display_playlists` echoes, one per `click.echo` call. */
  method DisplayPlaylists(playlists: seq<PlaylistInfo>) returns (lines: seq<string>)
    ensures |lines| == |playlists| + 5
    ensures lines[0] == "\nAvailable Playlists:"
    ensures lines[1] == Separator() && lines[2] == HeaderLine() && lines[3] == Separator()
    ensures forall i :: 0 <= i < |playlists| ==> lines[4 + i] == RowLine(i + 1, playlists[i])
    ensures lines[|lines| - 1] == Separator()
  {
    lines := ["\nAvailable Playlists:", Separator(), HeaderLine(), Separator()];
    var i := 0;
    while i < |playlists|
      invariant 0 <= i <= |playlists|
      invariant |lines| == 4 + i
      invariant lines[0] == "\nAvailable Playlists:"
      invariant lines[1] == Separator() && lines[2] == HeaderLine() && lines[3] == Separator()
      invariant forall k :: 0 <= k < i ==> lines[4 + k] == RowLine(k + 1, playlists[k])
    {
      lines := lines + [RowLine(i + 1, playlists[i])];
      i := i + 1;
    }
    lines := lines + [Separator()];
  }

  predicate Blanks(s: string) {
    forall i :: 0 <= i < |s| ==> s[i] == ' '
  }

  /** Where each field of a table line sits: the index from column 0, the
      name after the index's padded width and a blank, the count after the
      name's padded width and a blank; every field whole, padded with blanks
      up to its width. */
  lemma ColumnsLayout(index: string, name: string, tracks: string)
    ensures var line := Columns(index, name, tracks);
      var a := |LJust(index, 4)|;
      var b := a + 1 + |LJust(name, 40)|;
      |line| == b + 1 + |LJust(tracks, 8)| &&
      line[..|index|] == index && Blanks(line[|index|..a]) && line[a] == ' ' &&
      line[a + 1..a + 1 + |name|] == name && Blanks(line[a + 1 + |name|..b]) && line[b] == ' ' &&
      line[b + 1..b + 1 + |tracks|] == tracks && Blanks(line[b + 1 + |tracks|..])
  {
    IndexColumn(index, name, tracks);
    NameColumn(index, name, tracks);
    TracksColumn(index, name, tracks);
  }

  lemma IndexColumn(index: string, name: string, tracks: string)
    ensures var line := Columns(index, name, tracks);
      var a := |LJust(index, 4)|;
      line[..|index|] == index && Blanks(line[|index|..a]) && line[a] == ' '
  {
    var line := Columns(index, name, tracks);
    ThreeFields(LJust(index, 4), LJust(name, 40), LJust(tracks, 8));
    Field(line, 0, index, 4);
    assert line[..|index|] == line[0..|index|];
  }

  lemma NameColumn(index: string, name: string, tracks: string)
    ensures var line := Columns(index, name, tracks);
      var a := |LJust(index, 4)|;
      var b := a + 1 + |LJust(name, 40)|;
      line[a + 1..a + 1 + |name|] == name && Blanks(line[a + 1 + |name|..b]) && line[b] == ' '
  {
    var line := Columns(index, name, tracks);
    ThreeFields(LJust(index, 4), LJust(name, 40), LJust(tracks, 8));
    Field(line, |LJust(index, 4)| + 1, name, 40);
  }

  lemma TracksColumn(index: string, name: string, tracks: string)
    ensures var line := Columns(index, name, tracks);
      var b := |LJust(index, 4)| + 1 + |LJust(name, 40)|;
      |line| == b + 1 + |LJust(tracks, 8)| &&
      line[b + 1..b + 1 + |tracks|] == tracks && Blanks(line[b + 1 + |tracks|..])
  {
    var line := Columns(index, name, tracks);
    var b := |LJust(index, 4)| + 1 + |LJust(name, 40)|;
    ThreeFields(LJust(index, 4), LJust(name, 40), LJust(tracks, 8));
    Field(line, b + 1, tracks, 8);
    assert line[b + 1 + |tracks|..] == line[b + 1 + |tracks|..b + 1 + |LJust(tracks, 8)|];
  }

  /** Where three fields joined by single blanks sit. */
  lemma ThreeFields(x: string, y: string, z: string)
    ensures var line := x + " " + (y + " " + z);
      line[0..|x|] == x && line[|x|] == ' ' && line[|x| + 1..|x| + 1 + |y|] == y &&
      line[|x| + 1 + |y|] == ' ' && line[|x| + 2 + |y|..|line|] == z
  {
  }

  /** A field padded to width `w` at offset `off` of a line. */
  lemma Field(line: string, off: nat, s: string, w: nat)
    requires off + |LJust(s, w)| <= |line| && line[off..off + |LJust(s, w)|] == LJust(s, w)
    ensures line[off..off + |s|] == s && Blanks(line[off + |s|..off + |LJust(s, w)|])
  {
    var padded := LJust(s, w);
    assert line[off..off + |s|] == padded[..|s|];
    assert line[off + |s|..off + |padded|] == padded[|s|..];
  }

  /** With fields that fit their widths every line is 54 characters and the
      columns start at 0, 5 and 46, the header's columns included. */
  lemma FixedColumns(index: string, name: string, tracks: string)
    requires |index| <= 4 && |name| <= 40 && |tracks| <= 8
    ensures var line := Columns(index, name, tracks);
      |line| == 54 && line[..|index|] == index && line[5..5 + |name|] == name &&
      line[46..46 + |tracks|] == tracks
  {
    ColumnsLayout(index, name, tracks);
  }

  /** The characters before the first blank. */
  function FirstField(s: string): (r: string)
    ensures r <= s && ' ' !in r
  {
    if s == [] || s[0] == ' ' then [] else [s[0]] + FirstField(s[1..])
  }

  lemma {:induction false} FirstFieldOf(a: string, b: string)
    requires ' ' !in a
    ensures FirstField(a + " " + b) == a
    decreases |a|
  {
    if a != [] {
      assert (a + " " + b)[1..] == a[1..] + " " + b;
      FirstFieldOf(a[1..], b);
      assert [a[0]] + a[1..] == a;
    } else {
      assert (a + " " + b)[0] == ' ';
    }
  }

  /** A padded field followed by a blank is the field, a blank, and the rest. */
  lemma PaddedField(s: string, w: nat, t: string)
    ensures LJust(s, w) + " " + t == s + " " + (LJust(s, w) + " " + t)[|s| + 1..]
  {
    var line := LJust(s, w) + " " + t;
    assert line[..|s|] == s;
    assert line[|s|] == ' ';
    assert line == line[..|s|] + [line[|s|]] + line[|s| + 1..];
  }

  /** Row k of the table reads back as the number k + 1: the rows are
      numbered from 1 in list order, each number once. */
  lemma RowNumber(playlists: seq<PlaylistInfo>, lines: seq<string>, k: nat)
    requires |lines| == |playlists| + 5 && k < |playlists|
    requires forall i :: 0 <= i < |playlists| ==> lines[4 + i] == RowLine(i + 1, playlists[i])
    ensures ParseInt(FirstField(lines[4 + k])) == Some(k + 1)
  {
    var idx := NatStr(k + 1);
    var t := LJust(playlists[k].name, 40) + " " + LJust(IntStr(playlists[k].trackCount), 8);
    assert ' ' !in idx by {
      forall j | 0 <= j < |idx| ensures idx[j] != ' ' { assert IsDigit(idx[j]); }
    }
    PaddedField(idx, 4, t);
    FirstFieldOf(idx, (LJust(idx, 4) + " " + t)[|idx| + 1..]);
    NatStrRoundTrip(k + 1);
  }

  // --------------------------------------------------------------- choice

  datatype Choice = Liked | Playlist(playlist: PlaylistInfo) | Invalid

  /** The branch `main` takes for one typed choice. `str.upper()` turns
      only 'l' and 'L' into "L"; `str.isdigit()` is taken on ASCII digits. */
  function ChoiceRule(choice: string, playlists: seq<PlaylistInfo>): Choice {
    if choice == "L" || choice == "l" then Liked
    else if |choice| >= 1 && AllDigits(choice) && 1 <= DigitsValue(choice) <= |playlists| then
      Playlist(playlists[DigitsValue(choice) - 1])
    else Invalid
  }

  /** Exactly 'l' and 'L' select the liked songs. */
  lemma LikedChoice(choice: string, playlists: seq<PlaylistInfo>)
    ensures ChoiceRule(choice, playlists) == Liked <==> choice == "L" || choice == "l"
  {
  }

  /** The printed number of a playlist selects it. */
  lemma NumberChoice(playlists: seq<PlaylistInfo>, n: nat)
    requires 1 <= n <= |playlists|
    ensures ChoiceRule(NatStr(n), playlists) == Playlist(playlists[n - 1])
  {
    NatStrRoundTrip(n);
    assert NatStr(n) != "L" && NatStr(n) != "l" by { assert IsDigit(NatStr(n)[0]); }
  }

  /** A playlist is selected exactly by a non-empty digit string whose value
      is between 1 and the number of playlists, and then it is that one. */
  lemma PlaylistChoice(choice: string, playlists: seq<PlaylistInfo>)
    ensures ChoiceRule(choice, playlists).Playlist? <==>
      |choice| >= 1 && AllDigits(choice) && 1 <= DigitsValue(choice) <= |playlists|
    ensures ChoiceRule(choice, playlists).Playlist? ==>
      ChoiceRule(choice, playlists).playlist == playlists[DigitsValue(choice) - 1]
  {
    if choice == "L" || choice == "l" {
      assert !IsDigit(choice[0]);
    }
  }

  /** Zero, the number after the last playlist and the empty string are rejected. */
  lemma RejectedChoices(playlists: seq<PlaylistInfo>)
    ensures ChoiceRule("0", playlists) == Invalid
    ensures ChoiceRule(NatStr(|playlists| + 1), playlists) == Invalid
    ensures ChoiceRule("", playlists) == Invalid
  {
    assert DigitsValue("0") == 0 by { assert "0"[..0] == []; }
    NatStrRoundTrip(|playlists| + 1);
    assert IsDigit(NatStr(|playlists| + 1)[0]);
  }

  /** The prompt loop, over the lines the user types one after another:
      every rejected line is followed by the retry message, and the first
      accepted line ends the loop. Running out of lines is an abort. The
      lines are those `click.prompt` returns, which re-asks on an empty line
      by itself, so none of them is empty. */
  method SelectPlaylist(inputs: seq<string>, playlists: seq<PlaylistInfo>)
    returns (r: Outcome<Choice>, used: nat, messages: seq<string>)
    requires forall i :: 0 <= i < |inputs| ==> inputs[i] != ""
    ensures used <= |inputs|
    ensures forall k :: 0 <= k < used ==> ChoiceRule(inputs[k], playlists) == Invalid
    ensures r.Returned? <==> used < |inputs|
    ensures r.Returned? ==> r.value == ChoiceRule(inputs[used], playlists) && r.value != Invalid
    ensures messages == seq(used, k requires 0 <= k < used => "Invalid selection. Please try again.")
  {
    used := 0;
    messages := [];
    while used < |inputs|
      invariant used <= |inputs|
      invariant forall k :: 0 <= k < used ==> ChoiceRule(inputs[k], playlists) == Invalid
      invariant messages == seq(used, k requires 0 <= k < used => "Invalid selection. Please try again.")
    {
      var c := ChoiceRule(inputs[used], playlists);
      if c != Invalid {
        r := Returned(c);
        return;
      }
      messages := messages + ["Invalid selection. Please try again."];
      used := used + 1;
    }
    r := Raised;
  }

}
