/**
 The pure decoders of the player component (pianobar/pianobar.py): the station-name
 extraction inlined in `_read_output`, the song-line extractor `_extract_song_data`
 and the station-menu parser `_parse_stations`.
 */
module PianobarParse {
  import opened Wrappers
  import opened Strings
  import opened Numbers
  import opened Ansi
  import opened Protocol

  /** `strip("|> ")` removes these characters from both ends. */
  const MarkerChars: set<char> := {'|', '>', ' '}
  /** `strip("q  ")` removes these characters from both ends. */
  const SelectedChars: set<char> := {'q', ' '}

  const StationMarker: string := "|>  Station "
  const SongMarker: string := "|>  "
  const SelectedPrefix: string := "q  "
  const LoveMark: string := "<3"

  // ---------------------------------------------------------------- station name

  /** Pieces 1, 3, 5, ... of a split, leaving out the last piece: the pieces that have a
      separator on both sides. */
  function OddPieces(parts: seq<string>): seq<string> {
    var n := if |parts| == 0 then 0 else (|parts| - 1) / 2;
    seq(n, k requires 0 <= k < n => parts[2 * k + 1])
  }

  /** The texts between the 1st and 2nd, 3rd and 4th, ... double quotes of `s`;
      a final unpaired quote opens nothing. */
  function QuotedSegments(s: string): seq<string> {
    OddPieces(Split(s, '"'))
  }

  /** There is one segment per pair of quotes, and no segment holds a quote. */
  lemma QuotedSegmentsShape(s: string)
    ensures |QuotedSegments(s)| == Count(s, '"') / 2
    ensures forall k :: 0 <= k < |QuotedSegments(s)| ==> '"' !in QuotedSegments(s)[k]
  {
    SplitShapeCount(s, '"');
  }

  /** The station name a `|>  Station ` line announces: its quoted segments after
      `strip("|> ")`, joined by single spaces. */
  function StationName(line: string): (name: string)
    ensures '"' !in name
    ensures Count(line, '"') < 2 ==> name == ""
  {
    var segs := QuotedSegments(Strip(line, MarkerChars));
    QuotedSegmentsShape(Strip(line, MarkerChars));
    JoinExcludes(segs, " ", '"');
    FewQuotesNoName(line);
    JoinWith(segs, " ")
  }

  lemma FewQuotesNoSegments(t: string)
    requires Count(t, '"') < 2
    ensures QuotedSegments(t) == []
  {
    QuotedSegmentsShape(t);
  }

  lemma FewQuotesNoName(line: string)
    ensures Count(line, '"') < 2 ==> QuotedSegments(Strip(line, MarkerChars)) == []
  {
    if Count(line, '"') < 2 {
      StripKeepsCount(line, MarkerChars, '"');
      FewQuotesNoSegments(Strip(line, MarkerChars));
    }
  }

  /** The scan loop of `_read_output` (pianobar/pianobar.py:228-240), written with
      `find` as the source does; it computes `StationName`. */
  method ScanStationName(line: string) returns (station: string)
    ensures station == StationName(line)
  {
    var text := Strip(line, MarkerChars);
    var results: seq<string> := [];
    var start: nat := 0;
    assert text[0..] == text;
    while true
      invariant start <= |text|
      invariant Scanned(text, start, results)
      decreases |text| - start
    {
      var open := FindFrom(text, '"', start) + 1;
      if open == 0 {
        NoOpeningQuote(text, start);
        AppendEmpty(results);
        break;
      }
      var close := FindFrom(text, '"', open);
      if close == -1 {
        NoClosingQuote(text, start, open);
        AppendEmpty(results);
        break;
      }
      var found := results + [text[open..close]];
      ScanStep(text, start, open, close, results, found);
      results, start := found, close + 1;
    }
    StationNameUnfold(line);
    station := JoinWith(results, " ");
  }

  /** The segments found so far, followed by those of the unscanned rest from `start`,
      are the segments of the whole text. */
  predicate Scanned(text: string, start: nat, results: seq<string>)
    requires start <= |text|
  {
    results + QuotedSegments(text[start..]) == QuotedSegments(text)
  }

  /** One round of the scan keeps the found segments and the unscanned rest together. */
  lemma ScanStep(text: string, start: nat, open: nat, close: int, results: seq<string>, found: seq<string>)
    requires start < open && FindFrom(text, '"', start) == open - 1
    requires FindFrom(text, '"', open) == close != -1 && open <= close < |text|
    requires start <= |text| && Scanned(text, start, results)
    requires found == results + [text[open..close]]
    ensures Scanned(text, close + 1, found)
  {
    QuotePair(text, start, open, close);
    AppendAssoc(results, [text[open..close]], QuotedSegments(text[close + 1..]));
  }

  lemma StationNameUnfold(line: string)
    ensures StationName(line) == JoinWith(QuotedSegments(Strip(line, MarkerChars)), " ")
  {
  }

  lemma AppendEmpty<T>(a: seq<T>)
    ensures a + [] == a
  {
  }

  lemma AppendAssoc<T>(a: seq<T>, b: seq<T>, c: seq<T>)
    ensures a + (b + c) == (a + b) + c
  {
  }

  /** No quote at or after `a`: the tail from `a` is a single piece. */
  lemma NoQuoteFrom(text: string, a: nat)
    requires a <= |text| && FindFrom(text, '"', a) == -1
    ensures Split(text[a..], '"') == [text[a..]]
  {
    FindFromSpec(text, '"', a);
    SplitSeparatorFree(text[a..], '"');
  }

  lemma NoOpeningQuote(text: string, start: nat)
    requires start <= |text| && FindFrom(text, '"', start) == -1
    ensures QuotedSegments(text[start..]) == []
  {
    NoQuoteFrom(text, start);
  }

  /** Splitting the tail of `text` from `a` when its first quote is at `q`. */
  lemma SplitAtQuote(text: string, a: nat, q: nat)
    requires a <= q < |text| && text[q] == '"' && '"' !in text[a..q]
    ensures Split(text[a..], '"') == [text[a..q]] + Split(text[q + 1..], '"')
  {
    SliceOfSuffix(text, a, q - a);
    SliceOfSuffix(text, a, q - a + 1);
    FindIs(text[a..], '"', q - a);
    SplitUnfold(text[a..], '"', q - a);
  }

  lemma OddPiecesOfTwo(a: string, b: string)
    ensures OddPieces([a] + [b]) == []
  {
  }

  lemma OddPiecesCons(a: string, b: string, rest: seq<string>)
    requires |rest| >= 1
    ensures OddPieces([a] + ([b] + rest)) == [b] + OddPieces(rest)
  {
    var ps := [a] + ([b] + rest);
    assert forall k :: 2 <= k < |ps| ==> ps[k] == rest[k - 2];
  }

  lemma NoClosingQuote(text: string, start: nat, open: nat)
    requires start < open && FindFrom(text, '"', start) == open - 1
    requires FindFrom(text, '"', open) == -1
    ensures QuotedSegments(text[start..]) == []
  {
    SplitAtFoundQuote(text, start, open - 1);
    NoQuoteFrom(text, open);
    OddPiecesOfTwo(text[start..open - 1], text[open..]);
  }

  /** The first quote at or after `a` is at `q`: the tail from `a` splits there. */
  lemma SplitAtFoundQuote(text: string, a: nat, q: int)
    requires FindFrom(text, '"', a) == q != -1
    ensures a <= q < |text|
    ensures Split(text[a..], '"') == [text[a..q]] + Split(text[q + 1..], '"')
  {
    FindFromSpec(text, '"', a);
    SplitAtQuote(text, a, q);
  }

  lemma QuotePair(text: string, start: nat, open: nat, close: int)
    requires start < open && FindFrom(text, '"', start) == open - 1
    requires FindFrom(text, '"', open) == close != -1
    ensures open <= close < |text|
    ensures QuotedSegments(text[start..]) == [text[open..close]] + QuotedSegments(text[close + 1..])
  {
    SplitAtFoundQuote(text, start, open - 1);
    SplitAtFoundQuote(text, open, close);
    OddPiecesCons(text[start..open - 1], text[open..close], Split(text[close + 1..], '"'));
  }

  lemma OddPiecesReplaceFirst(a: string, b: string, rest: seq<string>)
    ensures OddPieces([a] + rest) == OddPieces([b] + rest)
  {
    assert forall k :: 1 <= k <= |rest| ==> ([a] + rest)[k] == ([b] + rest)[k];
  }

  lemma OddPiecesReplaceLast(init: seq<string>, a: string, b: string)
    ensures OddPieces(init + [a]) == OddPieces(init + [b])
  {
    assert forall k :: 0 <= k < |init| ==> (init + [a])[k] == (init + [b])[k];
  }

  /** A piece appended after an odd number of pieces has no partner and is dropped. */
  lemma OddPiecesAppendUnpaired(ps: seq<string>, t: string)
    requires |ps| % 2 == 1
    ensures OddPieces(ps + [t]) == OddPieces(ps)
  {
    assert forall k :: 0 <= k < |ps| ==> (ps + [t])[k] == ps[k];
  }

  /** Quote-free text in front of a line does not change its quoted segments. */
  lemma QuotedSegmentsSkipPrefix(p: string, x: string)
    requires '"' !in p
    ensures QuotedSegments(p + x) == QuotedSegments(x)
  {
    var ps := Split(x, '"');
    SplitExtendFirst(p, x, '"');
    assert ps == [ps[0]] + ps[1..];
    OddPiecesReplaceFirst(p + ps[0], ps[0], ps[1..]);
  }

  /** Quote-free text behind a line does not change its quoted segments. */
  lemma QuotedSegmentsSkipSuffix(x: string, q: string)
    requires '"' !in q
    ensures QuotedSegments(x + q) == QuotedSegments(x)
  {
    SplitExtendLast(x, q, '"');
    SplitShape(x, '"');
    OddPiecesReplaceLast(InitPieces(x, '"'), LastPiece(x, '"') + q, LastPiece(x, '"'));
  }

  /** Quote-free text on both sides does not change the quoted segments. */
  lemma QuotedSegmentsFramed(p: string, t: string, q: string)
    requires '"' !in p && '"' !in q
    ensures QuotedSegments(p + t + q) == QuotedSegments(t)
  {
    assert p + t + q == p + (t + q);
    QuotedSegmentsSkipPrefix(p, t + q);
    QuotedSegmentsSkipSuffix(t, q);
  }

  lemma StripKeepsSegments(line: string)
    ensures QuotedSegments(Strip(line, MarkerChars)) == QuotedSegments(line)
  {
    var i := StripFrame(line, MarkerChars);
    SegmentsOfFramed(line, i, |Strip(line, MarkerChars)|);
  }

  lemma SegmentsOfFramed(line: string, i: nat, n: nat)
    requires i + n <= |line|
    requires AllIn(line[..i], MarkerChars) && AllIn(line[i + n..], MarkerChars)
    ensures QuotedSegments(line[i..i + n]) == QuotedSegments(line)
  {
    var p, t, q := line[..i], line[i..i + n], line[i + n..];
    AllInExcludes(p, MarkerChars, '"');
    AllInExcludes(q, MarkerChars, '"');
    assert line == p + t + q;
    QuotedSegmentsFramed(p, t, q);
  }

  /** `strip("|> ")` never reaches a quote, so the station name only depends on the
      quoted segments of the line itself. */
  lemma StationNameOfLine(line: string)
    ensures StationName(line) == JoinWith(QuotedSegments(line), " ")
  {
    StripKeepsSegments(line);
  }

  lemma UnpairedQuoteSegments(x: string, tail: string)
    requires Count(x, '"') % 2 == 0
    requires '"' !in tail
    ensures QuotedSegments(x + "\"" + tail) == QuotedSegments(x)
  {
    assert x + "\"" + tail == x + ['"'] + tail;
    SplitConcat(x, tail, '"');
    SplitSeparatorFree(tail, '"');
    SplitShapeCount(x, '"');
    OddPiecesAppendUnpaired(Split(x, '"'), tail);
  }

  /** A trailing unpaired quote, and anything quote-free after it, is ignored. */
  lemma UnpairedQuoteIgnored(x: string, tail: string)
    requires Count(x, '"') % 2 == 0
    requires '"' !in tail
    ensures StationName(x + "\"" + tail) == StationName(x)
  {
    StationNameOfLine(x + "\"" + tail);
    StationNameOfLine(x);
    UnpairedQuoteSegments(x, tail);
  }

  lemma QuotedSegmentsOfQuoted(name: string)
    requires '"' !in name
    ensures QuotedSegments("\"" + name + "\"") == [name]
  {
    var x := "\"" + name + "\"";
    assert x == "" + ['"'] + (name + ['"'] + "");
    SplitConcat("", name + ['"'] + "", '"');
    SplitConcat(name, "", '"');
    SplitSeparatorFree("", '"');
    SplitSeparatorFree(name, '"');
    OddPiecesCons("", name, [""]);
  }

  /** A station line as the player prints it, with one quoted name. */
  lemma StationNameOfAnnouncement(name: string)
    requires '"' !in name
    ensures StationName(StationMarker + "\"" + name + "\"") == name
  {
    var line := StationMarker + "\"" + name + "\"";
    StationNameOfLine(line);
    assert line == StationMarker + ("\"" + name + "\"");
    QuotedSegmentsSkipPrefix(StationMarker, "\"" + name + "\"");
    QuotedSegmentsOfQuoted(name);
  }

  // ---------------------------------------------------------------- song line

  const LineEnd: set<char> := {'\n'}

  /** `_extract_song_data`: the text after `strip("|> ")` is split on `"`; with at least
      seven pieces, pieces 1, 3 and 5 are title, artist and album, and the song is a
      favourite when that text, with newlines stripped from both ends, ends with `<3`.
      Fewer pieces mean a malformed line and no song. */
  function ExtractSong(text: string): (r: Option<Song>)
    ensures r.Some? <==> Count(text, '"') >= 6
    ensures r.Some? ==> '"' !in r.value.title && '"' !in r.value.artist && '"' !in r.value.album
  {
    var t := Strip(text, MarkerChars);
    var parts := Split(t, '"');
    StripKeepsCount(text, MarkerChars, '"');
    SplitShapeCount(t, '"');
    if |parts| >= 7 then
      Some(Song(parts[1], parts[3], parts[5], EndsWith(Strip(t, LineEnd), LoveMark)))
    else None
  }

  /** Title, artist and album are the first three quoted segments of the line, the same
      segments a station line is read from. */
  lemma SongFieldsAreSegments(text: string)
    requires ExtractSong(text).Some?
    ensures |QuotedSegments(text)| >= 3
    ensures ExtractSong(text).value.title == QuotedSegments(text)[0]
    ensures ExtractSong(text).value.artist == QuotedSegments(text)[1]
    ensures ExtractSong(text).value.album == QuotedSegments(text)[2]
  {
    StripKeepsSegments(text);
  }

  /** Appending the love mark to a well-formed song line sets the favourite flag and
      leaves title, artist and album as they were. */
  lemma LoveMarkSetsFavorite(line: string)
    requires ExtractSong(line).Some?
    ensures ExtractSong(line + LoveMark) == Some(ExtractSong(line).value.(favorite := true))
  {
    var t := Strip(line, MarkerChars);
    var w := LoveMarkTail(line);
    SplitKeepsFields(t, w);
    StripKeepsEnding(t + w, LoveMark, LineEnd);
  }

  /** Separator-free text appended to a line of at least seven pieces keeps pieces 1, 3
      and 5. */
  lemma SplitKeepsFields(t: string, w: string)
    requires '"' !in w && |Split(t, '"')| >= 7
    ensures |Split(t + w, '"')| == |Split(t, '"')|
    ensures Split(t + w, '"')[1] == Split(t, '"')[1]
    ensures Split(t + w, '"')[3] == Split(t, '"')[3]
    ensures Split(t + w, '"')[5] == Split(t, '"')[5]
  {
    SplitExtendLast(t, w, '"');
    SplitShape(t, '"');
  }

  /** Stripping a song line with the love mark appended keeps everything the plain line
      kept, plus the marker-only tail `w` and the mark. */
  lemma LoveMarkTail(line: string) returns (w: string)
    requires Count(line, '"') >= 6
    ensures '"' !in w && EndsWith(w, LoveMark)
    ensures Strip(line + LoveMark, MarkerChars) == Strip(line, MarkerChars) + w
  {
    var i := StripFrame(line, MarkerChars);
    var t := Strip(line, MarkerChars);
    var p, q := line[..i], line[i + |t|..];
    assert line == p + t + q;
    StripKeepsCount(line, MarkerChars, '"');
    assert |t| > 0;
    w := q + LoveMark;
    assert line + LoveMark == p + (t + w) + "";
    StripOf(p, t + w, "", MarkerChars);
    AllInExcludes(q, MarkerChars, '"');
  }

  /** A song whose fields can be printed between quotes. */
  predicate QuoteFree(s: Song) {
    '"' !in s.title && '"' !in s.artist && '"' !in s.album
  }

  /** The pieces of a printed song between its quotes. */
  function SongPieces(s: Song): seq<string> {
    ["", s.title, " by ", s.artist, " on ", s.album, Rating(s.favorite)]
  }

  function Rating(favorite: bool): string {
    if favorite then " " + LoveMark else ""
  }

  /** What the player prints for a song once the line marker is removed:
      `"title" by "artist" on "album"`, then ` <3` for a loved song. */
  function SongText(s: Song): string {
    JoinWith(SongPieces(s), "\"")
  }

  /** The now-playing line as it is read from the player's output, newline included. */
  function SongLine(s: Song): string {
    SongMarker + SongText(s) + "\n"
  }

  /** Reading back a printed song line gives the song that was printed. */
  lemma SongLineRoundTrip(s: Song)
    requires QuoteFree(s)
    ensures ExtractSong(SongLine(s)) == Some(s)
  {
    var body := SongText(s);
    SongTextEnds(s);
    assert AllIn(SongMarker, MarkerChars);
    assert SongLine(s) == SongMarker + (body + "\n") + "";
    StripOf(SongMarker, body + "\n", "", MarkerChars);
    SongTextSplit(s);
    assert body + "\n" == "" + body + "\n";
    StripOf("", body, "\n", LineEnd);
  }

  lemma SongTextSplit(s: Song)
    requires QuoteFree(s)
    ensures var parts := Split(SongText(s) + "\n", '"');
      |parts| == 7 && parts[1] == s.title && parts[3] == s.artist && parts[5] == s.album
  {
    var ps := SongPieces(s);
    SplitJoin(ps, '"');
    SplitExtendLast(SongText(s), "\n", '"');
  }

  /** A printed song starts with a quote and ends with a quote or the love mark. */
  lemma SongTextEnds(s: Song)
    ensures |SongText(s)| > 0
    ensures SongText(s)[0] == '"' && SongText(s)[|SongText(s)| - 1] !in LineEnd
    ensures EndsWith(SongText(s), LoveMark) <==> s.favorite
  {
    var init := ["", s.title, " by ", s.artist, " on ", s.album];
    assert SongPieces(s) == init + [Rating(s.favorite)];
    JoinSnoc(init, Rating(s.favorite), "\"");
    assert init == [""] + init[1..];
    JoinCons("", init[1..], "\"");
    var body := SongText(s);
    assert body == "\"" + JoinWith(init[1..], "\"") + "\"" + Rating(s.favorite);
    if !s.favorite {
      assert body[|body| - 1] == '"';
    }
  }

  // ---------------------------------------------------------------- station menu

  /** One buffered line as `_parse_stations` reads it. The cleaned line must be non-empty,
      start with a digit and contain `)`; the text before the first `)` must parse as an
      integer, otherwise the line is skipped; the name is the rest of the line, trimmed
      and cleaned again. */
  function ParseStationLine(line: string): (r: Option<Station>)
    ensures r.Some? ==> r.value.number >= 0
  {
    var nl := Clean(line);
    if |nl| > 0 && IsAsciiDigit(nl[0]) && ')' in nl then
      FindSpec(nl, ')');
      var k := Find(nl, ')');
      MenuNumberUnsigned(nl, k);
      match PyInt(Strip(nl[..k], Whitespace))
      case None => None
      case Some(number) => Some(Station(number, MenuName(nl[k + 1..])))
    else None
  }

  /** The shape `_parse_stations` looks for in a cleaned line before reading a number. */
  predicate MenuShaped(nl: string) {
    |nl| > 0 && IsAsciiDigit(nl[0]) && ')' in nl
  }

  /** `int()` of the text before the first `)`, trimmed. */
  function MenuNumber(nl: string): Option<int>
    requires ')' in nl
  {
    FindSpec(nl, ')');
    PyInt(Strip(nl[..Find(nl, ')')], Whitespace))
  }

  /** A line gives an entry exactly when its cleaned text has the menu shape and the text
      before its first `)` is an integer; any other line is skipped. */
  lemma ParseStationLineAccepts(line: string)
    ensures ParseStationLine(line).Some? <==> MenuShaped(Clean(line)) && MenuNumber(Clean(line)).Some?
    ensures ParseStationLine(line).Some? ==> ParseStationLine(line).value.number == MenuNumber(Clean(line)).value
  {
  }

  /** The name part of a menu line: trimmed, cleaned, and, when it starts with the marker
      `q  ` of the station that is playing, passed through `strip("q  ")`, which removes
      every `q` and space at both ends. */
  function MenuName(rest: string): string {
    var name := Clean(Strip(rest, Whitespace));
    if StartsWith(name, SelectedPrefix) then Strip(name, SelectedChars) else name
  }

  /** The number in front of `)` starts with a digit, so it has no sign and is never
      negative when it parses. */
  lemma MenuNumberUnsigned(nl: string, k: int)
    requires 0 <= k < |nl| && nl[k] == ')' && IsAsciiDigit(nl[0])
    ensures PyInt(Strip(nl[..k], Whitespace)).Some? ==> PyInt(Strip(nl[..k], Whitespace)).value >= 0
  {
    var s := nl[..k];
    assert s[0] == nl[0];
    StripKeepsHead(s, Whitespace);
    StrippedForInt(s);
    PyIntUnsigned(Strip(s, Whitespace));
  }

  /** A marked name loses the marker and every `q` and space at its ends. */
  lemma MenuNameSelected(rest: string)
    requires StartsWith(Clean(Strip(rest, Whitespace)), SelectedPrefix)
    ensures var name := MenuName(rest);
      |name| == 0 || (name[0] !in SelectedChars && name[|name| - 1] !in SelectedChars)
  {
  }

  /** A name without the marker is only trimmed and cleaned. */
  lemma MenuNameUnselected(rest: string)
    requires !StartsWith(Clean(Strip(rest, Whitespace)), SelectedPrefix)
    ensures MenuName(rest) == Clean(Strip(rest, Whitespace))
    ensures '\t' !in MenuName(rest)
  {
  }

  /** `_parse_stations` over the buffered lines, in buffer order. */
  function ParseStations(buffer: seq<string>): (r: seq<Station>)
    ensures |r| <= |buffer|
  {
    FilterMap(ParseStationLine, buffer)
  }

  /** Parsing distributes over the concatenation of buffers: each line contributes on its
      own and the order of the lines is kept. */
  lemma ParseStationsAppend(a: seq<string>, b: seq<string>)
    ensures ParseStations(a + b) == ParseStations(a) + ParseStations(b)
  {
    FilterMapAppend(ParseStationLine, a, b);
  }

  /** A line that is not a menu entry is skipped and the rest are still read. */
  lemma ParseStationsSkips(a: seq<string>, line: string, b: seq<string>)
    requires ParseStationLine(line) == None
    ensures ParseStations(a + [line] + b) == ParseStations(a + b)
  {
    ParseStationsAppend(a + [line], b);
    ParseStationsAppend(a, [line]);
    FilterMapOne(ParseStationLine, line);
    ParseStationsAppend(a, b);
  }

  /** Every entry comes from its own buffered line, and entries keep the order of the
      lines they come from. */
  lemma ParseStationsSources(buffer: seq<string>) returns (src: seq<nat>)
    ensures |src| == |ParseStations(buffer)|
    ensures forall k :: 0 <= k < |src| ==> src[k] < |buffer| && ParseStationLine(buffer[src[k]]) == Some(ParseStations(buffer)[k])
    ensures forall j, k :: 0 <= j < k < |src| ==> src[j] < src[k]
  {
    src := FilterMapSources(ParseStationLine, buffer);
  }

  /** Control sequences and tab runs in front of a line do not change what is read. */
  lemma ParseIgnoresCsi(params: string, intermediates: string, final: char, line: string)
    requires IsCsiParts(params, intermediates, final)
    ensures ParseStationLine(Csi(params, intermediates, final) + line) == ParseStationLine(line)
  {
    CleanSkipsCsi(params, intermediates, final, line);
  }

  lemma ParseIgnoresTabRun(ws: string, line: string)
    requires AllIn(ws, Whitespace)
    requires |line| == 0 || !IsSpace(line[0])
    ensures ParseStationLine(['\t'] + ws + line) == ParseStationLine(line)
  {
    CleanSkipsTab(ws, line);
  }

  /** The menu entry the player prints for a station, as buffered (already trimmed):
      number, `) `, then the marker `q  ` in front of the station that is playing. */
  function MenuLine(st: Station, playing: bool): string {
    IntToString(st.number) + ") " + (if playing then SelectedPrefix else "") + st.name
  }

  /** A station name the menu can carry unchanged: no escape or tab, not blank at either
      end. */
  predicate PrintableName(name: string) {
    && |name| > 0 && Esc !in name && '\t' !in name
    && name[0] !in Whitespace && name[|name| - 1] !in Whitespace
  }

  /** An entry that reads back as the station printed: the number is not negative; a
      name that itself starts with `q  ` would be taken for a marked one, and a marked
      name only survives `strip("q  ")` when it neither starts nor ends with `q`. */
  predicate ReadableEntry(st: Station, playing: bool) {
    && st.number >= 0 && PrintableName(st.name)
    && (!playing ==> !StartsWith(st.name, SelectedPrefix))
    && (playing ==> st.name[0] != 'q' && st.name[|st.name| - 1] != 'q')
  }

  /** Reading back a printed menu entry gives the station. */
  lemma MenuLineRoundTrip(st: Station, playing: bool)
    requires ReadableEntry(st, playing)
    ensures ParseStationLine(MenuLine(st, playing)) == Some(st)
  {
    var d := IntToString(st.number);
    var mark := if playing then SelectedPrefix else "";
    var after := " " + mark + st.name;
    MenuLineShape(st, playing, d, after);
    NumberRoundTrip(st.number);
    MenuNameOf(mark, st.name, playing);
    ParsePlainEntry(MenuLine(st, playing), |d|, st.number, st.name);
  }

  lemma MenuLineShape(st: Station, playing: bool, d: string, after: string)
    requires st.number >= 0 && PrintableName(st.name)
    requires d == IntToString(st.number)
    requires after == " " + (if playing then SelectedPrefix else "") + st.name
    ensures var line := MenuLine(st, playing);
      && Clean(line) == line && IsAsciiDigit(line[0]) && ')' in line
      && Find(line, ')') == |d| && line[..|d|] == d && line[|d| + 1..] == after
  {
    var line := MenuLine(st, playing);
    assert line == d + [')'] + after;
    MenuLineIsPlain(d, after, line);
    FindIs(line, ')', |d|);
  }

  lemma NumberRoundTrip(n: int)
    ensures PyInt(Strip(IntToString(n), Whitespace)) == Some(n)
  {
    IntToStringEnds(n);
    StripUnchanged(IntToString(n), Whitespace);
    IntRoundTrip(n);
  }

  /** How an entry without escapes or tabs is read, once its number and name are known. */
  lemma ParsePlainEntry(line: string, k: nat, n: int, name: string)
    requires Clean(line) == line && |line| > 0 && IsAsciiDigit(line[0]) && ')' in line
    requires Find(line, ')') == k && k < |line|
    requires PyInt(Strip(line[..k], Whitespace)) == Some(n)
    requires MenuName(line[k + 1..]) == name
    ensures ParseStationLine(line) == Some(Station(n, name))
  {
  }

  lemma MenuLineIsPlain(d: string, after: string, line: string)
    requires |d| > 0 && AllDigits(d) && line == d + [')'] + after
    requires Esc !in after && '\t' !in after
    ensures Clean(line) == line
    ensures |line| > 0 && IsAsciiDigit(line[0]) && ')' in line
    ensures line[|d|] == ')' && ')' !in line[..|d|]
  {
    DigitsArePlain(d);
    assert line[..|d|] == d;
    assert line[0] == d[0];
  }

  lemma DigitsArePlain(d: string)
    requires AllDigits(d)
    ensures Esc !in d && '\t' !in d && ')' !in d
  {
    forall c | c in d
      ensures IsAsciiDigit(c)
    {
      var i :| 0 <= i < |d| && d[i] == c;
    }
  }

  lemma MenuNameOf(mark: string, name: string, playing: bool)
    requires PrintableName(name)
    requires mark == if playing then SelectedPrefix else ""
    requires !playing ==> !StartsWith(name, SelectedPrefix)
    requires playing ==> name[0] != 'q' && name[|name| - 1] != 'q'
    ensures MenuName(" " + mark + name) == name
  {
    if playing {
      MenuNameMarked(name);
    } else {
      assert " " + mark + name == " " + name;
      MenuNamePlain(name);
    }
  }

  lemma MenuNamePlain(name: string)
    requires PrintableName(name) && !StartsWith(name, SelectedPrefix)
    ensures MenuName(" " + name) == name
  {
    TrimLeadingSpace(name);
    assert Clean(name) == name;
  }

  lemma MenuNameMarked(name: string)
    requires PrintableName(name) && name[0] != 'q' && name[|name| - 1] != 'q'
    ensures MenuName(" " + SelectedPrefix + name) == name
  {
    var m := SelectedPrefix + name;
    MarkedIsPrintable(name);
    TrimLeadingSpace(m);
    StripMarker(name);
    assert " " + SelectedPrefix + name == " " + m;
    MenuNameOfTrimmed(" " + m, m);
  }

  lemma MenuNameOfTrimmed(rest: string, m: string)
    requires Strip(rest, Whitespace) == m && Esc !in m && '\t' !in m && StartsWith(m, SelectedPrefix)
    ensures MenuName(rest) == Strip(m, SelectedChars)
  {
  }

  lemma MarkedIsPrintable(name: string)
    requires PrintableName(name)
    ensures PrintableName(SelectedPrefix + name) && StartsWith(SelectedPrefix + name, SelectedPrefix)
  {
    var m := SelectedPrefix + name;
    assert m[0] == 'q' && m[|m| - 1] == name[|name| - 1];
    assert m[..|SelectedPrefix|] == SelectedPrefix;
    assert Esc !in m && '\t' !in m by {
      assert forall c :: c in m ==> c in SelectedPrefix || c in name;
    }
  }

  /** `strip("q  ")` removes the marker and nothing of a name that neither starts nor
      ends with `q` or a space. */
  lemma StripMarker(name: string)
    requires |name| > 0 && name[0] !in SelectedChars && name[|name| - 1] !in SelectedChars
    ensures Strip(SelectedPrefix + name, SelectedChars) == name
  {
    assert AllIn(SelectedPrefix, SelectedChars);
    assert SelectedPrefix + name == SelectedPrefix + name + "";
    StripOf(SelectedPrefix, name, "", SelectedChars);
  }

  lemma TrimLeadingSpace(m: string)
    requires PrintableName(m)
    ensures Strip(" " + m, Whitespace) == m
  {
    assert AllIn(" ", Whitespace);
    assert " " + m == " " + m + "";
    StripOf(" ", m, "", Whitespace);
  }

  /** The whole menu as buffered: one entry per station, in order, the entry at index
      `playing` marked as the one that is playing. */
  function MenuLines(stations: seq<Station>, playing: int): (lines: seq<string>)
    ensures |lines| == |stations|
  {
    seq(|stations|, i requires 0 <= i < |stations| => MenuLine(stations[i], i == playing))
  }

  /** Stations whose menu entries read back as themselves (see `MenuLineRoundTrip`). */
  predicate ReadableMenu(stations: seq<Station>, playing: int) {
    forall i :: 0 <= i < |stations| ==> ReadableEntry(stations[i], i == playing)
  }

  /** Reading back a printed menu gives the station list that was printed. */
  lemma MenuRoundTrip(stations: seq<Station>, playing: int)
    requires ReadableMenu(stations, playing)
    ensures ParseStations(MenuLines(stations, playing)) == stations
  {
    var lines := MenuLines(stations, playing);
    forall i | 0 <= i < |stations|
      ensures ParseStationLine(lines[i]) == Some(stations[i])
    {
      assert ReadableEntry(stations[i], i == playing);
      MenuLineRoundTrip(stations[i], i == playing);
    }
    FilterMapAllPresent(ParseStationLine, lines, stations);
  }

  /** A station list parsed from a line that gives an entry starts with that entry. */
  lemma ParseStationsCons(line: string, rest: seq<string>, st: Station)
    requires ParseStationLine(line) == Some(st)
    ensures ParseStations([line] + rest) == [st] + ParseStations(rest)
  {
    ParseStationsAppend([line], rest);
    FilterMapOne(ParseStationLine, line);
  }
}
