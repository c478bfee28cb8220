/**
 The player component (`Pianobar` in pianobar/pianobar.py). It covers how each line
 read from pianobar's output is classified, and which commands the component writes to
 pianobar's control FIFO for each notification it gets from the mediator.

 The process, the reader thread, the lock, the one-second waits and the FIFO itself are
 not modelled:
 - output arrives as a sequence of lines, each still carrying its newline;
 - the writes a call makes are collected in order;
 - each event the component reports to the mediator is returned as a value.
 */
module PianobarPlayer {
  import opened Wrappers
  import opened Strings
  import opened Numbers
  import opened Ansi
  import opened Protocol
  import opened PianobarParse

  /** The component's state. It holds the buffered output lines (`_output_buffer`), the
      last progress line (`_time_update`) and whether a pianobar process was launched
      (`_process` is set). */
  datatype PlayerState = PlayerState(buffer: seq<string>, timeUpdate: string, launched: bool)

  const Initial: PlayerState := PlayerState([], "", false)

  /** `_is_time_update`: pianobar's progress lines start with `#` once trimmed. */
  predicate IsTimeUpdate(line: string) {
    StartsWith(Strip(line, Whitespace), "#")
  }

  /** A line is a progress line exactly when its first character that is not whitespace
      is `#`. */
  lemma TimeUpdateMarker(line: string)
    ensures IsTimeUpdate(line) <==>
      exists i :: 0 <= i < |line| && line[i] == '#' && AllIn(line[..i], Whitespace)
  {
    var i0 := StripFrame(line, Whitespace);
    var t := Strip(line, Whitespace);
    if IsTimeUpdate(line) {
      assert t[0] == line[i0];
    }
    if exists i :: 0 <= i < |line| && line[i] == '#' && AllIn(line[..i], Whitespace) {
      var i :| 0 <= i < |line| && line[i] == '#' && AllIn(line[..i], Whitespace);
      assert i == i0;
      assert t[..1] == "#";
    }
  }

  /** The event an output line announces, judged on the cleaned line. A station change
      is recognised first. A song line whose text does not hold a song announces
      nothing. */
  function Announcement(cleaned: string): (e: Option<Event>)
    ensures e.Some? ==> e.value.NewStation? || e.value.NewSong?
    ensures e.Some? && e.value.NewSong? ==> e.value.song.Some?
    ensures e.Some? ==> Contains(cleaned, SongMarker)
    ensures Contains(cleaned, StationMarker) ==> e == Some(NewStation(Some(StationName(cleaned))))
    ensures e.Some? && !Contains(cleaned, StationMarker) ==> e.value.NewSong?
  {
    if Contains(cleaned, StationMarker) then
      StationLineHasSongMarker(cleaned);
      Some(NewStation(Some(StationName(cleaned))))
    else if Contains(cleaned, SongMarker) then
      match ExtractSong(cleaned)
      case Some(song) => Some(NewSong(Some(song)))
      case None => None
    else None
  }

  /** What reading one output line leaves behind: the new state and the event, if
      any, reported to the mediator. */
  datatype Reading = Reading(state: PlayerState, event: Option<Event>)

  /** The event one raw output line reports: none for a progress line. */
  function LineEvent(line: string): Option<Event> {
    if IsTimeUpdate(line) then None else Announcement(Clean(line))
  }

  /** The buffer entry one raw output line adds: none for a progress line. */
  function LineEntry(line: string): Option<string> {
    if IsTimeUpdate(line) then None else Some(Strip(line, Whitespace))
  }

  /** One iteration of `_read_output`. A progress line only replaces the time slot; any
      other line is buffered trimmed and then classified. Only a line carrying the song
      marker can report anything, and a station line always reports its station. */
  function ReadLine(st: PlayerState, line: string): (r: Reading)
    ensures r.state.launched == st.launched
    ensures IsTimeUpdate(line) ==>
      r.state.buffer == st.buffer && r.event.None? && r.state.timeUpdate == Strip(line, Whitespace)
    ensures !IsTimeUpdate(line) ==>
      r.state.timeUpdate == st.timeUpdate && r.state.buffer == st.buffer + [Strip(line, Whitespace)]
    ensures r.event.Some? ==> !IsTimeUpdate(line) && Contains(Clean(line), SongMarker)
    ensures r.event.Some? ==> (r.event.value.NewStation? <==> Contains(Clean(line), StationMarker))
    ensures !IsTimeUpdate(line) && Contains(Clean(line), StationMarker) ==>
      r.event == Some(NewStation(Some(StationName(Clean(line)))))
  {
    if IsTimeUpdate(line) then Reading(st.(timeUpdate := Strip(line, Whitespace)), None)
    else Reading(st.(buffer := st.buffer + [Strip(line, Whitespace)]), Announcement(Clean(line)))
  }

  /** The reader loop over a run of output lines. */
  datatype Run = Run(state: PlayerState, events: seq<Event>)

  function ReadLines(st: PlayerState, lines: seq<string>): (r: Run)
    decreases |lines|
  {
    if |lines| == 0 then Run(st, [])
    else
      var first := ReadLine(st, lines[0]);
      var rest := ReadLines(first.state, lines[1..]);
      Run(rest.state, (if first.event.Some? then [first.event.value] else []) + rest.events)
  }

  /** Every song notification among `events` carries a song. */
  predicate SongsPresent(events: seq<Event>) {
    forall k :: 0 <= k < |events| && events[k].NewSong? ==> events[k].song.Some?
  }

  /** The reader never reports a song notification without a song. */
  lemma ReadLinesSongsPresent(st: PlayerState, lines: seq<string>)
    ensures SongsPresent(ReadLines(st, lines).events)
  {
    ReadLinesSpec(st, lines);
    var src := FilterMapSources(LineEvent, lines);
  }

  /** Over a run of lines, the buffer grows by exactly the trimmed non-progress lines and
      the events are those the lines announce, one at most per line and in line order. */
  lemma {:induction false} ReadLinesSpec(st: PlayerState, lines: seq<string>)
    ensures ReadLines(st, lines).state.buffer == st.buffer + FilterMap(LineEntry, lines)
    ensures ReadLines(st, lines).events == FilterMap(LineEvent, lines)
    ensures ReadLines(st, lines).state.launched == st.launched
    decreases |lines|
  {
    if |lines| > 0 {
      var first := ReadLine(st, lines[0]);
      ReadLinesSpec(first.state, lines[1..]);
      if !IsTimeUpdate(lines[0]) {
        AppendAssoc(st.buffer, [Strip(lines[0], Whitespace)], FilterMap(LineEntry, lines[1..]));
      }
    }
  }

  /** A station line also contains the song marker, so the station test has to come
      first for station lines not to be read as songs. */
  lemma StationLineHasSongMarker(cleaned: string)
    requires Contains(cleaned, StationMarker)
    ensures Contains(cleaned, SongMarker)
  {
    assert StationMarker == SongMarker + "Station ";
    ContainsPrefix(cleaned, SongMarker, "Station ");
  }

  /** A station announcement, as pianobar prints it, is read as a station change to the
      quoted name. */
  lemma ReadStationAnnouncement(st: PlayerState, name: string)
    requires '"' !in name && Esc !in name && '\t' !in name
    ensures ReadLine(st, StationMarker + "\"" + name + "\"\n").event == Some(NewStation(Some(name)))
  {
    var line := StationMarker + "\"" + name + "\"\n";
    AnnouncementIsPlain(name);
    NotTimeUpdate(line);
    assert StartsWith(line, StationMarker);
    AnnouncedName(name);
  }

  lemma AnnouncementIsPlain(name: string)
    requires Esc !in name && '\t' !in name
    ensures var line := StationMarker + "\"" + name + "\"\n"; Clean(line) == line
  {
    var frame := StationMarker + "\"";
    assert Esc !in frame && '\t' !in frame;
    var line := frame + name + "\"\n";
    assert Esc !in line && '\t' !in line;
  }

  lemma AnnouncedName(name: string)
    requires '"' !in name
    ensures StationName(StationMarker + "\"" + name + "\"\n") == name
  {
    var core := StationMarker + "\"" + name + "\"";
    assert StationMarker + "\"" + name + "\"\n" == core + "\n";
    QuotedSegmentsSkipSuffix(core, "\n");
    StationNameOfLine(core + "\n");
    StationNameOfLine(core);
    StationNameOfAnnouncement(name);
  }

  /** A song line, as pianobar prints it, is read as that song. A field holding `|`
      could hold a station marker, which the reader checks first. */
  lemma ReadSongLine(st: PlayerState, s: Song)
    requires QuoteFree(s)
    requires Plain(s.title) && Plain(s.artist) && Plain(s.album)
    ensures ReadLine(st, SongLine(s)).event == Some(NewSong(Some(s)))
  {
    SongLineIsPlain(s);
    SongLineMarkers(s);
    SongLineRoundTrip(s);
  }

  lemma SongLineIsPlain(s: Song)
    requires Plain(s.title) && Plain(s.artist) && Plain(s.album)
    ensures Clean(SongLine(s)) == SongLine(s) && !IsTimeUpdate(SongLine(s))
  {
    var line := SongLine(s);
    var body := SongText(s) + "\n";
    assert line == SongMarker + body;
    SongBodyPlain(s);
    assert Esc !in line && '\t' !in line;
    NotTimeUpdate(line);
  }

  lemma SongLineMarkers(s: Song)
    requires Plain(s.title) && Plain(s.artist) && Plain(s.album)
    ensures Contains(SongLine(s), SongMarker) && !Contains(SongLine(s), StationMarker)
  {
    var line := SongLine(s);
    var body := SongText(s) + "\n";
    assert line == SongMarker + body;
    SongBodyPlain(s);
    SongTextEnds(s);
    assert '|' !in line[1..] by {
      assert line[1..] == ">  " + body;
    }
    assert line[4] == '"' && StationMarker[4] == 'S';
    StationMarkerOnlyAtStart(line);
    assert StartsWith(line, SongMarker);
  }

  /** Text a song field may hold for its line to be read back. */
  predicate Plain(field: string) {
    Esc !in field && '\t' !in field && '|' !in field
  }

  lemma SongBodyPlain(s: Song)
    requires Plain(s.title) && Plain(s.artist) && Plain(s.album)
    ensures var body := SongText(s) + "\n"; Esc !in body && '\t' !in body && '|' !in body
  {
    var init := ["", s.title, " by ", s.artist, " on ", s.album];
    assert SongPieces(s) == init + [Rating(s.favorite)];
    JoinSnoc(init, Rating(s.favorite), "\"");
    JoinExcludes(init, "\"", Esc);
    JoinExcludes(init, "\"", '\t');
    JoinExcludes(init, "\"", '|');
  }

  /** A line starting with a non-blank character other than `#` is not a progress line. */
  lemma NotTimeUpdate(line: string)
    requires |line| > 0 && line[0] !in Whitespace && line[0] != '#'
    ensures !IsTimeUpdate(line)
  {
    StripKeepsHead(line, Whitespace);
  }

  /** The station marker cannot occur in a line that only has `|` in front and does not
      start with the marker. */
  lemma StationMarkerOnlyAtStart(line: string)
    requires |line| > 0 && '|' !in line[1..] && !StartsWith(line, StationMarker)
    ensures !Contains(line, StationMarker)
  {
    NotContainedWithoutHead(line[1..], StationMarker);
  }

  lemma {:induction false} NotContainedWithoutHead(s: string, p: string)
    requires |p| > 0 && p[0] !in s
    ensures !Contains(s, p)
    decreases |s|
  {
    if |s| > 0 {
      assert s[0] in s;
      assert forall x :: x in s[1..] ==> x in s;
      NotContainedWithoutHead(s[1..], p);
    }
  }

  // ---------------------------------------------------------------- commands

  /** What the component does for one notification. It returns the new state, the
      commands written to the control FIFO in order, the events the reader reported
      meanwhile, and the station list for `GET_STATIONS` (the only event `notify`
      returns a value for). */
  datatype Reaction = Reaction(state: PlayerState, writes: seq<string>, events: seq<Event>, stations: Option<seq<Station>>)

  /** `_change_station`: open the station menu, type the number, confirm twice. */
  function ChangeStation(n: int): (w: seq<string>)
    ensures |w| == 4 && w[0] == CmdStationList && w[2] == CmdEnter && w[3] == CmdEnter
    ensures PyInt(w[1]) == Some(n)
  {
    IntRoundTrip(n);
    [CmdStationList, IntToString(n), CmdEnter, CmdEnter]
  }

  /** `_stop`: quit only when a process was launched. */
  function Stop(st: PlayerState): (w: seq<string>)
    ensures w == [] || w == [CmdQuit]
    ensures w == [CmdQuit] <==> st.launched
  {
    if st.launched then [CmdQuit] else []
  }

  /** `_get_stations`. The buffer is cleared and the menu is opened. The lines the reader
      takes in while the component waits (`arrived`) are buffered and classified as
      usual. The buffer is then parsed, the menu is closed and the buffer is cleared
      again. */
  function ListStations(st: PlayerState, arrived: seq<string>): (r: Reaction)
    ensures r.writes == [CmdStationList, CmdEnter]
    ensures r.state.buffer == []
    ensures r.stations.Some?
  {
    var run := ReadLines(st.(buffer := []), arrived);
    Reaction(run.state.(buffer := []), [CmdStationList, CmdEnter], run.events, Some(ParseStations(run.state.buffer)))
  }

  /** `notify`: only the mediator is listened to. */
  function Notify(st: PlayerState, sender: Component, event: Event, arrived: seq<string>): (r: Reaction)
    ensures sender != ConcreteMediator ==> r == Reaction(st, [], [], None)
    ensures r.stations.Some? <==> sender == ConcreteMediator && event == GetStations
    ensures r.state.launched == (st.launched || (sender == ConcreteMediator && event == Start))
  {
    if sender != ConcreteMediator then Reaction(st, [], [], None)
    else
      match event
      case GetStations => ReadLinesSpec(st.(buffer := []), arrived); ListStations(st, arrived)
      case Love => Reaction(st, [CmdLove], [], None)
      case MediaPlay => Reaction(st, [CmdPlayPause], [], None)
      case MediaNext => Reaction(st, [CmdNext], [], None)
      case Quit => Reaction(st, Stop(st), [], None)
      case Start => Reaction(st.(launched := true), [], [], None)
      case StationChangeRequested(n) => Reaction(st, ChangeStation(n), [], None)
      case _ => Reaction(st, [], [], None)
  }

  /** The station list `GET_STATIONS` returns comes only from the lines that arrived after
      the buffer was cleared, read in order; nothing buffered before leaks in. */
  lemma GetStationsReadsOnlyNewLines(st: PlayerState, arrived: seq<string>)
    ensures var r := Notify(st, ConcreteMediator, GetStations, arrived);
      && r.stations == Some(ParseStations(FilterMap(LineEntry, arrived)))
      && r.events == FilterMap(LineEvent, arrived)
      && r.writes == [CmdStationList, CmdEnter] && r.state.buffer == []
  {
    ReadLinesSpec(st.(buffer := []), arrived);
    AppendEmptyLeft(FilterMap(LineEntry, arrived));
  }

  lemma AppendEmptyLeft<T>(a: seq<T>)
    ensures [] + a == a
  {
  }

  /** The media keys and the heart each write exactly their one command. */
  lemma SingleCommands(st: PlayerState, arrived: seq<string>)
    ensures Notify(st, ConcreteMediator, Love, arrived) == Reaction(st, ["+\n"], [], None)
    ensures Notify(st, ConcreteMediator, MediaPlay, arrived) == Reaction(st, ["p"], [], None)
    ensures Notify(st, ConcreteMediator, MediaNext, arrived) == Reaction(st, ["n"], [], None)
  {
  }

  /** A station change writes the menu key, the number and two confirmations; the number
      written reads back as the one requested. */
  lemma ChangeStationTrace(st: PlayerState, n: int, arrived: seq<string>)
    ensures var r := Notify(st, ConcreteMediator, StationChangeRequested(n), arrived);
      && r.writes == ["s", IntToString(n), "\n", "\n"]
      && PyInt(r.writes[1]) == Some(n)
      && r.state == st
  {
  }

  /** Quitting writes `q` once a process was launched and nothing before. */
  lemma QuitTrace(st: PlayerState, arrived: seq<string>)
    ensures Notify(st, ConcreteMediator, Quit, arrived).writes == if st.launched then ["q"] else []
  {
  }
}
