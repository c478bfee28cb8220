# python-pianobar-wrapper, modelled in Dafny

python-pianobar-wrapper puts a desktop window and a tray icon around the console player
pianobar. Its components talk only through a mediator, which routes named events between
them. The components are the key listener, the main window, the pianobar component and
the systray. This project models three parts of that program as pure functions over
immutable data, and proves what they promise.

- **The pianobar component** (`PianobarPlayer`, `PianobarParse`, `Ansi`). It cleans ANSI
  escape sequences and tab runs out of pianobar's output lines. It classifies each line
  as one of three kinds: a progress line, a station announcement, or a song announcement.
  Other lines are buffered. It also extracts songs and station names, and parses the
  station menu. Each command is modelled as the exact list of strings written to
  pianobar's control FIFO.
- **The mediator** (`Mediator`). The router state is the readiness latch plus two caches:
  the last song and the last station. The mediator's handlers are one step function per
  sender. Each step returns the new state and the ordered messages it sends. Start-up is
  an ordered trace that either runs on or exits with status 1.
- **The main window's non-widget logic** (`Window`). This covers:
  - the sender guard and the dispatch;
  - the labels and the favourite heart a song sets;
  - the station list box and how a selected entry becomes a station-change request;
  - the heart double-click;
  - the order of the first data requests.

`Session` chains the components through the router. It follows a station change from the
menu pianobar prints to the command written back to pianobar. It also follows start-up to
the window's first requests.

Python's built-ins are modelled where the code relies on them:
- `str.strip`, with and without a character set, is `Strings.Strip`;
- `str.split` and `str.find` are `Split` and `Find`;
- `int()` is `PyInt`, and `str()` of an integer is `IntToString`.

Whitespace is Python's fixed set of Unicode space characters. Digits are ASCII.

## Model

| member | source | states |
|---|---|---|
| Ansi.Clean | pianobar/pianobar.py:253-265 | The cleaner's output has no tab and is never longer than its input. A line with neither ESC nor tab comes back unchanged. |
| Ansi.CleanSkipsCsi | pianobar/pianobar.py:263-264 | An escape sequence ESC `[` parameters intermediates final at the front is removed entirely. |
| Ansi.CleanSkipsTab | pianobar/pianobar.py:263-264 | A tab and the whitespace run after it are removed together. |
| Ansi.CleanKeepsPlainPrefix | pianobar/pianobar.py:263-264 | Text without ESC or tab passes through the scan unchanged, whatever follows it. |
| Ansi.CleanStripsNoise | pianobar/pianobar.py:263-264 | Text framed by two escape sequences comes out as the text alone. |
| PianobarPlayer.TimeUpdateMarker | pianobar/pianobar.py:172-174 | `IsTimeUpdate` holds exactly when the first character of the line that is not whitespace is `#`. |
| PianobarPlayer.ReadLine | pianobar/pianobar.py:219-244 | A progress line sets the time slot to its trimmed text, leaves the buffer alone and reports nothing. Any other line leaves the time slot alone and adds exactly its trimmed text to the buffer. Only a non-progress line whose cleaned text holds the song marker can report an event. A station event comes exactly from a line holding the station marker, and such a line always reports its station. |
| PianobarPlayer.Announcement | pianobar/pianobar.py:227-251 | A cleaned line only announces a station or a song, and only if it holds the song marker. A line holding the station marker (bar, `>`, two spaces, `Station `) gives a station event with its name, never a song. Any other event is a song event, and it always carries a song. |
| PianobarPlayer.ReadLinesSpec | pianobar/pianobar.py:219-251 | Over a run of lines, the buffer grows by exactly the trimmed non-progress lines. The events are exactly those the lines announce, in line order. |
| PianobarPlayer.ReadLinesSongsPresent | pianobar/pianobar.py:244-251 | The reader never reports a song notification without a song. |
| PianobarPlayer.StationLineHasSongMarker | pianobar/pianobar.py:227-244 | Every station line also holds the song marker, so the station check must come first. |
| PianobarPlayer.ReadStationAnnouncement | pianobar/pianobar.py:227-243 | A station announcement with a quoted name yields a station event with exactly that name. |
| PianobarPlayer.ReadSongLine | pianobar/pianobar.py:244-251 | A song line as pianobar prints it yields a song event with that very song. |
| PianobarParse.StationName | pianobar/pianobar.py:228-240 | The station name never contains `"`. It is empty when the line has fewer than two quotes. |
| PianobarParse.ScanStationName | pianobar/pianobar.py:228-240 | The source's find loop computes the same name as the declarative definition. |
| PianobarParse.QuotedSegmentsShape | pianobar/pianobar.py:231-239 | A line with c quotes has c/2 quoted segments, none containing `"`. |
| PianobarParse.StationNameOfLine | pianobar/pianobar.py:228-240 | The name is the text between quotes 1–2, 3–4, … of the raw line, joined by single spaces. The character-set strip of bars, `>` and spaces does not change it. |
| PianobarParse.UnpairedQuoteIgnored | pianobar/pianobar.py:235-237 | A trailing unpaired quote does not change the name. |
| PianobarParse.StationNameOfAnnouncement | pianobar/pianobar.py:227-240 | The name of a station announcement whose only quoted text is n is n. |
| PianobarParse.ExtractSong | pianobar/pianobar.py:113-153 | A song is found exactly when the text holds at least six quotes (seven parts after the split). Title, artist and album never contain `"`. |
| PianobarParse.SongFieldsAreSegments | pianobar/pianobar.py:133-138 | Title, artist and album are the first three quoted segments of the text. |
| PianobarParse.LoveMarkSetsFavorite | pianobar/pianobar.py:139-146 | Appending `<3` to a line that holds a song marks it a favourite and changes nothing else. |
| PianobarParse.SongTextEnds | pianobar/pianobar.py:140 | A printed song ends with `<3` exactly when it is a favourite. |
| PianobarParse.SongLineRoundTrip | pianobar/pianobar.py:113-148 | Extracting the song from the line pianobar prints for it gives the song back. |
| PianobarParse.ParseStationLine | pianobar/pianobar.py:188-203 | A parsed entry's number is never negative, because the text in front of `)` starts with a digit. |
| PianobarParse.ParseStationLineAccepts | pianobar/pianobar.py:189-197 | A line gives an entry exactly when its cleaned text is non-empty, starts with a digit and contains `)`, and the text before the first `)` is an integer. Any other line is skipped, not fatal. |
| PianobarParse.MenuNameSelected | pianobar/pianobar.py:199-202 | `MenuName`: a name marked `q  ` loses every `q` and space at both ends. |
| PianobarParse.MenuNameUnselected | pianobar/pianobar.py:199-201 | `MenuName`: any other name is only trimmed and cleaned, and holds no tab. |
| PianobarParse.ParseStations | pianobar/pianobar.py:183-205 | The station list has at most one entry per buffered line. |
| PianobarParse.ParseStationsAppend | pianobar/pianobar.py:188-203 | Parsing distributes over concatenated buffers. |
| PianobarParse.ParseStationsSkips | pianobar/pianobar.py:194-197 | A line that gives no entry can be removed without changing the list. |
| PianobarParse.ParseStationsSources | pianobar/pianobar.py:188-203 | Each entry comes from its own buffered line, and entries keep buffer order. |
| PianobarParse.ParseIgnoresCsi | pianobar/pianobar.py:189 | An escape sequence in front of a menu line does not change what it parses to. |
| PianobarParse.ParseIgnoresTabRun | pianobar/pianobar.py:189 | A tab run in front of a menu line does not change what it parses to. |
| PianobarParse.MenuLineRoundTrip | pianobar/pianobar.py:188-203 | A menu line `n) name` parses back to station n with that name. With the playing marker `n) q  name`, the result is the same. |
| PianobarParse.MenuRoundTrip | pianobar/pianobar.py:183-205 | Parsing a printed menu gives back its stations, in order. |
| PianobarPlayer.ChangeStation | pianobar/pianobar.py:96-107 | The station change writes `s`, the number, a newline and a newline, and the number reads back as the one requested. |
| PianobarPlayer.Stop | pianobar/pianobar.py:298-305 | Quitting writes `q` exactly when a pianobar process was launched, and nothing otherwise. |
| PianobarPlayer.ListStations | pianobar/pianobar.py:155-166 | Fetching the stations writes `s` then a newline, returns a list and leaves the buffer empty. |
| PianobarPlayer.Notify | pianobar/pianobar.py:70-94 | Senders other than the mediator change nothing and write nothing. A station list is returned exactly for `GET_STATIONS`. Only `START` launches the process. |
| PianobarPlayer.GetStationsReadsOnlyNewLines | pianobar/pianobar.py:155-166 | The returned list is parsed from exactly the lines that arrived after the buffer was cleared. Nothing buffered earlier leaks in. |
| PianobarPlayer.SingleCommands | pianobar/pianobar.py:79-88 | `LOVE`, `MEDIA_PLAY` and `MEDIA_NEXT` write `+\n`, `p` and `n`, and change nothing else. |
| PianobarPlayer.ChangeStationTrace | pianobar/pianobar.py:93-107 | `STATION_CHANGE_REQUESTED(n)` writes `s`, `str(n)`, a newline and a newline, and changes no state. |
| PianobarPlayer.QuitTrace | pianobar/pianobar.py:89-90 | `QUIT` writes `q` only when a process was launched. |
| Numbers.IntRoundTrip | pianobar/pianobar.py:105 | `PyInt(IntToString(n)) == Some(n)`: `int(str(n)) == n` for every integer n. |
| Numbers.PaddedIntRoundTrip | pianobar/pianobar.py:105 | `int()` of a number's spelling padded with the whitespace it skips gives the number back. |
| Numbers.PyIntUnsigned | pianobar/pianobar.py:195 | `PyInt` of text whose trimmed form starts with a digit parses exactly when that form is all digits, and then to a non-negative value. |
| Numbers.PyIntRejectsBlank | main_window/main_window.py:344 | `int()` of text made only of whitespace raises. |
| Numbers.PyIntRejectsSeparator | main_window/main_window.py:344 | `int()` skips a newline and a space, but not the information separator U+001C, although `str.isspace` holds for it. |
| Mediator.FromKeyListener | mediator/concrete_mediator.py:121-132 | Key-listener events never change the router state. Something is sent exactly for `MEDIA_PLAY` and `MEDIA_NEXT`, and it is that event, sent to the player. |
| Mediator.FromWindow | mediator/concrete_mediator.py:141-177 | The window's events never touch the caches. The latch ends up set exactly when it was set or the event is `MAIN_WINDOW_READY`. The player only ever gets the window's own event. The window is only sent something in reply to `GET_SONG_DATA`, `GET_STATION` or `GET_STATIONS`. |
| Mediator.FromPlayer | mediator/concrete_mediator.py:179-198 | The player's events never change the latch. Before the window is ready nothing is sent. Once it is ready the state is unchanged, and a song or station event is sent to the window once, as it came. |
| Mediator.Notify | mediator/concrete_mediator.py:84-108 | The latch is set exactly by `MAIN_WINDOW_READY` from the window, and is never cleared. The only way out is an exit with status 1 during `START` from main. |
| Mediator.WarmupKeepsLatch | mediator/concrete_mediator.py:179-198 | The player's events never change the latch. |
| Mediator.CachesBeforeReady | mediator/concrete_mediator.py:183-195 | Before the window is ready, a song or station from the player overwrites its cache and nothing is sent. |
| Mediator.ForwardsOnceReady | mediator/concrete_mediator.py:188-198 | Once ready, a song or station from the player goes to the window unchanged, and the caches stay. |
| Mediator.RepliesFromCache | mediator/concrete_mediator.py:145-152 | `GET_SONG_DATA` and `GET_STATION` reply to the window with the cached value, possibly None, ready or not. |
| Mediator.ForwardsControls | mediator/concrete_mediator.py:121-177 | The player's controls from the key listener or the window go to the player with their payload. Any other key-listener event is dropped. |
| Mediator.StationListBeforeNotice | mediator/concrete_mediator.py:110-119 | `GET_STATIONS` asks the player, hands the list to the window, and only then sends `STATIONS`. |
| Mediator.SystrayAndUnknown | mediator/concrete_mediator.py:200-204 | `FromSystray`: the tray's events reach the window verbatim. An unknown sender changes nothing and sends nothing. |
| Mediator.WarmupCaches | mediator/concrete_mediator.py:179-198 | While not ready, a run of player events leaves the last song and the last station in the caches and sends nothing. |
| Mediator.Startup | mediator/concrete_mediator.py:206-228 | Start-up either runs on or exits with status 1. |
| Mediator.StartupOrder | mediator/concrete_mediator.py:206-228 | The key listener starts, then the player. The program exits with status 1, after telling the player to quit, exactly when no song was seen. Otherwise the tray starts, then the window. |
| Mediator.ReadyIsFinal | mediator/concrete_mediator.py:159-160 | Once ready, no run of notifications changes the router state again. |
| Mediator.LatchSetOnlyBySignal | mediator/concrete_mediator.py:65 | The latch starts false and becomes true only if the window sent `MAIN_WINDOW_READY`. |
| Window.Notify | main_window/main_window.py:103-121 | Only the mediator is listened to. `NEW_SONG` without a song is the only failure. `QUIT` closes the window and passes `QUIT` on. `START` sends the first requests and changes nothing. `STATIONS` renders the station list and sends nothing. Nothing is sent for any other event, and only `QUIT` closes the window. |
| Window.IgnoresOtherEvents | main_window/main_window.py:108-121 | Events other than the six it handles leave the window unchanged. |
| Window.ShowSong | main_window/main_window.py:425-451 | A song sets the favourite flag and the heart colour to its own flag, and leaves the station widgets alone. |
| Window.SongSetsFavorite | main_window/main_window.py:435-451 | Receiving a song sets the favourite flag and the heart to the song's flag. |
| Window.Render | main_window/main_window.py:453-462 | The list box holds exactly one `n: name` entry per station, in list order. |
| Window.StationsRendered | main_window/main_window.py:120-121 | `STATIONS` replaces whatever the list box showed with the rendered station list. |
| Window.ChangeStationPressed | main_window/main_window.py:329-353 | With nothing selected nothing is sent. Otherwise at most one `STATION_CHANGE_REQUESTED` is sent, and the window is unchanged. |
| Window.SelectionRoundTrip | main_window/main_window.py:336-349 | Selecting the i-th rendered entry requests the i-th station by its number. |
| Window.EntryNumberText | main_window/main_window.py:344 | The text before the first `:` of an entry is the station's number. |
| Window.HeartDoubleClick | main_window/main_window.py:355-365 | The flag flips. `LOVE` is sent exactly when it turns on. The heart is coloured when it turns on and is not greyed when it turns off. |
| Window.HeartTwice | main_window/main_window.py:355-365 | Two double-clicks restore the flag and send `LOVE` exactly once. |
| Window.InitialRequestOrder | main_window/main_window.py:319-327 | The first requests go out as `MAIN_WINDOW_READY`, `GET_STATION`, `GET_SONG_DATA`, `GET_STATIONS`. |
| Session.PrintedMenuBuffered | pianobar/pianobar.py:224-225 | The printed menu's lines are buffered as the menu entries. |
| Session.FetchedStations | mediator/concrete_mediator.py:114-116 | Asking the player for the stations while pianobar prints its menu returns exactly the menu's stations. |
| Session.PickStationWritesItsNumber | main_window/main_window.py:329-349 | Suppose pianobar prints a menu, the window shows the stations read from it, and the user picks entry i. Then the player writes `s`, entry i's number, a newline and a newline. |
| Session.FirstRequestsAnswered | mediator/concrete_mediator.py:141-160 | The window's first requests set the latch. The window then gets the cached station, the cached song, the station list and the notice, in that order. |
| Session.StartupThenFirstRequests | mediator/concrete_mediator.py:206-228 | After a start-up that runs on, the first requests are answered with a song present, so the window does not fail on it. |
| Session.SongCacheStaysSet | mediator/concrete_mediator.py:191-195 | Once the router has a song, events from the reader never take it away. |
| Session.SongDataAlwaysShown | mediator/concrete_mediator.py:145-148 | After a start-up that runs on, whatever the player reads later, `GET_SONG_DATA` is answered with a song the window shows without failing. |

## Left out

- Process and FIFO I/O: starting `/usr/bin/pianobar`, the reader thread, opening the FIFO and the sleeps. A write is an element of the returned command list. pianobar's standard output is a given list of lines. During `_get_stations`, the lines that arrive while the component sleeps are a parameter of `ListStations`.
- Concurrency: the lock around the buffer and the unlocked `_send_command`. Each handler runs as one atomic step.
- The calls the mediator makes into the other components are not modelled as calls. Their results are parameters (`Mediator.Env`): the player's station list, and the player's events during start-up.
- Window.Notify: a Python exception (`NEW_SONG` with None, or a list-box entry that is not a number) is the outcome `Raised`. What happens to the exception afterwards, in Tk's callback machinery or in the mediator's caller, is not modelled.
- Window.ChangeStationPressed: requires the selected indices to lie inside the list box. Tk's `curselection` only returns such indices.
- The widgets themselves: layout, images, fonts, the main loop, showing and hiding the window, the SIGINT handler, `Show` (it only raises the window), and the navigation list box.
- key_listener/key_listener.py, systray/systray.py, main.py, and the base classes mediator/base_component.py and mediator/mediator.py. The key listener and the tray appear only as senders. The event tags of constants/constants.py are the `Protocol.Event` constructors. song/song.py is not part of this model; a song is the record `Protocol.Song`.
- Python `int()` accepts Unicode digits and underscores, and `str.isdigit` accepts Unicode digits. The model accepts only ASCII digits, an optional sign and surrounding whitespace. That whitespace is `str.isspace` without U+001C..U+001F, as CPython's `int()` skips it.
- `sys.exit(1)` is the outcome `Exited(1)`. The mediator's later notifications are then not handled.
- `_extract_song_data`'s `text is None` branch is unreachable after `strip`, so it has no counterpart.
- Logging.

## Notes on the code

- The progress check `_is_time_update` looks at the raw line, before escape sequences and tabs are removed. The model does the same.
- `strip("|> ")` and `strip("q  ")` are character-set strips on both ends, not prefix removals. For example, a playing station named `queen` is printed as `q  queen` and is read back as `ueen`. The model keeps this, so `MenuLineRoundTrip` needs a playing station's name not to start or end with `q`.
- `_time_update` starts as the empty string, and the window's favourite flag starts as None, which the model reads as false.
