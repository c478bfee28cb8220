/**
 The non-widget logic of `MainWindow` (main_window/main_window.py). It covers:
 - which notifications the window acts on;
 - the labels and the favourite heart a song sets;
 - the station list box, and how a selected entry becomes a station-change request;
 - the heart toggle;
 - the order of the window's first requests.

 Layout, images, fonts, the Tk main loop, showing and hiding the window and the SIGINT
 handler are not modelled. A widget is represented by the text or flag it shows.
 */
module Window {
  import opened Wrappers
  import opened Strings
  import opened Numbers
  import opened Protocol

  /** What the window keeps:
      - the favourite flag (`_is_favorite`, falsy at first) and whether the heart shows
        its colour image;
      - the station list the router hands over (`station_list`) and the entries of the
        list box;
      - the texts of the song, artist, album and station labels;
      - whether the window was closed. */
  datatype WindowState = WindowState(
    favorite: bool,
    heartColored: bool,
    stationList: seq<Station>,
    listbox: seq<string>,
    songLabel: string,
    artistLabel: string,
    albumLabel: string,
    stationLabel: string,
    closed: bool)

  const Initial: WindowState := WindowState(false, false, [], [], "", "", "", "Station", false)

  /** The end of one handler. `Handled` gives the new state and the events sent to the
      router, in order. `Raised` means the handler stopped on a Python exception before
      changing anything or sending anything. */
  datatype Reaction = Handled(state: WindowState, sent: seq<Event>) | Raised

  /** `_get_data`: the requests the window makes once its widgets exist. */
  const InitialRequests: seq<Event> := [MainWindowReady, GetStation, GetSongData, GetStations]

  /** Python's `f"{x}"` for an optional name. */
  function Shown(x: Option<string>): string {
    match x
    case Some(s) => s
    case None => "None"
  }

  /** `_update_labels`: the three labels and the heart follow the song. */
  function ShowSong(w: WindowState, s: Song): (r: WindowState)
    ensures r.favorite == s.favorite && r.heartColored == s.favorite
    ensures r.stationList == w.stationList && r.listbox == w.listbox && r.stationLabel == w.stationLabel
  {
    w.(songLabel := s.title, artistLabel := "By: " + s.artist, albumLabel := "From: " + s.album,
       favorite := s.favorite, heartColored := s.favorite)
  }

  /** The list box entry for a station. */
  function EntryText(st: Station): string {
    IntToString(st.number) + ": " + st.name
  }

  /** `_update_station_listbox`: the box is emptied and then filled with one entry per
      station, in list order. */
  function Render(stations: seq<Station>): (entries: seq<string>)
    ensures |entries| == |stations|
    ensures forall i :: 0 <= i < |stations| ==> entries[i] == EntryText(stations[i])
  {
    seq(|stations|, i requires 0 <= i < |stations| => EntryText(stations[i]))
  }

  /** `notify`: only the router is listened to, and only for six events. A song
      notification without a song fails on the attribute access. */
  function Notify(w: WindowState, sender: Component, event: Event): (r: Reaction)
    ensures sender != ConcreteMediator ==> r == Handled(w, [])
    ensures r.Raised? <==> sender == ConcreteMediator && event == NewSong(None)
    ensures sender == ConcreteMediator && event == Quit ==> r == Handled(w.(closed := true), [Quit])
    ensures sender == ConcreteMediator && event == Start ==> r == Handled(w, InitialRequests)
    ensures sender == ConcreteMediator && event == Stations ==>
      r.Handled? && r.state.listbox == Render(w.stationList) && r.sent == []
    ensures r.Handled? && |r.sent| > 0 ==> sender == ConcreteMediator && (event == Quit || event == Start)
    ensures r.Handled? && r.state.closed != w.closed ==> event == Quit
  {
    if sender != ConcreteMediator then Handled(w, [])
    else
      match event
      case NewSong(song) =>
        (match song
         case Some(s) => Handled(ShowSong(w, s), [])
         case None => Raised)
      case NewStation(x) => Handled(w.(stationLabel := "Station: " + Shown(x)), [])
      case Quit => Handled(w.(closed := true), [Quit])
      case Show => Handled(w, [])
      case Start => Handled(w, InitialRequests)
      case Stations => Handled(w.(listbox := Render(w.stationList)), [])
      case _ => Handled(w, [])
  }

  /** The router's assignment to `station_list`. */
  function SetStationList(w: WindowState, stations: seq<Station>): (r: WindowState)
    ensures r.stationList == stations && r.listbox == w.listbox
  {
    w.(stationList := stations)
  }

  /** `_handle_change_station_btn_pressed`. The first selected entry's text before its
      first `:` is read as the station number. Text that is not a number raises
      `ValueError`; with nothing selected nothing is sent. */
  function ChangeStationPressed(w: WindowState, selection: seq<nat>): (r: Reaction)
    requires forall k :: 0 <= k < |selection| ==> selection[k] < |w.listbox|
    ensures |selection| == 0 ==> r == Handled(w, [])
    ensures r.Handled? ==> r.state == w && |r.sent| <= 1
    ensures r.Handled? && |r.sent| == 1 ==> r.sent[0].StationChangeRequested?
  {
    if |selection| == 0 then Handled(w, [])
    else
      var entry := w.listbox[selection[0]];
      match PyInt(Split(entry, ':')[0])
      case Some(n) => Handled(w, [StationChangeRequested(n)])
      case None => Raised
  }

  /** `_handle_heart_double_click`. The flag flips. Turning it on colours the heart and
      sends `LOVE`. Turning it off sends nothing and leaves the heart image as it was. */
  function HeartDoubleClick(w: WindowState): (r: Reaction)
    ensures r.Handled? && r.state.favorite == !w.favorite
    ensures r.state.heartColored == (w.heartColored || r.state.favorite)
    ensures r.sent == if r.state.favorite then [Love] else []
  {
    if !w.favorite then Handled(w.(favorite := true, heartColored := true), [Love])
    else Handled(w.(favorite := false), [])
  }

  // ---------------------------------------------------------------- properties

  /** The six events the window acts on. */
  predicate Handles(event: Event) {
    event.NewSong? || event.NewStation? || event == Quit || event == Show || event == Start || event == Stations
  }

  /** Anything else from the router leaves the window as it is. */
  lemma IgnoresOtherEvents(w: WindowState, event: Event)
    requires !Handles(event)
    ensures Notify(w, ConcreteMediator, event) == Handled(w, [])
  {
  }

  /** The first requests go out in a fixed order: the ready signal first, then station,
      song and station list. */
  lemma InitialRequestOrder(w: WindowState)
    ensures Notify(w, ConcreteMediator, Start) == Handled(w, [MainWindowReady, GetStation, GetSongData, GetStations])
  {
  }

  /** A song's favourite flag becomes the window's, and the heart shows it. */
  lemma SongSetsFavorite(w: WindowState, s: Song)
    ensures Notify(w, ConcreteMediator, NewSong(Some(s))).state.favorite == s.favorite
    ensures Notify(w, ConcreteMediator, NewSong(Some(s))).state.heartColored == s.favorite
  {
  }

  /** The list box shows exactly the station list, one entry per station in order,
      whatever it showed before. */
  lemma StationsRendered(w: WindowState)
    ensures var r := Notify(w, ConcreteMediator, Stations);
      && r.Handled? && r.sent == []
      && |r.state.listbox| == |w.stationList|
      && forall i :: 0 <= i < |w.stationList| ==> r.state.listbox[i] == EntryText(w.stationList[i])
  {
  }

  /** A rendered entry's text before its first `:` is the station number. */
  lemma EntryNumberText(st: Station)
    ensures Split(EntryText(st), ':')[0] == IntToString(st.number)
  {
    var d := IntToString(st.number);
    assert ':' !in d;
    assert EntryText(st) == d + [':'] + (" " + st.name);
    SplitAround(d, " " + st.name, ':');
  }

  /** Selecting the i-th rendered entry requests the i-th station by its number. */
  lemma SelectionRoundTrip(w: WindowState, i: nat, rest: seq<nat>)
    requires w.listbox == Render(w.stationList)
    requires i < |w.stationList|
    requires forall k :: 0 <= k < |rest| ==> rest[k] < |w.listbox|
    ensures ChangeStationPressed(w, [i] + rest) == Handled(w, [StationChangeRequested(w.stationList[i].number)])
  {
    var st := w.stationList[i];
    EntryNumberText(st);
    IntRoundTrip(st.number);
  }

  /** Two double-clicks restore the favourite flag and love the song exactly once: on
      whichever click turns the flag on. */
  lemma HeartTwice(w: WindowState)
    ensures var r1 := HeartDoubleClick(w);
      var r2 := HeartDoubleClick(r1.state);
      && r2.state.favorite == w.favorite
      && r1.sent + r2.sent == [Love]
  {
  }
}
