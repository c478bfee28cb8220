/**
 Properties of the components working together through the router: a station change
 followed from pianobar's menu to the command written to it, and the window's first
 requests after a successful start-up.
 */
module Session {
  import opened Wrappers
  import opened Strings
  import opened Numbers
  import opened Protocol
  import opened PianobarParse
  import P = PianobarPlayer
  import M = Mediator
  import W = Window

  /** The menu as pianobar prints it: each entry on its own line. */
  function PrintedMenu(stations: seq<Station>, playing: int): (lines: seq<string>)
    ensures |lines| == |stations|
  {
    seq(|stations|, i requires 0 <= i < |stations| => MenuLine(stations[i], i == playing) + "\n")
  }

  /** A printed menu entry is buffered as the entry without its newline. */
  lemma PrintedEntryBuffered(st: Station, playing: bool)
    requires ReadableEntry(st, playing)
    ensures P.LineEntry(MenuLine(st, playing) + "\n") == Some(MenuLine(st, playing))
  {
    var line := MenuLine(st, playing);
    var d := IntToString(st.number);
    MenuLineEnds(st, playing);
    P.NotTimeUpdate(line + "\n");
    assert line + "\n" == "" + line + "\n";
    StripOf("", line, "\n", Whitespace);
  }

  lemma MenuLineEnds(st: Station, playing: bool)
    requires ReadableEntry(st, playing)
    ensures var line := MenuLine(st, playing);
      |line| > 0 && IsAsciiDigit(line[0]) && line[|line| - 1] == st.name[|st.name| - 1]
  {
    var d := IntToString(st.number);
    var line := MenuLine(st, playing);
    assert line == d + (") " + (if playing then SelectedPrefix else "") + st.name);
    assert line[0] == d[0];
  }

  lemma PrintedMenuBuffered(stations: seq<Station>, playing: int)
    requires ReadableMenu(stations, playing)
    ensures FilterMap(P.LineEntry, PrintedMenu(stations, playing)) == MenuLines(stations, playing)
  {
    var printed, lines := PrintedMenu(stations, playing), MenuLines(stations, playing);
    forall i | 0 <= i < |stations|
      ensures P.LineEntry(printed[i]) == Some(lines[i])
    {
      assert ReadableEntry(stations[i], i == playing);
      PrintedEntryBuffered(stations[i], i == playing);
    }
    FilterMapAllPresent(P.LineEntry, printed, lines);
  }

  /** Asking the player for the stations while it prints its menu returns exactly the
      stations of the menu, in menu order. */
  lemma FetchedStations(pst: P.PlayerState, stations: seq<Station>, playing: int)
    requires ReadableMenu(stations, playing)
    ensures P.Notify(pst, ConcreteMediator, GetStations, PrintedMenu(stations, playing)).stations == Some(stations)
  {
    P.GetStationsReadsOnlyNewLines(pst, PrintedMenu(stations, playing));
    PrintedMenuBuffered(stations, playing);
    MenuRoundTrip(stations, playing);
  }

  /** The window once the router has handed it `stations` and told it they are there. */
  function ShowStations(w: W.WindowState, stations: seq<Station>): W.Reaction {
    W.Notify(W.SetStationList(w, stations), ConcreteMediator, Stations)
  }

  /** What the router does with the window's single request, and what the player writes
      for it. */
  function Forward(rst: M.RouterState, pst: P.PlayerState, request: Event): Option<seq<string>> {
    var routed := M.Notify(rst, MainWindow, request, M.Env([], []));
    if |routed.actions| != 1 || !routed.actions[0].Send? || routed.actions[0].to != Pianobar then None
    else Some(P.Notify(pst, ConcreteMediator, routed.actions[0].event, []).writes)
  }

  /** The commands written when the user picks entry `i` of the list box, after the
      window was given the stations the player read from `menu`. The list reaches the
      window through the router (`SetStationList`, then `STATIONS`); the window's request
      goes through the router to the player. `None` when some step fails or sends
      something else. */
  function PickStation(pst: P.PlayerState, rst: M.RouterState, w: W.WindowState, menu: seq<string>, i: nat): (writes: Option<seq<string>>) {
    var fetched := P.Notify(pst, ConcreteMediator, GetStations, menu);
    var shown := ShowStations(w, fetched.stations.GetOr([]));
    if shown.Raised? || i >= |shown.state.listbox| then None
    else
      var picked := W.ChangeStationPressed(shown.state, [i]);
      if picked.Raised? || |picked.sent| != 1 then None
      else Forward(rst, fetched.state, picked.sent[0])
  }

  lemma ShowThenPick(w: W.WindowState, stations: seq<Station>, i: nat)
    requires i < |stations|
    ensures var shown := ShowStations(w, stations);
      && shown.Handled? && |shown.state.listbox| == |stations|
      && W.ChangeStationPressed(shown.state, [i]) == W.Handled(shown.state, [StationChangeRequested(stations[i].number)])
  {
    var shown := ShowStations(w, stations);
    W.StationsRendered(W.SetStationList(w, stations));
    W.SelectionRoundTrip(shown.state, i, []);
    assert [i] + [] == [i];
  }

  lemma ForwardChange(rst: M.RouterState, pst: P.PlayerState, n: int)
    ensures Forward(rst, pst, StationChangeRequested(n)) == Some(["s", IntToString(n), "\n", "\n"])
  {
    M.ForwardsControls(rst, MainWindow, StationChangeRequested(n), M.Env([], []));
    P.ChangeStationTrace(pst, n, []);
  }

  /** Picking the i-th entry of the menu pianobar printed makes the player type that
      entry's number into pianobar's station prompt. */
  lemma PickStationWritesItsNumber(pst: P.PlayerState, rst: M.RouterState, w: W.WindowState, stations: seq<Station>, playing: int, i: nat)
    requires ReadableMenu(stations, playing) && i < |stations|
    ensures PickStation(pst, rst, w, PrintedMenu(stations, playing), i) == Some(["s", IntToString(stations[i].number), "\n", "\n"])
  {
    var fetched := P.Notify(pst, ConcreteMediator, GetStations, PrintedMenu(stations, playing));
    FetchedStations(pst, stations, playing);
    assert fetched.stations.GetOr([]) == stations;
    ShowThenPick(w, stations, i);
    ForwardChange(rst, fetched.state, stations[i].number);
  }

  // ---------------------------------------------------------------- start-up

  /** The router's replies to the window's first requests, after a start-up during which
      the player reported `warmup`. */
  function FirstReplies(warmup: seq<Event>, stations: seq<Station>): M.Step {
    var env := M.Env(stations, warmup);
    var started := M.Notify(M.Initial, Main, Start, env);
    M.RunAll(started.state, Requests(W.InitialRequests, env))
  }

  function Requests(events: seq<Event>, env: M.Env): (ns: seq<M.Notification>)
    ensures |ns| == |events|
  {
    seq(|events|, k requires 0 <= k < |events| => M.Notification(MainWindow, events[k], env))
  }

  /** The window's first requests, answered by a router that has not seen the ready
      signal yet: the latch is set first, and the replies come from the caches. */
  lemma FirstRequestsAnswered(s: M.RouterState, env: M.Env)
    ensures M.RunAll(s, Requests(W.InitialRequests, env)) == M.Step(s.(ready := true), [
           M.Send(MainWindow, NewStation(s.station)),
           M.Send(MainWindow, NewSong(s.song)),
           M.Send(Pianobar, GetStations),
           M.SetStationList(env.stations),
           M.Send(MainWindow, Stations)], M.Running)
  {
    var ns := Requests(W.InitialRequests, env);
    var r := s.(ready := true);
    assert ns[1..][1..][1..][1..] == [];
    var last := M.RunAll(r, ns[3..]);
    assert ns[3..] == [M.Notification(MainWindow, GetStations, env)];
    assert ns[3..][1..] == [];
    M.StationListBeforeNotice(r, env);
    var fetch := [M.Send(Pianobar, GetStations), M.SetStationList(env.stations), M.Send(MainWindow, Stations)];
    assert fetch + [] == fetch;
    assert M.RunAll(r, []) == M.Step(r, [], M.Running);
    assert M.Notify(r, MainWindow, GetStations, env) == M.Step(r, fetch, M.Running);
    var one := [M.Notification(MainWindow, GetStations, env)];
    assert M.RunAll(r, one) == M.Step(r, fetch, M.Running);
    assert last == M.Step(r, [M.Send(Pianobar, GetStations), M.SetStationList(env.stations), M.Send(MainWindow, Stations)], M.Running);
    assert ns[2..][1..] == ns[3..];
    assert M.RunAll(r, ns[2..]) == M.Step(r, [M.Send(MainWindow, NewSong(s.song))] + last.actions, M.Running);
    assert ns[1..][1..] == ns[2..];
    assert M.RunAll(r, ns[1..]) == M.Step(r, [M.Send(MainWindow, NewStation(s.station))] + M.RunAll(r, ns[2..]).actions, M.Running);
    assert M.RunAll(s, ns) == M.Step(r, [] + M.RunAll(r, ns[1..]).actions, M.Running);
  }

  /** When start-up goes on, the window's first requests make the router ready. The
      window then gets, in order: the station and the song cached during start-up, the
      station list, and the notice to show it. The song is present, so the window does
      not fail on it. */
  lemma StartupThenFirstRequests(warmup: seq<Event>, stations: seq<Station>, w: W.WindowState)
    requires M.Notify(M.Initial, Main, Start, M.Env(stations, warmup)).outcome == M.Running
    ensures var r := FirstReplies(warmup, stations);
      && r.outcome == M.Running && r.state.ready
      && LastSong(warmup).Some?
      && r.actions == [
           M.Send(MainWindow, NewStation(M.LastStation(warmup, None))),
           M.Send(MainWindow, NewSong(LastSong(warmup))),
           M.Send(Pianobar, GetStations),
           M.SetStationList(stations),
           M.Send(MainWindow, Stations)]
      && W.Notify(w, ConcreteMediator, NewSong(LastSong(warmup))).Handled?
  {
    var env := M.Env(stations, warmup);
    M.StartupOrder(warmup, env);
    FirstRequestsAnswered(M.RouterState(false, LastSong(warmup), M.LastStation(warmup, None)), env);
  }

  // ---------------------------------------------------------------- the song cache

  /** The player's events, as notifications to the router. */
  function FromPlayerRun(events: seq<Event>, env: M.Env): (ns: seq<M.Notification>)
    ensures |ns| == |events|
  {
    seq(|events|, k requires 0 <= k < |events| => M.Notification(Pianobar, events[k], env))
  }

  /** Once the router has a song, events from the reader never take it away. */
  lemma {:induction false} SongCacheStaysSet(s: M.RouterState, events: seq<Event>, env: M.Env)
    requires s.song.Some? && P.SongsPresent(events)
    ensures M.RunAll(s, FromPlayerRun(events, env)).state.song.Some?
    ensures M.RunAll(s, FromPlayerRun(events, env)).outcome == M.Running
    decreases |events|
  {
    var ns := FromPlayerRun(events, env);
    if |events| > 0 {
      assert events[0].NewSong? ==> events[0].song.Some?;
      var next := M.Notify(s, Pianobar, events[0], env).state;
      assert ns[1..] == FromPlayerRun(events[1..], env);
      assert P.SongsPresent(events[1..]) by {
        forall k | 0 <= k < |events[1..]| && events[1..][k].NewSong?
          ensures events[1..][k].song.Some?
        {
          assert events[1..][k] == events[k + 1];
        }
      }
      SongCacheStaysSet(next, events[1..], env);
    }
  }

  /** After a start-up that went on, whatever the player reads later, the window's
      request for the song data is answered with a song, which the window shows
      without failing. */
  lemma SongDataAlwaysShown(warmup: seq<Event>, stations: seq<Station>, pst: P.PlayerState, lines: seq<string>, w: W.WindowState)
    requires M.Notify(M.Initial, Main, Start, M.Env(stations, warmup)).outcome == M.Running
    ensures var env := M.Env(stations, warmup);
      var later := M.RunAll(M.Notify(M.Initial, Main, Start, env).state, FromPlayerRun(P.ReadLines(pst, lines).events, env));
      var reply := M.Notify(later.state, MainWindow, GetSongData, env);
      && |reply.actions| == 1 && reply.actions[0].Send? && reply.actions[0].event.NewSong?
      && W.Notify(w, ConcreteMediator, reply.actions[0].event).Handled?
  {
    var env := M.Env(stations, warmup);
    M.StartupOrder(warmup, env);
    P.ReadLinesSongsPresent(pst, lines);
    var events := P.ReadLines(pst, lines).events;
    SongCacheStaysSet(M.Notify(M.Initial, Main, Start, env).state, events, env);
    var later := M.RunAll(M.Notify(M.Initial, Main, Start, env).state, FromPlayerRun(events, env));
    M.RepliesFromCache(later.state, env);
  }

  function LastSong(warmup: seq<Event>): Option<Song> {
    M.LastSong(warmup, None)
  }
}
