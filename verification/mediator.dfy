/**
 The event router (`ConcreteMediator` in mediator/concrete_mediator.py) as a closed state
 machine. Each notification is one step. A step returns the new state, the actions it
 performs in order, and whether the program keeps running.

 The router calls into the other components, and those calls become actions. Two of
 the calls hand values back to the router, and those values are parameters of the step:
 - the station list the player returns for `GET_STATIONS`;
 - the events the player reports while it starts up.
 */
module Mediator {
  import opened Wrappers
  import opened Protocol

  /** The readiness latch (`_main_window_ready`) and the two caches (`_song_data`,
      `_station`). */
  datatype RouterState = RouterState(ready: bool, song: Option<Song>, station: Option<string>)

  const Initial: RouterState := RouterState(false, None, None)

  /** One thing a step does. `Send(c, e)` is `c.notify(CONCRETE_MEDIATOR, e)`;
      `SetStationList(l)` is the assignment to the window's `station_list`. */
  datatype Action =
    | Send(to: Component, event: Event)
    | SetStationList(stations: seq<Station>)

  /** `sys.exit(1)` ends the program with status 1. */
  datatype Outcome = Running | Exited(status: int)

  /** The values the other components hand back during a step. */
  datatype Env = Env(stations: seq<Station>, warmup: seq<Event>)

  datatype Routed = Routed(state: RouterState, actions: seq<Action>)

  datatype Step = Step(state: RouterState, actions: seq<Action>, outcome: Outcome)

  /** `_handle_events_key_listener`: the two media keys go to the player. */
  function FromKeyListener(st: RouterState, event: Event): (r: Routed)
    ensures r.state == st
    ensures r.actions != [] <==> event == MediaPlay || event == MediaNext
    ensures forall k :: 0 <= k < |r.actions| ==> r.actions[k] == Send(Pianobar, event)
  {
    match event
    case MediaPlay => Routed(st, [Send(Pianobar, MediaPlay)])
    case MediaNext => Routed(st, [Send(Pianobar, MediaNext)])
    case _ => Routed(st, [])
  }

  /** `_handle_events_main_window`. `GET_STATIONS` fetches the list from the player,
      hands it to the window, and only then tells the window it is there. */
  function FromWindow(st: RouterState, event: Event, stations: seq<Station>): (r: Routed)
    ensures r.state.song == st.song && r.state.station == st.station
    ensures r.state.ready <==> st.ready || event == MainWindowReady
    ensures forall k :: 0 <= k < |r.actions| && r.actions[k].Send? && r.actions[k].to == Pianobar ==>
      r.actions[k].event == event
    ensures forall k :: 0 <= k < |r.actions| && r.actions[k].Send? && r.actions[k].to == MainWindow ==>
      event == GetSongData || event == GetStation || event == GetStations
  {
    match event
    case GetSongData => Routed(st, [Send(MainWindow, NewSong(st.song))])
    case GetStation => Routed(st, [Send(MainWindow, NewStation(st.station))])
    case GetStations => Routed(st, [Send(Pianobar, GetStations), SetStationList(stations), Send(MainWindow, Stations)])
    case Love => Routed(st, [Send(Pianobar, Love)])
    case MainWindowReady => Routed(st.(ready := true), [])
    case MediaPlay => Routed(st, [Send(Pianobar, MediaPlay)])
    case MediaNext => Routed(st, [Send(Pianobar, MediaNext)])
    case Quit => Routed(st, [Send(Pianobar, Quit)])
    case StationChangeRequested(n) => Routed(st, [Send(Pianobar, StationChangeRequested(n))])
    case _ => Routed(st, [])
  }

  /** `_handle_events_pianobar`. Until the window is ready, news from the player is kept
      in the caches; afterwards it is passed on as it came. */
  function FromPlayer(st: RouterState, event: Event): (r: Routed)
    ensures r.state.ready == st.ready
    ensures st.ready ==> r.state == st
    ensures !st.ready ==> r.actions == []
    ensures forall k :: 0 <= k < |r.actions| ==> r.actions[k] == Send(MainWindow, event)
    ensures st.ready && (event.NewSong? || event.NewStation?) ==> |r.actions| == 1
  {
    match event
    case NewStation(x) =>
      if !st.ready then Routed(st.(station := x), []) else Routed(st, [Send(MainWindow, NewStation(x))])
    case NewSong(x) =>
      if !st.ready then Routed(st.(song := x), []) else Routed(st, [Send(MainWindow, NewSong(x))])
    case _ => Routed(st, [])
  }

  /** `_handle_events_systray`: everything goes to the window unchanged. */
  function FromSystray(st: RouterState, event: Event): Routed {
    Routed(st, [Send(MainWindow, event)])
  }

  /** The player's events while it starts, handled one after the other. */
  function Warmup(st: RouterState, events: seq<Event>): (r: Routed)
    decreases |events|
  {
    if |events| == 0 then Routed(st, [])
    else
      var first := FromPlayer(st, events[0]);
      var rest := Warmup(first.state, events[1..]);
      Routed(rest.state, first.actions + rest.actions)
  }

  /** The launch prefix of `_start`: the key listener first, then the player. */
  const Launch: seq<Action> := [Send(KeyListener, Start), Send(Pianobar, Start)]

  /** `_start`. After the player has started, a missing song means there is no data: the
      player is told to quit and the program exits with status 1. Otherwise the tray
      icon and then the window are started. */
  function Startup(st: RouterState, warmup: seq<Event>): (r: Step)
    ensures r.outcome == Exited(1) || r.outcome == Running
  {
    var w := Warmup(st, warmup);
    if w.state.song.None? then Step(w.state, Launch + w.actions + [Send(Pianobar, Quit)], Exited(1))
    else Step(w.state, Launch + w.actions + [Send(Systray, Start), Send(MainWindow, Start)], Running)
  }

  function Continue(r: Routed): Step {
    Step(r.state, r.actions, Running)
  }

  /** `notify`: dispatch on the sender. The router's own tag stands for any sender other
      than the five it knows, and is ignored. */
  function Notify(st: RouterState, sender: Component, event: Event, env: Env): (r: Step)
    ensures r.state.ready == (st.ready || (sender == MainWindow && event == MainWindowReady))
    ensures r.outcome != Running ==> sender == Main && event == Start && r.outcome == Exited(1)
  {
    match sender
    case KeyListener => Continue(FromKeyListener(st, event))
    case Main => if event == Start then WarmupKeepsLatch(st, env.warmup); Startup(st, env.warmup) else Step(st, [], Running)
    case MainWindow => Continue(FromWindow(st, event, env.stations))
    case Pianobar => Continue(FromPlayer(st, event))
    case Systray => Continue(FromSystray(st, event))
    case ConcreteMediator => Step(st, [], Running)
  }

  lemma {:induction false} WarmupKeepsLatch(st: RouterState, events: seq<Event>)
    ensures Warmup(st, events).state.ready == st.ready
    decreases |events|
  {
    if |events| > 0 {
      WarmupKeepsLatch(FromPlayer(st, events[0]).state, events[1..]);
    }
  }

  // ---------------------------------------------------------------- single steps

  /** Before the window is ready, news from the player replaces the matching cache and
      nothing is sent. */
  lemma CachesBeforeReady(st: RouterState, env: Env, song: Option<Song>, station: Option<string>)
    requires !st.ready
    ensures Notify(st, Pianobar, NewSong(song), env) == Step(st.(song := song), [], Running)
    ensures Notify(st, Pianobar, NewStation(station), env) == Step(st.(station := station), [], Running)
  {
  }

  /** Once the window is ready, news from the player goes to the window unchanged and the
      caches stay as they are. */
  lemma ForwardsOnceReady(st: RouterState, env: Env, song: Option<Song>, station: Option<string>)
    requires st.ready
    ensures Notify(st, Pianobar, NewSong(song), env) == Step(st, [Send(MainWindow, NewSong(song))], Running)
    ensures Notify(st, Pianobar, NewStation(station), env) == Step(st, [Send(MainWindow, NewStation(station))], Running)
  {
  }

  /** The window's questions are answered from the caches, empty or not, ready or not. */
  lemma RepliesFromCache(st: RouterState, env: Env)
    ensures Notify(st, MainWindow, GetSongData, env) == Step(st, [Send(MainWindow, NewSong(st.song))], Running)
    ensures Notify(st, MainWindow, GetStation, env) == Step(st, [Send(MainWindow, NewStation(st.station))], Running)
  {
  }

  /** The player controls the router passes on unchanged. */
  predicate PlayerControl(sender: Component, event: Event) {
    || (sender == KeyListener && (event == MediaPlay || event == MediaNext))
    || (sender == MainWindow && (event == MediaPlay || event == MediaNext || event == Love || event == Quit || event.StationChangeRequested?))
  }

  /** Player controls go to the player with their payload; any other key-listener event
      is dropped. */
  lemma ForwardsControls(st: RouterState, sender: Component, event: Event, env: Env)
    ensures PlayerControl(sender, event) ==> Notify(st, sender, event, env) == Step(st, [Send(Pianobar, event)], Running)
    ensures sender == KeyListener && !PlayerControl(sender, event) ==> Notify(st, sender, event, env) == Step(st, [], Running)
  {
  }

  /** The window gets the station list before it is told to show it. */
  lemma StationListBeforeNotice(st: RouterState, env: Env)
    ensures Notify(st, MainWindow, GetStations, env)
      == Step(st, [Send(Pianobar, GetStations), SetStationList(env.stations), Send(MainWindow, Stations)], Running)
  {
  }

  /** The tray's events reach the window verbatim; a sender the router does not know
      changes nothing. */
  lemma SystrayAndUnknown(st: RouterState, event: Event, env: Env)
    ensures Notify(st, Systray, event, env) == Step(st, [Send(MainWindow, event)], Running)
    ensures Notify(st, ConcreteMediator, event, env) == Step(st, [], Running)
  {
  }

  // ---------------------------------------------------------------- start-up

  /** The song the last `NEW_SONG` among `events` carried, or `default` when there is
      none. */
  function LastSong(events: seq<Event>, default: Option<Song>): Option<Song> {
    if |events| == 0 then default
    else if events[|events| - 1].NewSong? then events[|events| - 1].song
    else LastSong(events[..|events| - 1], default)
  }

  /** The station the last `NEW_STATION` among `events` carried, or `default`. */
  function LastStation(events: seq<Event>, default: Option<string>): Option<string> {
    if |events| == 0 then default
    else if events[|events| - 1].NewStation? then events[|events| - 1].station
    else LastStation(events[..|events| - 1], default)
  }

  /** Handling one more event after a run is handling it in the state the run left. */
  lemma {:induction false} WarmupSnoc(st: RouterState, events: seq<Event>, e: Event)
    ensures Warmup(st, events + [e]).state == FromPlayer(Warmup(st, events).state, e).state
    ensures Warmup(st, events + [e]).actions == Warmup(st, events).actions + FromPlayer(Warmup(st, events).state, e).actions
    decreases |events|
  {
    if |events| == 0 {
      assert [] + [e] == [e];
      assert [e][1..] == [];
    } else {
      assert (events + [e])[0] == events[0];
      assert (events + [e])[1..] == events[1..] + [e];
      WarmupSnoc(FromPlayer(st, events[0]).state, events[1..], e);
      var a := FromPlayer(st, events[0]).actions;
      var b := Warmup(FromPlayer(st, events[0]).state, events[1..]).actions;
      var c := FromPlayer(Warmup(st, events).state, e).actions;
      assert a + (b + c) == (a + b) + c;
    }
  }

  /** While the window is not ready, the player's events only fill the caches: each
      cache ends up holding the last value reported for it, and nothing is sent. */
  lemma {:induction false} WarmupCaches(st: RouterState, events: seq<Event>)
    requires !st.ready
    ensures Warmup(st, events) == Routed(RouterState(false, LastSong(events, st.song), LastStation(events, st.station)), [])
    decreases |events|
  {
    if |events| > 0 {
      var init := events[..|events| - 1];
      var e := events[|events| - 1];
      assert events == init + [e];
      WarmupCaches(st, init);
      WarmupSnoc(st, init, e);
    }
  }

  /** Start-up from the initial state. The key listener and the player are always
      started first. The program exits with status 1, after telling the player to quit,
      exactly when the player reported no song while starting. Otherwise the tray icon
      and the window are started, in that order. */
  lemma StartupOrder(warmup: seq<Event>, env: Env)
    requires env.warmup == warmup
    ensures var r := Notify(Initial, Main, Start, env);
      && r.actions[..2] == [Send(KeyListener, Start), Send(Pianobar, Start)]
      && (r.outcome == Exited(1) <==> LastSong(warmup, None) == None)
      && (r.outcome == Exited(1) ==> r.actions == Launch + [Send(Pianobar, Quit)])
      && (r.outcome == Running ==> r.actions == Launch + [Send(Systray, Start), Send(MainWindow, Start)])
      && r.state == RouterState(false, LastSong(warmup, None), LastStation(warmup, None))
  {
    WarmupCaches(Initial, warmup);
    assert Launch + [] == Launch;
  }

  // ---------------------------------------------------------------- runs

  /** A notification together with what the other components hand back during it. */
  datatype Notification = Notification(sender: Component, event: Event, env: Env)

  /** Notifications handled one after the other until one of them exits. */
  function RunAll(st: RouterState, ns: seq<Notification>): (r: Step)
    decreases |ns|
  {
    if |ns| == 0 then Step(st, [], Running)
    else
      var first := Notify(st, ns[0].sender, ns[0].event, ns[0].env);
      if first.outcome != Running then first
      else
        var rest := RunAll(first.state, ns[1..]);
        Step(rest.state, first.actions + rest.actions, rest.outcome)
  }

  /** The latch never goes back: once the window is ready, it stays ready, and the caches
      are never written again. */
  lemma {:induction false} ReadyIsFinal(st: RouterState, ns: seq<Notification>)
    requires st.ready
    ensures RunAll(st, ns).state == st
    decreases |ns|
  {
    if |ns| > 0 {
      var n := ns[0];
      StepKeepsReadyState(st, n.sender, n.event, n.env);
      ReadyIsFinal(st, ns[1..]);
    }
  }

  lemma StepKeepsReadyState(st: RouterState, sender: Component, event: Event, env: Env)
    requires st.ready
    ensures Notify(st, sender, event, env).state == st
  {
    if sender == Main && event == Start {
      ReadyWarmupKeepsState(st, env.warmup);
    }
  }

  lemma {:induction false} ReadyWarmupKeepsState(st: RouterState, events: seq<Event>)
    requires st.ready
    ensures Warmup(st, events).state == st
    decreases |events|
  {
    if |events| > 0 {
      ReadyWarmupKeepsState(FromPlayer(st, events[0]).state, events[1..]);
    }
  }

  /** Only the window's ready signal sets the latch: a run that starts unready ends
      ready exactly when the run holds that signal. */
  lemma {:induction false} LatchSetOnlyBySignal(st: RouterState, ns: seq<Notification>)
    requires !st.ready
    ensures RunAll(st, ns).state.ready ==> exists k :: 0 <= k < |ns| && ns[k].sender == MainWindow && ns[k].event == MainWindowReady
    decreases |ns|
  {
    if |ns| > 0 {
      var first := Notify(st, ns[0].sender, ns[0].event, ns[0].env);
      if first.outcome == Running && !first.state.ready {
        LatchSetOnlyBySignal(first.state, ns[1..]);
        if RunAll(st, ns).state.ready {
          var k :| 0 <= k < |ns[1..]| && ns[1..][k].sender == MainWindow && ns[1..][k].event == MainWindowReady;
          assert ns[k + 1] == ns[1..][k];
        }
      }
    }
  }
}
