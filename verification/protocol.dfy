/**
 The closed vocabulary components exchange through the mediator: the string tags of
 constants/constants.py become constructors, and each event carries its own payload.
 */
module Protocol {
  import opened Wrappers

  /** Sender and destination identities. `ConcreteMediator` is the mediator's own tag. */
  datatype Component = KeyListener | Main | MainWindow | Pianobar | Systray | ConcreteMediator

  /** A track as the player reports it (the `Song` record). */
  datatype Song = Song(title: string, artist: string, album: string, favorite: bool)

  /** One entry of the player's station menu: its menu number and its name. */
  datatype Station = Station(number: int, name: string)

  /** Event kinds. The payload (`event2`) travels inside the constructor; events sent
      with `event2=None` have no payload field. `NewSong` and `NewStation` carry an
      optional payload because the mediator replies with its cache, which may be empty. */
  datatype Event =
    | GetSongData
    | GetStation
    | GetStations
    | Love
    | MainWindowReady
    | MediaNext
    | MediaPlay
    | NewSong(song: Option<Song>)
    | NewStation(station: Option<string>)
    | Quit
    | Show
    | Start
    | Stations
    | StationChangeRequested(index: int)

  /** Commands written to the player's control FIFO. */
  const CmdNext: string := "n"
  const CmdPlayPause: string := "p"
  const CmdStationList: string := "s"
  const CmdLove: string := "+\n"
  const CmdQuit: string := "q"
  const CmdEnter: string := "\n"
}
