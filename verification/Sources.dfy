/** One MPD queue shared by the OpenHome sources: switching, and the edits of the playlist, as
    functions of the whole state (src/ohproduct.cxx, src/ohplaylist.cxx, src/ohradio.cxx). */
module Sources {
  import opened Strings
  import opened Mpd

  const PLAYLIST := 0
  const RADIO := 1
  const RECEIVER := 2

  /** What does not change: the URIs the server can play, the tags sent with each song, whether
      there is a receiver, and the number of radio channels (o_radios). */
  datatype Env = Env(accepts: string -> bool, tags: nat, receiver: bool, channels: int)

  datatype Playlist = Playlist(active: bool, saved: Saved)

  datatype Radio = Radio(active: bool, id: int, playPending: bool, saved: Saved)

  datatype Sys = Sys(cli: Cli, pl: Playlist, rd: Radio, rcActive: bool, source: int)

  function SourceCount(e: Env): int {
    if e.receiver then 3 else 2
  }

  // ---------- activation ----------

  function WithServer(s: Sys, server: Server): Sys {
    s.(cli := s.cli.(server := server))
  }

  /** OHPlaylist::setActive() */
  function PlSetActive(e: Env, s: Sys, on: bool): Sys {
    if on then
      var cli := RestoreState(s.cli.(server := Clear(s.cli.server)), e.accepts, e.tags, s.pl.saved);
      s.(cli := cli, pl := s.pl.(active := true))
    else
      var (cli, saved) := SaveState(s.cli);
      s.(cli := cli.(server := Stop(cli.server)), pl := Playlist(false, saved))
  }

  /** OHRadio::setActive(): the flag is changed first, so that iStop() finds the radio inactive. */
  function RdSetActive(e: Env, s: Sys, on: bool): Sys
    requires !on ==> s.source == RADIO
    decreases 0, 2
  {
    var s1 := s.(rd := s.rd.(active := on));
    if on then
      if s.rd.id != 0 && s.rd.saved.state != UNK then
        s1.(cli := RestoreState(s.cli, e.accepts, e.tags, s.rd.saved))
      else s1
    else
      var (cli, saved) := SaveState(s1.cli);
      RdStop(e, s1.(cli := cli.(server := Clear(cli.server)), rd := s1.rd.(saved := saved)))
  }

  /** OHRadio::iStop(), with maybeActivate(): an inactive radio asks the product to select it. */
  function RdStop(e: Env, s: Sys): Sys
    decreases if s.source == RADIO then 0 else 1, 1
  {
    var s1 := MaybeActivate(e, s);
    WithServer(s1, Clear(s1.cli.server)).(rd := s1.rd.(playPending := false))
  }

  function MaybeActivate(e: Env, s: Sys): Sys
    decreases if s.source == RADIO then 0 else 1, 0, 1
  {
    if !s.rd.active then SetSource(e, s, RADIO) else s
  }

  /** OHProduct::iSetSourceIndex(): the index changes last. */
  function SetSource(e: Env, s: Sys, i: int): Sys
    decreases if s.source == i then 0 else 1, 0, 0
  {
    if !(0 <= i < SourceCount(e)) || s.source == i then s
    else
      var off :=
        if s.source == PLAYLIST then PlSetActive(e, s, false)
        else if s.source == RADIO then RdSetActive(e, s, false)
        else s.(rcActive := false);
      var on :=
        if i == PLAYLIST then PlSetActive(e, off, true)
        else if i == RADIO then RdSetActive(e, off, true)
        else off.(rcActive := true);
      on.(source := i)
  }

  // ---------- the actions ----------

  /** What becomes of a request to play a radio channel: see setPlaying(). */
  datatype Fetch = NoUri | Failed | Stream(url: string)

  datatype Act =
    | SelectSource(i: int)
    | RadioStop
    | RadioSetId(id: int)
    | RadioSetChannel
    | RadioPlay(fetch: Fetch)
    | RadioMeta(uri: string)
    | PlaylistPlay
    | PlaylistSeekIndex(pos: int)
    | PlaylistSeekId(id: int)
    | PlaylistInsert(afterId: int, uri: string)
    | PlaylistDeleteId(id: int)
    | PlaylistDeleteAll
    | OtherClient(server: Server)

  /** OHRadio::setPlaying() */
  function RdPlay(e: Env, s: Sys, fetch: Fetch): Sys {
    var s1 := MaybeActivate(e, s);
    if s1.rd.id >= e.channels then s1
    else
      match fetch
      case NoUri => WithServer(s1, Clear(s1.cli.server)).(rd := s1.rd.(playPending := true))
      case Failed => s1
      case Stream(url) =>
        var s2 := WithServer(s1, Clear(s1.cli.server));
        var (cli, id) := InsertI(s2.cli, e.accepts, e.tags, url, 0);
        if id < 0 then s2.(cli := cli) else s2.(cli := UpdStatus(cli.(server := Play(cli.server, 0))))
  }

  /** The metadata script returned an audio URI (maybeExecMetaScript(), called when the radio is active). */
  function RdMeta(e: Env, s: Sys, uri: string): Sys {
    if !s.rd.active || !(s.rd.playPending || s.cli.server.state == PLAY) then s
    else
      var was := s.cli.server.state;
      var (cli, id) := if uri in Uris(s.cli.server.queue) then (s.cli, 0)
                       else InsertI(s.cli, e.accepts, e.tags, uri, -1);
      if id < 0 || !(s.rd.playPending && was != PLAY) then s.(cli := cli)
      else s.(cli := UpdStatus(cli.(server := Play(cli.server, 0))))
  }

  /** First position of a URI, the length of the queue when it is not there. */
  function IndexOfUri(q: seq<Song>, uri: string): (k: nat)
    ensures k <= |q|
    ensures k < |q| ==> q[k].uri == uri
    ensures forall i :: 0 <= i < k ==> q[i].uri != uri
  {
    if q == [] || q[0].uri == uri then 0 else 1 + IndexOfUri(q[1..], uri)
  }

  /** OHPlaylist::idFromOldId(): the current id of the song that had an id in the saved queue. */
  function IdFromOldId(s: Sys, oldid: int): int {
    var k := IndexOf(s.pl.saved.queue, oldid);
    if k == |s.pl.saved.queue| then -1
    else
      var j := IndexOfUri(s.cli.server.queue, s.pl.saved.queue[k].uri);
      if j == |s.cli.server.queue| then -1 else s.cli.server.queue[j].id
  }

  /** OHPlaylist::seekId(): the id to play. One that belongs to the saved queue is looked up there,
      and None means that it could not be found again. */
  function SeekTarget(s: Sys, wasActive: bool, id: int): Option<int> {
    if !wasActive || IndexOf(s.pl.saved.queue, id) < |s.pl.saved.queue| then
      var current := IdFromOldId(s, id);
      if current < 0 then None else Some(current)
    else Some(id)
  }

  function PlSeekId(e: Env, s: Sys, id: int): Sys {
    var s1 := if s.pl.active then s else SetSource(e, s, PLAYLIST);
    match SeekTarget(s1, s.pl.active, id)
    case None => s1
    case Some(target) => s1.(cli := UpdStatus(s1.cli.(server := PlayId(s1.cli.server, target))))
  }

  function PlInsert(e: Env, s: Sys, afterId: int, uri: string): Sys {
    if s.pl.active then s.(cli := InsertAfterId(s.cli, e.accepts, e.tags, uri, afterId).0)
    else
      var s1 := SetSource(e, s, PLAYLIST);
      var id := IdFromOldId(s1, afterId);
      if id < 0 then s1 else s1.(cli := InsertAfterId(s1.cli, e.accepts, e.tags, uri, id).0)
  }

  function PlDeleteId(s: Sys, id: int): Sys {
    if s.pl.active then
      var server := if s.cli.server.songid == id then Stop(s.cli.server) else s.cli.server;
      WithServer(s, Delete(server, id))
    else
      var q := s.pl.saved.queue;
      var k := IndexOf(q, id);
      if k == |q| then s
      else
        var q' := RemoveAt(q, k);
        var st := if q' == [] then STOP else s.pl.saved.state;
        s.(pl := s.pl.(saved := s.pl.saved.(queue := q', state := st)))
  }

  function PlDeleteAll(s: Sys): Sys {
    if s.pl.active then WithServer(s, Clear(s.cli.server))
    else s.(pl := s.pl.(saved := s.pl.saved.(queue := [], state := STOP)))
  }

  function PlPlay(e: Env, s: Sys, pos: int): Sys {
    var s1 := if s.pl.active then s else SetSource(e, s, PLAYLIST);
    s1.(cli := UpdStatus(s1.cli.(server := Play(s1.cli.server, pos))))
  }

  function Do(e: Env, s: Sys, a: Act): Sys {
    match a
    case SelectSource(i) => SetSource(e, s, i)
    case RadioStop => RdStop(e, s)
    case RadioSetId(id) =>
      if id <= 0 || id > e.channels then s
      else var s1 := RdStop(e, s); s1.(rd := s1.rd.(id := id))
    case RadioSetChannel => var s1 := RdStop(e, s); s1.(rd := s1.rd.(id := 0))
    case RadioPlay(fetch) => RdPlay(e, s, fetch)
    case RadioMeta(uri) => RdMeta(e, s, uri)
    case PlaylistPlay => PlPlay(e, s, -1)
    case PlaylistSeekIndex(pos) => PlPlay(e, s, pos)
    case PlaylistSeekId(id) => PlSeekId(e, s, id)
    case PlaylistInsert(afterId, uri) => PlInsert(e, s, afterId, uri)
    case PlaylistDeleteId(id) => PlDeleteId(s, id)
    case PlaylistDeleteAll => PlDeleteAll(s)
    case OtherClient(server) => WithServer(s, server)
  }

  function Run(e: Env, s: Sys, acts: seq<Act>): Sys
    decreases |acts|
  {
    if acts == [] then s else Run(e, Do(e, s, acts[0]), acts[1..])
  }
}
