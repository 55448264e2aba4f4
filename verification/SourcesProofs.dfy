/** Whole runs of source switching: the playlist survives, and exactly one service is active
    (src/ohproduct.cxx, src/ohplaylist.cxx, src/ohradio.cxx). */
module SourcesProofs {
  import opened Strings
  import opened Mpd
  import opened Sources

  /** The playlist that the control points see: the live queue while it is active, the saved one
      while another source uses MPD. */
  function PlaylistSongs(s: Sys): seq<Song> {
    if s.pl.active then s.cli.server.queue else s.pl.saved.queue
  }

  function Logical(s: Sys): seq<string> {
    Uris(PlaylistSongs(s))
  }

  /** Between actions exactly the service that the source index names is active. */
  predicate AtRest(e: Env, s: Sys) {
    && 0 <= s.source < SourceCount(e)
    && s.pl.active == (s.source == PLAYLIST)
    && s.rd.active == (s.source == RADIO)
    && s.rcActive == (s.source == RECEIVER)
  }

  predicate NoCommonIds(a: seq<Song>, b: seq<Song>) {
    forall i, j :: 0 <= i < |a| && 0 <= j < |b| ==> a[i].id != b[j].id
  }

  predicate QueuesOk(e: Env, s: Sys) {
    && CliOk(s.cli)
    && AllAccepted(s.cli.server.queue, e.accepts)
    && AllAccepted(s.pl.saved.queue, e.accepts)
    && AllAccepted(s.rd.saved.queue, e.accepts)
    && Fresh(s.pl.saved.queue, s.cli.server.nextId)
  }

  predicate SysOk(e: Env, s: Sys) {
    AtRest(e, s) && QueuesOk(e, s) && (s.pl.active ==> NoCommonIds(s.pl.saved.queue, s.cli.server.queue))
  }

  // ---------- switching ----------

  lemma AcceptedUris(q: seq<Song>, p: seq<Song>, accepts: string -> bool)
    requires Uris(q) == Uris(p) && AllAccepted(q, accepts)
    ensures AllAccepted(p, accepts)
  {
    assert |q| == |Uris(q)| == |Uris(p)| == |p|;
    forall i | 0 <= i < |p| ensures accepts(p[i].uri) {
      assert Uris(p)[i] == p[i].uri && Uris(q)[i] == q[i].uri;
    }
  }

  lemma FreshLater(q: seq<Song>, n: int, m: int)
    requires Fresh(q, n) && n <= m
    ensures Fresh(q, m)
  {
  }

  lemma PlOnOk(e: Env, s: Sys, r: Sys)
    requires QueuesOk(e, s) && !s.pl.active && r == PlSetActive(e, s, true)
    ensures QueuesOk(e, r) && r.pl.active && Logical(r) == Logical(s)
    ensures NoCommonIds(r.pl.saved.queue, r.cli.server.queue)
    ensures r.rd == s.rd && r.rcActive == s.rcActive && r.source == s.source && r.pl.saved == s.pl.saved
  {
    var cli := s.cli.(server := Clear(s.cli.server));
    RestoreRestores(cli, e.accepts, e.tags, s.pl.saved);
    AcceptedUris(s.pl.saved.queue, r.cli.server.queue, e.accepts);
    FreshLater(s.pl.saved.queue, s.cli.server.nextId, r.cli.server.nextId);
  }

  lemma PlOffOk(e: Env, s: Sys, r: Sys)
    requires QueuesOk(e, s) && s.pl.active && r == PlSetActive(e, s, false)
    ensures QueuesOk(e, r) && !r.pl.active && Logical(r) == Logical(s)
    ensures r.rd == s.rd && r.rcActive == s.rcActive && r.source == s.source
  {
  }

  lemma RdOnOk(e: Env, s: Sys, r: Sys)
    requires QueuesOk(e, s) && !s.pl.active && r == RdSetActive(e, s, true)
    ensures QueuesOk(e, r) && r.rd.active && r.pl == s.pl && r.rcActive == s.rcActive && r.source == s.source
    ensures r.rd.id == s.rd.id
  {
    if s.rd.id != 0 && s.rd.saved.state != UNK {
      RestoreRestores(s.cli, e.accepts, e.tags, s.rd.saved);
      AcceptedUris(s.rd.saved.queue, r.cli.server.queue, e.accepts);
      FreshLater(s.pl.saved.queue, s.cli.server.nextId, r.cli.server.nextId);
    }
  }

  /** The call that iStop() makes back into the product finds the radio still selected there, and
      does nothing. */
  lemma RdOffOk(e: Env, s: Sys, r: Sys)
    requires QueuesOk(e, s) && s.source == RADIO && r == RdSetActive(e, s, false)
    ensures QueuesOk(e, r) && !r.rd.active && r.pl == s.pl && r.rcActive == s.rcActive && r.source == s.source
    ensures r.rd.id == s.rd.id && r.rd.saved == Saved(s.cli.server.queue, s.cli.server.state, SongPos(s.cli.server))
  {
    var (cli, saved) := SaveState(s.cli);
    var s1 := s.(rd := s.rd.(active := false, saved := saved), cli := cli.(server := Clear(cli.server)));
    assert MaybeActivate(e, s1) == s1;
  }

  lemma SwitchOff(e: Env, s: Sys) returns (off: Sys)
    requires SysOk(e, s)
    ensures off == if s.source == PLAYLIST then PlSetActive(e, s, false)
                   else if s.source == RADIO then RdSetActive(e, s, false)
                   else s.(rcActive := false)
    ensures QueuesOk(e, off) && !off.pl.active && !off.rd.active && !off.rcActive && off.source == s.source
    ensures Logical(off) == Logical(s) && (!s.pl.active ==> off.pl == s.pl)
  {
    if s.source == PLAYLIST {
      off := PlSetActive(e, s, false);
      PlOffOk(e, s, off);
    } else if s.source == RADIO {
      off := RdSetActive(e, s, false);
      RdOffOk(e, s, off);
    } else {
      off := s.(rcActive := false);
    }
  }

  /** A switch leaves the playlist alone and the named service active. */
  lemma SetSourceOk(e: Env, s: Sys, i: int, r: Sys)
    requires SysOk(e, s) && r == SetSource(e, s, i)
    ensures SysOk(e, r) && Logical(r) == Logical(s)
    ensures r.source == if 0 <= i < SourceCount(e) then i else s.source
    ensures !s.pl.active && i == PLAYLIST ==> r.pl.saved == s.pl.saved
  {
    if 0 <= i < SourceCount(e) && s.source != i {
      var off := SwitchOff(e, s);
      if i == PLAYLIST {
        var on := PlSetActive(e, off, true);
        PlOnOk(e, off, on);
        assert r == on.(source := i);
      } else if i == RADIO {
        var on := RdSetActive(e, off, true);
        RdOnOk(e, off, on);
        assert r == on.(source := i);
      } else {
        assert r == off.(rcActive := true).(source := i);
      }
    }
  }

  lemma MaybeActivateOk(e: Env, s: Sys, r: Sys)
    requires SysOk(e, s) && r == MaybeActivate(e, s)
    ensures SysOk(e, r) && Logical(r) == Logical(s) && r.source == RADIO
  {
    if !s.rd.active {
      SetSourceOk(e, s, RADIO, r);
    }
  }

  // ---------- what the radio does with the queue ----------

  /** While the radio has the queue, anything may happen to it. */
  lemma RadioQueue(e: Env, s: Sys, cli: Cli, r: Sys)
    requires SysOk(e, s) && s.source == RADIO && CliOk(cli) && AllAccepted(cli.server.queue, e.accepts)
    requires cli.server.nextId >= s.cli.server.nextId
    requires r == s.(cli := cli, rd := r.rd) && r.rd.active && r.rd.saved == s.rd.saved
    ensures SysOk(e, r) && Logical(r) == Logical(s)
  {
    FreshLater(s.pl.saved.queue, s.cli.server.nextId, cli.server.nextId);
  }

  lemma InsertAccepted(e: Env, c: Cli, uri: string, pos: int)
    requires CliOk(c) && AllAccepted(c.server.queue, e.accepts)
    ensures var (c', id) := InsertI(c, e.accepts, e.tags, uri, pos);
            CliOk(c') && AllAccepted(c'.server.queue, e.accepts) && c'.server.nextId >= c.server.nextId
  {
    InsertIOk(c, e.accepts, e.tags, uri, pos);
  }

  lemma RdStopOk(e: Env, s: Sys, r: Sys)
    requires SysOk(e, s) && r == RdStop(e, s)
    ensures SysOk(e, r) && Logical(r) == Logical(s) && r.source == RADIO
  {
    var s1 := MaybeActivate(e, s);
    MaybeActivateOk(e, s, s1);
    RadioQueue(e, s1, s1.cli.(server := Clear(s1.cli.server)), r);
  }

  lemma RdPlayOk(e: Env, s: Sys, fetch: Fetch, r: Sys)
    requires SysOk(e, s) && r == RdPlay(e, s, fetch)
    ensures SysOk(e, r) && Logical(r) == Logical(s)
  {
    var s1 := MaybeActivate(e, s);
    MaybeActivateOk(e, s, s1);
    var cleared := s1.cli.(server := Clear(s1.cli.server));
    if fetch.Stream? { InsertAccepted(e, cleared, fetch.url, 0); }
    RadioQueue(e, s1, r.cli, r);
  }

  lemma RdMetaOk(e: Env, s: Sys, uri: string, r: Sys)
    requires SysOk(e, s) && r == RdMeta(e, s, uri)
    ensures SysOk(e, r) && Logical(r) == Logical(s)
  {
    if s.rd.active {
      InsertAccepted(e, s.cli, uri, -1);
      RadioQueue(e, s, r.cli, r);
    }
  }

  // ---------- the edits of the playlist ----------

  /** The list that a playlist action must leave, said on the list, and for an AfterId of -1 on what the
      client remembers. */
  function ListAfter(e: Env, s: Sys, a: Act): seq<string> {
    var l := Logical(s);
    var songs := PlaylistSongs(s);
    match a
    case PlaylistInsert(afterId, uri) =>
      var at := if s.pl.active then InsertPos(s.cli, afterId) else InactivePos(songs, afterId);
      if !e.accepts(uri) || !(0 <= at <= |l|) then l else l[..at] + [uri] + l[at..]
    case PlaylistDeleteId(id) =>
      var k := IndexOf(songs, id);
      if k == |l| then l else l[..k] + l[k + 1..]
    case PlaylistDeleteAll => []
    case OtherClient(server) => if s.pl.active then Uris(server.queue) else l
    case _ => l
  }

  /** Inserting into an inactive playlist goes behind the first song with the URI of the given one;
      an unknown id, 0 included, inserts nothing. */
  function InactivePos(songs: seq<Song>, id: int): (k: int)
    ensures -1 <= k <= |songs|
  {
    var k := IndexOf(songs, id);
    if k == |songs| then -1 else IndexOfUri(songs, songs[k].uri) + 1
  }

  lemma {:induction false} IndexOfUriUris(q: seq<Song>, p: seq<Song>, uri: string)
    requires Uris(q) == Uris(p)
    ensures IndexOfUri(q, uri) == IndexOfUri(p, uri)
  {
    assert |q| == |Uris(q)| == |Uris(p)| == |p|;
    if q != [] {
      assert Uris(q)[0] == q[0].uri && Uris(p)[0] == p[0].uri;
      assert Uris(q[1..]) == Uris(q)[1..] == Uris(p)[1..] == Uris(p[1..]);
      IndexOfUriUris(q[1..], p[1..], uri);
    }
  }

  /** An id of the saved queue finds the first song with the same URI. */
  lemma OldIdFound(e: Env, s: Sys, oldid: int)
    requires SysOk(e, s) && s.pl.active && Uris(s.pl.saved.queue) == Logical(s)
    ensures var id := IdFromOldId(s, oldid);
            var k := InactivePos(s.pl.saved.queue, oldid);
            (id < 0 <==> k < 0) && (k >= 0 ==> id > 0 && ScanPos(s.cli.server.queue, id) == k)
  {
    var q := s.pl.saved.queue;
    var k := IndexOf(q, oldid);
    if k < |q| {
      var uri := q[k].uri;
      IndexOfUriUris(q, s.cli.server.queue, uri);
      assert |q| == |Uris(q)| == |s.cli.server.queue|;
      IndexOfUnique(s.cli.server.queue, IndexOfUri(q, uri));
    }
  }

  lemma LiveInsertOk(e: Env, s: Sys, afterId: int, uri: string, r: Sys)
    requires SysOk(e, s) && s.pl.active
    requires r == s.(cli := InsertAfterId(s.cli, e.accepts, e.tags, uri, afterId).0)
    ensures SysOk(e, r) && 0 <= InsertPos(s.cli, afterId) <= |Logical(s)|
    ensures var at := InsertPos(s.cli, afterId);
            Logical(r) == if e.accepts(uri) then Logical(s)[..at] + [uri] + Logical(s)[at..] else Logical(s)
  {
    var q := s.cli.server.queue;
    var at := InsertPos(s.cli, afterId);
    InsertAfterIdPos(s.cli, e.accepts, e.tags, uri, afterId);
    var song := Song(s.cli.server.nextId, uri);
    UrisInsert(q, at, song);
    FreshLater(s.pl.saved.queue, s.cli.server.nextId, r.cli.server.nextId);
    if e.accepts(uri) {
      assert r.cli.server.queue == InsertSong(q, at, song);
      assert forall i :: 0 <= i < |r.cli.server.queue| ==> r.cli.server.queue[i] == song || r.cli.server.queue[i] in q;
    }
  }

  lemma InsertOk(e: Env, s: Sys, afterId: int, uri: string, r: Sys)
    requires SysOk(e, s) && r == PlInsert(e, s, afterId, uri)
    ensures SysOk(e, r) && Logical(r) == ListAfter(e, s, PlaylistInsert(afterId, uri))
  {
    if s.pl.active {
      LiveInsertOk(e, s, afterId, uri, r);
    } else {
      var s1 := SetSource(e, s, PLAYLIST);
      SetSourceOk(e, s, PLAYLIST, s1);
      OldIdFound(e, s1, afterId);
      var id := IdFromOldId(s1, afterId);
      if id >= 0 {
        LiveInsertOk(e, s1, id, uri, r);
      }
    }
  }

  lemma FreshRemove(q: seq<Song>, k: nat, n: int)
    requires k < |q| && Fresh(q, n)
    ensures Fresh(RemoveAt(q, k), n)
  {
    var q' := RemoveAt(q, k);
    assert forall i :: 0 <= i < |q'| ==> q'[i] == q[if i < k then i else i + 1];
  }

  lemma LiveDeleteOk(e: Env, s: Sys, id: int, r: Sys)
    requires SysOk(e, s) && s.pl.active && r == PlDeleteId(s, id)
    ensures SysOk(e, r)
  {
    var server := if s.cli.server.songid == id then Stop(s.cli.server) else s.cli.server;
    DeleteOk(s.cli.(server := server), id);
    var q := s.cli.server.queue;
    var k := IndexOf(q, id);
    if k < |q| {
      var q' := RemoveAt(q, k);
      assert forall i :: 0 <= i < |q'| ==> q'[i] == q[if i < k then i else i + 1];
    }
  }

  lemma SavedDeleteOk(e: Env, s: Sys, id: int, r: Sys)
    requires SysOk(e, s) && !s.pl.active && r == PlDeleteId(s, id)
    ensures SysOk(e, r)
  {
    var q := s.pl.saved.queue;
    var k := IndexOf(q, id);
    if k < |q| {
      FreshRemove(q, k, s.cli.server.nextId);
      var q' := RemoveAt(q, k);
      assert forall i :: 0 <= i < |q'| ==> q'[i] == q[if i < k then i else i + 1];
    }
  }

  lemma DeleteIdOk(e: Env, s: Sys, id: int, r: Sys)
    requires SysOk(e, s) && r == PlDeleteId(s, id)
    ensures SysOk(e, r) && Logical(r) == ListAfter(e, s, PlaylistDeleteId(id))
  {
    if s.pl.active { LiveDeleteOk(e, s, id, r); } else { SavedDeleteOk(e, s, id, r); }
    var q := PlaylistSongs(s);
    var k := IndexOf(q, id);
    if k < |q| {
      UrisRemove(q, k);
    }
  }

  /** Other clients act between calls, with songs the server accepts and ids it never used before. */
  predicate EnvOk(e: Env, s: Sys, server: Server) {
    && WfServer(server) && server.version > s.cli.server.version && server.nextId >= s.cli.server.nextId
    && AllAccepted(server.queue, e.accepts)
    && forall i :: 0 <= i < |server.queue| ==>
         server.queue[i].id >= s.cli.server.nextId
         || IndexOf(s.cli.server.queue, server.queue[i].id) < |s.cli.server.queue|
  }

  predicate ActOk(e: Env, s: Sys, a: Act) {
    a.OtherClient? ==> EnvOk(e, s, a.server)
  }

  lemma OtherClientOk(e: Env, s: Sys, server: Server, r: Sys)
    requires SysOk(e, s) && EnvOk(e, s, server) && r == WithServer(s, server)
    ensures SysOk(e, r) && Logical(r) == ListAfter(e, s, OtherClient(server))
  {
    FreshLater(s.pl.saved.queue, s.cli.server.nextId, server.nextId);
  }

  lemma PlPlayOk(e: Env, s: Sys, pos: int, r: Sys)
    requires SysOk(e, s) && r == PlPlay(e, s, pos)
    ensures SysOk(e, r) && Logical(r) == Logical(s) && r.source == PLAYLIST
  {
    var s1 := if s.pl.active then s else SetSource(e, s, PLAYLIST);
    SetSourceOk(e, s, PLAYLIST, SetSource(e, s, PLAYLIST));
  }

  lemma PlSeekIdOk(e: Env, s: Sys, id: int, r: Sys)
    requires SysOk(e, s) && r == PlSeekId(e, s, id)
    ensures SysOk(e, r) && Logical(r) == Logical(s) && r.source == PLAYLIST
  {
    SetSourceOk(e, s, PLAYLIST, SetSource(e, s, PLAYLIST));
  }

  /** Every action keeps the invariant, and does to the playlist what it should and nothing more. */
  lemma DoOk(e: Env, s: Sys, a: Act, r: Sys)
    requires SysOk(e, s) && ActOk(e, s, a) && r == Do(e, s, a)
    ensures SysOk(e, r) && Logical(r) == ListAfter(e, s, a)
  {
    match a
    case SelectSource(i) => SetSourceOk(e, s, i, r);
    case RadioStop => RdStopOk(e, s, r);
    case RadioSetId(id) => RdStopOk(e, s, RdStop(e, s));
    case RadioSetChannel => RdStopOk(e, s, RdStop(e, s));
    case RadioPlay(fetch) => RdPlayOk(e, s, fetch, r);
    case RadioMeta(uri) => RdMetaOk(e, s, uri, r);
    case PlaylistPlay => PlPlayOk(e, s, -1, r);
    case PlaylistSeekIndex(pos) => PlPlayOk(e, s, pos, r);
    case PlaylistSeekId(id) => PlSeekIdOk(e, s, id, r);
    case PlaylistInsert(afterId, uri) => InsertOk(e, s, afterId, uri, r);
    case PlaylistDeleteId(id) => DeleteIdOk(e, s, id, r);
    case PlaylistDeleteAll =>
    case OtherClient(server) => OtherClientOk(e, s, server, r);
  }

  // ---------- runs ----------

  predicate RunOk(e: Env, s: Sys, acts: seq<Act>)
    decreases |acts|
  {
    acts != [] ==> ActOk(e, s, acts[0]) && RunOk(e, Do(e, s, acts[0]), acts[1..])
  }

  lemma {:induction false} RunKeeps(e: Env, s: Sys, acts: seq<Act>)
    requires SysOk(e, s) && RunOk(e, s, acts)
    ensures SysOk(e, Run(e, s, acts))
    decreases |acts|
  {
    if acts != [] {
      DoOk(e, s, acts[0], Do(e, s, acts[0]));
      RunKeeps(e, Do(e, s, acts[0]), acts[1..]);
    }
  }

  lemma {:induction false} RunLast(e: Env, s: Sys, acts: seq<Act>, a: Act)
    requires RunOk(e, s, acts + [a])
    ensures RunOk(e, s, acts) && ActOk(e, Run(e, s, acts), a)
    ensures Run(e, s, acts + [a]) == Do(e, Run(e, s, acts), a)
    decreases |acts|
  {
    if acts == [] {
      assert acts + [a] == [a];
      assert Run(e, Do(e, s, a), []) == Do(e, s, a);
    } else {
      assert (acts + [a])[1..] == acts[1..] + [a];
      RunLast(e, Do(e, s, acts[0]), acts[1..], a);
    }
  }

  /** In every run, each action finds one service active and leaves of the playlist what it should. */
  lemma EveryStep(e: Env, s: Sys, acts: seq<Act>, a: Act)
    requires SysOk(e, s) && RunOk(e, s, acts + [a])
    ensures var before, after := Run(e, s, acts), Run(e, s, acts + [a]);
            AtRest(e, before) && AtRest(e, after) && Logical(after) == ListAfter(e, before, a)
  {
    RunLast(e, s, acts, a);
    RunKeeps(e, s, acts);
    DoOk(e, Run(e, s, acts), a, Do(e, Run(e, s, acts), a));
  }

  predicate Edits(a: Act) {
    a.PlaylistInsert? || a.PlaylistDeleteId? || a.PlaylistDeleteAll? || a.OtherClient?
  }

  /** However long the radio and the receiver take over in between, and whatever is played. */
  lemma {:induction false} SwitchingKeepsPlaylist(e: Env, s: Sys, acts: seq<Act>)
    requires SysOk(e, s) && forall a :: a in acts ==> !Edits(a)
    ensures SysOk(e, Run(e, s, acts)) && Logical(Run(e, s, acts)) == Logical(s)
    decreases |acts|
  {
    if acts != [] {
      assert !Edits(acts[0]);
      DoOk(e, s, acts[0], Do(e, s, acts[0]));
      SwitchingKeepsPlaylist(e, Do(e, s, acts[0]), acts[1..]);
    }
  }

  /** At start the playlist is active on whatever queue the server has. */
  function Start(cli: Cli): Sys {
    Sys(cli, Playlist(true, Saved([], UNK, -1)), Radio(false, 0, false, Saved([], UNK, -1)), false, PLAYLIST)
  }

  lemma StartOk(e: Env, cli: Cli)
    requires CliOk(cli) && AllAccepted(cli.server.queue, e.accepts)
    ensures SysOk(e, Start(cli))
  {
  }

  /** In a run from the start, a refused insertion sends the next one after id -1 into the middle of the
      playlist. */
  lemma RefusalMisplaces(e: Env) returns (s: Sys, acts: seq<Act>)
    requires e.accepts("a") && e.accepts("b") && e.accepts("c") && !e.accepts("x")
    ensures SysOk(e, s) && RunOk(e, s, acts) && Logical(s) == ["b"]
    ensures acts == [PlaylistInsert(0, "a"), PlaylistInsert(0, "x"), PlaylistInsert(-1, "c")]
    ensures Logical(Run(e, s, acts)) == ["a", "c", "b"]
  {
    var server := Server([Song(1, "b")], 2, 1, STOP, -1);
    s := Start(Cli(server, -1, -1, -1, 1));
    acts := [PlaylistInsert(0, "a"), PlaylistInsert(0, "x"), PlaylistInsert(-1, "c")];
    StartOk(e, s.cli);
    var s1, s2 := Do(e, s, acts[0]), Do(e, Do(e, s, acts[0]), acts[1]);
    InsertOk(e, s, 0, "a", s1);
    InsertOk(e, s1, 0, "x", s2);
    InsertOk(e, s2, -1, "c", Do(e, s2, acts[2]));
    RefusalMisleads(s.cli, e.accepts, e.tags, "a", 0, "x", 0, s2.cli);
    assert acts[1..][1..] == acts[2..] && acts[2..][1..] == [];
    assert Run(e, s, acts) == Run(e, s2, acts[2..]) == Run(e, Do(e, s2, acts[2]), []);
  }

  // ---------- what resumes when the playlist is selected again ----------

  /** The song at the saved position plays or is paused as it was, and nothing plays when there is none. */
  lemma Resumes(e: Env, s: Sys, r: Sys)
    requires SysOk(e, s) && !s.pl.active && Plays(s.pl.saved.state)
    requires r == SetSource(e, s, PLAYLIST)
    ensures var at, q := ResumePos(s.pl.saved), s.pl.saved.queue;
            if at < |q| then IsCurrent(r.cli.server, s.pl.saved.state, q[at].uri) else r.cli.server.state == STOP
  {
    var q := s.pl.saved.queue;
    SetSourceOk(e, s, PLAYLIST, r);
    var off := SwitchOff(e, s);
    RestoreRestores(off.cli.(server := Clear(off.cli.server)), e.accepts, e.tags, s.pl.saved);
    assert |r.cli.server.queue| == |Logical(r)| == |Logical(s)| == |q|;
    var at := ResumePos(s.pl.saved);
    if at < |q| {
      assert Logical(r)[at] == Logical(s)[at];
    }
  }

  /** A song with this URI plays or is paused. */
  predicate IsCurrent(server: Server, state: PlayState, uri: string) {
    var at := SongPos(server);
    server.state == state && 0 <= at < |server.queue| && server.queue[at].uri == uri
  }

  /** Deleting a song of the saved playlist does not move the saved position along: what resumes is still what
      was playing exactly when the deleted song came after it, or the one that moved up has the same URI. */
  lemma DeleteSavedResumesIff(e: Env, s: Sys, k: nat, d: Sys, r: Sys)
    requires SysOk(e, s) && !s.pl.active && Plays(s.pl.saved.state)
    requires ResumePos(s.pl.saved) < |s.pl.saved.queue| && k < |s.pl.saved.queue|
    requires d == PlDeleteId(s, s.pl.saved.queue[k].id) && r == SetSource(e, d, PLAYLIST)
    ensures var at, q := ResumePos(s.pl.saved), s.pl.saved.queue;
            IsCurrent(r.cli.server, s.pl.saved.state, q[at].uri)
            <==> at < k || (at + 1 < |q| && q[at + 1].uri == q[at].uri)
  {
    var at, q := ResumePos(s.pl.saved), s.pl.saved.queue;
    DeleteIdOk(e, s, q[k].id, d);
    IndexOfUnique(q, k);
    assert d.pl.saved.queue == RemoveAt(q, k);
    if |q| > 1 {
      Resumes(e, d, r);
    } else {
      SetSourceOk(e, d, PLAYLIST, r);
      assert |r.cli.server.queue| == |Logical(r)| == |Logical(d)| == 0;
    }
  }

  // ---------- song ids across switches ----------

  /** A song of the live queue is found under its own id, never taken for a saved one. */
  lemma CurrentIdSought(e: Env, s: Sys, k: nat)
    requires SysOk(e, s) && s.pl.active && k < |s.cli.server.queue|
    ensures var id := s.cli.server.queue[k].id;
            && SeekTarget(s, true, id) == Some(id) && PlSeekId(e, s, id).cli.server.state == PLAY
            && SongPos(PlSeekId(e, s, id).cli.server) == k
  {
    var id := s.cli.server.queue[k].id;
    var j := IndexOf(s.pl.saved.queue, id);
    if j < |s.pl.saved.queue| {
      assert false;
    }
    IndexOfUnique(s.cli.server.queue, k);
  }

  /** A song of the saved queue, sought by the id it had there: the first song with its URI plays. */
  lemma SavedIdSought(e: Env, s: Sys, k: nat)
    requires SysOk(e, s) && !s.pl.active && k < |s.pl.saved.queue|
    ensures var r := PlSeekId(e, s, s.pl.saved.queue[k].id);
            var pos := IndexOfUri(s.pl.saved.queue, s.pl.saved.queue[k].uri);
            r.source == PLAYLIST && r.cli.server.state == PLAY && SongPos(r.cli.server) == pos
            && Logical(r)[pos] == s.pl.saved.queue[k].uri
  {
    var id := s.pl.saved.queue[k].id;
    var q := s.pl.saved.queue;
    var s1 := SetSource(e, s, PLAYLIST);
    SetSourceOk(e, s, PLAYLIST, s1);
    IndexOfUnique(q, k);
    OldIdFound(e, s1, id);
    var pos := IndexOfUri(q, q[k].uri);
    assert pos <= k;
    PlSeekIdOk(e, s, id, PlSeekId(e, s, id));
    assert Uris(q)[pos] == q[pos].uri;
  }
}
