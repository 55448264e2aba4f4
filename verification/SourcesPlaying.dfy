/** What plays after which action, and that what played before another source took over plays again
    (src/ohproduct.cxx, src/ohplaylist.cxx, src/ohradio.cxx). */
module SourcesPlaying {
  import opened Mpd
  import opened Sources
  import opened SourcesProofs

  // ---------- the playlist comes back ----------

  /** The same play state, as far as something plays or is paused. */
  predicate SameState(a: PlayState, b: PlayState) {
    if Plays(b) then a == b else !Plays(a)
  }

  /** The playlist plays its k-th song, or would when it is selected again. */
  predicate Carried(s: Sys, state: PlayState, k: nat) {
    if s.pl.active then SameState(s.cli.server.state, state) && (Plays(state) ==> SongPos(s.cli.server) == k)
    else SameState(s.pl.saved.state, state) && (Plays(state) ==> s.pl.saved.songpos == k)
  }

  lemma OffCarries(e: Env, s: Sys, off: Sys, state: PlayState, k: nat)
    requires SysOk(e, s) && Carried(s, state, k)
    requires off == if s.source == PLAYLIST then PlSetActive(e, s, false)
                    else if s.source == RADIO then RdSetActive(e, s, false) else s.(rcActive := false)
    ensures !off.pl.active && Carried(off, state, k)
  {
    if s.source == RADIO { RdOffOk(e, s, off); }
  }

  lemma OnCarries(e: Env, off: Sys, on: Sys, state: PlayState, k: nat)
    requires QueuesOk(e, off) && !off.pl.active && on == PlSetActive(e, off, true)
    requires Carried(off, state, k) && (Plays(state) ==> k < |off.pl.saved.queue|)
    ensures Carried(on, state, k)
  {
    RestoreRestores(off.cli.(server := Clear(off.cli.server)), e.accepts, e.tags, off.pl.saved);
  }

  lemma SwitchCarries(e: Env, s: Sys, i: int, r: Sys, state: PlayState, k: nat)
    requires SysOk(e, s) && Carried(s, state, k) && (Plays(state) ==> k < |Logical(s)|) && r == SetSource(e, s, i)
    ensures Carried(r, state, k)
  {
    if 0 <= i < SourceCount(e) && s.source != i {
      var off := SwitchOff(e, s);
      OffCarries(e, s, off, state, k);
      if i == PLAYLIST {
        OnCarries(e, off, PlSetActive(e, off, true), state, k);
      } else if i == RADIO {
        RdOnOk(e, off, RdSetActive(e, off, true));
      }
    }
  }

  /** Switches, and what the radio is asked to do. */
  predicate OfOthers(a: Act) {
    a.SelectSource? || a.RadioStop? || a.RadioSetId? || a.RadioSetChannel? || a.RadioPlay? || a.RadioMeta?
  }

  /** Beyond the switch to it, the radio leaves the playlist service alone. */
  lemma RadioLeavesPl(e: Env, s: Sys, a: Act, r: Sys)
    requires OfOthers(a) && !a.SelectSource? && r == Do(e, s, a)
    ensures r == s || r.pl == if s.rd.active then s.pl else SetSource(e, s, RADIO).pl
  {
    var s1 := MaybeActivate(e, s);
    assert RdStop(e, s).pl == s1.pl;
    match a
    case RadioPlay(fetch) => assert RdPlay(e, s, fetch).pl == s1.pl;
    case RadioMeta(uri) => assert r.pl == s.pl && (!s.rd.active ==> r == s);
    case _ =>
  }

  lemma OthersCarry(e: Env, s: Sys, a: Act, r: Sys, state: PlayState, k: nat)
    requires SysOk(e, s) && Carried(s, state, k) && (Plays(state) ==> k < |Logical(s)|)
    requires OfOthers(a) && r == Do(e, s, a)
    ensures SysOk(e, r) && Logical(r) == Logical(s) && Carried(r, state, k)
  {
    DoOk(e, s, a, r);
    if a.SelectSource? {
      SwitchCarries(e, s, a.i, r, state, k);
    } else if r != s {
      RadioLeavesPl(e, s, a, r);
      var s1 := SetSource(e, s, RADIO);
      SetSourceOk(e, s, RADIO, s1);
      SwitchCarries(e, s, RADIO, s1, state, k);
    }
  }

  lemma {:induction false} OthersCarryAll(e: Env, s: Sys, acts: seq<Act>, state: PlayState, k: nat)
    requires SysOk(e, s) && Carried(s, state, k) && (Plays(state) ==> k < |Logical(s)|)
    requires forall a :: a in acts ==> OfOthers(a)
    ensures var r := Run(e, s, acts);
            SysOk(e, r) && Logical(r) == Logical(s) && Carried(r, state, k)
    decreases |acts|
  {
    if acts != [] {
      OthersCarry(e, s, acts[0], Do(e, s, acts[0]), state, k);
      OthersCarryAll(e, Do(e, s, acts[0]), acts[1..], state, k);
    }
  }

  /** Whatever other sources are selected and do meanwhile: the song that played or was paused in the playlist does
      so again when the playlist is selected again, and a playlist that was stopped stays stopped. */
  lemma PlayingComesBack(e: Env, s: Sys, acts: seq<Act>, r: Sys)
    requires SysOk(e, s) && s.pl.active && forall a :: a in acts ==> OfOthers(a)
    requires r == SetSource(e, Run(e, s, acts), PLAYLIST)
    ensures r.source == PLAYLIST && Logical(r) == Logical(s)
    ensures !Plays(s.cli.server.state) ==> !Plays(r.cli.server.state)
    ensures var k := SongPos(s.cli.server);
            Plays(s.cli.server.state) && k >= 0 ==>
              SongPos(r.cli.server) == k && IsCurrent(r.cli.server, s.cli.server.state, s.cli.server.queue[k].uri)
  {
    var k, state := SongPos(s.cli.server), s.cli.server.state;
    var q := Run(e, s, acts);
    SwitchingKeepsPlaylist(e, s, acts);
    SetSourceOk(e, q, PLAYLIST, r);
    if !Plays(state) || k >= 0 {
      var at := if k >= 0 then k else 0;
      OthersCarryAll(e, s, acts, state, at);
      SwitchCarries(e, q, PLAYLIST, r, state, at);
      if k >= 0 { assert Logical(r)[k] == Logical(s)[k]; }
    }
  }

  // ---------- the radio comes back ----------

  predicate RadioLeftAlone(a: Act) {
    a.PlaylistPlay? || a.PlaylistSeekIndex? || a.PlaylistSeekId? || a.PlaylistInsert? || a.PlaylistDeleteId?
    || a.PlaylistDeleteAll? || a.OtherClient? || (a.SelectSource? && a.i != RADIO)
  }

  lemma SwitchKeepsRadio(e: Env, s: Sys, i: int, r: Sys)
    requires SysOk(e, s) && s.source != RADIO && i != RADIO && r == SetSource(e, s, i)
    ensures SysOk(e, r) && r.source != RADIO && r.rd == s.rd
  {
    SetSourceOk(e, s, i, r);
  }

  lemma ActKeepsRadio(e: Env, s: Sys, a: Act, r: Sys)
    requires SysOk(e, s) && ActOk(e, s, a) && s.source != RADIO && RadioLeftAlone(a) && r == Do(e, s, a)
    ensures SysOk(e, r) && r.source != RADIO && r.rd == s.rd
  {
    DoOk(e, s, a, r);
    SwitchKeepsRadio(e, s, if a.SelectSource? then a.i else PLAYLIST,
                     SetSource(e, s, if a.SelectSource? then a.i else PLAYLIST));
  }

  lemma {:induction false} KeepsRadio(e: Env, s: Sys, acts: seq<Act>)
    requires SysOk(e, s) && RunOk(e, s, acts) && s.source != RADIO && forall a :: a in acts ==> RadioLeftAlone(a)
    ensures var r := Run(e, s, acts);
            SysOk(e, r) && r.source != RADIO && r.rd == s.rd
    decreases |acts|
  {
    if acts != [] {
      assert RadioLeftAlone(acts[0]);
      ActKeepsRadio(e, s, acts[0], Do(e, s, acts[0]));
      KeepsRadio(e, Do(e, s, acts[0]), acts[1..]);
    }
  }

  /** A channel of the radio comes back likewise, with its queue, after anything done to the playlist. */
  lemma RadioComesBack(e: Env, s: Sys, i: int, acts: seq<Act>, r: Sys)
    requires SysOk(e, s) && s.rd.active && s.rd.id != 0 && s.cli.server.state != UNK
    requires 0 <= i < SourceCount(e) && i != RADIO
    requires var s1 := SetSource(e, s, i);
             RunOk(e, s1, acts) && (forall a :: a in acts ==> RadioLeftAlone(a))
             && r == SetSource(e, Run(e, s1, acts), RADIO)
    ensures r.source == RADIO && r.rd.id == s.rd.id && Uris(r.cli.server.queue) == Uris(s.cli.server.queue)
    ensures !Plays(s.cli.server.state) ==> r.cli.server.state == STOP
    ensures var k := SongPos(s.cli.server);
            Plays(s.cli.server.state) && k >= 0 ==>
              SongPos(r.cli.server) == k && IsCurrent(r.cli.server, s.cli.server.state, s.cli.server.queue[k].uri)
  {
    var s1, k := SetSource(e, s, i), SongPos(s.cli.server);
    var off := SwitchOff(e, s);
    RdOffOk(e, s, off);
    SetSourceOk(e, s, i, s1);
    assert s1.rd == off.rd;
    var q := Run(e, s1, acts);
    KeepsRadio(e, s1, acts);
    var off2 := SwitchOff(e, q);
    RestoreRestores(off2.cli, e.accepts, e.tags, q.rd.saved);
    SetSourceOk(e, q, RADIO, r);
    assert |r.cli.server.queue| == |Uris(r.cli.server.queue)| == |s.cli.server.queue|;
    if k >= 0 { assert Uris(r.cli.server.queue)[k] == Uris(s.cli.server.queue)[k]; }
  }

  /** Leaving for the receiver stops MPD; the playlist leaves its songs there, the radio does not. */
  lemma ReceiverSilent(e: Env, s: Sys, r: Sys)
    requires SysOk(e, s) && e.receiver && s.source != RECEIVER && r == SetSource(e, s, RECEIVER)
    ensures r.cli.server.state == STOP
    ensures r.cli.server.queue == if s.source == PLAYLIST then s.cli.server.queue else []
  {
    var off := SwitchOff(e, s);
  }

  // ---------- what the radio plays ----------

  /** The radio has MPD for itself, with nothing in the queue. */
  predicate RadioIdle(s: Sys) {
    s.source == RADIO && s.rd.active && s.cli.server.queue == [] && s.cli.server.state == STOP && !s.rd.playPending
  }

  lemma RadioTakesOver(e: Env, s: Sys, r: Sys)
    requires SysOk(e, s) && r == MaybeActivate(e, s)
    ensures SysOk(e, r) && r.source == RADIO && r.rd.active && r.rd.id == s.rd.id
    ensures s.rd.active ==> r == s
  {
    MaybeActivateOk(e, s, r);
    if !s.rd.active {
      var off := SwitchOff(e, s);
      RdOnOk(e, off, RdSetActive(e, off, true));
    }
  }

  /** A stop, and the choice of a channel: the radio is selected and silent, and the channel is the one chosen.
      Numbers that are no channels are refused, but for the one behind the last. */
  lemma RadioSilenced(e: Env, s: Sys, id: int)
    requires SysOk(e, s)
    ensures RadioIdle(Do(e, s, RadioStop)) && Do(e, s, RadioStop).rd.id == s.rd.id
    ensures RadioIdle(Do(e, s, RadioSetChannel)) && Do(e, s, RadioSetChannel).rd.id == 0
    ensures var r := Do(e, s, RadioSetId(id));
            if 0 < id <= e.channels then RadioIdle(r) && r.rd.id == id else r == s
  {
    RadioTakesOver(e, s, MaybeActivate(e, s));
  }

  /** A stream that was found plays, alone in the queue. One that MPD refuses leaves the queue empty. */
  lemma StreamPlays(e: Env, s: Sys, url: string, r: Sys)
    requires SysOk(e, s) && s.rd.id < e.channels && r == Do(e, s, RadioPlay(Stream(url)))
    ensures r.source == RADIO && r.rd.id == s.rd.id
    ensures Uris(r.cli.server.queue) == if e.accepts(url) then [url] else []
    ensures if e.accepts(url) then IsCurrent(r.cli.server, PLAY, url) else r.cli.server.state == STOP
  {
    var s1 := MaybeActivate(e, s);
    RadioTakesOver(e, s, s1);
    var c := s1.cli.(server := Clear(s1.cli.server));
    if e.accepts(url) {
      var song := Song(c.server.nextId, url);
      assert InsertSong([], 0, song) == [song];
      IndexOfUnique([song], 0);
    }
  }

  /** A channel with only a metadata script waits for it, over an empty queue; where no stream was found, and for the
      number behind the last channel, the radio is selected and nothing else happens. */
  lemma NoStream(e: Env, s: Sys, fetch: Fetch, r: Sys)
    requires SysOk(e, s) && !fetch.Stream? && r == Do(e, s, RadioPlay(fetch))
    ensures s.rd.id >= e.channels || fetch.Failed? ==> r == MaybeActivate(e, s)
    ensures s.rd.id < e.channels && fetch.NoUri? ==>
              r.source == RADIO && r.rd.playPending && r.cli.server.queue == [] && r.cli.server.state == STOP
  {
    RadioTakesOver(e, s, MaybeActivate(e, s));
  }

  /** A URI from the script goes to the end of the queue once, and starts to play if that was waited for. */
  lemma MetaPlays(e: Env, s: Sys, uri: string, r: Sys)
    requires SysOk(e, s) && s.rd.active && e.accepts(uri) && r == Do(e, s, RadioMeta(uri))
    ensures !s.rd.playPending && s.cli.server.state != PLAY ==> r == s
    ensures s.rd.playPending || s.cli.server.state == PLAY ==>
              Uris(r.cli.server.queue)
              == Uris(s.cli.server.queue) + if uri in Uris(s.cli.server.queue) then [] else [uri]
    ensures s.rd.playPending || s.cli.server.state == PLAY ==>
              r.cli.server.state == PLAY && (s.cli.server.state != PLAY ==> SongPos(r.cli.server) == 0)
    ensures s.cli.server.state == PLAY ==> r.cli.server.songid == s.cli.server.songid
    ensures r.rd == s.rd && r.pl == s.pl
  {
    var c := s.cli;
    var q := c.server.queue;
    var song := Song(c.server.nextId, uri);
    InsertIOk(c, e.accepts, e.tags, uri, -1);
    UrisInsert(q, |q|, song);
    assert Uris(q)[..|q|] + [uri] + Uris(q)[|q|..] == Uris(q) + [uri];
    assert Uris(q) + [] == Uris(q);
    if s.rd.playPending || s.cli.server.state == PLAY {
      assert r.cli.server.queue != [] by { assert |Uris(r.cli.server.queue)| == |r.cli.server.queue|; }
      IndexOfUnique(r.cli.server.queue, 0);
    }
  }

  // ---------- what the playlist plays ----------

  lemma UrisAt(q: seq<Song>, k: int)
    ensures |Uris(q)| == |q| && (0 <= k < |q| ==> Uris(q)[k] == q[k].uri)
  {
  }

  /** Play, and seeking an index: the song at that position plays; without one, the current song or the first. A
      position behind the end changes nothing but the source. */
  lemma PlayPlays(e: Env, s: Sys, pos: int, r: Sys)
    requires SysOk(e, s) && r == Do(e, s, PlaylistSeekIndex(pos))
    ensures r == Do(e, s, PlaylistPlay) || pos != -1
    ensures r.source == PLAYLIST && Logical(r) == Logical(s)
    ensures 0 <= pos < |Logical(s)| ==> SongPos(r.cli.server) == pos && IsCurrent(r.cli.server, PLAY, Logical(s)[pos])
    ensures var s1 := SetSource(e, s, PLAYLIST);
            && (pos >= |Logical(s)| ==> r == s1.(cli := UpdStatus(s1.cli)))
            && (pos < 0 && Logical(s) != [] ==>
                  && r.cli.server.state == PLAY
                  && (SongPos(s1.cli.server) >= 0 ==> SongPos(r.cli.server) == SongPos(s1.cli.server))
                  && (s1.cli.server.songid == -1 ==> SongPos(r.cli.server) == 0))
  {
    var s1 := SetSource(e, s, PLAYLIST);
    SetSourceOk(e, s, PLAYLIST, s1);
    PlPlayOk(e, s, pos, r);
    var q := s1.cli.server.queue;
    UrisAt(q, pos);
    if 0 <= pos < |q| {
      IndexOfUnique(q, pos);
    } else if q != [] {
      IndexOfUnique(q, 0);
    }
  }

  /** Deleting the current song stops MPD first; deleting another one leaves what plays alone. */
  lemma DeleteAndPlay(e: Env, s: Sys, id: int, r: Sys)
    requires SysOk(e, s) && s.pl.active && r == Do(e, s, PlaylistDeleteId(id))
    ensures id == s.cli.server.songid ==> r.cli.server.state == STOP
    ensures id == s.cli.server.songid && IndexOf(s.cli.server.queue, id) < |s.cli.server.queue| ==>
              r.cli.server.songid == -1
    ensures id != s.cli.server.songid ==>
              r.cli.server.state == s.cli.server.state && r.cli.server.songid == s.cli.server.songid
    ensures IndexOf(s.cli.server.queue, id) == |s.cli.server.queue| && id != s.cli.server.songid ==> r == s
  {
  }

  /** A saved playlist that becomes empty is stopped, so that nothing resumes. */
  lemma EmptiedIsStopped(e: Env, s: Sys, a: Act, r: Sys)
    requires SysOk(e, s) && (a.PlaylistDeleteAll? || a.PlaylistDeleteId?) && r == Do(e, s, a)
    requires Logical(r) == [] && Logical(s) != []
    ensures !s.pl.active ==> r.pl.saved.state == STOP
    ensures a.PlaylistDeleteAll? && s.pl.active ==> r.cli.server.state == STOP
  {
    assert |Uris(PlaylistSongs(r))| == |PlaylistSongs(r)|;
  }

  /** While the playlist is active, an id from before the last switch still finds the first song with the URI that it
      had then; when there is none, nothing changes. */
  lemma StaleIdSought(e: Env, s: Sys, id: int, k: nat, r: Sys)
    requires SysOk(e, s) && s.pl.active && r == Do(e, s, PlaylistSeekId(id))
    requires k < |s.pl.saved.queue| && s.pl.saved.queue[k].id == id
    ensures var uri, live := s.pl.saved.queue[k].uri, s.cli.server.queue;
            if forall j :: 0 <= j < |live| ==> live[j].uri != uri then r == s
            else r.cli.server.state == PLAY && r.cli.server.queue == live && exists j ::
              && 0 <= j < |live| && SongPos(r.cli.server) == j && live[j].uri == uri
              && forall i :: 0 <= i < j ==> live[i].uri != uri
  {
    IndexOfUnique(s.pl.saved.queue, k);
    var live := s.cli.server.queue;
    var j := IndexOfUri(live, s.pl.saved.queue[k].uri);
    if j < |live| {
      IndexOfUnique(live, j);
      assert SongPos(r.cli.server) == j;
    }
  }

  /** An id that no song ever had under the saved or the live queue is sought in vain. */
  lemma UnknownIdSought(e: Env, s: Sys, id: int, r: Sys)
    requires SysOk(e, s) && r == Do(e, s, PlaylistSeekId(id)) && IndexOf(s.pl.saved.queue, id) == |s.pl.saved.queue|
    requires s.pl.active ==> IndexOf(s.cli.server.queue, id) == |s.cli.server.queue|
    ensures r == if s.pl.active then s.(cli := UpdStatus(s.cli)) else SetSource(e, s, PLAYLIST)
  {
    SetSourceOk(e, s, PLAYLIST, SetSource(e, s, PLAYLIST));
  }
}
