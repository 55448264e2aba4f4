/** The MPD server as its client sees it, and the client's insertion bookkeeping (src/mpdcli.cxx). */
module Mpd {

  datatype PlayState = UNK | STOP | PLAY | PAUSE

  datatype Song = Song(id: int, uri: string)

  /** The server: ids are never reused and every change of the queue raises the version. */
  datatype Server = Server(queue: seq<Song>, nextId: int, version: int, state: PlayState, songid: int)

  /** The server with the fields of the client that matter here. statVers is m_stat.qvers. */
  datatype Cli = Cli(server: Server, lastId: int, lastPos: int, lastVers: int, statVers: int)

  /** A saved queue and play state (struct MpdState). */
  datatype Saved = Saved(queue: seq<Song>, state: PlayState, songpos: int)

  function Uris(q: seq<Song>): seq<string> {
    seq(|q|, i requires 0 <= i < |q| => q[i].uri)
  }

  predicate Fresh(q: seq<Song>, nextId: int) {
    && (forall i :: 0 <= i < |q| ==> 0 < q[i].id < nextId)
    && (forall i, j :: 0 <= i < j < |q| ==> q[i].id != q[j].id)
  }

  predicate WfServer(s: Server) {
    s.nextId > 0 && Fresh(s.queue, s.nextId)
  }

  // ---------- server commands ----------

  function InsertSong(q: seq<Song>, pos: nat, song: Song): seq<Song>
    requires pos <= |q|
  {
    q[..pos] + [song] + q[pos..]
  }

  /** Where add_id (pos -1) and add_id_to put a song. */
  function AddAt(s: Server, pos: int): int {
    if pos == -1 then |s.queue| else pos
  }

  /** Position of the song with an id, the length of the queue when there is none. */
  function IndexOf(q: seq<Song>, id: int): (k: nat)
    ensures k <= |q|
    ensures k < |q| ==> q[k].id == id
    ensures forall i :: 0 <= i < k ==> q[i].id != id
  {
    if q == [] || q[0].id == id then 0 else 1 + IndexOf(q[1..], id)
  }

  function RemoveAt(q: seq<Song>, k: nat): seq<Song>
    requires k < |q|
  {
    q[..k] + q[k + 1..]
  }

  function Clear(s: Server): Server {
    s.(queue := [], version := s.version + 1, state := STOP, songid := -1)
  }

  function Delete(s: Server, id: int): Server {
    var k := IndexOf(s.queue, id);
    if k == |s.queue| then s
    else s.(queue := RemoveAt(s.queue, k), version := s.version + 1, songid := if s.songid == id then -1 else s.songid)
  }

  function Stop(s: Server): Server {
    s.(state := STOP)
  }

  function Pause(s: Server): Server {
    if s.state == PLAY then s.(state := PAUSE) else s
  }

  function PlayId(s: Server, id: int): Server {
    if IndexOf(s.queue, id) < |s.queue| then s.(state := PLAY, songid := id) else s
  }

  /** Play from a position, from the current song when it is negative. */
  function Play(s: Server, pos: int): Server {
    if 0 <= pos < |s.queue| then s.(state := PLAY, songid := s.queue[pos].id)
    else if pos < 0 && s.queue != [] then
      s.(state := PLAY, songid := if s.songid == -1 then s.queue[0].id else s.songid)
    else s
  }

  // ---------- client calls ----------

  function UpdStatus(c: Cli): Cli {
    c.(statVers := c.server.version)
  }

  /** insert_i(): the new id, -1 when the server refuses. The tags sent for the new song are changes
      of the queue too. */
  function InsertI(c: Cli, accepts: string -> bool, tags: nat, uri: string, pos: int): (Cli, int) {
    var s := c.server;
    var at := AddAt(s, pos);
    if !accepts(uri) || !(0 <= at <= |s.queue|) then (c.(lastId := -1), -1)
    else
      var s' := s.(queue := InsertSong(s.queue, at, Song(s.nextId, uri)), nextId := s.nextId + 1,
                   version := s.version + 1 + tags);
      (Cli(s', s.nextId, pos, s'.version, s'.version), s.nextId)
  }

  /** The position that a scan of the queue gives: behind the song, or the end of the queue. */
  function ScanPos(q: seq<Song>, id: int): nat {
    var k := IndexOf(q, id);
    if k < |q| then k + 1 else |q|
  }

  /** The position insertAfterId() uses: the remembered one when it can be trusted. */
  function AfterPos(c: Cli, id: int): int {
    if c.lastId == id && c.lastPos >= 0 && c.lastVers == c.statVers then c.lastPos + 1
    else ScanPos(c.server.queue, id)
  }

  function InsertAfterId(c: Cli, accepts: string -> bool, tags: nat, uri: string, id: int): (Cli, int) {
    if id == 0 then InsertI(c, accepts, tags, uri, 0)
    else InsertI(UpdStatus(c), accepts, tags, uri, AfterPos(UpdStatus(c), id))
  }

  /** The position of the current song, -1 when there is none. */
  function SongPos(s: Server): int {
    var k := IndexOf(s.queue, s.songid);
    if k < |s.queue| then k else -1
  }

  function SaveState(c: Cli): (Cli, Saved) {
    (UpdStatus(c), Saved(c.server.queue, c.server.state, SongPos(c.server)))
  }

  /** The insertion loop of restoreState(), from position i on; it stops at the first refusal. */
  function InsertAll(c: Cli, accepts: string -> bool, tags: nat, q: seq<Song>, i: nat): (Cli, bool)
    requires i <= |q|
    decreases |q| - i
  {
    if i == |q| then (c, true)
    else
      var (c', id) := InsertI(c, accepts, tags, q[i].uri, i);
      if id < 0 then (c', false) else InsertAll(c', accepts, tags, q, i + 1)
  }

  predicate Plays(state: PlayState) {
    state == PLAY || state == PAUSE
  }

  /** The saved position, the first one when no song was current. */
  function ResumePos(st: Saved): nat {
    if st.songpos < 0 then 0 else st.songpos
  }

  function RestoreState(c: Cli, accepts: string -> bool, tags: nat, st: Saved): Cli {
    var (c', ok) := InsertAll(c.(server := Clear(c.server)), accepts, tags, st.queue, 0);
    if !ok || !Plays(st.state) then c'
    else
      var s := Play(c'.server, st.songpos);
      UpdStatus(c'.(server := if st.state == PAUSE then Pause(s) else s))
  }

  // ---------- the insert shortcut ----------

  /** If nothing changed since the last insertion, its song is still where it was put; a refused insertion
      after it forgets the id but not the position. */
  predicate Remembered(c: Cli) {
    && c.lastVers <= c.server.version
    && (c.lastVers == c.server.version && c.lastPos >= 0 ==>
          && c.lastPos < |c.server.queue|
          && (c.lastId != -1 ==> c.server.queue[c.lastPos].id == c.lastId))
  }

  predicate CliOk(c: Cli) {
    WfServer(c.server) && Remembered(c)
  }

  lemma IndexOfUnique(q: seq<Song>, k: nat)
    requires k < |q| && forall i, j :: 0 <= i < j < |q| ==> q[i].id != q[j].id
    ensures IndexOf(q, q[k].id) == k
  {
  }

  /** The position of the last good insertion is remembered, the id is that of a refused one after it. */
  predicate Misled(c: Cli) {
    c.lastId == -1 && c.lastPos >= 0 && c.lastVers == c.server.version
  }

  /** The shortcut gives the position that the scan of the whole queue would, except for the id -1 of a
      refused insertion, when the song of the last good one is not the last of the queue. */
  lemma ShortcutAgreesIff(c: Cli, id: int)
    requires CliOk(c)
    ensures AfterPos(UpdStatus(c), id) == ScanPos(c.server.queue, id)
            <==> !(id == -1 && Misled(c)) || c.lastPos + 1 == |c.server.queue|
  {
    var q := c.server.queue;
    if c.lastId == id && c.lastPos >= 0 && c.lastVers == c.server.version && id != -1 {
      IndexOfUnique(q, c.lastPos);
    }
  }

  /** Where insertAfterId() puts a song. */
  function InsertPos(c: Cli, id: int): int {
    if id == 0 then 0
    else if id == -1 && Misled(c) then c.lastPos + 1
    else ScanPos(c.server.queue, id)
  }

  /** How it comes to that: an insertion at a position, and then a refused one. The next song inserted after
      id -1, which is meant for the end of the queue, goes behind the song of the first insertion. */
  lemma RefusalMisleads(c: Cli, accepts: string -> bool, tags: nat, uri: string, pos: nat, bad: string, at: int,
                        r: Cli)
    requires CliOk(c) && accepts(uri) && pos <= |c.server.queue| && !accepts(bad)
    requires r == InsertI(InsertI(c, accepts, tags, uri, pos).0, accepts, tags, bad, at).0
    ensures CliOk(r) && Misled(r) && InsertPos(r, -1) == pos + 1
    ensures ScanPos(r.server.queue, -1) == pos + 1 <==> pos == |c.server.queue|
  {
    InsertIOk(c, accepts, tags, uri, pos);
  }

  lemma InsertIOk(c: Cli, accepts: string -> bool, tags: nat, uri: string, pos: int)
    requires CliOk(c)
    ensures CliOk(InsertI(c, accepts, tags, uri, pos).0)
  {
    var at := AddAt(c.server, pos);
    if accepts(uri) && 0 <= at <= |c.server.queue| {
      var q, q' := c.server.queue, InsertSong(c.server.queue, at, Song(c.server.nextId, uri));
      assert forall i :: 0 <= i < |q'| ==>
        q'[i] == if i < at then q[i] else if i == at then Song(c.server.nextId, uri) else q[i - 1];
    }
  }

  lemma UrisInsert(q: seq<Song>, pos: nat, song: Song)
    requires pos <= |q|
    ensures Uris(InsertSong(q, pos, song)) == Uris(q)[..pos] + [song.uri] + Uris(q)[pos..]
  {
  }

  lemma UrisRemove(q: seq<Song>, k: nat)
    requires k < |q|
    ensures Uris(RemoveAt(q, k)) == Uris(q)[..k] + Uris(q)[k + 1..]
  {
  }

  lemma DeleteOk(c: Cli, id: int)
    requires CliOk(c)
    ensures CliOk(c.(server := Delete(c.server, id)))
  {
    var k := IndexOf(c.server.queue, id);
    if k < |c.server.queue| {
      var q, q' := c.server.queue, RemoveAt(c.server.queue, k);
      assert forall i :: 0 <= i < |q'| ==> q'[i] == if i < k then q[i] else q[i + 1];
    }
  }

  // ---------- restoring ----------

  predicate AllAccepted(q: seq<Song>, accepts: string -> bool) {
    forall i :: 0 <= i < |q| ==> accepts(q[i].uri)
  }

  lemma {:induction false} InsertAllRestores(c: Cli, accepts: string -> bool, tags: nat, q: seq<Song>, i: nat)
    requires i <= |q| && AllAccepted(q, accepts) && CliOk(c) && |c.server.queue| == i
    requires Uris(c.server.queue) == Uris(q[..i])
    ensures var (c', ok) := InsertAll(c, accepts, tags, q, i);
            ok && CliOk(c') && Uris(c'.server.queue) == Uris(q)
            && c'.server.nextId == c.server.nextId + |q| - i
            && c'.server.state == c.server.state && c'.server.songid == c.server.songid
            && (forall k :: 0 <= k < i ==> c'.server.queue[k] == c.server.queue[k])
            && (forall k :: i <= k < |q| ==> c'.server.queue[k].id >= c.server.nextId)
    decreases |q| - i
  {
    if i < |q| {
      var (c1, id) := InsertI(c, accepts, tags, q[i].uri, i);
      InsertIOk(c, accepts, tags, q[i].uri, i);
      UrisInsert(c.server.queue, i, Song(c.server.nextId, q[i].uri));
      assert c1.server.queue == c.server.queue + [Song(c.server.nextId, q[i].uri)];
      assert Uris(q[..i + 1]) == Uris(q[..i]) + [q[i].uri];
      InsertAllRestores(c1, accepts, tags, q, i + 1);
    } else {
      assert q[..i] == q;
    }
  }

  /** A saved queue comes back with the same URIs in the same order, under new ids, and the song at
      the saved position plays or is paused as it was; nothing plays if there is no such position. */
  lemma RestoreRestores(c: Cli, accepts: string -> bool, tags: nat, st: Saved)
    requires CliOk(c) && AllAccepted(st.queue, accepts)
    ensures var c' := RestoreState(c, accepts, tags, st);
            CliOk(c') && Uris(c'.server.queue) == Uris(st.queue)
            && c'.server.nextId >= c.server.nextId
            && (forall k :: 0 <= k < |c'.server.queue| ==> c'.server.queue[k].id >= c.server.nextId)
            && (Plays(st.state) && ResumePos(st) < |st.queue| ==>
                  c'.server.state == st.state && SongPos(c'.server) == ResumePos(st))
            && (!Plays(st.state) || ResumePos(st) >= |st.queue| ==> c'.server.state == STOP)
  {
    var c0 := c.(server := Clear(c.server));
    assert Uris(c0.server.queue) == Uris(st.queue[..0]);
    InsertAllRestores(c0, accepts, tags, st.queue, 0);
    var q := InsertAll(c0, accepts, tags, st.queue, 0).0.server.queue;
    assert |q| == |st.queue| by { assert |Uris(q)| == |q| && |Uris(st.queue)| == |st.queue|; }
    if ResumePos(st) < |q| {
      IndexOfUnique(q, ResumePos(st));
    }
  }

  // ---------- chains ----------

  /** n songs inserted one after the other, each behind the previous one. */
  function Chain(c: Cli, accepts: string -> bool, tags: nat, uris: seq<string>, id: int): Cli
    decreases |uris|
  {
    if uris == [] then c
    else
      var (c', id') := InsertAfterId(c, accepts, tags, uris[0], id);
      Chain(c', accepts, tags, uris[1..], id')
  }

  lemma InsertAfterIdPos(c: Cli, accepts: string -> bool, tags: nat, uri: string, id: int)
    requires CliOk(c)
    ensures 0 <= InsertPos(c, id) <= |c.server.queue|
    ensures var (c', id') := InsertAfterId(c, accepts, tags, uri, id);
            && CliOk(c') && c'.server.nextId >= c.server.nextId
            && id' == (if accepts(uri) then c.server.nextId else -1)
            && c'.server.queue ==
               if accepts(uri) then InsertSong(c.server.queue, InsertPos(c, id), Song(id', uri)) else c.server.queue
  {
    ShortcutAgreesIff(c, id);
    InsertIOk(c, accepts, tags, uri, 0);
    InsertIOk(UpdStatus(c), accepts, tags, uri, InsertPos(c, id));
  }

  lemma SpliceOn(us: seq<string>, us1: seq<string>, p: nat, uris: seq<string>)
    requires p <= |us| && uris != [] && us1 == us[..p] + [uris[0]] + us[p..]
    ensures us1[..p + 1] + uris[1..] + us1[p + 1..] == us[..p] + uris + us[p..]
  {
    assert us1[..p + 1] == us[..p] + [uris[0]] && us1[p + 1..] == us[p..];
    assert us[..p] + [uris[0]] + uris[1..] == us[..p] + uris;
  }

  /** A chain of insertions yields the songs contiguous and in order. */
  lemma {:induction false} ChainInserts(c: Cli, accepts: string -> bool, tags: nat, uris: seq<string>, id: int)
    requires CliOk(c) && forall u :: u in uris ==> accepts(u)
    ensures 0 <= InsertPos(c, id) <= |c.server.queue|
    ensures var p := InsertPos(c, id);
            var c' := Chain(c, accepts, tags, uris, id);
            CliOk(c') && Uris(c'.server.queue) == Uris(c.server.queue)[..p] + uris + Uris(c.server.queue)[p..]
    decreases |uris|
  {
    var p := InsertPos(c, id);
    var us := Uris(c.server.queue);
    if uris == [] {
      assert us[..p] + uris + us[p..] == us;
    } else {
      var (c1, id1) := InsertAfterId(c, accepts, tags, uris[0], id);
      InsertAfterIdPos(c, accepts, tags, uris[0], id);
      var song := Song(id1, uris[0]);
      UrisInsert(c.server.queue, p, song);
      assert c1.server.queue[p] == song;
      IndexOfUnique(c1.server.queue, p);
      ChainInserts(c1, accepts, tags, uris[1..], id1);
      SpliceOn(us, Uris(c1.server.queue), p, uris);
    }
  }
}
