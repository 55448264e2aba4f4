/** The metadata that OHPlaylist keeps for the songs of its queue, and when it is saved
    (src/ohplaylist.cxx). */
module PlaylistCache {
  import opened Mpd
  import opened Strings

  type Meta = map<string, string>

  /** What does not change: sameTitle is metaSameTitle(), fromMpd says that metadata holds <orig>mpd</orig>, and
      persist is the option upmpdOhMetaPersist. */
  datatype Policy = Policy(didlmake: Song -> string, sameTitle: (string, string) -> bool,
                           fromMpd: string -> bool, persist: bool)

  /** The cache, its dirty flag, the queue version and id array of the last reading, and the last snapshot given
      to dmcacheSave(). */
  datatype Cache = Cache(meta: Meta, dirty: bool, qvers: int, ids: seq<int>, saved: Meta)

  /** cacheSet(), and makeIdArray() with the version and the current song of the MPD status, the live queue, and
      whether the playlist is active. */
  datatype Call =
    | CacheSet(uri: string, meta: string)
    | MakeIds(qvers: int, current: Option<Song>, vdata: seq<Song>, active: bool)

  // ---------- the rebuilt cache ----------

  /** What the cache keeps from before, by URI, and makes new for the first song with an unknown one. */
  ghost predicate Rebuilt(cache: Meta, songs: seq<Song>, didl: Song -> string, r: Meta) {
    && (forall u :: u in r <==> u in Uris(songs))
    && (forall u :: u in r && u in cache ==> r[u] == cache[u])
    && (forall i :: 0 <= i < |songs| && songs[i].uri !in cache && songs[i].uri !in Uris(songs[..i])
          ==> songs[i].uri in r && r[songs[i].uri] == didl(songs[i]))
  }

  /** The next song brings its entry, unless an earlier song with the same URI did. */
  function OneMore(cache: Meta, song: Song, didl: Song -> string, r: Meta): Meta {
    if song.uri in r then r else r[song.uri := if song.uri in cache then cache[song.uri] else didl(song)]
  }

  lemma RebuiltOneMore(cache: Meta, songs: seq<Song>, k: nat, didl: Song -> string, a: Meta)
    requires k < |songs| && Rebuilt(cache, songs[..k], didl, a)
    ensures Rebuilt(cache, songs[..k + 1], didl, OneMore(cache, songs[k], didl, a))
  {
    var more := songs[..k + 1];
    var b := OneMore(cache, songs[k], didl, a);
    assert Uris(more) == Uris(songs[..k]) + [songs[k].uri];
    forall i | 0 <= i < |more| && more[i].uri !in cache && more[i].uri !in Uris(more[..i])
      ensures more[i].uri in b && b[more[i].uri] == didl(more[i])
    {
      assert more[..i] == songs[..k][..i];
      if i < k {
        assert more[i] == songs[..k][i];
      } else {
        assert songs[..k][..i] == songs[..k];
      }
    }
  }

  function NewMeta(cache: Meta, songs: seq<Song>, didl: Song -> string): Meta {
    if songs == [] then map[]
    else OneMore(cache, songs[|songs| - 1], didl, NewMeta(cache, songs[..|songs| - 1], didl))
  }

  lemma {:induction false} NewMetaRebuilt(cache: Meta, songs: seq<Song>, didl: Song -> string)
    ensures Rebuilt(cache, songs, didl, NewMeta(cache, songs, didl))
  {
    if songs != [] {
      var k := |songs| - 1;
      NewMetaRebuilt(cache, songs[..k], didl);
      RebuiltOneMore(cache, songs, k, didl, NewMeta(cache, songs[..k], didl));
      assert songs[..k + 1] == songs;
    }
  }

  /** The rebuilt cache is determined by the old one and the queue. */
  lemma RebuiltUnique(cache: Meta, songs: seq<Song>, didl: Song -> string, a: Meta, b: Meta)
    requires Rebuilt(cache, songs, didl, a) && Rebuilt(cache, songs, didl, b)
    ensures a == b
  {
    forall u | u in a ensures u in b && a[u] == b[u] {
      if u !in cache {
        var i := FirstWith(songs, u);
      }
    }
  }

  lemma FirstWith(songs: seq<Song>, u: string) returns (i: nat)
    requires u in Uris(songs)
    ensures i < |songs| && songs[i].uri == u && u !in Uris(songs[..i])
  {
    var j :| 0 <= j < |songs| && Uris(songs)[j] == u;
    i := 0;
    while songs[i].uri != u
      invariant 0 <= i <= j && u !in Uris(songs[..i])
      decreases j - i
    {
      assert Uris(songs[..i + 1]) == Uris(songs[..i]) + [songs[i].uri];
      i := i + 1;
    }
  }

  /** Rebuilding twice on the same queue changes nothing. */
  lemma RebuiltTwice(cache: Meta, songs: seq<Song>, didl: Song -> string, once: Meta, twice: Meta)
    requires Rebuilt(cache, songs, didl, once) && Rebuilt(once, songs, didl, twice)
    ensures twice == once
  {
    assert twice.Keys == once.Keys;
  }

  // ---------- the calls ----------

  /** A stream that MPD describes has got a new title. */
  predicate Renamed(p: Policy, meta: Meta, song: Song) {
    song.uri in meta && p.fromMpd(meta[song.uri]) && !p.sameTitle(p.didlmake(song), meta[song.uri])
  }

  function Refresh(p: Policy, c: Cache, song: Song): Cache {
    if Renamed(p, c.meta, song) then c.(meta := c.meta[song.uri := p.didlmake(song)]) else c
  }

  /** The new cache is saved when entries came or went since the last time, or were set. */
  predicate MustSave(p: Policy, c: Cache, r: Meta) {
    p.persist && (c.dirty || r.Keys != c.meta.Keys)
  }

  function Maintained(p: Policy, c: Cache, vdata: seq<Song>): Cache {
    var r := NewMeta(c.meta, vdata, p.didlmake);
    if MustSave(p, c, r) then c.(meta := r, dirty := false, saved := r)
    else c.(meta := r, dirty := c.dirty || !(r.Keys <= c.meta.Keys))
  }

  function After(p: Policy, c: Cache, call: Call): Cache {
    match call
    case CacheSet(uri, meta) => c.(meta := c.meta[uri := meta], dirty := true)
    case MakeIds(qvers, current, vdata, active) =>
      if qvers == c.qvers then (if current.Some? then Refresh(p, c, current.value) else c)
      else
        var read := c.(qvers := qvers, ids := Ids(vdata));
        if active then Maintained(p, read, vdata) else read
  }

  /** The id array that goes out: an empty one tells the control points to read the metadata again. */
  function IdsOut(p: Policy, c: Cache, qvers: int, current: Option<Song>, vdata: seq<Song>): seq<int> {
    if qvers != c.qvers then Ids(vdata)
    else if current.Some? && Renamed(p, c.meta, current.value) then []
    else c.ids
  }

  /** translateIdArray() before its encoding: id 0 is left out. */
  function Ids(vdata: seq<Song>): seq<int> {
    if vdata == [] then [] else (if vdata[0].id != 0 then [vdata[0].id] else []) + Ids(vdata[1..])
  }

  class OHPlaylistCache {
    const policy: Policy
    var metacache: Meta
    var cachedirty: bool
    var mpdqvers: int
    var idArrayCached: seq<int>
    var persisted: Meta

    ghost function State(): Cache
      reads this
    {
      Cache(metacache, cachedirty, mpdqvers, idArrayCached, persisted)
    }

    constructor (restored: Meta, policy: Policy)
      ensures State() == Restored(restored) && this.policy == policy
    {
      metacache, persisted := restored, restored;
      cachedirty, mpdqvers, idArrayCached := false, -1, [];
      this.policy := policy;
    }

    method CacheSet(uri: string, meta: string)
      modifies this
      ensures State() == After(policy, old(State()), Call.CacheSet(uri, meta))
    {
      metacache := metacache[uri := meta];
      cachedirty := true;
    }

    /** The queue did not change: a stream may still have got a new title. */
    method RefreshTitle(current: Song) returns (refreshed: bool)
      modifies this`metacache
      ensures State() == Refresh(policy, old(State()), current)
      ensures refreshed == Renamed(policy, old(metacache), current)
    {
      refreshed := false;
      if current.uri in metacache && policy.fromMpd(metacache[current.uri]) {
        var nmeta := policy.didlmake(current);
        if !policy.sameTitle(nmeta, metacache[current.uri]) {
          metacache := metacache[current.uri := nmeta];
          refreshed := true;
        }
      }
    }

    /** The loop over the queue: known entries move from the old cache to the new one, which leaves in the old
        one those that are no longer used. */
    method Merge(vdata: seq<Song>) returns (nmeta: Meta)
      modifies this`metacache, this`cachedirty
      ensures Rebuilt(old(metacache), vdata, policy.didlmake, nmeta)
      ensures metacache == old(metacache) - nmeta.Keys
      ensures cachedirty == (old(cachedirty) || !(nmeta.Keys <= old(metacache).Keys))
    {
      nmeta := map[];
      ghost var cache0, dirty0 := metacache, cachedirty;
      for k := 0 to |vdata|
        invariant metacache == cache0 - nmeta.Keys
        invariant Rebuilt(cache0, vdata[..k], policy.didlmake, nmeta)
        invariant cachedirty == (dirty0 || !(nmeta.Keys <= cache0.Keys))
      {
        var song := vdata[k];
        ghost var before := nmeta;
        RebuiltOneMore(cache0, vdata, k, policy.didlmake, nmeta);
        if song.uri in metacache {
          nmeta := nmeta[song.uri := metacache[song.uri]];
          metacache := metacache - {song.uri};
        } else if song.uri !in nmeta {
          nmeta := nmeta[song.uri := policy.didlmake(song)];
          cachedirty := true;
          assert song.uri in nmeta.Keys && song.uri !in cache0.Keys;
        }
        assert nmeta == OneMore(cache0, song, policy.didlmake, before);
      }
      assert vdata[..|vdata|] == vdata;
    }

    /** The cache maintenance of makeIdArray() for the active playlist. */
    method Rebuild(vdata: seq<Song>)
      modifies this`metacache, this`cachedirty, this`persisted
      ensures State() == Maintained(policy, old(State()), vdata)
      ensures Rebuilt(old(metacache), vdata, policy.didlmake, metacache)
    {
      ghost var cache0 := metacache;
      var nmeta := Merge(vdata);
      NewMetaRebuilt(cache0, vdata, policy.didlmake);
      RebuiltUnique(cache0, vdata, policy.didlmake, nmeta, NewMeta(cache0, vdata, policy.didlmake));
      assert metacache == map[] <==> cache0.Keys <= nmeta.Keys by {
        if metacache == map[] {
          assert forall u :: u in cache0 ==> u in nmeta || u in metacache;
        }
      }
      if policy.persist && (metacache != map[] || cachedirty) {
        persisted := nmeta;
        cachedirty := false;
      }
      metacache := nmeta;
    }

    method MakeIdArray(qvers: int, current: Option<Song>, vdata: seq<Song>, active: bool) returns (ids: seq<int>)
      modifies this
      ensures State() == After(policy, old(State()), MakeIds(qvers, current, vdata, active))
      ensures ids == IdsOut(policy, old(State()), qvers, current, vdata)
      ensures qvers != old(mpdqvers) ==> IdsInOrder(ids, vdata)
    {
      IdsAreInOrder(vdata);
      if qvers == mpdqvers {
        ids := idArrayCached;
        if current.Some? {
          var refreshed := RefreshTitle(current.value);
          if refreshed {
            ids := [];
          }
        }
        return;
      }
      idArrayCached := Ids(vdata);
      ids := idArrayCached;
      mpdqvers := qvers;
      if active {
        Rebuild(vdata);
      }
    }
  }

  // ---------- whole runs ----------

  /** At start the cache is what the file holds. */
  function Restored(meta: Meta): Cache {
    Cache(meta, false, -1, [], meta)
  }

  function Run(p: Policy, c: Cache, calls: seq<Call>): Cache {
    if calls == [] then c else After(p, Run(p, c, calls[..|calls| - 1]), calls[|calls| - 1])
  }

  predicate Saves(p: Policy, c: Cache, call: Call) {
    && call.MakeIds? && call.qvers != c.qvers && call.active
    && MustSave(p, c, NewMeta(c.meta, call.vdata, p.didlmake))
  }

  predicate Refreshes(p: Policy, c: Cache, call: Call, uri: string) {
    && call.MakeIds? && call.qvers == c.qvers && call.current.Some?
    && call.current.value.uri == uri && Renamed(p, c.meta, call.current.value)
  }

  predicate SavesAt(p: Policy, c: Cache, calls: seq<Call>, i: nat)
    requires i < |calls|
  {
    Saves(p, Run(p, c, calls[..i]), calls[i])
  }

  /** The call at i gave the entry of uri a new title, and there was no saving from then on. */
  predicate RefreshedAt(p: Policy, c: Cache, calls: seq<Call>, i: nat, uri: string) {
    && i < |calls| && Refreshes(p, Run(p, c, calls[..i]), calls[i], uri)
    && forall j :: i <= j < |calls| ==> !SavesAt(p, c, calls, j)
  }

  lemma {:induction false} RefreshedBefore(p: Policy, c: Cache, calls: seq<Call>, i: nat, uri: string)
    requires calls != [] && RefreshedAt(p, c, calls[..|calls| - 1], i, uri)
    requires !SavesAt(p, c, calls, |calls| - 1)
    ensures RefreshedAt(p, c, calls, i, uri)
  {
    var front := calls[..|calls| - 1];
    assert front[..i] == calls[..i];
    forall j | i <= j < |calls| ensures !SavesAt(p, c, calls, j) {
      if j < |front| {
        assert front[..j] == calls[..j] && !SavesAt(p, c, front, j);
      }
    }
  }

  /** With a clear flag the file has the entries of the cache, and those that differ have got a new title since
      the file was last written: for any calls on a cache that starts out as the file. */
  lemma {:induction false} SavedUpToDate(p: Policy, meta: Meta, calls: seq<Call>, r: Cache)
    requires p.persist && r == Run(p, Restored(meta), calls) && !r.dirty
    ensures r.saved.Keys == r.meta.Keys
    ensures forall u :: u in r.meta && r.meta[u] != r.saved[u] ==>
              exists i: nat :: RefreshedAt(p, Restored(meta), calls, i, u)
    decreases |calls|
  {
    if calls != [] {
      var n := |calls| - 1;
      var b := Run(p, Restored(meta), calls[..n]);
      if !SavesAt(p, Restored(meta), calls, n) {
        if calls[n].MakeIds? && calls[n].qvers != b.qvers && calls[n].active {
          NewMetaRebuilt(b.meta, calls[n].vdata, p.didlmake);
        }
        SavedUpToDate(p, meta, calls[..n], b);
        forall u | u in r.meta && r.meta[u] != r.saved[u]
          ensures exists i: nat :: RefreshedAt(p, Restored(meta), calls, i, u)
        {
          if Refreshes(p, b, calls[n], u) {
            assert RefreshedAt(p, Restored(meta), calls, n, u);
          } else {
            var i: nat :| RefreshedAt(p, Restored(meta), calls[..n], i, u);
            RefreshedBefore(p, Restored(meta), calls, i, u);
          }
        }
      }
    }
  }

  /** The flag is clear after every call that reads a changed queue for the active playlist. */
  lemma CleanAfterReading(p: Policy, c: Cache, call: Call, r: Cache)
    requires p.persist && r == After(p, c, call)
    requires call.MakeIds? && call.qvers != c.qvers && call.active
    ensures !r.dirty && Rebuilt(c.meta, call.vdata, p.didlmake, r.meta)
    ensures r.saved == if Saves(p, c, call) then r.meta else c.saved
    ensures !Saves(p, c, call) ==> r.meta == c.meta
  {
    NewMetaRebuilt(c.meta, call.vdata, p.didlmake);
  }

  /** An entry came or went: a song of the queue has none, or an entry has no song. */
  ghost predicate CameOrWent(c: Cache, vdata: seq<Song>) {
    exists u :: u in Uris(vdata) <==> u !in c.meta
  }

  /** A changed queue, when the playlist is the source. */
  predicate Maintains(c: Cache, call: Call) {
    Reads(c, call) && call.active
  }

  /** The file is written when saving is asked for, a changed queue was read for the active playlist, and an entry was
      set, came or went; then it holds the cache. Nothing else touches it. */
  lemma WrittenWhenNeeded(p: Policy, c: Cache, call: Call, r: Cache)
    requires r == After(p, c, call)
    ensures var needed := p.persist && Maintains(c, call) && (c.dirty || CameOrWent(c, call.vdata));
            r.saved == if needed then r.meta else c.saved
  {
    if Maintains(c, call) {
      var m := NewMeta(c.meta, call.vdata, p.didlmake);
      NewMetaRebuilt(c.meta, call.vdata, p.didlmake);
      assert forall u :: u in Uris(call.vdata) <==> u in m.Keys;
      if u :| u in Uris(call.vdata) <==> u !in c.meta {
        assert u in m.Keys <==> u !in c.meta.Keys;
      }
    }
  }

  /** Setting an entry raises the flag, reading for the active playlist clears it when saving is asked for and raises it
      for a song without an entry otherwise, and nothing else changes it. */
  lemma FlagAfter(p: Policy, c: Cache, call: Call, r: Cache)
    requires r == After(p, c, call)
    ensures call.CacheSet? ==> r.dirty
    ensures call.MakeIds? && !Maintains(c, call) ==> r.dirty == c.dirty
    ensures Maintains(c, call) && p.persist ==> !r.dirty
    ensures Maintains(c, call) && !p.persist ==>
              (r.dirty <==> c.dirty || exists i :: 0 <= i < |call.vdata| && call.vdata[i].uri !in c.meta)
  {
    if Maintains(c, call) {
      var m := NewMeta(c.meta, call.vdata, p.didlmake);
      NewMetaRebuilt(c.meta, call.vdata, p.didlmake);
      forall i | 0 <= i < |call.vdata| ensures call.vdata[i].uri in m.Keys {
        assert Uris(call.vdata)[i] == call.vdata[i].uri;
      }
      if u :| u in m.Keys && u !in c.meta {
        var i := FirstWith(call.vdata, u);
      }
    }
  }

  /** While the queue stays the same, only the entry of the current song changes, when MPD describes it and the title is
      another one; the flag, the file and the ids do not. */
  lemma TitleRefreshed(p: Policy, c: Cache, current: Option<Song>, vdata: seq<Song>, active: bool, r: Cache)
    requires r == After(p, c, MakeIds(c.qvers, current, vdata, active))
    ensures r == c.(meta := r.meta) && (current.None? ==> r.meta == c.meta)
    ensures current.Some? ==>
              var song := current.value;
              if song.uri !in c.meta || !p.fromMpd(c.meta[song.uri]) then r.meta == c.meta
              else r.meta[song.uri := c.meta[song.uri]] == c.meta && song.uri in r.meta &&
                   r.meta[song.uri] == if p.sameTitle(p.didlmake(song), c.meta[song.uri]) then c.meta[song.uri]
                                       else p.didlmake(song)
  {
  }

  // ---------- the ids that go out ----------

  /** How many songs of a queue have an id. */
  function NonZeros(vdata: seq<Song>): nat {
    if vdata == [] then 0 else (if vdata[0].id != 0 then 1 else 0) + NonZeros(vdata[1..])
  }

  /** The ids of a queue, in its order, zeros left out: each stands where the ids before it leave it. */
  predicate IdsInOrder(out: seq<int>, vdata: seq<Song>) {
    && |out| == NonZeros(vdata)
    && forall k :: 0 <= k < |vdata| && vdata[k].id != 0 ==>
         NonZeros(vdata[..k]) < |out| && out[NonZeros(vdata[..k])] == vdata[k].id
  }

  lemma {:induction false} IdsAreInOrder(vdata: seq<Song>)
    ensures IdsInOrder(Ids(vdata), vdata)
    decreases |vdata|
  {
    if vdata != [] {
      var rest := vdata[1..];
      IdsAreInOrder(rest);
      forall k | 0 <= k < |vdata| && vdata[k].id != 0
        ensures NonZeros(vdata[..k]) < |Ids(vdata)| && Ids(vdata)[NonZeros(vdata[..k])] == vdata[k].id
      {
        if k > 0 {
          assert vdata[..k][1..] == rest[..k - 1] && rest[k - 1] == vdata[k];
        }
      }
    }
  }

  /** When all songs have ids, these are the ids, one for each song. */
  lemma AllNonZero(out: seq<int>, vdata: seq<Song>)
    requires IdsInOrder(out, vdata) && forall i :: 0 <= i < |vdata| ==> vdata[i].id != 0
    ensures |out| == |vdata| && forall i :: 0 <= i < |vdata| ==> out[i] == vdata[i].id
  {
    forall k | 0 <= k <= |vdata| ensures NonZeros(vdata[..k]) == k {
      CountAll(vdata[..k]);
    }
    assert vdata[..|vdata|] == vdata;
  }

  lemma {:induction false} CountAll(vdata: seq<Song>)
    requires forall i :: 0 <= i < |vdata| ==> vdata[i].id != 0
    ensures NonZeros(vdata) == |vdata|
  {
    if vdata != [] { CountAll(vdata[1..]); }
  }

  /** The queue that the call at i read: the last one that was read before the end of the calls. */
  predicate LastRead(p: Policy, c: Cache, calls: seq<Call>, i: nat) {
    && i < |calls| && Reads(Run(p, c, calls[..i]), calls[i])
    && forall j :: i < j < |calls| ==> !ReadsAt(p, c, calls, j)
  }

  predicate Reads(c: Cache, call: Call) {
    call.MakeIds? && call.qvers != c.qvers
  }

  predicate ReadsAt(p: Policy, c: Cache, calls: seq<Call>, j: nat)
    requires j < |calls|
  {
    Reads(Run(p, c, calls[..j]), calls[j])
  }

  lemma {:induction false} LastReadKept(p: Policy, c: Cache, calls: seq<Call>, i: nat)
    requires LastRead(p, c, calls, i)
    ensures Run(p, c, calls).qvers == calls[i].qvers && Run(p, c, calls).ids == Ids(calls[i].vdata)
    decreases |calls|
  {
    var n := |calls| - 1;
    if i < n {
      var front := calls[..n];
      assert front[..i] == calls[..i];
      forall j | i < j < |front| ensures !ReadsAt(p, c, front, j) {
        assert front[..j] == calls[..j] && !ReadsAt(p, c, calls, j);
      }
      LastReadKept(p, c, front, i);
      assert !ReadsAt(p, c, calls, n);
    }
  }

  /** What goes out, after any calls. A changed queue: its ids, in order. The same queue: the ids of the one that the
      i-th call was the last to read, or none at all when the current song is a stream with a new title. */
  lemma IdsOutOfRun(p: Policy, meta: Meta, calls: seq<Call>, i: nat, qvers: int, current: Option<Song>,
                    vdata: seq<Song>, out: seq<int>)
    requires LastRead(p, Restored(meta), calls, i)
    requires out == IdsOut(p, Run(p, Restored(meta), calls), qvers, current, vdata)
    ensures qvers != calls[i].qvers ==> IdsInOrder(out, vdata)
    ensures var retitled := current.Some? && Renamed(p, Run(p, Restored(meta), calls).meta, current.value);
            qvers == calls[i].qvers ==> if retitled then out == [] else IdsInOrder(out, calls[i].vdata)
  {
    IdsAreInOrder(vdata);
    IdsAreInOrder(calls[i].vdata);
    LastReadKept(p, Restored(meta), calls, i);
  }

  /** The first queue that is read. */
  lemma FirstIdsOut(p: Policy, meta: Meta, current: Option<Song>, vdata: seq<Song>, qvers: int)
    requires qvers != -1
    ensures IdsInOrder(IdsOut(p, Restored(meta), qvers, current, vdata), vdata)
  {
    IdsAreInOrder(vdata);
  }

  // ---------- the values ----------

  /** The call gives the entry of uri a value: the one that is set, or the metadata made for the current song with its
      new title, or for the first song with that URI when there was no entry. */
  ghost predicate Stores(p: Policy, c: Cache, call: Call, uri: string, value: string) {
    match call
    case CacheSet(u, meta) => u == uri && meta == value
    case MakeIds(qvers, current, vdata, active) =>
      if qvers == c.qvers then
        current.Some? && current.value.uri == uri && Renamed(p, c.meta, current.value)
        && value == p.didlmake(current.value)
      else
        active && uri !in c.meta && exists i: nat :: FirstSong(vdata, i, uri) && value == p.didlmake(vdata[i])
  }

  predicate FirstSong(vdata: seq<Song>, i: nat, uri: string) {
    i < |vdata| && vdata[i].uri == uri && forall j :: 0 <= j < i ==> vdata[j].uri != uri
  }

  ghost predicate StoresSome(p: Policy, c: Cache, call: Call, uri: string) {
    exists value :: Stores(p, c, call, uri, value)
  }

  /** A call stores a value under a URI or leaves it as it was, or drops it because the queue has no such song. */
  lemma EntryAfter(p: Policy, c: Cache, call: Call, uri: string, r: Cache)
    requires r == After(p, c, call)
    ensures uri in r.meta ==>
              if uri in c.meta && !StoresSome(p, c, call, uri) then r.meta[uri] == c.meta[uri]
              else Stores(p, c, call, uri, r.meta[uri])
    ensures uri !in r.meta ==>
              uri !in c.meta || (call.MakeIds? && call.qvers != c.qvers && call.active && uri !in Uris(call.vdata))
    ensures StoresSome(p, c, call, uri) ==> uri in r.meta && Stores(p, c, call, uri, r.meta[uri])
  {
    if call.MakeIds? && call.qvers != c.qvers && call.active {
      NewMetaRebuilt(c.meta, call.vdata, p.didlmake);
      assert r.meta == NewMeta(c.meta, call.vdata, p.didlmake);
      if uri in r.meta && uri !in c.meta {
        var i := FirstWith(call.vdata, uri);
        NotBefore(call.vdata, i, uri);
        assert FirstSong(call.vdata, i, uri) && r.meta[uri] == p.didlmake(call.vdata[i]);
        assert Stores(p, c, call, uri, r.meta[uri]);
      }
      if uri in c.meta && uri in r.meta { assert !StoresSome(p, c, call, uri); }
      if value :| Stores(p, c, call, uri, value) {
        var i: nat :| FirstSong(call.vdata, i, uri) && value == p.didlmake(call.vdata[i]);
        assert Uris(call.vdata)[i] == uri;
      }
    } else if call.CacheSet? && call.uri == uri {
      assert Stores(p, c, call, uri, call.meta);
    } else if call.MakeIds? && call.qvers == c.qvers && call.current.Some? && call.current.value.uri == uri
              && Renamed(p, c.meta, call.current.value) {
      assert Stores(p, c, call, uri, p.didlmake(call.current.value));
    }
  }

  ghost predicate StoresSomeAt(p: Policy, c: Cache, calls: seq<Call>, j: nat, uri: string)
    requires j < |calls|
  {
    StoresSome(p, Run(p, c, calls[..j]), calls[j], uri)
  }

  /** The value was stored by the call at i, the last one to store any under the URI. */
  ghost predicate StoredLast(p: Policy, c: Cache, calls: seq<Call>, i: nat, uri: string, value: string) {
    && i < |calls| && Stores(p, Run(p, c, calls[..i]), calls[i], uri, value)
    && forall j :: i < j < |calls| ==> !StoresSomeAt(p, c, calls, j, uri)
  }

  /** Over any calls: the metadata of a song is what was last stored for it, or what the file held at start. */
  lemma {:induction false} ValueOrigin(p: Policy, c: Cache, calls: seq<Call>, uri: string)
    requires uri in Run(p, c, calls).meta
    ensures var value := Run(p, c, calls).meta[uri];
            || (exists i: nat :: StoredLast(p, c, calls, i, uri, value))
            || (uri in c.meta && value == c.meta[uri]
                && forall j :: 0 <= j < |calls| ==> !StoresSomeAt(p, c, calls, j, uri))
    decreases |calls|
  {
    if calls != [] {
      var n := |calls| - 1;
      var front, b, r := calls[..n], Run(p, c, calls[..n]), Run(p, c, calls);
      EntryAfter(p, b, calls[n], uri, r);
      if uri in b.meta && !StoresSome(p, b, calls[n], uri) {
        assert !StoresSomeAt(p, c, calls, n, uri);
        ValueOrigin(p, c, front, uri);
        forall j | 0 <= j < n ensures StoresSomeAt(p, c, calls, j, uri) == StoresSomeAt(p, c, front, j, uri) {
          assert front[..j] == calls[..j];
        }
        if i: nat :| StoredLast(p, c, front, i, uri, b.meta[uri]) {
          assert front[..i] == calls[..i];
          assert StoredLast(p, c, calls, i, uri, r.meta[uri]);
        }
      } else {
        assert StoredLast(p, c, calls, n, uri, r.meta[uri]);
      }
    }
  }

  lemma NotBefore(vdata: seq<Song>, i: nat, uri: string)
    requires i < |vdata| && uri !in Uris(vdata[..i])
    ensures forall j :: 0 <= j < i ==> vdata[j].uri != uri
  {
    forall j | 0 <= j < i ensures vdata[j].uri != uri {
      assert Uris(vdata[..i])[j] == vdata[j].uri;
    }
  }
}
