/** The OpenHome services as objects that call each other (src/ohproduct.cxx, src/ohplaylist.cxx,
    src/ohradio.cxx). Each method is proved to be the function of Sources that it implements. */
module Services {
  import opened Mpd
  import opened MpdCli
  import opened Sources

  /** The device: every service reaches the others and MPD through it. */
  class UpMpdOpenHome {
    ghost const env: Env
    const mpd: MPDCli
    const channels: int
    var ohpl: OHPlaylist?
    var ohrd: OHRadio?
    var ohrcv: OHReceiver?
    var ohpr: OHProduct?

    ghost predicate Wired()
      reads this, mpd, ohpl, ohrd, ohrcv, ohpr
    {
      && ohpl != null && ohrd != null && ohrcv != null && ohpr != null
      && ohpl.udev == this && ohrd.udev == this && ohpr.udev == this
      && mpd.Valid() && mpd.accepts == env.accepts && mpd.tags == env.tags
      && channels == env.channels
      && ohpr.sources == ["Playlist", "Radio"] + if env.receiver then ["Songcast"] else []
    }

    ghost function State(): Sys
      requires ohpl != null && ohrd != null && ohrcv != null && ohpr != null
      reads this, mpd, ohpl, ohrd, ohrcv, ohpr
    {
      Sys(mpd.State(), Playlist(ohpl.active, ohpl.mpdSavedState),
          Radio(ohrd.active, ohrd.id, ohrd.playPending, ohrd.mpdSavedState),
          ohrcv.active, ohpr.sourceIndex)
    }

    constructor (mpd: MPDCli, accepts: string -> bool, channels: int, receiver: bool)
      requires mpd.Valid() && mpd.accepts == accepts
      ensures Wired() && fresh(ohpl) && fresh(ohrd) && fresh(ohrcv) && fresh(ohpr)
      ensures env == Env(accepts, mpd.tags, receiver, channels) && this.mpd == mpd
      ensures State() == Sys(mpd.State(), Playlist(true, Saved([], UNK, -1)),
                             Radio(false, 0, false, Saved([], UNK, -1)), false, PLAYLIST)
    {
      env := Env(accepts, mpd.tags, receiver, channels);
      this.mpd := mpd;
      this.channels := channels;
      ohpl, ohrd, ohrcv, ohpr := null, null, null, null;
      new;
      ohpl := new OHPlaylist(this);
      ohrd := new OHRadio(this);
      ohrcv := new OHReceiver();
      ohpr := new OHProduct(this, receiver);
    }
  }

  class OHReceiver {
    var active: bool

    constructor ()
      ensures !active
    {
      active := false;
    }

    method SetActive(on: bool)
      modifies this
      ensures active == on
    {
      active := on;
    }
  }

  class OHPlaylist {
    const udev: UpMpdOpenHome
    var active: bool
    var mpdSavedState: Saved

    constructor (udev: UpMpdOpenHome)
      ensures this.udev == udev && active && mpdSavedState == Saved([], UNK, -1)
    {
      this.udev := udev;
      active := true;
      mpdSavedState := Saved([], UNK, -1);
    }

    method SetActive(on: bool)
      requires udev.Wired() && udev.ohpl == this
      modifies this, udev.mpd
      ensures udev.Wired() && udev.State() == PlSetActive(udev.env, old(udev.State()), on)
      ensures !on ==>
                var was := old(udev.State()).cli.server;
                && mpdSavedState == Saved(was.queue, was.state, SongPos(was)) && !active
                && udev.State().cli.server == was.(state := STOP)
    {
      if on {
        udev.mpd.ClearQueue();
        udev.mpd.RestoreState(mpdSavedState);
        active := true;
      } else {
        mpdSavedState := udev.mpd.SaveState();
        udev.mpd.Stop();
        active := false;
      }
    }

    /** idFromOldId(): two linear searches. */
    method IdFromOldId(oldid: int) returns (id: int)
      requires udev.Wired() && udev.ohpl == this
      ensures id == Sources.IdFromOldId(udev.State(), oldid)
    {
      var saved := mpdSavedState.queue;
      var k := 0;
      while k < |saved| && saved[k].id != oldid
        invariant 0 <= k <= |saved|
        invariant k + IndexOf(saved[k..], oldid) == IndexOf(saved, oldid)
      {
        assert saved[k..][1..] == saved[k + 1..];
        k := k + 1;
      }
      if k == |saved| { return -1; }
      var data := udev.mpd.GetQueueData();
      var j := 0;
      while j < |data| && data[j].uri != saved[k].uri
        invariant 0 <= j <= |data|
        invariant j + IndexOfUri(data[j..], saved[k].uri) == IndexOfUri(data, saved[k].uri)
      {
        assert data[j..][1..] == data[j + 1..];
        j := j + 1;
      }
      if j == |data| { return -1; }
      id := data[j].id;
    }

    method SeekId(wanted: int) returns (ok: bool)
      requires udev.Wired() && udev.ohpl == this
      modifies this, udev.mpd, udev.ohrd, udev.ohrcv, udev.ohpr
      ensures udev.Wired() && udev.State() == PlSeekId(udev.env, old(udev.State()), wanted)
    {
      var id := wanted;
      if !active {
        var _ := udev.ohpr.ISetSourceIndexByName("Playlist");
        id := IdFromOldId(id);
        if id < 0 { return false; }
      } else {
        var saved := IndexOf(mpdSavedState.queue, id) < |mpdSavedState.queue|;
        if saved {
          id := IdFromOldId(id);
          if id < 0 { return false; }
        }
      }
      udev.mpd.PlayId(id);
      ok := true;
    }

    method Insert(afterIdIn: int, uri: string) returns (newid: int)
      requires udev.Wired() && udev.ohpl == this
      modifies this, udev.mpd, udev.ohrd, udev.ohrcv, udev.ohpr
      ensures udev.Wired() && udev.State() == PlInsert(udev.env, old(udev.State()), afterIdIn, uri)
    {
      var afterid := afterIdIn;
      if !active {
        var _ := udev.ohpr.ISetSourceIndexByName("Playlist");
        afterid := IdFromOldId(afterid);
        if afterid < 0 { return -1; }
      }
      newid := udev.mpd.InsertAfterId(uri, afterid);
    }

    method DeleteId(id: int) returns (ok: bool)
      requires udev.Wired() && udev.ohpl == this
      modifies this, udev.mpd
      ensures udev.Wired() && udev.State() == PlDeleteId(old(udev.State()), id)
    {
      if !active {
        var queue := mpdSavedState.queue;
        var k := IndexOf(queue, id);
        if k == |queue| { return false; }
        queue := queue[..k] + queue[k + 1..];
        mpdSavedState := mpdSavedState.(queue := queue);
        if queue == [] {
          mpdSavedState := mpdSavedState.(state := STOP);
        }
        return true;
      }
      if udev.mpd.server.songid == id {
        udev.mpd.Stop();
      }
      udev.mpd.DeleteId(id);
      ok := true;
    }

    method DeleteAll()
      requires udev.Wired() && udev.ohpl == this
      modifies this, udev.mpd
      ensures udev.Wired() && udev.State() == PlDeleteAll(old(udev.State()))
    {
      if !active {
        mpdSavedState := mpdSavedState.(queue := [], state := STOP);
        return;
      }
      udev.mpd.ClearQueue();
    }

    method Play(pos: int)
      requires udev.Wired() && udev.ohpl == this
      modifies this, udev.mpd, udev.ohrd, udev.ohrcv, udev.ohpr
      ensures udev.Wired() && udev.State() == PlPlay(udev.env, old(udev.State()), pos)
    {
      if !active {
        var _ := udev.ohpr.ISetSourceIndexByName("Playlist");
      }
      udev.mpd.Play(pos);
    }
  }

  class OHRadio {
    const udev: UpMpdOpenHome
    var active: bool
    var id: int
    var playPending: bool
    var mpdSavedState: Saved

    constructor (udev: UpMpdOpenHome)
      ensures this.udev == udev && !active && id == 0 && !playPending && mpdSavedState == Saved([], UNK, -1)
    {
      this.udev := udev;
      active, id, playPending := false, 0, false;
      mpdSavedState := Saved([], UNK, -1);
    }

    /** The flag changes first: iStop() then finds the radio inactive and calls the product back. */
    method SetActive(on: bool)
      requires udev.Wired() && udev.ohrd == this
      requires !on ==> udev.ohpr.sourceIndex == RADIO
      modifies this, udev.mpd, udev.ohpl, udev.ohrcv, udev.ohpr
      ensures udev.Wired() && udev.State() == RdSetActive(udev.env, old(udev.State()), on)
      decreases 0, 2
    {
      active := on;
      if active {
        if id != 0 {
          if mpdSavedState.state != UNK {
            udev.mpd.RestoreState(mpdSavedState);
          }
        }
      } else {
        mpdSavedState := udev.mpd.SaveState();
        udev.mpd.ClearQueue();
        IStop();
      }
    }

    method MaybeActivate()
      requires udev.Wired() && udev.ohrd == this
      modifies this, udev.mpd, udev.ohpl, udev.ohrcv, udev.ohpr
      ensures udev.Wired() && udev.State() == Sources.MaybeActivate(udev.env, old(udev.State()))
      decreases if udev.ohpr.sourceIndex == RADIO then 0 else 1, 0, 2
    {
      if !active {
        var _ := udev.ohpr.ISetSourceIndexByName("Radio");
      }
    }

    method IStop()
      requires udev.Wired() && udev.ohrd == this
      modifies this, udev.mpd, udev.ohpl, udev.ohrcv, udev.ohpr
      ensures udev.Wired() && udev.State() == RdStop(udev.env, old(udev.State()))
      decreases if udev.ohpr.sourceIndex == RADIO then 0 else 1, 1
    {
      MaybeActivate();
      udev.mpd.ClearQueue();
      playPending := false;
    }

    method SetId(value: int) returns (ok: bool)
      requires udev.Wired() && udev.ohrd == this
      modifies this, udev.mpd, udev.ohpl, udev.ohrcv, udev.ohpr
      ensures udev.Wired() && udev.State() == Do(udev.env, old(udev.State()), RadioSetId(value))
    {
      if value <= 0 || value > udev.channels { return false; }
      IStop();
      id := value;
      ok := true;
    }

    method SetChannel()
      requires udev.Wired() && udev.ohrd == this
      modifies this, udev.mpd, udev.ohpl, udev.ohrcv, udev.ohpr
      ensures udev.Wired() && udev.State() == Do(udev.env, old(udev.State()), RadioSetChannel)
    {
      IStop();
      id := 0;
    }

    method SetPlaying(fetch: Fetch) returns (ok: bool)
      requires udev.Wired() && udev.ohrd == this
      modifies this, udev.mpd, udev.ohpl, udev.ohrcv, udev.ohpr
      ensures udev.Wired() && udev.State() == RdPlay(udev.env, old(udev.State()), fetch)
    {
      MaybeActivate();
      if id >= udev.channels { return false; }
      match fetch
      case NoUri =>
        playPending := true;
        udev.mpd.ClearQueue();
        ok := true;
      case Failed =>
        ok := false;
      case Stream(url) =>
        udev.mpd.ClearQueue();
        var song := udev.mpd.InsertI(url, 0);
        if song < 0 { return false; }
        udev.mpd.Play(0);
        ok := true;
    }
  }

  class OHProduct {
    const udev: UpMpdOpenHome
    const sources: seq<string>
    var sourceIndex: int

    constructor (udev: UpMpdOpenHome, receiver: bool)
      ensures this.udev == udev && sourceIndex == PLAYLIST
      ensures sources == ["Playlist", "Radio"] + if receiver then ["Songcast"] else []
    {
      this.udev := udev;
      sources := ["Playlist", "Radio"] + if receiver then ["Songcast"] else [];
      sourceIndex := PLAYLIST;
    }

    method ISrcNameToIndex(nm: string) returns (i: int)
      ensures i == NameIndex(sources, nm)
    {
      i := 0;
      while i < |sources|
        invariant 0 <= i <= |sources| && nm !in sources[..i]
      {
        if nm == sources[i] { return; }
        i := i + 1;
      }
      i := -1;
    }

    method ISetSourceIndex(sindex: int) returns (ok: bool)
      requires udev.Wired() && udev.ohpr == this
      modifies this, udev.mpd, udev.ohpl, udev.ohrd, udev.ohrcv
      ensures udev.Wired() && udev.State() == SetSource(udev.env, old(udev.State()), sindex)
      ensures ok == (0 <= sindex < |sources|)
      decreases if sourceIndex == sindex then 0 else 1, 0, 0
    {
      if sindex < 0 || sindex >= |sources| { return false; }
      if sourceIndex == sindex { return true; }
      if sourceIndex == PLAYLIST {
        udev.ohpl.SetActive(false);
      } else if sourceIndex == RADIO {
        udev.ohrd.SetActive(false);
      } else {
        udev.ohrcv.SetActive(false);
      }
      if sindex == PLAYLIST {
        udev.ohpl.SetActive(true);
      } else if sindex == RADIO {
        udev.ohrd.SetActive(true);
      } else {
        udev.ohrcv.SetActive(true);
      }
      sourceIndex := sindex;
      ok := true;
    }

    method ISetSourceIndexByName(name: string) returns (ok: bool)
      requires udev.Wired() && udev.ohpr == this
      modifies this, udev.mpd, udev.ohpl, udev.ohrd, udev.ohrcv
      ensures udev.Wired() && ok == (name in sources)
      ensures udev.State() == SetSource(udev.env, old(udev.State()), NameIndex(sources, name))
      decreases if name == "Radio" && sourceIndex == RADIO then 0 else 1, 0, 1
    {
      var i := ISrcNameToIndex(name);
      if i >= 0 {
        ok := ISetSourceIndex(i);
        return;
      }
      ok := false;
    }
  }

  /** The first source with a name, -1 when there is none. */
  function NameIndex(sources: seq<string>, nm: string): (i: int)
    ensures i == -1 ==> nm !in sources
    ensures i != -1 ==> 0 <= i < |sources| && sources[i] == nm && nm !in sources[..i]
  {
    if nm !in sources then -1
    else if sources[0] == nm then 0
    else
      assert sources == [sources[0]] + sources[1..];
      1 + NameIndex(sources[1..], nm)
  }
}
