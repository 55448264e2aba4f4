/** The methods of MPDCli (src/mpdcli.cxx) on a server that executes every command it is sent. */
module MpdCli {
  import opened Mpd

  class MPDCli {
    var server: Server
    var lastInsertId: int
    var lastInsertPos: int
    var lastInsertQvers: int
    var statQvers: int
    const accepts: string -> bool  // the URIs that the server can play
    const tags: nat                // addtagid commands sent for each new song

    ghost function State(): Cli
      reads this
    {
      Cli(server, lastInsertId, lastInsertPos, lastInsertQvers, statQvers)
    }

    ghost predicate Valid()
      reads this
    {
      CliOk(State())
    }

    constructor (s: Server, accepts: string -> bool, tags: nat)
      requires WfServer(s) && s.version >= 0
      ensures Valid() && State() == Cli(s, -1, -1, -1, s.version)
      ensures this.accepts == accepts && this.tags == tags
    {
      server := s;
      lastInsertId, lastInsertPos, lastInsertQvers := -1, -1, -1;
      statQvers := s.version;
      this.accepts := accepts;
      this.tags := tags;
    }

    method UpdStatus()
      modifies this`statQvers
      ensures State() == Mpd.UpdStatus(old(State()))
    {
      statQvers := server.version;
    }

    method InsertI(uri: string, pos: int) returns (id: int)
      requires Valid()
      modifies this
      ensures Valid() && (State(), id) == Mpd.InsertI(old(State()), accepts, tags, uri, pos)
    {
      InsertIOk(State(), accepts, tags, uri, pos);
      var at := if pos == -1 then |server.queue| else pos;
      if !accepts(uri) || at < 0 || at > |server.queue| {
        lastInsertId := -1;
        return -1;
      }
      lastInsertId := server.nextId;
      server := server.(queue := InsertSong(server.queue, at, Song(server.nextId, uri)),
                        nextId := server.nextId + 1, version := server.version + 1);
      server := server.(version := server.version + tags);
      lastInsertPos := pos;
      UpdStatus();
      lastInsertQvers := statQvers;
      id := lastInsertId;
    }

    /** The queue is read only when the remembered position cannot be trusted. */
    method InsertAfterId(uri: string, id: int) returns (newid: int)
      requires Valid()
      modifies this
      ensures Valid() && (State(), newid) == Mpd.InsertAfterId(old(State()), accepts, tags, uri, id)
    {
      if id == 0 {
        newid := InsertI(uri, 0);
        return;
      }
      UpdStatus();
      var newpos := 0;
      if lastInsertId == id && lastInsertPos >= 0 && lastInsertQvers == statQvers {
        newpos := lastInsertPos + 1;
      } else {
        newpos := ScanQueue(id);
      }
      newid := InsertI(uri, newpos);
    }

    /** The whole queue is read for the position after a song. */
    method ScanQueue(id: int) returns (newpos: nat)
      ensures newpos == ScanPos(server.queue, id)
    {
      var songs := server.queue;
      newpos := 0;
      var pos := 0;
      while pos < |songs|
        invariant 0 <= pos <= |songs|
        invariant newpos == 0
        invariant pos < |songs| || songs == []
        invariant pos + IndexOf(songs[pos..], id) == IndexOf(songs, id)
      {
        if songs[pos].id == id || pos == |songs| - 1 {
          newpos := pos + 1;
          break;
        }
        assert songs[pos..][1..] == songs[pos + 1..];
        pos := pos + 1;
      }
    }

    method ClearQueue()
      requires Valid()
      modifies this`server
      ensures Valid() && State() == old(State()).(server := Clear(old(server)))
    {
      server := Clear(server);
    }

    method DeleteId(id: int)
      requires Valid()
      modifies this`server
      ensures Valid() && State() == old(State()).(server := Delete(old(server), id))
    {
      DeleteOk(State(), id);
      server := Delete(server, id);
    }

    method Stop()
      requires Valid()
      modifies this`server
      ensures Valid() && State() == old(State()).(server := Mpd.Stop(old(server)))
    {
      server := Mpd.Stop(server);
    }

    method Play(pos: int)
      requires Valid()
      modifies this`server, this`statQvers
      ensures Valid() && State() == Mpd.UpdStatus(old(State()).(server := Mpd.Play(old(server), pos)))
    {
      server := Mpd.Play(server, pos);
      UpdStatus();
    }

    method PlayId(id: int)
      requires Valid()
      modifies this`server, this`statQvers
      ensures Valid() && State() == Mpd.UpdStatus(old(State()).(server := Mpd.PlayId(old(server), id)))
    {
      server := Mpd.PlayId(server, id);
      UpdStatus();
    }

    method GetQueueData() returns (data: seq<Song>)
      ensures data == server.queue
    {
      data := [];
      for pos := 0 to |server.queue|
        invariant data == server.queue[..pos]
      {
        data := data + [server.queue[pos]];
      }
    }

    method SaveState() returns (st: Saved)
      requires Valid()
      modifies this`statQvers
      ensures Valid() && (State(), st) == Mpd.SaveState(old(State()))
    {
      UpdStatus();
      var queue := GetQueueData();
      st := Saved(queue, server.state, SongPos(server));
    }

    method RestoreState(st: Saved)
      requires Valid()
      modifies this
      ensures Valid() && State() == Mpd.RestoreState(old(State()), accepts, tags, st)
    {
      ClearQueue();
      ghost var target := InsertAll(State(), accepts, tags, st.queue, 0);
      var i := 0;
      while i < |st.queue|
        invariant 0 <= i <= |st.queue| && Valid()
        invariant InsertAll(State(), accepts, tags, st.queue, i) == target
      {
        var id := InsertI(st.queue[i].uri, i);
        if id < 0 { return; }
        i := i + 1;
      }
      if st.state == PAUSE || st.state == PLAY {
        Play(st.songpos);
        if st.state == PAUSE {
          server := Pause(server);
        }
      }
    }
  }
}
