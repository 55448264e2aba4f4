/** Reading lines and blocks from one connection through one buffer (src/netcon.cpp). */
module Netcon {

  function Min(a: int, b: int): int {
    if a < b then a else b
  }

  /** The peer: what it still has to deliver, in pieces of any size, before the end of file. */
  class Connection {
    var unread: seq<char>

    constructor (data: seq<char>)
      ensures unread == data
    {
      unread := data;
    }

    /** read(): at least one byte unless the end was reached, or none was asked for. */
    method Read(buf: array<char>, off: nat, cnt: nat) returns (n: nat)
      requires off + cnt <= buf.Length
      modifies this, buf
      ensures n <= cnt && n <= |old(unread)|
      ensures n == 0 <==> cnt == 0 || old(unread) == []
      ensures buf[..] == Overwritten(old(buf[..]), off, old(unread), n)
      ensures unread == old(unread)[n..]
    {
      if cnt == 0 || unread == [] { return 0; }
      n :| 1 <= n <= cnt && n <= |unread|;
      ghost var before := buf[..];
      var i := 0;
      while i < n
        invariant 0 <= i <= n && unread == old(unread)
        invariant buf[..] == Overwritten(before, off, unread, i)
      {
        PutOne(buf, off + i, unread[i]);
        i := i + 1;
      }
      unread := unread[n..];
    }
  }

  /** How many characters getline() takes from a stream: up to the first newline, at most max. */
  function LineLength(s: seq<char>, max: nat): (n: nat)
    ensures n <= max && n <= |s|
  {
    if s == [] || max == 0 then 0
    else if s[0] == '\n' then 1
    else 1 + LineLength(s[1..], max - 1)
  }

  /** It is the longest prefix within max with no newline before its last character. */
  lemma {:induction false} LineLengthIs(s: seq<char>, max: nat, n: nat)
    requires n <= max && n <= |s|
    ensures n == LineLength(s, max) <==>
      && (forall i :: 0 <= i < n - 1 ==> s[i] != '\n')
      && (n == max || n == |s| || (n > 0 && s[n - 1] == '\n'))
  {
    if n > 0 {
      if s[0] == '\n' {
      } else {
        LineLengthIs(s[1..], max - 1, n - 1);
        assert forall i :: 0 <= i < n - 2 ==> s[1..][i] == s[i + 1];
        if forall i :: 0 <= i < n - 2 ==> s[1..][i] != '\n' {
          forall i | 0 <= i < n - 1 ensures s[i] != '\n' {
            if i > 0 { assert s[1..][i - 1] == s[i]; }
          }
        }
      }
    }
  }

  /** before with the first n characters of s written from position off on. */
  ghost function Overwritten(before: seq<char>, off: nat, s: seq<char>, n: nat): (r: seq<char>)
    requires n <= |s| && off + n <= |before|
    ensures |r| == |before|
  {
    if n == 0 then before else Overwritten(before, off, s, n - 1)[off + n - 1 := s[n - 1]]
  }

  lemma {:induction false} OverwrittenIs(before: seq<char>, off: nat, s: seq<char>, n: nat)
    requires n <= |s| && off + n <= |before|
    ensures Overwritten(before, off, s, n) == before[..off] + s[..n] + before[off + n..]
  {
    if n > 0 {
      OverwrittenIs(before, off, s, n - 1);
    }
  }

  /** Two writes, one after the other, are one. */
  lemma {:induction false} OverwrittenMore(a: seq<char>, b: seq<char>, c: seq<char>, off: nat, s: seq<char>,
                                           n: nat, rest: seq<char>, k: nat)
    requires n <= |s| && rest == s[n..] && k <= |rest| && off + n + k <= |a|
    requires b == Overwritten(a, off, s, n) && c == Overwritten(b, off + n, rest, k)
    ensures c == Overwritten(a, off, s, n + k) && rest[k..] == s[n + k..]
    decreases k
  {
    if k > 0 {
      OverwrittenMore(a, b, Overwritten(b, off + n, rest, k - 1), off, s, n, rest, k - 1);
    }
  }

  /** Only the characters written matter. */
  lemma {:induction false} OverwrittenPrefix(a: seq<char>, off: nat, s: seq<char>, t: seq<char>, n: nat)
    requires n <= |s| && n <= |t| && off + n <= |a| && s[..n] == t[..n]
    ensures Overwritten(a, off, s, n) == Overwritten(a, off, t, n)
  {
    if n > 0 {
      assert s[..n - 1] == s[..n][..n - 1] && t[..n - 1] == t[..n][..n - 1];
      assert s[n - 1] == s[..n][n - 1] && t[n - 1] == t[..n][n - 1];
      OverwrittenPrefix(a, off, s, t, n - 1);
    }
  }

  /** An array's contents after one character is stored. */
  method PutOne(buf: array<char>, at: nat, c: char)
    requires at < buf.Length
    modifies buf
    ensures buf[..] == old(buf[..])[at := c]
  {
    buf[at] := c;
  }

  /** getline() stops after n more characters: no room is left, or the last one is a newline. */
  predicate LineEnds(s: seq<char>, room: nat, n: nat)
    requires n <= |s|
  {
    n == room || (n > 0 && s[n - 1] == '\n')
  }

  class NetconData {
    const fd: Connection
    var mbuf: array?<char>
    var bufbase: nat
    var bufbytes: nat

    /** What the caller will read next. */
    ghost var stream: seq<char>

    /** The stream is the rest of the buffer, then the connection. */
    ghost predicate Valid()
      reads this, mbuf, fd
    {
      && (if mbuf == null then bufbytes == 0 else mbuf.Length > 0 && bufbase + bufbytes <= mbuf.Length)
      && stream == (if mbuf == null then [] else mbuf[bufbase..bufbase + bufbytes]) + fd.unread
    }

    constructor (fd: Connection)
      ensures Valid() && mbuf == null && stream == fd.unread && this.fd == fd
    {
      this.fd := fd;
      mbuf := null;
      bufbase, bufbytes := 0, 0;
      stream := fd.unread;
    }

    /** The start of receive(): what was left in the buffer by a previous getline(). */
    method FromBuffer(buf: array<char>, off: nat, cnt: nat) returns (n: nat)
      requires Valid() && off + cnt <= buf.Length && buf != mbuf
      modifies this`bufbase, this`bufbytes, this`stream, buf
      ensures Valid() && n == Min(old(bufbytes), cnt) && bufbytes == old(bufbytes) - n
      ensures n <= |old(stream)| && stream == old(stream)[n..]
      ensures buf[..] == Overwritten(old(buf[..]), off, old(stream), n)
    {
      n := 0;
      if mbuf == null || bufbytes == 0 { return; }
      ghost var s0, b0, base := stream, buf[..], bufbase;
      var fromibuf := Min(bufbytes, cnt);
      while n < fromibuf
        invariant 0 <= n <= fromibuf && bufbase == base && bufbytes == old(bufbytes)
        invariant mbuf[..] == old(mbuf[..])
        invariant buf[..] == Overwritten(b0, off, s0, n)
      {
        assert s0[n] == mbuf[bufbase + n];
        PutOne(buf, off + n, mbuf[bufbase + n]);
        n := n + 1;
      }
      bufbytes := bufbytes - n;
      bufbase := bufbase + n;
      stream := s0[n..];
    }

    /** The read of receive(), once the buffer is empty: done characters of s0 have been copied. */
    method FromNet(buf: array<char>, off: nat, done: nat, cnt: nat, ghost b0: seq<char>, ghost s0: seq<char>)
      returns (n: nat)
      requires Valid() && bufbytes == 0 && off + done + cnt <= buf.Length && buf != mbuf
      requires |b0| == buf.Length && done <= |s0| && stream == s0[done..]
      requires buf[..] == Overwritten(b0, off, s0, done)
      modifies this`stream, fd, buf
      ensures Valid() && done <= n <= done + cnt && n <= |s0| && stream == s0[n..]
      ensures n == done <==> cnt == 0 || |s0| == done
      ensures buf[..] == Overwritten(b0, off, s0, n)
    {
      ghost var b1, s1 := buf[..], stream;
      assert stream == fd.unread;
      var got := fd.Read(buf, off + done, cnt);
      stream := fd.unread;
      n := done + got;
      OverwrittenMore(b0, b1, buf[..], off, s0, done, s1, got);
    }

    /** receive(): what the buffer holds, then one read for the rest. */
    method Receive(buf: array<char>, off: nat, cnt: nat) returns (n: nat)
      requires Valid() && off + cnt <= buf.Length && buf != mbuf
      modifies this`bufbase, this`bufbytes, this`stream, fd, buf
      ensures Valid() && n <= cnt && n <= |old(stream)| && stream == old(stream)[n..]
      ensures n == 0 <==> cnt == 0 || old(stream) == []
      ensures cnt <= old(bufbytes) ==> n == cnt && fd.unread == old(fd.unread)
      ensures cnt > old(bufbytes) ==> n >= old(bufbytes) && (n == old(bufbytes) <==> old(fd.unread) == [])
      ensures buf[..] == Overwritten(old(buf[..]), off, old(stream), n)
    {
      ghost var s0, b0 := stream, buf[..];
      var held := bufbytes > 0;
      n := FromBuffer(buf, off, cnt);
      if !held || n < cnt {
        n := FromNet(buf, off, n, cnt - n, b0, s0);
      }
    }

    /** receive() called to refill the empty buffer. */
    method Refill() returns (n: nat)
      requires Valid() && mbuf != null && bufbytes == 0
      modifies this`bufbase, this`bufbytes, fd, mbuf
      ensures Valid() && mbuf == old(mbuf) && bufbytes == n && |fd.unread| == |old(fd.unread)| - n
      ensures n == 0 <==> stream == []
    {
      ghost var m0 := mbuf[..];
      assert stream == fd.unread;
      bufbase := 0;
      n := fd.Read(mbuf, 0, mbuf.Length);
      bufbytes := n;
      OverwrittenIs(m0, 0, stream, n);
      assert stream == stream[..n] + stream[n..];
    }

    /** doreceive(): loops until all has come, or the end of file. */
    method DoReceive(buf: array<char>, cnt: nat) returns (n: nat)
      requires Valid() && cnt <= buf.Length && buf != mbuf
      modifies this`bufbase, this`bufbytes, this`stream, fd, buf
      ensures Valid() && n == Min(cnt, |old(stream)|)
      ensures buf[..] == Overwritten(old(buf[..]), 0, old(stream), n)
      ensures stream == old(stream)[n..]
    {
      ghost var s0, b0 := stream, buf[..];
      n := 0;
      while n < cnt
        invariant n <= cnt && n <= |s0| && Valid()
        invariant stream == s0[n..]
        invariant buf[..] == Overwritten(b0, 0, s0, n)
        decreases cnt - n
      {
        ghost var b1, rest := buf[..], stream;
        var got := Receive(buf, n, cnt - n);
        OverwrittenMore(b0, b1, buf[..], 0, s0, n, rest, got);
        if got == 0 {
          return;
        }
        n := n + got;
      }
    }

    /** The copying loop of getline(): from the buffer, at most max characters and not past a newline. */
    method CopyLine(buf: array<char>, start: nat, max: nat) returns (nn: nat)
      requires Valid() && mbuf != null && buf != mbuf && max <= bufbytes && start + max <= buf.Length
      modifies this`bufbase, buf
      ensures nn <= max && bufbase == old(bufbase) + max - nn
      ensures max - nn == LineLength(old(mbuf[bufbase..bufbase + bufbytes]), max)
      ensures buf[..] == Overwritten(old(buf[..]), start, old(mbuf[bufbase..bufbase + bufbytes]), max - nn)
    {
      var cp := start;
      nn := max;
      ghost var b0, m0 := buf[..], mbuf[bufbase..bufbase + bufbytes];
      while nn > 0
        invariant 0 <= nn <= max && cp == start + max - nn && bufbase == old(bufbase) + max - nn
        invariant bufbytes == old(bufbytes) && mbuf[..] == old(mbuf[..])
        invariant buf[..] == Overwritten(b0, start, m0, max - nn)
        invariant max - nn + LineLength(m0[max - nn..], nn) == LineLength(m0, max)
        decreases nn
      {
        nn := nn - 1;
        var c := mbuf[bufbase];
        assert c == m0[max - nn - 1];
        assert m0[max - nn - 1..][1..] == m0[max - nn..];
        PutOne(buf, cp, c);
        cp := cp + 1;
        bufbase := bufbase + 1;
        if c == '\n' {
          return;
        }
      }
    }

    /** One transfer of getline() with its counts. */
    method Transfer(buf: array<char>, start: nat, room: nat) returns (n: nat)
      requires Valid() && mbuf != null && buf != mbuf && start + room <= buf.Length
      modifies this`bufbase, this`bufbytes, this`stream, buf
      ensures Valid() && n <= room && n <= |old(stream)| && stream == old(stream)[n..]
      ensures buf[..] == Overwritten(old(buf[..]), start, old(stream), n)
      ensures LineGoesOn(old(stream), stream, room, n, bufbytes)
    {
      ghost var held, s0, b0 := mbuf[bufbase..bufbase + bufbytes], stream, buf[..];
      var maxtransf := Min(bufbytes, room);
      var nn := CopyLine(buf, start, maxtransf);
      n := maxtransf - nn;
      bufbytes := bufbytes - n;
      stream := s0[n..];
      HeldPart(held, fd.unread, n);
      TransferLine(held, fd.unread, s0, room, n);
      OverwrittenPrefix(b0, start, s0, held, n);
    }

    /** getline(): the result is size - 1 characters at most, and a final 0. */
    method GetLine(buf: array<char>, size: nat) returns (n: nat)
      requires Valid() && 1 <= size <= buf.Length && buf != mbuf
      modifies this, mbuf, fd, buf
      ensures Valid() && (mbuf == old(mbuf) || fresh(mbuf))
      ensures n == LineLength(old(stream), size - 1) && stream == old(stream)[n..]
      ensures buf[..] == Overwritten(old(buf[..]), 0, old(stream) + ['\0'], n)[n := '\0']
    {
      ghost var s0, b0 := stream, buf[..];
      if mbuf == null {
        mbuf := new char[200];
        bufbase, bufbytes := 0, 0;
      }
      n := TakeLine(buf, size);
      OverwrittenPrefix(b0, 0, s0, s0 + ['\0'], n);
      PutOne(buf, n, '\0');
    }

    /** One turn of the loop of getline(), up to its test. */
    method Turn(buf: array<char>, at: nat, size: nat, ghost b0: seq<char>, ghost s0: seq<char>)
      returns (cp: nat, stop: bool)
      requires Valid() && mbuf != null && buf != mbuf && size <= buf.Length
      requires TakenUpTo(b0, s0, at, size, buf[..], stream)
      modifies this`bufbase, this`bufbytes, this`stream, buf
      ensures Valid() && at <= cp
      ensures if stop then Taken(b0, s0, cp, size, buf[..], stream)
              else bufbytes == 0 && TakenUpTo(b0, s0, cp, size, buf[..], stream)
    {
      ghost var b1, s1 := buf[..], stream;
      var n1 := Transfer(buf, at, size - 1 - at);
      cp := at + n1;
      stop := size - cp <= 1 || (cp > 0 && buf[cp - 1] == '\n');
      TurnTakes(b0, s0, at, size, b1, s1, n1, buf[..], stream, bufbytes, stop);
    }

    /** The loop of getline(). */
    method TakeLine(buf: array<char>, size: nat) returns (cp: nat)
      requires Valid() && mbuf != null && 1 <= size <= buf.Length && buf != mbuf
      modifies this`bufbase, this`bufbytes, this`stream, mbuf, fd, buf
      ensures Valid()
      ensures Taken(old(buf[..]), old(stream), cp, size, buf[..], stream)
    {
      cp := 0;
      ghost var b0, s0 := buf[..], stream;
      while true
        invariant Valid() && mbuf == old(mbuf)
        invariant TakenUpTo(b0, s0, cp, size, buf[..], stream)
        decreases |fd.unread|
      {
        var stop;
        cp, stop := Turn(buf, cp, size, b0, s0);
        if stop { return; }
        ghost var b2 := buf[..];
        var got := Refill();
        assert buf[..] == b2;
        if got == 0 {
          return;
        }
      }
    }
  }

  /** cp characters of the line are in the buffer, and it goes on. */
  ghost predicate TakenUpTo(b0: seq<char>, s0: seq<char>, cp: nat, size: nat, b: seq<char>, stream: seq<char>) {
    && cp < size && cp <= |s0| && size <= |b0| && stream == s0[cp..]
    && b == Overwritten(b0, 0, s0, cp)
    && LineLength(s0, size - 1) == cp + LineLength(stream, size - 1 - cp)
    && (cp > 0 ==> s0[cp - 1] != '\n')
  }

  /** The whole line is in the buffer. */
  ghost predicate Taken(b0: seq<char>, s0: seq<char>, cp: nat, size: nat, b: seq<char>, stream: seq<char>)
    requires size > 0
  {
    && cp == LineLength(s0, size - 1) && cp <= |b0| && stream == s0[cp..]
    && b == Overwritten(b0, 0, s0, cp)
  }

  /** What one transfer of n characters says about the line: it ends there, or the buffer is used up. */
  ghost predicate LineGoesOn(before: seq<char>, after: seq<char>, room: nat, n: nat, bufbytes: nat)
    requires n <= |before| && n <= room
  {
    if LineEnds(before, room, n) then LineLength(before, room) == n
    else bufbytes == 0 && LineLength(before, room) == n + LineLength(after, room - n)
  }

  /** The test of getline() on its output buffer is the test on the stream. */
  lemma TurnTakes(b0: seq<char>, s0: seq<char>, at: nat, size: nat, b1: seq<char>, s1: seq<char>, n1: nat,
                  b2: seq<char>, s2: seq<char>, bufbytes: nat, stop: bool)
    requires TakenUpTo(b0, s0, at, size, b1, s1)
    requires n1 <= |s1| && at + n1 < size && s2 == s1[n1..] && b2 == Overwritten(b1, at, s1, n1)
    requires LineGoesOn(s1, s2, size - 1 - at, n1, bufbytes)
    requires stop <==> size - (at + n1) <= 1 || (at + n1 > 0 && b2[at + n1 - 1] == '\n')
    ensures if stop then Taken(b0, s0, at + n1, size, b2, s2)
            else bufbytes == 0 && TakenUpTo(b0, s0, at + n1, size, b2, s2)
  {
    OverwrittenMore(b0, b1, b2, 0, s0, at, s1, n1);
    OverwrittenIs(b0, 0, s0, at + n1);
    assert at + n1 > 0 ==> b2[at + n1 - 1] == s0[at + n1 - 1];
    assert n1 > 0 ==> s1[n1 - 1] == s0[at + n1 - 1];
  }

  /** A line over the buffered part a of a stream: it ends there, or it takes all of a and goes on. */
  lemma {:induction false} LineAppend(a: seq<char>, b: seq<char>, max: nat, k: nat)
    requires k == LineLength(a, Min(|a|, max))
    ensures if LineEnds(a, max, k) then LineLength(a + b, max) == k
            else k == |a| && LineLength(a + b, max) == |a| + LineLength(b, max - |a|)
  {
    if a == [] {
      assert a + b == b;
    } else if max > 0 && a[0] != '\n' {
      assert (a + b)[1..] == a[1..] + b;
      LineAppend(a[1..], b, max - 1, k - 1);
    }
  }

  lemma HeldPart(held: seq<char>, unread: seq<char>, n: nat)
    requires n <= |held|
    ensures held[..n] == (held + unread)[..n] && (held + unread)[n..] == held[n..] + unread
    ensures n > 0 ==> (held + unread)[n - 1] == held[n - 1]
  {
  }

  lemma TransferLine(held: seq<char>, unread: seq<char>, s: seq<char>, room: nat, n: nat)
    requires n == LineLength(held, Min(|held|, room)) && s == held + unread
    ensures LineGoesOn(s, s[n..], room, n, |held| - n)
  {
    HeldPart(held, unread, n);
    LineAppend(held, unread, room, n);
    assert LineEnds(s, room, n) == LineEnds(held, room, n);
    if n == |held| {
      assert held[n..] + unread == unread;
    }
  }

  /** The calls a client makes, with the room it gives each of them. */
  datatype Call = Receiving(cnt: nat) | DoReceiving(cnt: nat) | GettingLine(size: nat)

  function Concat(pieces: seq<seq<char>>): seq<char> {
    if pieces == [] then [] else Concat(pieces[..|pieces| - 1]) + pieces[|pieces| - 1]
  }

  /** What one call may hand out of the stream s. */
  predicate Answer(s: seq<char>, call: Call, piece: seq<char>) {
    && piece <= s
    && match call
       case Receiving(cnt) => |piece| <= cnt && (piece == [] <==> cnt == 0 || s == [])
       case DoReceiving(cnt) => |piece| == Min(cnt, |s|)
       case GettingLine(size) => size > 0 ==> |piece| == LineLength(s, size - 1)
  }

  /** One call with a buffer of its own: what the client then finds in it. */
  method Answering(nd: NetconData, call: Call) returns (piece: seq<char>)
    requires nd.Valid()
    modifies nd, nd.mbuf, nd.fd
    ensures nd.Valid() && (nd.mbuf == old(nd.mbuf) || fresh(nd.mbuf))
    ensures Answer(old(nd.stream), call, piece)
    ensures old(nd.stream) == piece + nd.stream
  {
    match call {
      case Receiving(cnt) =>
        var buf := new char[cnt];
        ghost var s0, b0 := nd.stream, buf[..];
        var n := nd.Receive(buf, 0, cnt);
        WhatWasRead(b0, s0, n, buf[..]);
        piece := buf[..n];
      case DoReceiving(cnt) =>
        var buf := new char[cnt];
        ghost var s0, b0 := nd.stream, buf[..];
        var n := nd.DoReceive(buf, cnt);
        WhatWasRead(b0, s0, n, buf[..]);
        piece := buf[..n];
      case GettingLine(size) =>
        piece := OneLine(nd, size);
    }
  }

  method OneLine(nd: NetconData, size: nat) returns (piece: seq<char>)
    requires nd.Valid()
    modifies nd, nd.mbuf, nd.fd
    ensures nd.Valid() && (nd.mbuf == old(nd.mbuf) || fresh(nd.mbuf))
    ensures Answer(old(nd.stream), GettingLine(size), piece)
    ensures old(nd.stream) == piece + nd.stream
  {
    if size == 0 { return []; }
    var buf := new char[size];
    ghost var s0, b0 := nd.stream, buf[..];
    var n := nd.GetLine(buf, size);
    OverwrittenPrefix(b0, 0, s0, s0 + ['\0'], n);
    ghost var b1 := Overwritten(b0, 0, s0, n);
    WhatWasRead(b0, s0, n, b1);
    assert buf[..n] == b1[..n];
    piece := buf[..n];
  }

  lemma WhatWasRead(b0: seq<char>, s: seq<char>, n: nat, b: seq<char>)
    requires n <= |s| && n <= |b0| && b == Overwritten(b0, 0, s, n)
    ensures b[..n] == s[..n] && s == b[..n] + s[n..]
  {
    OverwrittenIs(b0, 0, s, n);
    assert s == s[..n] + s[n..];
    forall i | 0 <= i < n ensures b[i] == s[i] {}
  }

  /** Each answer is one for the part of the stream that the earlier ones left. */
  ghost predicate Answers(s: seq<char>, calls: seq<Call>, pieces: seq<seq<char>>)
    requires |pieces| <= |calls|
  {
    forall i :: 0 <= i < |pieces| ==> AnswersAt(s, calls, pieces, i)
  }

  ghost predicate AnswersAt(s: seq<char>, calls: seq<Call>, pieces: seq<seq<char>>, i: nat)
    requires i < |pieces| <= |calls|
  {
    |Concat(pieces[..i])| <= |s| && Answer(s[|Concat(pieces[..i])|..], calls[i], pieces[i])
  }

  /** Any calls in any order: what they handed out, then what is left, is what was there to read. */
  method Session(nd: NetconData, calls: seq<Call>) returns (pieces: seq<seq<char>>)
    requires nd.Valid()
    modifies nd, nd.mbuf, nd.fd
    ensures nd.Valid() && |pieces| == |calls|
    ensures Concat(pieces) + nd.stream == old(nd.stream)
    ensures Answers(old(nd.stream), calls, pieces)
  {
    pieces := [];
    ghost var s0 := nd.stream;
    for i := 0 to |calls|
      invariant nd.Valid() && |pieces| == i && (nd.mbuf == old(nd.mbuf) || fresh(nd.mbuf))
      invariant Concat(pieces) + nd.stream == s0
      invariant Answers(s0, calls, pieces)
    {
      ghost var s1, before := nd.stream, pieces;
      var piece := Answering(nd, calls[i]);
      pieces := pieces + [piece];
      assert pieces[..i] == before && s0[|Concat(before)|..] == s1;
      forall j | 0 <= j < |pieces| ensures AnswersAt(s0, calls, pieces, j) {
        if j < i {
          assert pieces[..j] == before[..j] && AnswersAt(s0, calls, before, j);
        }
      }
    }
  }
}
