/** Each elementary step of an endpoint keeps the invariant of the two-endpoint system. */
module AdbSteps {
  import opened Bytes
  import opened Packets
  import opened AdbEndpoint
  import opened AdbSystem

  function With(X: Endpoint, x: nat, s: Sock): Endpoint {
    X.(socks := X.socks[x := s])
  }

  /** The invariant of one pair of sockets, in both directions. */
  predicate PairBoth(x: nat, sx: Sock, onX: bool, y: nat, sy: Sock, onY: bool, xy: seq<Packet>, yx: seq<Packet>) {
    && PairInv(x, sx, onX, y, sy, onY, ViewOf(xy, yx, x, y))
    && PairInv(y, sy, onY, x, sx, onX, ViewOf(yx, xy, y, x))
  }

  lemma PairReadSend(x: nat, sx: Sock, onX: bool, y: nat, sy: Sock, onY: bool,
                     xy: seq<Packet>, yx: seq<Packet>, data: seq<Byte>)
    requires PairBoth(x, sx, onX, y, sy, onY, xy, yx) && SockWf(sx)
    requires sx.status.Live? && sx.readOn && sx.partner == Some(y)
    ensures ClseCount(xy, y) == 0 && OpenCount(yx, y) == 0
    ensures PairBoth(x, sx.(sent := sx.sent + data, readOn := false), onX, y, sy, onY, xy + [Wrte(x, y, data)], yx)
  {
    Append(xy, Wrte(x, y, data), x, y);
    AppendTo(xy, Wrte(x, y, data), y);
    AppendTo(xy, Wrte(x, y, data), x);
  }

  lemma PairTakeWrte(x: nat, sx: Sock, y: nat, sy: Sock, onY: bool, xy: seq<Packet>, yx: seq<Packet>)
    requires PairBoth(x, sx, true, y, sy, onY, xy, yx) && SockWf(sx)
    requires yx != [] && yx[0].Wrte? && yx[0].from == y && yx[0].to == x && sx.status.Live?
    ensures sx.queue == [] && sx.partner == Some(y) && sy.partner == Some(x)
    ensures PairBoth(x, sx.(queue := [yx[0].data], writeOn := true), true, y, sy, onY, xy, yx[1..])
  {
    assert sx.queue == [];
    assert Flat([yx[0].data]) == yx[0].data + Flat([]);
    assert Payload(yx, y, x) == yx[0].data + Payload(yx[1..], y, x);
  }

  lemma PairTakeOkay(x: nat, sx: Sock, y: nat, sy: Sock, onY: bool, xy: seq<Packet>, yx: seq<Packet>)
    requires PairBoth(x, sx, true, y, sy, onY, xy, yx) && SockWf(sx)
    requires yx != [] && yx[0] == Okay(y, x) && sx.status.Live?
    requires OpenCount(yx, y) > 0 ==> sy.partner.None?
    ensures sy.partner == Some(x) && (sx.partner.None? || sx.partner == Some(y)) && ToCount(yx, x) > 0
    ensures PairBoth(x, sx.(partner := Some(y), readOn := true), true, y, sy, onY, xy, yx[1..])
  {
    var s' := sx.(partner := Some(y), readOn := true);
    var v, w := ViewOf(xy, yx, x, y), ViewOf(yx, xy, y, x);
    if sx.partner.None? { NoneTo(xy, x, y); }
    assert ViewOf(xy, yx[1..], x, y) == v.(back := v.back - 1);
    assert PairInv(x, s', true, y, sy, onY, v.(back := v.back - 1));
    var w' := ViewOf(yx[1..], xy, y, x);
    assert w' == w.(okay := w.okay - 1, to := w.to - 1, first := w'.first);
    assert PairInv(y, sy, onY, x, s', true, w.(okay := w.okay - 1, to := w.to - 1, first := w'.first));
  }

  lemma PairCloseOwn(x: nat, sx: Sock, onX: bool, y: nat, sy: Sock, onY: bool,
                     xy: seq<Packet>, yx: seq<Packet>, s': Sock)
    requires PairBoth(x, sx, onX, y, sy, onY, xy, yx) && SockWf(sx)
    requires sx.status.Live? && !s'.status.Live?
    requires s' == sx.(status := s'.status, readOn := false, failed := true, writeOn := s'.writeOn)
    requires sx.partner.None? || sx.partner == Some(y)
    ensures sx.partner.Some? ==> ClseCount(xy, y) == 0 && OpenCount(yx, y) == 0
    ensures PairBoth(x, s', onX, y, sy, onY, xy + ClosePacket(sx), yx)
  {
    var out := ClosePacket(sx);
    if out != [] {
      assert out == [out[0]];
      Append(xy, out[0], x, y);
      AppendTo(xy, out[0], y);
      AppendTo(xy, out[0], x);
    } else {
      assert xy + out == xy;
    }
  }

  /** Permission to read becomes data in flight. */
  lemma ReadSend(X: Endpoint, Y: Endpoint, xy: seq<Packet>, yx: seq<Packet>, x: nat, data: seq<Byte>)
    requires Both(X, Y, xy, yx)
    requires IsLive(X, x) && X.socks[x].readOn && data != [] && X.socks[x].partner.Some?
    ensures var s := X.socks[x];
      Both(With(X, x, s.(sent := s.sent + data, readOn := false)), Y, xy + [Wrte(x, s.partner.value, data)], yx)
  {
    var y := Mate(X, Y, xy, yx, x);
    var s := X.socks[x];
    var s' := s.(sent := s.sent + data, readOn := false);
    var p := Wrte(x, y, data);
    assert Pair(X, Y, xy, yx, x, y);
    assert Pair(Y, X, yx, xy, y, x);
    PairReadSend(x, s, X.online, y, Y.socks[y], Y.online, xy, yx, data);
    LocalStep(X, Y, xy, yx, x, y, s', [p], false, With(X, x, s'));
  }

  /** A WRTE in flight becomes the backlog of the socket it is addressed to. */
  lemma TakeWrte(X: Endpoint, Y: Endpoint, xy: seq<Packet>, yx: seq<Packet>)
    requires Both(X, Y, xy, yx)
    requires yx != [] && yx[0].Wrte? && X.online && IsLive(X, yx[0].to)
    ensures var s := X.socks[yx[0].to];
      && s.queue == [] && s.partner == Some(yx[0].from)
      && Both(With(X, yx[0].to, s.(queue := [yx[0].data], writeOn := true)), Y, xy, yx[1..])
  {
    var x, y := yx[0].to, yx[0].from;
    assert Known(yx[0], Y.socks.Keys, X.socks.Keys);
    assert Pair(X, Y, xy, yx, x, y);
    assert Pair(Y, X, yx, xy, y, x);
    var s := X.socks[x];
    var mate := Mate(X, Y, xy, yx, x);
    var s' := s.(queue := [yx[0].data], writeOn := true);
    PairTakeWrte(x, s, y, Y.socks[y], Y.online, xy, yx);
    assert xy + [] == xy;
    LocalStep(X, Y, xy, yx, x, y, s', [], true, With(X, x, s'));
  }

  lemma TakeOkay(X: Endpoint, Y: Endpoint, xy: seq<Packet>, yx: seq<Packet>)
    requires Both(X, Y, xy, yx)
    requires yx != [] && yx[0].Okay? && X.online && IsLive(X, yx[0].to)
    ensures Both(GotOkay(X, yx[0].from, yx[0].to).ep, Y, xy, yx[1..])
  {
    hide Flow, Data, ClseLast;
    var x, y := yx[0].to, yx[0].from;
    assert Known(yx[0], Y.socks.Keys, X.socks.Keys);
    assert Pair(X, Y, xy, yx, x, y);
    assert Pair(Y, X, yx, xy, y, x);
    var s := X.socks[x];
    var mate := Mate(X, Y, xy, yx, x);
    var s' := s.(partner := Some(y), readOn := true);
    PairTakeOkay(x, s, y, Y.socks[y], Y.online, xy, yx);
    forall x1 <- X.socks ensures X.socks[x1].partner == Some(y) ==> x1 == x {
      assert Pair(X, Y, xy, yx, x1, y);
    }
    assert xy + [] == xy;
    LocalStep(X, Y, xy, yx, x, y, s', [], true, With(X, x, s'));
  }

  lemma PairTakeClse(x: nat, sx: Sock, y: nat, sy: Sock, onY: bool, xy: seq<Packet>, yx: seq<Packet>)
    requires PairBoth(x, sx, true, y, sy, onY, xy, yx) && SockWf(sx)
    requires yx != [] && yx[0].Clse? && yx[0].to == x && ToCount(yx[1..], x) == 0 && sx.status.Live?
    requires sx.partner.None? || sx.partner == Some(y)
    ensures sx.partner.Some? ==> ClseCount(xy, y) == 0 && OpenCount(yx, y) == 0
    ensures PairBoth(x, Closed(sx, true), true, y, sy, onY, xy + ClosePacket(sx), yx[1..])
  {
    NoneTo(yx[1..], y, x);
    var out := ClosePacket(sx);
    if out != [] {
      assert out == [out[0]];
      Append(xy, out[0], x, y);
      AppendTo(xy, out[0], y);
      AppendTo(xy, out[0], x);
    } else {
      assert xy + out == xy;
    }
  }

  lemma TakeClse(X: Endpoint, Y: Endpoint, xy: seq<Packet>, yx: seq<Packet>)
    requires Both(X, Y, xy, yx)
    requires yx != [] && yx[0].Clse? && X.online && IsLive(X, yx[0].to)
    ensures var r := CloseSocket(X, yx[0].to, true); Both(r.ep, Y, xy + r.out, yx[1..])
  {
    var x := yx[0].to;
    var s := X.socks[x];
    var y := Mate(X, Y, xy, yx, x);
    if y in Y.socks {
      assert Pair(X, Y, xy, yx, x, y);
      assert Pair(Y, X, yx, xy, y, x);
      PairTakeClse(x, s, y, Y.socks[y], Y.online, xy, yx);
    }
    LocalStep(X, Y, xy, yx, x, y, Closed(s, true), ClosePacket(s), true, With(X, x, Closed(s, true)));
  }

  /** Part of the backlog reaches the fd. */
  lemma DrainPart(X: Endpoint, Y: Endpoint, xy: seq<Packet>, yx: seq<Packet>, x: nat, k: nat)
    requires Both(X, Y, xy, yx)
    requires x in X.socks && !X.socks[x].status.Gone? && k < |Flat(X.socks[x].queue)|
    ensures Both(With(X, x, Advance(X.socks[x], k)), Y, xy, yx)
  {
    var s := X.socks[x];
    var s' := Advance(s, k);
    OneLeft(s, k);
    var y := Mate(X, Y, xy, yx, x);
    if y in Y.socks {
      assert Pair(X, Y, xy, yx, x, y);
      assert Pair(Y, X, yx, xy, y, x);
    }
    assert xy + [] == xy;
    LocalStep(X, Y, xy, yx, x, y, s', [], false, With(X, x, s'));
  }

  lemma OneLeft(s: Sock, k: nat)
    requires |s.queue| <= 1 && k <= |Flat(s.queue)|
    ensures var s' := Advance(s, k);
      && s'.written + Flat(s'.queue) == s.written + Flat(s.queue)
      && (k < |Flat(s.queue)| ==> |s.queue| == |s'.queue| == 1 && s'.queue[0] != [])
      && (k == |Flat(s.queue)| ==> s'.queue == [] && s'.written == s.written + Flat(s.queue))
  {
    if s.queue != [] {
      assert s.queue[1..] == [] && DropBytes(s.queue[1..], 0) == [];
      assert Flat(s.queue) == s.queue[0];
    }
  }

  /** The whole backlog reaches the fd: the acknowledgement goes out. */
  lemma DrainAll(X: Endpoint, Y: Endpoint, xy: seq<Packet>, yx: seq<Packet>, x: nat)
    requires Both(X, Y, xy, yx)
    requires IsLive(X, x) && X.socks[x].queue != []
    ensures X.socks[x].partner.Some?
    ensures var s := X.socks[x];
      Both(With(X, x, Advance(s, |Flat(s.queue)|).(writeOn := false)), Y, xy + [Okay(x, s.partner.value)], yx)
  {
    var s := X.socks[x];
    var s' := Advance(s, |Flat(s.queue)|).(writeOn := false);
    OneLeft(s, |Flat(s.queue)|);
    var y := Mate(X, Y, xy, yx, x);
    var p := Okay(x, y);
    assert Pair(X, Y, xy, yx, x, y);
    assert Pair(Y, X, yx, xy, y, x);
    Append(xy, p, x, y);
    AppendTo(xy, p, y);
    AppendTo(xy, p, x);
    LocalStep(X, Y, xy, yx, x, y, s', [p], false, With(X, x, s'));
  }

  /** A live socket closes for a reason of its own; what it had queued is kept or disposed of. */
  lemma CloseOwn(X: Endpoint, Y: Endpoint, xy: seq<Packet>, yx: seq<Packet>, x: nat, s': Sock)
    requires Both(X, Y, xy, yx) && IsLive(X, x)
    requires s' == X.socks[x].(status := s'.status, readOn := false, failed := true,
                               writeOn := s'.status.Lingering? && X.socks[x].writeOn)
    requires s'.status.Gone? || (s'.status.Lingering? && s'.queue != [])
    ensures Both(With(X, x, s'), Y, xy + ClosePacket(X.socks[x]), yx)
  {
    var s := X.socks[x];
    var y := Mate(X, Y, xy, yx, x);
    var out := ClosePacket(s);
    if y in Y.socks {
      assert Pair(X, Y, xy, yx, x, y);
      assert Pair(Y, X, yx, xy, y, x);
      PairCloseOwn(x, s, X.online, y, Y.socks[y], Y.online, xy, yx, s');
    }
    LocalStep(X, Y, xy, yx, x, y, s', out, false, With(X, x, s'));
  }

  /** A lingering socket is destroyed: drained, or cut short. */
  lemma LingerEnds(X: Endpoint, Y: Endpoint, xy: seq<Packet>, yx: seq<Packet>, x: nat, s': Sock)
    requires Both(X, Y, xy, yx)
    requires x in X.socks && X.socks[x].status.Lingering?
    requires var s := X.socks[x];
      || s' == s.(status := Gone, writeOn := false, failed := true)
      || s' == Advance(s, |Flat(s.queue)|).(status := Gone, writeOn := false)
    ensures Both(With(X, x, s'), Y, xy, yx)
  {
    var s := X.socks[x];
    OneLeft(s, |Flat(s.queue)|);
    var y := Mate(X, Y, xy, yx, x);
    if y in Y.socks {
      assert Pair(X, Y, xy, yx, x, y);
      assert Pair(Y, X, yx, xy, y, x);
    }
    assert xy + [] == xy;
    LocalStep(X, Y, xy, yx, x, y, s', [], false, With(X, x, s'));
  }

  /** A packet for a socket that is no longer on the main list changes nothing. */
  lemma DropLate(X: Endpoint, Y: Endpoint, xy: seq<Packet>, yx: seq<Packet>)
    requires Both(X, Y, xy, yx)
    requires yx != [] && !yx[0].Open? && (!X.online || !IsLive(X, yx[0].to))
    ensures Both(X, Y, xy, yx[1..])
  {
    var x := yx[0].to;
    assert Known(yx[0], Y.socks.Keys, X.socks.Keys);
    var y := Mate(X, Y, xy, yx, x);
    var s := X.socks[x];
    if y in Y.socks {
      assert Pair(X, Y, xy, yx, x, y);
      assert Pair(Y, X, yx, xy, y, x);
    }
    assert xy + [] == xy;
    assert With(X, x, s) == X by { assert X.socks[x := s] == X.socks; }
    LocalStep(X, Y, xy, yx, x, y, s, [], true, X);
  }

  lemma ConnectStep(X: Endpoint, Y: Endpoint, xy: seq<Packet>, yx: seq<Packet>)
    requires Both(X, Y, xy, yx)
    ensures Both(Connect(X).ep, Y, xy + Connect(X).out, yx)
  {
    var x, s := X.nextId, NewSock(None, false);
    forall y1 <- Y.socks ensures Y.socks[y1].partner != Some(x) {}
    LocalStep(X, Y, xy, yx, x, 0, s, [Open(x)], false, Connect(X).ep) by {
      assert 0 !in Y.socks;
    }
  }

  /** Accepting an OPEN creates the one token of each direction. */
  lemma PairAccept(x: nat, y: nat, sy: Sock, onY: bool, xy: seq<Packet>, yx: seq<Packet>)
    requires SockWf(sy) && sy.partner.None? && !sy.heard && OpenCount(yx, y) == 0
    requires ToCount(xy, y) == 0 && ToCount(yx, x) == 0 && OpenCount(xy, x) == 0
    ensures PairBoth(x, NewSock(Some(y), true), true, y, sy, onY, xy + [Okay(x, y)], yx)
  {
    NoneTo(xy, x, y);
    NoneTo(yx, y, x);
    Append(xy, Okay(x, y), x, y);
    AppendTo(xy, Okay(x, y), y);
    AppendTo(xy, Okay(x, y), x);
    var s := NewSock(Some(y), true);
    assert s.written + Flat(s.queue) == [] && sy.written + Flat(sy.queue) == [];
    assert Data(s, sy, onY, []) && Data(sy, s, true, []);
    assert Flow(s, true, sy, onY, 0, 0) && Flow(sy, onY, s, true, 0, 1);
    hide Flow, Data, SockWf;
  }

  lemma AcceptStep(X: Endpoint, Y: Endpoint, xy: seq<Packet>, yx: seq<Packet>)
    requires Both(X, Y, xy, yx)
    requires yx != [] && yx[0].Open? && X.online
    ensures var r := GotOpen(X, yx[0].from, true); Both(r.ep, Y, xy + r.out, yx[1..])
  {
    var x, y := X.nextId, yx[0].from;
    var s := NewSock(Some(y), true);
    assert Known(yx[0], Y.socks.Keys, X.socks.Keys);
    FreshSender(xy, X.socks.Keys, Y.socks.Keys, x, y);
    FreshReceiver(yx, Y.socks.Keys, X.socks.Keys, x);
    assert OpenCount(yx, y) == 1 && OpenCount(yx[1..], y) == 0;
    forall y1 <- Y.socks ensures Y.socks[y1].partner != Some(x) {}
    forall x1 <- X.socks ensures X.socks[x1].partner != Some(y) {
      assert Pair(Y, X, yx, xy, y, x1);
    }
    assert ToCount(yx[1..], x) == 0;
    NoneTo(xy, x, y);
    PairAccept(x, y, Y.socks[y], Y.online, xy, yx[1..]);
    LocalStep(X, Y, xy, yx, x, y, s, [Okay(x, y)], true, GotOpen(X, y, true).ep);
  }

  /** An OPEN is answered by CLSE, or ignored while offline. */
  lemma OpenGoes(X: Endpoint, Y: Endpoint, xy: seq<Packet>, yx: seq<Packet>, refuse: bool)
    requires Both(X, Y, xy, yx)
    requires yx != [] && yx[0].Open?
    ensures Both(X, Y, xy + if refuse then [Clse(0, yx[0].from)] else [], yx[1..])
  {
    var y := yx[0].from;
    var p := Clse(0, y);
    var out := if refuse then [p] else [];
    var xy', yx' := xy + out, yx[1..];
    assert Known(yx[0], Y.socks.Keys, X.socks.Keys);
    assert OpenCount(yx, y) == 1 && OpenCount(yx', y) == 0;
    NoneTo(xy, 0, y);
    if refuse { ClseLastAppend(xy, p); } else { assert xy' == xy; }
    forall x1 <- X.socks ensures OpenCount(xy', x1) == OpenCount(xy, x1) && ToCount(yx', x1) == ToCount(yx, x1) {
      if refuse { AppendTo(xy, p, x1); }
    }
    forall y1 <- Y.socks ensures y1 != y ==> ToCount(xy', y1) == ToCount(xy, y1) {
      if refuse { AppendTo(xy, p, y1); }
    }
    OpenGoesPairs(X, Y, xy, yx, out);
  }

  lemma OpenGoesPairs(X: Endpoint, Y: Endpoint, xy: seq<Packet>, yx: seq<Packet>, out: seq<Packet>)
    requires Pairs(X, Y, xy, yx) && Pairs(Y, X, yx, xy)
    requires yx != [] && yx[0].Open? && yx[0].from in Y.socks && Y.socks[yx[0].from].partner.None?
    requires out == [Clse(0, yx[0].from)] || out == []
    ensures Pairs(X, Y, xy + out, yx[1..]) && Pairs(Y, X, yx[1..], xy + out)
  {
    var y := yx[0].from;
    forall x1, y1 | x1 in X.socks && y1 in Y.socks ensures Pair(X, Y, xy + out, yx[1..], x1, y1) {
      assert Pair(X, Y, xy, yx, x1, y1);
      assert Pair(Y, X, yx, xy, y1, x1);
      if y1 == y && out != [] {
        Append(xy, out[0], x1, y);
        Unrelated(x1, X.socks[x1], X.online, y, Y.socks[y], Y.online, ViewOf(xy + out, yx[1..], x1, y));
      } else {
        AppendView(xy, yx, out, x1, y1);
      }
    }
    forall y1, x1 | y1 in Y.socks && x1 in X.socks ensures Pair(Y, X, yx[1..], xy + out, y1, x1) {
      assert Pair(Y, X, yx, xy, y1, x1);
      BackwardOther(Y, X, X, yx, xy, 0, out, true, y1, x1);
    }
  }

  lemma OfflineShape(X: Endpoint, Y: Endpoint, xy: seq<Packet>, yx: seq<Packet>)
    requires Shape(X, Y, xy, yx) && Shape(Y, X, yx, xy)
    ensures Shape(GoOffline(X), Y, xy, yx) && Shape(Y, GoOffline(X), yx, xy)
  {
    var X' := GoOffline(X);
    assert X'.socks.Keys == X.socks.Keys;
    forall x <- X'.socks ensures SockWf(X'.socks[x]) && X'.socks[x].partner == X.socks[x].partner
                              && (OpenCount(xy, x) > 0 ==> X'.socks[x] == X.socks[x]) {
      assert SockWf(X.socks[x]);
    }
  }

  /** handle_offline drops every link at once, telling nobody. */
  lemma OfflineStep(X: Endpoint, Y: Endpoint, xy: seq<Packet>, yx: seq<Packet>)
    requires Both(X, Y, xy, yx)
    ensures Both(GoOffline(X), Y, xy, yx)
  {
    OfflineShape(X, Y, xy, yx);
    OfflinePairs(X, Y, xy, yx);
  }

  lemma OfflinePairs(X: Endpoint, Y: Endpoint, xy: seq<Packet>, yx: seq<Packet>)
    requires EndWf(X) && Pairs(X, Y, xy, yx) && Pairs(Y, X, yx, xy)
    ensures Pairs(GoOffline(X), Y, xy, yx) && Pairs(Y, GoOffline(X), yx, xy)
  {
    var X' := GoOffline(X);
    forall x, y | x in X'.socks && y in Y.socks
      ensures Pair(X', Y, xy, yx, x, y) && Pair(Y, X', yx, xy, y, x)
    {
      assert Pair(X, Y, xy, yx, x, y);
      assert Pair(Y, X, yx, xy, y, x);
      PairOffline(x, X.socks[x], X.online, y, Y.socks[y], Y.online, xy, yx, X'.socks[x]);
    }
  }

  lemma PairOffline(x: nat, sx: Sock, onX: bool, y: nat, sy: Sock, onY: bool,
                    xy: seq<Packet>, yx: seq<Packet>, s': Sock)
    requires PairBoth(x, sx, onX, y, sy, onY, xy, yx) && SockWf(sx)
    requires s' == if sx.status.Live? && sx.partner.Some? then Closed(sx, false) else sx
    ensures PairBoth(x, s', false, y, sy, onY, xy, yx)
  {}
}
