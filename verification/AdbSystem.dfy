/** Two endpoints joined by two FIFO channels, and the invariant every step of either keeps. */
module AdbSystem {
  import opened Bytes
  import opened Packets
  import opened AdbEndpoint

  predicate SockWf(s: Sock) {
    && (s.partner.None? ==> s.queue == [] && !s.readOn && s.sent == [] && s.written == [])
    && (s.writeOn <==> s.queue != [] && !s.status.Gone?)
    && |s.queue| <= 1 && (s.queue != [] ==> s.queue[0] != [])
    && (s.status.Lingering? ==> s.queue != [])
    && (!s.status.Live? ==> !s.readOn && (s.heard || s.failed))
    && (s.status.Live? ==> !s.heard && !s.failed)
    && (s.status.Gone? && !s.failed ==> s.queue == [])
  }

  ghost predicate EndWf(ep: Endpoint) {
    && 0 < ep.nextId
    && (forall x <- ep.socks :: 0 < x < ep.nextId && SockWf(ep.socks[x]))
    && (!ep.online ==> forall x <- ep.socks :: ep.socks[x].status.Live? ==> ep.socks[x].partner.None?)
  }

  /** No two sockets of an endpoint were ever linked to the same far socket, and that one exists. */
  ghost predicate Injective(ep: Endpoint, far: set<nat>) {
    && (forall x <- ep.socks :: ep.socks[x].partner.Some? ==> ep.socks[x].partner.value in far)
    && (forall x1 <- ep.socks, x2 <- ep.socks ::
          ep.socks[x1].partner.Some? && ep.socks[x1].partner == ep.socks[x2].partner ==> x1 == x2)
  }

  /** An OPEN travels once, before its socket is linked or written to. */
  ghost predicate Opens(X: Endpoint, xy: seq<Packet>, yx: seq<Packet>) {
    forall x <- X.socks ::
      OpenCount(xy, x) <= 1
      && (OpenCount(xy, x) > 0 ==> X.socks[x].partner.None? && !X.socks[x].heard && ToCount(yx, x) == 0)
  }

  predicate Connecting(s: Sock) {
    s.status.Live? && s.partner.None?
  }

  /** The tokens of the direction from `sx` to `sy`: permission to read, data in flight, data queued,
      acknowledgement in flight. */
  function Tokens(sx: Sock, sy: Sock, wrte: nat, okay: nat): nat {
    B2N(sx.status.Live? && sx.readOn) + wrte + |sy.queue| + okay
  }

  predicate Flow(sx: Sock, onX: bool, sy: Sock, onY: bool, wrte: nat, okay: nat) {
    && (sy.status.Live? ==> Tokens(sx, sy, wrte, okay) <= 1)
    && (sx.status.Live? && onX && sy.status.Live? && onY ==> Tokens(sx, sy, wrte, okay) == 1)
  }

  predicate Data(sx: Sock, sy: Sock, onY: bool, inFlight: seq<Byte>) {
    var arrived := sy.written + Flat(sy.queue);
    && arrived <= sx.sent
    && (sy.status.Live? && onY ==> sx.sent == arrived + inFlight)
    && (sy.heard ==> sx.sent == arrived && !sx.status.Live?)
  }

  predicate Bound(x: nat, sx: Sock, y: nat, sy: Sock) {
    sx.partner == Some(y) || sy.partner == Some(x)
  }

  /** Everything the two channels hold about the direction from `x` to `y`. */
  datatype View = View(wrte: nat, okay: nat, to: nat, clse: nat, first: Option<Packet>,
                       pay: seq<Byte>, back: nat, open: nat)

  function ViewOf(xy: seq<Packet>, yx: seq<Packet>, x: nat, y: nat): View {
    View(WrteCount(xy, x, y), OkayCount(xy, x, y), ToCount(xy, y), ClseCount(xy, y), FirstTo(xy, y),
         Payload(xy, x, y), OkayCount(yx, y, x), OpenCount(xy, x))
  }

  predicate PairInv(x: nat, sx: Sock, onX: bool, y: nat, sy: Sock, onY: bool, v: View) {
    && (sx.partner == Some(y) ==> sy.partner.None? || sy.partner == Some(x))
    && (v.wrte > 0 || v.okay > 0 ==> sx.partner == Some(y))
    && (sy.partner == Some(x) && sx.partner.None? ==> v.to == 0)
    && (sx.partner == Some(y) && sx.status.Live? ==> v.clse == 0)
    && (sx.partner == Some(y) && Connecting(sy) && onY ==> v.first == Some(Okay(x, y)))
    && (v.open > 0 ==> sy.partner != Some(x))
    && (Bound(x, sx, y, sy) ==> Flow(sx, onX, sy, onY, v.wrte, v.back) && Data(sx, sy, onY, v.pay))
  }

  /** What relates the socket `x` of one end to the socket `y` of the other, in the direction x to y. */
  predicate Pair(X: Endpoint, Y: Endpoint, xy: seq<Packet>, yx: seq<Packet>, x: nat, y: nat)
    requires x in X.socks && y in Y.socks
  {
    PairInv(x, X.socks[x], X.online, y, Y.socks[y], Y.online, ViewOf(xy, yx, x, y))
  }

  ghost predicate Pairs(X: Endpoint, Y: Endpoint, xy: seq<Packet>, yx: seq<Packet>) {
    forall x, y {:trigger Pair(X, Y, xy, yx, x, y)} ::
      x in X.socks && y in Y.socks ==> Pair(X, Y, xy, yx, x, y)
  }

  ghost predicate Shape(X: Endpoint, Y: Endpoint, xy: seq<Packet>, yx: seq<Packet>) {
    && EndWf(X) && Injective(X, Y.socks.Keys)
    && AllKnown(xy, X.socks.Keys, Y.socks.Keys) && ClseLast(xy) && Opens(X, xy, yx)
  }

  ghost predicate Both(X: Endpoint, Y: Endpoint, xy: seq<Packet>, yx: seq<Packet>) {
    && Shape(X, Y, xy, yx) && Shape(Y, X, yx, xy)
    && Pairs(X, Y, xy, yx) && Pairs(Y, X, yx, xy)
  }

  // ---------------------------------------------------------------- one socket changes

  /** `y` is the only socket of Y that socket `x`, in state `s`, can be linked to. */
  ghost predicate Only(Y: Endpoint, x: nat, s: Sock, y: nat) {
    forall y1 <- Y.socks :: y1 != y ==> !Bound(x, s, y1, Y.socks[y1])
  }

  lemma Mate(X: Endpoint, Y: Endpoint, xy: seq<Packet>, yx: seq<Packet>, x: nat) returns (y: nat)
    requires Both(X, Y, xy, yx) && x in X.socks
    ensures Only(Y, x, X.socks[x], y)
    ensures X.socks[x].partner.Some? ==> y == X.socks[x].partner.value && y in Y.socks
  {
    if X.socks[x].partner.Some? {
      y := X.socks[x].partner.value;
      forall y1 <- Y.socks ensures y1 != y ==> Y.socks[y1].partner != Some(x) {
        assert Pair(Y, X, yx, xy, y1, x);
      }
    } else if y1 :| y1 in Y.socks && Y.socks[y1].partner == Some(x) {
      y := y1;
    } else {
      y := 0;
    }
  }

  /** One step of socket `x`: its new state, at most one packet sent to its mate `y` (or its own OPEN),
      and at most one packet consumed, addressed to `x` or the OPEN of `y`. */
  ghost predicate Local(X: Endpoint, Y: Endpoint, xy: seq<Packet>, yx: seq<Packet>,
                        x: nat, y: nat, s: Sock, out: seq<Packet>, pop: bool, X': Endpoint)
  {
    && X' == X.(socks := X.socks[x := s], nextId := if x in X.socks then X.nextId else X.nextId + 1)
    && (x in X.socks || x == X.nextId)
    && Only(Y, x, s, y) && (x in X.socks ==> Only(Y, x, X.socks[x], y))
    && |out| <= 1
    && (out != [] ==> out == [Open(x)] || (To(out[0], y) && y in Y.socks && s.partner == Some(y)
                                           && (out[0].Clse? || out[0].from == x)
                                           && (out[0].Wrte? ==> out[0].data != [])))
    && (pop ==> yx != [] && (To(yx[0], x) || (yx[0] == Open(y) && y in Y.socks)))
    && (s.partner.Some? ==> s.partner == Some(y) && y in Y.socks)
    && SockWf(s) && (!X.online && s.status.Live? ==> s.partner.None?)
  }

  function Popped(q: seq<Packet>, pop: bool): seq<Packet>
    requires pop ==> q != []
  {
    if pop then q[1..] else q
  }

  lemma AppendView(xy: seq<Packet>, yx: seq<Packet>, out: seq<Packet>, x: nat, y: nat)
    requires |out| <= 1
    requires out != [] ==> !(out[0].Open? && out[0].from == x) && !To(out[0], y)
    ensures ViewOf(xy + out, yx, x, y) == ViewOf(xy, yx, x, y)
  {
    if out == [] {
      assert xy + out == xy;
    } else {
      assert out == [out[0]];
      Append(xy, out[0], x, y);
      AppendTo(xy, out[0], y);
      AppendTo(xy, out[0], x);
    }
  }

  /** Consuming a packet for `x`, or an OPEN, leaves what other sockets are due untouched. */
  lemma PopView(yx: seq<Packet>, xy: seq<Packet>, y1: nat, x1: nat, pop: bool)
    requires pop ==> yx != [] && !To(yx[0], x1)
    ensures ViewOf(Popped(yx, pop), xy, y1, x1)
         == ViewOf(yx, xy, y1, x1).(open := OpenCount(Popped(yx, pop), y1))
    ensures OpenCount(Popped(yx, pop), y1) <= OpenCount(yx, y1)
  {}

  lemma Unrelated(x: nat, sx: Sock, onX: bool, y: nat, sy: Sock, onY: bool, v: View)
    requires !Bound(x, sx, y, sy) && v.wrte == 0 && v.okay == 0
    ensures PairInv(x, sx, onX, y, sy, onY, v)
  {}

  lemma PairsForward(X: Endpoint, Y: Endpoint, xy: seq<Packet>, yx: seq<Packet>,
                     x: nat, y: nat, s: Sock, out: seq<Packet>, pop: bool, X': Endpoint)
    requires Pairs(X, Y, xy, yx) && Pairs(Y, X, yx, xy)
    requires Local(X, Y, xy, yx, x, y, s, out, pop, X')
    requires AllKnown(xy, X.socks.Keys, Y.socks.Keys)
    requires Injective(X', Y.socks.Keys)
    requires y in Y.socks ==> Pair(X', Y, xy + out, Popped(yx, pop), x, y)
    ensures Pairs(X', Y, xy + out, Popped(yx, pop))
  {
    hide Flow, Data, SockWf;
    var xy', yx' := xy + out, Popped(yx, pop);
    forall x1, y1 | x1 in X'.socks && y1 in Y.socks ensures Pair(X', Y, xy', yx', x1, y1) {
      if x1 == x && y1 == y {
      } else if x1 == x {
        if x in X.socks {
          assert Pair(X, Y, xy, yx, x, y1);
        } else {
          FreshSender(xy, X.socks.Keys, Y.socks.Keys, x, y1);
        }
        if out != [] { assert out == [out[0]]; Append(xy, out[0], x, y1); } else { assert xy' == xy; }
        Unrelated(x, s, X.online, y1, Y.socks[y1], Y.online, ViewOf(xy', yx', x, y1));
      } else {
        assert Pair(X, Y, xy, yx, x1, y1);
        if out != [] && To(out[0], y1) {
          assert y1 == y && s.partner == Some(y);
          assert !Bound(x1, X.socks[x1], y, Y.socks[y]);
          assert out == [out[0]];
          Append(xy, out[0], x1, y);
          Unrelated(x1, X.socks[x1], X.online, y, Y.socks[y], Y.online, ViewOf(xy', yx', x1, y));
        } else {
          AppendView(xy, yx, out, x1, y1);
          assert OkayCount(yx', y1, x1) == OkayCount(yx, y1, x1);
          assert ViewOf(xy', yx', x1, y1) == ViewOf(xy, yx, x1, y1);
        }
      }
    }
  }

  lemma BackwardOther(Y: Endpoint, X: Endpoint, X': Endpoint, yx: seq<Packet>, xy: seq<Packet>,
                      x: nat, out: seq<Packet>, pop: bool, y1: nat, x1: nat)
    requires y1 in Y.socks && x1 in X.socks && Pair(Y, X, yx, xy, y1, x1)
    requires x1 in X'.socks && X'.socks[x1] == X.socks[x1] && X'.online == X.online
    requires |out| <= 1 && (out != [] ==> out[0] != Okay(x1, y1))
    requires pop ==> yx != [] && !To(yx[0], x1)
    ensures Pair(Y, X', Popped(yx, pop), xy + out, y1, x1)
  {
    if out != [] { assert out == [out[0]]; Append(xy, out[0], x1, y1); } else { assert xy + out == xy; }
    PopView(yx, xy + out, y1, x1, pop);
  }

  lemma PairsBackward(X: Endpoint, Y: Endpoint, xy: seq<Packet>, yx: seq<Packet>,
                      x: nat, y: nat, s: Sock, out: seq<Packet>, pop: bool, X': Endpoint)
    requires Pairs(Y, X, yx, xy)
    requires Local(X, Y, xy, yx, x, y, s, out, pop, X')
    requires AllKnown(yx, Y.socks.Keys, X.socks.Keys)
    requires y in Y.socks ==> Pair(Y, X', Popped(yx, pop), xy + out, y, x)
    ensures Pairs(Y, X', Popped(yx, pop), xy + out)
  {
    hide Flow, Data, SockWf;
    var xy', yx' := xy + out, Popped(yx, pop);
    forall y1, x1 | y1 in Y.socks && x1 in X'.socks ensures Pair(Y, X', yx', xy', y1, x1) {
      if x1 != x {
        assert Pair(Y, X, yx, xy, y1, x1);
        BackwardOther(Y, X, X', yx, xy, x, out, pop, y1, x1);
      } else if y1 != y {
        if x in X.socks {
          assert Pair(Y, X, yx, xy, y1, x);
        } else {
          FreshReceiver(yx, Y.socks.Keys, X.socks.Keys, x);
          NoneTo(yx, y1, x);
        }
        Unrelated(y1, Y.socks[y1], Y.online, x, s, X.online, ViewOf(yx', xy', y1, x));
      }
    }
  }

  lemma TableForward(X: Endpoint, far: set<nat>, x: nat, s: Sock, X': Endpoint)
    requires EndWf(X) && Injective(X, far)
    requires X' == X.(socks := X.socks[x := s], nextId := if x in X.socks then X.nextId else X.nextId + 1)
    requires x in X.socks || x == X.nextId
    requires SockWf(s) && (!X.online && s.status.Live? ==> s.partner.None?)
    requires s.partner.Some? ==> s.partner.value in far
    requires s.partner.Some? ==> forall x1 <- X.socks :: X.socks[x1].partner == s.partner ==> x1 == x
    ensures EndWf(X') && Injective(X', far)
  {}

  lemma OpensForward(X: Endpoint, Y: Endpoint, xy: seq<Packet>, yx: seq<Packet>,
                     x: nat, s: Sock, out: seq<Packet>, pop: bool, X': Endpoint)
    requires Opens(X, xy, yx) && AllKnown(xy, X.socks.Keys, Y.socks.Keys)
    requires X'.socks == X.socks[x := s] && |out| <= 1 && (pop ==> yx != [])
    requires out != [] && out[0].Open? ==>
      out[0].from == x && x !in X.socks && s.partner.None? && !s.heard && ToCount(yx, x) == 0
    requires x in X.socks && OpenCount(xy, x) > 0 ==> s.partner.None? && !s.heard
    ensures Opens(X', xy + out, Popped(yx, pop))
  {
    forall x1 <- X'.socks
      ensures OpenCount(xy + out, x1) <= 1
      ensures OpenCount(xy + out, x1) > 0 ==>
        X'.socks[x1].partner.None? && !X'.socks[x1].heard && ToCount(Popped(yx, pop), x1) == 0
    {
      if out != [] { assert out == [out[0]]; AppendTo(xy, out[0], x1); } else { assert xy + out == xy; }
      if x1 !in X.socks { FreshSender(xy, X.socks.Keys, Y.socks.Keys, x1, 0); }
      assert ToCount(Popped(yx, pop), x1) <= ToCount(yx, x1);
    }
  }

  lemma ChannelForward(senders: set<nat>, senders': set<nat>, receivers: set<nat>, xy: seq<Packet>, out: seq<Packet>)
    requires AllKnown(xy, senders, receivers) && ClseLast(xy) && senders <= senders' && |out| <= 1
    requires out != [] ==> Known(out[0], senders', receivers)
    requires out != [] && !out[0].Open? ==> ClseCount(xy, out[0].to) == 0
    ensures AllKnown(xy + out, senders', receivers) && ClseLast(xy + out)
  {
    forall i | 0 <= i < |xy| ensures Known(xy[i], senders', receivers) {
      assert Known(xy[i], senders, receivers);
    }
    if out != [] {
      assert out == [out[0]];
      ClseLastAppend(xy, out[0]);
    } else {
      assert xy + out == xy;
    }
  }

  lemma ShapeForward(X: Endpoint, Y: Endpoint, xy: seq<Packet>, yx: seq<Packet>,
                     x: nat, y: nat, s: Sock, out: seq<Packet>, pop: bool, X': Endpoint)
    requires Shape(X, Y, xy, yx)
    requires Local(X, Y, xy, yx, x, y, s, out, pop, X')
    requires out != [] && !out[0].Open? ==> ClseCount(xy, y) == 0
    requires out != [] && out[0].Open? ==> x !in X.socks && s.partner.None? && !s.heard && ToCount(yx, x) == 0
    requires x in X.socks && OpenCount(xy, x) > 0 ==> s.partner.None? && !s.heard
    requires s.partner.Some? ==> forall x1 <- X.socks :: X.socks[x1].partner == s.partner ==> x1 == x
    ensures Shape(X', Y, xy + out, Popped(yx, pop))
  {
    TableForward(X, Y.socks.Keys, x, s, X');
    OpensForward(X, Y, xy, yx, x, s, out, pop, X');
    ChannelForward(X.socks.Keys, X'.socks.Keys, Y.socks.Keys, xy, out);
  }

  lemma ShapeBackward(X: Endpoint, Y: Endpoint, xy: seq<Packet>, yx: seq<Packet>,
                      x: nat, y: nat, s: Sock, out: seq<Packet>, pop: bool, X': Endpoint)
    requires Shape(Y, X, yx, xy)
    requires Local(X, Y, xy, yx, x, y, s, out, pop, X')
    requires out != [] && !out[0].Open? ==> OpenCount(Popped(yx, pop), y) == 0
    ensures Shape(Y, X', Popped(yx, pop), xy + out)
  {
    var xy', yx' := xy + out, Popped(yx, pop);
    forall y1 <- Y.socks
      ensures OpenCount(yx', y1) <= 1
      ensures OpenCount(yx', y1) > 0 ==> Y.socks[y1].partner.None? && !Y.socks[y1].heard && ToCount(xy', y1) == 0
    {
      if out != [] { assert out == [out[0]]; AppendTo(xy, out[0], y1); } else { assert xy' == xy; }
    }
    forall i | 0 <= i < |yx'| ensures Known(yx'[i], Y.socks.Keys, X'.socks.Keys) {
      assert pop ==> yx'[i] == yx[i + 1];
    }
  }

  /** The whole invariant survives a step of one socket once the pair it belongs to does. */
  lemma LocalStep(X: Endpoint, Y: Endpoint, xy: seq<Packet>, yx: seq<Packet>,
                  x: nat, y: nat, s: Sock, out: seq<Packet>, pop: bool, X': Endpoint)
    requires Both(X, Y, xy, yx)
    requires Local(X, Y, xy, yx, x, y, s, out, pop, X')
    requires out != [] && !out[0].Open? ==> ClseCount(xy, y) == 0 && OpenCount(Popped(yx, pop), y) == 0
    requires out != [] && out[0].Open? ==> x !in X.socks && s.partner.None? && !s.heard
    requires x in X.socks && OpenCount(xy, x) > 0 ==> s.partner.None? && !s.heard
    requires s.partner.Some? ==> forall x1 <- X.socks :: X.socks[x1].partner == s.partner ==> x1 == x
    requires y in Y.socks ==> Pair(X', Y, xy + out, Popped(yx, pop), x, y)
    requires y in Y.socks ==> Pair(Y, X', Popped(yx, pop), xy + out, y, x)
    ensures Both(X', Y, xy + out, Popped(yx, pop))
  {
    if x !in X.socks { FreshReceiver(yx, Y.socks.Keys, X.socks.Keys, x); }
    ShapeForward(X, Y, xy, yx, x, y, s, out, pop, X');
    ShapeBackward(X, Y, xy, yx, x, y, s, out, pop, X');
    PairsForward(X, Y, xy, yx, x, y, s, out, pop, X');
    PairsBackward(X, Y, xy, yx, x, y, s, out, pop, X');
  }
}
