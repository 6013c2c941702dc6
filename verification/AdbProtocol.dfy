/** Whole runs of two ADB endpoints over FIFO channels: token conservation and stream fidelity. */
module AdbProtocol {
  import opened Bytes
  import opened Packets
  import opened AdbEndpoint
  import opened AdbSystem
  import opened AdbSteps

  datatype Side = Left | Right

  /** What an endpoint can do next; every outcome of the operating system is an argument. */
  datatype Action =
    | Dial
    | Deliver(w: Wrote, service: bool)
    | Poll(x: nat, evW: bool, evR: bool, w: Wrote, data: seq<Byte>, eof: bool)
    | Shut(x: nat)
    | Lose

  datatype Step = Step(side: Side, action: Action)

  datatype Sys = Sys(left: Endpoint, right: Endpoint, lr: seq<Packet>, rl: seq<Packet>)

  /** What the dispatcher can deliver to a socket, as AdbEvents derives it: write events while writing is wanted;
      read events while reading is wanted, any number of them while the socket lingers, and at any time one that
      stands for a bad descriptor, on which the read then fails. */
  predicate Enabled(ep: Endpoint, inq: seq<Packet>, a: Action) {
    match a
    case Dial => true
    case Deliver(w, _) =>
      inq != [] && (inq[0].Wrte? && IsLive(ep, inq[0].to) && ep.socks[inq[0].to].queue == []
                    ==> Possible(w, |inq[0].data|))
    case Poll(x, evW, evR, w, data, eof) =>
      && x in ep.socks && !ep.socks[x].status.Gone?
      && (evW ==> ep.socks[x].writeOn && Possible(w, |Flat(ep.socks[x].queue)|))
      && (evR ==> ep.socks[x].readOn || ep.socks[x].status.Lingering? || (data == [] && eof))
      && |data| <= MAX_PAYLOAD
    case Shut(x) => IsLive(ep, x)
    case Lose => true
  }

  function Act(ep: Endpoint, inq: seq<Packet>, a: Action): Result
    requires Enabled(ep, inq, a)
  {
    match a
    case Dial => Connect(ep)
    case Deliver(w, service) => HandlePacket(ep, inq[0], w, service)
    case Poll(x, evW, evR, w, data, eof) => SocketEvent(ep, x, evW, evR, w, data, eof)
    case Shut(x) => CloseSocket(ep, x, false)
    case Lose => Result(GoOffline(ep), [])
  }

  /** The end a step happens at, the other end, and the channels out of and into it. */
  function Here(s: Sys, side: Side): Endpoint { if side.Left? then s.left else s.right }

  function There(s: Sys, side: Side): Endpoint { if side.Left? then s.right else s.left }

  function Out(s: Sys, side: Side): seq<Packet> { if side.Left? then s.lr else s.rl }

  function In(s: Sys, side: Side): seq<Packet> { if side.Left? then s.rl else s.lr }

  predicate CanStep(s: Sys, st: Step) {
    Enabled(Here(s, st.side), In(s, st.side), st.action)
  }

  function Next(s: Sys, st: Step): Sys
    requires CanStep(s, st)
  {
    var r := Act(Here(s, st.side), In(s, st.side), st.action);
    var out := Out(s, st.side) + r.out;
    var inq := Popped(In(s, st.side), st.action.Deliver?);
    if st.side.Left? then Sys(r.ep, s.right, out, inq) else Sys(s.left, r.ep, inq, out)
  }

  const EMPTY := Endpoint(map[], 1, true)

  const START := Sys(EMPTY, EMPTY, [], [])

  predicate CanRun(s: Sys, run: seq<Step>)
    decreases |run|
  {
    run == [] || (CanStep(s, run[0]) && CanRun(Next(s, run[0]), run[1..]))
  }

  function After(s: Sys, run: seq<Step>): Sys
    requires CanRun(s, run)
    decreases |run|
  {
    if run == [] then s else After(Next(s, run[0]), run[1..])
  }

  ghost predicate Inv(s: Sys) {
    Both(s.left, s.right, s.lr, s.rl)
  }

  // ---------------------------------------------------------------- every action keeps the invariant

  lemma Seq3(a: seq<Packet>, b: seq<Packet>, c: seq<Packet>)
    ensures (a + b) + c == a + (b + c)
    ensures a + [] == a
  {}

  /** Writing the backlog of `x`, and nothing else. */
  lemma WritableKeeps(X: Endpoint, Y: Endpoint, xy: seq<Packet>, yx: seq<Packet>, x: nat, w: Wrote)
    requires Both(X, Y, xy, yx)
    requires x in X.socks && X.socks[x].writeOn && Possible(w, |Flat(X.socks[x].queue)|)
    ensures var d := OnWritable(X, x, w).res; Both(d.ep, Y, xy + d.out, yx)
  {
    hide Pairs, Injective, Opens, AllKnown, ClseLast;
    var s := X.socks[x];
    var s1 := Advance(s, w.count);
    OneLeft(s, w.count);
    Seq3(xy, [], []);
    assert SockWf(s);
    if w.broken {
      DrainPart(X, Y, xy, yx, x, w.count);
      var X1 := With(X, x, s1);
      assert With(X1, x, Closed(s1, false)) == With(X, x, Closed(s1, false));
      if s.status.Live? {
        CloseOwn(X1, Y, xy, yx, x, Closed(s1, false));
      } else {
        LingerEnds(X1, Y, xy, yx, x, Closed(s1, false));
      }
    } else if w.count < |Flat(s.queue)| {
      DrainPart(X, Y, xy, yx, x, w.count);
    } else if s.status.Lingering? {
      LingerEnds(X, Y, xy, yx, x, s1.(status := Gone, writeOn := false));
    } else {
      DrainAll(X, Y, xy, yx, x);
    }
  }

  lemma ReadableKeeps(X: Endpoint, Y: Endpoint, xy: seq<Packet>, yx: seq<Packet>, x: nat, data: seq<Byte>, eof: bool)
    requires Both(X, Y, xy, yx)
    requires x in X.socks && !X.socks[x].status.Gone?
    requires X.socks[x].readOn || X.socks[x].status.Lingering? || (data == [] && eof)
    ensures var d := OnReadable(X, x, data, eof); Both(d.ep, Y, xy + d.out, yx)
  {
    hide Pairs, Injective, Opens, AllKnown, ClseLast;
    var s := X.socks[x];
    Seq3(xy, [], []);
    assert SockWf(s);
    assert With(X, x, s) == X by { assert X.socks[x := s] == X.socks; }
    if s.status.Lingering? {
      if eof { LingerEnds(X, Y, xy, yx, x, Closed(s, false)); }
    } else {
      var X1, s1, out := X, s, [];
      if data != [] {
        ReadSend(X, Y, xy, yx, x, data);
        s1, out := s.(sent := s.sent + data, readOn := false), [Wrte(x, s.partner.value, data)];
        X1 := With(X, x, s1);
      }
      if eof {
        Seq3(xy, out, ClosePacket(s1));
        assert With(X1, x, Closed(s1, false)) == With(X, x, Closed(s1, false));
        CloseOwn(X1, Y, xy + out, yx, x, Closed(s1, false));
      }
    }
  }

  lemma PollKeeps(X: Endpoint, Y: Endpoint, xy: seq<Packet>, yx: seq<Packet>, a: Action)
    requires Both(X, Y, xy, yx) && a.Poll? && Enabled(X, yx, a)
    ensures var r := Act(X, yx, a); Both(r.ep, Y, xy + r.out, yx)
  {
    var Poll(x, evW, evR, w, data, eof) := a;
    var d := if evW then OnWritable(X, x, w) else Drained(Result(X, []), true);
    Seq3(xy, [], []);
    assert SockWf(X.socks[x]);
    if evW { WritableKeeps(X, Y, xy, yx, x, w); }
    if evR && d.go {
      ReadableKeeps(d.res.ep, Y, xy + d.res.out, yx, x, data, eof);
      Seq3(xy, d.res.out, OnReadable(d.res.ep, x, data, eof).out);
    }
  }

  /** A WRTE is taken as a backlog and the backlog is then written as far as it goes. */
  lemma WrteKeeps(X: Endpoint, Y: Endpoint, xy: seq<Packet>, yx: seq<Packet>, w: Wrote)
    requires Both(X, Y, xy, yx)
    requires yx != [] && yx[0].Wrte? && X.online && IsLive(X, yx[0].to)
    requires X.socks[yx[0].to].queue == [] ==> Possible(w, |yx[0].data|)
    ensures var r := GotWrte(X, yx[0].from, yx[0].to, yx[0].data, w); Both(r.ep, Y, xy + r.out, yx[1..])
  {
    var Wrte(y, x, data) := yx[0];
    var s := X.socks[x];
    TakeWrte(X, Y, xy, yx);
    assert Known(yx[0], Y.socks.Keys, X.socks.Keys);
    var s1 := s.(queue := [data], writeOn := true);
    var X1, s2 := With(X, x, s1), Advance(s1, w.count);
    QueueThenWrite(s, data, w.count);
    Seq3(xy, [], []);
    if w.count == |data| {
      DrainAll(X1, Y, xy, yx[1..], x);
    } else {
      DrainPart(X1, Y, xy, yx[1..], x, w.count);
      if w.broken {
        CloseOwn(With(X1, x, s2), Y, xy, yx[1..], x, s2.(status := Gone, readOn := false, failed := true,
            writeOn := false));
      }
    }
    WithTwice(X, x, s1, s2);
    WithTwice(X, x, s1, s2.(writeOn := false));
    WithTwice(X, x, s2, s2.(status := Gone, readOn := false, failed := true, writeOn := false));
  }

  lemma QueueThenWrite(s: Sock, data: seq<Byte>, k: nat)
    requires s.queue == [] && k <= |data|
    ensures Flat([data]) == data
    ensures Advance(s.(queue := [data], writeOn := true), k)
         == s.(written := s.written + data[..k], queue := if k == |data| then [] else [data[k..]], writeOn := true)
  {
    assert Flat([data]) == data + Flat([]);
    assert [data][1..] == [] && DropBytes([], 0) == [];
  }

  lemma WithTwice(X: Endpoint, x: nat, s1: Sock, s2: Sock)
    ensures With(With(X, x, s1), x, s2) == With(X, x, s2)
  {
    assert X.socks[x := s1][x := s2] == X.socks[x := s2];
  }

  lemma DeliverKeeps(X: Endpoint, Y: Endpoint, xy: seq<Packet>, yx: seq<Packet>, a: Action)
    requires Both(X, Y, xy, yx) && a.Deliver? && Enabled(X, yx, a)
    ensures var r := Act(X, yx, a); Both(r.ep, Y, xy + r.out, yx[1..])
  {
    Seq3(xy, [], []);
    if yx[0].Open? {
      if X.online && a.service {
        AcceptStep(X, Y, xy, yx);
      } else {
        OpenGoes(X, Y, xy, yx, X.online);
      }
    } else if !X.online || !IsLive(X, yx[0].to) {
      DropLate(X, Y, xy, yx);
    } else {
      match yx[0]
      case Okay(_, _) =>
        assert Known(yx[0], Y.socks.Keys, X.socks.Keys);
        TakeOkay(X, Y, xy, yx);
      case Clse(_, _) => TakeClse(X, Y, xy, yx);
      case Wrte(_, _, _) => WrteKeeps(X, Y, xy, yx, a.w);
    }
  }

  lemma ActKeeps(X: Endpoint, Y: Endpoint, xy: seq<Packet>, yx: seq<Packet>, a: Action)
    requires Both(X, Y, xy, yx) && Enabled(X, yx, a)
    ensures var r := Act(X, yx, a); Both(r.ep, Y, xy + r.out, Popped(yx, a.Deliver?))
  {
    Seq3(xy, [], []);
    match a
    case Dial => ConnectStep(X, Y, xy, yx);
    case Deliver(_, _) => DeliverKeeps(X, Y, xy, yx, a);
    case Poll(_, _, _, _, _, _) => PollKeeps(X, Y, xy, yx, a);
    case Shut(x) => CloseOwn(X, Y, xy, yx, x, Closed(X.socks[x], false));
    case Lose => OfflineStep(X, Y, xy, yx);
  }

  lemma NextKeeps(s: Sys, st: Step)
    requires Inv(s) && CanStep(s, st)
    ensures Inv(Next(s, st))
  {
    ActKeeps(Here(s, st.side), There(s, st.side), Out(s, st.side), In(s, st.side), st.action);
  }

  lemma {:induction false} RunKeeps(s: Sys, run: seq<Step>)
    requires Inv(s) && CanRun(s, run)
    ensures Inv(After(s, run))
    decreases |run|
  {
    if run != [] {
      NextKeeps(s, run[0]);
      RunKeeps(Next(s, run[0]), run[1..]);
    }
  }

  // ---------------------------------------------------------------- what the invariant means for runs

  /** Socket `x` of one end and socket `y` of the other are the two ends of one open stream. */
  predicate Established(s: Sys, side: Side, x: nat, y: nat) {
    && IsLive(Here(s, side), x) && IsLive(There(s, side), y)
    && Here(s, side).socks[x].partner == Some(y) && There(s, side).socks[y].partner == Some(x)
  }

  /** Flow control: each direction of an open stream has exactly one token, so at most one WRTE is
      unacknowledged and the receiver queues at most one packet. */
  lemma TokenConservation(run: seq<Step>, side: Side, x: nat, y: nat)
    requires CanRun(START, run) && Established(After(START, run), side, x, y)
    ensures var s := After(START, run);
      && B2N(Here(s, side).socks[x].readOn) + WrteCount(Out(s, side), x, y)
         + |There(s, side).socks[y].queue| + OkayCount(In(s, side), y, x) == 1
      && B2N(There(s, side).socks[y].readOn) + WrteCount(In(s, side), y, x)
         + |Here(s, side).socks[x].queue| + OkayCount(Out(s, side), x, y) == 1
  {
    RunKeeps(START, run);
    var s := After(START, run);
    assert Pair(Here(s, side), There(s, side), Out(s, side), In(s, side), x, y);
    assert Pair(There(s, side), Here(s, side), In(s, side), Out(s, side), y, x);
  }

  /** Stream fidelity from `x` here to `y` there: what reached the fd, what is queued and what
      is in flight make up what was sent; whatever happens, only a prefix is ever written. */
  lemma Fidelity(run: seq<Step>, side: Side, x: nat, y: nat)
    requires CanRun(START, run)
    requires var s := After(START, run);
      x in Here(s, side).socks && y in There(s, side).socks && There(s, side).socks[y].partner == Some(x)
    ensures var s := After(START, run);
      var sx, sy := Here(s, side).socks[x], There(s, side).socks[y];
      && sy.written <= sx.sent
      && (sy.status.Live? ==> sx.sent == sy.written + Flat(sy.queue) + Payload(Out(s, side), x, y))
      && (sy.heard ==> sx.sent == sy.written + Flat(sy.queue))
  {
    RunKeeps(START, run);
    var s := After(START, run);
    assert Pair(Here(s, side), There(s, side), Out(s, side), In(s, side), x, y);
    assert There(s, side).socks[y].written <= There(s, side).socks[y].written + Flat(There(s, side).socks[y].queue);
  }

  /** A packet that finds a socket on the main list comes from the socket it is linked to, or links it; a CLSE
      finds a socket whose far end is closed, or one whose OPEN no socket of the far end answers; so late packets
      of a closed stream reach no other socket. */
  lemma NoStray(run: seq<Step>, side: Side)
    requires CanRun(START, run)
    requires var s := After(START, run);
      In(s, side) != [] && !In(s, side)[0].Open? && Here(s, side).online && IsLive(Here(s, side), In(s, side)[0].to)
    ensures var s := After(START, run);
      var p, sx := In(s, side)[0], Here(s, side).socks[In(s, side)[0].to];
      && (p.Wrte? ==> sx.partner == Some(p.from) && sx.queue == [])
      && (p.Okay? ==> sx.partner.None? || sx.partner == Some(p.from))
      && (p.Wrte? || p.Okay? ==> p.from in There(s, side).socks && There(s, side).socks[p.from].partner == Some(p.to))
      && (p.Clse? && sx.partner.Some? ==> sx.partner.value in There(s, side).socks
                                          && !There(s, side).socks[sx.partner.value].status.Live?)
      && (p.Clse? && sx.partner.None?
          ==> forall y <- There(s, side).socks :: There(s, side).socks[y].partner != Some(p.to))
  {
    RunKeeps(START, run);
    var s := After(START, run);
    var p, x := In(s, side)[0], In(s, side)[0].to;
    var sx := Here(s, side).socks[x];
    assert Known(p, There(s, side).socks.Keys, Here(s, side).socks.Keys);
    if !p.Clse? {
      var y := p.from;
      assert Pair(Here(s, side), There(s, side), Out(s, side), In(s, side), x, y);
      assert Pair(There(s, side), Here(s, side), In(s, side), Out(s, side), y, x);
      assert SockWf(sx);
      if p.Okay? {
        PairTakeOkay(x, sx, y, There(s, side).socks[y], There(s, side).online, Out(s, side), In(s, side));
      } else {
        PairTakeWrte(x, sx, y, There(s, side).socks[y], There(s, side).online, Out(s, side), In(s, side));
      }
    } else if sx.partner.Some? {
      var y := sx.partner.value;
      assert Pair(Here(s, side), There(s, side), Out(s, side), In(s, side), x, y);
      assert Pair(There(s, side), Here(s, side), In(s, side), Out(s, side), y, x);
    } else {
      forall y <- There(s, side).socks ensures There(s, side).socks[y].partner != Some(x) {
        assert Pair(There(s, side), Here(s, side), In(s, side), Out(s, side), y, x);
      }
    }
  }

  /** The peer a drained socket calls ready on is never missing. */
  lemma PeerPresent(run: seq<Step>, side: Side, x: nat)
    requires CanRun(START, run)
    requires var s := After(START, run);
      IsLive(Here(s, side), x) && (Here(s, side).socks[x].writeOn || Here(s, side).socks[x].readOn)
    ensures Here(After(START, run), side).socks[x].partner.Some?
  {
    RunKeeps(START, run);
    assert SockWf(Here(After(START, run), side).socks[x]);
  }

  // ---------------------------------------------------------------- where fidelity ends

  const NO_WRITE := Wrote(0, false)

  /** The sender reads one byte and EOF; the receiver's fd would block; the CLSE makes the receiver
      linger; then a read event that was already pending finds EOF on the receiver's fd. */
  const DIALS := Step(Left, Dial)
  const TAKES := Step(Right, Deliver(NO_WRITE, true))
  const LINKS := Step(Left, Deliver(NO_WRITE, true))
  const SENDS := Step(Left, Poll(1, false, true, NO_WRITE, [7], true))
  const ENDS := Step(Right, Poll(1, false, true, NO_WRITE, [], true))

  const STALE_RUN: seq<Step> := [DIALS, TAKES] + ([LINKS, SENDS] + ([TAKES, TAKES] + [ENDS]))

  lemma TwoSteps(s: Sys, a: Step, b: Step, t: Sys, rest: seq<Step>)
    requires CanStep(s, a) && CanStep(Next(s, a), b) && Next(Next(s, a), b) == t && CanRun(t, rest)
    ensures CanRun(s, [a, b] + rest) && After(s, [a, b] + rest) == After(t, rest)
  {
    assert ([a, b] + rest)[1..] == [b] + rest;
    assert ([b] + rest)[1..] == rest;
  }

  const LINKED: Sock := NewSock(Some(1), true)
  const SENT_ALL: Sock := LINKED.(readOn := false, sent := [7], status := Gone, failed := true)
  const BACKLOGGED: Sock := LINKED.(status := Lingering, readOn := false, writeOn := true, queue := [[7]],
      heard := true)

  function One(s: Sock): Endpoint { Endpoint(map[1 := s], 2, true) }

  const OPENED: Sys := Sys(One(NewSock(None, false)), One(LINKED), [], [Okay(1, 1)])
  const HUNG: Sys := Sys(One(SENT_ALL), One(LINKED), [Wrte(1, 1, [7]), Clse(0, 1)], [])
  const STUCK: Sys := Sys(One(SENT_ALL), One(BACKLOGGED), [], [Clse(0, 1)])

  lemma StaleOpens()
    ensures CanStep(START, DIALS) && CanStep(Next(START, DIALS), TAKES)
    ensures Next(Next(START, DIALS), TAKES) == OPENED
  {}

  lemma StaleSends()
    ensures CanStep(OPENED, LINKS) && CanStep(Next(OPENED, LINKS), SENDS)
    ensures Next(Next(OPENED, LINKS), SENDS) == HUNG
  {
    var s3 := Sys(One(LINKED), One(LINKED), [], []);
    assert Next(OPENED, LINKS) == s3;
    assert Next(s3, SENDS).left.socks[1] == SENT_ALL;
  }

  lemma StaleQueues()
    ensures CanStep(HUNG, TAKES) && CanStep(Next(HUNG, TAKES), TAKES)
    ensures Next(Next(HUNG, TAKES), TAKES) == STUCK
  {
    var d: seq<Byte> := [7];
    assert d[0..] == d && LINKED.written + d[..0] == [];
    var s5 := Sys(One(SENT_ALL), One(LINKED.(queue := [[7]], writeOn := true)), [Clse(0, 1)], []);
    assert Next(HUNG, TAKES).right.socks[1] == s5.right.socks[1];
    assert Next(HUNG, TAKES) == s5;
    assert Next(s5, TAKES).right.socks[1] == BACKLOGGED;
  }

  lemma StaleEnds()
    ensures CanRun(STUCK, [ENDS])
    ensures After(STUCK, [ENDS]) == Sys(One(SENT_ALL), One(BACKLOGGED.(status := Gone, writeOn := false,
        failed := true)),
                                        [], [Clse(0, 1)])
  {
    assert [ENDS][1..] == [];
    assert Next(STUCK, ENDS).right.socks[1] == BACKLOGGED.(status := Gone, writeOn := false, failed := true);
  }

  /** No write ever failed and only the sender closed on its own, yet a byte is lost: an EOF seen by the
      lingering receiver destroys it with its queue. */
  lemma StaleReadLosesData()
    ensures CanRun(START, STALE_RUN)
    ensures var s := After(START, STALE_RUN);
      && 1 in s.left.socks && s.left.socks[1].sent == [7]
      && 1 in s.right.socks && s.right.socks[1].partner == Some(1)
      && s.right.socks[1].status.Gone? && s.right.socks[1].heard
      && s.right.socks[1].written == [] && s.right.socks[1].queue == [[7]]
  {
    StaleOpens();
    StaleSends();
    StaleQueues();
    StaleEnds();
    TwoSteps(HUNG, TAKES, TAKES, STUCK, [ENDS]);
    TwoSteps(OPENED, LINKS, SENDS, HUNG, [TAKES, TAKES] + [ENDS]);
    TwoSteps(START, DIALS, TAKES, OPENED, [LINKS, SENDS] + ([TAKES, TAKES] + [ENDS]));
  }
}
