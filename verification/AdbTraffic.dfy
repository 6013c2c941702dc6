/** What the steps of a run do to a socket, told from the steps themselves: which of them create, close and destroy
    it, and what it has sent and written, counted from their reads and writes. */
module AdbTraffic {
  import opened Bytes
  import opened Packets
  import opened AdbEndpoint
  import opened AdbSystem
  import opened AdbSteps
  import opened AdbProtocol
  import opened AdbDelivery

  /** The write half of the event func ends with an empty queue, or there is none. */
  predicate WritesThrough(k: Sock, a: Action)
    requires a.Poll?
  {
    a.evW ==> !a.w.broken && a.w.count == |Flat(k.queue)|
  }

  /** What a step reads from the fd of `y` for its peer: read half reached, socket live and linked. */
  function ReadIn(s: Sys, st: Step, at: Side, y: nat): seq<Byte> {
    if st.side == at && st.action.Poll? && st.action.x == y && IsLive(Here(s, at), y)
       && Here(s, at).socks[y].partner.Some? && st.action.evR && WritesThrough(Here(s, at).socks[y], st.action)
    then st.action.data
    else []
  }

  /** How many bytes the fd of `y` accepts in a step: from its backlog, or from a packet that arrives. */
  function AcceptedIn(s: Sys, st: Step, at: Side, y: nat): nat
    requires CanStep(s, st)
  {
    if st.side != at then 0
    else match st.action
      case Poll(x, evW, _, w, _, _) => if x == y && evW then w.count else 0
      case Deliver(w, _) =>
        if Here(s, at).online && In(s, at)[0].Wrte? && In(s, at)[0].to == y && IsLive(Here(s, at), y)
           && Here(s, at).socks[y].queue == []
        then w.count else 0
      case _ => 0
  }

  function AllRead(s: Sys, run: seq<Step>, at: Side, y: nat): seq<Byte>
    requires CanRun(s, run)
    decreases |run|
  {
    if run == [] then [] else ReadIn(s, run[0], at, y) + AllRead(Next(s, run[0]), run[1..], at, y)
  }

  function AllAccepted(s: Sys, run: seq<Step>, at: Side, y: nat): nat
    requires CanRun(s, run)
    decreases |run|
  {
    if run == [] then 0 else AcceptedIn(s, run[0], at, y) + AllAccepted(Next(s, run[0]), run[1..], at, y)
  }

  // ---------------------------------------------------------------- one step

  /** Socket `y` sends `d` and has `n` more bytes written. */
  predicate Moves(e: map<nat, Sock>, e': map<nat, Sock>, y: nat, d: seq<Byte>, n: nat) {
    if y in e then y in e' && e'[y].sent == e[y].sent + d && |e'[y].written| == |e[y].written| + n
    else if y in e' then e'[y].sent == d && |e'[y].written| == n
    else d == [] && n == 0
  }

  lemma PollMoves(ep: Endpoint, inq: seq<Packet>, a: Action)
    requires a.Poll? && Enabled(ep, inq, a) && a.x in ep.socks
    ensures var k := ep.socks[a.x];
      Moves(ep.socks, Act(ep, inq, a).ep.socks, a.x,
            if k.status.Live? && k.partner.Some? && a.evR && WritesThrough(k, a) then a.data else [],
            if a.evW then a.w.count else 0)
  {
    hide Flat, DropBytes;
  }

  lemma PollSpares(ep: Endpoint, inq: seq<Packet>, a: Action, y: nat)
    requires a.Poll? && a.x != y && Enabled(ep, inq, a)
    ensures Moves(ep.socks, Act(ep, inq, a).ep.socks, y, [], 0)
  {
    PollChanges(ep, inq, a);
    hide Act, Enabled;
  }

  lemma DeliverMoves(ep: Endpoint, inq: seq<Packet>, a: Action, y: nat)
    requires a.Deliver? && Enabled(ep, inq, a) && ep.nextId !in ep.socks
    ensures Moves(ep.socks, Act(ep, inq, a).ep.socks, y, [],
                  if ep.online && inq[0].Wrte? && inq[0].to == y && IsLive(ep, y) && ep.socks[y].queue == []
                  then a.w.count else 0)
  {
    hide Flat, DropBytes;
  }

  lemma OtherMoves(ep: Endpoint, inq: seq<Packet>, a: Action, y: nat)
    requires !a.Poll? && !a.Deliver? && Enabled(ep, inq, a) && ep.nextId !in ep.socks
    ensures Moves(ep.socks, Act(ep, inq, a).ep.socks, y, [], 0)
  {}

  lemma NextIsFree(s: Sys, at: Side)
    requires Inv(s)
    ensures Here(s, at).nextId !in Here(s, at).socks
  {
    assert EndWf(Here(s, at));
  }

  lemma NoneMoves(e: map<nat, Sock>, y: nat)
    ensures Moves(e, e, y, [], 0)
  {}

  lemma StepMoves(s: Sys, st: Step, at: Side, y: nat)
    requires Inv(s) && CanStep(s, st)
    ensures Moves(Here(s, at).socks, Here(Next(s, st), at).socks, y, ReadIn(s, st, at, y), AcceptedIn(s, st, at, y))
  {
    var ep, inq, a := Here(s, at), In(s, at), st.action;
    NextIsFree(s, at);
    hide Inv, Act, Enabled, Moves, Flat;
    if st.side != at {
      NoneMoves(ep.socks, y);
    } else {
      match a
      case Poll(x, _, _, _, _, _) =>
        if x == y { PollMoves(ep, inq, a); } else { PollSpares(ep, inq, a, y); }
      case Deliver(_, _) => DeliverMoves(ep, inq, a, y);
      case _ => OtherMoves(ep, inq, a, y);
    }
  }

  // ---------------------------------------------------------------- creation, closing and destruction

  /** The steps that take a live socket `y` off the main list. */
  predicate Closes(ep: Endpoint, inq: seq<Packet>, a: Action, y: nat)
    requires Enabled(ep, inq, a) && y in ep.socks
  {
    match a
    case Dial => false
    case Deliver(w, _) =>
      ep.online && !inq[0].Open? && inq[0].to == y
      && (inq[0].Clse? || (inq[0].Wrte? && ep.socks[y].queue == [] && w.broken))
    case Poll(x, evW, evR, w, _, eof) =>
      x == y && ((evW && w.broken) || (evR && eof && WritesThrough(ep.socks[y], a)))
    case Shut(x) => x == y
    case Lose => ep.socks[y].partner.Some?
  }

  /** The steps that destroy a socket `y` on the closing list: its writes fail or empty the queue, or its fd, without
      a write event, reads end of file. */
  predicate Destroys(ep: Endpoint, a: Action, y: nat)
    requires y in ep.socks
  {
    a.Poll? && a.x == y
    && if a.evW then a.w.broken || a.w.count == |Flat(ep.socks[y].queue)| else a.evR && a.eof
  }

  /** What is left of the backlog of `y` after the writes of a step. */
  function Backlog(ep: Endpoint, a: Action, y: nat): int
    requires y in ep.socks
  {
    |Flat(ep.socks[y].queue)| - if a.Poll? && a.x == y && a.evW then a.w.count else 0
  }

  predicate Passes(ep: Endpoint, inq: seq<Packet>, a: Action, e': map<nat, Sock>, y: nat)
    requires Enabled(ep, inq, a) && y in ep.socks
  {
    && y in e'
    && match ep.socks[y].status
       case Live => e'[y].status == if !Closes(ep, inq, a, y) then Live else if Backlog(ep, a, y) > 0 then Lingering
                                    else Gone
       case Lingering => e'[y].status == if Destroys(ep, a, y) then Gone else Lingering
       case Gone => e'[y].status == Gone
  }

  lemma PollPasses(ep: Endpoint, inq: seq<Packet>, a: Action)
    requires a.Poll? && Enabled(ep, inq, a) && EndWf(ep)
    ensures Passes(ep, inq, a, Act(ep, inq, a).ep.socks, a.x)
  {
    var k := ep.socks[a.x];
    assert SockWf(k);
    if a.evW { OneLeft(k, a.w.count); }
    if k.queue != [] { assert Flat(k.queue) == k.queue[0] + Flat(k.queue[1..]); }
    hide EndWf, Flat, DropBytes;
  }

  lemma DeliverPasses(ep: Endpoint, inq: seq<Packet>, a: Action, y: nat)
    requires a.Deliver? && Enabled(ep, inq, a) && y in ep.socks && SockWf(ep.socks[y]) && ep.nextId !in ep.socks
    ensures Passes(ep, inq, a, Act(ep, inq, a).ep.socks, y)
  {
    var k := ep.socks[y];
    if k.queue != [] { assert Flat(k.queue) == k.queue[0] + Flat(k.queue[1..]); }
    hide Flat, DropBytes;
  }

  lemma OtherPasses(ep: Endpoint, inq: seq<Packet>, a: Action, y: nat)
    requires !a.Deliver? && !(a.Poll? && a.x == y)
    requires Enabled(ep, inq, a) && y in ep.socks && SockWf(ep.socks[y]) && ep.nextId !in ep.socks
    ensures Passes(ep, inq, a, Act(ep, inq, a).ep.socks, y)
  {
    var k := ep.socks[y];
    if k.queue != [] { assert Flat(k.queue) == k.queue[0] + Flat(k.queue[1..]); }
    if a.Poll? {
      PollChanges(ep, inq, a);
      hide Act, Enabled;
    }
    hide Flat, DropBytes;
  }

  /** Every step of every run: which sockets it creates, and the exact steps that close and destroy one. */
  lemma Lifecycle(run: seq<Step>, st: Step)
    requires CanRun(START, run) && CanStep(After(START, run), st)
    ensures var s := After(START, run);
      var ep, inq, a := Here(s, st.side), In(s, st.side), st.action;
      var ep' := Here(Next(s, st), st.side);
      && There(Next(s, st), st.side) == There(s, st.side)
      && (forall y <- ep.socks :: Passes(ep, inq, a, ep'.socks, y))
      && (forall y :: y in ep'.socks && y !in ep.socks <==>
           y == ep.nextId && (a.Dial? || (a.Deliver? && ep.online && inq[0].Open? && a.service)))
  {
    RunKeeps(START, run);
    var s := After(START, run);
    var ep, inq, a := Here(s, st.side), In(s, st.side), st.action;
    assert EndWf(ep) && ep.nextId !in ep.socks;
    if a.Poll? { PollChanges(ep, inq, a); }
    Creates(ep, inq, a);
    hide Passes, Act, Enabled;
    forall y <- ep.socks ensures Passes(ep, inq, a, Act(ep, inq, a).ep.socks, y) {
      assert SockWf(ep.socks[y]);
      if a.Deliver? {
        DeliverPasses(ep, inq, a, y);
      } else if a.Poll? && a.x == y {
        PollPasses(ep, inq, a);
      } else {
        OtherPasses(ep, inq, a, y);
      }
    }
  }

  lemma Creates(ep: Endpoint, inq: seq<Packet>, a: Action)
    requires Enabled(ep, inq, a) && ep.nextId !in ep.socks
    ensures forall y ::
      y in Act(ep, inq, a).ep.socks && y !in ep.socks <==>
      y == ep.nextId && (a.Dial? || (a.Deliver? && ep.online && inq[0].Open? && a.service))
  {
    if a.Poll? { PollChanges(ep, inq, a); }
    hide Flat, DropBytes, Closed;
  }

  // ---------------------------------------------------------------- whole runs

  lemma MovesTwice(e: map<nat, Sock>, e1: map<nat, Sock>, e2: map<nat, Sock>, y: nat,
                   d1: seq<Byte>, n1: nat, d2: seq<Byte>, n2: nat)
    requires Moves(e, e1, y, d1, n1) && Moves(e1, e2, y, d2, n2)
    ensures Moves(e, e2, y, d1 + d2, n1 + n2)
  {}

  lemma {:induction false} RunMoves(s: Sys, run: seq<Step>, at: Side, y: nat)
    requires Inv(s) && CanRun(s, run)
    ensures Moves(Here(s, at).socks, Here(After(s, run), at).socks, y,
                  AllRead(s, run, at, y), AllAccepted(s, run, at, y))
    decreases |run|
  {
    if run != [] {
      NextKeeps(s, run[0]);
      StepMoves(s, run[0], at, y);
      hide Inv, ReadIn, AcceptedIn, Next, Moves, CanStep;
      var s1 := Next(s, run[0]);
      RunMoves(s1, run[1..], at, y);
      MovesTwice(Here(s, at).socks, Here(s1, at).socks, Here(After(s, run), at).socks, y,
                 ReadIn(s, run[0], at, y), AcceptedIn(s, run[0], at, y),
                 AllRead(s1, run[1..], at, y), AllAccepted(s1, run[1..], at, y));
    }
  }

  /** Every run: a socket has sent exactly what its steps read, in order, and the socket linked to it has written
      exactly as many of these bytes, from the first on, as its steps wrote. */
  lemma Carried(run: seq<Step>, side: Side, x: nat, y: nat)
    requires CanRun(START, run) && Linked(After(START, run), side, x, y)
    ensures var s := After(START, run);
      var read, n := AllRead(START, run, side, x), AllAccepted(START, run, Other(side), y);
      && Here(s, side).socks[x].sent == read
      && n <= |read| && There(s, side).socks[y].written == read[..n]
  {
    RunKeeps(START, []);
    RunMoves(START, run, side, x);
    RunMoves(START, run, Other(side), y);
    Fidelity(run, side, x, y);
  }
}
