/** When the receiver of an ADB stream has written everything: exact conditions on the steps of a run. */
module AdbDelivery {
  import opened Bytes
  import opened Packets
  import opened AdbEndpoint
  import opened AdbSystem
  import opened AdbSteps
  import opened AdbProtocol

  function Other(side: Side): Side {
    if side.Left? then Right else Left
  }

  /** `x` of one end was linked to `y` of the other. */
  predicate Linked(s: Sys, side: Side, x: nat, y: nat) {
    x in Here(s, side).socks && y in There(s, side).socks && There(s, side).socks[y].partner == Some(x)
  }

  /** In any reachable state: a receiver that was told to close, and is gone, wrote everything exactly when it held
      no packets. */
  lemma TailDecides(run: seq<Step>, side: Side, x: nat, y: nat)
    requires CanRun(START, run) && Linked(After(START, run), side, x, y)
    requires There(After(START, run), side).socks[y].heard
    ensures var s := After(START, run); var sx, sy := Here(s, side).socks[x], There(s, side).socks[y];
      && sx.sent == sy.written + Flat(sy.queue) && SockWf(sy) && !sx.status.Live?
      && (sy.written == sx.sent <==> sy.queue == [])
  {
    RunKeeps(START, run);
    var s := After(START, run);
    assert Pair(Here(s, side), There(s, side), Out(s, side), In(s, side), x, y);
    var sy := There(s, side).socks[y];
    assert SockWf(sy);
    TailOrNothing(sy);
  }

  lemma TailOrNothing(sy: Sock)
    requires SockWf(sy)
    ensures sy.written == sy.written + Flat(sy.queue) <==> sy.queue == []
  {
    if sy.queue != [] {
      assert Flat(sy.queue) == sy.queue[0] + Flat(sy.queue[1..]);
      assert |sy.written + Flat(sy.queue)| > |sy.written|;
    } else {
      assert sy.written + Flat(sy.queue) == sy.written;
    }
  }

  // ---------------------------------------------------------------- the step that destroys a lingering socket

  /** The event func destroys the lingering socket `y` before its queue is written out: a write fails, or only a
      read event is delivered and the read loop ends on end of file or an error. */
  predicate CutsShort(s: Sys, st: Step, at: Side, y: nat)
    requires CanStep(s, st)
  {
    st.side == at && st.action.Poll? && st.action.x == y && Here(s, at).socks[y].status.Lingering?
    && if st.action.evW then st.action.w.broken else st.action.evR && st.action.eof
  }

  /** A lingering receiver that was told to close: an event destroys it with everything written exactly when it is
      a write event whose writes take all that is queued. */
  lemma LingerEndsBy(run: seq<Step>, side: Side, x: nat, y: nat, a: Action)
    requires CanRun(START, run) && Linked(After(START, run), side, x, y)
    requires var s := After(START, run);
      && There(s, side).socks[y].status.Lingering? && There(s, side).socks[y].heard
      && a.Poll? && a.x == y && CanStep(s, Step(Other(side), a))
    ensures var s := After(START, run); var sy := There(s, side).socks[y];
      var s' := Next(s, Step(Other(side), a)); var sy' := There(s', side).socks[y];
      var total := |Flat(sy.queue)|;
      && y in There(s', side).socks && Here(s', side) == Here(s, side)
      && (sy'.status.Gone? <==> (a.evW && (a.w.broken || a.w.count == total)) || (!a.evW && a.evR && a.eof))
      && (sy'.status.Gone? ==>
            (sy'.written == Here(s, side).socks[x].sent <==> a.evW && !a.w.broken && a.w.count == total))
  {
    TailDecides(run, side, x, y);
    var sy := There(After(START, run), side).socks[y];
    if a.evW {
      OneLeft(sy, a.w.count);
      PartWritten(sy, a.w.count);
    } else {
      TailOrNothing(sy);
    }
  }

  lemma PartWritten(sy: Sock, k: nat)
    requires SockWf(sy) && k <= |Flat(sy.queue)|
    ensures Advance(sy, k).written == sy.written + Flat(sy.queue) <==> k == |Flat(sy.queue)|
  {
    assert |Advance(sy, k).written| == |sy.written| + k;
    if k == |Flat(sy.queue)| {
      assert Flat(sy.queue)[..k] == Flat(sy.queue);
    }
  }

  // ---------------------------------------------------------------- what a step does to a socket

  /** A step that closes `y`, or destroys it, for a reason of its own end: its fd reached end of file or failed, its
      client shut it, or its transport was lost. */
  predicate OwnReason(s: Sys, st: Step, at: Side, y: nat)
    requires CanStep(s, st)
  {
    st.side == at &&
    match st.action
    case Dial => false
    case Deliver(w, _) => In(s, at)[0].Wrte? && In(s, at)[0].to == y && w.broken
    case Poll(x, evW, evR, w, _, eof) => x == y && ((evW && w.broken) || (evR && eof))
    case Shut(x) => x == y
    case Lose => true
  }

  lemma CutHasReason(s: Sys, st: Step, at: Side, y: nat)
    requires CanStep(s, st) && CutsShort(s, st, at, y)
    ensures OwnReason(s, st, at, y)
  {}

  /** How the socket `y` of one end fares in a step, if it was there before; `cut` says that it is cut short, `own`
      that the step is a reason of its own to close. */
  predicate Fares(k: Sock, k': Sock, cut: bool, own: bool) {
    && (k.status.Gone? ==> k' == k)
    && (!k.status.Live? ==> !k'.status.Live? && k'.heard == k.heard)
    && (k.status.Live? && k'.status.Gone? && k'.heard ==> k'.queue == [])
    && (cut ==> k.status.Lingering? && k'.status.Gone?)
    && (k.status.Lingering? && k'.status.Gone? ==> (k'.queue == [] <==> !cut))
    && (!k.failed && !own ==> !k'.failed)
  }

  predicate AllFare(e: map<nat, Sock>, e': map<nat, Sock>, cut: bool, own: bool, y: nat) {
    && (y in e ==> y in e' && Fares(e[y], e'[y], cut, own))
    && (y !in e ==> !cut && (y in e' ==> e'[y].status.Live? && !e'[y].failed))
  }

  lemma OthersFare(e: map<nat, Sock>, x: nat, k: Sock, own: bool, y: nat)
    requires x != y
    ensures AllFare(e, e[x := k], false, own, y)
  {}

  lemma PollChanges(ep: Endpoint, inq: seq<Packet>, a: Action)
    requires a.Poll? && Enabled(ep, inq, a)
    ensures Act(ep, inq, a).ep.socks == ep.socks[a.x := Act(ep, inq, a).ep.socks[a.x]]
  {
    hide Flat, DropBytes, Closed;
  }

  lemma PollFares(ep: Endpoint, inq: seq<Packet>, a: Action)
    requires EndWf(ep) && a.Poll? && Enabled(ep, inq, a)
    ensures var k := ep.socks[a.x];
      var cut := k.status.Lingering? && if a.evW then a.w.broken else a.evR && a.eof;
      var own := (a.evW && a.w.broken) || (a.evR && a.eof);
      Fares(k, Act(ep, inq, a).ep.socks[a.x], cut, own)
  {
    var s := ep.socks[a.x];
    assert SockWf(s);
    if a.evW { OneLeft(s, a.w.count); }
    hide EndWf, Flat, DropBytes;
  }

  lemma DeliverFares(ep: Endpoint, inq: seq<Packet>, a: Action, y: nat)
    requires EndWf(ep) && a.Deliver? && Enabled(ep, inq, a)
    ensures AllFare(ep.socks, Act(ep, inq, a).ep.socks, false, inq[0].Wrte? && inq[0].to == y && a.w.broken, y)
  {
    assert ep.nextId !in ep.socks;
    hide EndWf;
  }

  lemma OtherFares(ep: Endpoint, inq: seq<Packet>, a: Action, y: nat)
    requires EndWf(ep) && !a.Deliver? && !a.Poll? && Enabled(ep, inq, a)
    ensures AllFare(ep.socks, Act(ep, inq, a).ep.socks, false, a.Lose? || (a.Shut? && a.x == y), y)
  {
    assert ep.nextId !in ep.socks;
    hide EndWf;
  }

  lemma StepFares(s: Sys, st: Step, at: Side, y: nat)
    requires Inv(s) && CanStep(s, st)
    ensures AllFare(Here(s, at).socks, Here(Next(s, st), at).socks, CutsShort(s, st, at, y), OwnReason(s, st, at, y), y)
  {
    var ep, inq, a := Here(s, at), In(s, at), st.action;
    assert EndWf(ep);
    if st.side == at {
      hide Fares, Act;
      match a
      case Poll(x, _, _, _, _, _) =>
        PollChanges(ep, inq, a);
        if x == y { PollFares(ep, inq, a); } else { OthersFare(ep.socks, x, Act(ep, inq, a).ep.socks[x], false, y); }
      case Deliver(_, _) => DeliverFares(ep, inq, a, y);
      case _ => OtherFares(ep, inq, a, y);
    }
  }

  // ---------------------------------------------------------------- whole runs

  /** Some step of the run cuts `y` short. */
  predicate EverCut(s: Sys, run: seq<Step>, at: Side, y: nat)
    requires CanRun(s, run)
    decreases |run|
  {
    run != [] && (CutsShort(s, run[0], at, y) || EverCut(Next(s, run[0]), run[1..], at, y))
  }

  lemma {:induction false} GoneStays(s: Sys, run: seq<Step>, at: Side, y: nat)
    requires Inv(s) && CanRun(s, run) && y in Here(s, at).socks && Here(s, at).socks[y].status.Gone?
    ensures y in Here(After(s, run), at).socks && Here(After(s, run), at).socks[y] == Here(s, at).socks[y]
    ensures !EverCut(s, run, at, y)
    decreases |run|
  {
    if run != [] {
      NextKeeps(s, run[0]);
      StepFares(s, run[0], at, y);
      hide Inv, CutsShort, OwnReason, Next;
      GoneStays(Next(s, run[0]), run[1..], at, y);
    }
  }

  /** A socket that was told to close and is gone disposed of packets exactly when some step cut it short. */
  lemma {:induction false} CutDecides(s: Sys, run: seq<Step>, at: Side, y: nat)
    requires Inv(s) && CanRun(s, run)
    requires y in Here(s, at).socks ==> !Here(s, at).socks[y].status.Gone?
    requires var e := Here(After(s, run), at).socks; y in e && e[y].status.Gone? && e[y].heard
    ensures Here(After(s, run), at).socks[y].queue == [] <==> !EverCut(s, run, at, y)
    decreases |run|
  {
    if run != [] {
      var s1 := Next(s, run[0]);
      NextKeeps(s, run[0]);
      StepFares(s, run[0], at, y);
      hide Inv, CutsShort, OwnReason, Next;
      if y in Here(s1, at).socks && Here(s1, at).socks[y].status.Gone? {
        GoneStays(s1, run[1..], at, y);
      } else {
        CutDecides(s1, run[1..], at, y);
      }
    }
  }

  /** Every run: a receiver that was told to close and is gone has written everything the sender read if and only
      if no step of the run cut it short. */
  lemma DeliveredIff(run: seq<Step>, side: Side, x: nat, y: nat)
    requires CanRun(START, run) && Linked(After(START, run), side, x, y)
    requires var sy := There(After(START, run), side).socks[y]; sy.status.Gone? && sy.heard
    ensures var s := After(START, run);
      There(s, side).socks[y].written == Here(s, side).socks[x].sent <==> !EverCut(START, run, Other(side), y)
  {
    TailDecides(run, side, x, y);
    CutDecides(START, run, Other(side), y);
  }

  // ---------------------------------------------------------------- receivers that close only when told to

  predicate EverOwn(s: Sys, run: seq<Step>, at: Side, y: nat)
    requires CanRun(s, run)
    decreases |run|
  {
    run != [] && (OwnReason(s, run[0], at, y) || EverOwn(Next(s, run[0]), run[1..], at, y))
  }

  /** `y` has not closed for a reason of its own, so far. */
  predicate Untroubled(e: map<nat, Sock>, y: nat) {
    y in e ==> !e[y].failed
  }

  lemma {:induction false} RunUntroubled(s: Sys, run: seq<Step>, at: Side, y: nat)
    requires Inv(s) && CanRun(s, run) && Untroubled(Here(s, at).socks, y) && !EverOwn(s, run, at, y)
    ensures Untroubled(Here(After(s, run), at).socks, y)
    decreases |run|
  {
    if run != [] {
      NextKeeps(s, run[0]);
      StepFares(s, run[0], at, y);
      hide Inv, OwnReason, CutsShort, Next;
      RunUntroubled(Next(s, run[0]), run[1..], at, y);
    }
  }

  lemma {:induction false} CutIsOwn(s: Sys, run: seq<Step>, at: Side, y: nat)
    requires CanRun(s, run) && !EverOwn(s, run, at, y)
    ensures !EverCut(s, run, at, y)
    decreases |run|
  {
    if run != [] {
      if CutsShort(s, run[0], at, y) { CutHasReason(s, run[0], at, y); }
      hide OwnReason, CutsShort, Next;
      CutIsOwn(Next(s, run[0]), run[1..], at, y);
    }
  }

  /** Every run in which nothing but the sender's CLSE closes the receiver: before it is destroyed it has written
      everything the sender read, and the sender is closed. */
  lemma AllWritten(run: seq<Step>, side: Side, x: nat, y: nat)
    requires CanRun(START, run) && Linked(After(START, run), side, x, y)
    requires There(After(START, run), side).socks[y].status.Gone? && !EverOwn(START, run, Other(side), y)
    ensures var s := After(START, run);
      There(s, side).socks[y].written == Here(s, side).socks[x].sent && !Here(s, side).socks[x].status.Live?
  {
    RunKeeps(START, run);
    RunUntroubled(START, run, Other(side), y);
    assert SockWf(There(After(START, run), side).socks[y]);
    CutIsOwn(START, run, Other(side), y);
    DeliveredIff(run, side, x, y);
    TailDecides(run, side, x, y);
  }
}
