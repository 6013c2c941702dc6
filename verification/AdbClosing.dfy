/** Whether the far end of an ADB stream learns that its peer has closed. */
module AdbClosing {
  import opened Bytes
  import opened Packets
  import opened AdbEndpoint
  import opened AdbSystem
  import opened AdbProtocol
  import opened AdbDelivery

  // ---------------------------------------------------------------- CLSE packets in a channel

  lemma {:induction false} ClseAppended(q: seq<Packet>, out: seq<Packet>, y: nat)
    ensures ClseCount(q + out, y) == ClseCount(q, y) + ClseCount(out, y)
  {
    if q == [] {
      assert q + out == out;
    } else {
      assert (q + out)[1..] == q[1..] + out;
      ClseAppended(q[1..], out, y);
    }
  }

  lemma {:induction false} ClseThere(q: seq<Packet>, y: nat)
    requires Clse(0, y) in q
    ensures ClseCount(q, y) > 0
  {
    if q[0] != Clse(0, y) {
      ClseThere(q[1..], y);
    }
  }

  lemma {:induction false} ClseIsAddressed(q: seq<Packet>, y: nat)
    ensures ClseCount(q, y) <= ToCount(q, y)
  {
    if q != [] {
      ClseIsAddressed(q[1..], y);
    }
  }

  // ---------------------------------------------------------------- one step of one end

  /** A socket never reopens, keeps its link, and says CLSE to it when it closes. */
  predicate Parts(k: Sock, k': Sock, out: seq<Packet>) {
    && (!k.status.Live? ==> !k'.status.Live? && k'.partner == k.partner)
    && (k.partner.Some? ==> k'.partner == k.partner)
    && (k.status.Live? && !k'.status.Live? && k'.partner.Some? ==> Clse(0, k'.partner.value) in out)
  }

  predicate AllPart(e: map<nat, Sock>, e': map<nat, Sock>, out: seq<Packet>) {
    && (forall x <- e :: x in e' && Parts(e[x], e'[x], out))
    && (forall x <- e' :: x !in e ==> e'[x].status.Live?)
  }

  lemma PollParts(ep: Endpoint, inq: seq<Packet>, a: Action)
    requires a.Poll? && Enabled(ep, inq, a)
    ensures var r := Act(ep, inq, a); AllPart(ep.socks, r.ep.socks, r.out)
  {
    PollChanges(ep, inq, a);
    PollerParts(ep, inq, a);
    hide Act, Enabled;
  }

  lemma PollerParts(ep: Endpoint, inq: seq<Packet>, a: Action)
    requires a.Poll? && Enabled(ep, inq, a)
    ensures var r := Act(ep, inq, a); Parts(ep.socks[a.x], r.ep.socks[a.x], r.out)
  {
    hide Flat, DropBytes;
  }

  lemma DeliverParts(ep: Endpoint, inq: seq<Packet>, a: Action)
    requires EndWf(ep) && a.Deliver? && Enabled(ep, inq, a)
    ensures var r := Act(ep, inq, a); AllPart(ep.socks, r.ep.socks, r.out)
  {
    assert ep.nextId !in ep.socks;
    hide EndWf;
    if inq[0].Wrte? {
      WrteParts(ep, inq, a);
    }
  }

  lemma WrteParts(ep: Endpoint, inq: seq<Packet>, a: Action)
    requires a.Deliver? && Enabled(ep, inq, a) && inq[0].Wrte?
    ensures var r := Act(ep, inq, a); AllPart(ep.socks, r.ep.socks, r.out)
  {
    hide Flat, DropBytes;
  }

  lemma OtherParts(ep: Endpoint, inq: seq<Packet>, a: Action)
    requires EndWf(ep) && (a.Dial? || a.Shut?) && Enabled(ep, inq, a)
    ensures var r := Act(ep, inq, a); AllPart(ep.socks, r.ep.socks, r.out)
  {
    assert ep.nextId !in ep.socks;
    hide EndWf;
  }

  lemma ActParts(ep: Endpoint, inq: seq<Packet>, a: Action)
    requires EndWf(ep) && !a.Lose? && Enabled(ep, inq, a)
    ensures var r := Act(ep, inq, a); AllPart(ep.socks, r.ep.socks, r.out)
  {
    if a.Poll? {
      PollParts(ep, inq, a);
    } else if a.Deliver? {
      DeliverParts(ep, inq, a);
    } else {
      OtherParts(ep, inq, a);
    }
  }

  // ---------------------------------------------------------------- the invariant

  /** While both ends are online, a live socket whose linked peer has closed has a CLSE coming. */
  predicate Announced(X: Endpoint, Y: Endpoint, xy: seq<Packet>, x: nat, y: nat)
    requires x in X.socks && y in Y.socks
  {
    X.socks[x].partner == Some(y) && !X.socks[x].status.Live? && Y.socks[y].status.Live? ==> ClseCount(xy, y) > 0
  }

  ghost predicate Told(X: Endpoint, Y: Endpoint, xy: seq<Packet>) {
    X.online && Y.online ==>
      forall x, y {:trigger Announced(X, Y, xy, x, y)} :: x in X.socks && y in Y.socks ==> Announced(X, Y, xy, x, y)
  }

  /** The end that acts announces what it closes. */
  lemma ActorTells(X: Endpoint, Y: Endpoint, xy: seq<Packet>, yx: seq<Packet>, a: Action)
    requires EndWf(X) && Injective(X, Y.socks.Keys) && Told(X, Y, xy) && Enabled(X, yx, a)
    ensures var r := Act(X, yx, a); Told(r.ep, Y, xy + r.out)
  {
    if !a.Lose? {
      ActParts(X, yx, a);
      var r := Act(X, yx, a);
      assert r.ep.online == X.online;
      forall x, y | x in r.ep.socks && y in Y.socks && X.online && Y.online
        ensures Announced(r.ep, Y, xy + r.out, x, y)
      {
        ClseAppended(xy, r.out, y);
        if x in X.socks {
          assert Announced(X, Y, xy, x, y) && Parts(X.socks[x], r.ep.socks[x], r.out);
          if Clse(0, y) in r.out { ClseThere(r.out, y); }
        }
      }
    }
  }

  /** What comes in is still announced to the sockets that stay live. */
  lemma ActorHears(X: Endpoint, Y: Endpoint, yx: seq<Packet>, a: Action)
    requires EndWf(X) && Injective(Y, X.socks.Keys) && Told(Y, X, yx) && Enabled(X, yx, a)
    ensures Told(Y, Act(X, yx, a).ep, Popped(yx, a.Deliver?))
  {
    if !a.Lose? {
      ActParts(X, yx, a);
      var X', yx' := Act(X, yx, a).ep, Popped(yx, a.Deliver?);
      assert X'.online == X.online;
      forall y, x | y in Y.socks && x in X'.socks && X.online && Y.online ensures Announced(Y, X', yx', y, x) {
        if Y.socks[y].partner == Some(x) && X'.socks[x].status.Live? {
          assert x in X.socks;
          assert Announced(Y, X, yx, y, x) && Parts(X.socks[x], X'.socks[x], Act(X, yx, a).out);
          StillComing(X, yx, a, x);
        }
      }
    }
  }

  /** A CLSE that is taken closes the socket it is addressed to. */
  lemma StillComing(X: Endpoint, yx: seq<Packet>, a: Action, x: nat)
    requires !a.Lose? && X.online && IsLive(X, x) && Enabled(X, yx, a) && IsLive(Act(X, yx, a).ep, x)
    ensures ClseCount(Popped(yx, a.Deliver?), x) == ClseCount(yx, x)
  {
    if a.Deliver? {
      assert yx == [yx[0]] + yx[1..];
      assert !(yx[0].Clse? && yx[0].to == x);
    }
  }

  ghost predicate BothTold(s: Sys) {
    Told(s.left, s.right, s.lr) && Told(s.right, s.left, s.rl)
  }

  lemma StepTells(s: Sys, st: Step)
    requires Inv(s) && BothTold(s) && CanStep(s, st)
    ensures BothTold(Next(s, st))
  {
    var X, Y, xy, yx := Here(s, st.side), There(s, st.side), Out(s, st.side), In(s, st.side);
    assert EndWf(X) && Injective(X, Y.socks.Keys) && Injective(Y, X.socks.Keys);
    hide Both, Shape, Pairs, Told, Act, Enabled;
    ActorTells(X, Y, xy, yx, st.action);
    ActorHears(X, Y, yx, st.action);
  }

  lemma {:induction false} RunTells(s: Sys, run: seq<Step>)
    requires Inv(s) && BothTold(s) && CanRun(s, run)
    ensures BothTold(After(s, run)) && Inv(After(s, run))
    decreases |run|
  {
    if run != [] {
      NextKeeps(s, run[0]);
      StepTells(s, run[0]);
      hide Inv, BothTold, Next, CanStep;
      RunTells(Next(s, run[0]), run[1..]);
    }
  }

  // ---------------------------------------------------------------- who is told

  /** In every reachable state with both ends online, which they then were throughout: a live socket whose peer is no
      longer live has a CLSE coming if and only if that peer was linked to it; an end links only while it is live. */
  lemma CloseToldIff(run: seq<Step>, side: Side, x: nat, y: nat)
    requires CanRun(START, run)
    requires var s := After(START, run); Here(s, side).online && There(s, side).online
    requires var s := After(START, run);
      && x in Here(s, side).socks && !Here(s, side).socks[x].status.Live?
      && IsLive(There(s, side), y) && There(s, side).socks[y].partner == Some(x)
    ensures var s := After(START, run);
      ClseCount(Out(s, side), y) > 0 <==> Here(s, side).socks[x].partner == Some(y)
  {
    RunTells(START, run);
    var s := After(START, run);
    var X, Y := Here(s, side), There(s, side);
    assert Announced(X, Y, Out(s, side), x, y);
    assert Pair(X, Y, Out(s, side), In(s, side), x, y);
    assert Pair(Y, X, In(s, side), Out(s, side), y, x);
    ClseIsAddressed(Out(s, side), y);
  }

  /** A socket that nobody tells stays: in every reachable state, a live socket whose peer closed before it was linked
      can only be closed by a step that is a reason of its own. */
  lemma NeverTold(run: seq<Step>, side: Side, x: nat, y: nat, st: Step)
    requires CanRun(START, run) && CanStep(After(START, run), st)
    requires var s := After(START, run);
      && x in Here(s, side).socks && !Here(s, side).socks[x].status.Live? && Here(s, side).socks[x].partner == None
      && IsLive(There(s, side), y) && There(s, side).socks[y].partner == Some(x)
    ensures var s, s' := After(START, run), Next(After(START, run), st);
      && (IsLive(There(s', side), y) || OwnReason(s, st, Other(side), y))
      && x in Here(s', side).socks && !Here(s', side).socks[x].status.Live? && Here(s', side).socks[x].partner == None
  {
    NothingComing(run, side, x, y);
    var s := After(START, run);
    var X, Y := Here(s, side), There(s, side);
    if st.side == side && !st.action.Lose? { ActParts(X, In(s, side), st.action); }
    hide EndWf, Act;
    if st.side == side {
      if st.action.Lose? { LosesNone(X, In(s, side), x); }
    } else if !OwnReason(s, st, Other(side), y) {
      LiveUnlessTold(Y, Out(s, side), st.action, y);
    }
  }

  lemma NothingComing(run: seq<Step>, side: Side, x: nat, y: nat)
    requires CanRun(START, run)
    requires var s := After(START, run);
      && x in Here(s, side).socks && Here(s, side).socks[x].partner == None
      && y in There(s, side).socks && There(s, side).socks[y].partner == Some(x)
    ensures var s := After(START, run);
      && EndWf(Here(s, side)) && y != There(s, side).nextId && ToCount(Out(s, side), y) == 0
  {
    RunKeeps(START, run);
    var s := After(START, run);
    var X, Y := Here(s, side), There(s, side);
    assert Pair(X, Y, Out(s, side), In(s, side), x, y) && EndWf(Y);
  }

  lemma LosesNone(X: Endpoint, inq: seq<Packet>, x: nat)
    requires x in X.socks && !X.socks[x].status.Live?
    ensures var e := Act(X, inq, Lose).ep.socks; x in e && e[x] == X.socks[x]
  {}

  lemma LiveUnlessTold(Y: Endpoint, inq: seq<Packet>, a: Action, y: nat)
    requires IsLive(Y, y) && ToCount(inq, y) == 0 && y != Y.nextId && Enabled(Y, inq, a)
    requires !a.Lose? && !(a.Shut? && a.x == y)
    requires !(a.Poll? && a.x == y && ((a.evW && a.w.broken) || (a.evR && a.eof)))
    ensures IsLive(Act(Y, inq, a).ep, y)
  {
    hide Flat, DropBytes;
  }

  /** Nothing brings an end back online, so ends that are online always were. */
  lemma {:induction false} OnlineThroughout(s: Sys, run: seq<Step>, k: nat, side: Side)
    requires CanRun(s, run) && k <= |run| && Here(After(s, run), side).online
    ensures CanRun(s, run[..k]) && Here(After(s, run[..k]), side).online
    decreases |run|
  {
    if run != [] {
      if k == 0 {
        OnlineThroughout(Next(s, run[0]), run[1..], 0, side);
        assert run[1..][..0] == [];
      } else {
        OnlineThroughout(Next(s, run[0]), run[1..], k - 1, side);
        assert run[..k][1..] == run[1..][..k - 1];
      }
    }
  }

  const SHUTS := Step(Left, Shut(1))

  /** The socket that dialled closes before the OKAY arrives. */
  const HALF_OPEN_RUN: seq<Step> := [DIALS, TAKES] + ([SHUTS, LINKS] + [])

  /** A stream whose dialling end closes before it is linked: the OKAY is dropped without an answer, nothing is in
      flight any more, both ends are online, and the other end is still live. */
  lemma HalfOpen()
    ensures CanRun(START, HALF_OPEN_RUN)
    ensures var s := After(START, HALF_OPEN_RUN);
      && s.lr == [] && s.rl == [] && s.left.online && s.right.online
      && 1 in s.left.socks && s.left.socks[1].status.Gone? && s.left.socks[1].partner == None
      && IsLive(s.right, 1) && s.right.socks[1].partner == Some(1)
  {
    StaleOpens();
    var shut := NewSock(None, false).(status := Gone, failed := true);
    var left := Sys(One(shut), One(LINKED), [], [Okay(1, 1)]);
    var quiet := Sys(One(shut), One(LINKED), [], []);
    assert Next(OPENED, SHUTS).left.socks[1] == shut;
    assert Next(OPENED, SHUTS) == left;
    assert Next(left, LINKS) == quiet;
    TwoSteps(OPENED, SHUTS, LINKS, quiet, []);
    TwoSteps(START, DIALS, TAKES, OPENED, [SHUTS, LINKS] + []);
  }
}
