/** Every OPEN is answered: what a connecting ADB socket waits for. */
module AdbOpening {
  import opened Bytes
  import opened Packets
  import opened AdbEndpoint
  import opened AdbSystem
  import opened AdbSteps
  import opened AdbProtocol
  import opened AdbDelivery
  import opened AdbClosing

  // ---------------------------------------------------------------- packets in a channel

  lemma {:induction false} Appended(q: seq<Packet>, out: seq<Packet>, x: nat)
    ensures ToCount(q + out, x) == ToCount(q, x) + ToCount(out, x)
    ensures OpenCount(q + out, x) == OpenCount(q, x) + OpenCount(out, x)
  {
    if q == [] {
      assert q + out == out;
    } else {
      assert (q + out)[1..] == q[1..] + out;
      Appended(q[1..], out, x);
    }
  }

  lemma {:induction false} FirstIsOf(q: seq<Packet>, x: nat)
    ensures ToCount(q, x) > 0 <==> FirstTo(q, x).Some?
    ensures FirstTo(q, x).Some? ==> FirstTo(q, x).value in q && To(FirstTo(q, x).value, x)
  {
    if q != [] {
      FirstIsOf(q[1..], x);
    }
  }

  lemma {:induction false} Counted(q: seq<Packet>, p: Packet, x: nat, y: nat)
    requires p in q
    ensures p == Wrte(x, y, if p.Wrte? then p.data else []) ==> WrteCount(q, x, y) > 0
    ensures p == Okay(x, y) ==> OkayCount(q, x, y) > 0
  {
    if q[0] != p {
      Counted(q[1..], p, x, y);
    }
  }

  // ---------------------------------------------------------------- the invariant

  predicate Awaits(X: Endpoint, xy: seq<Packet>, yx: seq<Packet>, x: nat) {
    x in X.socks && Connecting(X.socks[x]) ==> OpenCount(xy, x) + ToCount(yx, x) > 0
  }

  /** While both ends are online, a connecting socket has its OPEN or an answer under way. */
  ghost predicate Asked(X: Endpoint, Y: Endpoint, xy: seq<Packet>, yx: seq<Packet>) {
    X.online && Y.online ==> forall x {:trigger Awaits(X, xy, yx, x)} :: Awaits(X, xy, yx, x)
  }

  /** A socket that still connects after a step was connecting before, or was created by dialling. */
  lemma StillConnecting(X: Endpoint, yx: seq<Packet>, a: Action, x: nat)
    requires EndWf(X) && !a.Lose? && X.online && Enabled(X, yx, a)
    requires var e := Act(X, yx, a).ep.socks; x in e && Connecting(e[x])
    ensures x in X.socks ==> Connecting(X.socks[x])
    ensures x !in X.socks ==> OpenCount(Act(X, yx, a).out, x) > 0
    ensures x in X.socks && a.Deliver? && To(yx[0], x) ==> yx[0].Wrte?
  {
    ActParts(X, yx, a);
    if x in X.socks {
      assert Parts(X.socks[x], Act(X, yx, a).ep.socks[x], Act(X, yx, a).out);
    } else {
      hide EndWf;
      if a.Poll? { PollChanges(X, yx, a); }
    }
  }

  lemma WrteIsLate(X: Endpoint, Y: Endpoint, xy: seq<Packet>, yx: seq<Packet>, x: nat)
    requires Both(X, Y, xy, yx) && X.online && x in X.socks
    requires yx != [] && To(yx[0], x) && yx[0].Wrte?
    ensures !Connecting(X.socks[x])
  {
    assert Known(yx[0], Y.socks.Keys, X.socks.Keys);
    assert Pair(Y, X, yx, xy, yx[0].from, x);
  }

  /** The end that acts keeps asking. */
  lemma ActorAsks(X: Endpoint, Y: Endpoint, xy: seq<Packet>, yx: seq<Packet>, a: Action)
    requires Both(X, Y, xy, yx) && Asked(X, Y, xy, yx) && Enabled(X, yx, a)
    ensures var r := Act(X, yx, a); Asked(r.ep, Y, xy + r.out, Popped(yx, a.Deliver?))
  {
    var r, yx' := Act(X, yx, a), Popped(yx, a.Deliver?);
    if r.ep.online && Y.online {
      assert EndWf(X);
      Online(X, yx, a);
      forall x ensures Awaits(r.ep, xy + r.out, yx', x) {
        if x in r.ep.socks && Connecting(r.ep.socks[x]) {
          StillConnecting(X, yx, a, x);
          Appended(xy, r.out, x);
          if x in X.socks {
            assert Awaits(X, xy, yx, x);
            if a.Deliver? && To(yx[0], x) { WrteIsLate(X, Y, xy, yx, x); }
          }
        }
      }
    }
  }

  lemma Online(X: Endpoint, yx: seq<Packet>, a: Action)
    requires Enabled(X, yx, a)
    ensures Act(X, yx, a).ep.online == (X.online && !a.Lose?)
  {
    hide Flat, DropBytes, Closed;
  }

  /** The end that takes an OPEN answers it. */
  lemma ActorAnswers(X: Endpoint, Y: Endpoint, xy: seq<Packet>, yx: seq<Packet>, a: Action)
    requires Asked(Y, X, yx, xy) && Enabled(X, yx, a)
    ensures var r := Act(X, yx, a); Asked(Y, r.ep, Popped(yx, a.Deliver?), xy + r.out)
  {
    var r, yx' := Act(X, yx, a), Popped(yx, a.Deliver?);
    Online(X, yx, a);
    if r.ep.online && Y.online {
      forall y ensures Awaits(Y, yx', xy + r.out, y) {
        assert Awaits(Y, yx, xy, y);
        Appended(xy, r.out, y);
        if a.Deliver? && yx[0] == Open(y) {
          assert ToCount(r.out, y) > 0;
        }
      }
    }
  }

  ghost predicate BothAsked(s: Sys) {
    Asked(s.left, s.right, s.lr, s.rl) && Asked(s.right, s.left, s.rl, s.lr)
  }

  lemma StepAsks(s: Sys, st: Step)
    requires Inv(s) && BothAsked(s) && CanStep(s, st)
    ensures BothAsked(Next(s, st))
  {
    var X, Y, xy, yx := Here(s, st.side), There(s, st.side), Out(s, st.side), In(s, st.side);
    assert Both(X, Y, xy, yx);
    hide Both, Shape, Pairs, Asked, Act, Enabled;
    ActorAsks(X, Y, xy, yx, st.action);
    ActorAnswers(X, Y, xy, yx, st.action);
  }

  lemma {:induction false} RunAsks(s: Sys, run: seq<Step>)
    requires Inv(s) && BothAsked(s) && CanRun(s, run)
    ensures BothAsked(After(s, run)) && Inv(After(s, run))
    decreases |run|
  {
    if run != [] {
      NextKeeps(s, run[0]);
      StepAsks(s, run[0]);
      hide Inv, BothAsked, Next, CanStep;
      RunAsks(Next(s, run[0]), run[1..]);
    }
  }

  // ---------------------------------------------------------------- who is answered

  /** In every reachable state with both ends online, a connecting socket waits for exactly one thing: its OPEN is under
      way, once, and nothing is addressed to it; or the OPEN was taken and what the socket sees first is the OKAY of
      the one socket linked to it, or, when no socket is linked to it, a CLSE. */
  lemma OpenAnswered(run: seq<Step>, side: Side, x: nat)
    requires CanRun(START, run)
    requires var s := After(START, run);
      && Here(s, side).online && There(s, side).online
      && x in Here(s, side).socks && Connecting(Here(s, side).socks[x])
    ensures var s := After(START, run);
      if ToCount(In(s, side), x) == 0 then OpenCount(Out(s, side), x) == 1 && NobodyLinked(There(s, side), x)
      else && OpenCount(Out(s, side), x) == 0
           && var p := FirstTo(In(s, side), x);
              && p.Some?
              && (if p.value.Clse? then NobodyLinked(There(s, side), x)
                  else p.value.Okay? && p.value.from in There(s, side).socks
                       && There(s, side).socks[p.value.from].partner == Some(x))
  {
    RunAsks(START, run);
    var s := After(START, run);
    var X, Y, xy, yx := Here(s, side), There(s, side), Out(s, side), In(s, side);
    assert Both(X, Y, xy, yx) && Awaits(X, xy, yx, x) && Opens(X, xy, yx);
    FirstIsOf(yx, x);
    forall y <- Y.socks ensures Y.socks[y].partner == Some(x) ==> FirstTo(yx, x) == Some(Okay(y, x)) {
      assert Pair(Y, X, yx, xy, y, x);
    }
    if ToCount(yx, x) > 0 {
      var p := FirstTo(yx, x).value;
      assert Known(p, Y.socks.Keys, X.socks.Keys);
      if !p.Clse? {
        Counted(yx, p, p.from, x);
        assert Pair(Y, X, yx, xy, p.from, x);
      }
    }
  }

  /** No socket of this end was ever linked to the far socket `x`. */
  ghost predicate NobodyLinked(Y: Endpoint, x: nat) {
    forall y <- Y.socks :: Y.socks[y].partner != Some(x)
  }
}
