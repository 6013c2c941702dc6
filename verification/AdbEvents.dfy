/** The ADB endpoints on top of the event dispatcher: every socket has an fde, and what the dispatcher delivers to a
    socket is what was marked on its fde, not what the socket wants at that moment. */
module AdbEvents {
  import opened Bytes
  import opened Packets
  import opened AdbEndpoint
  import opened AdbSystem
  import opened AdbProtocol
  import D = Dispatcher

  // ---------------------------------------------------------------- one fde

  /** fdevent_set, fdevent_process and fdevent_call_fdfunc on one fde. */
  function SetOne(f: D.Fde, ev: D.Events): D.Fde {
    if f.mask == ev then f else D.Remask(f, ev)
  }

  function MarkOne(f: D.Fde, ev: D.Events): D.Fde {
    f.(events := D.Join(f.events, ev), pending := true)
  }

  function TakeOne(f: D.Fde): D.Fde {
    f.(events := 0, pending := false)
  }

  /** What can be marked: events in the mask, or the read event that stands for a bad descriptor. */
  predicate Reportable(f: D.Fde, ev: D.Events, bad: bool) {
    ev != 0 && (D.Minus(ev, f.mask) == 0 || (bad && ev == D.FDE_READ))
  }

  /** A round of the dispatcher marks on every registered fde nothing, or something reportable. */
  lemma ProcessMarks(d: D.State, sel: D.Select, bad: set<nat>, fd: nat)
    requires D.Inv(d) && D.Honest(d, sel) && fd in d.table
    ensures var h := d.table[fd]; var d' := D.Process(d, sel, bad);
      && h in d.fdes && h in d'.fdes
      && (d'.fdes[h] == d.fdes[h]
          || exists ev :: Reportable(d.fdes[h], ev, fd in bad) && d'.fdes[h] == MarkOne(d.fdes[h], ev))
  {
    var h := d.table[fd];
    assert D.SlotOk(d, fd) && D.SetsOk(d, fd);
    var f, probed := d.fdes[h], D.BadFds(d, bad);
    D.MarkFromMarks(d, 0, probed, {}, {}, fd);
    D.Joined(f.events, 0);
    var none: set<nat> := {};
    FakeRead(fd, probed, none);
    assert fd in probed ==> Reportable(f, D.FDE_READ, true);
    if sel.Ready? {
      D.MarkFromMarks(d, 0, sel.r, sel.w, sel.e, fd);
      InMask(f.mask, sel.r, sel.w, sel.e, fd);
      assert D.EventsAt(sel.r, sel.w, sel.e, fd) != 0 ==> Reportable(f, D.EventsAt(sel.r, sel.w, sel.e, fd), fd in bad);
    }
  }

  lemma FakeRead(fd: nat, r: set<nat>, none: set<nat>)
    requires none == {}
    ensures D.EventsAt(r, none, none, fd) == if fd in r then D.FDE_READ else 0
  {}

  lemma InMask(mask: D.Events, r: set<nat>, w: set<nat>, e: set<nat>, fd: nat)
    requires fd in r ==> D.Wants(mask, D.FDE_READ)
    requires fd in w ==> D.Wants(mask, D.FDE_WRITE)
    requires fd in e ==> D.Wants(mask, D.FDE_ERROR)
    ensures D.Minus(D.EventsAt(r, w, e, fd), mask) == 0
  {}

  /** Changing the interest of an fde, and calling it back, act on the fde as SetOne and TakeOne. */
  lemma SetAndDequeue(d: D.State, h: nat, ev: D.Events)
    requires h in d.fdes
    ensures h in D.Set(d, h, ev).fdes && D.Set(d, h, ev).fdes[h] == SetOne(d.fdes[h], ev)
    ensures forall g <- d.fdes :: g != h ==> g in D.Set(d, h, ev).fdes && D.Set(d, h, ev).fdes[g] == d.fdes[g]
    ensures d.pending != [] && d.pending[0] == h ==>
      && h in D.Dequeue(d).0.fdes && D.Dequeue(d).0.fdes[h] == TakeOne(d.fdes[h])
      && D.Dequeue(d).1 == h && D.Dequeue(d).2 == d.fdes[h].events
  {}

  /** The calls of fdevent_add and fdevent_del in sockets.c, on an fde that wants what its socket wants: ready and a
      queueing enqueue add, the event func and a close that lingers delete. Each gives the fde exactly the interest the
      socket has after the call. */
  lemma InterestCalls(d: D.State, h: nat, s: Sock)
    requires h in d.fdes && d.fdes[h].mask == Mask(s)
    ensures D.Add(d, h, D.FDE_READ).fdes[h] == SetOne(d.fdes[h], Mask(s.(readOn := true)))
    ensures D.Add(d, h, D.FDE_WRITE).fdes[h] == SetOne(d.fdes[h], Mask(s.(writeOn := true)))
    ensures D.Del(d, h, D.FDE_READ).fdes[h] == SetOne(d.fdes[h], Mask(s.(readOn := false)))
    ensures D.Del(d, h, D.FDE_WRITE).fdes[h] == SetOne(d.fdes[h], Mask(s.(writeOn := false)))
  {
    MaskCalls(s);
    hide D.Join, D.Minus, Mask, D.Wants;
  }

  lemma MaskCalls(s: Sock)
    ensures D.Join(Mask(s), D.FDE_READ) == Mask(s.(readOn := true))
    ensures D.Join(Mask(s), D.FDE_WRITE) == Mask(s.(writeOn := true))
    ensures D.Minus(Mask(s), D.FDE_READ) == Mask(s.(readOn := false))
    ensures D.Minus(Mask(s), D.FDE_WRITE) == Mask(s.(writeOn := false))
  {}

  /** What each operation leaves a socket wanting is what its call of fdevent_add or fdevent_del leaves in the mask:
      ready adds reading, a write that does not take everything adds writing, a close that lingers deletes reading, the
      event func deletes writing when the queue is empty and reading when it has sent data. */
  lemma InterestFollows(ep: Endpoint, x: nat, y: nat, data: seq<Byte>, w: Wrote)
    requires x in ep.socks
    ensures var s := ep.socks[x];
      && (IsLive(ep, x) ==> Mask(GotOkay(ep, y, x).ep.socks[x]) == D.Join(Mask(s), D.FDE_READ))
      && (IsLive(ep, x) && (s.queue == [] ==> Possible(w, |data|) && !w.broken && w.count < |data|) ==>
            Mask(GotWrte(ep, y, x, data, w).ep.socks[x]) == D.Join(Mask(s), D.FDE_WRITE))
      && (s.status.Live? && s.queue != [] ==> Mask(Closed(s, true)) == D.Minus(Mask(s), D.FDE_READ))
      && (IsLive(ep, x) && Possible(w, |Flat(s.queue)|) && !w.broken && w.count == |Flat(s.queue)| ==>
            Mask(OnWritable(ep, x, w).res.ep.socks[x]) == D.Minus(Mask(s), D.FDE_WRITE))
      && (IsLive(ep, x) && data != [] && s.partner.Some? ==>
            Mask(OnReadable(ep, x, data, false).ep.socks[x]) == D.Minus(Mask(s), D.FDE_READ))
  {
    MaskCalls(ep.socks[x]);
    hide D.Join, D.Minus, Flat, DropBytes;
  }

  // ---------------------------------------------------------------- endpoints with fdes

  /** `bad` are the sockets whose descriptor has gone bad: every read of it fails. */
  datatype End = End(ep: Endpoint, fdes: map<nat, D.Fde>, bad: set<nat>)

  datatype EvAction =
    | Other(a: Action)                                        // anything but a socket event
    | Spoil(x: nat)
    | Report(x: nat, ev: D.Events)
    | Callback(x: nat, w: Wrote, data: seq<Byte>, eof: bool)

  datatype EvStep = EvStep(side: Side, action: EvAction)

  datatype EvSys = EvSys(left: End, right: End, lr: seq<Packet>, rl: seq<Packet>)

  function Mask(s: Sock): D.Events {
    (if s.readOn then D.FDE_READ else 0) | (if s.writeOn then D.FDE_WRITE else 0)
  }

  /** `ev` is among the events the fde will deliver. */
  predicate Due(f: D.Fde, ev: D.Events) {
    D.Wants(f.events, ev)
  }

  predicate EvEnabled(e: End, inq: seq<Packet>, a: EvAction) {
    match a
    case Other(a) => !a.Poll? && Enabled(e.ep, inq, a)
    case Spoil(x) => true
    case Report(x, ev) => x in e.fdes && Reportable(e.fdes[x], ev, x in e.bad)
    case Callback(x, w, data, eof) =>
      && x in e.fdes && e.fdes[x].pending && x in e.ep.socks
      && (Due(e.fdes[x], D.FDE_WRITE) ==> Possible(w, |Flat(e.ep.socks[x].queue)|))
      && |data| <= MAX_PAYLOAD && (x in e.bad ==> data == [] && eof)
  }

  /** The event func of `x` with the events of its fde, as an action of the protocol. */
  function AsPoll(e: End, a: EvAction): Action
    requires a.Callback? && a.x in e.fdes
  {
    Poll(a.x, Due(e.fdes[a.x], D.FDE_WRITE), Due(e.fdes[a.x], D.FDE_READ), a.w, a.data, a.eof)
  }

  /** Every socket that lives on sets the interest of its fde to what it wants now; new sockets install one, destroyed
      sockets remove theirs. */
  function Follow(fdes: map<nat, D.Fde>, ep: Endpoint): map<nat, D.Fde> {
    map x | x in ep.socks && !ep.socks[x].status.Gone? ::
      SetOne(if x in fdes then fdes[x] else D.Fde(x, true, false, 0, 0), Mask(ep.socks[x]))
  }

  function EvResult(e: End, inq: seq<Packet>, a: EvAction): Result
    requires EvEnabled(e, inq, a)
  {
    match a
    case Other(a) => Act(e.ep, inq, a)
    case Spoil(_) => Result(e.ep, [])
    case Report(_, _) => Result(e.ep, [])
    case Callback(x, w, data, eof) =>
      SocketEvent(e.ep, x, Due(e.fdes[x], D.FDE_WRITE), Due(e.fdes[x], D.FDE_READ), w, data, eof)
  }

  function EvEnd(e: End, inq: seq<Packet>, a: EvAction): End
    requires EvEnabled(e, inq, a)
  {
    var ep := EvResult(e, inq, a).ep;
    match a
    case Other(a) => End(ep, Follow(e.fdes, ep), e.bad)
    case Spoil(x) => e.(bad := e.bad + {x})
    case Report(x, ev) => e.(fdes := e.fdes[x := MarkOne(e.fdes[x], ev)])
    case Callback(x, _, _, _) => End(ep, Follow(e.fdes[x := TakeOne(e.fdes[x])], ep), e.bad)
  }

  function EvHere(s: EvSys, side: Side): End { if side.Left? then s.left else s.right }

  function EvIn(s: EvSys, side: Side): seq<Packet> { if side.Left? then s.rl else s.lr }

  predicate EvCan(s: EvSys, st: EvStep) {
    EvEnabled(EvHere(s, st.side), EvIn(s, st.side), st.action)
  }

  function EvNext(s: EvSys, st: EvStep): EvSys
    requires EvCan(s, st)
  {
    var e, inq := EvHere(s, st.side), EvIn(s, st.side);
    var e', out := EvEnd(e, inq, st.action), EvResult(e, inq, st.action).out;
    var rest := Popped(inq, st.action.Other? && st.action.a.Deliver?);
    if st.side.Left? then EvSys(e', s.right, s.lr + out, rest) else EvSys(s.left, e', rest, s.rl + out)
  }

  const EV_EMPTY := End(EMPTY, map[], {})

  const EV_START := EvSys(EV_EMPTY, EV_EMPTY, [], [])

  predicate EvCanRun(s: EvSys, run: seq<EvStep>)
    decreases |run|
  {
    run == [] || (EvCan(s, run[0]) && EvCanRun(EvNext(s, run[0]), run[1..]))
  }

  function EvAfter(s: EvSys, run: seq<EvStep>): EvSys
    requires EvCanRun(s, run)
    decreases |run|
  {
    if run == [] then s else EvAfter(EvNext(s, run[0]), run[1..])
  }

  // ---------------------------------------------------------------- fdes and sockets agree

  /** The fde wants what its socket wants, and what is marked on it is still wanted; except for read events of a
      socket that lingers, and for the one that stands for a bad descriptor. */
  predicate Fits(s: Sock, f: D.Fde, bad: bool) {
    && f.mask == Mask(s)
    && (!f.pending ==> f.events == 0)
    && (Due(f, D.FDE_WRITE) ==> s.writeOn)
    && (Due(f, D.FDE_READ) ==> s.readOn || s.status.Lingering? || bad)
  }

  predicate FitsAt(e: End, x: nat) {
    && (x in e.fdes <==> x in e.ep.socks && !e.ep.socks[x].status.Gone?)
    && (x in e.fdes ==> Fits(e.ep.socks[x], e.fdes[x], x in e.bad))
  }

  ghost predicate Tracks(e: End) {
    forall x {:trigger FitsAt(e, x)} :: FitsAt(e, x)
  }

  /** A live socket drops no interest, and a lingering one none in writing, outside its own event func. */
  predicate Grows(s: Sock, s': Sock) {
    && (s.status.Gone? ==> s'.status.Gone?)
    && (!s'.status.Gone? ==> (s.writeOn ==> s'.writeOn))
    && (s'.status.Live? ==> s.status.Live? && (s.readOn ==> s'.readOn))
  }

  lemma MaskBits(s: Sock)
    ensures D.Wants(Mask(s), D.FDE_READ) <==> s.readOn
    ensures D.Wants(Mask(s), D.FDE_WRITE) <==> s.writeOn
  {}

  lemma MinusBits(a: D.Events, b: D.Events, bit: D.Events)
    requires bit == D.FDE_READ || bit == D.FDE_WRITE
    ensures D.Wants(D.Minus(a, b), bit) <==> D.Wants(a, bit) && !D.Wants(b, bit)
    ensures D.Wants(D.Join(a, b), bit) <==> D.Wants(a, bit) || D.Wants(b, bit)
    ensures !D.Wants(0, bit) && (D.Minus(a, b) == 0 && D.Wants(a, bit) ==> D.Wants(b, bit))
  {}

  lemma SetFits(s: Sock, s': Sock, f: D.Fde, bad: bool)
    requires Fits(s, f, bad) && !s'.status.Gone? && (Grows(s, s') || f.events == 0)
    ensures Fits(s', SetOne(f, Mask(s')), bad)
  {
    MaskBits(s');
    MinusBits(f.events, Mask(s'), D.FDE_READ);
    MinusBits(f.events, Mask(s'), D.FDE_WRITE);
    hide D.Wants, D.Minus, Mask;
  }

  lemma FreshFits(s: Sock, x: nat, bad: bool)
    ensures Fits(s, SetOne(D.Fde(x, true, false, 0, 0), Mask(s)), bad)
  {
    MaskBits(s);
    MinusBits(0, 0, D.FDE_READ);
    MinusBits(0, 0, D.FDE_WRITE);
    hide D.Wants, D.Minus, Mask;
  }

  lemma FollowTracks(e: End, fdes: map<nat, D.Fde>, ep: Endpoint)
    requires fdes.Keys == e.fdes.Keys && Tracks(e)
    requires forall x <- fdes :: fdes[x] == e.fdes[x] || fdes[x] == TakeOne(e.fdes[x])
    requires forall x <- e.ep.socks ::
      x in ep.socks && (Grows(e.ep.socks[x], ep.socks[x]) || (x in fdes && fdes[x].events == 0))
    ensures Tracks(End(ep, Follow(fdes, ep), e.bad))
  {
    var e' := End(ep, Follow(fdes, ep), e.bad);
    forall x ensures FitsAt(e', x) {
      assert FitsAt(e, x);
      if x in e'.fdes {
        if x in fdes {
          TakenFits(e.ep.socks[x], e.fdes[x], x in e.bad);
          SetFits(e.ep.socks[x], ep.socks[x], fdes[x], x in e.bad);
        } else {
          FreshFits(ep.socks[x], x, x in e.bad);
        }
      }
    }
  }

  lemma TakenFits(s: Sock, f: D.Fde, bad: bool)
    requires Fits(s, f, bad)
    ensures Fits(s, TakeOne(f), bad)
  {}

  lemma ReportFits(s: Sock, f: D.Fde, ev: D.Events, bad: bool)
    requires Fits(s, f, bad) && Reportable(f, ev, bad)
    ensures Fits(s, MarkOne(f, ev), bad)
  {
    MinusBits(f.events, ev, D.FDE_READ);
    MinusBits(f.events, ev, D.FDE_WRITE);
    MinusBits(ev, f.mask, D.FDE_READ);
    MinusBits(ev, f.mask, D.FDE_WRITE);
    assert !D.Wants(D.FDE_READ, D.FDE_WRITE);
    hide D.Wants, D.Minus, D.Join;
  }

  lemma DeliverGrows(ep: Endpoint, inq: seq<Packet>, a: Action)
    requires EndWf(ep) && a.Deliver? && Enabled(ep, inq, a)
    ensures var ep' := Act(ep, inq, a).ep; forall x <- ep.socks :: x in ep'.socks && Grows(ep.socks[x], ep'.socks[x])
  {
    var ep' := Act(ep, inq, a).ep;
    forall x <- ep.socks ensures x in ep'.socks && Grows(ep.socks[x], ep'.socks[x]) {
      assert SockWf(ep.socks[x]) && x != ep.nextId;
    }
  }

  lemma OtherGrows(ep: Endpoint, inq: seq<Packet>, a: Action)
    requires EndWf(ep) && !a.Deliver? && !a.Poll? && Enabled(ep, inq, a)
    ensures var ep' := Act(ep, inq, a).ep; forall x <- ep.socks :: x in ep'.socks && Grows(ep.socks[x], ep'.socks[x])
  {
    var ep' := Act(ep, inq, a).ep;
    forall x <- ep.socks ensures x in ep'.socks && Grows(ep.socks[x], ep'.socks[x]) {
      assert SockWf(ep.socks[x]) && x != ep.nextId;
    }
  }

  /** The event the dispatcher delivers is one the protocol expects. */
  lemma CallbackEnabled(e: End, inq: seq<Packet>, a: EvAction)
    requires Tracks(e) && a.Callback? && EvEnabled(e, inq, a)
    ensures Enabled(e.ep, inq, AsPoll(e, a)) && Act(e.ep, inq, AsPoll(e, a)) == EvResult(e, inq, a)
  {
    assert FitsAt(e, a.x);
    hide SocketEvent, D.Wants, Flat;
  }

  lemma CallbackTracks(e: End, inq: seq<Packet>, a: EvAction)
    requires Tracks(e) && a.Callback? && EvEnabled(e, inq, a)
    ensures Tracks(EvEnd(e, inq, a))
  {
    var ep := EvResult(e, inq, a).ep;
    var fdes := e.fdes[a.x := TakeOne(e.fdes[a.x])];
    forall x <- e.ep.socks ensures x in ep.socks && (x != a.x ==> ep.socks[x] == e.ep.socks[x]) {
      hide Flat, DropBytes, Closed, D.Wants;
    }
    hide SocketEvent;
    FollowTracks(e, fdes, ep);
  }

  lemma EvTracks(e: End, inq: seq<Packet>, a: EvAction)
    requires Tracks(e) && EndWf(e.ep) && EvEnabled(e, inq, a)
    ensures Tracks(EvEnd(e, inq, a))
  {
    match a
    case Other(b) =>
      if b.Deliver? { DeliverGrows(e.ep, inq, b); } else { OtherGrows(e.ep, inq, b); }
      hide Act, Grows, Enabled, EndWf;
      FollowTracks(e, e.fdes, Act(e.ep, inq, b).ep);
    case Spoil(x) =>
      forall y ensures FitsAt(EvEnd(e, inq, a), y) { assert FitsAt(e, y); }
    case Report(x, ev) =>
      forall y ensures FitsAt(EvEnd(e, inq, a), y) {
        assert FitsAt(e, y);
        if y == x { ReportFits(e.ep.socks[x], e.fdes[x], ev, x in e.bad); }
      }
    case Callback(_, _, _, _) => CallbackTracks(e, inq, a);
  }

  // ---------------------------------------------------------------- runs of the dispatcher are runs of the protocol

  /** The system without its fdes. */
  function Forget(s: EvSys): Sys {
    Sys(s.left.ep, s.right.ep, s.lr, s.rl)
  }

  ghost predicate EvInv(s: EvSys) {
    Inv(Forget(s)) && Tracks(s.left) && Tracks(s.right)
  }

  /** The steps of the protocol a step with fdes takes: none while events are only marked. */
  function Steps(s: EvSys, st: EvStep): seq<Step>
    requires EvCan(s, st)
  {
    match st.action
    case Other(a) => [Step(st.side, a)]
    case Spoil(_) => []
    case Report(_, _) => []
    case Callback(_, _, _, _) => [Step(st.side, AsPoll(EvHere(s, st.side), st.action))]
  }

  lemma EvStepRefines(s: EvSys, st: EvStep)
    requires EvInv(s) && EvCan(s, st)
    ensures EvInv(EvNext(s, st))
    ensures Steps(s, st) == [] ==> Forget(EvNext(s, st)) == Forget(s)
    ensures Steps(s, st) != [] ==> |Steps(s, st)| == 1 && CanStep(Forget(s), Steps(s, st)[0])
                                   && Forget(EvNext(s, st)) == Next(Forget(s), Steps(s, st)[0])
  {
    var e, inq, out := EvHere(s, st.side), EvIn(s, st.side), Out(Forget(s), st.side);
    assert EndWf(e.ep);
    EvTracks(e, inq, st.action);
    if st.action.Callback? {
      CallbackEnabled(e, inq, st.action);
    }
    hide Both, Act, Enabled, EvEnabled, Tracks, AsPoll;
    assert out + [] == out;
    if Steps(s, st) != [] {
      NextKeeps(Forget(s), Steps(s, st)[0]);
    }
  }

  function Trace(s: EvSys, run: seq<EvStep>): seq<Step>
    requires EvCanRun(s, run)
    decreases |run|
  {
    if run == [] then [] else Steps(s, run[0]) + Trace(EvNext(s, run[0]), run[1..])
  }

  lemma {:induction false} EvRunRefines(s: EvSys, run: seq<EvStep>)
    requires EvInv(s) && EvCanRun(s, run)
    ensures EvInv(EvAfter(s, run))
    ensures CanRun(Forget(s), Trace(s, run)) && After(Forget(s), Trace(s, run)) == Forget(EvAfter(s, run))
    decreases |run|
  {
    if run != [] {
      EvStepRefines(s, run[0]);
      var s1, steps := EvNext(s, run[0]), Steps(s, run[0]);
      EvRunRefines(s1, run[1..]);
      var rest := Trace(s1, run[1..]);
      hide EvInv, EvCan, EvNext, Steps, Forget, CanStep, Next;
      if steps == [] {
        assert steps + rest == rest;
      } else {
        assert (steps + rest)[0] == steps[0] && (steps + rest)[1..] == rest;
      }
    }
  }

  /** Every run with the dispatcher between the fds and the sockets is a run of the protocol, with the same sockets and
      the same packets in flight; so what AdbProtocol and AdbDelivery say of all runs holds of it. */
  lemma Dispatched(run: seq<EvStep>)
    requires EvCanRun(EV_START, run)
    ensures CanRun(START, Trace(EV_START, run))
    ensures After(START, Trace(EV_START, run)) == Forget(EvAfter(EV_START, run))
  {
    StartTracks();
    EvRunRefines(EV_START, run);
  }

  lemma StartTracks()
    ensures EvInv(EV_START)
  {
    forall x ensures FitsAt(EV_EMPTY, x) {}
  }

  /** Whatever the run, an event that is due to a live socket is one it wants, unless its descriptor is bad; only a
      socket that lingers can be due a read event it no longer wants. */
  lemma OnlyLingeringStale(run: seq<EvStep>, side: Side, x: nat)
    requires EvCanRun(EV_START, run)
    requires var e := EvHere(EvAfter(EV_START, run), side); x in e.fdes && x !in e.bad
    ensures var e := EvHere(EvAfter(EV_START, run), side);
      && x in e.ep.socks && !e.ep.socks[x].status.Gone?
      && (Due(e.fdes[x], D.FDE_WRITE) ==> D.Wants(e.fdes[x].mask, D.FDE_WRITE))
      && (Due(e.fdes[x], D.FDE_READ) ==> D.Wants(e.fdes[x].mask, D.FDE_READ) || e.ep.socks[x].status.Lingering?)
  {
    StartTracks();
    EvRunRefines(EV_START, run);
    assert FitsAt(EvHere(EvAfter(EV_START, run), side), x);
  }

  // ---------------------------------------------------------------- the loss, with the dispatcher in between

  const READ_WRITE: D.Events := D.FDE_READ | D.FDE_WRITE

  /** The steps of AdbProtocol.STALE_RUN, with the marking of the events that are delivered in it. */
  const MARKS_SENDER := EvStep(Left, Report(1, D.FDE_READ))
  const MARKS_BOTH := EvStep(Right, Report(1, READ_WRITE))
  const SENDER_READS := EvStep(Left, Callback(1, NO_WRITE, [7], true))
  const TAKES_PACKET := EvStep(Right, Other(TAKES.action))
  const RECEIVER_ENDS := EvStep(Right, Callback(1, NO_WRITE, [], true))

  const EV_STALE_RUN: seq<EvStep> :=
    [EvStep(Left, Other(Dial))] + ([TAKES_PACKET] + ([EvStep(Left, Other(LINKS.action))] + ([MARKS_SENDER]
        + ([SENDER_READS]
    + ([TAKES_PACKET] + ([MARKS_BOTH] + ([TAKES_PACKET] + [RECEIVER_ENDS])))))))

  function Idle(s: Sock): End {
    End(One(s), map[1 := D.Fde(1, true, false, Mask(s), 0)], {})
  }

  function Marked(s: Sock, ev: D.Events): End {
    End(One(s), map[1 := D.Fde(1, true, true, Mask(s), ev)], {})
  }

  const SENT: End := End(One(SENT_ALL), map[], {})

  const QUEUED: Sock := LINKED.(queue := [[7]], writeOn := true)

  const LOST: Sock := BACKLOGGED.(status := Gone, writeOn := false, failed := true)

  lemma EvFirst(s: EvSys, st: EvStep, s1: EvSys, rest: seq<EvStep>)
    requires EvCan(s, st) && EvNext(s, st) == s1 && EvCanRun(s1, rest)
    ensures EvCanRun(s, [st] + rest) && EvAfter(s, [st] + rest) == EvAfter(s1, rest)
  {
    assert ([st] + rest)[1..] == rest;
  }

  lemma FollowOne(e: End, s: Sock)
    requires !s.status.Gone?
    ensures Follow(e.fdes, One(s)) ==
      map[1 := SetOne(if 1 in e.fdes then e.fdes[1] else D.Fde(1, true, false, 0, 0), Mask(s))]
  {}

  lemma FollowNone(e: End, s: Sock)
    requires s.status.Gone?
    ensures Follow(e.fdes, One(s)) == map[]
  {}

  lemma EvOpens()
    ensures var dialled := EvSys(Idle(NewSock(None, false)), EV_EMPTY, [Open(1)], []);
      var accepted := EvSys(Idle(NewSock(None, false)), Idle(LINKED), [], [Okay(1, 1)]);
      && EvCan(EV_START, EvStep(Left, Other(Dial))) && EvNext(EV_START, EvStep(Left, Other(Dial))) == dialled
      && EvCan(dialled, TAKES_PACKET) && EvNext(dialled, TAKES_PACKET) == accepted
      && EvCan(accepted, EvStep(Left, Other(LINKS.action)))
      && EvNext(accepted, EvStep(Left, Other(LINKS.action))) == EvSys(Idle(LINKED), Idle(LINKED), [], [])
  {
    StaleOpens();
    StaleSends();
    FollowOne(EV_EMPTY, NewSock(None, false));
    FollowOne(EV_EMPTY, LINKED);
    FollowOne(Idle(NewSock(None, false)), LINKED);
    assert Next(OPENED, LINKS).left == One(LINKED);
  }

  lemma EvMarks()
    ensures var linked := EvSys(Idle(LINKED), Idle(LINKED), [], []);
      && EvCan(linked, MARKS_SENDER)
      && EvNext(linked, MARKS_SENDER) == EvSys(Marked(LINKED, D.FDE_READ), Idle(LINKED), [], [])
  {}

  lemma EvSends()
    ensures var due := EvSys(Marked(LINKED, D.FDE_READ), Idle(LINKED), [], []);
      && EvCan(due, SENDER_READS)
      && EvNext(due, SENDER_READS) == EvSys(SENT, Idle(LINKED), [Wrte(1, 1, [7]), Clse(0, 1)], [])
  {
    FollowNone(Marked(LINKED, D.FDE_READ), SENT_ALL);
    var r := SocketEvent(One(LINKED), 1, false, true, NO_WRITE, [7], true);
    assert r.ep.socks[1] == SENT_ALL && r.ep == One(SENT_ALL);
    hide Follow;
  }

  lemma EvQueues()
    ensures var hung := EvSys(SENT, Idle(LINKED), [Wrte(1, 1, [7]), Clse(0, 1)], []);
      EvCan(hung, TAKES_PACKET) && EvNext(hung, TAKES_PACKET) == EvSys(SENT, Idle(QUEUED), [Clse(0, 1)], [])
  {
    FollowOne(Idle(LINKED), QUEUED);
    var d: seq<Byte> := [7];
    assert d[0..] == d && LINKED.written + d[..0] == [];
    var r := Act(One(LINKED), [Wrte(1, 1, [7]), Clse(0, 1)], TAKES.action);
    assert r.ep.socks[1] == QUEUED && r.ep == One(QUEUED);
    hide Follow;
  }

  lemma EvMarksBoth()
    ensures var queued := EvSys(SENT, Idle(QUEUED), [Clse(0, 1)], []);
      && EvCan(queued, MARKS_BOTH)
      && EvNext(queued, MARKS_BOTH) == EvSys(SENT, Marked(QUEUED, READ_WRITE), [Clse(0, 1)], [])
  {}

  lemma EvLingers()
    ensures var due := EvSys(SENT, Marked(QUEUED, READ_WRITE), [Clse(0, 1)], []);
      && EvCan(due, TAKES_PACKET)
      && EvNext(due, TAKES_PACKET) == EvSys(SENT, Marked(BACKLOGGED, D.FDE_READ), [], [Clse(0, 1)])
  {
    FollowOne(Marked(QUEUED, READ_WRITE), BACKLOGGED);
    var r := Act(One(QUEUED), [Clse(0, 1)], TAKES.action);
    assert r.ep.socks[1] == BACKLOGGED && r.ep == One(BACKLOGGED);
    assert SetOne(D.Fde(1, true, true, Mask(QUEUED), READ_WRITE), Mask(BACKLOGGED))
        == D.Fde(1, true, true, Mask(BACKLOGGED), D.FDE_READ);
    hide Follow, SetOne, Mask;
  }

  lemma EvEnds()
    ensures var stale := EvSys(SENT, Marked(BACKLOGGED, D.FDE_READ), [], [Clse(0, 1)]);
      && EvCan(stale, RECEIVER_ENDS)
      && EvNext(stale, RECEIVER_ENDS) == EvSys(SENT, End(One(LOST), map[], {}), [], [Clse(0, 1)])
  {
    FollowNone(Marked(BACKLOGGED, D.FDE_READ), LOST);
    var r := SocketEvent(One(BACKLOGGED), 1, false, true, NO_WRITE, [], true);
    assert r.ep.socks[1] == LOST && r.ep == One(LOST);
    hide Follow;
  }

  /** The run of AdbProtocol.StaleReadLosesData, with the dispatcher: no write fails, only the sender closes, and the
      byte it sent is disposed of by a read event marked before the receiver began to linger. */
  lemma DispatchedReadLosesData()
    ensures EvCanRun(EV_START, EV_STALE_RUN)
    ensures var s := EvAfter(EV_START, EV_STALE_RUN);
      && s.left.ep == One(SENT_ALL) && s.right.ep == One(LOST)
      && SENT_ALL.sent == [7] && LOST.heard && LOST.written == [] && LOST.queue == [[7]]
  {
    EvOpens();
    EvMarks();
    EvSends();
    EvQueues();
    EvMarksBoth();
    EvLingers();
    EvEnds();
    hide EvCan, EvNext, Idle, Marked;
    var dialled := EvSys(Idle(NewSock(None, false)), EV_EMPTY, [Open(1)], []);
    var accepted := EvSys(Idle(NewSock(None, false)), Idle(LINKED), [], [Okay(1, 1)]);
    var linked := EvSys(Idle(LINKED), Idle(LINKED), [], []);
    var read := EvSys(Marked(LINKED, D.FDE_READ), Idle(LINKED), [], []);
    var hung := EvSys(SENT, Idle(LINKED), [Wrte(1, 1, [7]), Clse(0, 1)], []);
    var queued := EvSys(SENT, Idle(QUEUED), [Clse(0, 1)], []);
    var due := EvSys(SENT, Marked(QUEUED, READ_WRITE), [Clse(0, 1)], []);
    var stale := EvSys(SENT, Marked(BACKLOGGED, D.FDE_READ), [], [Clse(0, 1)]);
    var lost := EvSys(SENT, End(One(LOST), map[], {}), [], [Clse(0, 1)]);
    assert [RECEIVER_ENDS] + [] == [RECEIVER_ENDS];
    EvFirst(stale, RECEIVER_ENDS, lost, []);
    EvFirst(due, TAKES_PACKET, stale, [RECEIVER_ENDS]);
    EvFirst(queued, MARKS_BOTH, due, [TAKES_PACKET] + [RECEIVER_ENDS]);
    var tail := [MARKS_BOTH] + ([TAKES_PACKET] + [RECEIVER_ENDS]);
    EvFirst(hung, TAKES_PACKET, queued, tail);
    EvFirst(read, SENDER_READS, hung, [TAKES_PACKET] + tail);
    EvFirst(linked, MARKS_SENDER, read, [SENDER_READS] + ([TAKES_PACKET] + tail));
    var late := [MARKS_SENDER] + ([SENDER_READS] + ([TAKES_PACKET] + tail));
    EvFirst(accepted, EvStep(Left, Other(LINKS.action)), linked, late);
    EvFirst(dialled, TAKES_PACKET, accepted, [EvStep(Left, Other(LINKS.action))] + late);
    var early := [TAKES_PACKET] + ([EvStep(Left, Other(LINKS.action))] + late);
    EvFirst(EV_START, EvStep(Left, Other(Dial)), dialled, early);
  }
}
