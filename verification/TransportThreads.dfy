/** One transport on the host: the main loop, the input thread and the output thread of transport.c, their
    two FIFO socket directions, the SYNC handshake, kick_transport and the reference count. */
module TransportThreads {
  import opened Bytes

  datatype Packet = Sync(on: bool, token: nat) | Cnxn | Other(id: nat)

  /** Where the output thread stands. */
  datatype OutPc = Greeting | Pumping | Farewell | OExit(exit: Exit)

  datatype InPc = Feeding | ClosingSockets | IExit(exit: Exit)

  /** kick_transport then transport_unref, cut where another thread can run in between. */
  datatype Exit = Peek | Claim | Kick(lost: bool) | Unref | Done

  datatype MainPc = Idle | Connecting | Freed

  datatype State = State(
    token: nat, output: OutPc, input: InPc, main: MainPc,
    toMain: seq<Packet>, toInput: seq<Packet>, active: bool,
    forwarded: seq<Packet>, mainSent: seq<Packet>, fed: seq<Packet>,   // histories
    kicked: bool, kicks: nat, refs: int, closes: nat, removals: nat)

  function Start(token: nat): State {
    State(token, Greeting, Feeding, Idle, [], [], false, [], [], [], false, 0, 2, 0, 0)
  }

  /** Every scheduling choice and every result of a read or write is in the step. */
  datatype Step =
    | Greet(ok: bool)                 // output: write SYNC(1, ++token)
    | Pump(p: Packet, ok: bool)       // output: a packet from the device, written to the main loop
    | PumpFails                       // output: the device cannot be read
    | SayOffline(ok: bool)            // output: write SYNC(0, 0)
    | OutputExits                     // output: next step of kick and unref
    | MainReads                       // main: handle_packet on the next packet
    | MainConnects                    // main: send_connect after echoing a SYNC
    | MainSends(p: Packet)            // main: any other packet of the stream protocol
    | MainFrees                       // main: the removal posted by the last unref
    | Feed                            // input: the next packet from the main loop
    | FeedFails                       // input: the socket cannot be read
    | CloseSockets(ps: seq<Packet>)   // input: close_all_sockets, which may send
    | InputExits                      // input: next step of kick and unref

  predicate Enabled(s: State, st: Step) {
    match st
    case Greet(_) => s.output.Greeting?
    case Pump(_, _) => s.output.Pumping?
    case PumpFails => s.output.Pumping?
    case SayOffline(_) => s.output.Farewell?
    case OutputExits => s.output.OExit? && !s.output.exit.Done?
    case MainReads => s.main.Idle? && s.toMain != []
    case MainConnects => s.main.Connecting?
    case MainSends(p) => s.main.Idle? && p.Other?
    case MainFrees => s.main.Idle? && s.removals == 1
    case Feed => s.input.Feeding? && s.toInput != []
    case FeedFails => s.input.Feeding?
    case CloseSockets(_) => s.input.ClosingSockets?
    case InputExits => s.input.IExit? && !s.input.exit.Done?
  }

  function Send(s: State, p: Packet): State {
    s.(toInput := s.toInput + [p], mainSent := s.mainSent + [p])
  }

  /** The shared effect of one step of kick_transport / transport_unref, and where the thread goes. */
  function ExitStep(s: State, e: Exit): (State, Exit)
    requires !e.Done?
  {
    match e
    case Peek => (s, if s.kicked then Unref else Claim)
    case Claim => (s.(kicked := true), Kick(s.kicked))
    case Kick(lost) => (if lost then s else s.(kicks := s.kicks + 1), Unref)
    case Unref =>
      var s1 := s.(refs := s.refs - 1);
      if s1.refs != 0 then (s1, Done) else
      var s2 := if s1.kicked then s1 else s1.(kicked := true, kicks := s1.kicks + 1);
      (s2.(closes := s2.closes + 1, removals := s2.removals + 1), Done)
  }

  function Next(s: State, st: Step): State
    requires Enabled(s, st)
  {
    match st
    case Greet(ok) =>
      var s1 := s.(token := s.token + 1);
      if ok then s1.(output := Pumping, toMain := s1.toMain + [Sync(true, s1.token)])
      else s1.(output := OExit(Peek))
    case Pump(p, ok) => if ok then s.(toMain := s.toMain + [p]) else s.(output := OExit(Peek))
    case PumpFails => s.(output := Farewell)
    case SayOffline(ok) =>
      s.(output := OExit(Peek), toMain := if ok then s.toMain + [Sync(false, 0)] else s.toMain)
    case OutputExits =>
      var (s1, e) := ExitStep(s, s.output.exit); s1.(output := OExit(e))
    case MainReads =>
      var p, s1 := s.toMain[0], s.(toMain := s.toMain[1..]);
      if p.Sync? then Send(s1, p).(main := if p.on then Connecting else Idle) else s1
    case MainConnects => Send(s, Cnxn).(main := Idle)
    case MainSends(p) => Send(s, p)
    case MainFrees => s.(main := Freed)
    case Feed =>
      var p, s1 := s.toInput[0], s.(toInput := s.toInput[1..], fed := s.fed + [s.toInput[0]]);
      if p.Sync? then
        if !p.on then s1.(input := ClosingSockets)
        else s1.(active := s.active || p.token == s.token)
      else s1.(forwarded := if s.active then s.forwarded + [p] else s.forwarded)
    case FeedFails => s.(input := ClosingSockets)
    case CloseSockets(ps) => s.(input := IExit(Peek), toInput := s.toInput + ps)
    case InputExits =>
      var (s1, e) := ExitStep(s, s.input.exit); s1.(input := IExit(e))
  }

  predicate CanRun(s: State, run: seq<Step>)
    decreases |run|
  {
    run == [] || (Enabled(s, run[0]) && CanRun(Next(s, run[0]), run[1..]))
  }

  function After(s: State, run: seq<Step>): State
    requires CanRun(s, run)
    decreases |run|
  {
    if run == [] then s else After(Next(s, run[0]), run[1..])
  }

  // ---------------------------------------------------------------- kick and reference count

  predicate Claimed(e: Exit) { e == Kick(false) }

  predicate PastKick(e: Exit) { e.Unref? || e.Done? }

  function OutExit(s: State): Exit { if s.output.OExit? then s.output.exit else Peek }

  function InExit(s: State): Exit { if s.input.IExit? then s.input.exit else Peek }

  predicate KickInv(s: State) {
    var o, i := OutExit(s), InExit(s);
    && s.kicks + B2N(Claimed(o)) + B2N(Claimed(i)) == B2N(s.kicked)
    && (PastKick(o) || PastKick(i) || o.Kick? || i.Kick? ==> s.kicked)
    && s.refs == B2N(!o.Done?) + B2N(!i.Done?)
    && s.closes == s.removals == B2N(s.refs == 0)
    && (s.main.Freed? ==> s.refs == 0)
  }

  lemma ExitStepKeeps(s: State, e: Exit, other: Exit)
    requires !e.Done?
    requires s.kicks + B2N(Claimed(e)) + B2N(Claimed(other)) == B2N(s.kicked)
    requires PastKick(e) || PastKick(other) || e.Kick? || other.Kick? ==> s.kicked
    requires s.refs == 1 + B2N(!other.Done?) && s.closes == s.removals == 0
    ensures var (s1, e1) := ExitStep(s, e);
      && s1.kicks + B2N(Claimed(e1)) + B2N(Claimed(other)) == B2N(s1.kicked)
      && (PastKick(e1) || PastKick(other) || e1.Kick? || other.Kick? ==> s1.kicked)
      && s1.refs == B2N(!e1.Done?) + B2N(!other.Done?)
      && s1.closes == s1.removals == B2N(s1.refs == 0)
  {}

  /** Steps that are not part of an exit do not touch the flag, the counters or the exits. */
  lemma Quiet(s: State, st: Step)
    requires Enabled(s, st) && !st.OutputExits? && !st.InputExits?
    ensures var s1 := Next(s, st);
      && s1.kicked == s.kicked && s1.kicks == s.kicks && s1.refs == s.refs
      && s1.closes == s.closes && s1.removals == s.removals
      && OutExit(s1) == OutExit(s) && InExit(s1) == InExit(s)
      && (s1.main.Freed? ==> s.main.Freed? || s.removals == 1)
  {}

  lemma KickStep(s: State, st: Step)
    requires KickInv(s) && Enabled(s, st)
    ensures KickInv(Next(s, st))
  {
    if st.OutputExits? {
      ExitStepKeeps(s, OutExit(s), InExit(s));
    } else if st.InputExits? {
      ExitStepKeeps(s, InExit(s), OutExit(s));
    } else {
      Quiet(s, st);
      hide Next;
    }
  }

  // ---------------------------------------------------------------- what is forwarded to the device

  /** The simple form of the input thread: what it forwards out of the packets `q`, read one after the other. */
  function Forward(q: seq<Packet>, token: nat, active: bool): seq<Packet> {
    if q == [] then []
    else match q[0]
      case Sync(on, t) => if on then Forward(q[1..], token, active || t == token) else []
      case _ => (if active then [q[0]] else []) + Forward(q[1..], token, active)
  }

  predicate NoSync(q: seq<Packet>) {
    q == [] || (!q[0].Sync? && NoSync(q[1..]))
  }

  /** Nothing in `q` stops the input thread. */
  predicate NoOffline(q: seq<Packet>) {
    q == [] || ((q[0].Sync? ==> q[0].on) && NoOffline(q[1..]))
  }

  predicate Opened(q: seq<Packet>, token: nat) {
    q != [] && (q[0] == Sync(true, token) || Opened(q[1..], token))
  }

  lemma {:induction false} ForwardNothing(q: seq<Packet>, token: nat)
    requires NoSync(q)
    ensures Forward(q, token, false) == [] && !Opened(q, token) && NoOffline(q)
  {
    if q != [] {
      ForwardNothing(q[1..], token);
    }
  }

  /** Reading one more packet. */
  lemma {:induction false} ForwardOne(q: seq<Packet>, p: Packet, token: nat, active: bool)
    requires NoOffline(q)
    ensures Forward(q + [p], token, active)
         == Forward(q, token, active) + if !p.Sync? && (active || Opened(q, token)) then [p] else []
    ensures Opened(q + [p], token) == (Opened(q, token) || p == Sync(true, token))
    ensures NoOffline(q + [p]) == (p.Sync? ==> p.on)
  {
    if q == [] {
      assert q + [p] == [p] && [p][1..] == [];
    } else {
      assert (q + [p])[1..] == q[1..] + [p];
      ForwardOne(q[1..], p, token, active || q[0] == Sync(true, token));
    }
  }

  lemma {:induction false} NoSyncAppend(q: seq<Packet>, p: Packet)
    ensures NoSync(q + [p]) == (NoSync(q) && !p.Sync?)
  {
    if q == [] {
      assert q + [p] == [p] && [p][1..] == [];
    } else {
      assert (q + [p])[1..] == q[1..] + [p];
      NoSyncAppend(q[1..], p);
    }
  }

  predicate Hello(p: Packet) { p.Sync? && p.on }

  /** Every SYNC(1) the main loop echoes is followed at once by its CNXN. */
  predicate Greeted(q: seq<Packet>) {
    q == [] || (Greeted(q[1..]) && (Hello(q[0]) && |q| > 1 ==> q[1].Cnxn?))
  }

  lemma {:induction false} GreetedAppend(q: seq<Packet>, p: Packet)
    requires Greeted(q) && (q != [] && Hello(q[|q|-1]) ==> p.Cnxn?)
    ensures Greeted(q + [p])
  {
    if q == [] {
      assert [p][1..] == [];
      assert q + [p] == [p];
    } else {
      assert (q + [p])[1..] == q[1..] + [p];
      GreetedAppend(q[1..], p);
    }
  }

  lemma {:induction false} CnxnFirst(q: seq<Packet>, token: nat)
    requires Greeted(q)
    ensures var f := Forward(q, token, false); f != [] ==> f[0].Cnxn?
  {
    if q != [] {
      CnxnFirst(q[1..], token);
      if Hello(q[0]) && q[0].token == token && |q| > 1 {
        assert q[1..][0] == q[1];
      }
    }
  }

  /** The input thread has forwarded exactly what the simple form forwards of what it was fed. */
  predicate FlowInv(s: State) {
    && s.forwarded == Forward(s.fed, s.token, false) && s.fed <= s.mainSent
    && (s.input.Feeding? ==> s.mainSent == s.fed + s.toInput && s.active == Opened(s.fed, s.token) && NoOffline(s.fed))
    && (s.output.Greeting? ==> s.toMain == [] && NoSync(s.mainSent) && NoSync(s.fed) && !s.active)
    && Greeted(s.mainSent) && (s.main.Connecting? <==> s.mainSent != [] && Hello(s.mainSent[|s.mainSent|-1]))
  }

  // ---------------------------------------------------------------- the handshake invariant

  lemma SendKeeps(s: State, p: Packet, main: MainPc)
    requires FlowInv(s) && !s.main.Freed? && !main.Freed?
    requires p.Sync? ==> !s.output.Greeting?
    requires s.main.Connecting? <==> p.Cnxn?
    requires main.Connecting? <==> Hello(p)
    ensures FlowInv(Send(s, p).(main := main))
  {
    GreetedAppend(s.mainSent, p);
    NoSyncAppend(s.mainSent, p);
    assert s.fed + (s.toInput + [p]) == s.fed + s.toInput + [p];
  }

  lemma FeedKeeps(s: State)
    requires FlowInv(s) && s.input.Feeding? && s.toInput != []
    ensures FlowInv(Next(s, Feed))
  {
    var p := s.toInput[0];
    assert s.fed + [p] + s.toInput[1..] == s.fed + s.toInput;
    ForwardOne(s.fed, p, s.token, false);
    NoSyncAppend(s.fed, p);
    NoSyncSplit(s.fed + [p], s.toInput[1..]);
  }

  lemma {:induction false} NoSyncSplit(q: seq<Packet>, rest: seq<Packet>)
    ensures NoSync(q + rest) ==> NoSync(q)
  {
    if q != [] {
      assert (q + rest)[1..] == q[1..] + rest;
      NoSyncSplit(q[1..], rest);
    }
  }

  lemma GreetKeeps(s: State, ok: bool)
    requires FlowInv(s) && s.output.Greeting?
    ensures FlowInv(Next(s, Greet(ok)))
  {
    ForwardNothing(s.fed, s.token);
    ForwardNothing(s.fed, s.token + 1);
  }

  lemma MainReadsKeeps(s: State)
    requires FlowInv(s) && s.main.Idle? && s.toMain != []
    ensures FlowInv(Next(s, MainReads))
  {
    var p := s.toMain[0];
    var s1 := s.(toMain := s.toMain[1..]);
    assert FlowInv(s1);
    if p.Sync? { SendKeeps(s1, p, if p.on then Connecting else Idle); }
  }

  predicate Handled(st: Step) {
    st.Greet? || st.MainReads? || st.MainConnects? || st.MainSends? || st.Feed?
  }

  /** Nothing was read or sent, unless the input thread stopped reading. */
  predicate Untouched(s: State, s1: State) {
    && s1.forwarded == s.forwarded && s1.fed == s.fed && s1.mainSent == s.mainSent && s1.token == s.token
    && s1.active == s.active && (s1.main.Connecting? <==> s.main.Connecting?)
    && (s1.input.Feeding? ==> s.input.Feeding? && s1.toInput == s.toInput)
    && (s1.output.Greeting? ==> s.output.Greeting? && s1.toMain == s.toMain)
  }

  lemma StillOutput(s: State, st: Step)
    requires Enabled(s, st) && (st.Pump? || st.PumpFails? || st.SayOffline? || st.OutputExits?)
    ensures Untouched(s, Next(s, st))
  {}

  /** The steps that are not handled one by one. */
  lemma Still(s: State, st: Step)
    requires Enabled(s, st) && !Handled(st)
    ensures Untouched(s, Next(s, st))
  {
    if st.Pump? || st.PumpFails? || st.SayOffline? || st.OutputExits? {
      StillOutput(s, st);
    }
  }

  lemma FlowStep(s: State, st: Step)
    requires FlowInv(s) && Enabled(s, st)
    ensures FlowInv(Next(s, st))
  {
    hide Forward, Opened, NoOffline, NoSync, Greeted;
    match st
    case Greet(ok) => GreetKeeps(s, ok);
    case MainReads => MainReadsKeeps(s);
    case MainConnects => SendKeeps(s, Cnxn, Idle);
    case MainSends(p) => SendKeeps(s, p, Idle);
    case Feed => FeedKeeps(s);
    case _ =>
      Still(s, st);
      hide Next;
  }

  lemma {:induction false} RunKeeps(s: State, run: seq<Step>)
    requires KickInv(s) && FlowInv(s) && CanRun(s, run)
    ensures KickInv(After(s, run)) && FlowInv(After(s, run))
    decreases |run|
  {
    if run != [] {
      KickStep(s, run[0]);
      FlowStep(s, run[0]);
      hide Next, Enabled, KickInv, FlowInv;
      RunKeeps(Next(s, run[0]), run[1..]);
    }
  }

  // ---------------------------------------------------------------- main results

  /** Under every interleaving the device gets exactly what the simple form of the input thread forwards of
      the packets it was fed, which are the first ones the main loop sent, in order; the first one forwarded
      is CNXN; and nothing is forwarded before the SYNC carrying the current token has been echoed. */
  lemma Handshake(token: nat, run: seq<Step>)
    requires CanRun(Start(token), run)
    ensures var s := After(Start(token), run);
      && s.forwarded == Forward(s.fed, s.token, false) && s.fed <= s.mainSent
      && (s.forwarded != [] ==> s.forwarded[0].Cnxn? && Opened(s.fed, s.token))
      && (s.output.Greeting? ==> s.forwarded == [])
  {
    RunKeeps(Start(token), run);
    var s := After(Start(token), run);
    GreetedPrefix(s.mainSent, |s.fed|);
    assert s.mainSent[..|s.fed|] == s.fed;
    CnxnFirst(s.fed, s.token);
    ForwardOpened(s.fed, s.token);
    if s.output.Greeting? { ForwardNothing(s.fed, s.token); }
  }

  lemma {:induction false} GreetedPrefix(q: seq<Packet>, k: nat)
    requires Greeted(q) && k <= |q|
    ensures Greeted(q[..k])
  {
    if k > 0 {
      assert q[..k][1..] == q[1..][..k - 1];
      GreetedPrefix(q[1..], k - 1);
    }
  }

  lemma {:induction false} ForwardOpened(q: seq<Packet>, token: nat)
    ensures Forward(q, token, false) != [] ==> Opened(q, token)
  {
    if q != [] {
      ForwardOpened(q[1..], token);
    }
  }

  /** The transport is kicked at most once, closed and posted for removal at most once; all of it has
      happened exactly once when both threads have dropped their references, and the main loop frees the
      transport only after that. Once one thread has dropped its reference the transport has been kicked, or the
      other one is just about to. */
  lemma KickedOnce(token: nat, run: seq<Step>)
    requires CanRun(Start(token), run)
    ensures var s := After(Start(token), run);
      var gone := OutExit(s).Done? && InExit(s).Done?;
      && s.kicks <= 1 && s.removals <= 1 && s.closes == s.removals
      && (s.removals == 1 <==> gone)
      && (gone ==> s.kicks == 1 && s.kicked)
      && (OutExit(s).Done? || InExit(s).Done? ==> s.kicked)
      && (s.kicked ==> s.kicks == 1 || OutExit(s) == Kick(false) || InExit(s) == Kick(false))
      && (s.main.Freed? ==> gone)
  {
    RunKeeps(Start(token), run);
  }
}
