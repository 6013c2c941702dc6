/** What the three threads of a transport pass to each other, told from the steps of a run alone. */
module TransportFlow {
  import opened Bytes
  import opened TransportThreads

  function Front(run: seq<Step>): seq<Step>
    requires run != []
  {
    run[..|run| - 1]
  }

  function Last(run: seq<Step>): Step
    requires run != []
  {
    run[|run| - 1]
  }

  lemma {:induction false} LastStep(s: State, run: seq<Step>)
    requires CanRun(s, run) && run != []
    ensures CanRun(s, Front(run)) && Enabled(After(s, Front(run)), Last(run))
    ensures After(s, run) == Next(After(s, Front(run)), Last(run))
    decreases |run|
  {
    if |run| > 1 {
      LastStep(Next(s, run[0]), run[1..]);
      assert Front(run)[1..] == Front(run[1..]);
    }
  }

  // ---------------------------------------------------------------- histories of the steps

  /** What a step writes to the main loop. */
  function Supply(token: nat, st: Step): seq<Packet> {
    match st
    case Greet(ok) => if ok then [Sync(true, token + 1)] else []
    case Pump(p, ok) => if ok then [p] else []
    case SayOffline(ok) => if ok then [Sync(false, 0)] else []
    case _ => []
  }

  /** What the output thread has written to the main loop. */
  function Supplied(token: nat, run: seq<Step>): seq<Packet> {
    if run == [] then [] else Supplied(token, Front(run)) + Supply(token, Last(run))
  }

  /** The packets read from the device and written to the main loop. */
  function Pumped(run: seq<Step>): seq<Packet> {
    if run == [] then []
    else Pumped(Front(run)) + if Last(run).Pump? && Last(run).ok then [Last(run).p] else []
  }

  /** How many packets the main loop, and the input thread, have read. */
  function Reads(run: seq<Step>): nat {
    if run == [] then 0 else Reads(Front(run)) + B2N(Last(run).MainReads?)
  }

  function Feeds(run: seq<Step>): nat {
    if run == [] then 0 else Feeds(Front(run)) + B2N(Last(run).Feed?)
  }

  /** What a step sends to the input thread when the main loop has read `i` packets of `from`: every SYNC it reads,
      CNXN, and packets of its own; with `closing`, also what the sockets send that the input thread closes. */
  function Sends(st: Step, from: seq<Packet>, i: nat, closing: bool): seq<Packet> {
    match st
    case MainReads => if i < |from| && from[i].Sync? then [from[i]] else []
    case MainConnects => [Cnxn]
    case MainSends(p) => [p]
    case CloseSockets(ps) => if closing then ps else []
    case _ => []
  }

  function Outgoing(token: nat, run: seq<Step>, closing: bool): seq<Packet> {
    if run == [] then []
    else
      var front := Front(run);
      Outgoing(token, front, closing) + Sends(Last(run), Supplied(token, front), Reads(front), closing)
  }

  // ---------------------------------------------------------------- queues

  /** `i` packets of `from` have been read by the main loop. */
  predicate MainQueue(s: State, token: nat, from: seq<Packet>, i: nat) {
    i <= |from| && s.toMain == from[i..] && s.token == token + B2N(!s.output.Greeting?)
  }

  lemma ExitSpares(s: State, e: Exit)
    requires !e.Done?
    ensures var s1 := ExitStep(s, e).0;
      s1 == s.(kicked := s1.kicked, kicks := s1.kicks, refs := s1.refs, closes := s1.closes, removals := s1.removals)
  {}

  /** The steps of an exit leave the queues and histories alone. */
  lemma ExitsSpare(s: State, st: Step)
    requires Enabled(s, st)
    ensures st.OutputExits? || st.InputExits? ==>
      var s1 := Next(s, st);
      && s1.toMain == s.toMain && s1.toInput == s.toInput && s1.fed == s.fed && s1.mainSent == s.mainSent
      && s1.token == s.token && s1.output.Greeting? == s.output.Greeting?
      && s1.output.OExit? == s.output.OExit? && s1.input.IExit? == s.input.IExit?
  {
    if st.OutputExits? {
      ExitSpares(s, s.output.exit);
    } else if st.InputExits? {
      ExitSpares(s, s.input.exit);
    }
    hide ExitStep;
  }

  lemma MainQueueStep(s: State, st: Step, token: nat, from: seq<Packet>, i: nat)
    requires Enabled(s, st) && MainQueue(s, token, from, i)
    ensures MainQueue(Next(s, st), token, from + Supply(token, st), i + B2N(st.MainReads?))
  {
    ExitsSpare(s, st);
    hide ExitStep;
  }

  /** `j` packets of `all` have been read by the input thread. */
  predicate InputQueue(s: State, all: seq<Packet>, j: nat) {
    j <= |all| && s.toInput == all[j..] && s.fed == all[..j]
  }

  /** A step reads the first packet of the input queue, or appends what it sends. */
  lemma InputMoves(s: State, st: Step, token: nat, from: seq<Packet>, i: nat)
    requires Enabled(s, st) && MainQueue(s, token, from, i)
    ensures var s1, sent := Next(s, st), Sends(st, from, i, true);
      if st.Feed? then s.toInput != [] && s1.toInput == s.toInput[1..] && s1.fed == s.fed + [s.toInput[0]] && sent == []
      else s1.fed == s.fed && s1.toInput == s.toInput + sent
  {
    ExitsSpare(s, st);
    hide ExitStep;
  }

  lemma Advances(all: seq<Packet>, j: nat, sent: seq<Packet>)
    requires j <= |all|
    ensures all[j..] + sent == (all + sent)[j..] && (all + sent)[..j] == all[..j]
    ensures j < |all| ==> all[j..][1..] == all[j + 1..] && all[..j] + [all[j..][0]] == all[..j + 1]
    ensures all + [] == all
  {}

  lemma InputQueueStep(s: State, st: Step, token: nat, from: seq<Packet>, i: nat, all: seq<Packet>, j: nat)
    requires Enabled(s, st) && InputQueue(s, all, j) && MainQueue(s, token, from, i)
    ensures InputQueue(Next(s, st), all + Sends(st, from, i, true), j + B2N(st.Feed?))
  {
    InputMoves(s, st, token, from, i);
    Advances(all, j, Sends(st, from, i, true));
    hide Next, Enabled, Sends, MainQueue;
  }

  lemma SentStep(s: State, st: Step, token: nat, from: seq<Packet>, i: nat)
    requires Enabled(s, st) && MainQueue(s, token, from, i)
    ensures Next(s, st).mainSent == s.mainSent + Sends(st, from, i, false)
  {
    ExitsSpare(s, st);
    hide ExitStep;
  }

  lemma {:induction false} QueuesKept(token: nat, run: seq<Step>)
    requires CanRun(Start(token), run)
    ensures MainQueue(After(Start(token), run), token, Supplied(token, run), Reads(run))
    ensures InputQueue(After(Start(token), run), Outgoing(token, run, true), Feeds(run))
    ensures After(Start(token), run).mainSent == Outgoing(token, run, false)
    decreases |run|
  {
    if run != [] {
      var front := Front(run);
      LastStep(Start(token), run);
      hide CanRun, After, Next, Enabled, Supply, Sends, MainQueue, InputQueue;
      QueuesKept(token, front);
      var s, st, from, i := After(Start(token), front), Last(run), Supplied(token, front), Reads(front);
      MainQueueStep(s, st, token, from, i);
      InputQueueStep(s, st, token, from, i, Outgoing(token, front, true), Feeds(front));
      SentStep(s, st, token, from, i);
    }
  }

  /** Under every interleaving, each queue loses nothing, adds nothing and keeps its order: what the main loop has read
      and what waits for it are what the output thread wrote; it echoes every SYNC it reads; and what the input thread
      has read and what waits for it are what was sent. */
  lemma Queues(token: nat, run: seq<Step>)
    requires CanRun(Start(token), run)
    ensures var s, from, out := After(Start(token), run), Supplied(token, run), Outgoing(token, run, true);
      && s.token == token + B2N(!s.output.Greeting?)
      && Reads(run) <= |from| && s.toMain == from[Reads(run)..]
      && Feeds(run) <= |out| && s.toInput == out[Feeds(run)..] && s.fed == out[..Feeds(run)]
      && s.mainSent == Outgoing(token, run, false)
  {
    hide CanRun, After, Outgoing, Supplied, Reads, Feeds;
    QueuesKept(token, run);
  }

  // ---------------------------------------------------------------- the threads

  /** A packet from the device could not be written to the main loop. */
  predicate Broken(run: seq<Step>) {
    exists st <- run :: st.Pump? && !st.ok
  }

  predicate Closed(run: seq<Step>) {
    exists st <- run :: st.CloseSockets?
  }

  predicate Greeted(run: seq<Step>) { Greet(true) in run }

  predicate Left(run: seq<Step>) { SayOffline(true) in run || SayOffline(false) in run }

  /** Where the threads stand follows from the steps they have made. */
  predicate Stands(s: State, run: seq<Step>) {
    OutputStands(s, run) && InputStands(s, run)
  }

  predicate OutputStands(s: State, run: seq<Step>) {
    && (s.output.Greeting? <==> !Greeted(run) && Greet(false) !in run)
    && (s.output.Pumping? <==> Greeted(run) && PumpFails !in run && !Broken(run))
    && (s.output.Farewell? <==> PumpFails in run && !Left(run))
    && (s.output.OExit? <==> Greet(false) in run || Broken(run) || Left(run))
  }

  predicate InputStands(s: State, run: seq<Step>) {
    && (s.input.IExit? <==> Closed(run))
    && (s.input.Feeding? <==> !Closed(run) && FeedFails !in run && NoOffline(s.fed))
  }

  lemma OneMore(run: seq<Step>)
    requires run != []
    ensures var front, last := Front(run), Last(run);
      && (Broken(run) <==> Broken(front) || (last.Pump? && !last.ok))
      && (Closed(run) <==> Closed(front) || last.CloseSockets?)
      && (Greeted(run) <==> Greeted(front) || last == Greet(true))
      && (Left(run) <==> Left(front) || last.SayOffline?)
      && forall st :: st in run <==> st in front || st == last
  {
    assert run == Front(run) + [Last(run)];
  }

  lemma OutputStep(s: State, st: Step, front: seq<Step>, run: seq<Step>)
    requires Enabled(s, st) && OutputStands(s, front) && run != [] && front == Front(run) && st == Last(run)
    ensures OutputStands(Next(s, st), run)
  {
    OneMore(run);
    hide Broken, Closed, Greeted, Left, ExitStep;
  }

  lemma InputStep(s: State, st: Step, front: seq<Step>, run: seq<Step>)
    requires Enabled(s, st) && InputStands(s, front) && run != [] && front == Front(run) && st == Last(run)
    ensures InputStands(Next(s, st), run)
  {
    OneMore(run);
    hide Broken, Closed, Greeted, Left, ExitStep;
    if st.Feed? { ForwardOne(s.fed, s.toInput[0], s.token, false); }
  }

  lemma {:induction false} Standing(token: nat, run: seq<Step>)
    requires CanRun(Start(token), run)
    ensures Stands(After(Start(token), run), run)
    decreases |run|
  {
    if run != [] {
      LastStep(Start(token), run);
      Standing(token, Front(run));
      hide CanRun, After, Next, Enabled, OutputStands, InputStands;
      OutputStep(After(Start(token), Front(run)), Last(run), Front(run), run);
      InputStep(After(Start(token), Front(run)), Last(run), Front(run), run);
    }
  }

  // ---------------------------------------------------------------- main results

  /** From the device to the main loop, under every interleaving: what the main loop has read, and what waits for it,
      are the SYNC of the greeting, if it was written, then the packets read from the device, in order, then the
      farewell, exactly if it was written. */
  lemma DeviceToHost(token: nat, run: seq<Step>)
    requires CanRun(Start(token), run)
    ensures Reads(run) <= |Supplied(token, run)|
    ensures Supplied(token, run)[..Reads(run)] + After(Start(token), run).toMain
         == (if Greet(true) in run then [Sync(true, token + 1)] else [])
            + Pumped(run)
            + (if SayOffline(true) in run then [Sync(false, 0)] else [])
  {
    Queues(token, run);
    AllWritten(token, run);
  }

  /** The greeting if it was written, packets, the farewell if it was written. */
  function Written(token: nat, greeted: bool, ps: seq<Packet>, left: bool): seq<Packet> {
    (if greeted then [Sync(true, token + 1)] else []) + ps + (if left then [Sync(false, 0)] else [])
  }

  lemma WrittenStep(token: nat, greeted: bool, ps: seq<Packet>, left: bool, st: Step)
    requires st.Greet? ==> !greeted && ps == [] && !left
    requires st.Pump? || st.SayOffline? ==> !left
    ensures Written(token, greeted, ps, left) + Supply(token, st)
         == Written(token, greeted || st == Greet(true), ps + if st.Pump? && st.ok then [st.p] else [],
                    left || st == SayOffline(true))
  {
    assert ps + [] == ps;
  }

  lemma {:induction false} AllWritten(token: nat, run: seq<Step>)
    requires CanRun(Start(token), run)
    ensures Supplied(token, run) == Written(token, Greet(true) in run, Pumped(run), SayOffline(true) in run)
    ensures Greet(true) !in run ==> Pumped(run) == []
    decreases |run|
  {
    if run != [] {
      LastStep(Start(token), run);
      Standing(token, Front(run));
      AllWritten(token, Front(run));
      OneMore(run);
      hide CanRun, After, Next, Broken, Closed, Written, Supply, InputStands;
      WrittenStep(token, Greet(true) in Front(run), Pumped(Front(run)), SayOffline(true) in Front(run), Last(run));
    } else {
      assert Pumped(run) == [];
    }
  }

  /** The packets of the stream protocol. */
  function Plain(q: seq<Packet>): seq<Packet> {
    if q == [] then [] else (if q[0].Sync? then [] else [q[0]]) + Plain(q[1..])
  }

  /** What is forwarded of `q`: everything but SYNCs between the SYNC(1) of this token, at `k`, and the first SYNC(0)
      behind it, at `stop`; nothing if a SYNC(0) or the end comes before that SYNC(1). */
  lemma {:induction false} ForwardsBetween(q: seq<Packet>, token: nat, k: nat, stop: nat)
    requires k <= stop <= |q|
    requires forall i :: 0 <= i < stop ==> q[i].Sync? ==> q[i].on
    requires stop < |q| ==> q[stop].Sync? && !q[stop].on
    requires forall i :: 0 <= i < k ==> q[i] != Sync(true, token)
    requires k < stop ==> q[k] == Sync(true, token)
    ensures Forward(q, token, false) == if k < stop then Plain(q[k + 1..stop]) else []
  {
    if q != [] && stop > 0 {
      if k == 0 {
        ForwardsUntil(q[1..], token, stop - 1);
        assert q[1..][..stop - 1] == q[1..stop];
      } else {
        ForwardsBetween(q[1..], token, k - 1, stop - 1);
        if k < stop { assert q[1..][k..stop - 1] == q[k + 1..stop]; }
      }
    }
  }

  lemma {:induction false} ForwardsUntil(q: seq<Packet>, token: nat, stop: nat)
    requires stop <= |q|
    requires forall i :: 0 <= i < stop ==> q[i].Sync? ==> q[i].on
    requires stop < |q| ==> q[stop].Sync? && !q[stop].on
    ensures Forward(q, token, true) == Plain(q[..stop])
  {
    if stop > 0 {
      ForwardsUntil(q[1..], token, stop - 1);
      assert q[..stop][1..] == q[1..][..stop - 1];
    }
  }

  lemma Forwarded(token: nat, run: seq<Step>)
    requires CanRun(Start(token), run)
    ensures var s, sent := After(Start(token), run), Outgoing(token, run, false);
      && Feeds(run) <= |sent| && s.forwarded == Forward(sent[..Feeds(run)], s.token, false)
  {
    Queues(token, run);
    RunKeeps(Start(token), run);
    var s := After(Start(token), run);
    hide KickInv, Outgoing, Forward, CanRun, After, Feeds;
    assert s.fed <= s.mainSent && |s.fed| == Feeds(run);
    assert s.fed == s.mainSent[..Feeds(run)];
  }

  /** Among the first `n` packets of `q`, `k` is the place of the SYNC(1) of this token and `stop` that of the first
      SYNC(0), or their ends. */
  predicate Span(q: seq<Packet>, n: nat, token: nat, k: nat, stop: nat) {
    && k <= stop <= n <= |q|
    && (forall i :: 0 <= i < stop && q[i].Sync? ==> q[i].on)
    && (stop < n ==> q[stop].Sync? && !q[stop].on)
    && (forall i :: 0 <= i < k ==> q[i] != Sync(true, token))
    && (k < stop ==> q[k] == Sync(true, token))
  }

  lemma SpanForwards(q: seq<Packet>, n: nat, token: nat, k: nat, stop: nat)
    requires Span(q, n, token, k, stop)
    ensures Forward(q[..n], token, false) == if k < stop then Plain(q[k + 1..stop]) else []
  {
    ForwardsBetween(q[..n], token, k, stop);
    if k < stop { assert q[..n][k + 1..stop] == q[k + 1..stop]; }
  }

  /** From the main loop to the device, under every interleaving: of the packets that the input thread has read, the
      device got those between the SYNC(1) of this token and the first SYNC(0), without the SYNCs. */
  lemma HostToDevice(token: nat, run: seq<Step>, k: nat, stop: nat)
    requires CanRun(Start(token), run)
    requires Span(Outgoing(token, run, false), Feeds(run), After(Start(token), run).token, k, stop)
    ensures After(Start(token), run).forwarded
         == if k < stop then Plain(Outgoing(token, run, false)[k + 1..stop]) else []
  {
    Forwarded(token, run);
    hide CanRun, After, Outgoing, Forward, Plain, Feeds, Span;
    SpanForwards(Outgoing(token, run, false), Feeds(run), After(Start(token), run).token, k, stop);
  }
}
