/** Two engines joined by two channels: the code of both ends, driven through any run of the protocol. */
module AdbRuns {
  import opened Bytes
  import opened Packets
  import opened AdbEndpoint
  import opened AdbSystem
  import opened AdbProtocol
  import opened AdbLoops
  import opened AdbEngine

  /** One call into an engine, with what its reads and writes will return. */
  datatype Call =
    | Dials
    | Receives(io: seq<Io>, service: bool)
    | Wakes(x: nat, evW: bool, evR: bool, wio: seq<Io>, rio: seq<Io>)
    | Shuts(x: nat)
    | Loses

  /** The call as an action of the protocol. */
  function AsAction(ep: Endpoint, inq: seq<Packet>, c: Call): Action {
    match c
    case Dials => Dial
    case Receives(io, service) =>
      Deliver(if inq != [] && inq[0].Wrte? then WriteLoop(|inq[0].data|, io) else Wrote(0, false), service)
    case Wakes(x, evW, evR, wio, rio) =>
      var r := ReadLoop(MAX_PAYLOAD, rio);
      Poll(x, evW, evR, if x in ep.socks then DrainLoop(ep.socks[x].queue, wio) else Wrote(0, false), r.0, r.1)
    case Shuts(x) => Shut(x)
    case Loses => Lose
  }

  /** The event func does the same whether the transport is online or not. */
  lemma OnlineApart(ep: Endpoint, on: bool, x: nat, evW: bool, evR: bool, w: Wrote, data: seq<Byte>, eof: bool)
    requires x in ep.socks && (evW ==> Possible(w, |Flat(ep.socks[x].queue)|))
    ensures var a, b := SocketEvent(ep, x, evW, evR, w, data, eof),
                        SocketEvent(ep.(online := on), x, evW, evR, w, data, eof);
      b.ep == a.ep.(online := on) && b.out == a.out
  {
    hide Flat, DropBytes, Closed;
  }

  /** A socket that is there is known to the engine, and has a peer if it wants to write. */
  lemma Callable(T: Tables, ep: Endpoint, x: nat)
    requires TablesOk(T) && ep.socks == T.socks && EndWf(ep) && x in ep.socks && !ep.socks[x].status.Gone?
    ensures x in T.locals && (ep.socks[x].writeOn && !T.locals[x].closing ==> T.locals[x].peer.Some?)
    ensures T.locals[x].closing <==> ep.socks[x].status.Lingering?
  {
    assert LocalOk(T, x) && EntryOk(T, x) && SockWf(ep.socks[x]);
  }

  method Wake(e: Engine, t: nat, x: nat, evW: bool, evR: bool, wio: seq<Io>, rio: seq<Io>)
    requires e.Valid() && e.Carried(t) && EndWf(e.Model(t))
    requires Enabled(e.Model(t), [], AsAction(e.Model(t), [], Wakes(x, evW, evR, wio, rio)))
    modifies e
    ensures e.Valid() && e.Carried(t)
    ensures var a := AsAction(old(e.Model(t)), [], Wakes(x, evW, evR, wio, rio));
      e.Model(t) == Act(old(e.Model(t)), [], a).ep && e.sent == old(e.sent) + Act(old(e.Model(t)), [], a).out
  {
    Callable(e.View(), e.Model(t), x);
    ghost var r, k := ReadLoop(MAX_PAYLOAD, rio), e.socks[x];
    OnlineApart(e.Model(0), t in e.online, x, evW, evR, DrainLoop(k.queue, wio), r.0, r.1);
    assert e.locals[x].queue == k.queue by { assert LocalOk(e.View(), x); }
    hide SocketEvent, DrainLoop, ReadLoop, TablesOk, Links, EndWf;
    e.HandleEvent(x, evW, evR, wio, rio);
  }

  method Lost(e: Engine, t: nat)
    requires e.Valid() && e.Carried(t)
    modifies e
    ensures e.Valid() && e.Carried(t) && e.Model(t) == GoOffline(old(e.Model(t))) && e.sent == old(e.sent)
  {
    ghost var T, was := e.View(), t in e.online;
    e.HandleOffline(t);
    OfflineIsGoOffline(T, e.View(), t, was);
  }

  /** One call does to the engine what its action does to the endpoint, and sends what the action sends. */
  method Make(e: Engine, t: nat, inq: seq<Packet>, c: Call) returns (out: seq<Packet>)
    requires e.Valid() && e.Carried(t) && EndWf(e.Model(t)) && Enabled(e.Model(t), inq, AsAction(e.Model(t), inq, c))
    modifies e
    ensures e.Valid() && e.Carried(t)
    ensures var r := Act(old(e.Model(t)), inq, AsAction(old(e.Model(t)), inq, c)); e.Model(t) == r.ep && out == r.out
  {
    var before := |e.sent|;
    match c {
      case Dials => var h := e.Dial(t);
      case Receives(io, service) => e.HandlePacket(t, inq[0], io, service);
      case Wakes(x, evW, evR, wio, rio) => Wake(e, t, x, evW, evR, wio, rio);
      case Shuts(x) =>
        Callable(e.View(), e.Model(t), x);
        e.CloseLocked(x, false);
      case Loses => Lost(e, t);
    }
    out := e.sent[before..];
  }

  // ---------------------------------------------------------------- both ends

  datatype Turn = Turn(side: Side, call: Call)

  function AsStep(s: Sys, c: Turn): Step {
    Step(c.side, AsAction(Here(s, c.side), In(s, c.side), c.call))
  }

  /** Every call is one the protocol enables at that point. */
  predicate CanCall(s: Sys, calls: seq<Turn>)
    decreases |calls|
  {
    calls == [] || (CanStep(s, AsStep(s, calls[0])) && CanCall(Next(s, AsStep(s, calls[0])), calls[1..]))
  }

  function Trace(s: Sys, calls: seq<Turn>): (run: seq<Step>)
    requires CanCall(s, calls)
    ensures CanRun(s, run)
    decreases |calls|
  {
    if calls == [] then []
    else
      var st := AsStep(s, calls[0]);
      var rest := Trace(Next(s, st), calls[1..]);
      assert ([st] + rest)[1..] == rest;
      [st] + rest
  }

  lemma AfterFirst(s: Sys, calls: seq<Turn>)
    requires CanCall(s, calls) && calls != []
    ensures var s1 := Next(s, AsStep(s, calls[0])); After(s, Trace(s, calls)) == After(s1, Trace(s1, calls[1..]))
  {
    var st := AsStep(s, calls[0]);
    var rest := Trace(Next(s, st), calls[1..]);
    assert ([st] + rest)[1..] == rest;
  }

  /** Any run of calls on two engines takes them, and the channels between them, where the run of the protocol leads. */
  method Run(l: Engine, r: Engine, t: nat, lr0: seq<Packet>, rl0: seq<Packet>, calls: seq<Turn>)
    returns (lr: seq<Packet>, rl: seq<Packet>)
    requires l != r && l.Valid() && r.Valid() && l.Carried(t) && r.Carried(t)
    requires var s := Sys(l.Model(t), r.Model(t), lr0, rl0); Inv(s) && CanCall(s, calls)
    modifies l, r
    ensures l.Valid() && r.Valid() && l.Carried(t) && r.Carried(t)
    ensures Sys(l.Model(t), r.Model(t), lr, rl)
         == old(var s := Sys(l.Model(t), r.Model(t), lr0, rl0); After(s, Trace(s, calls)))
    decreases |calls|
  {
    hide Inv, Act, Enabled, Engine.Valid, Engine.Carried, AsAction, Next;
    lr, rl := lr0, rl0;
    if calls == [] {
      return;
    }
    ghost var s := Sys(l.Model(t), r.Model(t), lr0, rl0);
    NextKeeps(s, AsStep(s, calls[0]));
    AfterFirst(s, calls);
    lr, rl := MakeTurn(l, r, t, lr0, rl0, calls[0]);
    lr, rl := Run(l, r, t, lr, rl, calls[1..]);
  }

  /** One call at one of the ends. */
  method MakeTurn(l: Engine, r: Engine, t: nat, lr0: seq<Packet>, rl0: seq<Packet>, c: Turn)
    returns (lr: seq<Packet>, rl: seq<Packet>)
    requires l != r && l.Valid() && r.Valid() && l.Carried(t) && r.Carried(t)
    requires var s := Sys(l.Model(t), r.Model(t), lr0, rl0); Inv(s) && CanStep(s, AsStep(s, c))
    modifies l, r
    ensures l.Valid() && r.Valid() && l.Carried(t) && r.Carried(t)
    ensures Sys(l.Model(t), r.Model(t), lr, rl)
         == old(var s := Sys(l.Model(t), r.Model(t), lr0, rl0); Next(s, AsStep(s, c)))
  {
    assert EndWf(l.Model(t)) && EndWf(r.Model(t));
    hide Inv, Act, Enabled, EndWf;
    if c.side.Left? {
      var out := Make(l, t, rl0, c.call);
      lr, rl := lr0 + out, if c.call.Receives? then rl0[1..] else rl0;
    } else {
      var out := Make(r, t, lr0, c.call);
      lr, rl := if c.call.Receives? then lr0[1..] else lr0, rl0 + out;
    }
  }

  /** Two new engines whose transport comes online are at the start of the protocol, and every run of calls on them
      that the protocol enables ends where the protocol does. */
  method RunFromStart(calls: seq<Turn>) returns (l: Engine, r: Engine, lr: seq<Packet>, rl: seq<Packet>)
    requires CanCall(START, calls)
    ensures fresh(l) && fresh(r) && l.Valid() && r.Valid()
    ensures Sys(l.Model(0), r.Model(0), lr, rl) == After(START, Trace(START, calls))
  {
    l := new Engine();
    l.HandleOnline(0);
    r := new Engine();
    r.HandleOnline(0);
    RunKeeps(START, []);
    lr, rl := Run(l, r, 0, [], [], calls);
  }
}
