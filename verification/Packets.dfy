/** The stream packets two ADB endpoints exchange (adb.h, "READY/OPEN/CLOSE/WRITE")
    and the per-stream view of a FIFO channel holding packets of many streams. */
module Packets {
  import opened Bytes

  datatype Packet =
    | Open(from: nat)
    | Okay(from: nat, to: nat)
    | Clse(from: nat, to: nat)
    | Wrte(from: nat, to: nat, data: seq<Byte>)

  /** `p` is addressed to the local socket `y` of the receiving endpoint. */
  predicate To(p: Packet, y: nat) {
    !p.Open? && p.to == y
  }

  function WrteCount(q: seq<Packet>, x: nat, y: nat): nat {
    if q == [] then 0
    else B2N(q[0].Wrte? && q[0].from == x && q[0].to == y) + WrteCount(q[1..], x, y)
  }

  function OkayCount(q: seq<Packet>, x: nat, y: nat): nat {
    if q == [] then 0 else B2N(q[0] == Okay(x, y)) + OkayCount(q[1..], x, y)
  }

  function ClseCount(q: seq<Packet>, y: nat): nat {
    if q == [] then 0 else B2N(q[0].Clse? && q[0].to == y) + ClseCount(q[1..], y)
  }

  function OpenCount(q: seq<Packet>, x: nat): nat {
    if q == [] then 0 else B2N(q[0] == Open(x)) + OpenCount(q[1..], x)
  }

  function ToCount(q: seq<Packet>, y: nat): nat {
    if q == [] then 0 else B2N(To(q[0], y)) + ToCount(q[1..], y)
  }

  /** Bytes in flight from `x` to `y`, in channel order. */
  function Payload(q: seq<Packet>, x: nat, y: nat): seq<Byte> {
    if q == [] then []
    else (if q[0].Wrte? && q[0].from == x && q[0].to == y then q[0].data else []) + Payload(q[1..], x, y)
  }

  /** The first packet of the channel that socket `y` will see. */
  function FirstTo(q: seq<Packet>, y: nat): Option<Packet> {
    if q == [] then None else if To(q[0], y) then Some(q[0]) else FirstTo(q[1..], y)
  }

  /** Nothing follows a CLSE to the socket that CLSE is addressed to. */
  predicate ClseLast(q: seq<Packet>) {
    q == [] || ((q[0].Clse? ==> ToCount(q[1..], q[0].to) == 0) && ClseLast(q[1..]))
  }

  lemma {:induction false} Append(q: seq<Packet>, p: Packet, x: nat, y: nat)
    ensures WrteCount(q + [p], x, y) == WrteCount(q, x, y) + B2N(p.Wrte? && p.from == x && p.to == y)
    ensures OkayCount(q + [p], x, y) == OkayCount(q, x, y) + B2N(p == Okay(x, y))
    ensures Payload(q + [p], x, y)
         == Payload(q, x, y) + if p.Wrte? && p.from == x && p.to == y then p.data else []
  {
    if q == [] {
      assert q + [p] == [p];
      assert [p][1..] == [];
    } else {
      assert (q + [p])[1..] == q[1..] + [p];
      Append(q[1..], p, x, y);
    }
  }

  lemma {:induction false} AppendTo(q: seq<Packet>, p: Packet, y: nat)
    ensures ToCount(q + [p], y) == ToCount(q, y) + B2N(To(p, y))
    ensures ClseCount(q + [p], y) == ClseCount(q, y) + B2N(p.Clse? && p.to == y)
    ensures OpenCount(q + [p], y) == OpenCount(q, y) + B2N(p == Open(y))
    ensures FirstTo(q + [p], y) == if FirstTo(q, y).Some? then FirstTo(q, y)
                                   else if To(p, y) then Some(p) else None
    ensures FirstTo(q, y).None? <==> ToCount(q, y) == 0
  {
    if q == [] {
      assert q + [p] == [p];
      assert [p][1..] == [];
    } else {
      assert (q + [p])[1..] == q[1..] + [p];
      AppendTo(q[1..], p, y);
    }
  }

  lemma {:induction false} ClseLastAppend(q: seq<Packet>, p: Packet)
    requires ClseLast(q)
    requires p.Open? || ClseCount(q, p.to) == 0
    ensures ClseLast(q + [p])
  {
    if q == [] {
      assert q + [p] == [p];
      assert [p][1..] == [];
    } else {
      assert (q + [p])[1..] == q[1..] + [p];
      ClseLastAppend(q[1..], p);
      if q[0].Clse? {
        AppendTo(q[1..], p, q[0].to);
      }
    }
  }

  /** A socket no packet is addressed to has nothing in flight towards it. */
  lemma {:induction false} NoneTo(q: seq<Packet>, x: nat, y: nat)
    requires ToCount(q, y) == 0
    ensures WrteCount(q, x, y) == 0 && OkayCount(q, x, y) == 0 && ClseCount(q, y) == 0
    ensures Payload(q, x, y) == [] && FirstTo(q, y) == None
  {
    if q != [] {
      NoneTo(q[1..], x, y);
    }
  }

  /** Packets mention only sockets that exist at the two ends. */
  predicate Known(p: Packet, senders: set<nat>, receivers: set<nat>) {
    match p
    case Open(x) => x in senders
    case Okay(x, y) => x in senders && y in receivers
    case Wrte(x, y, d) => x in senders && y in receivers && d != []
    case Clse(_, y) => y in receivers
  }

  predicate AllKnown(q: seq<Packet>, senders: set<nat>, receivers: set<nat>) {
    forall i :: 0 <= i < |q| ==> Known(q[i], senders, receivers)
  }

  lemma {:induction false} FreshSender(q: seq<Packet>, senders: set<nat>, receivers: set<nat>, x: nat, y: nat)
    requires AllKnown(q, senders, receivers) && x !in senders
    ensures WrteCount(q, x, y) == 0 && OkayCount(q, x, y) == 0 && Payload(q, x, y) == [] && OpenCount(q, x) == 0
  {
    if q != [] {
      assert Known(q[0], senders, receivers);
      FreshSender(q[1..], senders, receivers, x, y);
    }
  }

  lemma {:induction false} FreshReceiver(q: seq<Packet>, senders: set<nat>, receivers: set<nat>, y: nat)
    requires AllKnown(q, senders, receivers) && y !in receivers
    ensures ToCount(q, y) == 0
  {
    if q != [] {
      assert Known(q[0], senders, receivers);
      FreshReceiver(q[1..], senders, receivers, y);
    }
  }
}
