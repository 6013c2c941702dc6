/** One ADB endpoint seen as a table of local sockets, indexed by the ids they were installed
    under.  The operations follow sockets.c and the OPEN/OKAY/CLSE/WRTE cases of handle_packet.
    Remote sockets carry no state of their own here: a local socket is linked to the remote
    socket `partner` exactly while it is on the main list. */
module AdbEndpoint {
  import opened Bytes
  import opened Packets

  const MAX_PAYLOAD := 4096

  /** Live: on the main list.  Lingering: on the closing list.  Gone: destroyed. */
  datatype Status = Live | Lingering | Gone

  /** `sent` is what was handed to the remote socket, `written` what the fd accepted; for a
      destroyed socket `queue` is the data that was disposed of unwritten.  `heard`: closed on a
      CLSE from the far end.  `failed`: closed, or cut short, for a reason of its own. */
  datatype Sock = Sock(
    status: Status, partner: Option<nat>, readOn: bool, writeOn: bool, queue: seq<seq<Byte>>,
    sent: seq<Byte>, written: seq<Byte>, heard: bool, failed: bool)

  datatype Endpoint = Endpoint(socks: map<nat, Sock>, nextId: nat, online: bool)

  /** What a loop of adb_write calls achieved: bytes accepted, and whether an error ended it. */
  datatype Wrote = Wrote(count: nat, broken: bool)

  predicate Possible(w: Wrote, total: nat) {
    w.count <= total && (w.broken ==> w.count < total)
  }

  datatype Result = Result(ep: Endpoint, out: seq<Packet>)

  function NewSock(partner: Option<nat>, readOn: bool): Sock {
    Sock(Live, partner, readOn, false, [], [], [], false, false)
  }

  /** Drop the first `k` bytes of a packet queue; packets written to the end leave the queue. */
  function DropBytes(q: seq<seq<Byte>>, k: nat): (r: seq<seq<Byte>>)
    requires k <= |Flat(q)|
    ensures Flat(r) == Flat(q)[k..]
  {
    if q == [] then q
    else if k < |q[0]| then
      assert Flat([q[0][k..]] + q[1..]) == q[0][k..] + Flat(q[1..]) by {
        assert ([q[0][k..]] + q[1..])[1..] == q[1..];
      }
      [q[0][k..]] + q[1..]
    else DropBytes(q[1..], k - |q[0]|)
  }

  function Advance(s: Sock, k: nat): Sock
    requires k <= |Flat(s.queue)|
  {
    s.(written := s.written + Flat(s.queue)[..k], queue := DropBytes(s.queue, k))
  }

  /** local_socket_close_locked, on the socket alone. */
  function Closed(s: Sock, heard: bool): Sock {
    var stays := s.status.Live? && s.queue != [];
    s.(status := if stays then Lingering else Gone, readOn := false, writeOn := stays && s.writeOn,
       heard := s.heard || heard, failed := s.failed || !heard)
  }

  function ClosePacket(s: Sock): seq<Packet> {
    if s.status.Live? && s.partner.Some? then [Clse(0, s.partner.value)] else []
  }

  function CloseSocket(ep: Endpoint, x: nat, heard: bool): Result
    requires x in ep.socks
  {
    Result(ep.(socks := ep.socks[x := Closed(ep.socks[x], heard)]), ClosePacket(ep.socks[x]))
  }

  /** connect_to_remote on a freshly created local socket. */
  function Connect(ep: Endpoint): Result {
    Result(ep.(socks := ep.socks[ep.nextId := NewSock(None, false)], nextId := ep.nextId + 1),
           [Open(ep.nextId)])
  }

  predicate IsLive(ep: Endpoint, x: nat) {
    x in ep.socks && ep.socks[x].status.Live?
  }

  function GotOpen(ep: Endpoint, y: nat, service: bool): Result {
    if service then
      Result(ep.(socks := ep.socks[ep.nextId := NewSock(Some(y), true)], nextId := ep.nextId + 1),
             [Okay(ep.nextId, y)])
    else Result(ep, [Clse(0, y)])
  }

  function GotOkay(ep: Endpoint, y: nat, x: nat): Result
    requires IsLive(ep, x)
  {
    var s := ep.socks[x];
    Result(ep.(socks := ep.socks[x := s.(partner := if s.partner.None? then Some(y) else s.partner,
                                         readOn := true)]), [])
  }

  /** The packet a failing write was working on is in no queue: its rest is lost with the socket. */
  function GotWrte(ep: Endpoint, y: nat, x: nat, data: seq<Byte>, w: Wrote): Result
    requires IsLive(ep, x)
    requires ep.socks[x].queue == [] ==> Possible(w, |data|)
  {
    var s := ep.socks[x];
    if s.queue != [] then
      Result(ep.(socks := ep.socks[x := s.(queue := s.queue + [data], writeOn := true)]), [])
    else
      var s1 := s.(written := s.written + data[..w.count]);
      if w.broken then
        Result(ep.(socks := ep.socks[x := Closed(s1, false).(queue := [data[w.count..]])]), ClosePacket(s1))
      else if w.count == |data| then
        Result(ep.(socks := ep.socks[x := s1]), [Okay(x, y)])
      else
        Result(ep.(socks := ep.socks[x := s1.(queue := [data[w.count..]], writeOn := true)]), [])
  }

  function HandlePacket(ep: Endpoint, p: Packet, w: Wrote, service: bool): Result
    requires p.Wrte? && IsLive(ep, p.to) && ep.socks[p.to].queue == [] ==> Possible(w, |p.data|)
  {
    if !ep.online then Result(ep, []) else
    match p
    case Open(y) => GotOpen(ep, y, service)
    case Okay(y, x) => if IsLive(ep, x) then GotOkay(ep, y, x) else Result(ep, [])
    case Clse(_, x) => if IsLive(ep, x) then CloseSocket(ep, x, true) else Result(ep, [])
    case Wrte(y, x, d) => if IsLive(ep, x) then GotWrte(ep, y, x, d, w) else Result(ep, [])
  }

  /** The FDE_WRITE half of local_socket_event_func.  `go`: the FDE_READ half runs next. */
  datatype Drained = Drained(res: Result, go: bool)

  function OnWritable(ep: Endpoint, x: nat, w: Wrote): Drained
    requires x in ep.socks && Possible(w, |Flat(ep.socks[x].queue)|)
  {
    var s := ep.socks[x];
    var s1 := Advance(s, w.count);
    if w.broken then
      Drained(Result(ep.(socks := ep.socks[x := Closed(s1, false)]), ClosePacket(s1)), false)
    else if w.count < |Flat(s.queue)| then
      Drained(Result(ep.(socks := ep.socks[x := s1]), []), false)
    else if s.status.Lingering? then
      Drained(Result(ep.(socks := ep.socks[x := s1.(status := Gone, writeOn := false)]), []), false)
    else
      Drained(Result(ep.(socks := ep.socks[x := s1.(writeOn := false)]),
                     if s.partner.Some? then [Okay(x, s.partner.value)] else []), true)
  }

  /** The FDE_READ half: `data` was read, `eof` says how the read loop ended. */
  function OnReadable(ep: Endpoint, x: nat, data: seq<Byte>, eof: bool): Result
    requires x in ep.socks
  {
    var s := ep.socks[x];
    var sends := data != [] && s.status.Live? && s.partner.Some?;
    var s1 := if sends then s.(sent := s.sent + data, readOn := false) else s;
    var out := if sends then [Wrte(x, s.partner.value, data)] else [];
    if eof then
      Result(ep.(socks := ep.socks[x := Closed(s1, false)]), out + ClosePacket(s1))
    else
      Result(ep.(socks := ep.socks[x := s1]), out)
  }

  function SocketEvent(ep: Endpoint, x: nat, evW: bool, evR: bool, w: Wrote, data: seq<Byte>, eof: bool): Result
    requires x in ep.socks && (evW ==> Possible(w, |Flat(ep.socks[x].queue)|))
  {
    var d := if evW then OnWritable(ep, x, w) else Drained(Result(ep, []), true);
    if evR && d.go then
      var r := OnReadable(d.res.ep, x, data, eof);
      Result(r.ep, d.res.out + r.out)
    else d.res
  }

  /** handle_offline: every remote socket is disconnected, closing the local socket it served. */
  function GoOffline(ep: Endpoint): Endpoint {
    ep.(online := false,
        socks := map x | x in ep.socks ::
          if ep.socks[x].status.Live? && ep.socks[x].partner.Some? then Closed(ep.socks[x], false)
          else ep.socks[x])
  }
}
