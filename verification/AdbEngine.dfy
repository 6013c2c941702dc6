/** sockets.c and the stream cases of handle_packet, step by step: the main and closing lists, peer
    pointers, packet queues and fd event flags are changed in place.  Pointers are handles into the two
    socket tables.  `socks` is the abstract table of AdbEndpoint; every method changes it exactly as the
    corresponding function there says. */
module AdbEngine {
  import opened Bytes
  import opened Packets
  import opened AdbEndpoint
  import opened AdbLoops

  // ---------------------------------------------------------------- lists

  /** The nodes linked on list `q` are those of `S`, each once. */
  ghost predicate Links(q: seq<nat>, S: set<nat>) {
    if q == [] then S == {} else q[|q|-1] in S && Links(q[..|q|-1], S - {q[|q|-1]})
  }

  lemma {:induction false} Linked(q: seq<nat>, S: set<nat>, x: nat)
    requires Links(q, S)
    ensures x in q <==> x in S
    decreases |q|
  {
    if q != [] {
      var last := q[|q|-1];
      Linked(q[..|q|-1], S - {last}, x);
      assert q == q[..|q|-1] + [last];
    }
  }

  /** remove_socket and remove_transport_disconnect unlink one node. */
  lemma {:induction false} Unlinked(q: seq<nat>, S: set<nat>, x: nat)
    requires Links(q, S)
    ensures Links(Without(q, x), S - {x})
    decreases |q|
  {
    if q != [] {
      var last := q[|q|-1];
      Unlinked(q[..|q|-1], S - {last}, x);
      if last == x {
        assert S - {last} - {x} == S - {x};
      } else {
        Appended(Without(q[..|q|-1], x), S - {last} - {x}, last);
        assert S - {last} - {x} + {last} == S - {x};
      }
    }
  }

  lemma {:induction false} Differ(q: seq<nat>, S: set<nat>, i: nat, j: nat)
    requires Links(q, S) && i < j < |q|
    ensures q[i] != q[j]
    decreases |q|
  {
    var last, front := q[|q| - 1], q[..|q| - 1];
    if j < |q| - 1 {
      Differ(front, S - {last}, i, j);
    } else {
      Linked(front, S - {last}, last);
      assert front[i] in front;
    }
  }

  /** Unlinking the node at `i` leaves every other node where it was linked. */
  lemma {:induction false} UnlinkedAt(q: seq<nat>, S: set<nat>, i: nat)
    requires Links(q, S) && i < |q|
    ensures Without(q, q[i]) == q[..i] + q[i + 1..]
    decreases |q|
  {
    var last, front := q[|q| - 1], q[..|q| - 1];
    Linked(front, S - {last}, last);
    if i == |q| - 1 {
      NotThere(front, last);
      assert q[i + 1..] == [];
    } else {
      UnlinkedAt(front, S - {last}, i);
      assert front[i] in front;
      assert front[..i] == q[..i] && front[i + 1..] + [last] == q[i + 1..];
    }
  }

  lemma {:induction false} NotThere(q: seq<nat>, x: nat)
    requires x !in q
    ensures Without(q, x) == q
  {
    if q != [] {
      assert q == q[..|q| - 1] + [q[|q| - 1]];
      NotThere(q[..|q| - 1], x);
    }
  }

  lemma Appended(q: seq<nat>, S: set<nat>, x: nat)
    requires Links(q, S) && x !in S
    ensures Links(q + [x], S + {x})
  {
    assert (q + [x])[..|q + [x]|-1] == q;
    assert S + {x} - {x} == S;
  }

  /** A local socket; its handle is the id it was installed under, `id` is the field of that name. */
  datatype Local = Local(id: nat, closing: bool, peer: Option<nat>, queue: seq<seq<Byte>>,
                         readOn: bool, writeOn: bool, transport: Option<nat>)

  datatype Remote = Remote(id: nat, peer: Option<nat>, transport: nat)

  ghost function Those(locals: map<nat, Local>, closing: bool): set<nat> {
    set h | h in locals && locals[h].closing == closing
  }

  // ---------------------------------------------------------------- the tables

  datatype Tables = Tables(locals: map<nat, Local>, remotes: map<nat, Remote>, socks: map<nat, Sock>,
                           nextId: nat, nextRemote: nat)

  predicate Peers(T: Tables, h: nat, l: Local, k: Sock) {
    if l.peer.None? then k.partner.None?
    else && l.peer.value in T.remotes && T.remotes[l.peer.value].peer == Some(h)
         && k.partner == Some(T.remotes[l.peer.value].id)
  }

  /** A local socket and its abstract counterpart: on the main list under its own id, with a peer that
      points back; or on the closing list, without id and peer. */
  predicate LocalOk(T: Tables, h: nat) {
    h in T.locals ==>
      && h in T.socks
      && var l, k := T.locals[h], T.socks[h];
      && k.queue == l.queue && k.readOn == l.readOn && k.writeOn == l.writeOn
      && (if l.closing then l.id == 0 && l.peer.None? && k.status.Lingering?
          else l.id == h && k.status.Live? && Peers(T, h, l, k))
  }

  predicate RemoteOk(T: Tables, r: nat) {
    r in T.remotes ==>
      && r < T.nextRemote && T.remotes[r].peer.Some?
      && T.remotes[r].peer.value in T.locals && T.locals[T.remotes[r].peer.value].peer == Some(r)
  }

  predicate EntryOk(T: Tables, h: nat) {
    h in T.socks ==> 0 < h < T.nextId && (h in T.locals <==> !T.socks[h].status.Gone?)
  }

  ghost predicate TablesOk(T: Tables) {
    && 0 < T.nextId
    && (forall h {:trigger LocalOk(T, h)} :: LocalOk(T, h))
    && (forall r {:trigger RemoteOk(T, r)} :: RemoteOk(T, r))
    && (forall h {:trigger EntryOk(T, h)} :: EntryOk(T, h))
  }

  /** What closing `h` does to the tables. */
  function CloseIn(T: Tables, h: nat, heard: bool): Tables
    requires h in T.locals && h in T.socks
  {
    var l := T.locals[h];
    T.(locals := if l.closing || l.queue == [] then T.locals - {h}
                 else T.locals[h := l.(id := 0, closing := true, readOn := false, peer := None)],
       remotes := if l.peer.Some? then T.remotes - {l.peer.value} else T.remotes,
       socks := T.socks[h := Closed(T.socks[h], heard)])
  }

  lemma CloseKeeps(T: Tables, h: nat, heard: bool)
    requires TablesOk(T) && h in T.locals
    ensures h in T.socks && TablesOk(CloseIn(T, h, heard))
  {
    assert LocalOk(T, h) && EntryOk(T, h);
    var T' := CloseIn(T, h, heard);
    forall g ensures LocalOk(T', g) && EntryOk(T', g) { assert LocalOk(T, g) && EntryOk(T, g); }
    forall r ensures RemoteOk(T', r) { assert RemoteOk(T, r); }
  }

  /** Updating queue, flags or history of a listed socket leaves the tables in order. */
  lemma UpdateKeeps(T: Tables, h: nat, l: Local, k: Sock)
    requires TablesOk(T) && h in T.locals && h in T.socks
    requires l == T.locals[h].(queue := l.queue, readOn := l.readOn, writeOn := l.writeOn)
    requires k.status == T.socks[h].status && k.partner == T.socks[h].partner
    requires k.queue == l.queue && k.readOn == l.readOn && k.writeOn == l.writeOn
    ensures TablesOk(T.(locals := T.locals[h := l], socks := T.socks[h := k]))
  {
    var T' := T.(locals := T.locals[h := l], socks := T.socks[h := k]);
    assert LocalOk(T, h) && EntryOk(T, h);
    forall g ensures LocalOk(T', g) && EntryOk(T', g) { assert LocalOk(T, g) && EntryOk(T, g); }
    forall r ensures RemoteOk(T', r) { assert RemoteOk(T, r); }
  }

  /** What a destroyed socket lost is history only. */
  lemma LossKeeps(T: Tables, h: nat, k: Sock)
    requires TablesOk(T) && h in T.socks && h !in T.locals && k.status.Gone?
    ensures TablesOk(T.(socks := T.socks[h := k]))
  {
    var T' := T.(socks := T.socks[h := k]);
    forall g ensures LocalOk(T', g) && EntryOk(T', g) { assert LocalOk(T, g) && EntryOk(T, g); }
    forall r ensures RemoteOk(T', r) { assert RemoteOk(T, r); }
  }

  /** A new local socket at the end of the main list, with or without its remote socket. */
  function AddIn(T: Tables, l: Local, k: Sock, far: Option<nat>, t: nat): Tables {
    T.(locals := T.locals[T.nextId := l], socks := T.socks[T.nextId := k], nextId := T.nextId + 1,
       remotes := if far.Some? then T.remotes[T.nextRemote := Remote(far.value, Some(T.nextId), t)] else T.remotes,
       nextRemote := if far.Some? then T.nextRemote + 1 else T.nextRemote)
  }

  lemma AddKeeps(T: Tables, far: Option<nat>, readOn: bool, own: Option<nat>, t: nat)
    requires TablesOk(T)
    ensures T.nextId !in T.locals && T.nextRemote !in T.remotes
    ensures var peer := if far.Some? then Some(T.nextRemote) else None;
      TablesOk(AddIn(T, Local(T.nextId, false, peer, [], readOn, false, own), NewSock(far, readOn), far, t))
  {
    var peer := if far.Some? then Some(T.nextRemote) else None;
    var T' := AddIn(T, Local(T.nextId, false, peer, [], readOn, false, own), NewSock(far, readOn), far, t);
    assert LocalOk(T, T.nextId) && EntryOk(T, T.nextId) && RemoteOk(T, T.nextRemote);
    forall g ensures LocalOk(T', g) && EntryOk(T', g) {
      assert LocalOk(T, g) && EntryOk(T, g);
    }
    forall r ensures RemoteOk(T', r) {
      assert RemoteOk(T, r);
      if r in T.remotes { assert LocalOk(T, T.remotes[r].peer.value); }
    }
  }

  /** Linking a socket that was connecting to a new remote socket. */
  function LinkIn(T: Tables, h: nat, y: nat, t: nat): Tables
    requires h in T.locals && h in T.socks
  {
    T.(locals := T.locals[h := T.locals[h].(peer := Some(T.nextRemote))],
       socks := T.socks[h := T.socks[h].(partner := Some(y))],
       remotes := T.remotes[T.nextRemote := Remote(y, Some(h), t)], nextRemote := T.nextRemote + 1)
  }

  lemma LinkKeeps(T: Tables, h: nat, y: nat, t: nat)
    requires TablesOk(T) && h in T.locals && h in T.socks && !T.locals[h].closing && T.locals[h].peer.None?
    ensures T.nextRemote !in T.remotes && TablesOk(LinkIn(T, h, y, t))
  {
    var T' := LinkIn(T, h, y, t);
    assert RemoteOk(T, T.nextRemote) && LocalOk(T, h) && EntryOk(T, h);
    forall g ensures LocalOk(T', g) && EntryOk(T', g) { assert LocalOk(T, g) && EntryOk(T, g); }
    forall r ensures RemoteOk(T', r) { assert RemoteOk(T, r); }
  }

  /** remote_socket_disconnect frees the remote socket of `h`; the history of `h` is set aside. */
  function CutIn(T: Tables, h: nat): Tables
    requires h in T.locals && h in T.socks && T.locals[h].peer.Some?
  {
    T.(locals := T.locals[h := T.locals[h].(peer := None)], remotes := T.remotes - {T.locals[h].peer.value},
       socks := T.socks[h := T.socks[h].(partner := None)])
  }

  lemma CutKeeps(T: Tables, h: nat)
    requires TablesOk(T) && h in T.locals && T.locals[h].peer.Some?
    ensures h in T.socks && TablesOk(CutIn(T, h))
  {
    assert LocalOk(T, h) && EntryOk(T, h);
    var T' := CutIn(T, h);
    forall g ensures LocalOk(T', g) && EntryOk(T', g) { assert LocalOk(T, g) && EntryOk(T, g); }
    forall r ensures RemoteOk(T', r) { assert RemoteOk(T, r); }
  }

  lemma CutVia(T: Tables, T': Tables, h: nat)
    requires TablesOk(T) && h in T.locals && T.locals[h].peer.Some?
    requires T'.remotes == T.remotes - {T.locals[h].peer.value}
    requires forall g :: g != h ==>
      (g in T'.locals <==> g in T.locals) && (g in T.locals ==> T'.locals[g] == T.locals[g])
    ensures forall g, t :: g != h ==> Via(T', g, t) == Via(T, g, t)
    ensures forall t :: h in T'.locals && T'.locals[h].peer.None? ==> !Via(T', h, t)
  {
    forall g, t | g != h ensures Via(T', g, t) == Via(T, g, t) {
      assert LocalOk(T, g) && LocalOk(T, h);
    }
  }

  lemma PartnerKeeps(T: Tables, h: nat, far: Option<nat>)
    requires TablesOk(T) && h in T.socks && !T.socks[h].status.Live?
    ensures TablesOk(T.(socks := T.socks[h := T.socks[h].(partner := far)]))
  {
    var T' := T.(socks := T.socks[h := T.socks[h].(partner := far)]);
    forall g ensures LocalOk(T', g) && EntryOk(T', g) { assert LocalOk(T, g) && EntryOk(T, g); }
    forall r ensures RemoteOk(T', r) { assert RemoteOk(T, r); }
  }

  /** close_all_sockets picks the sockets of transport `t`: their own, or their peer's. */
  predicate Of(T: Tables, h: nat, t: nat) {
    && h in T.locals && !T.locals[h].closing
    && (T.locals[h].transport == Some(t)
        || (T.locals[h].peer.Some? && T.locals[h].peer.value in T.remotes
            && T.remotes[T.locals[h].peer.value].transport == t))
  }

  /** The CLSE packets of closing the sockets `gone`, in that order. */
  function Farewells(socks: map<nat, Sock>, gone: seq<nat>): seq<Packet> {
    if gone == [] then []
    else Farewells(socks, gone[..|gone|-1])
         + if gone[|gone|-1] in socks then ClosePacket(socks[gone[|gone|-1]]) else []
  }

  /** `T` came from `T0` by closing some sockets of transport `t`; nothing else changed. */
  ghost predicate ClosedSome(T0: Tables, T: Tables, t: nat) {
    && T.socks.Keys == T0.socks.Keys && T.nextId == T0.nextId && T.nextRemote == T0.nextRemote
    && forall h <- T0.socks ::
         if Of(T0, h, t) && !Of(T, h, t) then T.socks[h] == Closed(T0.socks[h], false)
         else && T.socks[h] == T0.socks[h] && Of(T, h, t) == Of(T0, h, t) && (h in T.locals <==> h in T0.locals)
              && (h in T.locals ==> T.locals[h] == T0.locals[h])
  }

  /** The local socket is closing, or neither it nor the remote socket it is linked to belongs to transport `t`. */
  predicate Elsewhere(locals: map<nat, Local>, remotes: map<nat, Remote>, h: nat, t: nat)
    requires h in locals
  {
    var l := locals[h];
    l.closing || (l.transport != Some(t)
                  && (l.peer.Some? ==> l.peer.value in remotes && remotes[l.peer.value].transport != t))
  }

  lemma LeftAlone(T0: Tables, T: Tables, t: nat)
    requires TablesOk(T0) && TablesOk(T) && ClosedSome(T0, T, t) && forall h :: !Of(T, h, t)
    ensures forall h <- T.locals :: Elsewhere(T.locals, T.remotes, h, t)
    ensures forall h <- T0.locals ::
      Elsewhere(T0.locals, T0.remotes, h, t) ==> h in T.locals && T.locals[h] == T0.locals[h]
  {
    forall h <- T.locals ensures Elsewhere(T.locals, T.remotes, h, t) { assert LocalOk(T, h) && !Of(T, h, t); }
    forall h <- T0.locals
      ensures Elsewhere(T0.locals, T0.remotes, h, t) ==> h in T.locals && T.locals[h] == T0.locals[h]
    {
      assert LocalOk(T0, h);
    }
  }

  /** The sockets of transport `t` that were closed on the way from `T0` to `T`. */
  ghost function Shed(T0: Tables, T: Tables, t: nat): set<nat> {
    set h | h in T0.socks && Of(T0, h, t) && !Of(T, h, t)
  }

  lemma NoneShed(T: Tables, t: nat)
    ensures ClosedSome(T, T, t) && Links([], Shed(T, T, t)) && Farewells(T.socks, []) == []
  {
    assert Shed(T, T, t) == {};
  }

  lemma ClosedMore(T0: Tables, T: Tables, h: nat, t: nat, gone: seq<nat>)
    requires TablesOk(T) && ClosedSome(T0, T, t) && Of(T, h, t) && Links(gone, Shed(T0, T, t))
    ensures h in T.socks && ClosedSome(T0, CloseIn(T, h, false), t)
    ensures Links(gone + [h], Shed(T0, CloseIn(T, h, false), t))
    ensures Farewells(T0.socks, gone + [h]) == Farewells(T0.socks, gone) + ClosePacket(T.socks[h])
  {
    assert LocalOk(T, h);
    OthersOf(T, h, t);
    assert Shed(T0, CloseIn(T, h, false), t) == Shed(T0, T, t) + {h};
    Appended(gone, Shed(T0, T, t), h);
    assert (gone + [h])[..|gone|] == gone;
  }

  lemma {:induction false} Shorter(q: seq<nat>, x: nat)
    ensures |Without(q, x)| <= |q|
    ensures x in q ==> |Without(q, x)| < |q|
  {
    if q != [] {
      Shorter(q[..|q|-1], x);
      assert q == q[..|q|-1] + [q[|q|-1]];
    }
  }

  /** Closing one socket changes neither the transport of another, nor its being open. */
  lemma OthersOf(T: Tables, h: nat, t: nat)
    requires TablesOk(T) && h in T.locals && h in T.socks
    ensures forall g :: g != h ==> Of(CloseIn(T, h, false), g, t) == Of(T, g, t)
    ensures !Of(CloseIn(T, h, false), h, t)
  {
    assert LocalOk(T, h);
    forall g | g != h ensures Of(CloseIn(T, h, false), g, t) == Of(T, g, t) {
      assert LocalOk(T, g);
    }
  }

  /** `h` is linked to a remote socket of transport `t`. */
  predicate Via(T: Tables, h: nat, t: nat) {
    && h in T.locals && T.locals[h].peer.Some? && T.locals[h].peer.value in T.remotes
    && T.remotes[T.locals[h].peer.value].transport == t
  }

  /** `T` came from `T0` by disconnecting some remote sockets of transport `t`. */
  ghost predicate CutSome(T0: Tables, T: Tables, t: nat) {
    && T.socks.Keys == T0.socks.Keys && T.nextId == T0.nextId
    && Spared(T0, T, t)
    && (forall h :: Via(T, h, t) ==> Via(T0, h, t))
    && (forall h <- T0.socks ::
          T.socks[h] == if Via(T0, h, t) && !Via(T, h, t) then Closed(T0.socks[h], false) else T0.socks[h])
  }

  /** Remote sockets of other transports, and local sockets not linked to one of transport `t`, stay as they are. */
  ghost predicate Spared(T0: Tables, T: Tables, t: nat) {
    && (forall r <- T.remotes :: r in T0.remotes && T.remotes[r] == T0.remotes[r])
    && (forall r <- T0.remotes :: T0.remotes[r].transport != t ==> r in T.remotes)
    && (forall h <- T0.locals ::
          T0.locals[h].peer == None || (T0.locals[h].peer.value in T0.remotes
                                        && T0.remotes[T0.locals[h].peer.value].transport != t)
          ==> h in T.locals && T.locals[h] == T0.locals[h])
  }

  lemma Survivors(T0: Tables, T: Tables, t: nat)
    requires TablesOk(T0) && Spared(T0, T, t) && forall r <- T.remotes :: T.remotes[r].transport != t
    ensures T.remotes == map r | r in T0.remotes && T0.remotes[r].transport != t :: T0.remotes[r]
    ensures forall h <- T0.locals ::
      T0.locals[h].peer == None || T0.locals[h].peer.value in T.remotes ==> h in T.locals && T.locals[h] == T0.locals[h]
  {}

  lemma CutMore(T0: Tables, T: Tables, T': Tables, h: nat, t: nat)
    requires CutSome(T0, T, t) && h in T.socks && Via(T, h, t) && !Via(T', h, t)
    requires TablesOk(T) && T'.remotes == T.remotes - {T.locals[h].peer.value}
    requires forall g :: g != h ==>
      (g in T'.locals <==> g in T.locals) && (g in T.locals ==> T'.locals[g] == T.locals[g])
    requires T'.socks == T.socks[h := Closed(T.socks[h], false)] && T'.nextId == T.nextId
    requires forall g :: g != h ==> Via(T', g, t) == Via(T, g, t)
    ensures CutSome(T0, T', t)
  {}

  /** When one transport carries every stream, losing it is AdbEndpoint.GoOffline. */
  lemma OfflineIsGoOffline(T: Tables, T': Tables, t: nat, was: bool)
    requires TablesOk(T) && CutSome(T, T', t) && forall h :: !Via(T', h, t)
    requires forall r <- T.remotes :: T.remotes[r].transport == t
    ensures Endpoint(T'.socks, T'.nextId, false) == GoOffline(Endpoint(T.socks, T.nextId, was))
  {
    var G := GoOffline(Endpoint(T.socks, T.nextId, was));
    assert G.socks.Keys == T.socks.Keys;
    forall h <- T.socks ensures T'.socks[h] == G.socks[h] {
      assert LocalOk(T, h) && EntryOk(T, h);
    }
  }

  class Engine {
    var locals: map<nat, Local>
    var remotes: map<nat, Remote>
    var mainList: seq<nat>
    var closingList: seq<nat>
    var disconnects: seq<nat>    // the remote sockets, in the order they were created
    var nextId: nat
    var nextRemote: nat
    var online: set<nat>
    var sent: seq<Packet>
    ghost var socks: map<nat, Sock>

    ghost function View(): Tables
      reads this
    {
      Tables(locals, remotes, socks, nextId, nextRemote)
    }

    ghost predicate Lists()
      reads this
    {
      && Links(mainList, Those(locals, false))
      && Links(closingList, Those(locals, true))
      && Links(disconnects, remotes.Keys)
    }

    ghost predicate Valid()
      reads this
    {
      TablesOk(View()) && Lists()
    }

    /** The endpoint as transport `t` sees it. */
    ghost function Model(t: nat): Endpoint
      reads this
    {
      Endpoint(socks, nextId, t in online)
    }

    /** Every remote socket belongs to transport `t`. */
    ghost predicate Carried(t: nat)
      reads this`remotes
    {
      forall r <- remotes :: remotes[r].transport == t
    }

    constructor ()
      ensures Valid() && Model(0) == Endpoint(map[], 1, false) && sent == []
      ensures mainList == [] && closingList == [] && forall c :: Carried(c)
    {
      locals, remotes, mainList, closingList, disconnects := map[], map[], [], [], [];
      nextId, nextRemote, online, sent := 1, 0, {}, [];
      socks := map[];
    }

    method FindLocal(id: nat) returns (h: Option<nat>)
      requires Valid()
      ensures h == if IsLive(Model(0), id) then Some(id) else None
      ensures IsLive(Model(0), id) <==> id in locals && !locals[id].closing
    {
      var i := 0;
      while i < |mainList|
        invariant 0 <= i <= |mainList|
        invariant forall j :: 0 <= j < i ==> mainList[j] in locals && locals[mainList[j]].id != id
      {
        Linked(mainList, Those(locals, false), mainList[i]);
        assert LocalOk(View(), mainList[i]);
        if locals[mainList[i]].id == id {
          return Some(mainList[i]);
        }
        i := i + 1;
      }
      Linked(mainList, Those(locals, false), id);
      assert LocalOk(View(), id) && EntryOk(View(), id);
      return None;
    }

    /** The peer is told by CLSE, leaves the disconnect list and is freed. */
    method DropPeer(h: nat) returns (s: Local)
      requires Valid() && h in locals
      modifies this`sent, this`remotes, this`disconnects
      ensures s == locals[h].(peer := None) && Links(disconnects, remotes.Keys)
      ensures remotes == if locals[h].peer.Some? then old(remotes) - {locals[h].peer.value} else old(remotes)
      ensures h in socks && sent == old(sent) + ClosePacket(socks[h])
      ensures locals[h].peer == None ==> disconnects == old(disconnects)
    {
      assert LocalOk(View(), h);
      s := locals[h];
      if s.peer.Some? {
        var r := s.peer.value;
        sent := sent + [Clse(0, remotes[r].id)];
        Unlinked(disconnects, remotes.Keys, r);
        disconnects := Without(disconnects, r);
        remotes := remotes - {r};
        assert remotes.Keys == old(remotes.Keys) - {r};
        s := s.(peer := None);
      }
    }

    /** Destroy the socket, or keep it on the closing list while it has packets to write. */
    method Retire(h: nat, s: Local)
      requires Links(mainList, Those(locals, false)) && Links(closingList, Those(locals, true)) && h in locals
      requires s.closing == locals[h].closing
      modifies this`locals, this`mainList, this`closingList
      ensures Links(mainList, Those(locals, false)) && Links(closingList, Those(locals, true))
      ensures mainList == Without(old(mainList), h)
      ensures locals == if s.closing || s.queue == [] then old(locals) - {h}
                        else old(locals)[h := s.(id := 0, closing := true, readOn := false)]
    {
      Unlinked(mainList, Those(locals, false), h);
      Unlinked(closingList, Those(locals, true), h);
      mainList, closingList := Without(mainList, h), Without(closingList, h);
      if s.closing || s.queue == [] {
        locals := locals - {h};
        assert Those(locals, true) == Those(old(locals), true) - {h};
      } else {
        Appended(closingList, Those(locals, true) - {h}, h);
        closingList := closingList + [h];
        locals := locals[h := s.(id := 0, closing := true, readOn := false)];
        assert Those(locals, true) == Those(old(locals), true) - {h} + {h};
      }
      assert Those(locals, false) == Those(old(locals), false) - {h};
    }

    /** local_socket_close_locked. */
    method CloseLocked(h: nat, ghost heard: bool)
      requires Valid() && h in locals
      modifies this
      ensures Valid() && old(h in socks)
      ensures View() == CloseIn(old(View()), h, heard)
      ensures sent == old(sent) + ClosePacket(old(socks[h]))
      ensures mainList == Without(old(mainList), h) && online == old(online)
      ensures old(locals)[h].peer == None ==> disconnects == old(disconnects)
      ensures forall c :: old(Carried(c)) ==> Carried(c)
    {
      CloseKeeps(View(), h, heard);
      var s := DropPeer(h);
      Retire(h, s);
      socks := socks[h := Closed(socks[h], heard)];
    }

    /** One pass of close_all_sockets over the main list. */
    method FirstOf(t: nat) returns (h: Option<nat>)
      requires Valid()
      ensures h.Some? ==> Of(View(), h.value, t) && h.value in mainList
      ensures h.None? ==> forall g :: !Of(View(), g, t)
    {
      var i := 0;
      while i < |mainList|
        invariant 0 <= i <= |mainList|
        invariant forall j :: 0 <= j < i ==> !Of(View(), mainList[j], t)
      {
        Linked(mainList, Those(locals, false), mainList[i]);
        var s := locals[mainList[i]];
        assert LocalOk(View(), mainList[i]);
        if s.transport == Some(t) || (s.peer.Some? && remotes[s.peer.value].transport == t) {
          return Some(mainList[i]);
        }
        i := i + 1;
      }
      forall g ensures !Of(View(), g, t) {
        Linked(mainList, Those(locals, false), g);
      }
      return None;
    }

    lemma Tabled()
      requires Valid()
      ensures TablesOk(View())
    {}

    /** close_all_sockets: start over after every close, since closing changes the list. */
    method CloseAllSockets(t: nat) returns (ghost gone: seq<nat>)
      requires Valid()
      modifies this
      ensures Valid() && online == old(online)
      ensures sent == old(sent) + Farewells(old(socks), gone) && Links(gone, Shed(old(View()), View(), t))
      ensures forall h :: !Of(View(), h, t)
      ensures ClosedSome(old(View()), View(), t)
      ensures forall h <- locals :: Elsewhere(locals, remotes, h, t)
      ensures forall h <- old(locals) ::
        Elsewhere(old(locals), old(remotes), h, t) ==> h in locals && locals[h] == old(locals)[h]
    {
      hide ClosedSome, Shed, Links, Farewells, Engine.Valid;
      NoneShed(View(), t);
      ghost var T0 := View();
      Tabled();
      hide TablesOk;
      gone := [];
      var h := FirstOf(t);
      while h.Some?
        invariant Valid() && online == old(online)
        invariant sent == old(sent) + Farewells(old(socks), gone)
        invariant Links(gone, Shed(old(View()), View(), t))
        invariant ClosedSome(old(View()), View(), t)
        invariant h.Some? ==> Of(View(), h.value, t) && h.value in mainList
        invariant h.None? ==> forall g :: !Of(View(), g, t)
        decreases |mainList|, h.Some?
      {
        CloseOneOf(h.value, t, old(View()), gone);
        gone := gone + [h.value];
        h := FirstOf(t);
      }
      Tabled();
      LeftAlone(T0, View(), t);
    }

    /** One round of close_all_sockets, after the sockets `gone` have been closed. */
    method CloseOneOf(h: nat, t: nat, ghost T0: Tables, ghost gone: seq<nat>)
      requires Valid() && h in mainList && Of(View(), h, t)
      requires ClosedSome(T0, View(), t) && Links(gone, Shed(T0, View(), t))
      modifies this
      ensures Valid() && online == old(online) && |mainList| < old(|mainList|)
      ensures ClosedSome(T0, View(), t) && Links(gone + [h], Shed(T0, View(), t))
      ensures old(sent) <= sent && Farewells(T0.socks, gone + [h]) == Farewells(T0.socks, gone) + sent[|old(sent)|..]
    {
      ClosedMore(T0, View(), h, t, gone);
      Shorter(mainList, h);
      CloseLocked(h, false);
    }

    /** Queue and flags of `h` change; `k` is its abstract entry afterwards. */
    method Put(h: nat, l: Local, ghost k: Sock)
      requires Valid() && h in locals && h in socks
      requires l == locals[h].(queue := l.queue, readOn := l.readOn, writeOn := l.writeOn)
      requires k.status == socks[h].status && k.partner == socks[h].partner
      requires k.queue == l.queue && k.readOn == l.readOn && k.writeOn == l.writeOn
      modifies this`locals, this`socks
      ensures Valid() && locals == old(locals)[h := l] && socks == old(socks)[h := k]
    {
      UpdateKeeps(View(), h, l, k);
      locals, socks := locals[h := l], socks[h := k];
      assert Those(locals, false) == Those(old(locals), false);
      assert Those(locals, true) == Those(old(locals), true);
    }

    /** Close a socket that has nothing left to write, or is closing already: it is destroyed. */
    method CloseNow(h: nat, ghost k: Sock)
      requires Valid() && h in locals && h in socks && k.status.Gone?
      requires locals[h].closing || locals[h].queue == []
      modifies this
      ensures Valid() && h !in locals && socks == old(socks)[h := k]
      ensures sent == old(sent) + ClosePacket(old(socks)[h]) && online == old(online) && nextId == old(nextId)
      ensures forall c :: old(Carried(c)) ==> Carried(c)
    {
      CloseLocked(h, false);
      LossKeeps(View(), h, k);
      socks := socks[h := k];
    }

    /** local_socket_enqueue: 0 if the packet was written out, 1 if it was queued or the socket closed.
        `y` is the socket an acknowledgement would go to. */
    method Enqueue(h: nat, data: seq<Byte>, io: seq<Io>, ghost y: nat, ghost t: nat) returns (r: nat)
      requires Valid() && IsLive(Model(t), h)
      modifies this
      ensures Valid() && online == old(online)
      ensures var g := GotWrte(old(Model(t)), y, h, data, WriteLoop(|data|, io));
        && socks == g.ep.socks && nextId == g.ep.nextId
        && (r == 0 ==> g.out == [Okay(h, y)] && sent == old(sent) && h in locals && locals[h].id == h)
        && (r != 0 ==> sent == old(sent) + g.out)
      ensures forall c :: old(Carried(c)) ==> Carried(c)
    {
      hide Links, WriteLoop;
      assert LocalOk(View(), h) && EntryOk(View(), h);
      var s := locals[h];
      ghost var k := socks[h];
      if s.queue != [] {
        Put(h, s.(queue := s.queue + [data], writeOn := true), k.(queue := s.queue + [data], writeOn := true));
        return 1;
      }
      var done, broken := WritePacket(|data|, io);
      ghost var k1 := k.(written := k.written + data[..done]);
      if broken {
        Put(h, s, k1);
        CloseNow(h, Closed(k1, false).(queue := [data[done..]]));
        return 1;
      }
      if done == |data| {
        Put(h, s, k1);
        return 0;
      }
      Put(h, s.(queue := [data[done..]], writeOn := true), k1.(queue := [data[done..]], writeOn := true));
      return 1;
    }

    /** The FDE_WRITE half of local_socket_event_func; `go`: control reaches the FDE_READ half. */
    method HandleWritable(h: nat, io: seq<Io>) returns (go: bool)
      requires Valid() && h in locals && h in socks
      requires !locals[h].closing ==> locals[h].peer.Some?   // the peer ready() is called on
      modifies this
      ensures Valid() && online == old(online)
      ensures var d := OnWritable(old(Model(0)), h, DrainLoop(old(socks[h]).queue, io));
        && socks == d.res.ep.socks && nextId == d.res.ep.nextId && sent == old(sent) + d.res.out && go == d.go
      ensures go ==> h in locals && h in socks
      ensures go ==> locals[h].peer == old(locals[h].peer) && locals[h].closing == old(locals[h].closing)
      ensures forall c :: old(Carried(c)) ==> Carried(c)
    {
      assert LocalOk(View(), h);
      ghost var was := socks;
      var broken := WriteQueue(h, io);
      ghost var k1 := socks[h];
      go := Settle(h, broken);
      assert socks == was[h := socks[h]];
    }

    /** After the write loops: close on error, wait if packets are left, otherwise see Emptied. */
    method Settle(h: nat, broken: bool) returns (go: bool)
      requires Valid() && h in locals && h in socks
      requires !locals[h].closing ==> locals[h].peer.Some?
      modifies this
      ensures Valid() && online == old(online) && nextId == old(nextId) && h in socks
      ensures socks == old(socks)[h := socks[h]] && go == (!broken && old(locals[h]).queue == []
          && !old(locals[h].closing))
      ensures var k := old(socks)[h];
        if broken then socks[h] == Closed(k, false) && sent == old(sent) + ClosePacket(k)
        else if k.queue != [] then socks[h] == k && sent == old(sent)
        else if !go then socks[h] == k.(status := Gone, writeOn := false) && sent == old(sent)
        else socks[h] == k.(writeOn := false) && k.partner.Some? && sent == old(sent) + [Okay(h, k.partner.value)]
      ensures go ==> h in locals && locals[h].peer == old(locals[h].peer) && !locals[h].closing
      ensures forall c :: old(Carried(c)) ==> Carried(c)
    {
      assert LocalOk(View(), h);
      if broken {
        CloseLocked(h, false);
        return false;
      }
      if locals[h].queue != [] {
        assert socks == socks[h := socks[h]];
        return false;
      }
      go := Emptied(h);
    }

    method WriteQueue(h: nat, io: seq<Io>) returns (broken: bool)
      requires Valid() && h in locals && h in socks
      modifies this`locals, this`socks
      ensures Valid() && old(socks)[h].queue == old(locals[h].queue)
      ensures var w := DrainLoop(old(socks)[h].queue, io);
        && broken == w.broken && socks == old(socks)[h := Advance(old(socks)[h], w.count)]
        && h in locals && locals[h] == old(locals)[h].(queue := socks[h].queue)
        && (locals[h].queue == [] <==> w.count == |Flat(old(socks)[h].queue)|)
    {
      assert LocalOk(View(), h) && EntryOk(View(), h);
      var s := locals[h];
      var q;
      q, broken := DrainQueue(s.queue, io);
      ghost var w := DrainLoop(s.queue, io);
      DrainEmpty(s.queue, w.count);
      Put(h, s.(queue := q), Advance(socks[h], w.count));
    }

    /** The queue is empty: destroy a closing socket, otherwise tell the peer to resume. */
    method Emptied(h: nat) returns (go: bool)
      requires Valid() && h in locals && h in socks && locals[h].queue == []
      requires !locals[h].closing ==> locals[h].peer.Some?
      modifies this
      ensures Valid() && online == old(online) && nextId == old(nextId)
      ensures go == !old(locals[h].closing)
      ensures go ==> socks == old(socks)[h := old(socks)[h].(writeOn := false)] && old(socks)[h].partner.Some?
                     && sent == old(sent) + [Okay(h, old(socks)[h].partner.value)]
                     && h in locals && locals[h].peer == old(locals[h].peer) && !locals[h].closing
      ensures !go ==> socks == old(socks)[h := old(socks)[h].(status := Gone, writeOn := false)] && sent == old(sent)
      ensures forall c :: old(Carried(c)) ==> Carried(c)
    {
      assert LocalOk(View(), h);
      var s := locals[h];
      if s.closing {
        CloseNow(h, socks[h].(status := Gone, writeOn := false));
        return false;
      }
      Put(h, s.(writeOn := false), socks[h].(writeOn := false));
      sent := sent + [Okay(s.id, remotes[s.peer.value].id)];
      return true;
    }

    /** The FDE_READ half: what was read goes to the peer as one WRTE, if there is a peer. */
    method HandleReadable(h: nat, io: seq<Io>)
      requires Valid() && h in locals && h in socks
      modifies this
      ensures Valid() && online == old(online)
      ensures var r := ReadLoop(MAX_PAYLOAD, io);
        var d := OnReadable(old(Model(0)), h, r.0, r.1);
        socks == d.ep.socks && nextId == d.ep.nextId && sent == old(sent) + d.out
      ensures forall c :: old(Carried(c)) ==> Carried(c)
    {
      hide Engine.Valid, ReadLoop, Closed, ClosePacket;
      var data, eof := ReadAll(MAX_PAYLOAD, io);
      ghost var was := socks;
      SendUp(h, data);
      if eof {
        ghost var k := socks[h];
        CloseLocked(h, false);
        assert socks == was[h := Closed(k, false)];
      }
    }

    /** remote_socket_enqueue: one WRTE, and no more reading until it is acknowledged. */
    method SendUp(h: nat, data: seq<Byte>)
      requires Valid() && h in locals && h in socks
      modifies this`locals, this`socks, this`sent
      ensures Valid() && h in locals
      ensures var k := old(socks)[h];
        if data != [] && k.status.Live? && k.partner.Some?
        then socks == old(socks)[h := k.(sent := k.sent + data, readOn := false)]
             && sent == old(sent) + [Wrte(h, k.partner.value, data)]
        else socks == old(socks)[h := k] && sent == old(sent)
    {
      assert LocalOk(View(), h);
      var s := locals[h];
      if data != [] && s.peer.Some? {
        sent := sent + [Wrte(s.id, remotes[s.peer.value].id, data)];
        Put(h, s.(readOn := false), socks[h].(sent := socks[h].sent + data, readOn := false));
      } else {
        assert socks[h := socks[h]] == socks;
      }
    }

    /** local_socket_event_func. */
    method HandleEvent(h: nat, evW: bool, evR: bool, wio: seq<Io>, rio: seq<Io>)
      requires Valid() && h in locals && h in socks
      requires evW && !locals[h].closing ==> locals[h].peer.Some?
      modifies this
      ensures Valid() && online == old(online)
      ensures var r := ReadLoop(MAX_PAYLOAD, rio);
        var d := SocketEvent(old(Model(0)), h, evW, evR, DrainLoop(old(socks[h]).queue, wio), r.0, r.1);
        socks == d.ep.socks && nextId == d.ep.nextId && sent == old(sent) + d.out
      ensures forall c :: old(Carried(c)) ==> Carried(c)
    {
      hide Engine.Valid, OnReadable, ReadLoop, DrainLoop;
      var go := true;
      if evW {
        go := HandleWritable(h, wio);
      }
      if evR && go {
        HandleReadable(h, rio);
      }
    }

    /** create_remote_socket, serving local socket `h`. */
    method AddRemote(y: nat, h: nat, t: nat) returns (r: nat)
      requires Links(disconnects, remotes.Keys) && nextRemote !in remotes
      modifies this`remotes, this`disconnects, this`nextRemote
      ensures Links(disconnects, remotes.Keys)
      ensures r == old(nextRemote) && nextRemote == r + 1 && remotes == old(remotes)[r := Remote(y, Some(h), t)]
      ensures old(Carried(t)) ==> Carried(t)
    {
      r := nextRemote;
      Appended(disconnects, remotes.Keys, r);
      disconnects := disconnects + [r];
      remotes := remotes[r := Remote(y, Some(h), t)];
      assert remotes.Keys == old(remotes.Keys) + {r};
      nextRemote := nextRemote + 1;
    }

    /** insert_local_socket at the end of the main list. */
    method Enlist(h: nat, l: Local)
      requires Links(mainList, Those(locals, false)) && Links(closingList, Those(locals, true))
      requires h !in locals && !l.closing
      modifies this`mainList, this`locals
      ensures Links(mainList, Those(locals, false)) && Links(closingList, Those(locals, true))
      ensures mainList == old(mainList) + [h] && locals == old(locals)[h := l]
    {
      Appended(mainList, Those(locals, false), h);
      mainList := mainList + [h];
      locals := locals[h := l];
      assert Those(locals, false) == Those(old(locals), false) + {h};
      assert Those(locals, true) == Those(old(locals), true);
    }

    /** create_local_socket for transport `t`, not linked to anything yet. */
    method AddLocal(t: nat) returns (h: nat)
      requires Valid()
      modifies this
      ensures Valid() && h == old(nextId) && nextId == h + 1 && online == old(online) && sent == old(sent)
      ensures socks == old(socks)[h := NewSock(None, false)] && mainList == old(mainList) + [h]
      ensures forall c :: old(Carried(c)) ==> Carried(c)
    {
      AddKeeps(View(), None, false, Some(t), t);
      h := nextId;
      Enlist(h, Local(h, false, None, [], false, false, Some(t)));
      nextId := nextId + 1;
      socks := socks[h := NewSock(None, false)];
    }

    /** create_local_service_socket linked to a new remote socket, and ready to read. */
    method AddService(y: nat, t: nat) returns (h: nat)
      requires Valid()
      modifies this
      ensures Valid() && h == old(nextId) && nextId == h + 1 && online == old(online) && sent == old(sent)
      ensures socks == old(socks)[h := NewSock(Some(y), true)] && mainList == old(mainList) + [h]
      ensures old(Carried(t)) ==> Carried(t)
    {
      hide Links, LocalOk, RemoteOk, EntryOk;
      AddKeeps(View(), Some(y), true, None, t);
      h := nextId;
      var r := AddRemote(y, h, t);
      Enlist(h, Local(h, false, Some(r), [], true, false, None));
      nextId := nextId + 1;
      socks := socks[h := NewSock(Some(y), true)];
    }

    /** connect_to_remote on a new local socket of transport `t`. */
    method Dial(t: nat) returns (h: nat)
      requires Valid()
      modifies this
      ensures Valid() && online == old(online)
      ensures Model(t) == Connect(old(Model(t))).ep && sent == old(sent) + Connect(old(Model(t))).out
      ensures old(Carried(t)) ==> Carried(t)
    {
      h := AddLocal(t);
      sent := sent + [Open(h)];
    }

    /** A connecting socket meets its remote socket. */
    method Link(h: nat, y: nat, t: nat)
      requires Valid() && h in locals && h in socks && !locals[h].closing && locals[h].peer.None?
      modifies this
      ensures Valid() && View() == LinkIn(old(View()), h, y, t) && online == old(online) && sent == old(sent)
      ensures old(Carried(t)) ==> Carried(t)
    {
      LinkKeeps(View(), h, y, t);
      var r := AddRemote(y, h, t);
      locals, socks := locals[h := locals[h].(peer := Some(r))], socks[h := socks[h].(partner := Some(y))];
      assert Those(locals, false) == Those(old(locals), false);
      assert Those(locals, true) == Those(old(locals), true);
    }

    /** The OKAY case of handle_packet: link a connecting socket, and let it read. */
    method HandleOkay(h: nat, y: nat, t: nat)
      requires Valid() && IsLive(Model(t), h)
      modifies this
      ensures Valid() && online == old(online) && sent == old(sent)
      ensures socks == GotOkay(old(Model(t)), y, h).ep.socks && nextId == old(nextId)
      ensures old(Carried(t)) ==> Carried(t)
    {
      assert LocalOk(View(), h) && EntryOk(View(), h);
      if locals[h].peer.None? {
        Link(h, y, t);
        assert LocalOk(View(), h);
      }
      Put(h, locals[h].(readOn := true), socks[h].(readOn := true));
      assert socks == old(socks)[h := socks[h]];
    }

    /** handle_packet, stream cases, for a packet of transport `t`. */
    method HandlePacket(t: nat, p: Packet, io: seq<Io>, service: bool)
      requires Valid()
      modifies this
      ensures Valid() && online == old(online)
      ensures var w := if p.Wrte? then WriteLoop(|p.data|, io) else Wrote(0, false);
        var r := AdbEndpoint.HandlePacket(old(Model(t)), p, w, service);
        socks == r.ep.socks && nextId == r.ep.nextId && sent == old(sent) + r.out
      ensures old(Carried(t)) ==> Carried(t)
    {
      hide TablesOk, Links, WriteLoop, GotWrte, Closed;
      if t !in online {
        return;
      }
      match p
      case Open(y) =>
        if service {
          var h := AddService(y, t);
          sent := sent + [Okay(h, y)];
        } else {
          sent := sent + [Clse(0, y)];
        }
      case Okay(y, x) =>
        var h := FindLocal(x);
        if h.Some? { HandleOkay(x, y, t); }
      case Clse(_, x) =>
        var h := FindLocal(x);
        if h.Some? { CloseLocked(x, true); }
      case Wrte(y, x, data) =>
        var h := FindLocal(x);
        if h.Some? {
          var r := Enqueue(x, data, io, y, t);
          if r == 0 { sent := sent + [Okay(locals[x].id, y)]; }
        }
    }

    /** Close a socket whose remote socket is gone; `far` is put back into its history. */
    method CloseCut(h: nat, ghost far: Option<nat>)
      requires Valid() && h in locals && h in socks && socks[h].partner.None?
      modifies this
      ensures Valid() && online == old(online) && sent == old(sent) && nextId == old(nextId)
      ensures remotes == old(remotes) && disconnects == old(disconnects)
      ensures socks == old(socks)[h := Closed(old(socks)[h], false).(partner := far)]
      ensures h in locals ==> locals[h].peer.None?
      ensures forall g :: g != h ==>
        (g in locals <==> g in old(locals)) && (g in locals ==> locals[g] == old(locals)[g])
      ensures forall c :: old(Carried(c)) ==> Carried(c)
    {
      assert LocalOk(View(), h) && EntryOk(View(), h);
      CloseLocked(h, false);
      PartnerKeeps(View(), h, far);
      socks := socks[h := socks[h].(partner := far)];
    }

    method Cut(h: nat)
      requires Valid() && h in locals && h in socks && locals[h].peer.Some?
      modifies this
      ensures Valid() && View() == CutIn(old(View()), h) && online == old(online) && sent == old(sent)
      ensures disconnects == Without(old(disconnects), old(locals)[h].peer.value)
      ensures forall c :: old(Carried(c)) ==> Carried(c)
    {
      CutKeeps(View(), h);
      var r := locals[h].peer.value;
      Unlinked(disconnects, remotes.Keys, r);
      disconnects := Without(disconnects, r);
      locals := locals[h := locals[h].(peer := None)];
      remotes := remotes - {r};
      assert remotes.Keys == old(remotes.Keys) - {r};
      socks := socks[h := socks[h].(partner := None)];
      assert Those(locals, false) == Those(old(locals), false);
      assert Those(locals, true) == Those(old(locals), true);
    }

    /** remote_socket_disconnect: the local socket closes without a word to the far end. */
    method DisconnectOne(r: nat)
      requires Valid() && r in remotes
      modifies this
      ensures Valid() && online == old(online) && sent == old(sent) && nextId == old(nextId)
      ensures remotes == old(remotes) - {r} && disconnects == Without(old(disconnects), r)
      ensures old(remotes)[r].peer.Some? && old(remotes)[r].peer.value in old(socks)
      ensures old(remotes)[r].peer.value in old(locals) && old(locals)[old(remotes)[r].peer.value].peer == Some(r)
      ensures var h := old(remotes)[r].peer.value;
        && old(Via(View(), h, remotes[r].transport)) && !Via(View(), h, old(remotes)[r].transport)
        && socks == old(socks)[h := Closed(old(socks)[h], false)]
        && (forall g, t :: g != h ==> Via(View(), g, t) == old(Via(View(), g, t)))
        && forall g :: g != h ==>
             (g in locals <==> g in old(locals)) && (g in locals ==> locals[g] == old(locals)[g])
      ensures forall c :: old(Carried(c)) ==> Carried(c)
    {
      assert RemoteOk(View(), r);
      var h := remotes[r].peer.value;
      assert LocalOk(View(), h);
      ghost var k := socks[h];
      hide TablesOk, Links, Without;
      Cut(h);
      CloseCut(h, k.partner);
      assert socks == old(socks)[h := Closed(k, false)];
      CutVia(old(View()), View(), h);
    }

    /** handle_online. */
    method HandleOnline(t: nat)
      requires Valid()
      modifies this`online
      ensures Valid() && online == old(online) + {t} && Model(t) == old(Model(t)).(online := true)
    {
      online := online + {t};
    }

    /** The list node after the one at `i`, if there is one. */
    function NodeAt(i: nat): Option<nat>
      reads this`disconnects
    {
      if i < |disconnects| then Some(disconnects[i]) else None
    }

    /** handle_offline: run the disconnect callbacks of transport `t`. The node after the current one is looked
        up before the callback, which frees the current one and no other; so it is still linked afterwards, now at
        the position `i` of the freed one. */
    method HandleOffline(t: nat)
      requires Valid()
      modifies this
      ensures Valid() && online == old(online) - {t} && sent == old(sent)
      ensures CutSome(old(View()), View(), t) && forall h :: !Via(View(), h, t)
      ensures remotes == map r | r in old(remotes) && old(remotes)[r].transport != t :: old(remotes)[r]
      ensures forall h <- old(locals) ::
        old(locals)[h].peer == None || old(locals)[h].peer.value in remotes
        ==> h in locals && locals[h] == old(locals)[h]
      ensures forall c :: old(Carried(c)) ==> Carried(c)
    {
      online := online - {t};
      var dis := NodeAt(0);
      ghost var i := 0;
      while dis.Some?
        invariant Valid() && online == old(online) - {t} && sent == old(sent)
        invariant forall c :: old(Carried(c)) ==> Carried(c)
        invariant CutSome(old(View()), View(), t)
        invariant i <= |disconnects| && dis == NodeAt(i) && Passed(i, t)
        decreases |disconnects| - i
      {
        Linked(disconnects, remotes.Keys, dis.value);
        var next := Successor(dis.value, i);
        if remotes[dis.value].transport == t {
          RunDisconnect(dis.value, i, t, old(View()));
        } else {
          i := i + 1;
        }
        dis := next;
      }
      NoneVia(t);
      Survivors(old(View()), View(), t);
    }

    /** The node linked behind `r`, which is at position `i`. */
    method Successor(r: nat, ghost i: nat) returns (next: Option<nat>)
      requires Valid() && NodeAt(i) == Some(r)
      ensures next == NodeAt(i + 1)
    {
      var k := 0;
      while disconnects[k] != r
        invariant k <= i
        decreases i - k
      {
        k := k + 1;
      }
      if k < i {
        Differ(disconnects, remotes.Keys, k, i);
      }
      next := if k + 1 < |disconnects| then Some(disconnects[k + 1]) else None;
    }

    /** The nodes before position `i` belong to other transports. */
    ghost predicate Passed(i: nat, t: nat)
      reads this`disconnects, this`remotes
    {
      forall j :: 0 <= j < i && j < |disconnects| ==>
        disconnects[j] in remotes && remotes[disconnects[j]].transport != t
    }

    method RunDisconnect(r: nat, ghost i: nat, t: nat, ghost T0: Tables)
      requires Valid() && NodeAt(i) == Some(r) && r in remotes && remotes[r].transport == t
      requires CutSome(T0, View(), t) && Passed(i, t)
      modifies this
      ensures Valid() && online == old(online) && sent == old(sent)
      ensures CutSome(T0, View(), t) && Passed(i, t)
      ensures |disconnects| == old(|disconnects|) - 1 && NodeAt(i) == old(NodeAt(i + 1))
      ensures forall c :: old(Carried(c)) ==> Carried(c)
    {
      hide TablesOk, Links, Without, CutSome, Via, Those;
      ghost var T, h := View(), remotes[r].peer;
      UnlinkedAt(disconnects, remotes.Keys, i);
      forall j | 0 <= j < i ensures disconnects[j] != r {
        Differ(disconnects, remotes.Keys, j, i);
      }
      DisconnectOne(r);
      CutMore(T0, T, View(), h.value, t);
      hide Engine.Valid;
      assert forall j :: 0 <= j < i ==> disconnects[j] == old(disconnects)[j];
    }

    /** Every node has been passed. */
    lemma NoneVia(t: nat)
      requires Valid() && Passed(|disconnects|, t)
      ensures forall h :: !Via(View(), h, t)
      ensures forall r <- remotes :: remotes[r].transport != t
    {
      forall r <- remotes ensures remotes[r].transport != t {
        Linked(disconnects, remotes.Keys, r);
      }
      forall h ensures !Via(View(), h, t) {
        if h in locals && locals[h].peer.Some? { Linked(disconnects, remotes.Keys, locals[h].peer.value); }
      }
    }
  }

  lemma DrainEmpty(q: seq<seq<Byte>>, k: nat)
    requires k <= |Flat(q)|
    ensures k < |Flat(q)| ==> DropBytes(q, k) != []
    ensures k == |Flat(q)| ==> DropBytes(q, k) == []
  {}
}