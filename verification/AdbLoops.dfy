/** The loops around adb_write and adb_read in sockets.c: what they achieve, call by call. */
module AdbLoops {
  import opened Bytes
  import opened AdbEndpoint

  /** One call of adb_write or adb_read: bytes moved (0 is end of file), or -1 with an errno. */
  datatype Io = Moved(n: nat, data: seq<Byte>) | WouldBlock | Interrupted | Failed

  /** The write loop over one packet; an interrupted call ends it like any other error. */
  function WriteLoop(len: nat, io: seq<Io>): (w: Wrote)
    ensures Possible(w, len)
    decreases |io|
  {
    if len == 0 || io == [] || io[0].WouldBlock? then Wrote(0, false)
    else if io[0].Moved? && io[0].n > 0 then
      var k := Min(io[0].n, len);
      var w := WriteLoop(len - k, io[1..]);
      Wrote(k + w.count, w.broken)
    else Wrote(0, true)
  }

  /** The nested loops that drain a packet queue. */
  function DrainLoop(q: seq<seq<Byte>>, io: seq<Io>): (w: Wrote)
    ensures Possible(w, |Flat(q)|)
    decreases |io|, |q|
  {
    if q == [] then Wrote(0, false)
    else if q[0] == [] then DrainLoop(q[1..], io)
    else if io == [] || io[0].WouldBlock? then Wrote(0, false)
    else if io[0].Moved? && io[0].n > 0 then
      var k := Min(io[0].n, |q[0]|);
      var q' := [q[0][k..]] + q[1..];
      assert q'[1..] == q[1..];
      var w := DrainLoop(q', io[1..]);
      Wrote(k + w.count, w.broken)
    else if io[0].Interrupted? then DrainLoop(q, io[1..])
    else Wrote(0, true)
  }

  /** The read loop: what was read, and whether it ended on end of file or an error. */
  function ReadLoop(avail: nat, io: seq<Io>): (r: (seq<Byte>, bool))
    ensures |r.0| <= avail
    decreases |io|
  {
    if avail == 0 || io == [] || io[0].WouldBlock? then ([], false)
    else if io[0].Moved? && io[0].data != [] then
      var d := io[0].data[..Min(|io[0].data|, avail)];
      var r := ReadLoop(avail - |d|, io[1..]);
      (d + r.0, r.1)
    else if io[0].Interrupted? then ReadLoop(avail, io[1..])
    else ([], true)
  }

  // ---------------------------------------------------------------- what the calls made achieve

  /** adb_write accepted bytes; adb_write reached the end or an error; adb_read brought bytes. */
  predicate Accepts(r: Io) { r.Moved? && r.n > 0 }

  predicate Rejects(r: Io) { r.Failed? || (r.Moved? && r.n == 0) }

  predicate Brings(r: Io) { r.Moved? && r.data != [] }

  /** All that the calls `io` moved, whatever they were asked for. */
  function Total(io: seq<Io>): nat {
    if io == [] then 0
    else Total(io[..|io| - 1]) + if io[|io| - 1].Moved? then io[|io| - 1].n else 0
  }

  /** The first `k` calls each accepted bytes, and one more would have been made had it not been the last one
      needed, unable to proceed, or an error; each call is asked for what is left. */
  predicate WroteBy(len: nat, io: seq<Io>, k: nat, done: nat, broken: bool) {
    && k <= |io| && (forall i :: 0 <= i < k ==> Accepts(io[i]))
    && done == Min(Total(io[..k]), len) && (k > 0 ==> Total(io[..k - 1]) < len)
    && if broken then done < len && k < |io| && (Rejects(io[k]) || io[k].Interrupted?)
       else done == len || k == |io| || io[k].WouldBlock?
  }

  /** How many bytes of the packet that holds byte `d` of the queue come from there on. */
  function Offered(q: seq<seq<Byte>>, d: nat): nat {
    if q == [] then 0 else if d < |q[0]| then |q[0]| - d else Offered(q[1..], d - |q[0]|)
  }

  /** The bytes that the calls `io` take from the queue, each at most the rest of one packet. */
  function Taken(q: seq<seq<Byte>>, io: seq<Io>): nat {
    if io == [] then 0
    else
      var d := Taken(q, io[..|io| - 1]);
      d + if io[|io| - 1].Moved? then Min(io[|io| - 1].n, Offered(q, d)) else 0
  }

  /** The first `k` calls each accepted bytes or were interrupted; `q` is what they left of `q0`. */
  predicate DrainedBy(q0: seq<seq<Byte>>, io: seq<Io>, k: nat, q: seq<seq<Byte>>, broken: bool) {
    && k <= |io| && (forall i :: 0 <= i < k ==> Accepts(io[i]) || io[i].Interrupted?)
    && Taken(q0, io[..k]) <= |Flat(q0)| && Flat(q) == Flat(q0)[Taken(q0, io[..k])..]
    && (k > 0 ==> Taken(q0, io[..k - 1]) < |Flat(q0)|)
    && if broken then Flat(q) != [] && k < |io| && Rejects(io[k])
       else q == [] || (Flat(q) != [] && (k == |io| || io[k].WouldBlock?))
  }

  /** All that the calls `io` brought. */
  function Gathered(io: seq<Io>): seq<Byte> {
    if io == [] then []
    else Gathered(io[..|io| - 1]) + if io[|io| - 1].Moved? then io[|io| - 1].data else []
  }

  /** The first `k` calls each brought bytes or were interrupted; `data` is the front of what they brought. */
  predicate ReadBy(avail: nat, io: seq<Io>, k: nat, data: seq<Byte>, eof: bool) {
    && k <= |io| && (forall i :: 0 <= i < k ==> Brings(io[i]) || io[i].Interrupted?)
    && data == Gathered(io[..k])[..Min(|Gathered(io[..k])|, avail)]
    && (k > 0 ==> |Gathered(io[..k - 1])| < avail)
    && if eof then |data| < avail && k < |io| && (io[k].Failed? || (io[k].Moved? && io[k].data == []))
       else |data| == avail || k == |io| || io[k].WouldBlock?
  }

  /** One more call. */
  lemma OneMore(io: seq<Io>, i: nat)
    requires i < |io|
    ensures io[..i + 1][..i] == io[..i] && io[..i + 1][i] == io[i]
    ensures Total(io[..i + 1]) == Total(io[..i]) + if io[i].Moved? then io[i].n else 0
    ensures Gathered(io[..i + 1]) == Gathered(io[..i]) + if io[i].Moved? then io[i].data else []
    ensures forall q ::
      var d := Taken(q, io[..i]);
      Taken(q, io[..i + 1]) == d + if io[i].Moved? then Min(io[i].n, Offered(q, d)) else 0
  {
    assert io[..i + 1][..i] == io[..i];
  }

  /** The loop has made `i` calls and written `done` bytes. */
  ghost predicate Writing(len: nat, io: seq<Io>, i: nat, done: nat) {
    && i <= |io| && (forall j :: 0 <= j < i ==> Accepts(io[j])) && done == Min(Total(io[..i]), len)
    && (i > 0 ==> Total(io[..i - 1]) < len)
    && var w := WriteLoop(len - done, io[i..]); WriteLoop(len, io) == Wrote(done + w.count, w.broken)
  }

  lemma WriteStarts(len: nat, io: seq<Io>)
    ensures Writing(len, io, 0, 0)
  {
    assert io[0..] == io;
  }

  lemma WriteCalls(len: nat, io: seq<Io>, i: nat, done: nat)
    requires Writing(len, io, i, done) && done < len && i < |io| && Accepts(io[i])
    ensures Writing(len, io, i + 1, done + Min(io[i].n, len - done))
  {
    assert io[i..][1..] == io[i + 1..];
    OneMore(io, i);
  }

  /** The loop stops before its call `i`, or at it. */
  lemma WriteStops(len: nat, io: seq<Io>, i: nat, done: nat, broken: bool)
    requires Writing(len, io, i, done) && done <= len
    requires if broken then done < len && i < |io| && (Rejects(io[i]) || io[i].Interrupted?)
             else done == len || i == |io| || io[i].WouldBlock?
    ensures WroteBy(len, io, i, done, broken) && Wrote(done, broken) == WriteLoop(len, io)
  {}

  /** local_socket_enqueue's loop over one packet. */
  method WritePacket(len: nat, io: seq<Io>) returns (done: nat, broken: bool)
    ensures Wrote(done, broken) == WriteLoop(len, io)
    ensures exists k :: WroteBy(len, io, k, done, broken)
  {
    hide Writing, WroteBy, WriteLoop;
    var left: nat, i := len, 0;
    done, broken := 0, false;
    WriteStarts(len, io);
    while left > 0 && i < |io|
      invariant 0 <= i <= |io| && done + left == len && Writing(len, io, i, done)
      decreases |io| - i
    {
      var r := io[i];
      if r.Moved? && r.n > 0 {
        WriteCalls(len, io, i, done);
        var k := Min(r.n, left);
        left, done, i := left - k, done + k, i + 1;
        continue;
      }
      WriteStops(len, io, i, done, !r.WouldBlock?);
      return done, !r.WouldBlock?;
    }
    WriteStops(len, io, i, done, false);
  }

  /** What the loops leave of the queue, and whether an error ended them. */
  function Leaves(q: seq<seq<Byte>>, io: seq<Io>): (seq<seq<Byte>>, bool) {
    var w := DrainLoop(q, io);
    (DropBytes(q, w.count), w.broken)
  }

  /** One round of the loops, by what it finds. */
  lemma LeavesEmpty(io: seq<Io>)
    ensures Leaves([], io) == ([], false)
  {}

  lemma LeavesSkipping(q: seq<seq<Byte>>, io: seq<Io>)
    requires q != [] && q[0] == []
    ensures Leaves(q, io) == Leaves(q[1..], io)
  {}

  lemma LeavesWaiting(q: seq<seq<Byte>>, io: seq<Io>)
    requires q != [] && q[0] != [] && (io == [] || io[0].WouldBlock?)
    ensures Leaves(q, io) == (q, false)
  {
    DropNone(q);
  }

  lemma LeavesTaking(q: seq<seq<Byte>>, io: seq<Io>)
    requires q != [] && q[0] != [] && io != [] && Accepts(io[0])
    ensures Leaves(q, io) == Leaves([q[0][Min(io[0].n, |q[0]|)..]] + q[1..], io[1..])
  {
    DropSplit(q, Min(io[0].n, |q[0]|), DrainLoop(q, io).count);
    hide DropBytes;
  }

  lemma LeavesRetrying(q: seq<seq<Byte>>, io: seq<Io>)
    requires q != [] && q[0] != [] && io != [] && io[0].Interrupted?
    ensures Leaves(q, io) == Leaves(q, io[1..])
  {}

  lemma LeavesBreaking(q: seq<seq<Byte>>, io: seq<Io>)
    requires q != [] && q[0] != [] && io != [] && Rejects(io[0])
    ensures Leaves(q, io) == (q, true)
  {
    DropNone(q);
  }

  /** `q` is what is left of `q0` behind the first `d` bytes, in the same packets. */
  ghost predicate Rest(q0: seq<seq<Byte>>, d: nat, q: seq<seq<Byte>>) {
    d <= |Flat(q0)| && Flat(q) == Flat(q0)[d..] && forall j: nat :: Offered(q, j) == Offered(q0, d + j)
  }

  /** Taking `k` bytes of the first packet. */
  lemma RestTakes(q0: seq<seq<Byte>>, d: nat, q: seq<seq<Byte>>, k: nat)
    requires Rest(q0, d, q) && q != [] && k <= |q[0]|
    ensures Rest(q0, d + k, [q[0][k..]] + q[1..])
    ensures Offered(q0, d) == |q[0]| || q[0] == []
    ensures q[0] != [] ==> d < |Flat(q0)|
  {
    var q' := [q[0][k..]] + q[1..];
    assert q'[1..] == q[1..];
    assert Offered(q, 0) == Offered(q0, d + 0);
    assert Flat(q') == q[0][k..] + Flat(q[1..]) == Flat(q)[k..] == Flat(q0)[d + k..];
    forall j: nat ensures Offered(q', j) == Offered(q0, d + k + j) {
      assert Offered(q, k + j) == Offered(q0, d + (k + j));
    }
  }

  lemma RestSkips(q0: seq<seq<Byte>>, d: nat, q: seq<seq<Byte>>)
    requires Rest(q0, d, q) && q != [] && q[0] == []
    ensures Rest(q0, d, q[1..])
  {
    forall j: nat ensures Offered(q[1..], j) == Offered(q0, d + j) {
      assert Offered(q, j) == Offered(q0, d + j);
    }
  }

  /** The loops have made `i` calls and hold `q`. */
  ghost predicate Draining(q0: seq<seq<Byte>>, io: seq<Io>, i: nat, q: seq<seq<Byte>>) {
    && i <= |io| && Leaves(q, io[i..]) == Leaves(q0, io) && Rest(q0, Taken(q0, io[..i]), q)
    && (forall j :: 0 <= j < i ==> Accepts(io[j]) || io[j].Interrupted?)
    && (i > 0 ==> Taken(q0, io[..i - 1]) < |Flat(q0)|)
  }

  lemma DrainStarts(q0: seq<seq<Byte>>, io: seq<Io>)
    ensures Draining(q0, io, 0, q0)
  {
    assert io[0..] == io;
  }

  lemma DrainSkips(q0: seq<seq<Byte>>, io: seq<Io>, i: nat, q: seq<seq<Byte>>)
    requires Draining(q0, io, i, q) && q != [] && q[0] == []
    ensures Draining(q0, io, i, q[1..])
  {
    hide Leaves, Rest;
    LeavesSkipping(q, io[i..]);
    RestSkips(q0, Taken(q0, io[..i]), q);
  }

  lemma DrainCalls(q0: seq<seq<Byte>>, io: seq<Io>, i: nat, q: seq<seq<Byte>>)
    requires Draining(q0, io, i, q) && q != [] && q[0] != [] && i < |io|
    ensures Accepts(io[i]) ==> Draining(q0, io, i + 1, [q[0][Min(io[i].n, |q[0]|)..]] + q[1..])
    ensures io[i].Interrupted? ==> Draining(q0, io, i + 1, q)
  {
    hide Leaves, Rest, Taken, Flat;
    assert io[i..][1..] == io[i + 1..];
    if Accepts(io[i]) { LeavesTaking(q, io[i..]); } else if io[i].Interrupted? { LeavesRetrying(q, io[i..]); }
    OneMore(io, i);
    RestTakes(q0, Taken(q0, io[..i]), q, if io[i].Moved? then Min(io[i].n, |q[0]|) else 0);
  }

  /** The queue is empty. */
  lemma DrainEnds(q0: seq<seq<Byte>>, io: seq<Io>, i: nat)
    requires Draining(q0, io, i, [])
    ensures DrainedBy(q0, io, i, [], false) && Leaves(q0, io) == ([], false)
  {
    LeavesEmpty(io[i..]);
  }

  /** There is no outcome left, or the next call would block. */
  lemma DrainWaits(q0: seq<seq<Byte>>, io: seq<Io>, i: nat, q: seq<seq<Byte>>)
    requires Draining(q0, io, i, q) && q != [] && q[0] != [] && (i == |io| || io[i].WouldBlock?)
    ensures DrainedBy(q0, io, i, q, false) && Leaves(q0, io) == (q, false)
  {
    LeavesWaiting(q, io[i..]);
  }

  /** The next call reaches the end or fails. */
  lemma DrainBreaks(q0: seq<seq<Byte>>, io: seq<Io>, i: nat, q: seq<seq<Byte>>)
    requires Draining(q0, io, i, q) && q != [] && q[0] != [] && i < |io| && Rejects(io[i])
    ensures DrainedBy(q0, io, i, q, true) && Leaves(q0, io) == (q, true)
  {
    LeavesBreaking(q, io[i..]);
  }

  /** The FDE_WRITE loops of local_socket_event_func: packet by packet, until the queue is empty. */
  method DrainQueue(q0: seq<seq<Byte>>, io: seq<Io>) returns (q: seq<seq<Byte>>, broken: bool)
    ensures var w := DrainLoop(q0, io); q == DropBytes(q0, w.count) && broken == w.broken
    ensures exists k :: DrainedBy(q0, io, k, q, broken)
  {
    assert Leaves(q0, io) == (DropBytes(q0, DrainLoop(q0, io).count), DrainLoop(q0, io).broken);
    hide Draining, DrainedBy, DrainLoop, DropBytes, Leaves;
    q, broken := q0, false;
    var i := 0;
    DrainStarts(q0, io);
    while q != []
      invariant 0 <= i <= |io| && Draining(q0, io, i, q)
      decreases |io| - i, |q|
    {
      if |q[0]| == 0 {
        DrainSkips(q0, io, i, q);
        q := q[1..];
        continue;
      }
      if i == |io| || io[i].WouldBlock? {
        DrainWaits(q0, io, i, q);
        return;
      }
      var r := io[i];
      DrainCalls(q0, io, i, q);
      if r.Moved? && r.n > 0 {
        q := [q[0][Min(r.n, |q[0]|)..]] + q[1..];
      } else if !r.Interrupted? {
        DrainBreaks(q0, io, i, q);
        return q, true;
      }
      i := i + 1;
    }
    DrainEnds(q0, io, i);
  }

  lemma DropNone(q: seq<seq<Byte>>)
    requires q != [] && q[0] != []
    ensures DropBytes(q, 0) == q
  {
    assert [q[0][0..]] + q[1..] == q;
  }

  /** Dropping `n` bytes, the first `k` of them from the first packet. */
  lemma DropSplit(q: seq<seq<Byte>>, k: nat, n: nat)
    requires q != [] && k <= |q[0]| && k <= n <= |Flat(q)|
    ensures var q' := [q[0][k..]] + q[1..];
      n - k <= |Flat(q')| && DropBytes(q', n - k) == DropBytes(q, n)
  {
    var q' := [q[0][k..]] + q[1..];
    assert q'[1..] == q[1..];
    if n < |q[0]| {
      assert q[0][k..][n - k..] == q[0][n..];
    }
  }

  /** The loop has made `i` calls and read `data`. */
  ghost predicate Reading(avail: nat, io: seq<Io>, i: nat, data: seq<Byte>) {
    && i <= |io| && (forall j :: 0 <= j < i ==> Brings(io[j]) || io[j].Interrupted?)
    && data == Gathered(io[..i])[..Min(|Gathered(io[..i])|, avail)]
    && (i > 0 ==> |Gathered(io[..i - 1])| < avail)
    && var r := ReadLoop(avail - |data|, io[i..]); ReadLoop(avail, io) == (data + r.0, r.1)
  }

  lemma ReadStarts(avail: nat, io: seq<Io>)
    ensures Reading(avail, io, 0, [])
  {
    assert io[0..] == io;
    assert [] + ReadLoop(avail, io).0 == ReadLoop(avail, io).0;
  }

  lemma ReadCalls(avail: nat, io: seq<Io>, i: nat, data: seq<Byte>)
    requires Reading(avail, io, i, data) && |data| < avail && i < |io|
    ensures Brings(io[i]) ==> Reading(avail, io, i + 1, data + io[i].data[..Min(|io[i].data|, avail - |data|)])
    ensures io[i].Interrupted? ==> Reading(avail, io, i + 1, data)
  {
    assert io[i..][1..] == io[i + 1..];
    OneMore(io, i);
    hide Gathered;
    if Brings(io[i]) {
      var d := io[i].data[..Min(|io[i].data|, avail - |data|)];
      var r := ReadLoop(avail - |data + d|, io[i + 1..]);
      assert (data + d) + r.0 == data + (d + r.0);
    }
  }

  /** The loop stops before its call `i`, or at it. */
  lemma ReadStops(avail: nat, io: seq<Io>, i: nat, data: seq<Byte>, eof: bool)
    requires Reading(avail, io, i, data) && |data| <= avail
    requires if eof then |data| < avail && i < |io| && (io[i].Failed? || (io[i].Moved? && io[i].data == []))
             else |data| == avail || i == |io| || io[i].WouldBlock?
    ensures ReadBy(avail, io, i, data, eof) && (data, eof) == ReadLoop(avail, io)
  {
    assert ReadLoop(avail - |data|, io[i..]) == ([], eof);
    assert data + [] == data;
  }

  /** The FDE_READ loop. */
  method ReadAll(avail: nat, io: seq<Io>) returns (data: seq<Byte>, eof: bool)
    ensures (data, eof) == ReadLoop(avail, io)
    ensures exists k :: ReadBy(avail, io, k, data, eof)
  {
    hide Reading, ReadBy, ReadLoop;
    var i := 0;
    data, eof := [], false;
    ReadStarts(avail, io);
    while |data| < avail && i < |io|
      invariant 0 <= i <= |io| && |data| <= avail && !eof && Reading(avail, io, i, data)
      decreases |io| - i
    {
      var r := io[i];
      ReadCalls(avail, io, i, data);
      if r.Moved? && r.data != [] {
        data := data + r.data[..Min(|r.data|, avail - |data|)];
      } else if r.WouldBlock? {
        ReadStops(avail, io, i, data, false);
        return;
      } else if !r.Interrupted? {
        ReadStops(avail, io, i, data, true);
        return data, true;
      }
      i := i + 1;
    }
    ReadStops(avail, io, i, data, false);
  }
}
