/** The two-region circular buffer behind emulated socket pairs in sysdeps_win32.c, as a bounded byte FIFO. */
module BipBuffer {
  import opened Bytes

  const SIZE: nat := 4096   // BIP_BUFFER_SIZE

  /** What a call returns: a byte count, -1 with EPIPE, or no return yet (it waits for the event). */
  datatype Outcome = Count(n: nat) | Pipe | Waits

  class Bip {
    var aStart: nat
    var aEnd: nat
    var bEnd: nat
    var closed: bool
    var canWrite: bool
    var evtWrite: bool
    var canRead: bool
    var evtRead: bool
    const buff: array<Byte>

    /** Region A, then region B. */
    ghost function Contents(): seq<Byte>
      reads this`aStart, this`aEnd, this`bEnd, buff
      requires aStart <= aEnd <= buff.Length && bEnd <= buff.Length
    {
      buff[aStart..aEnd] + buff[..bEnd]
    }

    /** b_end <= a_start <= a_end, region B only once A reaches the end, and the one empty position. */
    ghost predicate Shape()
      reads this
    {
      && buff.Length == SIZE
      && bEnd <= aStart <= aEnd <= SIZE
      && (bEnd > 0 ==> aEnd == SIZE)
      && (aStart == aEnd ==> aStart == bEnd == 0)
    }

    function Stored(): nat
      reads this
      requires aStart <= aEnd
    {
      aEnd - aStart + bEnd
    }

    /** Readiness: can_read iff not empty, can_write iff not full; an event may only be unset while the
        operation it announces would not succeed, and is exact until the buffer is closed. */
    ghost predicate Ready()
      reads this
      requires aStart <= aEnd
    {
      && (canRead <==> Stored() > 0) && (canWrite <==> Stored() < SIZE)
      && (canRead ==> evtRead) && (canWrite ==> evtWrite)
      && (!closed ==> evtRead == canRead && evtWrite == canWrite)
    }

    ghost predicate Valid()
      reads this
    {
      Shape() && Ready()
    }

    constructor ()
      ensures Valid() && Contents() == [] && canWrite && !canRead && !closed && fresh(buff)
    {
      aStart, aEnd, bEnd := 0, 0, 0;
      canWrite, canRead, closed := true, false, false;
      evtWrite, evtRead := true, false;
      buff := new Byte[SIZE];
    }

    /** bip_buffer_close: wake whoever waits. */
    method Close()
      requires Valid()
      modifies this
      ensures Valid() && closed && evtRead && evtWrite && Contents() == old(Contents())
      ensures canRead == old(canRead) && canWrite == old(canWrite)
    {
      closed := true;
      if !canRead { evtRead := true; }
      if !canWrite { evtWrite := true; }
    }

    /** Append to region A. */
    method AppendA(src: seq<Byte>)
      requires Shape() && bEnd == 0 && 0 < |src| <= SIZE - aEnd
      modifies this`aEnd, buff
      ensures Shape() && aEnd == old(aEnd) + |src| && Contents() == old(Contents()) + src
    {
      ghost var was := Contents();
      forall i | 0 <= i < |src| { buff[aEnd + i] := src[i]; }
      aEnd := aEnd + |src|;
      assert buff[aStart..aEnd] == was + src;
    }

    /** Append to region B. */
    method AppendB(src: seq<Byte>)
      requires Shape() && aEnd == SIZE && 0 < |src| <= aStart - bEnd
      modifies this`bEnd, buff
      ensures Shape() && bEnd == old(bEnd) + |src| && Contents() == old(Contents()) + src
    {
      ghost var a, b := buff[aStart..aEnd], buff[..bEnd];
      forall i | 0 <= i < |src| { buff[bEnd + i] := src[i]; }
      bEnd := bEnd + |src|;
      assert buff[aStart..aEnd] == a && buff[..bEnd] == b + src;
    }

    /** bip_buffer_write. */
    method Write(src: seq<Byte>) returns (r: Outcome)
      requires Valid()
      modifies this, buff
      ensures Valid() && closed == old(closed)
      ensures src == [] ==> r == Count(0)
      ensures src != [] && !old(canWrite) ==> r == if closed then Pipe else Waits
      ensures src != [] && old(canWrite) ==> r == Count(Min(|src|, SIZE - |old(Contents())|)) && r.n > 0
      ensures Contents() == old(Contents()) + if r.Count? then src[..r.n] else []
      ensures r.Waits? ==> !evtWrite && !closed
    {
      if src == [] { return Count(0); }
      if !canWrite { return if closed then Pipe else Waits; }
      assert |Contents()| == Stored();
      hide Bip.Contents;
      var count := Store(src);
      assert count > 0;
      FinishWrite();
      return Count(count);
    }

    /** The two copies of bip_buffer_write, and the write flag. */
    method Store(src: seq<Byte>) returns (count: nat)
      requires Valid() && canWrite && src != []
      modifies this`aEnd, this`bEnd, this`canWrite, this`evtWrite, buff
      ensures Shape() && count == Min(|src|, SIZE - old(Stored())) && Stored() == old(Stored()) + count
      ensures Contents() == old(Contents()) + src[..count]
      ensures (canWrite <==> Stored() < SIZE) && evtWrite == (canWrite && old(evtWrite))
    {
      hide Bip.Contents;
      count := 0;
      if SIZE - aEnd > 0 {
        count := WriteA(src);
        if aEnd == SIZE && aStart == 0 {
          canWrite, evtWrite := false, false;
          return;
        }
      }
      if count < |src| {
        var more := WriteB(src[count..]);
        Assoc(old(Contents()), src[..count], src[count..][..more]);
        TakeJoin(src, count, more);
        count := count + more;
        if bEnd == aStart {
          canWrite, evtWrite := false, false;
        }
      }
    }

    method WriteA(src: seq<Byte>) returns (n: nat)
      requires Shape() && aEnd < SIZE && src != []
      modifies this`aEnd, buff
      ensures Shape() && n == Min(SIZE - old(aEnd), |src|) && aEnd == old(aEnd) + n
      ensures Contents() == old(Contents()) + src[..n]
    {
      n := Min(SIZE - aEnd, |src|);
      AppendA(src[..n]);
    }

    method WriteB(src: seq<Byte>) returns (n: nat)
      requires Shape() && aEnd == SIZE && bEnd < aStart && src != []
      modifies this`bEnd, buff
      ensures Shape() && n == Min(aStart - old(bEnd), |src|) && bEnd == old(bEnd) + n
      ensures Contents() == old(Contents()) + src[..n]
    {
      var avail := aStart - bEnd;
      assert avail > 0;   // since can_write
      n := Min(avail, |src|);
      AppendB(src[..n]);
    }

    method FinishWrite()
      modifies this`canRead, this`evtRead
      ensures canRead && (old(canRead) ==> evtRead == old(evtRead)) && (!old(canRead) ==> evtRead)
    {
      if !canRead { canRead, evtRead := true, true; }
    }

    method FinishRead()
      modifies this`canWrite, this`evtWrite
      ensures canWrite && (old(canWrite) ==> evtWrite == old(evtWrite)) && (!old(canWrite) ==> evtWrite)
    {
      if !canWrite { canWrite, evtWrite := true, true; }
    }

    /** bip_buffer_read. */
    method Read(len: nat) returns (r: Outcome, dst: seq<Byte>)
      requires Valid()
      modifies this
      ensures Valid() && closed == old(closed)
      ensures len == 0 ==> r == Count(0)
      ensures len > 0 && !old(canRead) ==> r == if closed then Pipe else Waits
      ensures len > 0 && old(canRead) ==> r == Count(Min(len, |old(Contents())|)) && r.n > 0
      ensures old(Contents()) == dst + Contents() && |dst| == if r.Count? then r.n else 0
      ensures r.Waits? ==> !evtRead && !closed
    {
      dst := [];
      if len == 0 { return Count(0), []; }
      if !canRead { return if closed then Pipe else Waits, []; }
      assert |Contents()| == Stored();
      hide Bip.Contents;
      var avail := aEnd - aStart;
      assert avail > 0;   // since canRead
      dst := Take(Min(avail, len));
      if aStart < aEnd {
        FinishRead();
        return Count(|dst|), dst;
      }
      Rotate();
      if aEnd > 0 {
        var more := [];
        if len > |dst| { more := Take(Min(aEnd, len - |dst|)); }
        Assoc(dst, more, Contents());
        dst := dst + more;
        if aStart < aEnd {
          FinishRead();
          return Count(|dst|), dst;
        }
        Rotate();
      }
      canRead, evtRead := false, false;
      assert |dst| > 0;
      FinishRead();
      return Count(|dst|), dst;
    }

    /** Copy out of region A. */
    method Take(k: nat) returns (d: seq<Byte>)
      requires aStart + k <= aEnd <= buff.Length && bEnd <= buff.Length
      modifies this`aStart
      ensures aStart == old(aStart) + k && |d| == k && old(Contents()) == d + Contents()
    {
      d := buff[aStart..aStart + k];
      aStart := aStart + k;
      assert buff[old(aStart)..aEnd] == d + buff[aStart..aEnd];
    }

    /** Region A is used up: B becomes A. */
    method Rotate()
      requires aStart == aEnd <= buff.Length && bEnd <= buff.Length
      modifies this`aStart, this`aEnd, this`bEnd
      ensures aStart == 0 && aEnd == old(bEnd) && bEnd == 0 && Contents() == old(Contents())
    {
      aStart, aEnd, bEnd := 0, bEnd, 0;
      assert buff[..aEnd] == buff[0..aEnd];
    }

    /** One call of either kind; `src` went in and `dst` came out. */
    method Call(op: Op) returns (src: seq<Byte>, dst: seq<Byte>)
      requires Valid()
      modifies this, buff
      ensures Valid() && closed == old(closed) && |old(Contents())| <= SIZE
      ensures Contents() == Step(old(Contents()), op)
      ensures src == Taken(old(Contents()), op) && dst == Given(old(Contents()), op)
    {
      assert |Contents()| == Stored();
      ghost var q := Contents();
      hide Bip.Contents;
      src, dst := [], [];
      match op
      case Put(s) =>
        var r := Write(s);
        src := if r.Count? then s[..r.n] else [];
        assert q + [] == q;
      case Get(len) =>
        var r;
        r, dst := Read(len);
        assert dst == q[..|dst|] && Contents() == q[|dst|..];
    }

    /** Any sequence of calls on the buffer does to its contents what it does to a plain bounded queue, and what
        went in and came out balances. */
    method Run(ops: seq<Op>) returns (src: seq<Byte>, dst: seq<Byte>)
      requires Valid()
      modifies this, buff
      ensures Valid() && closed == old(closed) && |old(Contents())| <= SIZE
      ensures Contents() == After(old(Contents()), ops)
      ensures src == Accepted(old(Contents()), ops) && dst == Delivered(old(Contents()), ops)
      ensures old(Contents()) + src == dst + Contents()
      decreases |ops|
    {
      assert |Contents()| == Stored();
      ghost var q := Contents();
      hide Bip.Contents, Bip.Valid, Step;
      Conservation(q, ops);
      src, dst := [], [];
      if ops != [] {
        var s, d := Call(ops[0]);
        src, dst := Run(ops[1..]);
        src, dst := s + src, d + dst;
      }
    }
  }

  // ---------------------------------------------------------------- whole runs

  /** The plain bounded queue the buffer stands for. */
  datatype Op = Put(src: seq<Byte>) | Get(len: nat)

  function Fill(q: seq<Byte>, src: seq<Byte>): nat
    requires |q| <= SIZE
  {
    Min(|src|, SIZE - |q|)
  }

  function Step(q: seq<Byte>, op: Op): seq<Byte>
    requires |q| <= SIZE
  {
    match op
    case Put(src) => q + src[..Fill(q, src)]
    case Get(len) => q[Min(len, |q|)..]
  }

  /** What one operation takes in, and what it hands out. */
  function Taken(q: seq<Byte>, op: Op): seq<Byte>
    requires |q| <= SIZE
  {
    if op.Put? then op.src[..Fill(q, op.src)] else []
  }

  function Given(q: seq<Byte>, op: Op): seq<Byte> {
    if op.Get? then q[..Min(op.len, |q|)] else []
  }

  function After(q: seq<Byte>, ops: seq<Op>): (r: seq<Byte>)
    requires |q| <= SIZE
    ensures |r| <= SIZE
    decreases |ops|
  {
    if ops == [] then q else After(Step(q, ops[0]), ops[1..])
  }

  /** All the bytes accepted by a run, and all the bytes it handed out. */
  function Accepted(q: seq<Byte>, ops: seq<Op>): seq<Byte>
    requires |q| <= SIZE
    decreases |ops|
  {
    if ops == [] then []
    else Taken(q, ops[0]) + Accepted(Step(q, ops[0]), ops[1..])
  }

  function Delivered(q: seq<Byte>, ops: seq<Op>): seq<Byte>
    requires |q| <= SIZE
    decreases |ops|
  {
    if ops == [] then []
    else Given(q, ops[0]) + Delivered(Step(q, ops[0]), ops[1..])
  }

  /** Nothing is lost, duplicated or reordered: what was stored and accepted is what was delivered and
      is still stored. */
  lemma {:induction false} Conservation(q: seq<Byte>, ops: seq<Op>)
    requires |q| <= SIZE
    ensures q + Accepted(q, ops) == Delivered(q, ops) + After(q, ops)
    decreases |ops|
  {
    if ops != [] {
      var s, d := Parts(q, ops);
      var q1 := Step(q, ops[0]);
      Conservation(q1, ops[1..]);
      hide Accepted, Delivered, After, Step;
      Assoc(q, s, Accepted(q1, ops[1..]));
      Assoc(d, q1, Accepted(q1, ops[1..]));
      Assoc(d, Delivered(q1, ops[1..]), After(q1, ops[1..]));
    }
  }

  /** One operation takes `s` in and hands `d` out. */
  lemma Parts(q: seq<Byte>, ops: seq<Op>) returns (s: seq<Byte>, d: seq<Byte>)
    requires |q| <= SIZE && ops != []
    ensures var q1 := Step(q, ops[0]);
      && q + s == d + q1
      && After(q, ops) == After(q1, ops[1..])
      && Accepted(q, ops) == s + Accepted(q1, ops[1..])
      && Delivered(q, ops) == d + Delivered(q1, ops[1..])
  {
    s, d := Taken(q, ops[0]), Given(q, ops[0]);
  }
}
