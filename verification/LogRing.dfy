/** The log ring of rlog.c. */
module LogRing {
  import opened Bytes

  const LOG_BUF_SIZE: nat := 512   // RLOG_MAX_LOG_BUF_SIZE

  /** The last `n` bytes of `s`, or all of it. */
  function Last(s: seq<Byte>, n: nat): (r: seq<Byte>)
    ensures |r| == Min(|s|, n)
  {
    if |s| <= n then s else s[|s| - n..]
  }

  /** The buffer read from the oldest byte on. */
  function Rotated(b: seq<Byte>, head: nat): seq<Byte>
    requires head <= |b|
  {
    b[head..] + b[..head]
  }

  /** What rbuf_put leaves in the buffer, and the new head. */
  function Written(b: seq<Byte>, head: nat, d: seq<Byte>): (r: (seq<Byte>, nat))
    requires head <= |b| && |d| <= |b|
    ensures |r.0| == |b| && r.1 <= |b|
  {
    var left := |b| - head;
    if left >= |d| then (b[..head] + d + b[head + |d|..], head + |d|)
    else (d[left..] + b[|d| - left..head] + d[..left], |d| - left)
  }

  /** Seen from the oldest byte, a put drops as many bytes in front as it appends. */
  lemma PutRotates(b: seq<Byte>, head: nat, d: seq<Byte>)
    requires head <= |b| && |d| <= |b|
    ensures var (b', h') := Written(b, head, d); Rotated(b', h') == Rotated(b, head)[|d|..] + d
  {
    var (b', h') := Written(b, head, d);
    var left := |b| - head;
    if left >= |d| {
      assert b'[h'..] == b[h'..] && b'[..h'] == b[..head] + d;
      assert Rotated(b, head)[|d|..] == b[h'..] + b[..head];
    } else {
      assert b'[h'..] == b[h'..head] + d[..left] && b'[..h'] == d[left..];
      assert Rotated(b, head)[|d|..] == b[h'..head];
      assert d[..left] + d[left..] == d;
    }
  }

  lemma LastPut(log: seq<Byte>, d: seq<Byte>, n: nat)
    requires |log| >= n && |d| <= n
    ensures Last(log + d, n) == Last(log, n)[|d|..] + d
  {
    var k := |log| - n;
    assert (log + d)[k + |d|..] == log[k + |d|..] + d;
    assert log[k..][|d|..] == log[k + |d|..];
  }

  /** The put that fills the buffer for the first time. */
  lemma FirstWrap(b: seq<Byte>, log: seq<Byte>, d: seq<Byte>)
    requires |log| <= |b| < |log| + |d| && |d| <= |b| && b[..|log|] == log
    ensures var (b', h') := Written(b, |log|, d); Rotated(b', h') == Last(log + d, |b|)
  {
    PutRotates(b, |log|, d);
    var k := |log| + |d| - |b|;
    assert Rotated(b, |log|)[|d|..] == log[k..] by {
      assert Rotated(b, |log|) == b[|log|..] + log;
      assert |b[|log|..]| == |d| - k;
    }
    assert (log + d)[k..] == log[k..] + d;
  }

  class Ring {
    const buf: array<Byte>
    var used: nat
    var full: bool
    var head: nat
    ghost var log: seq<Byte>   // everything ever put

    /** Not full: the log itself from the start.  Full: the oldest byte is at the head. */
    ghost predicate Valid()
      reads this, buf
    {
      && buf.Length == LOG_BUF_SIZE && head <= LOG_BUF_SIZE
      && (!full ==> used == head == |log| && buf[..head] == log)
      && (full ==> used == LOG_BUF_SIZE < |log| && Rotated(buf[..], head) == Last(log, LOG_BUF_SIZE))
    }

    /** rbuf_init. */
    constructor ()
      ensures Valid() && log == [] && fresh(buf)
    {
      buf := new Byte[LOG_BUF_SIZE];
      used, full, head := 0, false, 0;
      log := [];
    }

    method CopyIn(at: nat, data: seq<Byte>)
      requires at + |data| <= buf.Length
      modifies buf
      ensures buf[..] == old(buf[..at]) + data + old(buf[at + |data|..])
    {
      forall i | 0 <= i < |data| { buf[at + i] := data[i]; }
    }

    /** The copies of rbuf_put. */
    method Store(data: seq<Byte>)
      requires buf.Length == LOG_BUF_SIZE && head <= LOG_BUF_SIZE && |data| <= LOG_BUF_SIZE
      modifies this`head, buf
      ensures (buf[..], head) == Written(old(buf[..]), old(head), data)
    {
      var left := LOG_BUF_SIZE - head;
      if left >= |data| {
        CopyIn(head, data);
        head := head + |data|;
        assert buf[..] == old(buf[..][..head]) + data + old(buf[..])[head..];
      } else {
        var over := |data| - left;
        ghost var b := buf[..];
        CopyIn(head, data[..left]);
        assert buf[..] == b[..head] + data[..left];
        CopyIn(0, data[left..]);
        assert (b[..head] + data[..left])[over..] == b[over..head] + data[..left];
        assert buf[..] == data[left..] + (b[over..head] + data[..left]);
        Assoc(data[left..], b[over..head], data[..left]);
        head := over;
      }
    }

    /** rbuf_put. */
    method Put(data: seq<Byte>)
      requires Valid() && |data| <= LOG_BUF_SIZE
      modifies this, buf
      ensures Valid() && log == old(log) + data
    {
      ghost var b := buf[..];
      if full {
        PutRotates(b, head, data);
        LastPut(log, data, LOG_BUF_SIZE);
      } else if |log| + |data| > LOG_BUF_SIZE {
        FirstWrap(b, log, data);
      }
      Store(data);
      if !full {
        used := used + |data|;
        if used > LOG_BUF_SIZE {
          full, used := true, LOG_BUF_SIZE;
        }
      }
      log := log + data;
      assert !full ==> buf[..head] == buf[..][..head];
      hide Written, Rotated, Last;
    }

    /** rlog_dump at offset 0. */
    method Dump(count: nat) returns (data: seq<Byte>)
      requires Valid() && count <= used
      ensures data == Last(log, LOG_BUF_SIZE)[..count]
    {
      var from := if full then head else 0;
      var left := LOG_BUF_SIZE - from;
      if left >= count {
        data := buf[from..from + count];
      } else {
        data := buf[from..] + buf[..count - left];
      }
    }
  }
}
