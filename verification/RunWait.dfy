/** The runcmd-wait channel of udb_debug.c: a worker thread fills a buffer with the lines a command prints
    while exec_cmd_wait of shell.cpp drains it. Worker, device handlers and client interleave freely. */
module RunWait {
  import opened Bytes

  const UDB_BUF_SIZE: nat := 655360

  // ---------------------------------------------------------------- the control struct

  /** The shared control struct; `buf` is the static buffer. */
  datatype Control = Control(buf: seq<Byte>, used: nat, offset: nat, finish: bool, single: bool)

  predicate ControlOk(c: Control) {
    |c.buf| == UDB_BUF_SIZE && c.offset <= c.used <= UDB_BUF_SIZE
  }

  /** How many bytes a pull of packet size `p` copies: never past the used part, nor past the first NUL. */
  function PullSize(c: Control, p: nat): (cp: nat)
    requires ControlOk(c) && p > 0
    ensures c.offset + cp <= c.used && cp < p
  {
    Min(Min(p - 1, c.used - c.offset), |CString(c.buf[c.offset..])| + 1)
  }

  predicate PullFinishes(c: Control, p: nat) {
    c.finish && c.offset + p - 1 > c.used
  }

  function PullReply(c: Control, p: nat): (r: seq<Byte>)
    requires ControlOk(c) && p > 0
    ensures |r| == p
  {
    [if PullFinishes(c, p) then 1 else 0] + Pad(c.buf[c.offset..c.offset + PullSize(c, p)], p - 1)
  }

  function PullState(c: Control, p: nat): (c': Control)
    requires ControlOk(c) && p > 0
    ensures ControlOk(c')
  {
    if PullFinishes(c, p) then c.(buf := Zeros(UDB_BUF_SIZE), used := 0, offset := 0)
    else c.(offset := c.offset + PullSize(c, p))
  }

  /** The worker's memcpy of a line and its NUL behind the used part. */
  function CopyState(c: Control, line: seq<Byte>): (c': Control)
    requires ControlOk(c) && c.used + |line| + 1 <= UDB_BUF_SIZE
    ensures ControlOk(c') && c'.buf[..c.used] == c.buf[..c.used]
    ensures c'.buf[c.used..c.used + |line| + 1] == line + [0]
  {
    c.(buf := c.buf[..c.used] + (line + [0]) + c.buf[c.used + |line| + 1..])
  }

  /** The struct as the C code keeps it, changed in place. */
  class WaitUnit {
    const protSize: nat
    const buf: array<Byte>
    var used: nat
    var offset: nat
    var finish: bool
    var single: bool

    ghost function View(): Control
      reads this, buf
    {
      Control(buf[..], used, offset, finish, single)
    }

    ghost predicate Valid()
      reads this, buf
    {
      ControlOk(View()) && protSize > 0
    }

    constructor (p: nat)
      requires p > 0
      ensures Valid() && protSize == p && fresh(buf) && View() == Control(Zeros(UDB_BUF_SIZE), 0, 0, false, false)
    {
      protSize, buf := p, new Byte[UDB_BUF_SIZE](_ => 0);
      used, offset, finish, single := 0, 0, false, false;
      new;
      assert buf[..] == Zeros(UDB_BUF_SIZE);
    }

    /** udb_debug_runcmd_wait: the support flag, and the worker's slot claimed. */
    method Start() returns (support: Byte)
      requires Valid()
      modifies this`single, this`offset
      ensures Valid() && support == if old(single) then 0 else 1
      ensures View() == if old(single) then old(View()) else old(View()).(single := true, offset := 0)
    {
      if single { return 0; }
      single := true;
      support := 1;
      offset := 0;
    }

    /** The body of the fgets loop of the worker: copy, then publish. */
    method Append(line: seq<Byte>)
      requires Valid() && used + |line| + 1 <= UDB_BUF_SIZE
      modifies this`used, buf
      ensures Valid() && View() == CopyState(old(View()), line).(used := old(used) + |line| + 1)
    {
      Memcpy(used, line + [0]);
      used := used + |line| + 1;
    }

    method Memcpy(at: nat, text: seq<Byte>)
      requires at + |text| <= buf.Length
      modifies buf
      ensures buf[..] == old(buf[..at]) + text + old(buf[at + |text|..])
    {
      for i := 0 to |text|
        invariant forall k :: 0 <= k < i ==> buf[at + k] == text[k]
        invariant forall k :: 0 <= k < at || at + i <= k < buf.Length ==> buf[k] == old(buf[k])
      {
        buf[at + i] := text[i];
      }
      assert buf[at..at + |text|] == text;
      assert buf[..at] == old(buf[..at]) && buf[at + |text|..] == old(buf[at + |text|..]);
      assert buf[..] == buf[..at] + buf[at..at + |text|] + buf[at + |text|..];
    }

    /** udb_debug_runcmd_wait_pullout. */
    method Pullout() returns (resp: seq<Byte>)
      requires Valid()
      modifies this`used, this`offset, buf
      ensures Valid() && resp == PullReply(old(View()), protSize) && View() == PullState(old(View()), protSize)
    {
      var cp := protSize - 1;
      var pullFinish := false;
      if finish {
        if offset + cp > used {
          pullFinish := true;
          cp := used - offset;
        }
      } else if offset + cp > used {
        cp := used - offset;
      }
      if cp >= used - offset {
        cp := used - offset;
      }
      var strlen := |CString(buf[offset..])|;
      assert buf[offset..] == View().buf[View().offset..];
      if cp > strlen + 1 {
        cp := strlen + 1;
      }
      assert cp == PullSize(View(), protSize);
      assert buf[offset..offset + cp] == View().buf[offset..offset + cp];
      resp := [if pullFinish then 1 else 0] + Pad(buf[offset..offset + cp], protSize - 1);
      if cp != 0 {
        offset := offset + cp;
      }
      if pullFinish {
        used, offset := 0, 0;
        Clear();
      }
    }

    method Clear()
      modifies buf
      ensures buf[..] == Zeros(buf.Length)
    {
      for i := 0 to buf.Length
        invariant buf[..i] == Zeros(i)
      {
        buf[i] := 0;
        assert buf[..i + 1] == buf[..i] + [0];
      }
    }
  }

  // ---------------------------------------------------------------- text without terminators

  function Text(s: seq<Byte>): seq<Byte> {
    if s == [] then [] else (if s[0] == 0 then [] else [s[0]]) + Text(s[1..])
  }

  lemma {:induction false} TextAppend(a: seq<Byte>, b: seq<Byte>)
    ensures Text(a + b) == Text(a) + Text(b)
  {
    if a == [] {
      assert a + b == b;
    } else {
      assert (a + b)[1..] == a[1..] + b;
      TextAppend(a[1..], b);
    }
  }

  lemma {:induction false} TextPlain(s: seq<Byte>)
    requires forall i :: 0 <= i < |s| ==> s[i] != 0
    ensures Text(s) == s && Text(s + [0]) == s
  {
    if s == [] {
      assert s + [0] == [0];
    } else {
      assert (s + [0])[1..] == s[1..] + [0];
      TextPlain(s[1..]);
    }
  }

  /** What the client prints of one reply is the text of the bytes the device counted as sent. */
  lemma PullPrints(c: Control, p: nat)
    requires ControlOk(c) && p > 0
    ensures CString(PullReply(c, p)[1..]) == Text(c.buf[c.offset..c.offset + PullSize(c, p)])
  {
    var rest, cp := c.buf[c.offset..], PullSize(c, p);
    PieceText(rest, cp, p - 1);
    var flag, body := PullReply(c, p)[0], Pad(rest[..cp], p - 1);
    hide CString, Text, Pad, PullSize, PullFinishes;
    assert rest[..cp] == c.buf[c.offset..c.offset + cp];
    assert PullReply(c, p) == [flag] + body;
    assert PullReply(c, p)[1..] == body;
  }

  /** A piece of `rest` that ends at the latest with its first NUL, in a zeroed buffer of `n` bytes. */
  lemma PieceText(rest: seq<Byte>, cp: nat, n: nat)
    requires cp <= n && cp <= |rest| && cp <= |CString(rest)| + 1
    ensures CString(Pad(rest[..cp], n)) == Text(rest[..cp])
  {
    var line := CString(rest);
    CStringPlain(rest);
    hide CString, Text, Pad;
    if cp <= |line| {
      assert rest[..cp] == line[..cp];
      PadText(line[..cp], [], n);
    } else {
      assert rest[..cp] == line + [0];
      PadText(line, [0], n);
    }
  }

  lemma PadText(line: seq<Byte>, end: seq<Byte>, n: nat)
    requires |line + end| <= n && (end == [] || end == [0]) && forall i :: 0 <= i < |line| ==> line[i] != 0
    ensures CString(Pad(line + end, n)) == Text(line + end) == line
  {
    var r := Pad(line + end, n);
    TextPlain(line);
    assert line + [] == line;
    hide CString, Text, Pad;
    assert forall i :: 0 <= i < |line| ==> r[i] == r[..|line + end|][i];
    CStringIs(r, |line|);
    assert r[..|line|] == r[..|line + end|][..|line|];
  }

  // ---------------------------------------------------------------- worker, device and client together

  /** Where a worker thread stands; after Copied only the publication of its line is missing. */
  datatype Phase = Created | Reading | Copied(line: seq<Byte>) | Exiting

  /** `printed` is what the client of the current command printed, `produced` the lines published for it,
      `ended` whether its output was read to the end, `told` whether the client saw the finish flag. */
  datatype System = System(
    control: Control, workers: seq<Phase>, pulling: bool,
    printed: seq<Byte>, produced: seq<Byte>, ended: bool, told: bool)

  function Initial(): (s: System)
    ensures Inv(s)
  {
    System(Control(Zeros(UDB_BUF_SIZE), 0, 0, false, false), [], false, [], [], false, false)
  }

  datatype Step =
    | Request
    | Reset(i: nat)                       // the worker clears used_size and cmd_finish
    | Copy(i: nat, line: seq<Byte>)       // fgets returned a line, memcpy
    | Publish(i: nat)                     // used_size += len
    | Finish(i: nat)                      // end of output: cmd_finish = 1
    | GiveUp(i: nat)                      // popen failed, or no pull for too long
    | Release(i: nat)                     // single_instance = 0, thread ends
    | Pull
    | Quit                                // the client is interrupted

  /** Steps that can be taken; Pull alone does not say that the worker has reset the struct. */
  predicate Enabled(s: System, a: Step) {
    match a
    case Request => !s.pulling
    case Reset(i) => i < |s.workers| && s.workers[i].Created?
    case Copy(i, line) =>
      && i < |s.workers| && s.workers[i].Reading? && s.control.used + |line| + 1 <= |s.control.buf|
      && forall j :: 0 <= j < |line| ==> line[j] != 0
    case Publish(i) =>
      i < |s.workers| && s.workers[i].Copied? && s.control.used + |s.workers[i].line| + 1 <= |s.control.buf|
    case Finish(i) => i < |s.workers| && s.workers[i].Reading?
    case GiveUp(i) => i < |s.workers| && s.workers[i].Reading?
    case Release(i) => i < |s.workers| && s.workers[i].Exiting?
    case Pull => s.pulling
    case Quit => s.pulling
  }

  function Take(s: System, a: Step, p: nat): System
    requires ControlOk(s.control) && p > 0 && Enabled(s, a)
  {
    var c := s.control;
    match a
    case Request =>
      if c.single then s
      else System(c.(single := true, offset := 0), s.workers + [Created], true, [], [], false, false)
    case Reset(i) => s.(control := c.(used := 0, finish := false), workers := s.workers[i := Reading])
    case Copy(i, line) => s.(control := CopyState(c, line), workers := s.workers[i := Copied(line)])
    case Publish(i) =>
      var line := s.workers[i].line;
      s.(control := c.(used := c.used + |line| + 1), workers := s.workers[i := Reading], produced := s.produced + line)
    case Finish(i) => s.(control := c.(finish := true), workers := s.workers[i := Exiting], ended := true)
    case GiveUp(i) => s.(workers := s.workers[i := Exiting])
    case Release(i) => s.(control := c.(single := false), workers := s.workers[..i] + s.workers[i + 1..])
    case Pull =>
      s.(control := PullState(c, p), printed := s.printed + CString(PullReply(c, p)[1..]),
         told := PullFinishes(c, p), pulling := !PullFinishes(c, p))
    case Quit => s.(pulling := false)
  }

  /** The worker of the latest command has been created and has not yet reset the struct. */
  predicate Waiting(s: System) {
    |s.workers| == 1 && s.workers[0].Created?
  }

  /** At most one worker; the drained part of the buffer is what was printed, the used part what was produced. */
  predicate Inv(s: System) {
    && ControlOk(s.control)
    && |s.workers| <= 1 && (s.control.single <==> |s.workers| == 1)
    && s.printed <= s.produced
    && (s.told ==> s.ended)
    && (Waiting(s) ==> s.printed == s.produced == [] && s.control.offset == 0 && !s.told)
    && (|s.workers| == 1 && !s.workers[0].Exiting? ==> !s.ended)
    && (|s.workers| == 1 && s.workers[0].Copied? ==> Holds(s.control, s.workers[0].line))
    && (s.pulling && !Waiting(s) ==> Drains(s))
  }

  predicate Holds(c: Control, line: seq<Byte>) {
    && c.used + |line| + 1 <= |c.buf| && c.buf[c.used..c.used + |line| + 1] == line + [0]
    && forall j :: 0 <= j < |line| ==> line[j] != 0
  }

  predicate Drains(s: System) {
    && s.control.offset <= s.control.used <= |s.control.buf|
    && Text(s.control.buf[..s.control.offset]) == s.printed
    && Text(s.control.buf[..s.control.used]) == s.produced
    && (s.control.finish ==> s.ended)
  }

  /** The client pulls only once the worker of its command has reset the struct. */
  predicate InTime(s: System, a: Step) {
    Enabled(s, a) && (a.Pull? ==> !Waiting(s))
  }

  lemma PublishKeeps(s: System, i: nat)
    requires Inv(s) && Enabled(s, Publish(i))
    ensures Inv(Take(s, Publish(i), 1))
  {
    var c, line := s.control, s.workers[i].line;
    var used' := c.used + |line| + 1;
    TextSplit(c.buf, c.used, used');
    TextPlain(line);
  }

  lemma PullKeeps(s: System, p: nat)
    requires Inv(s) && p > 0 && InTime(s, Pull)
    ensures Inv(Take(s, Pull, p))
    ensures Take(s, Pull, p).printed <= s.produced
  {
    var c := s.control;
    assert Drains(s);
    PullPrinted(s, p);
    var text := CString(PullReply(c, p)[1..]);
    hide CString, Text, PullReply, Zeros, Drains, Holds;
    Front(s.printed + text, Text(c.buf[c.offset + PullSize(c, p)..c.used]));
    if PullFinishes(c, p) {
      LastPullKeeps(s, p, text);
    } else {
      MorePullKeeps(s, p, text);
    }
  }

  lemma LastPullKeeps(s: System, p: nat, text: seq<Byte>)
    requires Inv(s) && p > 0 && InTime(s, Pull) && PullFinishes(s.control, p)
    requires text == CString(PullReply(s.control, p)[1..]) && s.printed + text <= s.produced
    ensures Inv(Take(s, Pull, p))
  {
    assert s.ended;
    hide CString, Text, PullReply, Zeros, Drains, Holds, PullSize;
  }

  lemma MorePullKeeps(s: System, p: nat, text: seq<Byte>)
    requires Inv(s) && p > 0 && InTime(s, Pull) && !PullFinishes(s.control, p)
    requires text == CString(PullReply(s.control, p)[1..]) && s.printed + text <= s.produced
    requires var sent := s.control.offset + PullSize(s.control, p); Text(s.control.buf[..sent]) == s.printed + text
    ensures Inv(Take(s, Pull, p))
  {
    var c, s' := s.control, Take(s, Pull, p);
    assert s'.control == c.(offset := c.offset + PullSize(c, p));
    hide CString, Text, PullReply, Zeros, Holds, PullSize, PullState, PullFinishes;
    SameLine(c, s'.control);
  }

  lemma Front(a: seq<Byte>, b: seq<Byte>)
    ensures a <= a + b
  {}

  lemma SameLine(c: Control, c': Control)
    requires c.buf == c'.buf && c.used == c'.used
    ensures forall line :: Holds(c, line) ==> Holds(c', line)
  {}

  /** The used part of the buffer splits into what was printed, what this pull prints, and what is left. */
  lemma PullPrinted(s: System, p: nat)
    requires ControlOk(s.control) && Drains(s) && p > 0
    ensures var c, sent := s.control, s.control.offset + PullSize(s.control, p);
      && Text(c.buf[..sent]) == s.printed + CString(PullReply(c, p)[1..])
      && s.produced == Text(c.buf[..sent]) + Text(c.buf[sent..c.used])
  {
    var c, cp := s.control, PullSize(s.control, p);
    PullPrints(c, p);
    hide PullSize, CString, Text, PullReply, PullFinishes, Holds, Zeros;
    TextSplit(c.buf, c.offset, c.offset + cp);
    TextSplit(c.buf, c.offset + cp, c.used);
  }

  lemma TextSplit(b: seq<Byte>, i: nat, j: nat)
    requires i <= j <= |b|
    ensures Text(b[..j]) == Text(b[..i]) + Text(b[i..j])
  {
    assert b[..j] == b[..i] + b[i..j];
    TextAppend(b[..i], b[i..j]);
  }

  lemma CopyKeeps(s: System, i: nat, line: seq<Byte>)
    requires Inv(s) && Enabled(s, Copy(i, line))
    ensures Inv(Take(s, Copy(i, line), 1))
  {
    var c, c' := s.control, CopyState(s.control, line);
    assert c'.buf[..c.offset] == c'.buf[..c.used][..c.offset];
    assert c.buf[..c.offset] == c.buf[..c.used][..c.offset];
  }

  lemma StepKeeps(s: System, a: Step, p: nat)
    requires Inv(s) && p > 0 && InTime(s, a)
    ensures Inv(Take(s, a, p))
  {
    match a
    case Copy(i, line) => CopyKeeps(s, i, line);
    case Publish(i) => PublishKeeps(s, i);
    case Pull => PullKeeps(s, p);
    case Request => RequestKeeps(s);
    case _ =>
      hide PullReply, PullState, CString, Zeros, CopyState;
  }

  lemma RequestKeeps(s: System)
    requires Inv(s)
    ensures Enabled(s, Request) ==> Inv(Take(s, Request, 1))
  {
    hide PullReply, PullState, CString, Zeros, CopyState, Text;
  }

  // ---------------------------------------------------------------- whole runs

  predicate Possible(s: System, run: seq<Step>, p: nat)
    requires p > 0
    decreases |run|
  {
    run != [] ==> ControlOk(s.control) && InTime(s, run[0]) && Possible(Take(s, run[0], p), run[1..], p)
  }

  function After(s: System, run: seq<Step>, p: nat): System
    requires p > 0 && Possible(s, run, p)
    decreases |run|
  {
    if run == [] then s else After(Take(s, run[0], p), run[1..], p)
  }

  lemma {:induction false} RunKeeps(s: System, run: seq<Step>, p: nat)
    requires p > 0 && Inv(s) && Possible(s, run, p)
    ensures Inv(After(s, run, p))
    decreases |run|
  {
    if run != [] {
      StepKeeps(s, run[0], p);
      hide Inv, Take, InTime;
      RunKeeps(Take(s, run[0], p), run[1..], p);
    }
  }

  /** Every interleaving: one worker at most, only text the command produced is printed, in order and without
      gaps, and the finish flag is only ever seen after the output was read to its end. */
  lemma WholeRun(run: seq<Step>, p: nat)
    requires p > 0 && Possible(Initial(), run, p)
    ensures var s := After(Initial(), run, p);
      && |s.workers| <= 1 && s.control.offset <= s.control.used
      && s.printed <= s.produced && (s.told ==> s.ended)
  {
    RunKeeps(Initial(), run, p);
  }

  /** At the pull that carries the finish flag, the client has printed everything exactly when nothing but
      terminators is left behind the line it was sent. */
  lemma LastPull(s: System, p: nat)
    requires Inv(s) && p > 0 && InTime(s, Pull) && PullFinishes(s.control, p)
    ensures var s' := Take(s, Pull, p); var sent := s.control.offset + PullSize(s.control, p);
      && s'.told && !s'.pulling
      && (s'.printed == s.produced <==> forall i :: sent <= i < s.control.used ==> s.control.buf[i] == 0)
  {
    var c, sent := s.control, s.control.offset + PullSize(s.control, p);
    PullPrinted(s, p);
    hide PullSize, CString, Text, PullReply, PullFinishes, PullState, Inv, Zeros;
    SameText(c.buf, sent, c.used);
  }

  lemma SameText(b: seq<Byte>, i: nat, j: nat)
    requires i <= j <= |b|
    ensures Text(b[..i]) == Text(b[..i]) + Text(b[i..j]) <==> forall k :: i <= k < j ==> b[k] == 0
  {
    OnlyNuls(b[i..j]);
    hide Text;
    assert forall k :: i <= k < j ==> b[k] == b[i..j][k - i];
  }

  lemma {:induction false} OnlyNuls(s: seq<Byte>)
    ensures Text(s) == [] <==> forall i :: 0 <= i < |s| ==> s[i] == 0
  {
    if s != [] {
      OnlyNuls(s[1..]);
      assert forall i :: 1 <= i < |s| ==> s[i] == s[1..][i - 1];
    }
  }

  /** A pull that comes before the worker's reset works on what an earlier command left: it reports the end of
      a command that has not ended exactly when the earlier one left its flag and less than a packet, and it prints
      text the command did not produce exactly when the buffer is in use and starts with text. */
  lemma EarlyPull(s: System, p: nat)
    requires Inv(s) && p > 0 && s.pulling && Waiting(s)
    ensures var s' := Take(s, Pull, p);
      && !s'.ended && (s'.told <==> s.control.finish && s.control.used < p - 1)
      && (p > 1 ==> (s'.printed <= s'.produced <==> s.control.used == 0 || s.control.buf[0] == 0))
  {
    var c := s.control;
    var piece := c.buf[0..PullSize(c, p)];
    assert c.buf[0..] == c.buf;
    PullPrints(c, p);
    assert s.printed + Text(piece) == Text(piece);
    if piece != [] {
      assert piece[0] == c.buf[0];
    }
    if piece != [] && c.buf[0] == 0 {
      assert piece == [0] && piece[1..] == [];
    }
  }

  predicate Leads(s: System, run: seq<Step>, p: nat, s': System)
    requires p > 0
  {
    Possible(s, run, p) && After(s, run, p) == s'
  }

  lemma Prepend(s: System, a: Step, s1: System, run: seq<Step>, p: nat, s': System)
    requires p > 0 && ControlOk(s.control) && InTime(s, a) && Take(s, a, p) == s1 && Leads(s1, run, p, s')
    ensures Leads(s, [a] + run, p, s')
  {
    assert ([a] + run)[1..] == run;
  }

  /** The states of a command that prints nothing: requested, reset, at its end, drained, gone. */
  function Silent(k: nat): (s: System)
    requires k <= 5
    ensures Inv(s)
  {
    var c := Control(Zeros(UDB_BUF_SIZE), 0, 0, k >= 3, 1 <= k <= 4);
    System(c, if k == 0 || k == 5 then [] else [if k == 1 then Created else if k == 2 then Reading else Exiting],
           1 <= k <= 3, [], [], k >= 3, k >= 4)
  }

  /** What it leaves when the next command has been requested. */
  function Leftover(): System {
    var c := Control(Zeros(UDB_BUF_SIZE), 0, 0, true, true);
    System(c, [Created], true, [], [], false, false)
  }

  lemma SilentPull(p: nat)
    requires p > 1
    ensures InTime(Silent(3), Pull) && Take(Silent(3), Pull, p) == Silent(4)
  {
    var c := Silent(3).control;
    assert PullSize(c, p) == 0;
    PullPrints(c, p);
    assert c.buf[0..0] == [];
  }

  /** Two commands are enough for a pull that comes too early to report the end of the second one. */
  lemma EarlyPullHappens(p: nat)
    requires p > 1
    ensures Leads(Initial(), [Request] + ([Reset(0)] + ([Finish(0)] + ([Pull] + ([Release(0)] + [Request])))), p,
        Leftover())
    ensures Enabled(Leftover(), Pull) && Take(Leftover(), Pull, p).told && !Take(Leftover(), Pull, p).ended
  {
    assert Initial() == Silent(0);
    assert Take(Silent(0), Request, p) == Silent(1);
    assert Take(Silent(1), Reset(0), p) == Silent(2);
    assert Take(Silent(2), Finish(0), p) == Silent(3);
    SilentPull(p);
    assert Take(Silent(4), Release(0), p) == Silent(5);
    assert Take(Silent(5), Request, p) == Leftover();
    assert Leads(Leftover(), [], p, Leftover());
    assert [Request] + [] == [Request];
    hide Leads, Take, Silent, Leftover, Initial;
    Prepend(Silent(5), Request, Leftover(), [], p, Leftover());
    Prepend(Silent(4), Release(0), Silent(5), [Request], p, Leftover());
    Prepend(Silent(3), Pull, Silent(4), [Release(0)] + [Request], p, Leftover());
    Prepend(Silent(2), Finish(0), Silent(3), [Pull] + ([Release(0)] + [Request]), p, Leftover());
    Prepend(Silent(1), Reset(0), Silent(2), [Finish(0)] + ([Pull] + ([Release(0)] + [Request])), p, Leftover());
    Prepend(Silent(0), Request, Silent(1), [Reset(0)] + ([Finish(0)] + ([Pull] + ([Release(0)] + [Request]))), p,
        Leftover());
  }

  /** The buffer after the lines "a" and "b". */
  function Lines(k: nat): (b: seq<Byte>)
    requires k <= 2
    ensures |b| == UDB_BUF_SIZE
  {
    if k == 0 then Zeros(UDB_BUF_SIZE)
    else if k == 1 then [97, 0] + Zeros(UDB_BUF_SIZE - 2)
    else [97, 0, 98, 0] + Zeros(UDB_BUF_SIZE - 4)
  }

  /** The states of a command that prints the two lines, `k` of them published, before anything is pulled. */
  function Talking(k: nat, w: Phase): System
    requires k <= 2
  {
    var c := Control(Lines(if w.Copied? && k < 2 then k + 1 else k), 2 * k, 0, w.Exiting?, true);
    System(c, [w], true, [], [97, 98][..k], w.Exiting?, false)
  }

  lemma LinesGrow(k: nat)
    requires k < 2
    ensures var line := [[97], [98]][k];
      Lines(k)[..2 * k] + (line + [0]) + Lines(k)[2 * k + 2..] == Lines(k + 1)
  {
    ZerosRest(UDB_BUF_SIZE, 2);
    ZerosRest(UDB_BUF_SIZE - 2, 2);
    var zeros := Zeros(UDB_BUF_SIZE - 2);
    hide Zeros;
    if k == 0 {
      assert Lines(0)[..0] + ([97] + [0]) == [97, 0];
    } else {
      assert ([97, 0] + zeros)[..2] + ([98] + [0]) == [97, 0, 98, 0];
      assert ([97, 0] + zeros)[4..] == zeros[2..];
    }
  }

  lemma ZerosRest(n: nat, k: nat)
    requires k <= n
    ensures Zeros(n)[k..] == Zeros(n - k)
  {}

  lemma LinesCopied(k: nat)
    requires k < 2
    ensures var line := [[97], [98]][k];
      && CopyState(Talking(k, Reading).control, line) == Talking(k, Copied(line)).control
      && InTime(Talking(k, Reading), Copy(0, line)) && InTime(Talking(k, Copied(line)), Publish(0))
  {
    LinesGrow(k);
    hide Lines;
  }

  /** One line copied and published. */
  lemma LineTaken(k: nat, p: nat, run: seq<Step>, s': System)
    requires k < 2 && p > 0 && Leads(Talking(k + 1, Reading), run, p, s')
    ensures Leads(Talking(k, Reading), [Copy(0, [[97], [98]][k])] + ([Publish(0)] + run), p, s')
  {
    var line := [[97], [98]][k];
    var s, copied := Talking(k, Reading), Talking(k, Copied(line));
    LinesCopied(k);
    assert [97, 98][..k] + line == [97, 98][..k + 1];
    assert Take(s, Copy(0, line), p) == copied;
    assert Take(copied, Publish(0), p) == Talking(k + 1, Reading);
    hide Leads, Take, Talking, Lines, CopyState;
    Prepend(copied, Publish(0), Talking(k + 1, Reading), run, p, s');
    Prepend(s, Copy(0, line), copied, [Publish(0)] + run, p, s');
  }

  /** A command prints the lines "a" and "b" and ends before the first pull; that pull carries the finish flag,
      and the client never sees "b". */
  lemma LastPullLoses(p: nat)
    requires p > 5
    ensures var run := [Request] + ([Reset(0)] + ([Copy(0, [97])] + ([Publish(0)] + ([Copy(0, [98])]
        + ([Publish(0)] + ([Finish(0)] + [Pull]))))));
      && Possible(Initial(), run, p)
      && var s := After(Initial(), run, p); s.told && s.printed == [97] && s.produced == [97, 98]
  {
    var end := Talking(2, Exiting);
    assert Take(Initial(), Request, p) == Talking(0, Created);
    assert Take(Talking(0, Created), Reset(0), p) == Talking(0, Reading);
    assert Take(Talking(2, Reading), Finish(0), p) == end;
    OnlyFirstLine(p);
    var s' := Take(end, Pull, p);
    assert Leads(s', [], p, s');
    assert [Pull] + [] == [Pull];
    hide Leads, Take, Talking, Initial;
    Prepend(end, Pull, s', [], p, s');
    Prepend(Talking(2, Reading), Finish(0), end, [Pull], p, s');
    LineTaken(1, p, [Finish(0)] + [Pull], s');
    LineTaken(0, p, [Copy(0, [98])] + ([Publish(0)] + ([Finish(0)] + [Pull])), s');
    FromStart(p, [Copy(0, [97])] + ([Publish(0)] + ([Copy(0, [98])] + ([Publish(0)] + ([Finish(0)] + [Pull])))), s');
  }

  lemma FromStart(p: nat, run: seq<Step>, s': System)
    requires p > 0 && Leads(Talking(0, Reading), run, p, s')
    ensures var r := [Request] + ([Reset(0)] + run); Possible(Initial(), r, p) && After(Initial(), r, p) == s'
  {
    assert Take(Initial(), Request, p) == Talking(0, Created);
    assert Take(Talking(0, Created), Reset(0), p) == Talking(0, Reading);
    hide Take, Talking, Initial;
    Prepend(Talking(0, Created), Reset(0), Talking(0, Reading), run, p, s');
    Prepend(Initial(), Request, Talking(0, Created), [Reset(0)] + run, p, s');
  }

  lemma OnlyFirstLine(p: nat)
    requires p > 5
    ensures InTime(Talking(2, Exiting), Pull)
    ensures var s' := Take(Talking(2, Exiting), Pull, p); s'.told && s'.printed == [97] && s'.produced == [97, 98]
  {
    var c := Talking(2, Exiting).control;
    assert c.buf[0..] == c.buf && c.buf[0] == 97 && c.buf[1] == 0;
    CStringIs(c.buf, 1);
    assert PullSize(c, p) == 2;
    PullPrints(c, p);
    assert c.buf[0..2] == [97] + [0];
    TextPlain([97]);
  }
}
