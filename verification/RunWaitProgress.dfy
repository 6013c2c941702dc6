/** What one pull sends and consumes, byte by byte, and that pulling gets through: everything the command prints is
    printed by the client, and the finish flag arrives. */
module RunWaitProgress {
  import opened Bytes
  import opened RunWait

  // ---------------------------------------------------------------- one pull

  /** The first NUL of `s`, or its end, is at `d`. */
  predicate NextNul(s: seq<Byte>, d: nat) {
    d <= |s| && (forall i :: 0 <= i < d ==> s[i] != 0) && (d < |s| ==> s[d] == 0)
  }

  /** A pull takes the bytes up to and including the next NUL, as far as they are published and fit the packet; it
      sends exactly these, and then either moves behind them or, with the flag, clears the buffer. */
  lemma PullTakes(c: Control, p: nat, d: nat)
    requires ControlOk(c) && p > 0 && NextNul(c.buf[c.offset..], d)
    ensures var reply, c', n := PullReply(c, p), PullState(c, p), Min(Min(d + 1, c.used - c.offset), p - 1);
      && (reply[0] == 1 <==> c.finish && c.used - c.offset < p - 1)
      && reply[1..1 + n] == c.buf[c.offset..c.offset + n] && (forall i :: 1 + n <= i < p ==> reply[i] == 0)
      && (reply[0] == 0 ==> c' == c.(offset := c.offset + n))
      && (reply[0] != 0 ==> reply[0] == 1 && c' == c.(buf := Zeros(|c.buf|), used := 0, offset := 0))
  {
    SizeIs(c, p, d);
    hide CString, NextNul, PullSize, Zeros, Pad;
    Flagged(PullReply(c, p)[0], c.buf[c.offset..c.offset + PullSize(c, p)], p);
  }

  lemma SizeIs(c: Control, p: nat, d: nat)
    requires ControlOk(c) && p > 0 && NextNul(c.buf[c.offset..], d)
    ensures PullSize(c, p) == Min(Min(d + 1, c.used - c.offset), p - 1)
  {
    CStringIs(c.buf[c.offset..], d);
  }

  /** A flag before a zeroed buffer. */
  lemma Flagged(flag: Byte, text: seq<Byte>, p: nat)
    requires p > 0 && |text| < p
    ensures var reply, n := [flag] + Pad(text, p - 1), |text|;
      reply[1..1 + n] == text && (forall i :: 1 + n <= i < p ==> reply[i] == 0) && reply[0] == flag
  {
    var reply, body := [flag] + Pad(text, p - 1), Pad(text, p - 1);
    hide Pad;
    assert reply[1..1 + |text|] == body[..|text|];
    assert forall i :: 1 <= i < p ==> reply[i] == body[i - 1];
  }

  /** A line that is published with its terminator, and fits a packet with it, is printed as it is, and the next pull
      starts behind its terminator. */
  lemma WholeLine(c: Control, p: nat, line: seq<Byte>)
    requires ControlOk(c) && |line| + 1 < p && c.offset + |line| + 1 <= c.used
    requires c.buf[c.offset..c.offset + |line| + 1] == line + [0] && forall i :: 0 <= i < |line| ==> line[i] != 0
    ensures CString(PullReply(c, p)[1..]) == line
    ensures PullReply(c, p)[0] == 0 ==> PullState(c, p) == c.(offset := c.offset + |line| + 1)
  {
    var rest := c.buf[c.offset..];
    assert rest[..|line| + 1] == line + [0];
    LineEnds(rest, line);
    PullTakes(c, p, |line|);
    hide CString, PullReply, PullState, NextNul;
    Shown(PullReply(c, p), line);
  }

  lemma Shown(reply: seq<Byte>, line: seq<Byte>)
    requires |line| + 1 < |reply| && reply[1..1 + (|line| + 1)] == line + [0]
    requires forall i :: 0 <= i < |line| ==> line[i] != 0
    ensures CString(reply[1..]) == line
  {
    var shown := reply[1..];
    hide CString, NextNul;
    assert shown[..|line| + 1] == line + [0];
    LineEnds(shown, line);
    Cut(shown, |line|);
    assert shown[..|line|] == shown[..|line| + 1][..|line|] == line;
  }

  lemma Cut(s: seq<Byte>, d: nat)
    requires NextNul(s, d)
    ensures CString(s) == s[..d]
  {
    CStringIs(s, d);
  }

  lemma LineEnds(s: seq<Byte>, line: seq<Byte>)
    requires |line| < |s| && s[..|line| + 1] == line + [0] && forall i :: 0 <= i < |line| ==> line[i] != 0
    ensures NextNul(s, |line|)
  {
    assert forall i :: 0 <= i <= |line| ==> s[i] == s[..|line| + 1][i];
  }

  /** A pull that finds something to send moves on, unless it is the last one. */
  lemma PullMoves(c: Control, p: nat)
    requires ControlOk(c) && p > 1 && c.offset < c.used
    ensures PullReply(c, p)[0] == 0 ==> c.offset < PullState(c, p).offset && PullState(c, p).used == c.used
  {
    var d := |CString(c.buf[c.offset..])|;
    CStringPlain(c.buf[c.offset..]);
    assert NextNul(c.buf[c.offset..], d);
    PullTakes(c, p, d);
    hide CString, PullReply, PullState;
  }

  // ---------------------------------------------------------------- pulling on

  function Pulls(run: seq<Step>): nat {
    if run == [] then 0 else B2N(run[0].Pull?) + Pulls(run[1..])
  }

  /** Nothing is published, and the client stays with its command. */
  predicate Calm(run: seq<Step>) {
    forall a <- run :: !a.Publish? && !a.Quit? && !a.Request?
  }

  /** One step other than a pull. */
  lemma Aside(s: System, a: Step, p: nat)
    requires Inv(s) && p > 0 && InTime(s, a) && !Waiting(s) && !a.Pull? && Calm([a])
    ensures var s' := Take(s, a, p);
      && !Waiting(s') && s'.pulling == s.pulling && s'.told == s.told && s'.produced == s.produced
      && s'.control.used == s.control.used && s'.control.offset == s.control.offset
      && (s.control.finish ==> s'.control.finish)
  {
    assert a in [a];
    hide CString, PullReply, PullState, Text, Zeros, Drains, Holds;
  }

  /** A pull that goes on. */
  lemma PullsOn(s: System, p: nat)
    requires Inv(s) && p > 1 && InTime(s, Pull)
    ensures var c, s' := s.control, Take(s, Pull, p);
      && s'.told == !s'.pulling && !Waiting(s') && s'.produced == s.produced
      && (s'.pulling ==> s'.control.used == c.used && s'.control.finish == c.finish
                         && (c.offset < c.used ==> c.offset < s'.control.offset))
      && (c.finish && c.offset == c.used ==> s'.told)
  {
    if s.control.offset < s.control.used { PullMoves(s.control, p); }
    hide CString, PullSize, Text, Zeros, Drains, Holds;
  }

  /** What `k` pulls, and steps other than publishing, achieve. */
  predicate Through(s: System, k: nat, s': System) {
    && !Waiting(s') && s'.produced == s.produced && (s'.pulling ==> s.pulling)
    && (s'.pulling ==> s'.control.used == s.control.used && (s.control.finish ==> s'.control.finish)
                       && s'.control.offset >= Min(s.control.used, s.control.offset + k))
    && (s.control.finish && s.pulling && k > s.control.used - s.control.offset ==> s'.told)
    && (!s.pulling ==> k == 0 && s'.told == s.told)
  }

  lemma OneStep(s: System, a: Step, p: nat)
    requires Inv(s) && p > 1 && InTime(s, a) && !Waiting(s) && Calm([a])
    ensures Through(s, B2N(a.Pull?), Take(s, a, p))
    ensures a.Pull? ==> s.pulling
    ensures a.Pull? && s.control.offset == s.control.used && s.control.finish ==> Take(s, a, p).told
    ensures a.Pull? && !Take(s, a, p).pulling ==> Take(s, a, p).told
    ensures !a.Pull? && s.pulling ==> Take(s, a, p).pulling
  {
    if a.Pull? { PullsOn(s, p); } else { Aside(s, a, p); }
    hide Take, InTime, Waiting, Inv;
  }

  lemma {:induction false} Progress(s: System, run: seq<Step>, p: nat)
    requires p > 1 && Inv(s) && Possible(s, run, p) && Calm(run) && !Waiting(s)
    ensures Inv(After(s, run, p)) && Through(s, Pulls(run), After(s, run, p))
    decreases |run|
  {
    if run != [] {
      var a, rest := run[0], run[1..];
      assert a in run && Calm([a]) && Calm(rest);
      StepKeeps(s, a, p);
      OneStep(s, a, p);
      hide Take, InTime, Inv, Calm;
      Progress(Take(s, a, p), rest, p);
      hide Waiting, Possible, After;
    }
  }

  /** While nothing is published, as many pulls as bytes are waiting, none of them the last one, are enough for the
      client to have printed everything that was produced; whatever else happens in between. */
  lemma CatchesUp(before: seq<Step>, run: seq<Step>, p: nat)
    requires p > 1 && Possible(Initial(), before, p) && Possible(After(Initial(), before, p), run, p) && Calm(run)
    requires var s := After(Initial(), before, p);
      !Waiting(s) && After(s, run, p).pulling && Pulls(run) >= s.control.used - s.control.offset
    ensures var s := After(Initial(), before, p);
      After(s, run, p).printed == After(s, run, p).produced == s.produced
  {
    RunKeeps(Initial(), before, p);
    var s := After(Initial(), before, p);
    Progress(s, run, p);
    var s' := After(s, run, p);
    hide Text, Holds, Possible, After;
    assert Drains(s') && s'.control.offset == s'.control.used;
  }

  /** Once the worker has set the flag, one pull more than bytes are waiting is enough for the client to see it. */
  lemma FlagArrives(before: seq<Step>, run: seq<Step>, p: nat)
    requires p > 1 && Possible(Initial(), before, p) && Possible(After(Initial(), before, p), run, p) && Calm(run)
    requires var s := After(Initial(), before, p);
      s.pulling && !Waiting(s) && s.control.finish && Pulls(run) > s.control.used - s.control.offset
    ensures After(After(Initial(), before, p), run, p).told
  {
    RunKeeps(Initial(), before, p);
    Progress(After(Initial(), before, p), run, p);
  }

  // ---------------------------------------------------------------- what a command produces, from the steps

  function Front(run: seq<Step>): seq<Step>
    requires run != []
  {
    run[..|run| - 1]
  }

  function Last(run: seq<Step>): Step
    requires run != []
  {
    run[|run| - 1]
  }

  /** A command's slot is taken. */
  predicate Claimed(run: seq<Step>) {
    run != [] && match Last(run)
      case Request => true
      case Release(_) => false
      case _ => Claimed(Front(run))
  }

  /** The line the worker copied last. */
  function Fetched(run: seq<Step>): seq<Byte> {
    if run == [] then [] else if Last(run).Copy? then Last(run).line else Fetched(Front(run))
  }

  /** The lines published since the last request that found the slot free. */
  function Output(run: seq<Step>): seq<Byte> {
    if run == [] then []
    else match Last(run)
      case Request => if Claimed(Front(run)) then Output(Front(run)) else []
      case Publish(_) => Output(Front(run)) + Fetched(Front(run))
      case _ => Output(Front(run))
  }

  /** The worker has reached the end of the command's output. */
  predicate Ended(run: seq<Step>) {
    run != [] && match Last(run)
      case Request => Claimed(Front(run)) && Ended(Front(run))
      case Finish(_) => true
      case _ => Ended(Front(run))
  }

  predicate Tracked(s: System, run: seq<Step>) {
    && s.control.single == Claimed(run) && s.produced == Output(run) && s.ended == Ended(run)
    && (|s.workers| == 1 && s.workers[0].Copied? ==> s.workers[0].line == Fetched(run))
    && (s.ended ==> s.control.finish)
  }

  lemma {:induction false} LastStep(s: System, run: seq<Step>, p: nat)
    requires p > 0 && Possible(s, run, p) && run != []
    ensures Possible(s, Front(run), p)
    ensures var s1 := After(s, Front(run), p);
      ControlOk(s1.control) && InTime(s1, Last(run)) && After(s, run, p) == Take(s1, Last(run), p)
    decreases |run|
  {
    if |run| > 1 {
      hide Take, InTime;
      LastStep(Take(s, run[0], p), run[1..], p);
      assert Front(run)[1..] == Front(run[1..]);
    }
  }

  lemma TrackStep(s: System, run: seq<Step>, p: nat)
    requires p > 0 && run != [] && Inv(s) && InTime(s, Last(run)) && Tracked(s, Front(run))
    ensures Tracked(Take(s, Last(run), p), run)
  {
    if Last(run).Pull? {
      TrackPull(s, run, p);
    } else if Last(run).Copy? || Last(run).Publish? {
      TrackLine(s, run, p);
    } else {
      assert |s.workers| <= 1 && (s.control.single <==> |s.workers| == 1);
      assert |s.workers| == 1 && !s.workers[0].Exiting? ==> !s.ended;
      hide Inv, ControlOk, Waiting, CString, PullReply, PullState, Zeros, PullSize, CopyState;
    }
  }

  lemma TrackLine(s: System, run: seq<Step>, p: nat)
    requires p > 0 && run != [] && (Last(run).Copy? || Last(run).Publish?)
    requires |s.workers| <= 1 && ControlOk(s.control) && Enabled(s, Last(run)) && Tracked(s, Front(run))
    ensures Tracked(Take(s, Last(run), p), run)
  {
    hide CString, PullReply, PullState, Zeros, PullSize;
  }

  lemma TrackPull(s: System, run: seq<Step>, p: nat)
    requires p > 0 && run != [] && Last(run).Pull? && ControlOk(s.control) && s.pulling && Tracked(s, Front(run))
    ensures Tracked(Take(s, Pull, p), run)
  {
    hide CString, PullReply, Zeros, PullSize;
  }

  lemma {:induction false} Tracks(run: seq<Step>, p: nat)
    requires p > 0 && Possible(Initial(), run, p)
    ensures Tracked(After(Initial(), run, p), run)
    decreases |run|
  {
    if run != [] {
      LastStep(Initial(), run, p);
      Tracks(Front(run), p);
      RunKeeps(Initial(), Front(run), p);
      hide Possible, After, Take, InTime, Inv, Tracked;
      TrackStep(After(Initial(), Front(run), p), run, p);
    }
  }

  /** Every interleaving: what the client has printed is a prefix of the lines the worker published for its command,
      as the steps of the run have it; the flag it sees says that the worker reached the end of the output; and
      the worker's flag is up as soon as it has. */
  lemma OutputOfRun(run: seq<Step>, p: nat)
    requires p > 0 && Possible(Initial(), run, p)
    ensures var s := After(Initial(), run, p);
      && s.printed <= Output(run) && (s.told ==> Ended(run))
      && (s.pulling && !Waiting(s) ==> (s.control.finish <==> Ended(run)))
      && (s.control.single <==> Claimed(run))
  {
    RunKeeps(Initial(), run, p);
    Tracks(run, p);
  }
}
