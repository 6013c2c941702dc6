/** What each dispatcher operation does to every fde, table entry and select set, told field by field, and what that
    means for runs: a removed fde is never called back. */
module DispatcherLaws {
  import opened Bytes
  import opened Dispatcher

  // ---------------------------------------------------------------- frames

  /** The pending list without `h`, the others in their order. */
  predicate Unqueued(q: seq<nat>, q': seq<nat>, h: nat) {
    if h in q then exists i :: 0 <= i < |q| && q[i] == h && q' == q[..i] + q[i + 1..] else q' == q
  }

  lemma {:induction false} WithoutUnqueues(q: seq<nat>, h: nat)
    requires Distinct(q)
    ensures Unqueued(q, Without(q, h), h)
  {
    if q != [] {
      var last, front := q[|q| - 1], q[..|q| - 1];
      assert q == front + [last];
      WithoutUnqueues(front, h);
      assert last !in front;
      hide Without, Unqueued;
      LastUnqueues(front, Without(front, h), last, h);
      assert Without(q, h) == if last == h then Without(front, h) else Without(front, h) + [last] by {
        LastWithout(q, h);
      }
    }
  }

  lemma LastWithout(q: seq<nat>, h: nat)
    requires q != []
    ensures var last, r := q[|q| - 1], Without(q[..|q| - 1], h); Without(q, h) == if last == h then r else r + [last]
  {}

  lemma LastUnqueues(front: seq<nat>, r: seq<nat>, last: nat, h: nat)
    requires Unqueued(front, r, h) && last !in front
    ensures Unqueued(front + [last], if last == h then r else r + [last], h)
  {
    var q := front + [last];
    if last == h {
      assert q[|front|] == h && r == q[..|front|] + q[|front| + 1..];
    } else if h in front {
      var i :| 0 <= i < |front| && front[i] == h && r == front[..i] + front[i + 1..];
      assert q[i] == front[i] && q[..i] == front[..i] && q[i + 1..] == front[i + 1..] + [last];
      assert r + [last] == q[..i] + q[i + 1..];
    }
  }

  /** No fde but `h` changes. */
  ghost predicate OthersStay(d: State, d': State, h: nat) {
    && d'.fdes.Keys == d.fdes.Keys + {h}
    && forall g <- d.fdes :: g != h ==> d'.fdes[g] == d.fdes[g]
  }

  /** Membership of `fd` in the three select sets stays as it is. */
  predicate SameInterest(d: State, d': State, fd: nat) {
    (fd in d'.rd <==> fd in d.rd) && (fd in d'.wr <==> fd in d.wr) && (fd in d'.er <==> fd in d.er)
  }

  predicate Unselected(d: State, fd: nat) {
    fd !in d.rd && fd !in d.wr && fd !in d.er
  }

  // ---------------------------------------------------------------- fdevent_remove

  /** `h` is taken out: it is not pending, active or queued and wants nothing; its fd is in no table; every other fde
      and registered fd stays, and the rest of the pending list keeps its order. */
  ghost predicate Removed(d: State, d': State, h: nat)
    requires h in d.fdes
  {
    var fd := d.fdes[h].fd;
    && OthersStay(d, d', h) && d'.fdes[h] == Fde(fd, false, false, 0, 0)
    && h !in d'.pending && Unqueued(d.pending, d'.pending, h)
    && (d.fdes[h].active ==> fd !in d'.table && Unselected(d', fd))
    && (forall x :: (x in d'.table <==> x in d.table && d.table[x] != h))
    && (forall x <- d'.table :: d'.table[x] == d.table[x])
    && (forall x :: x != fd || !d.fdes[h].active ==> SameInterest(d, d', x))
    && d'.tableMax == d.tableMax
    && (if d.fdes[h].active then d'.selectN - 1 in d.table else d'.selectN == d.selectN)
    && (forall x <- d.table :: x < d'.selectN <= d.selectN)
  }

  lemma RemoveLaw(d: State, h: nat)
    requires Inv(d) && h in d.fdes
    ensures Removed(d, Remove(d, h), h)
  {
    var d', fd := Remove(d, h), d.fdes[h].fd;
    WithoutUnqueues(d.pending, h);
    assert FdeOk(d, h);
    if d.fdes[h].active { HighestRegistered(d, fd); }
    Unregistered(d, h);
    forall x <- d.table ensures x < d.selectN { assert SlotOk(d, x); }
    hide Inv, Highest, Without, Unqueued;
    Selection(d, h);
    hide SameInterest;
  }

  lemma Unregistered(d: State, h: nat)
    requires Inv(d) && h in d.fdes
    ensures forall x :: (x in Remove(d, h).table <==> x in d.table && d.table[x] != h)
    ensures forall x <- Remove(d, h).table :: Remove(d, h).table[x] == d.table[x]
  {
    assert FdeOk(d, h);
    forall x ensures x in Remove(d, h).table <==> x in d.table && d.table[x] != h {
      assert SlotOk(d, x);
    }
    hide Highest, Without;
  }

  lemma HighestRegistered(d: State, fd: nat)
    requires Inv(d) && fd in d.table
    ensures Highest(d.table, d.selectN) in d.table
    ensures forall x <- d.table :: x <= Highest(d.table, d.selectN) < d.selectN
  {
    forall x <- d.table ensures x <= Highest(d.table, d.selectN) < d.selectN { assert SlotOk(d, x); }
    assert SlotOk(d, fd);
  }

  lemma Selection(d: State, h: nat)
    requires h in d.fdes
    ensures var d', fd := Remove(d, h), d.fdes[h].fd;
      && (forall x :: x != fd || !d.fdes[h].active ==> SameInterest(d, d', x))
      && (d.fdes[h].active ==> Unselected(d', fd))
  {}

  // ---------------------------------------------------------------- fdevent_install

  ghost predicate Installed(d: State, d': State, h: nat, fd: nat) {
    && OthersStay(d, d', h) && h in d'.fdes && d'.fdes[h] == Fde(fd, true, false, 0, 0)
    && d'.table.Keys == d.table.Keys + {fd} && d'.table[fd] == h
    && (forall x <- d.table :: x != fd ==> d'.table[x] == d.table[x])
    && d'.pending == d.pending && h !in d'.pending
    && (forall x :: SameInterest(d, d', x)) && Unselected(d', fd)
    && d'.selectN == (if fd < d.selectN then d.selectN else fd + 1) && Doubled(d.tableMax, d'.tableMax, fd)
  }

  function Pow2(k: nat): nat {
    if k == 0 then 1 else 2 * Pow2(k - 1)
  }

  /** `m'` is `m`, or 256 if that is 0, doubled as often as it takes to exceed `fd`, and no more often. */
  ghost predicate Doubled(m: nat, m': nat, fd: nat) {
    fd < m' && if fd < m then m' == m
               else exists k: nat :: m' == (if m == 0 then 256 else m) * Pow2(k) && (k > 0 ==> m' / 2 <= fd)
  }

  lemma TwiceTimes(a: nat, b: nat)
    ensures (2 * a) * b == a * (2 * b)
  {}

  lemma {:induction false} GrowsDoubling(max: nat, fd: nat) returns (k: nat)
    requires max > 0
    ensures Grown(max, fd) == max * Pow2(k) && (k > 0 ==> Grown(max, fd) / 2 <= fd)
    decreases fd - max
  {
    if fd < max {
      k := 0;
    } else {
      var j := GrowsDoubling(2 * max, fd);
      k := j + 1;
      TwiceTimes(max, Pow2(j));
    }
  }

  lemma InstallLaw(d: State, h: nat, fd: nat)
    requires Inv(d) && Allowed(d, DoInstall(h, fd))
    ensures Installed(d, Install(d, h, fd), h, fd)
  {
    assert FdeOk(d, h) && SetsOk(d, fd);
    if fd >= d.tableMax {
      var k := GrowsDoubling(if d.tableMax == 0 then 256 else d.tableMax, fd);
    }
  }

  // ---------------------------------------------------------------- fdevent_set

  /** `h` wants exactly `ev` from now on. Of the events recorded for it, those that are wanted now are forgotten, and
      it leaves the pending list when none remain; what was not queued is not queued, and nothing else changes. */
  ghost predicate Reset(d: State, d': State, h: nat, ev: Events)
    requires h in d.fdes
  {
    var f := d.fdes[h];
    && OthersStay(d, d', h) && d'.fdes[h].fd == f.fd && d'.fdes[h].active == f.active && d'.fdes[h].mask == ev
    && d'.table == d.table && d'.tableMax == d.tableMax && d'.selectN == d.selectN
    && (forall x :: x != f.fd || !f.active ==> SameInterest(d, d', x))
    && (f.active ==> (f.fd in d'.rd <==> ev & 0x01 != 0) && (f.fd in d'.wr <==> ev & 0x02 != 0)
                     && (f.fd in d'.er <==> ev & 0x04 != 0))
    && Forgets(d, d', h, ev)
  }

  predicate Forgets(d: State, d': State, h: nat, ev: Events)
    requires h in d.fdes && h in d'.fdes
  {
    var f, f' := d.fdes[h], d'.fdes[h];
    if f.pending && f.mask != ev then
      && f'.events | (f.events & ev) == f.events && f'.events & ev == 0
      && f'.pending == (f'.events != 0)
      && if f'.pending then d'.pending == d.pending else h !in d'.pending && Unqueued(d.pending, d'.pending, h)
    else f'.events == f.events && f'.pending == f.pending && d'.pending == d.pending
  }

  lemma SetLaw(d: State, h: nat, ev: Events)
    requires Inv(d) && h in d.fdes
    ensures Reset(d, Set(d, h, ev), h, ev)
  {
    var f := d.fdes[h];
    SetForgets(d, h, ev);
    Leftover(f.events, ev);
    assert f.active ==> SetsOk(d, f.fd) && SlotOk(d, f.fd) && FdeOk(d, h);
    SetInterest(d, h, ev);
    hide Inv, Minus, Without, Wants, Switch, Forgets, SameInterest;
  }

  lemma SetForgets(d: State, h: nat, ev: Events)
    requires Inv(d) && h in d.fdes
    ensures h in Set(d, h, ev).fdes && Forgets(d, Set(d, h, ev), h, ev)
  {
    WithoutUnqueues(d.pending, h);
    Leftover(d.fdes[h].events, ev);
    hide Inv, Minus, Without, Unqueued, Wants, Switch;
  }

  lemma SetInterest(d: State, h: nat, ev: Events)
    requires h in d.fdes
    requires var f := d.fdes[h];
      f.active ==> (f.fd in d.rd <==> Wants(f.mask, FDE_READ)) && (f.fd in d.wr <==> Wants(f.mask, FDE_WRITE))
                   && (f.fd in d.er <==> Wants(f.mask, FDE_ERROR))
    ensures var f, d' := d.fdes[h], Set(d, h, ev);
      && (forall x :: x != f.fd || !f.active ==> SameInterest(d, d', x))
      && (f.active ==> (f.fd in d'.rd <==> Wants(ev, FDE_READ)) && (f.fd in d'.wr <==> Wants(ev, FDE_WRITE))
                       && (f.fd in d'.er <==> Wants(ev, FDE_ERROR)))
  {
    hide Wants, Minus, Without;
  }

  lemma Leftover(m: Events, ev: Events)
    ensures Minus(m, ev) | (m & ev) == m && Minus(m, ev) & ev == 0
    ensures Wants(ev, FDE_READ) <==> ev & 0x01 != 0
    ensures Wants(ev, FDE_WRITE) <==> ev & 0x02 != 0
    ensures Wants(ev, FDE_ERROR) <==> ev & 0x04 != 0
  {}

  // ---------------------------------------------------------------- fdevent_process

  /** Bit by bit: what `f` has recorded before, or was reported for its fd. */
  predicate Recorded(f: Fde, f': Fde, r: bool, w: bool, e: bool) {
    && f' == f.(events := f'.events, pending := f'.pending)
    && f'.pending == (f.pending || r || w || e)
    && (f'.events & 0x01 != 0 <==> f.events & 0x01 != 0 || r)
    && (f'.events & 0x02 != 0 <==> f.events & 0x02 != 0 || w)
    && (f'.events & 0x04 != 0 <==> f.events & 0x04 != 0 || e)
    && f'.events & 0xF8 == f.events & 0xF8
  }

  /** Each registered fd gets exactly what is reported for it; the fdes that were not queued join the end of the
      pending list in the order of their fds; nothing else changes. */
  ghost predicate Reported(d: State, d': State, r: set<nat>, w: set<nat>, e: set<nat>) {
    && d'.table == d.table && d'.tableMax == d.tableMax && d'.selectN == d.selectN
    && (forall x :: SameInterest(d, d', x)) && d'.fdes.Keys == d.fdes.Keys
    && (forall fd <- d.table :: d.table[fd] in d.fdes
                                && Recorded(d.fdes[d.table[fd]], d'.fdes[d.table[fd]], fd in r, fd in w, fd in e))
    && (forall h <- d.fdes :: !d.fdes[h].active ==> d'.fdes[h] == d.fdes[h])
    && d.pending <= d'.pending && InOrder(d, d'.pending, |d.pending|, 0)
  }

  /** From position `from` on, the list holds fdes of ascending fds, all at least `low`. */
  ghost predicate InOrder(d: State, q: seq<nat>, from: nat, low: nat) {
    && (forall i :: from <= i < |q| ==> q[i] in d.fdes && low <= d.fdes[q[i]].fd)
    && forall i, j :: from <= i < j < |q| ==> d.fdes[q[i]].fd < d.fdes[q[j]].fd
  }

  lemma Bits(m: Events, r: bool, w: bool, e: bool)
    ensures var ev := (if r then FDE_READ else 0) | (if w then FDE_WRITE else 0) | (if e then FDE_ERROR else 0);
      && (Join(m, ev) & 0x01 != 0 <==> m & 0x01 != 0 || r) && (Join(m, ev) & 0x02 != 0 <==> m & 0x02 != 0 || w)
      && (Join(m, ev) & 0x04 != 0 <==> m & 0x04 != 0 || e) && Join(m, ev) & 0xF8 == m & 0xF8
      && (ev != 0 <==> r || w || e)
  {}

  lemma {:induction false} ScanFrame(d: State, i: nat, r: set<nat>, w: set<nat>, e: set<nat>)
    requires Inv(d)
    ensures var d' := MarkFrom(d, i, r, w, e);
      && d' == d.(fdes := d'.fdes, pending := d'.pending) && d'.fdes.Keys == d.fdes.Keys
      && (forall h <- d.fdes :: d'.fdes[h].fd == d.fdes[h].fd)
      && (forall h <- d.fdes :: !d.fdes[h].active ==> d'.fdes[h] == d.fdes[h])
      && d.pending <= d'.pending && InOrder(d, d'.pending, |d.pending|, i)
    decreases d.selectN - i
  {
    if i < d.selectN {
      var ev := EventsAt(r, w, e, i);
      var d1 := Mark(d, i, ev);
      assert SlotOk(d, i);
      MarkKeeps(d, i, ev);
      hide EventsAt, Inv, Join;
      ScanFrame(d1, i + 1, r, w, e);
    }
  }

  lemma ScanReports(d: State, r: set<nat>, w: set<nat>, e: set<nat>)
    requires Inv(d)
    ensures Reported(d, MarkFrom(d, 0, r, w, e), r, w, e)
  {
    ScanFrame(d, 0, r, w, e);
    forall fd <- d.table
      ensures d.table[fd] in d.fdes
              && Recorded(d.fdes[d.table[fd]], MarkFrom(d, 0, r, w, e).fdes[d.table[fd]], fd in r, fd in w, fd in e)
    {
      assert SlotOk(d, fd);
      MarkFromMarks(d, 0, r, w, e, fd);
      Bits(d.fdes[d.table[fd]].events, fd in r, fd in w, fd in e);
    }
  }

  /** One round: a failed select changes nothing, unless it failed for a bad descriptor; then, or if nothing is ready,
      every registered fd that fcntl finds bad is marked readable; otherwise everything reported is recorded. */
  lemma ProcessLaw(d: State, sel: Select, bad: set<nat>)
    requires Inv(d)
    ensures sel.Interrupted? || sel.OtherError? ==> Process(d, sel, bad) == d
    ensures sel.BadDescriptor? || (sel.Ready? && sel.r + sel.w + sel.e == {}) ==>
      Reported(d, Process(d, sel, bad), bad, {}, {})
    ensures sel.Ready? && sel.r + sel.w + sel.e != {} ==> Reported(d, Process(d, sel, bad), sel.r, sel.w, sel.e)
  {
    if sel.Ready? {
      ScanReports(d, sel.r, sel.w, sel.e);
      assert sel.r + sel.w + sel.e == {} <==> sel.r == {} && sel.w == {} && sel.e == {};
    }
    ScanReports(d, BadFds(d, bad), {}, {});
    forall fd <- d.table ensures fd in BadFds(d, bad) <==> fd in bad { assert SlotOk(d, fd); }
  }

  // ---------------------------------------------------------------- callbacks

  /** The first pending fde is called back, once, with all that was recorded for it. */
  lemma DequeueLaw(d: State)
    requires Inv(d) && d.pending != []
    ensures d.pending[0] in d.fdes
    ensures var (d', h, ev) := Dequeue(d);
      && h == d.pending[0] && ev == d.fdes[h].events && ev != 0
      && d.pending == [h] + d'.pending && h !in d'.pending
      && OthersStay(d, d', h) && d'.fdes[h] == d.fdes[h].(pending := false, events := 0)
      && d' == d.(fdes := d'.fdes, pending := d'.pending)
  {
    DequeueKeeps(d);
    var h := d.pending[0];
    assert FdeOk(Dequeue(d).0, h);
  }

  // ---------------------------------------------------------------- runs

  /** `h` was removed and not installed again. */
  predicate Out(d: State, h: nat) {
    h in d.fdes && !d.fdes[h].active
  }

  lemma {:induction false} RunOut(d: State, ops: seq<Op>, h: nat)
    requires Inv(d) && CanRun(d, ops) && Out(d, h)
    requires forall op <- ops :: !(op.DoInstall? && op.h == h)
    ensures Inv(Run(d, ops)) && Out(Run(d, ops), h)
    decreases |ops|
  {
    if ops != [] {
      assert ops[0] in ops;
      RunFrom(d, [ops[0]]);
      OneOut(d, ops[0], h);
      assert ops == [ops[0]] + ops[1..];
      hide Inv, Do, Allowed;
      RunOut(Do(d, ops[0]), ops[1..], h);
    }
  }

  lemma OneOut(d: State, op: Op, h: nat)
    requires Inv(d) && Allowed(d, op) && Out(d, h) && !(op.DoInstall? && op.h == h)
    ensures CanRun(d, [op]) && Run(d, [op]) == Do(d, op)
    ensures Inv(Do(d, op)) && Out(Do(d, op), h)
  {
    assert [op][1..] == [];
    RunFrom(d, [op]);
    hide Inv;
    match op
    case DoInstall(_, _) =>
    case DoRemove(g) =>
    case DoSet(g, ev) =>
    case DoProcess(sel, bad) => ProcessLaw(d, sel, bad);
    case DoCallback =>
  }

  /** Whatever was recorded for an fde when it is removed, and whatever happens afterwards: until it is installed again
      it is on no pending list, so no callback is for it, and nothing it had registered is found. */
  lemma RemovedIsSilent(before: seq<Op>, h: nat, after: seq<Op>)
    requires CanRun(EMPTY, before) && Allowed(Run(EMPTY, before), DoRemove(h))
    requires CanRun(Do(Run(EMPTY, before), DoRemove(h)), after)
    requires forall op <- after :: !(op.DoInstall? && op.h == h)
    ensures var d := Run(Do(Run(EMPTY, before), DoRemove(h)), after);
      h in d.fdes && !d.fdes[h].pending && h !in d.pending && forall fd <- d.table :: d.table[fd] != h
  {
    EmptyInv();
    RunFrom(EMPTY, before);
    var d0 := Run(EMPTY, before);
    RemoveKeeps(d0, h);
    RunOut(Remove(d0, h), after, h);
    var d := Run(Remove(d0, h), after);
    assert FdeOk(d, h);
    forall fd <- d.table ensures d.table[fd] != h { assert SlotOk(d, fd); }
  }

  lemma EmptyInv()
    ensures Inv(EMPTY)
  {
    forall h ensures FdeOk(EMPTY, h) {}
    forall fd ensures SlotOk(EMPTY, fd) && SetsOk(EMPTY, fd) {}
  }
}
