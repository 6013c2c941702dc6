/** The select-based event dispatcher of fdevent.c: fd table, interest sets, select_n, pending list. */
module Dispatcher {
  import opened Bytes

  type Events = bv8   // the FDE_EVENTMASK half of fde->state, and fde->events

  const FDE_READ: Events := 0x01
  const FDE_WRITE: Events := 0x02
  const FDE_ERROR: Events := 0x04

  /** `mask`, `active` and `pending` are the fields packed into fde->state. */
  datatype Fde = Fde(fd: nat, active: bool, pending: bool, mask: Events, events: Events)

  /** `table` is fd_table without its empty slots; `fdes` holds every fdevent by its handle. */
  datatype State = State(table: map<nat, nat>, tableMax: nat, fdes: map<nat, Fde>,
                         rd: set<nat>, wr: set<nat>, er: set<nat>, selectN: nat, pending: seq<nat>)

  predicate Wants(m: Events, e: Events) {
    m & e != 0
  }

  function Join(m: Events, e: Events): Events { m | e }

  function Minus(m: Events, e: Events): Events { m & !e }

  lemma Joined(m: Events, e: Events)
    ensures Join(m, 0) == m
    ensures Join(m, e) == 0 ==> m == 0 && e == 0
  {}

  // ---------------------------------------------------------------- the invariant

  /** An active fde is the one registered for its fd, below select_n. */
  predicate SlotOk(d: State, fd: nat) {
    fd in d.table ==>
      && fd < d.selectN && d.table[fd] in d.fdes
      && d.fdes[d.table[fd]].active && d.fdes[d.table[fd]].fd == fd
  }

  /** An fde is pending exactly when it is on the pending list, and then it has events to deliver. */
  predicate FdeOk(d: State, h: nat) {
    h in d.fdes ==>
      && (d.fdes[h].active ==> d.fdes[h].fd in d.table && d.table[d.fdes[h].fd] == h)
      && (d.fdes[h].pending <==> h in d.pending)
      && (d.fdes[h].pending ==> d.fdes[h].active && d.fdes[h].events != 0)
  }

  /** The three select sets are the masks of the registered fdes. */
  predicate SetsOk(d: State, fd: nat) {
    && (fd in d.rd <==> fd in d.table && d.table[fd] in d.fdes && Wants(d.fdes[d.table[fd]].mask, FDE_READ))
    && (fd in d.wr <==> fd in d.table && d.table[fd] in d.fdes && Wants(d.fdes[d.table[fd]].mask, FDE_WRITE))
    && (fd in d.er <==> fd in d.table && d.table[fd] in d.fdes && Wants(d.fdes[d.table[fd]].mask, FDE_ERROR))
  }

  ghost predicate Inv(d: State) {
    && (forall fd {:trigger SlotOk(d, fd)} :: SlotOk(d, fd))
    && (forall h {:trigger FdeOk(d, h)} :: FdeOk(d, h))
    && (forall fd {:trigger SetsOk(d, fd)} :: SetsOk(d, fd))
    && Distinct(d.pending)
    && (forall h <- d.pending :: h in d.fdes)
    && d.selectN <= d.tableMax
  }

  // ---------------------------------------------------------------- the operations

  /** fd_table_max after doubling until `fd` fits; 256 at first. */
  function Grown(max: nat, fd: nat): (m: nat)
    ensures fd < m && max <= m
    decreases fd - max
  {
    if fd < max then max else if max == 0 then Grown(256, fd) else Grown(2 * max, fd)
  }

  /** fdevent_install: memset, register, connect. */
  function Install(d: State, h: nat, fd: nat): State {
    d.(fdes := d.fdes[h := Fde(fd, true, false, 0, 0)], table := d.table[fd := h],
       tableMax := if fd < d.tableMax then d.tableMax else Grown(d.tableMax, fd),
       selectN := if fd >= d.selectN then fd + 1 else d.selectN)
  }

  /** The largest registered fd below `n`, 0 if there is none. */
  function Highest(table: map<nat, nat>, n: nat): (m: nat)
    ensures forall fd <- table :: fd < n ==> fd <= m
    ensures n > 0 ==> m < n
    ensures m in table || m == 0
  {
    if n == 0 then 0 else if n - 1 in table then n - 1 else Highest(table, n - 1)
  }

  /** fdevent_remove: leave the pending list, disconnect (which recomputes select_n while the fde is still
      registered), unregister. */
  function Remove(d: State, h: nat): State
    requires h in d.fdes
  {
    var f := d.fdes[h];
    var d1 := if f.pending then d.(pending := Without(d.pending, h)) else d;
    var d2 := if f.active then
                d1.(rd := d1.rd - {f.fd}, wr := d1.wr - {f.fd}, er := d1.er - {f.fd},
                    selectN := Highest(d1.table, d1.selectN) + 1, table := d1.table - {f.fd})
              else d1;
    d2.(fdes := d2.fdes[h := f.(active := false, pending := false, mask := 0, events := 0)])
  }

  function Switch(s: set<nat>, fd: nat, on: bool): set<nat> {
    if on then s + {fd} else s - {fd}
  }

  /** The fde after fdevent_set, with the masking of pending events as the code has it. */
  function Remask(f: Fde, ev: Events): Fde {
    if !f.pending then f.(mask := ev)
    else f.(mask := ev, events := Minus(f.events, ev), pending := Minus(f.events, ev) != 0)
  }

  /** fdevent_set. */
  function Set(d: State, h: nat, ev: Events): State
    requires h in d.fdes
  {
    var f := d.fdes[h];
    if f.mask == ev then d else
    var d1 := if f.active then d.(rd := Switch(d.rd, f.fd, Wants(ev, FDE_READ)),
                                  wr := Switch(d.wr, f.fd, Wants(ev, FDE_WRITE)),
                                  er := Switch(d.er, f.fd, Wants(ev, FDE_ERROR))) else d;
    d1.(fdes := d1.fdes[h := Remask(f, ev)],
        pending := if f.pending && !Remask(f, ev).pending then Without(d1.pending, h) else d1.pending)
  }

  function Add(d: State, h: nat, ev: Events): State
    requires h in d.fdes
  {
    Set(d, h, Join(d.fdes[h].mask, ev))
  }

  function Del(d: State, h: nat, ev: Events): State
    requires h in d.fdes
  {
    Set(d, h, Minus(d.fdes[h].mask, ev))
  }

  function EventsAt(r: set<nat>, w: set<nat>, e: set<nat>, fd: nat): Events {
    (if fd in r then FDE_READ else 0) | (if fd in w then FDE_WRITE else 0) | (if fd in e then FDE_ERROR else 0)
  }

  /** One ready fd of fdevent_process: record the events, queue the fde once. */
  function Mark(d: State, fd: nat, ev: Events): State {
    if ev == 0 || fd !in d.table || d.table[fd] !in d.fdes then d else
    var h := d.table[fd];
    var f := d.fdes[h];
    d.(fdes := d.fdes[h := f.(events := Join(f.events, ev), pending := true)],
       pending := if f.pending then d.pending else d.pending + [h])
  }

  /** Mark every ready fd from `i` up to select_n, in order. */
  function MarkFrom(d: State, i: nat, r: set<nat>, w: set<nat>, e: set<nat>): State
    decreases d.selectN - i
  {
    if i >= d.selectN then d else MarkFrom(Mark(d, i, EventsAt(r, w, e, i)), i + 1, r, w, e)
  }

  /** What select() and the F_GETFL probes report. */
  datatype Select = Ready(r: set<nat>, w: set<nat>, e: set<nat>) | BadDescriptor | Interrupted | OtherError

  predicate Honest(d: State, sel: Select) {
    sel.Ready? ==> sel.r <= d.rd && sel.w <= d.wr && sel.e <= d.er
  }

  function BadFds(d: State, bad: set<nat>): set<nat> {
    set fd | fd in d.table && fd in bad && fd < d.selectN
  }

  /** fdevent_process. */
  function Process(d: State, sel: Select, bad: set<nat>): State {
    match sel
    case Interrupted => d
    case OtherError => d
    case BadDescriptor => MarkFrom(d, 0, BadFds(d, bad), {}, {})
    case Ready(r, w, e) =>
      if r == {} && w == {} && e == {} then MarkFrom(d, 0, BadFds(d, bad), {}, {}) else MarkFrom(d, 0, r, w, e)
  }

  /** fdevent_plist_dequeue and fdevent_call_fdfunc: the fde called back and the events it gets. */
  function Dequeue(d: State): (State, nat, Events)
    requires d.pending != [] && d.pending[0] in d.fdes
  {
    var h := d.pending[0];
    var f := d.fdes[h];
    (d.(pending := d.pending[1..], fdes := d.fdes[h := f.(events := 0, pending := false)]), h, f.events)
  }

  // ---------------------------------------------------------------- every operation keeps the invariant

  lemma InstallKeeps(d: State, h: nat, fd: nat)
    requires Inv(d) && (h in d.fdes ==> !d.fdes[h].active) && fd !in d.table
    ensures Inv(Install(d, h, fd))
  {
    var d' := Install(d, h, fd);
    assert FdeOk(d, h) && SlotOk(d, fd) && SetsOk(d, fd);
    forall g ensures FdeOk(d', g) { assert FdeOk(d, g); }
    forall f ensures SlotOk(d', f) && SetsOk(d', f) { assert SlotOk(d, f) && SetsOk(d, f); }
  }

  lemma RemoveKeeps(d: State, h: nat)
    requires Inv(d) && h in d.fdes
    ensures Inv(Remove(d, h))
  {
    var d' := Remove(d, h);
    WithoutDistinct(d.pending, h);
    assert FdeOk(d, h);
    if d.fdes[h].active { assert SlotOk(d, d.fdes[h].fd); }
    forall g ensures FdeOk(d', g) {
      assert FdeOk(d, g);
      if g in d.fdes && d.fdes[g].active { assert SlotOk(d, d.fdes[g].fd); }
    }
    forall f ensures SlotOk(d', f) && SetsOk(d', f) { assert SlotOk(d, f) && SetsOk(d, f); }
  }

  lemma SetKeeps(d: State, h: nat, ev: Events)
    requires Inv(d) && h in d.fdes
    ensures Inv(Set(d, h, ev))
  {
    hide Wants, Minus;
    var d' := Set(d, h, ev);
    WithoutDistinct(d.pending, h);
    assert FdeOk(d, h);
    if d.fdes[h].active { assert SlotOk(d, d.fdes[h].fd); }
    forall g ensures FdeOk(d', g) { assert FdeOk(d, g); }
    forall f ensures SlotOk(d', f) && SetsOk(d', f) {
      assert SlotOk(d, f) && SetsOk(d, f);
      if f in d.table { assert FdeOk(d, d.table[f]); }
    }
  }

  lemma MarkKeeps(d: State, fd: nat, ev: Events)
    requires Inv(d)
    ensures Inv(Mark(d, fd, ev)) && Mark(d, fd, ev).selectN == d.selectN
    ensures Mark(d, fd, ev).table == d.table && Mark(d, fd, ev).fdes.Keys == d.fdes.Keys
  {
    hide Join, Wants;
    var d' := Mark(d, fd, ev);
    assert SlotOk(d, fd);
    if fd in d.table { assert FdeOk(d, d.table[fd]); Joined(d.fdes[d.table[fd]].events, ev); }
    forall g ensures FdeOk(d', g) { assert FdeOk(d, g); }
    forall f ensures SlotOk(d', f) && SetsOk(d', f) { assert SlotOk(d, f) && SetsOk(d, f); }
  }

  lemma {:induction false} MarkFromKeeps(d: State, i: nat, r: set<nat>, w: set<nat>, e: set<nat>)
    requires Inv(d)
    ensures Inv(MarkFrom(d, i, r, w, e))
    decreases d.selectN - i
  {
    if i < d.selectN {
      MarkKeeps(d, i, EventsAt(r, w, e, i));
      MarkFromKeeps(Mark(d, i, EventsAt(r, w, e, i)), i + 1, r, w, e);
    }
  }

  lemma DequeueKeeps(d: State)
    requires Inv(d) && d.pending != []
    ensures Inv(Dequeue(d).0) && Dequeue(d).2 != 0
  {
    var d' := Dequeue(d).0;
    var h := d.pending[0];
    assert h in d.pending;
    assert FdeOk(d, h);
    forall g ensures FdeOk(d', g) {
      assert FdeOk(d, g);
      assert d.pending == [h] + d.pending[1..];
    }
    forall f ensures SlotOk(d', f) && SetsOk(d', f) { assert SlotOk(d, f) && SetsOk(d, f); }
  }

  // ---------------------------------------------------------------- what a round of select achieves

  /** The "missing fde" abort is unreachable: every fd select may report is registered. */
  lemma NoMissingFde(d: State, sel: Select, fd: nat)
    requires Inv(d) && Honest(d, sel) && sel.Ready?
    requires fd in sel.r || fd in sel.w || fd in sel.e
    ensures fd in d.table && fd < d.selectN <= d.tableMax && d.table[fd] in d.fdes && d.fdes[d.table[fd]].fd == fd
  {
    assert SetsOk(d, fd) && SlotOk(d, fd);
  }

  /** Every registered fd gets exactly the events reported for it, and its fde is queued if it got any;
      what was queued before stays in front. */
  lemma {:induction false} MarkFromMarks(d: State, i: nat, r: set<nat>, w: set<nat>, e: set<nat>, fd: nat)
    requires Inv(d) && fd in d.table
    ensures var d' := MarkFrom(d, i, r, w, e);
      var h, ev := d.table[fd], if fd >= i then EventsAt(r, w, e, fd) else 0;
      && h in d.fdes && h in d'.fdes
      && d'.fdes[h] == d.fdes[h].(events := Join(d.fdes[h].events, ev), pending := d.fdes[h].pending || ev != 0)
      && d.pending <= d'.pending
    decreases d.selectN - i
  {
    hide Join, Wants, EventsAt;
    assert SlotOk(d, fd) && SlotOk(d, i);
    Joined(d.fdes[d.table[fd]].events, 0);
    if i < d.selectN {
      var d1 := Mark(d, i, EventsAt(r, w, e, i));
      MarkKeeps(d, i, EventsAt(r, w, e, i));
      MarkFromMarks(d1, i + 1, r, w, e, fd);
      Joined(d1.fdes[d.table[fd]].events, 0);
    }
  }

  /** fdevent_set on a pending fde forgets exactly the events that are wanted, and keeps the others: an
      unwanted event stays pending iff one was pending before. */
  lemma SetKeepsUnwanted(d: State, h: nat, ev: Events)
    requires Inv(d) && h in d.fdes && d.fdes[h].pending && d.fdes[h].mask != ev
    ensures var f, f' := d.fdes[h], Set(d, h, ev).fdes[h];
      && f'.events & ev == 0 && f'.events == Minus(f.events, ev)
      && (f'.pending <==> Minus(f.events, ev) != 0)
      && (h in Set(d, h, ev).pending <==> Minus(f.events, ev) != 0)
  {
    var f := d.fdes[h];
    assert Minus(f.events, ev) & ev == 0 && 0 & ev == 0;
    hide Minus, Wants;
    var d' := Set(d, h, ev);
    SetKeeps(d, h, ev);
    assert FdeOk(d', h) && FdeOk(d, h);
  }

  // ---------------------------------------------------------------- runs

  datatype Op =
    | DoInstall(h: nat, fd: nat)
    | DoRemove(h: nat)
    | DoSet(h: nat, ev: Events)
    | DoProcess(sel: Select, bad: set<nat>)
    | DoCallback

  predicate Allowed(d: State, op: Op) {
    match op
    case DoInstall(h, fd) => (h in d.fdes ==> !d.fdes[h].active) && fd !in d.table && fd <= 32000
    case DoRemove(h) => h in d.fdes
    case DoSet(h, _) => h in d.fdes
    case DoProcess(sel, _) => Honest(d, sel)
    case DoCallback => d.pending != [] && d.pending[0] in d.fdes
  }

  function Do(d: State, op: Op): State
    requires Allowed(d, op)
  {
    match op
    case DoInstall(h, fd) => Install(d, h, fd)
    case DoRemove(h) => Remove(d, h)
    case DoSet(h, ev) => Set(d, h, ev)
    case DoProcess(sel, bad) => Process(d, sel, bad)
    case DoCallback => Dequeue(d).0
  }

  predicate CanRun(d: State, ops: seq<Op>)
    decreases |ops|
  {
    ops == [] || (Allowed(d, ops[0]) && CanRun(Do(d, ops[0]), ops[1..]))
  }

  function Run(d: State, ops: seq<Op>): State
    requires CanRun(d, ops)
    decreases |ops|
  {
    if ops == [] then d else Run(Do(d, ops[0]), ops[1..])
  }

  const EMPTY := State(map[], 0, map[], {}, {}, {}, 0, [])

  /** A run that delivers an unwanted event: readable and writable are reported, interest in reading is dropped,
      and the read event alone is delivered. */
  const STALE_RUN: seq<Op> := [
    DoInstall(1, 5), DoSet(1, FDE_READ | FDE_WRITE), DoProcess(Ready({5}, {5}, {}), {}), DoSet(1, FDE_WRITE)]

  lemma StaleRead()
    ensures CanRun(EMPTY, STALE_RUN)
    ensures var d := Run(EMPTY, STALE_RUN);
      && Allowed(d, DoCallback) && 1 in d.fdes && d.pending == [1]
      && !Wants(d.fdes[1].mask, FDE_READ) && Dequeue(d).1 == 1 && Dequeue(d).2 == FDE_READ
  {
    var both := FDE_READ | FDE_WRITE;
    var fde := Fde(5, true, false, both, 0);
    var d1 := State(map[5 := 1], 256, map[1 := Fde(5, true, false, 0, 0)], {}, {}, {}, 6, []);
    var d2 := State(map[5 := 1], 256, map[1 := fde], {5}, {5}, {}, 6, []);
    var d3 := d2.(fdes := map[1 := fde.(pending := true, events := both)], pending := [1]);
    var d4 := d3.(fdes := map[1 := fde.(pending := true, mask := FDE_WRITE, events := FDE_READ)], rd := {});
    OneReady(d2, 0, d3);
    First(d3, STALE_RUN[3], d4, []);
    First(d2, STALE_RUN[2], d3, [STALE_RUN[3]]);
    First(d1, STALE_RUN[1], d2, [STALE_RUN[2], STALE_RUN[3]]);
    First(EMPTY, STALE_RUN[0], d1, [STALE_RUN[1], STALE_RUN[2], STALE_RUN[3]]);
  }

  lemma First(d: State, op: Op, d1: State, ops: seq<Op>)
    requires Allowed(d, op) && Do(d, op) == d1 && CanRun(d1, ops)
    ensures CanRun(d, [op] + ops) && Run(d, [op] + ops) == Run(d1, ops)
  {
    assert ([op] + ops)[1..] == ops;
  }

  /** The scan of a table with one registered fd, 5, that is readable and writable. */
  lemma {:induction false} OneReady(d: State, i: nat, d': State)
    requires i <= 5 && d.selectN == 6 && d.table == map[5 := 1] && 1 in d.fdes
    requires d' == Mark(d, 5, FDE_READ | FDE_WRITE)
    ensures MarkFrom(d, i, {5}, {5}, {}) == d'
    decreases 5 - i
  {
    if i < 5 {
      OneReady(d, i + 1, d');
    } else {
      assert MarkFrom(d', 6, {5}, {5}, {}) == d';
    }
  }

  lemma {:induction false} RunFrom(d: State, ops: seq<Op>)
    requires Inv(d) && CanRun(d, ops)
    ensures Inv(Run(d, ops))
    decreases |ops|
  {
    if ops != [] {
      match ops[0] {
        case DoInstall(h, fd) => InstallKeeps(d, h, fd);
        case DoRemove(h) => RemoveKeeps(d, h);
        case DoSet(h, ev) => SetKeeps(d, h, ev);
        case DoProcess(sel, bad) =>
          MarkFromKeeps(d, 0, BadFds(d, bad), {}, {});
          if sel.Ready? { MarkFromKeeps(d, 0, sel.r, sel.w, sel.e); }
        case DoCallback => DequeueKeeps(d);
      }
      RunFrom(Do(d, ops[0]), ops[1..]);
    }
  }

  lemma Meaning(d: State)
    requires Inv(d)
    ensures forall h <- d.fdes :: (d.fdes[h].pending <==> h in d.pending)
                                  && (d.fdes[h].pending ==> d.fdes[h].active && d.fdes[h].events != 0)
    ensures forall fd <- d.table :: fd < d.selectN && d.table[fd] in d.fdes && d.fdes[d.table[fd]].fd == fd
    ensures forall fd :: fd in d.rd <==> fd in d.table && Wants(d.fdes[d.table[fd]].mask, FDE_READ)
    ensures forall fd :: fd in d.wr <==> fd in d.table && Wants(d.fdes[d.table[fd]].mask, FDE_WRITE)
    ensures forall fd :: fd in d.er <==> fd in d.table && Wants(d.fdes[d.table[fd]].mask, FDE_ERROR)
  {
    hide Wants;
    forall fd <- d.table ensures fd < d.selectN && d.table[fd] in d.fdes && d.fdes[d.table[fd]].fd == fd {
      assert SlotOk(d, fd);
    }
    forall h <- d.fdes ensures (d.fdes[h].pending <==> h in d.pending)
                               && (d.fdes[h].pending ==> d.fdes[h].active && d.fdes[h].events != 0) {
      assert FdeOk(d, h);
    }
    forall fd ensures (fd in d.rd <==> fd in d.table && Wants(d.fdes[d.table[fd]].mask, FDE_READ))
                      && (fd in d.wr <==> fd in d.table && Wants(d.fdes[d.table[fd]].mask, FDE_WRITE))
                      && (fd in d.er <==> fd in d.table && Wants(d.fdes[d.table[fd]].mask, FDE_ERROR)) {
      assert SetsOk(d, fd) && SlotOk(d, fd);
    }
  }

  /** Between callbacks, after any sequence of operations: an fde is on the pending list, once, iff it is
      marked pending, and it is registered and has events then; the select sets are the masks; select_n
      exceeds every registered fd. */
  lemma DispatcherInvariant(ops: seq<Op>)
    requires CanRun(EMPTY, ops)
    ensures var d := Run(EMPTY, ops);
      && (forall h <- d.fdes :: d.fdes[h].pending <==> h in d.pending)
      && (forall h <- d.fdes :: d.fdes[h].pending ==> d.fdes[h].active && d.fdes[h].events != 0)
      && (forall i, j :: 0 <= i < j < |d.pending| ==> d.pending[i] != d.pending[j])
      && (forall h <- d.pending :: h in d.fdes)
      && (forall fd <- d.table :: fd < d.selectN <= d.tableMax && d.table[fd] in d.fdes && d.fdes[d.table[fd]].fd == fd)
      && (forall fd :: fd in d.rd <==> fd in d.table && Wants(d.fdes[d.table[fd]].mask, FDE_READ))
      && (forall fd :: fd in d.wr <==> fd in d.table && Wants(d.fdes[d.table[fd]].mask, FDE_WRITE))
      && (forall fd :: fd in d.er <==> fd in d.table && Wants(d.fdes[d.table[fd]].mask, FDE_ERROR))
  {
    hide Wants;
    forall h ensures FdeOk(EMPTY, h) {}
    forall fd ensures SlotOk(EMPTY, fd) && SetsOk(EMPTY, fd) {}
    RunFrom(EMPTY, ops);
    Meaning(Run(EMPTY, ops));
  }

  // ---------------------------------------------------------------- the code, on mutable state

  /** The members of `s` from `i` up. */
  function From(s: set<nat>, i: nat): set<nat> {
    set x | x in s && x >= i
  }

  lemma FromStep(s: set<nat>, i: nat)
    ensures |From(s, i)| == |From(s, i + 1)| + if i in s then 1 else 0
  {
    if i in s {
      assert From(s, i) == From(s, i + 1) + {i};
    } else {
      assert From(s, i) == From(s, i + 1);
    }
  }

  lemma FromEmpty(s: set<nat>, i: nat)
    requires |From(s, i)| == 0
    ensures forall x <- s :: x < i
  {
    assert From(s, i) == {};
    assert forall x <- s :: x >= i ==> x in From(s, i);
  }

  /** Once every ready fd has been seen the rest of the scan does nothing. */
  lemma {:induction false} NothingLeft(d: State, i: nat, r: set<nat>, w: set<nat>, e: set<nat>)
    requires forall x :: x >= i ==> x !in r && x !in w && x !in e
    ensures MarkFrom(d, i, r, w, e) == d
    decreases d.selectN - i
  {
    if i < d.selectN {
      assert EventsAt(r, w, e, i) == 0;
      NothingLeft(d, i + 1, r, w, e);
    }
  }

  class EventLoop {
    var table: map<nat, nat>
    var tableMax: nat
    var fdes: map<nat, Fde>
    var readFds: set<nat>
    var writeFds: set<nat>
    var errorFds: set<nat>
    var selectN: nat
    var pending: seq<nat>

    ghost function S(): State
      reads this
    {
      State(table, tableMax, fdes, readFds, writeFds, errorFds, selectN, pending)
    }

    constructor ()
      ensures S() == EMPTY
    {
      table, tableMax, fdes := map[], 0, map[];
      readFds, writeFds, errorFds, selectN, pending := {}, {}, {}, 0, [];
    }

    /** fdevent_install. */
    method FdInstall(h: nat, fd: nat)
      requires Inv(S()) && (h in fdes ==> !fdes[h].active) && fd !in table && fd <= 32000
      modifies this
      ensures S() == Install(old(S()), h, fd) && Inv(S())
    {
      InstallKeeps(S(), h, fd);
      fdes := fdes[h := Fde(fd, true, false, 0, 0)];
      if fd >= tableMax {
        if tableMax == 0 {
          tableMax := 256;
        }
        while tableMax <= fd
          invariant tableMax > 0 && Grown(tableMax, fd) == Grown(old(tableMax), fd)
          invariant table == old(table) && fdes == old(fdes)[h := Fde(fd, true, false, 0, 0)]
          invariant readFds == old(readFds) && writeFds == old(writeFds) && errorFds == old(errorFds)
          invariant selectN == old(selectN) && pending == old(pending)
          decreases fd - tableMax
        {
          tableMax := tableMax * 2;
        }
      }
      table := table[fd := h];
      if fd >= selectN {
        selectN := fd + 1;
      }
    }

    /** fdevent_disconnect's scan for the highest registered fd. */
    method HighestFd() returns (n: nat)
      ensures n == Highest(table, selectN)
    {
      n := 0;
      var i := 0;
      while i < selectN
        invariant 0 <= i <= selectN && n == Highest(table, i)
      {
        if i in table { n := i; }
        i := i + 1;
      }
    }

    /** fdevent_remove. */
    method FdRemove(h: nat)
      requires Inv(S()) && h in fdes
      modifies this
      ensures S() == Remove(old(S()), h) && Inv(S())
    {
      RemoveKeeps(S(), h);
      assert FdeOk(S(), h);
      var f := fdes[h];
      if f.pending {
        pending := Without(pending, h);
      }
      if f.active {
        readFds, writeFds, errorFds := readFds - {f.fd}, writeFds - {f.fd}, errorFds - {f.fd};
        var n := HighestFd();
        selectN := n + 1;
        assert table[f.fd] == h;   // "fd_table out of sync" is unreachable
        table := table - {f.fd};
      }
      fdes := fdes[h := f.(active := false, pending := false, mask := 0, events := 0)];
    }

    /** The select sets of fdevent_update. */
    method Update(fd: nat, ev: Events)
      modifies this`readFds, this`writeFds, this`errorFds
      ensures readFds == Switch(old(readFds), fd, Wants(ev, FDE_READ))
      ensures writeFds == Switch(old(writeFds), fd, Wants(ev, FDE_WRITE))
      ensures errorFds == Switch(old(errorFds), fd, Wants(ev, FDE_ERROR))
    {
      if Wants(ev, FDE_READ) { readFds := readFds + {fd}; } else { readFds := readFds - {fd}; }
      if Wants(ev, FDE_WRITE) { writeFds := writeFds + {fd}; } else { writeFds := writeFds - {fd}; }
      if Wants(ev, FDE_ERROR) { errorFds := errorFds + {fd}; } else { errorFds := errorFds - {fd}; }
    }

    /** fdevent_set. */
    method FdSet(h: nat, ev: Events)
      requires Inv(S()) && h in fdes
      modifies this
      ensures S() == Set(old(S()), h, ev) && Inv(S())
    {
      SetKeeps(S(), h, ev);
      hide Inv, Wants, Remask, Without, Switch;
      var f := fdes[h];
      if f.mask == ev {
        return;
      }
      if f.active {
        Update(f.fd, ev);
      }
      var drop;
      f, drop := MaskPending(f, ev);
      if drop {
        pending := Without(pending, h);
      }
      fdes := fdes[h := f];
    }

    /** The last part of fdevent_set, for an fde that is queued: the code removes the new interest from the recorded
        events, where its comment has the dropped interest removed. */
    static method MaskPending(f: Fde, ev: Events) returns (f': Fde, drop: bool)
      ensures f' == Remask(f, ev) && drop == (f.pending && !f'.pending)
    {
      f', drop := f.(mask := ev), false;
      if f'.pending {
        f' := f'.(events := Minus(f'.events, ev));
        if f'.events == 0 {
          drop := true;
          f' := f'.(pending := false);
        }
      }
    }

    /** fdevent_fd_check: registered descriptors that fcntl finds bad. */
    method FdCheck(bad: set<nat>) returns (r: set<nat>, n: nat)
      ensures r == BadFds(S(), bad) && n == |r|
    {
      r, n := {}, 0;
      var i := 0;
      while i < selectN
        invariant 0 <= i <= selectN && n == |r|
        invariant r == set fd | fd in table && fd in bad && fd < i
      {
        if i in table && i in bad {
          r, n := r + {i}, n + 1;
        }
        i := i + 1;
      }
    }

    /** The loop of fdevent_process: it stops once `n` reports have been consumed. */
    method Scan(r: set<nat>, w: set<nat>, e: set<nat>, n0: nat)
      requires Inv(S()) && n0 == |r| + |w| + |e|
      requires forall fd :: fd in r || fd in w || fd in e ==> fd in table
      modifies this
      ensures S() == MarkFrom(old(S()), 0, r, w, e) && Inv(S())
    {
      var i, n := 0, n0;
      assert From(r, 0) == r && From(w, 0) == w && From(e, 0) == e;
      while i < selectN && n > 0
        invariant Inv(S()) && 0 <= i && table == old(table)
        invariant n == |From(r, i)| + |From(w, i)| + |From(e, i)|
        invariant MarkFrom(S(), i, r, w, e) == MarkFrom(old(S()), 0, r, w, e)
        decreases selectN - i
      {
        MarkKeeps(S(), i, EventsAt(r, w, e, i));
        ghost var d := S();
        assert SlotOk(d, i);
        FromStep(r, i);
        FromStep(w, i);
        FromStep(e, i);
        var ev: Events := 0;
        if i in r { ev, n := Join(ev, FDE_READ), n - 1; }
        if i in w { ev, n := Join(ev, FDE_WRITE), n - 1; }
        if i in e { ev, n := Join(ev, FDE_ERROR), n - 1; }
        assert ev == EventsAt(r, w, e, i);
        if ev != 0 {
          var h := table[i];   // "missing fde" is unreachable
          var f := fdes[h];
          fdes := fdes[h := f.(events := Join(f.events, ev), pending := true)];
          if !f.pending {
            pending := pending + [h];
          }
        }
        assert S() == Mark(d, i, EventsAt(r, w, e, i));
        i := i + 1;
      }
      if n == 0 {
        FromEmpty(r, i);
        FromEmpty(w, i);
        FromEmpty(e, i);
        NothingLeft(S(), i, r, w, e);
      }
    }

    /** fdevent_process. */
    method FdProcess(sel: Select, bad: set<nat>)
      requires Inv(S()) && Honest(S(), sel)
      modifies this
      ensures S() == Process(old(S()), sel, bad) && Inv(S())
    {
      if sel.Interrupted? || sel.OtherError? {
        return;
      }
      var r, w, e, n := {}, {}, {}, 0;
      if sel.Ready? {
        r, w, e := sel.r, sel.w, sel.e;
        n := |r| + |w| + |e|;
        forall fd | fd in r || fd in w || fd in e ensures fd in table {
          NoMissingFde(S(), sel, fd);
        }
      }
      if n == 0 {
        r, n := FdCheck(bad);
      }
      Scan(r, w, e, n);
    }

    /** fdevent_plist_dequeue and the head of fdevent_call_fdfunc; `h` is none when nothing is pending. */
    method NextCallback() returns (h: Option<nat>, ev: Events)
      requires Inv(S())
      modifies this
      ensures Inv(S())
      ensures old(pending) == [] ==> h.None? && S() == old(S())
      ensures old(pending) != [] ==> h.Some? && ev != 0 && old(pending)[0] in old(fdes)
      ensures old(pending) != [] ==> (S(), h.value, ev) == Dequeue(old(S()))
    {
      ev := 0;
      if pending == [] {
        return None, 0;
      }
      DequeueKeeps(S());
      var node := pending[0];
      pending := pending[1..];
      ev := fdes[node].events;
      fdes := fdes[node := fdes[node].(events := 0, pending := false)];
      h := Some(node);
    }
  }
}
