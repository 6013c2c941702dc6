/** The chained hash index of usbutils' names.c over a table of numbered names. */
module HashIndex {
  import opened Bytes

  const HASHSZ: nat := 512

  // ---------------------------------------------------------------- hashing

  /** The rounds of hashnum from one pair of masks on. */
  function Folded(num: bv32, mask1: bv32, mask2: bv32): bv32
    decreases mask1
  {
    if mask1 < 0x10 then num
    else
      Smaller(mask1);
      Folded(if num & mask1 != 0 then num ^ mask2 else num, mask1 >> 1, mask2 >> 1)
  }

  lemma Smaller(m: bv32)
    requires m >= 0x10
    ensures m >> 1 < m
  {}

  function Bucket(num: bv32): (b: nat)
    ensures b < HASHSZ
  {
    var low := Folded(num, 0x8000_0000, 0x1000_0000) & 0x1ff;
    assert low <= 0x1ff;
    low as nat
  }

  method HashNum(n: bv32) returns (b: nat)
    ensures b == Bucket(n)
  {
    var num, mask1: bv32, mask2: bv32 := n, 0x8000_0000, 0x1000_0000;
    while mask1 >= 0x10
      invariant Folded(num, mask1, mask2) == Folded(n, 0x8000_0000, 0x1000_0000)
      decreases mask1
    {
      Smaller(mask1);
      if num & mask1 != 0 {
        num := num ^ mask2;
      }
      mask1, mask2 := mask1 >> 1, mask2 >> 1;
    }
    var low := num & 0x1ff;
    assert low <= 0x1ff;
    b := low as nat;
  }

  // ---------------------------------------------------------------- the table and its chains

  datatype Entry = Entry(num: bv32, name: string)

  /** The plain linear scan: the name of the first entry with that number. */
  function Scan(table: seq<Entry>, num: bv32): Option<string> {
    if table == [] then None
    else if table[0].num == num then Some(table[0].name)
    else Scan(table[1..], num)
  }

  predicate IsFirst(table: seq<Entry>, j: nat)
    requires j < |table|
  {
    forall k :: 0 <= k < j ==> table[k].num != table[j].num
  }

  lemma {:induction false} ScanFirst(table: seq<Entry>, j: nat)
    requires j < |table| && IsFirst(table, j)
    ensures Scan(table, table[j].num) == Some(table[j].name)
  {
    if j > 0 {
      assert table[0].num != table[j].num;
      assert forall k :: 0 <= k < j - 1 ==> table[1..][k] == table[k + 1];
      ScanFirst(table[1..], j - 1);
    }
  }

  lemma {:induction false} ScanAbsent(table: seq<Entry>, num: bv32)
    requires forall j :: 0 <= j < |table| ==> table[j].num != num
    ensures Scan(table, num) == None
  {
    if table != [] {
      ScanAbsent(table[1..], num);
    }
  }

  /** The first entry with a number that occurs. */
  lemma {:induction false} FirstOf(table: seq<Entry>, j: nat) returns (k: nat)
    requires j < |table|
    ensures k <= j && table[k].num == table[j].num && IsFirst(table, k)
  {
    if IsFirst(table, j) {
      k := j;
    } else {
      var i :| 0 <= i < j && table[i].num == table[j].num;
      k := FirstOf(table, i);
    }
  }

  predicate AllFirst(table: seq<Entry>, n: nat)
    requires n <= |table|
  {
    forall i :: 0 <= i < n ==> IsFirst(table, i)
  }

  /** From `head` the links lead through exactly the entries of `chain`. */
  predicate Linked(next: seq<Option<nat>>, head: Option<nat>, chain: seq<nat>)
    decreases |chain|
  {
    if chain == [] then head == None
    else head == Some(chain[0]) && chain[0] < |next| && Linked(next, next[chain[0]], chain[1..])
  }

  lemma {:induction false} LinkedElsewhere(next: seq<Option<nat>>, head: Option<nat>, chain: seq<nat>, g: nat,
      v: Option<nat>)
    requires Linked(next, head, chain) && g < |next| && g !in chain
    ensures Linked(next[g := v], head, chain)
    decreases |chain|
  {
    if chain != [] {
      LinkedElsewhere(next, next[chain[0]], chain[1..], g, v);
    }
  }

  predicate OwnFirsts(table: seq<Entry>, n: nat, b: nat, chain: seq<nat>)
    requires n <= |table|
  {
    forall j <- chain :: j < n && Bucket(table[j].num) == b && IsFirst(table, j)
  }

  /** What the chains hold once the first `n` entries were offered: of each number the first entry, in the
      bucket of that number. */
  predicate Indexed(table: seq<Entry>, n: nat, chains: seq<seq<nat>>)
    requires n <= |table|
  {
    && |chains| == HASHSZ
    && (forall b :: 0 <= b < HASHSZ ==> OwnFirsts(table, n, b, chains[b]))
    && (forall j :: 0 <= j < n && IsFirst(table, j) ==> j in chains[Bucket(table[j].num)])
  }

  /** No number occurs twice in a chain. */
  lemma ChainDistinct(table: seq<Entry>, n: nat, chains: seq<seq<nat>>, b: nat, i: nat, j: nat)
    requires n <= |table| && Indexed(table, n, chains) && b < HASHSZ && i in chains[b] && j in chains[b]
    ensures i < n && j < n
    ensures table[i].num == table[j].num ==> i == j
  {
    assert OwnFirsts(table, n, b, chains[b]);
    assert IsFirst(table, i) && IsFirst(table, j);
  }

  /** The buckets and the `next` links, as positions in the table. */
  class Index {
    const table: seq<Entry>
    const next: array<Option<nat>>
    const bucket: array<Option<nat>>
    ghost var chains: seq<seq<nat>>

    ghost predicate Valid()
      reads this, next, bucket
    {
      && next != bucket && next.Length == |table| && bucket.Length == HASHSZ == |chains|
      && forall b :: 0 <= b < HASHSZ ==> Linked(next[..], bucket[b], chains[b])
    }

    constructor (table: seq<Entry>)
      ensures Valid() && this.table == table && fresh(next) && fresh(bucket)
      ensures Indexed(table, 0, chains)
    {
      this.table := table;
      next, bucket := new Option<nat>[|table|](_ => None), new Option<nat>[HASHSZ](_ => None);
      chains := seq(HASHSZ, _ => []);
    }

    /** hash_genericstrtable: refused when the number is in its chain already. */
    method Insert(g: nat) returns (r: int)
      requires Valid() && g < |table| && Indexed(table, g, chains)
      modifies this, next, bucket
      ensures Valid() && Indexed(table, g + 1, chains)
      ensures r == if IsFirst(table, g) then 0 else -1
    {
      var h := HashNum(table[g].num);
      var same := Find(h, table[g].num, g);
      ghost var chain := chains[h];
      if same != None {
        assert !IsFirst(table, g);
        return -1;
      }
      forall k | 0 <= k < g ensures table[k].num != table[g].num {
        NotBefore(table, g, chains, k);
      }
      ghost var links := next[..];
      forall b | 0 <= b < HASHSZ ensures g !in chains[b] && Linked(links[g := bucket[h]], bucket[b], chains[b]) {
        LinkedElsewhere(links, bucket[b], chains[b], g, bucket[h]);
      }
      next[g] := bucket[h];
      assert next[..] == links[g := bucket[h]];
      bucket[h] := Some(g);
      assert ([g] + chain)[1..] == chain;
      chains := chains[h := [g] + chain];
      r := 0;
    }

    /** The walk along one chain: the entry with the number, if the chain has one. */
    method Find(b: nat, num: bv32, ghost n: nat) returns (r: Option<nat>)
      requires Valid() && b < HASHSZ && n <= |table| && Indexed(table, n, chains)
      ensures r.Some? ==> r.value in chains[b] && r.value < n && table[r.value].num == num
      ensures r.None? ==> forall j <- chains[b] :: j < n && table[j].num != num
    {
      var h: Option<nat> := bucket[b];
      ghost var rest := chains[b];
      ghost var seen: seq<nat> := [];
      while h != None
        invariant seen + rest == chains[b] && Linked(next[..], h, rest)
        invariant forall j <- seen :: j < n && table[j].num != num
        decreases |rest|
      {
        assert rest[0] in chains[b];
        if table[h.value].num == num { return h; }
        assert seen + [rest[0]] + rest[1..] == seen + rest;
        seen, rest := seen + [rest[0]], rest[1..];
        h := next[h.value];
      }
      assert seen == chains[b];
      r := None;
    }

    /** HASH_EACH over the whole table: -1 when some number occurs twice. */
    method HashAll() returns (r: int)
      requires Valid() && Indexed(table, 0, chains)
      modifies this, next, bucket
      ensures Valid() && Indexed(table, |table|, chains)
      ensures r == if AllFirst(table, |table|) then 0 else -1
    {
      r := 0;
      for i := 0 to |table|
        invariant Valid() && Indexed(table, i, chains)
        invariant r == if AllFirst(table, i) then 0 else -1
      {
        assert AllFirst(table, i + 1) == (AllFirst(table, i) && IsFirst(table, i));
        hide AllFirst, IsFirst, Indexed, Index.Valid;
        var k := Insert(i);
        if k < 0 {
          r := k;
        }
      }
    }

    /** names_genericstrtable on a hashed table is the linear scan. */
    method Lookup(num: bv32) returns (name: Option<string>)
      requires Valid() && Indexed(table, |table|, chains)
      ensures name == Scan(table, num)
    {
      var b := HashNum(num);
      var e := Find(b, num, |table|);
      if e != None {
        ScanFirst(table, e.value);
        return Some(table[e.value].name);
      }
      forall j | 0 <= j < |table| ensures table[j].num != num {
        if table[j].num == num {
          NotBefore(table, |table|, chains, j);
        }
      }
      ScanAbsent(table, num);
      name := None;
    }
  }

  /** A number that is in no entry of its chain is in no entry at all. */
  lemma NotBefore(table: seq<Entry>, n: nat, chains: seq<seq<nat>>, k: nat)
    requires k < n <= |table| && Indexed(table, n, chains)
    ensures exists j :: j in chains[Bucket(table[k].num)] && j < n && table[j].num == table[k].num
  {
    var j := FirstOf(table, k);
    assert j in chains[Bucket(table[j].num)];
  }
}
