/** The histogram equalisation of depth images in print_img.cpp, in exact arithmetic. */
module Histogram {

  const HIST_SIZE: nat := 9000

  type Depth = d: nat | d < 0x1_0000

  /** The samples with the three low bits dropped. */
  function Shifted(ds: seq<Depth>): (r: seq<nat>)
    ensures |r| == |ds| && forall i :: 0 <= i < |r| ==> r[i] == ds[i] / 8 && r[i] < HIST_SIZE
  {
    seq(|ds|, i requires 0 <= i < |ds| => ds[i] / 8)
  }

  /** How many samples lie between 1 and `d`. */
  function UpTo(ds: seq<nat>, d: nat): nat {
    if ds == [] then 0 else UpTo(ds[..|ds| - 1], d) + if 0 < ds[|ds| - 1] <= d then 1 else 0
  }

  /** How many samples are `d`, of those that are not zero. */
  function Count(ds: seq<nat>, d: nat): nat {
    if ds == [] then 0 else Count(ds[..|ds| - 1], d) + if ds[|ds| - 1] == d && d != 0 then 1 else 0
  }

  function NonZero(ds: seq<nat>): nat {
    if ds == [] then 0 else NonZero(ds[..|ds| - 1]) + if ds[|ds| - 1] != 0 then 1 else 0
  }

  lemma {:induction false} UpToStep(ds: seq<nat>, d: nat)
    ensures UpTo(ds, d + 1) == UpTo(ds, d) + Count(ds, d + 1)
    ensures UpTo(ds, 0) == 0 == Count(ds, 0)
  {
    if ds != [] {
      UpToStep(ds[..|ds| - 1], d);
    }
  }

  lemma {:induction false} UpToGrows(ds: seq<nat>, d: nat, e: nat)
    requires d <= e
    ensures UpTo(ds, d) <= UpTo(ds, e) <= NonZero(ds)
  {
    if ds != [] {
      UpToGrows(ds[..|ds| - 1], d, e);
    }
  }

  lemma {:induction false} UpToAll(ds: seq<nat>, d: nat)
    requires forall i :: 0 <= i < |ds| ==> ds[i] <= d
    ensures UpTo(ds, d) == NonZero(ds)
  {
    if ds != [] {
      UpToAll(ds[..|ds| - 1], d);
    }
  }

  /** A depth that occurs has itself below it. */
  lemma {:induction false} Occurs(ds: seq<nat>, j: nat)
    requires j < |ds| && ds[j] != 0
    ensures UpTo(ds, ds[j]) > 0
  {
    if j < |ds| - 1 {
      Occurs(ds[..|ds| - 1], j);
    }
  }

  /** The entry of a depth once the counts have been turned into brightness. */
  function Level(ds: seq<nat>, d: nat): real {
    var n := NonZero(ds);
    if d == 0 || n == 0 then UpTo(ds, d) as real
    else 256.0 * (1.0 - Share(UpTo(ds, d), n))
  }

  /** The byte stored for a sample of depth `d`: the fraction is cut off. */
  function Colour(ds: seq<nat>, d: nat): int {
    Level(ds, d).Floor
  }

  lemma Quotients(x: real, y: real, n: real)
    requires x <= y && n > 0.0
    ensures x / n <= y / n && (x < y ==> x / n < y / n)
  {
    var p, q := x / n, y / n;
    assert p * n == x && q * n == y;
    assert (q - p) * n == y - x;
    Sign(q - p, n);
  }

  lemma Sign(k: real, n: real)
    requires n > 0.0
    ensures k * n >= 0.0 <==> k >= 0.0
    ensures k * n > 0.0 <==> k > 0.0
  {}

  /** The share of the samples that are no farther than some depth. */
  function Share(a: nat, n: nat): real
    requires n > 0
  {
    a as real / n as real
  }

  lemma Shares(a: nat, b: nat, n: nat)
    requires a <= b <= n && n > 0
    ensures 0.0 <= Share(a, n) <= Share(b, n) <= 1.0
    ensures a > 0 ==> Share(a, n) > 0.0
    ensures b == n ==> Share(b, n) == 1.0
  {
    Quotients(0.0, a as real, n as real);
    Quotients(a as real, b as real, n as real);
    Quotients(b as real, n as real, n as real);
  }

  /** Every byte stored for a sample is a byte. */
  lemma ColourFits(ds: seq<nat>, j: nat)
    requires j < |ds|
    ensures 0 <= Colour(ds, ds[j]) < 256
  {
    UpToGrows(ds, ds[j], ds[j]);
    UpToStep(ds, 0);
    if ds[j] != 0 {
      Occurs(ds, j);
      Shares(UpTo(ds, ds[j]), NonZero(ds), NonZero(ds));
      hide Share, UpTo, NonZero;
    }
  }

  /** Farther is never brighter, and the farthest samples are black. */
  lemma FartherIsDarker(ds: seq<nat>, d: nat, e: nat)
    requires 0 < d <= e && NonZero(ds) > 0
    ensures Colour(ds, e) <= Colour(ds, d)
    ensures (forall i :: 0 <= i < |ds| ==> ds[i] <= e) ==> Colour(ds, e) == 0
  {
    UpToGrows(ds, d, e);
    Shares(UpTo(ds, d), UpTo(ds, e), NonZero(ds));
    if forall i :: 0 <= i < |ds| ==> ds[i] <= e {
      UpToAll(ds, e);
    }
    hide Share, UpTo, NonZero;
    FloorGrows(Level(ds, e), Level(ds, d));
  }

  lemma FloorGrows(x: real, y: real)
    requires x <= y
    ensures x.Floor <= y.Floor
  {}

  /** depth2bmp_hist behind the headers: `depth` is shifted in place, `body` receives three bytes a sample. */
  method Depth2BmpHist(depth: array<Depth>, body: array<int>)
    requires body.Length == 3 * depth.Length
    modifies depth, body
    ensures depth[..] == Shifted(old(depth[..]))
    ensures forall j :: 0 <= j < depth.Length ==>
      body[3 * j] == 0 && body[3 * j + 1] == body[3 * j + 2] == Colour(Shifted(old(depth[..])), old(depth[j]) / 8)
  {
    ghost var ds := Shifted(depth[..]);
    ShiftAll(depth);
    var histgram, nPointsCount := CountAll(depth);
    Equalise(histgram, nPointsCount, ds);
    for j := 0 to depth.Length
      invariant depth[..] == ds
      invariant forall v :: 0 <= v < HIST_SIZE ==> histgram[v] == Level(ds, v)
      invariant forall k :: 0 <= k < j ==> body[3 * k] == 0 && body[3 * k + 1] == body[3 * k + 2] == Colour(ds, ds[k])
    {
      var d := depth[j];
      assert d == ds[j];
      body[3 * j] := 0;
      body[3 * j + 1] := histgram[d].Floor;
      body[3 * j + 2] := histgram[d].Floor;
    }
  }

  method ShiftAll(depth: array<Depth>)
    modifies depth
    ensures depth[..] == Shifted(old(depth[..]))
  {
    for i := 0 to depth.Length
      invariant forall k :: 0 <= k < i ==> depth[k] == old(depth[k]) / 8
      invariant forall k :: i <= k < depth.Length ==> depth[k] == old(depth[k])
    {
      depth[i] := depth[i] / 8;
    }
  }

  method CountAll(depth: array<Depth>) returns (histgram: array<real>, nPointsCount: nat)
    requires forall i :: 0 <= i < depth.Length ==> depth[i] < HIST_SIZE
    ensures fresh(histgram) && histgram.Length == HIST_SIZE && nPointsCount == NonZero(depth[..])
    ensures forall v :: 0 <= v < HIST_SIZE ==> histgram[v] == Count(depth[..], v) as real
  {
    histgram, nPointsCount := new real[HIST_SIZE](_ => 0.0), 0;
    for i := 0 to depth.Length
      invariant nPointsCount == NonZero(depth[..i])
      invariant forall v :: 0 <= v < HIST_SIZE ==> histgram[v] == Count(depth[..i], v) as real
    {
      var d := depth[i];
      assert depth[..i + 1][..i] == depth[..i];
      if d != 0 {
        histgram[d] := histgram[d] + 1.0;
        nPointsCount := nPointsCount + 1;
      }
    }
    assert depth[..depth.Length] == depth[..];
  }

  /** Counts become cumulative counts, and those brightness. */
  method Equalise(histgram: array<real>, nPointsCount: nat, ghost ds: seq<nat>)
    requires histgram.Length == HIST_SIZE && nPointsCount == NonZero(ds)
    requires forall v :: 0 <= v < HIST_SIZE ==> histgram[v] == Count(ds, v) as real
    modifies histgram
    ensures forall v :: 0 <= v < HIST_SIZE ==> histgram[v] == Level(ds, v)
  {
    UpToStep(ds, 0);
    for n := 1 to HIST_SIZE
      invariant forall v :: 0 <= v < n ==> histgram[v] == UpTo(ds, v) as real
      invariant forall v :: n <= v < HIST_SIZE ==> histgram[v] == Count(ds, v) as real
    {
      UpToStep(ds, n - 1);
      histgram[n] := histgram[n] + histgram[n - 1];
    }
    if nPointsCount != 0 {
      for n := 1 to HIST_SIZE
        invariant forall v :: 0 <= v < n ==> histgram[v] == Level(ds, v)
        invariant forall v :: n <= v < HIST_SIZE ==> histgram[v] == UpTo(ds, v) as real
      {
        histgram[n] := 256.0 * (1.0 - histgram[n] / nPointsCount as real);
      }
    }
  }

  // ---------------------------------------------------------------- brightness, in whole numbers

  /** The positions of the samples that are deeper than `d`. */
  function Deeper(ds: seq<nat>, d: nat): set<nat> {
    set i | 0 <= i < |ds| && ds[i] > d
  }

  lemma {:induction false} Ranked(ds: seq<nat>, d: nat)
    ensures NonZero(ds) == |Deeper(ds, 0)| && UpTo(ds, d) == NonZero(ds) - |Deeper(ds, d)|
  {
    if ds == [] {
      assert Deeper(ds, 0) == {} && Deeper(ds, d) == {};
    } else {
      var last, front := |ds| - 1, ds[..|ds| - 1];
      Ranked(front, d);
      OneDeeper(ds, 0);
      OneDeeper(ds, d);
    }
  }

  lemma OneDeeper(ds: seq<nat>, d: nat)
    requires ds != []
    ensures |Deeper(ds, d)| == |Deeper(ds[..|ds| - 1], d)| + if ds[|ds| - 1] > d then 1 else 0
  {
    var last, front := |ds| - 1, ds[..|ds| - 1];
    if ds[last] > d {
      assert Deeper(ds, d) == Deeper(front, d) + {last};
    } else {
      assert Deeper(ds, d) == Deeper(front, d);
    }
  }

  /** The byte stored for a depth is 256 times the share of the samples deeper than it, of those that are not zero, with
      the fraction cut off; a depth of zero is stored as zero. */
  lemma BrightnessIs(ds: seq<nat>, d: nat)
    requires d > 0 && NonZero(ds) > 0
    ensures var n, c := |Deeper(ds, 0)|, Colour(ds, d);
      n > 0 && c * n <= 256 * |Deeper(ds, d)| < (c + 1) * n
    ensures Colour(ds, 0) == 0
  {
    Ranked(ds, d);
    UpToStep(ds, 0);
    UpToGrows(ds, d, d);
    var n, u := NonZero(ds), UpTo(ds, d);
    hide UpTo, NonZero;
    Cut(u, n, Level(ds, d), Colour(ds, d));
  }

  lemma Cut(u: nat, n: nat, level: real, c: int)
    requires n > 0 && u <= n && level == 256.0 * (1.0 - Share(u, n)) && c == level.Floor
    ensures c * n <= 256 * (n - u) < (c + 1) * n
  {
    Spread(Share(u, n), n as real, u as real);
    hide Share;
    Floored(level, c);
    Between(c, c + 1, n, n - u, level);
  }

  lemma Floored(level: real, c: int)
    requires c == level.Floor
    ensures c as real <= level < (c + 1) as real
  {}

  lemma Between(low: int, high: int, n: nat, k: nat, level: real)
    requires n > 0 && low as real <= level < high as real && level * n as real == 256.0 * k as real
    ensures low * n <= 256 * k < high * n
  {
    Scaled(low as real, level, n as real);
    Scaled(level, high as real, n as real);
    Whole(low, n);
    Whole(high, n);
    Compare(low * n, k, high * n, low as real * n as real, high as real * n as real);
  }

  lemma Compare(low: int, k: nat, high: int, x: real, y: real)
    requires low as real == x && x <= 256.0 * k as real < y && y == high as real
    ensures low <= 256 * k < high
  {}

  lemma Spread(s: real, m: real, u: real)
    requires s * m == u
    ensures (256.0 * (1.0 - s)) * m == 256.0 * (m - u)
  {}

  lemma Whole(c: int, n: nat)
    ensures (c * n) as real == c as real * n as real
  {}

  lemma Scaled(x: real, y: real, m: real)
    requires m > 0.0
    ensures x <= y ==> x * m <= y * m
    ensures x < y ==> x * m < y * m
  {
    Sign(y - x, m);
    assert (y - x) * m == y * m - x * m;
  }
}
