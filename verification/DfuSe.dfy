/** The DfuSe file builder and parser of dfuse-pack.py (DfuSe file format of UM0391, suffix of DFU 1.1a). */
module DfuSe {
  import opened Bytes

  const PREFIX_SIZE: nat := 11
  const SUFFIX_SIZE: nat := 16
  const TARGET_PREFIX_SIZE: nat := 274
  const NAME_SIZE: nat := 255
  const WORD: nat := 0x1_0000_0000

  type Word = n: nat | n < 0x1_0000_0000
  type Crc = seq<Byte> -> Word   // compute_crc, whose result is masked to 32 bits

  // ---------------------------------------------------------------- what build writes

  /** An image as the options describe it; out-of-range numbers make struct.pack fail. */
  datatype Image = Image(address: int, alt: int, data: seq<Byte>)

  function ImageBytes(i: Image): seq<Byte>
    requires i.address >= 0
  {
    Le(i.address, 4) + Le(|i.data|, 4) + i.data
  }

  predicate ImageFits(i: Image) {
    0 <= i.address < WORD && |i.data| < WORD
  }

  predicate ImagesFit(t: seq<Image>) {
    forall i :: 0 <= i < |t| ==> ImageFits(t[i])
  }

  function ImagesBytes(t: seq<Image>): seq<Byte>
    requires ImagesFit(t)
  {
    if t == [] then [] else ImageBytes(t[0]) + ImagesBytes(t[1..])
  }

  /** The variable ealt: the alternate setting of the last image seen, which outlives an empty target. */
  function AltOf(ts: seq<seq<Image>>, k: nat): Option<int>
    requires k < |ts|
  {
    if ts[k] != [] then Some(ts[k][|ts[k]| - 1].alt) else if k == 0 then None else AltOf(ts, k - 1)
  }

  function NameField(name: seq<Byte>): (f: seq<Byte>)
    ensures |f| == NAME_SIZE
  {
    Pad(name[..Min(|name|, NAME_SIZE)], NAME_SIZE)
  }

  function TargetHeader(alt: Byte, name: seq<Byte>, size: nat, elements: nat): (h: seq<Byte>)
    ensures |h| == TARGET_PREFIX_SIZE
  {
    Ascii("Target") + ([alt] + (Le(1, 4) + (NameField(name) + (Le(size, 4) + Le(elements, 4)))))
  }

  predicate TargetFits(ts: seq<seq<Image>>, k: nat)
    requires k < |ts|
  {
    && AltOf(ts, k).Some? && 0 <= AltOf(ts, k).value < 256
    && |ts[k]| < WORD && ImagesFit(ts[k]) && |ImagesBytes(ts[k])| < WORD
  }

  function TargetBytes(ts: seq<seq<Image>>, k: nat, name: seq<Byte>): seq<Byte>
    requires k < |ts| && TargetFits(ts, k)
  {
    TargetHeader(AltOf(ts, k).value, name, |ImagesBytes(ts[k])|, |ts[k]|) + ImagesBytes(ts[k])
  }

  predicate TargetsFit(ts: seq<seq<Image>>) {
    forall k :: 0 <= k < |ts| ==> TargetFits(ts, k)
  }

  /** The targets from the k-th one on. */
  function TargetsBytes(ts: seq<seq<Image>>, k: nat, name: seq<Byte>): seq<Byte>
    requires k <= |ts| && TargetsFit(ts)
    decreases |ts| - k
  {
    if k == |ts| then [] else TargetBytes(ts, k, name) + TargetsBytes(ts, k + 1, name)
  }

  function Prefix(size: nat, count: Byte): (p: seq<Byte>)
    ensures |p| == PREFIX_SIZE
  {
    Ascii("DfuSe") + ([1] + (Le(size, 4) + [count]))
  }

  /** Device and vendor numbers are masked to 16 bits. */
  function Suffix(vendor: nat, product: nat): (s: seq<Byte>)
    ensures |s| == SUFFIX_SIZE - 4
  {
    Le(0, 2) + (Le(product, 2) + (Le(vendor, 2) + (Le(0x011a, 2) + (Ascii("UFD") + [SUFFIX_SIZE]))))
  }

  /** Everything before the checksum. */
  function Body(ts: seq<seq<Image>>, name: seq<Byte>, vendor: nat, product: nat): seq<Byte>
    requires TargetsFit(ts) && |ts| < 256
  {
    var data := TargetsBytes(ts, 0, name);
    Prefix(PREFIX_SIZE + |data| + SUFFIX_SIZE, |ts|) + (data + Suffix(vendor, product))
  }

  predicate Fits(ts: seq<seq<Image>>, name: seq<Byte>) {
    TargetsFit(ts) && |ts| < 256 && PREFIX_SIZE + |TargetsBytes(ts, 0, name)| + SUFFIX_SIZE < WORD
  }

  /** build: the file, or nothing when a number does not fit its field. */
  function Built(crc: Crc, ts: seq<seq<Image>>, name: seq<Byte>, vendor: nat, product: nat): Option<seq<Byte>> {
    if Fits(ts, name) then
      var body := Body(ts, name, vendor, product);
      Some(body + Le(crc(body), 4))
    else None
  }

  method Build(crc: Crc, ts: seq<seq<Image>>, name: seq<Byte>, vendor: nat,
      product: nat) returns (file: Option<seq<Byte>>)
    ensures file == Built(crc, ts, name, vendor, product)
  {
    var targets := BuildTargets(ts, name);
    hide TargetsFit, TargetsBytes;
    if targets == None || |ts| >= 256 || PREFIX_SIZE + |targets.value| + SUFFIX_SIZE >= WORD {
      return None;
    }
    var data := Prefix(PREFIX_SIZE + |targets.value| + SUFFIX_SIZE, |ts|) + (targets.value + Suffix(vendor, product));
    file := Some(data + Le(crc(data), 4));
  }

  /** The target loop of build. */
  method BuildTargets(ts: seq<seq<Image>>, name: seq<Byte>) returns (r: Option<seq<Byte>>)
    ensures r == if TargetsFit(ts) then Some(TargetsBytes(ts, 0, name)) else None
  {
    var data: seq<Byte> := [];
    var ealt: Option<int> := None;
    if TargetsFit(ts) {
      Assoc(TargetsBytes(ts, 0, name), [], []);
    }
    for k := 0 to |ts|
      invariant ealt == if k == 0 then None else AltOf(ts, k - 1)
      invariant forall j :: 0 <= j < k ==> TargetFits(ts, j)
      invariant TargetsFit(ts) ==> Completes(ts, k, name, data)
    {
      hide TargetFits, TargetBytes, AltOf, Completes;
      var target;
      target, ealt := BuildTarget(ts, k, ealt, name);
      if target == None {
        return None;
      }
      if TargetsFit(ts) {
        NextCompletes(ts, k, name, data);
      }
      data := data + target.value;
    }
    assert TargetsFit(ts);
    assert data + [] == data;
    r := Some(data);
  }

  /** With the targets from the k-th one on, `data` becomes everything. */
  predicate Completes(ts: seq<seq<Image>>, k: nat, name: seq<Byte>, data: seq<Byte>)
    requires k <= |ts| && TargetsFit(ts)
  {
    data + TargetsBytes(ts, k, name) == TargetsBytes(ts, 0, name)
  }

  lemma NextCompletes(ts: seq<seq<Image>>, k: nat, name: seq<Byte>, data: seq<Byte>)
    requires k < |ts| && TargetsFit(ts) && Completes(ts, k, name, data)
    ensures Completes(ts, k + 1, name, data + TargetBytes(ts, k, name))
  {
    Assoc(data, TargetBytes(ts, k, name), TargetsBytes(ts, k + 1, name));
  }

  /** One round of the target loop; `ealt` comes from the targets before. */
  method BuildTarget(ts: seq<seq<Image>>, k: nat, ealt: Option<int>, name: seq<Byte>)
    returns (r: Option<seq<Byte>>, alt: Option<int>)
    requires k < |ts| && ealt == if k == 0 then None else AltOf(ts, k - 1)
    ensures alt == AltOf(ts, k)
    ensures r == if TargetFits(ts, k) then Some(TargetBytes(ts, k, name)) else None
  {
    var t := ts[k];
    var tdata := BuildImages(t);
    alt := if t != [] then Some(t[|t| - 1].alt) else ealt;
    assert alt == AltOf(ts, k);
    hide ImagesBytes, TargetHeader;
    if tdata == None || alt == None || !(0 <= alt.value < 256) || |tdata.value| >= WORD || |t| >= WORD {
      return None, alt;
    }
    r := Some(TargetHeader(alt.value, name, |tdata.value|, |t|) + tdata.value);
  }

  method BuildImages(t: seq<Image>) returns (tdata: Option<seq<Byte>>)
    ensures tdata == if ImagesFit(t) then Some(ImagesBytes(t)) else None
  {
    var bytes: seq<Byte> := [];
    assert t[0..] == t;
    if ImagesFit(t) { Assoc(bytes, ImagesBytes(t), []); }
    for i := 0 to |t|
      invariant ImagesBuilt(t, i, bytes)
    {
      if !ImageFits(t[i]) {
        return None;
      }
      NextImage(t, i, bytes);
      bytes := bytes + ImageBytes(t[i]);
    }
    assert t[|t|..] == [] && t[..|t|] == t;
    assert bytes + [] == bytes;
    tdata := Some(bytes);
  }

  /** The first `i` images fit, and `bytes` holds them. */
  predicate ImagesBuilt(t: seq<Image>, i: nat, bytes: seq<Byte>)
    requires i <= |t|
  {
    ImagesFit(t[..i]) && (ImagesFit(t[i..]) ==> ImagesFit(t) && bytes + ImagesBytes(t[i..]) == ImagesBytes(t))
  }

  lemma NextImage(t: seq<Image>, i: nat, bytes: seq<Byte>)
    requires i < |t| && ImagesBuilt(t, i, bytes) && ImageFits(t[i])
    ensures ImagesBuilt(t, i + 1, bytes + ImageBytes(t[i]))
  {
    assert t[i..][1..] == t[i + 1..];
    assert ImagesFit(t[..i + 1]);
    if ImagesFit(t[i + 1..]) {
      Assoc(bytes, ImageBytes(t[i]), ImagesBytes(t[i + 1..]));
    }
  }

  // ---------------------------------------------------------------- what parse reads

  datatype Element = Element(address: nat, data: seq<Byte>)

  /** `error` is the residue message of a target. */
  datatype Target = Target(signature: seq<Byte>, alt: nat, name: seq<Byte>, size: nat, elements: seq<Element>,
      error: bool)

  datatype File = File(
    signature: seq<Byte>, version: nat, size: nat, targets: seq<Target>, tail: Tail, crcError: bool, error: bool)

  datatype Tail = Tail(device: nat, product: nat, vendor: nat, dfu: nat, ufd: seq<Byte>, len: nat, crc: nat)

  /** The elements of a target and what is left of its bytes; nothing when a header is cut short. */
  function ParseElements(target: seq<Byte>, n: nat): Option<(seq<Element>, seq<Byte>)> {
    if n == 0 then Some(([], target))
    else if |target| < 8 then None
    else
      var rest := target[8..];
      var size := Min(UnLe(target[4..8]), |rest|);
      match ParseElements(rest[size..], n - 1)
      case None => None
      case Some(p) => Some(([Element(UnLe(target[..4]), rest[..size])] + p.0, p.1))
  }

  function ParseTarget(data: seq<Byte>): Option<(Target, seq<Byte>)> {
    if |data| < TARGET_PREFIX_SIZE then None
    else
      var h, rest := data[..TARGET_PREFIX_SIZE], data[TARGET_PREFIX_SIZE..];
      var size := UnLe(h[266..270]);
      var cut := Min(size, |rest|);
      match ParseElements(rest[..cut], UnLe(h[270..274]))
      case None => None
      case Some(p) =>
        var name := if UnLe(h[7..11]) != 0 then CString(h[11..266]) else [];
        Some((Target(h[..6], h[6], name, size, p.0, p.1 != []), rest[cut..]))
  }

  function ParseTargets(data: seq<Byte>, n: nat): Option<(seq<Target>, seq<Byte>)> {
    if n == 0 then Some(([], data))
    else
      match ParseTarget(data)
      case None => None
      case Some(first) =>
        match ParseTargets(first.1, n - 1)
        case None => None
        case Some(others) => Some(([first.0] + others.0, others.1))
  }

  function ParseTail(s: seq<Byte>): Tail
    requires |s| == SUFFIX_SIZE
  {
    Tail(UnLe(s[..2]), UnLe(s[2..4]), UnLe(s[4..6]), UnLe(s[6..8]), s[8..11], s[11], UnLe(s[12..16]))
  }

  /** parse: what it prints, or nothing when struct.unpack fails. */
  function Parsed(crc: Crc, data: seq<Byte>): Option<File> {
    if |data| < PREFIX_SIZE then None
    else
      match ParseTargets(data[PREFIX_SIZE..], data[10])
      case None => None
      case Some(p) =>
        if |p.1| < SUFFIX_SIZE then None
        else
          var tail := ParseTail(p.1[..SUFFIX_SIZE]);
          Some(File(data[..5], data[5], UnLe(data[6..10]), p.0, tail,
                    crc(data[..|data| - 4]) != tail.crc, p.1[SUFFIX_SIZE..] != []))
  }

  method Parse(crc: Crc, data: seq<Byte>) returns (file: Option<File>)
    ensures file == Parsed(crc, data)
  {
    if |data| < PREFIX_SIZE { return None; }
    var targets := ReadTargets(data[PREFIX_SIZE..], data[10]);
    if targets == None { return None; }
    var rest := targets.value.1;
    if |rest| < SUFFIX_SIZE { return None; }
    var tail := ParseTail(rest[..SUFFIX_SIZE]);
    var crcError := crc(data[..|data| - 4]) != tail.crc;
    file := Some(File(data[..5], data[5], UnLe(data[6..10]), targets.value.0, tail, crcError,
        rest[SUFFIX_SIZE..] != []));
  }

  method ReadTargets(data: seq<Byte>, n: nat) returns (r: Option<(seq<Target>, seq<Byte>)>)
    ensures r == ParseTargets(data, n)
  {
    var rest, targets := data, [];
    ThenNothing(ParseTargets(data, n));
    hide ParseTarget, ParseTargets;
    for t := 0 to n
      invariant ParseTargets(data, n) == Then(targets, ParseTargets(rest, n - t))
    {
      var target := ReadTarget(rest);
      FirstTarget(rest, n - t);
      if target == None { return None; }
      ThenStep(targets, target.value.0, ParseTargets(target.value.1, n - t - 1));
      targets, rest := targets + [target.value.0], target.value.1;
    }
    NoTargets(rest);
    assert targets + [] == targets;
    r := Some((targets, rest));
  }

  lemma FirstTarget(data: seq<Byte>, n: nat)
    requires n > 0
    ensures var first := ParseTarget(data);
      ParseTargets(data, n) ==
        if first == None then None else Then([first.value.0], ParseTargets(first.value.1, n - 1))
  {}

  lemma NoTargets(data: seq<Byte>)
    ensures ParseTargets(data, 0) == Some(([], data))
  {}

  method ReadTarget(data: seq<Byte>) returns (r: Option<(Target, seq<Byte>)>)
    ensures r == ParseTarget(data)
  {
    if |data| < TARGET_PREFIX_SIZE { return None; }
    var h, left := data[..TARGET_PREFIX_SIZE], data[TARGET_PREFIX_SIZE..];
    var size, n := UnLe(h[266..270]), UnLe(h[270..274]);
    var cut := Min(size, |left|);
    var elements := ReadElements(left[..cut], n);
    if elements == None { return None; }
    var name := if UnLe(h[7..11]) != 0 then CString(h[11..266]) else [];
    r := Some((Target(h[..6], h[6], name, size, elements.value.0, elements.value.1 != []), left[cut..]));
  }

  method ReadElements(bytes: seq<Byte>, n: nat) returns (r: Option<(seq<Element>, seq<Byte>)>)
    ensures r == ParseElements(bytes, n)
  {
    var target, elements := bytes, [];
    ThenNothing(ParseElements(bytes, n));
    for e := 0 to n
      invariant ParseElements(bytes, n) == Then(elements, ParseElements(target, n - e))
    {
      if |target| < 8 { return None; }
      var image := target[8..];
      var size := Min(UnLe(target[4..8]), |image|);
      var element := Element(UnLe(target[..4]), image[..size]);
      ThenStep(elements, element, ParseElements(image[size..], n - e - 1));
      elements, target := elements + [element], image[size..];
    }
    assert elements + [] == elements;
    r := Some((elements, target));
  }

  /** A result read so far, followed by the result of reading the rest. */
  function Then<T>(done: seq<T>, rest: Option<(seq<T>, seq<Byte>)>): Option<(seq<T>, seq<Byte>)> {
    match rest
    case None => None
    case Some(p) => Some((done + p.0, p.1))
  }

  lemma ThenNothing<T>(rest: Option<(seq<T>, seq<Byte>)>)
    ensures Then([], rest) == rest
  {
    if rest.Some? {
      assert [] + rest.value.0 == rest.value.0;
    }
  }

  lemma ThenStep<T>(done: seq<T>, x: T, rest: Option<(seq<T>, seq<Byte>)>)
    ensures Then(done, Then([x], rest)) == Then(done + [x], rest)
  {
    if rest.Some? {
      assert done + ([x] + rest.value.0) == (done + [x]) + rest.value.0;
    }
  }

  // ---------------------------------------------------------------- parsing what build wrote

  lemma Cut(a: seq<Byte>, b: seq<Byte>)
    ensures (a + b)[..|a|] == a && (a + b)[|a|..] == b
  {}

  function Elements(t: seq<Image>): seq<Element>
    requires ImagesFit(t)
  {
    if t == [] then [] else [Element(t[0].address, t[0].data)] + Elements(t[1..])
  }

  lemma Word32(n: nat)
    requires n < WORD
    ensures UnLe(Le(n, 4)) == n
  {
    LeRoundTrip(n, 4);
    Powers();
  }

  lemma Word16(n: nat)
    ensures UnLe(Le(n, 2)) == n % 0x1_0000
  {
    LeRoundTrip(n, 2);
    Powers();
  }

  /** The header and data of one image, in front of anything. */
  lemma OneImage(i: Image, rest: seq<Byte>)
    requires ImageFits(i)
    ensures var b := ImageBytes(i) + rest;
      && |b| >= 8 && UnLe(b[..4]) == i.address && UnLe(b[4..8]) == |i.data|
      && |b[8..]| >= |i.data| && b[8..][..|i.data|] == i.data && b[8..][|i.data|..] == rest
  {
    var a, s, d := Le(i.address, 4), Le(|i.data|, 4), i.data;
    var b := ImageBytes(i) + rest;
    Word32(i.address);
    Word32(|d|);
    hide Le, UnLe;
    assert b == a + (s + (d + rest));
    assert b[..4] == a && b[4..8] == s && b[8..] == d + rest;
    Cut(d, rest);
  }

  /** Bytes behind the elements of a target are found. */
  lemma {:induction false} ElementsResidue(t: seq<Image>, extra: seq<Byte>)
    requires ImagesFit(t)
    ensures ParseElements(ImagesBytes(t) + extra, |t|) == Some((Elements(t), extra))
  {
    if t == [] {
      assert [] + extra == extra;
    } else {
      Assoc(ImageBytes(t[0]), ImagesBytes(t[1..]), extra);
      OneImage(t[0], ImagesBytes(t[1..]) + extra);
      ElementsResidue(t[1..], extra);
    }
  }

  lemma ElementsRoundTrip(t: seq<Image>)
    requires ImagesFit(t)
    ensures ParseElements(ImagesBytes(t), |t|) == Some((Elements(t), []))
  {
    ElementsResidue(t, []);
    assert ImagesBytes(t) + [] == ImagesBytes(t);
  }

  lemma HeaderFields(alt: Byte, name: seq<Byte>, size: nat, elements: nat)
    requires size < WORD && elements < WORD
    ensures var h := TargetHeader(alt, name, size, elements);
      && h[..6] == Ascii("Target") && h[6] == alt && UnLe(h[7..11]) == 1 && h[11..266] == NameField(name)
      && UnLe(h[266..270]) == size && UnLe(h[270..274]) == elements
  {
    var g, n, f, s, e := Ascii("Target"), Le(1, 4), NameField(name), Le(size, 4), Le(elements, 4);
    Word32(1);
    Word32(size);
    Word32(elements);
    var h := TargetHeader(alt, name, size, elements);
    assert h == g + ([alt] + (n + (f + (s + e))));
    hide Le, UnLe, NameField, Ascii, TargetHeader;
    Cut(g, [alt] + (n + (f + (s + e))));
    assert h[6..] == [alt] + (n + (f + (s + e)));
    assert h[7..] == n + (f + (s + e));
    Cut(n, f + (s + e));
    assert h[7..11] == h[7..][..4];
    assert h[11..] == f + (s + e);
    Cut(f, s + e);
    assert h[11..266] == h[11..][..255];
    assert h[266..] == s + e;
    Cut(s, e);
    assert h[266..270] == h[266..][..4] && h[270..274] == h[266..][4..];
  }

  /** What parse reports of the k-th target: its images with their bytes, under the setting of the last one. */
  function Expected(ts: seq<seq<Image>>, k: nat, name: seq<Byte>): Target
    requires k < |ts| && TargetFits(ts, k)
  {
    Target(Ascii("Target"), AltOf(ts, k).value, CString(NameField(name)), |ImagesBytes(ts[k])|, Elements(ts[k]), false)
  }

  lemma TargetRoundTrip(ts: seq<seq<Image>>, k: nat, name: seq<Byte>, tail: seq<Byte>)
    requires k < |ts| && TargetFits(ts, k)
    ensures ParseTarget(TargetBytes(ts, k, name) + tail) == Some((Expected(ts, k, name), tail))
  {
    var body := ImagesBytes(ts[k]);
    var h := TargetHeader(AltOf(ts, k).value, name, |body|, |ts[k]|);
    HeaderFields(AltOf(ts, k).value, name, |body|, |ts[k]|);
    ElementsRoundTrip(ts[k]);
    hide TargetHeader, UnLe, CString, NameField, ParseElements, ImagesBytes;
    Assoc(h, body, tail);
    Cut(h, body + tail);
    Cut(body, tail);
  }

  function AllExpected(ts: seq<seq<Image>>, k: nat, name: seq<Byte>): seq<Target>
    requires k <= |ts| && TargetsFit(ts)
    decreases |ts| - k
  {
    if k == |ts| then [] else [Expected(ts, k, name)] + AllExpected(ts, k + 1, name)
  }

  predicate ReadsBack(ts: seq<seq<Image>>, k: nat, name: seq<Byte>, tail: seq<Byte>)
    requires k <= |ts| && TargetsFit(ts)
  {
    ParseTargets(TargetsBytes(ts, k, name) + tail, |ts| - k) == Some((AllExpected(ts, k, name), tail))
  }

  lemma {:induction false} TargetsRoundTrip(ts: seq<seq<Image>>, k: nat, name: seq<Byte>, tail: seq<Byte>)
    requires k <= |ts| && TargetsFit(ts)
    ensures ReadsBack(ts, k, name, tail)
    decreases |ts| - k
  {
    if k == |ts| {
      assert [] + tail == tail;
    } else {
      TargetsRoundTrip(ts, k + 1, name, tail);
      OneMoreTarget(ts, k, name, tail);
    }
  }

  lemma OneMoreTarget(ts: seq<seq<Image>>, k: nat, name: seq<Byte>, tail: seq<Byte>)
    requires k < |ts| && TargetsFit(ts) && ReadsBack(ts, k + 1, name, tail)
    ensures ReadsBack(ts, k, name, tail)
  {
    var first, others := TargetBytes(ts, k, name), TargetsBytes(ts, k + 1, name);
    var bytes := TargetsBytes(ts, k, name);
    assert bytes == first + others;
    assert AllExpected(ts, k, name) == [Expected(ts, k, name)] + AllExpected(ts, k + 1, name);
    hide ParseTarget, ParseTargets, Expected, AllExpected, TargetBytes, TargetsBytes, TargetsFit, TargetFits;
    Assoc(first, others, tail);
    TargetRoundTrip(ts, k, name, others + tail);
    FirstTarget(bytes + tail, |ts| - k);
    assert bytes + tail == first + (others + tail);
    assert ParseTarget(bytes + tail) == Some((Expected(ts, k, name), others + tail));
    assert ParseTargets(bytes + tail, |ts| - k)
        == Then([Expected(ts, k, name)], ParseTargets(others + tail, |ts| - k - 1));
  }

  lemma PrefixFields(size: nat, count: Byte)
    requires size < WORD
    ensures var p := Prefix(size, count);
      p[..5] == Ascii("DfuSe") && p[5] == 1 && UnLe(p[6..10]) == size && p[10] == count
  {
    var g, s := Ascii("DfuSe"), Le(size, 4);
    Word32(size);
    var p := Prefix(size, count);
    hide Le, UnLe, Ascii;
    Cut(g, [1] + (s + [count]));
    assert p[6..] == s + [count];
    assert p[6..10] == p[6..][..4];
  }

  /** The fields of the suffix, from its start. */
  predicate SuffixAt(s: seq<Byte>, vendor: nat, product: nat, crc: Word) {
    && |s| == 16 && UnLe(s[..2]) == 0 && UnLe(s[2..4]) == product % 0x1_0000 && UnLe(s[4..6]) == vendor % 0x1_0000
    && UnLe(s[6..8]) == 0x011a && s[8..11] == Ascii("UFD") && s[11] == 16 && UnLe(s[12..16]) == crc
  }

  lemma SuffixFields(vendor: nat, product: nat, crc: Word)
    ensures SuffixAt(Suffix(vendor, product) + Le(crc, 4), vendor, product, crc)
    ensures ParseTail(Suffix(vendor, product) + Le(crc, 4)) ==
      Tail(0, product % 0x1_0000, vendor % 0x1_0000, 0x011a, Ascii("UFD"), SUFFIX_SIZE, crc)
  {
    var z, p, v, d, u := Le(0, 2), Le(product, 2), Le(vendor, 2), Le(0x011a, 2), Ascii("UFD");
    Word16(0);
    Word16(product);
    Word16(vendor);
    Word16(0x011a);
    Word32(crc);
    var s := Suffix(vendor, product) + Le(crc, 4);
    var c := Le(crc, 4);
    assert s == (z + (p + (v + (d + (u + [SUFFIX_SIZE]))))) + c;
    hide Le, UnLe, Ascii, Suffix;
    assert s[..2] == z;
    assert s[2..4] == p;
    assert s[4..6] == v;
    assert s[6..8] == d;
    assert s[8..11] == u;
    assert s[11] == SUFFIX_SIZE;
    assert s[12..16] == c;
  }

  lemma BuiltParts(crc: Crc, ts: seq<seq<Image>>, name: seq<Byte>, vendor: nat, product: nat)
    requires Fits(ts, name)
    ensures var data := TargetsBytes(ts, 0, name); var body := Body(ts, name, vendor, product);
      && body == Prefix(PREFIX_SIZE + |data| + SUFFIX_SIZE, |ts|) + (data + Suffix(vendor, product))
      && Built(crc, ts, name, vendor, product) == Some(body + Le(crc(body), 4))
      && |body + Le(crc(body), 4)| == PREFIX_SIZE + |data| + SUFFIX_SIZE
  {
    hide TargetsBytes, Le, Prefix, Suffix, TargetsFit;
  }

  lemma BackToParse(ts: seq<seq<Image>>, name: seq<Byte>, tail: seq<Byte>)
    requires TargetsFit(ts) && ReadsBack(ts, 0, name, tail)
    ensures ParseTargets(TargetsBytes(ts, 0, name) + tail, |ts|) == Some((AllExpected(ts, 0, name), tail))
  {
    hide TargetsFit, ParseTargets, TargetsBytes, AllExpected;
  }

  /** The slices of a file that parse looks at. */
  lemma Parts(p: seq<Byte>, data: seq<Byte>, s: seq<Byte>, c: seq<Byte>)
    requires |p| == PREFIX_SIZE && |s| == SUFFIX_SIZE - 4 && |c| == 4
    ensures var file := (p + (data + s)) + c;
      && |file| == PREFIX_SIZE + |data| + SUFFIX_SIZE && file[..|file| - 4] == p + (data + s)
      && file[PREFIX_SIZE..] == data + (s + c)
      && file[..5] == p[..5] && file[5] == p[5] && file[6..10] == p[6..10] && file[10] == p[10]
  {
    var file := (p + (data + s)) + c;
    assert file == p + (data + (s + c));
    Cut(p, data + (s + c));
    Cut(p + (data + s), c);
    assert forall i :: 0 <= i < PREFIX_SIZE ==> file[i] == p[i];
  }

  /** The layout of a file: the prefix with the size of the file and the number of targets, the targets one after the
      other, and the suffix, which ends with the checksum of everything before it. */
  lemma FileLayout(crc: Crc, ts: seq<seq<Image>>, name: seq<Byte>, vendor: nat, product: nat)
    requires Fits(ts, name)
    ensures var f, data := Built(crc, ts, name, vendor, product).value, TargetsBytes(ts, 0, name);
      && |f| == 11 + |data| + 16
      && f[..5] == Ascii("DfuSe") && f[5] == 1 && UnLe(f[6..10]) == |f| && f[10] == |ts|
      && f[11..11 + |data|] == data && SuffixAt(f[|f| - 16..], vendor, product, crc(f[..|f| - 4]))
  {
    hide Built, Body, Prefix, Suffix, Le, UnLe, Ascii, TargetsBytes, TargetsFit, SuffixAt;
    var data := TargetsBytes(ts, 0, name);
    var size, body := PREFIX_SIZE + |data| + SUFFIX_SIZE, Body(ts, name, vendor, product);
    var p, s, c := Prefix(size, |ts|), Suffix(vendor, product), Le(crc(body), 4);
    BuiltParts(crc, ts, name, vendor, product);
    PrefixFields(size, |ts|);
    SuffixFields(vendor, product, crc(body));
    Parts(p, data, s, c);
    var f := (p + (data + s)) + c;
    assert f[11..] == data + (s + c);
    assert f[11..11 + |data|] == f[11..][..|data|] == data;
    assert f[|f| - 16..] == f[11..][|data|..] == s + c;
  }

  /** The layout of a target: the header, with the setting, the name, and the size and number of the images, and then
      each image with its address and size. */
  lemma TargetLayout(ts: seq<seq<Image>>, k: nat, name: seq<Byte>)
    requires k < |ts| && TargetFits(ts, k)
    ensures var b, data := TargetBytes(ts, k, name), ImagesBytes(ts[k]);
      && |b| == 274 + |data| && b[274..] == data
      && b[..6] == Ascii("Target") && b[6] == AltOf(ts, k).value && UnLe(b[7..11]) == 1
      && b[11..11 + Min(|name|, 255)] == name[..Min(|name|, 255)]
      && (forall i :: 11 + Min(|name|, 255) <= i < 266 ==> b[i] == 0)
      && UnLe(b[266..270]) == |data| && UnLe(b[270..274]) == |ts[k]|
  {
    var data := ImagesBytes(ts[k]);
    var h := TargetHeader(AltOf(ts, k).value, name, |data|, |ts[k]|);
    HeaderFields(AltOf(ts, k).value, name, |data|, |ts[k]|);
    var f, n := NameField(name), Min(|name|, 255);
    assert f[..n] == name[..n] && forall i :: n <= i < 255 ==> f[i] == 0;
    var b := TargetBytes(ts, k, name);
    hide TargetHeader, UnLe, NameField, ImagesBytes, AltOf, TargetFits;
    assert b == h + data;
    assert b[..6] == h[..6] && b[7..11] == h[7..11] && b[266..270] == h[266..270] && b[270..274] == h[270..274];
    assert b[11..11 + n] == h[11..266][..n] == f[..n];
    assert forall i :: 11 <= i < 266 ==> b[i] == h[11..266][i - 11];
  }

  // ---------------------------------------------------------------- files that are not as build writes them

  /** A target that announces more bytes than its images take is read with its images, and with the residue message
      exactly when there are such bytes. */
  lemma TargetResidue(alt: Byte, name: seq<Byte>, t: seq<Image>, extra: seq<Byte>, tail: seq<Byte>)
    requires ImagesFit(t) && |t| < WORD && |ImagesBytes(t) + extra| < WORD
    ensures var bytes := ImagesBytes(t) + extra;
      ParseTarget(TargetHeader(alt, name, |bytes|, |t|) + (bytes + tail)) == Some((
        Target(Ascii("Target"), alt, CString(NameField(name)), |bytes|, Elements(t), extra != []), tail))
  {
    var bytes := ImagesBytes(t) + extra;
    HeaderFields(alt, name, |bytes|, |t|);
    ElementsResidue(t, extra);
    var h := TargetHeader(alt, name, |bytes|, |t|);
    hide TargetHeader, UnLe, CString, NameField, ParseElements, ImagesBytes;
    Cut(h, bytes + tail);
    Cut(bytes, tail);
  }

  lemma {:induction false} AsMany(target: seq<Byte>, n: nat)
    ensures ParseElements(target, n).Some? ==> |ParseElements(target, n).value.0| == n
  {
    if n > 0 && |target| >= 8 {
      var rest := target[8..];
      AsMany(rest[Min(UnLe(target[4..8]), |rest|)..], n - 1);
    }
  }

  /** Any target that parses is reported with the fields of its header; one that is marked as unnamed has no name,
      whatever stands in the name field. */
  lemma TargetRead(data: seq<Byte>)
    requires ParseTarget(data).Some?
    ensures |data| >= 274
    ensures var t := ParseTarget(data).value.0;
      && t.signature == data[..6] && t.alt == data[6]
      && t.name == (if data[7..11] == [0, 0, 0, 0] then [] else CString(data[11..266]))
      && t.size == UnLe(data[266..270]) && |t.elements| == UnLe(data[270..274])
  {
    var h, rest := data[..TARGET_PREFIX_SIZE], data[TARGET_PREFIX_SIZE..];
    AsMany(rest[..Min(UnLe(h[266..270]), |rest|)], UnLe(h[270..274]));
    UnLeIs(data[7..11]);
    hide UnLe, CString, ParseElements;
    assert h[..6] == data[..6] && h[7..11] == data[7..11] && h[11..266] == data[11..266];
    assert h[266..270] == data[266..270] && h[270..274] == data[270..274];
    assert data[7..11] == [data[7], data[8], data[9], data[10]];
  }

  /** Bytes behind a file that build wrote are noticed, whatever they are; the rest is read as before. */
  lemma FileResidue(crc: Crc, ts: seq<seq<Image>>, name: seq<Byte>, vendor: nat, product: nat, extra: seq<Byte>)
    requires Fits(ts, name)
    ensures var f := Built(crc, ts, name, vendor, product).value; var body := Body(ts, name, vendor, product);
      var whole := f + extra;
      Parsed(crc, whole) == Some(File(
        Ascii("DfuSe"), 1, |f|, AllExpected(ts, 0, name),
        Tail(0, product % 0x1_0000, vendor % 0x1_0000, 0x011a, Ascii("UFD"), SUFFIX_SIZE, crc(body)),
        crc(whole[..|whole| - 4]) != crc(body), extra != []))
  {
    hide Built, Body, Prefix, Suffix, Le, UnLe, Ascii, TargetsBytes, TargetsFit, SuffixAt;
    hide AllExpected, ParseTargets, ParseTail, Parsed, ReadsBack;
    var data := TargetsBytes(ts, 0, name);
    var size, body := PREFIX_SIZE + |data| + SUFFIX_SIZE, Body(ts, name, vendor, product);
    var p, s, c := Prefix(size, |ts|), Suffix(vendor, product), Le(crc(body), 4);
    BuiltParts(crc, ts, name, vendor, product);
    PrefixFields(size, |ts|);
    SuffixFields(vendor, product, crc(body));
    var end := (s + c) + extra;
    TargetsRoundTrip(ts, 0, name, end);
    BackToParse(ts, name, end);
    ParsedMore(crc, p, data, s + c, extra, AllExpected(ts, 0, name));
    assert ((p + (data + s)) + c) + extra == p + (data + end);
  }

  lemma ParsedMore(crc: Crc, p: seq<Byte>, data: seq<Byte>, s: seq<Byte>, extra: seq<Byte>, targets: seq<Target>)
    requires |p| == PREFIX_SIZE && |s| == SUFFIX_SIZE
    requires ParseTargets(data + (s + extra), p[10]) == Some((targets, s + extra))
    ensures var file := p + (data + (s + extra));
      Parsed(crc, file) == Some(File(p[..5], p[5], UnLe(p[6..10]), targets, ParseTail(s),
                                     crc(file[..|file| - 4]) != ParseTail(s).crc, extra != []))
  {
    hide ParseTargets, ParseTail, UnLe;
    Cut(p, data + (s + extra));
    Cut(s, extra);
    var file := p + (data + (s + extra));
    assert file[..5] == p[..5] && file[6..10] == p[6..10] && file[5] == p[5] && file[10] == p[10];
  }

  /** Everything build can write is read back: the same images at the same addresses, no residue in any
      target or behind the suffix, a size field that is the file length, and a checksum that agrees. */
  lemma FileRoundTrip(crc: Crc, ts: seq<seq<Image>>, name: seq<Byte>, vendor: nat, product: nat)
    requires Fits(ts, name)
    ensures var file := Built(crc, ts, name, vendor, product).value; var body := Body(ts, name, vendor, product);
      Parsed(crc, file) == Some(File(
        Ascii("DfuSe"), 1, |file|, AllExpected(ts, 0, name),
        Tail(0, product % 0x1_0000, vendor % 0x1_0000, 0x011a, Ascii("UFD"), SUFFIX_SIZE, crc(body)), false, false))
  {
    hide Built, Body, Parsed, AllExpected;
    BuiltParts(crc, ts, name, vendor, product);
    var f, body := Built(crc, ts, name, vendor, product).value, Body(ts, name, vendor, product);
    FileResidue(crc, ts, name, vendor, product, []);
    assert f + [] == f && f[..|f| - 4] == body;
  }

  /** A target that is cut off is not read, or nothing is left behind it. */
  lemma TargetCutOff(ts: seq<seq<Image>>, k: nat, name: seq<Byte>, m: nat)
    requires k < |ts| && TargetFits(ts, k) && m < |TargetBytes(ts, k, name)|
    ensures var r := ParseTarget(TargetBytes(ts, k, name)[..m]); r == None || r.value.1 == []
  {
    var data := ImagesBytes(ts[k]);
    var h := TargetHeader(AltOf(ts, k).value, name, |data|, |ts[k]|);
    HeaderFields(AltOf(ts, k).value, name, |data|, |ts[k]|);
    hide TargetHeader, UnLe, CString, NameField, ParseElements, ImagesBytes, AltOf, TargetFits;
    if m >= |h| {
      assert (h + data)[..m] == h + data[..m - |h|];
      Cut(h, data[..m - |h|]);
    }
  }

  /** Reading `n` targets fails, or leaves fewer than `left` bytes. */
  predicate LeavesLess(data: seq<Byte>, n: nat, left: nat) {
    var r := ParseTargets(data, n);
    r == None || |r.value.1| < left
  }

  lemma LeavesLessFirst(data: seq<Byte>, n: nat, left: nat)
    requires n > 0 && left > 0
    requires var first := ParseTarget(data);
      first == None || first.value.1 == [] || LeavesLess(first.value.1, n - 1, left)
    ensures LeavesLess(data, n, left)
  {
    var first := ParseTarget(data);
    FirstTarget(data, n);
    if first.Some? && first.value.1 == [] { NothingToRead(n - 1); }
    hide ParseTarget, ParseTargets;
  }

  lemma NothingToRead(n: nat)
    ensures ParseTargets([], n) == if n == 0 then Some(([], [])) else None
  {}

  lemma CutEither(a: seq<Byte>, b: seq<Byte>, c: seq<Byte>, m: nat)
    requires m <= |a| + |b| + |c|
    ensures ((a + b) + c)[..m] == if m < |a| then a[..m] else a + (b + c)[..m - |a|]
  {}

  lemma FirstCutOff(ts: seq<seq<Image>>, k: nat, name: seq<Byte>, others: seq<Byte>, tail: seq<Byte>, m: nat)
    requires k < |ts| && TargetFits(ts, k) && m < |TargetBytes(ts, k, name)| + |others| + |tail| && tail != []
    requires var n := |TargetBytes(ts, k, name)|;
      m >= n ==> LeavesLess((others + tail)[..m - n], |ts| - k - 1, |tail|)
    ensures LeavesLess(((TargetBytes(ts, k, name) + others) + tail)[..m], |ts| - k, |tail|)
  {
    hide LeavesLess, ParseTarget, TargetBytes, TargetFits, Expected;
    var first := TargetBytes(ts, k, name);
    CutEither(first, others, tail, m);
    if m >= |first| {
      TargetRoundTrip(ts, k, name, (others + tail)[..m - |first|]);
    } else {
      TargetCutOff(ts, k, name, m);
    }
    LeavesLessFirst(((first + others) + tail)[..m], |ts| - k, |tail|);
  }

  lemma TargetsUnfold(ts: seq<seq<Image>>, k: nat, name: seq<Byte>, tail: seq<Byte>, m: nat)
    requires k <= |ts| && TargetsFit(ts) && m < |TargetsBytes(ts, k, name) + tail|
    ensures k < |ts| ==>
      TargetFits(ts, k) && TargetsBytes(ts, k, name) == TargetBytes(ts, k, name) + TargetsBytes(ts, k + 1, name)
    ensures k == |ts| ==> LeavesLess((TargetsBytes(ts, k, name) + tail)[..m], 0, |tail|)
  {
    if k == |ts| {
      assert [] + tail == tail;
    }
  }

  lemma {:induction false} TargetsCutOff(ts: seq<seq<Image>>, k: nat, name: seq<Byte>, tail: seq<Byte>, m: nat)
    requires k <= |ts| && TargetsFit(ts) && m < |TargetsBytes(ts, k, name) + tail| && tail != []
    ensures LeavesLess((TargetsBytes(ts, k, name) + tail)[..m], |ts| - k, |tail|)
    decreases |ts| - k
  {
    hide LeavesLess, TargetsBytes, TargetBytes, TargetFits, TargetsFit;
    TargetsUnfold(ts, k, name, tail, m);
    if k < |ts| {
      var n := |TargetBytes(ts, k, name)|;
      if m >= n { TargetsCutOff(ts, k + 1, name, tail, m - n); }
      FirstCutOff(ts, k, name, TargetsBytes(ts, k + 1, name), tail, m);
    }
  }

  /** A file that build wrote and that has lost its end does not parse, however little is missing. */
  lemma CutOffFails(crc: Crc, ts: seq<seq<Image>>, name: seq<Byte>, vendor: nat, product: nat, m: nat)
    requires Fits(ts, name) && m < |Built(crc, ts, name, vendor, product).value|
    ensures Parsed(crc, Built(crc, ts, name, vendor, product).value[..m]) == None
  {
    hide Built, Body, Prefix, Suffix, Le, UnLe, Ascii, TargetsBytes, TargetsFit, ParseTargets, ParseTail;
    var data := TargetsBytes(ts, 0, name);
    var size, body := PREFIX_SIZE + |data| + SUFFIX_SIZE, Body(ts, name, vendor, product);
    var p, s, c := Prefix(size, |ts|), Suffix(vendor, product), Le(crc(body), 4);
    BuiltParts(crc, ts, name, vendor, product);
    PrefixFields(size, |ts|);
    Parts(p, data, s, c);
    var f := (p + (data + s)) + c;
    if m >= PREFIX_SIZE {
      TargetsCutOff(ts, 0, name, s + c, m - PREFIX_SIZE);
      assert data + (s + c) == f[PREFIX_SIZE..];
      assert f[..m][PREFIX_SIZE..] == f[PREFIX_SIZE..][..m - PREFIX_SIZE];
      assert f[..m][10] == f[10];
    }
  }

  /** The images parse reports, each under the setting of its target's header. */
  function Reported(t: Target): seq<(int, Element)> {
    seq(|t.elements|, i requires 0 <= i < |t.elements| => (t.alt, t.elements[i]))
  }

  function Described(t: seq<Image>): seq<(int, Element)>
    requires ImagesFit(t)
  {
    seq(|t|, i requires 0 <= i < |t| => (t[i].alt, Element(t[i].address, t[i].data)))
  }

  /** The settings survive exactly when every image of the target has the same one. */
  lemma AltsSurvive(ts: seq<seq<Image>>, k: nat, name: seq<Byte>)
    requires k < |ts| && TargetFits(ts, k)
    ensures Reported(Expected(ts, k, name)) == Described(ts[k]) <==>
      forall i :: 0 <= i < |ts[k]| ==> ts[k][i].alt == ts[k][|ts[k]| - 1].alt
  {
    var t, r := ts[k], Reported(Expected(ts, k, name));
    ElementsAt(t);
    if t != [] {
      assert AltOf(ts, k).value == t[|t| - 1].alt;
      assert |r| == |t| && forall i :: 0 <= i < |t| ==> r[i] == (t[|t| - 1].alt, Described(t)[i].1);
      if r == Described(t) {
        assert forall i :: 0 <= i < |t| ==> t[i].alt == r[i].0;
      }
      if forall i :: 0 <= i < |t| ==> t[i].alt == t[|t| - 1].alt {
        assert forall i :: 0 <= i < |t| ==> r[i] == Described(t)[i];
        assert r == Described(t);
      }
    }
  }

  lemma {:induction false} ElementsAt(t: seq<Image>)
    requires ImagesFit(t)
    ensures |Elements(t)| == |t|
    ensures forall i :: 0 <= i < |t| ==> Elements(t)[i] == Element(t[i].address, t[i].data)
  {
    if t != [] {
      ElementsAt(t[1..]);
      assert forall i :: 1 <= i < |t| ==> Elements(t)[i] == Elements(t[1..])[i - 1];
    }
  }

  // ---------------------------------------------------------------- grouping the -b options into targets

  function Concat(ts: seq<seq<Image>>): seq<Image> {
    if ts == [] then [] else Concat(ts[..|ts| - 1]) + ts[|ts| - 1]
  }

  predicate SingleAlt(t: seq<Image>) {
    t != [] && forall i, j :: 0 <= i < |t| && 0 <= j < |t| ==> t[i].alt == t[j].alt
  }

  /** Non-empty targets of one setting each, and a new target only where the setting changes. */
  predicate Groups(ts: seq<seq<Image>>) {
    && (forall k :: 0 <= k < |ts| ==> SingleAlt(ts[k]))
    && (forall k :: 0 < k < |ts| ==> ts[k][0].alt != ts[k - 1][0].alt)
  }

  /** The loop over the binary files; there is at least one. */
  method Group(images: seq<Image>) returns (targets: seq<seq<Image>>)
    requires images != []
    ensures Groups(targets) && Concat(targets) == images
  {
    targets := [];
    var target: seq<Image>, oldEalt: Option<int> := [], None;
    for i := 0 to |images|
      invariant (oldEalt == None) == (target == []) == (i == 0)
      invariant target == [] ==> targets == []
      invariant target != [] ==> oldEalt == Some(target[0].alt) && Groups(targets + [target])
      invariant Concat(targets) + target == images[..i]
    {
      var image := images[i];
      assert images[..i + 1] == images[..i] + [image];
      if oldEalt != None && image.alt != oldEalt.value {
        assert (targets + [target])[..|targets|] == targets;
        targets := targets + [target];
        target := [];
        Extended(targets, image);
      } else {
        Widened(targets, target, image);
      }
      target := target + [image];
      oldEalt := Some(image.alt);
    }
    assert (targets + [target])[..|targets|] == targets;
    assert images[..|images|] == images;
    targets := targets + [target];
  }

  lemma Extended(ts: seq<seq<Image>>, image: Image)
    requires Groups(ts) && (ts != [] ==> ts[|ts| - 1][0].alt != image.alt)
    ensures Groups(ts + [[] + [image]])
  {}

  lemma Widened(ts: seq<seq<Image>>, t: seq<Image>, image: Image)
    requires t == [] ==> ts == []
    requires t != [] ==> Groups(ts + [t]) && t[0].alt == image.alt
    ensures Groups(ts + [t + [image]])
  {
    var us, vs := ts + [t], ts + [t + [image]];
    if t != [] {
      assert us[|ts|] == t;
      assert forall k :: 0 <= k < |ts| ==> us[k] == vs[k] == ts[k];
      assert SingleAlt(t + [image]);
    }
  }

  /** Grouped options, built and parsed back, are reported as they were given. */
  lemma GroupsSurvive(ts: seq<seq<Image>>, name: seq<Byte>, k: nat)
    requires k < |ts| && Groups(ts) && TargetsFit(ts)
    ensures |AllExpected(ts, 0, name)| == |ts|
    ensures TargetFits(ts, k) && Reported(AllExpected(ts, 0, name)[k]) == Described(ts[k])
  {
    ExpectedAt(ts, 0, name, k);
    assert SingleAlt(ts[k]);
    AltsSurvive(ts, k, name);
  }

  lemma {:induction false} ExpectedAt(ts: seq<seq<Image>>, k: nat, name: seq<Byte>, j: nat)
    requires k <= j <= |ts| && TargetsFit(ts)
    ensures |AllExpected(ts, k, name)| == |ts| - k
    ensures j < |ts| ==> AllExpected(ts, k, name)[j - k] == Expected(ts, j, name)
    decreases |ts| - k
  {
    if k < |ts| {
      ExpectedAt(ts, k + 1, name, if j == k then k + 1 else j);
    }
  }

  // ---------------------------------------------------------------- S-records

  /** A data record; every other line of the file counts as address 0 without data. */
  datatype Record = Record(address: nat, data: seq<Byte>)

  function Pairs(r: Record): seq<(nat, Byte)> {
    seq(|r.data|, i requires 0 <= i < |r.data| => (r.address + i, r.data[i]))
  }

  function AllPairs(rs: seq<Record>): seq<(nat, Byte)> {
    if rs == [] then [] else AllPairs(rs[..|rs| - 1]) + Pairs(rs[|rs| - 1])
  }

  /** The records whose address is not zero. */
  function Placed(rs: seq<Record>): seq<Record> {
    if rs == [] then []
    else Placed(rs[..|rs| - 1]) + if rs[|rs| - 1].address == 0 then [] else [rs[|rs| - 1]]
  }

  function Last(rs: seq<Record>): Record
    requires rs != []
  {
    rs[|rs| - 1]
  }

  /** How many bytes are pending after the last line: the length of the contiguous run that ends the file. */
  function Unflushed(rs: seq<Record>): nat {
    if rs == [] || Last(rs).address == 0 then 0
    else
      var before := rs[..|rs| - 1];
      |Last(rs).data| +
      if before != [] && Last(before).address != 0 && Last(before).address + |Last(before).data| == Last(rs).address
      then Unflushed(before) else 0
  }

  /** The variables of the line loop: the segments appended to the target, and the pending one. */
  datatype Lines = Lines(target: seq<Record>, pending: Record)

  function Line(s: Lines, r: Record): Lines {
    if s.pending.address == 0 then s.(pending := r)
    else if s.pending.address + |s.pending.data| != r.address then Lines(s.target + [s.pending], r)
    else s.(pending := s.pending.(data := s.pending.data + r.data))
  }

  function AllLines(rs: seq<Record>): Lines {
    if rs == [] then Lines([], Record(0, [])) else Line(AllLines(rs[..|rs| - 1]), Last(rs))
  }

  /** The line loop of the S19 branch; the segment still pending at the end is not appended. */
  method Coalesce(rs: seq<Record>) returns (target: seq<Record>)
    ensures target == AllLines(rs).target
  {
    target := [];
    var address: nat, data: seq<Byte> := 0, [];
    for i := 0 to |rs|
      invariant Lines(target, Record(address, data)) == AllLines(rs[..i])
    {
      assert rs[..i + 1][..i] == rs[..i];
      var cur := rs[i];
      if address == 0 {
        address, data := cur.address, cur.data;
      } else if address + |data| != cur.address {
        target := target + [Record(address, data)];
        address, data := cur.address, cur.data;
      } else {
        data := data + cur.data;
      }
    }
    assert rs[..|rs|] == rs;
  }

  /** The bytes of a pending segment; one at address zero is overwritten by the next line. */
  function Kept(pending: Record): seq<(nat, Byte)> {
    if pending.address == 0 then [] else Pairs(pending)
  }

  lemma AllPairsSnoc(rs: seq<Record>, r: Record)
    ensures AllPairs(rs + [r]) == AllPairs(rs) + Pairs(r)
  {
    assert (rs + [r])[..|rs|] == rs;
  }

  lemma PairsJoin(r: Record, d: seq<Byte>)
    ensures Pairs(r.(data := r.data + d)) == Pairs(r) + Pairs(Record(r.address + |r.data|, d))
  {}

  lemma LineKeeps(s: Lines, r: Record)
    ensures var s' := Line(s, r);
      AllPairs(s'.target) + Kept(s'.pending) == (AllPairs(s.target) + Kept(s.pending)) + Kept(r)
  {
    var run := s.pending;
    if run.address != 0 && run.address + |run.data| != r.address {
      AllPairsSnoc(s.target, run);
    } else if run.address != 0 {
      PairsJoin(run, r.data);
    }
  }

  lemma PlacedSnoc(rs: seq<Record>)
    requires rs != []
    ensures AllPairs(Placed(rs)) == AllPairs(Placed(rs[..|rs| - 1])) + Kept(Last(rs))
  {
    var before := Placed(rs[..|rs| - 1]);
    if Last(rs).address != 0 {
      AllPairsSnoc(before, Last(rs));
    } else {
      assert before + [] == before;
    }
  }

  /** Every file: of the records placed at a non-zero address all bytes are emitted, at their addresses and
      in order, except those of the segment that is still pending when the file ends. */
  lemma {:induction false} S19Meaning(rs: seq<Record>)
    ensures AllPairs(AllLines(rs).target) + Kept(AllLines(rs).pending) == AllPairs(Placed(rs))
  {
    if rs != [] {
      S19Meaning(rs[..|rs| - 1]);
      LineKeeps(AllLines(rs[..|rs| - 1]), Last(rs));
      PlacedSnoc(rs);
      hide Line, AllPairs, Placed, Kept;
    }
  }

  /** How much is pending can be read off the records. */
  lemma {:induction false} PendingSize(rs: seq<Record>)
    ensures rs != [] ==> Follows(AllLines(rs).pending, Last(rs))
    ensures |Kept(AllLines(rs).pending)| == Unflushed(rs)
  {
    if rs != [] {
      PendingSize(rs[..|rs| - 1]);
    }
  }

  /** A pending segment ends where the last record ends. */
  predicate Follows(pending: Record, last: Record) {
    if last.address == 0 then pending.address == 0
    else pending.address != 0 && pending.address + |pending.data| == last.address + |last.data|
  }

  /** How many bytes stand at address zero. */
  function AtZero(rs: seq<Record>): nat {
    if rs == [] then 0 else AtZero(rs[..|rs| - 1]) + if Last(rs).address == 0 then |Last(rs).data| else 0
  }

  lemma {:induction false} PlacedLoses(rs: seq<Record>)
    ensures |AllPairs(Placed(rs))| + AtZero(rs) == |AllPairs(rs)|
    ensures AtZero(rs) == 0 ==> AllPairs(Placed(rs)) == AllPairs(rs)
  {
    if rs != [] {
      var before := rs[..|rs| - 1];
      PlacedLoses(before);
      PlacedSnoc(rs);
    }
  }

  /** The emitted segments mean what the records mean exactly when no byte stands at address zero and no
      contiguous run of bytes ends the file. */
  lemma S19Exact(rs: seq<Record>)
    ensures AllPairs(AllLines(rs).target) == AllPairs(rs) <==> AtZero(rs) == 0 && Unflushed(rs) == 0
  {
    S19Meaning(rs);
    PendingSize(rs);
    PlacedLoses(rs);
  }

  /** A byte at the very end of the file, and a byte at address zero, are lost. */
  lemma S19Loses()
    ensures AllLines([Record(16, [7])]).target == [] && AllPairs([Record(16, [7])]) == [(16, 7)]
    ensures var rs := [Record(0, [7]), Record(0, [])];
      AllLines(rs).target == [] && AllPairs(rs) == [(0, 7)]
  {
    var rs := [Record(0, [7]), Record(0, [])];
    assert [Record(16, [7])][..0] == [] && rs[..1] == [Record(0, [7])] && [Record(0, [7])][..0] == [];
    assert Line(AllLines([]), Record(16, [7])) == Lines([], Record(16, [7]));
    assert Pairs(Record(16, [7])) == [(16, 7)] && Pairs(Record(0, [7])) == [(0, 7)] && Pairs(Record(0, [])) == [];
  }

  /** A line that is not a data record at the end of the file flushes everything. */
  lemma S19Usual(rs: seq<Record>)
    requires rs != [] && Last(rs) == Record(0, [])
    requires forall i :: 0 <= i < |rs| - 1 ==> rs[i].address != 0 || rs[i].data == []
    ensures AllPairs(AllLines(rs).target) == AllPairs(rs)
  {
    NothingAtZero(rs);
    S19Exact(rs);
  }

  lemma {:induction false} NothingAtZero(rs: seq<Record>)
    requires forall i :: 0 <= i < |rs| ==> rs[i].address != 0 || rs[i].data == []
    ensures AtZero(rs) == 0
  {
    if rs != [] {
      NothingAtZero(rs[..|rs| - 1]);
    }
  }

  /** How many maximal contiguous runs start among the placed records. */
  function Starts(rs: seq<Record>): nat {
    if rs == [] then 0
    else
      var before, r := rs[..|rs| - 1], Last(rs);
      var continues := before != [] && Last(before).address != 0 && Last(before).address + |Last(before).data|
          == r.address;
      Starts(before) + if r.address == 0 || continues then 0 else 1
  }

  /** Contiguous records end up in one segment: there are as many segments as runs. */
  lemma {:induction false} S19Segments(rs: seq<Record>)
    ensures |AllLines(rs).target| + (if AllLines(rs).pending.address == 0 then 0 else 1) == Starts(rs)
  {
    if rs != [] {
      S19Segments(rs[..|rs| - 1]);
      PendingSize(rs[..|rs| - 1]);
    }
  }
}
