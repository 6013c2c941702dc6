/** Naming a device: the qualifiers the long listing of transport.c prints, the matcher that reads them back,
    and the choice of one transport. */
module Selector {
  import opened Bytes

  datatype Kind = UsbDevice | LocalDevice

  datatype Wanted = WantUsb | WantLocal | WantAny

  datatype State = Offline | Bootloader | Device | HostSide | Recovery | Sideload | NoPerm | Unauthorized

  /** The parts of a transport that name it; strings may be missing. */
  datatype Transport = Transport(
    kind: Kind, state: State, serial: Option<seq<Byte>>, devpath: Option<seq<Byte>>,
    product: Option<seq<Byte>>, model: Option<seq<Byte>>, device: Option<seq<Byte>>)

  const UNDERSCORE: Byte := 95

  predicate Valid(c: Byte) {
    65 <= c <= 90 || 97 <= c <= 122 || 48 <= c <= 57
  }

  function Clean(c: Byte): Byte {
    if Valid(c) then c else UNDERSCORE
  }

  function Sanitized(s: seq<Byte>): (r: seq<Byte>)
    ensures |r| == |s| && forall i :: 0 <= i < |s| ==> r[i] == Clean(s[i])
  {
    seq(|s|, i requires 0 <= i < |s| => Clean(s[i]))
  }

  function Shown(qual: seq<Byte>, sanitize: bool): seq<Byte> {
    if sanitize then Sanitized(qual) else qual
  }

  // ---------------------------------------------------------------- matching

  /** What qual_match decides: without a text to test, whether the qualifier is missing too; otherwise whether
      the text is the prefix followed by the qualifier as it is shown. */
  predicate QualMatches(toTest: seq<Byte>, prefix: seq<Byte>, qual: Option<seq<Byte>>, sanitize: bool) {
    if toTest == [] then qual == None || qual == Some([])
    else qual.Some? && toTest == prefix + Shown(qual.value, sanitize)
  }

  /** qual_match; reading past the end of `toTest` finds the terminator, which differs from everything. */
  method QualMatch(toTest: seq<Byte>, prefix: seq<Byte>, qual: Option<seq<Byte>>, sanitize: bool) returns (r: bool)
    ensures r == QualMatches(toTest, prefix, qual, sanitize)
  {
    if toTest == [] {
      return qual == None || qual.value == [];
    }
    if qual == None {
      return false;
    }
    ghost var whole := prefix + Shown(qual.value, sanitize);
    WholeAt(prefix, qual.value, sanitize);
    hide Shown, Sanitized, Clean, Valid;
    var t := 0;
    while t < |prefix|
      invariant t <= |prefix| && t <= |toTest| && forall i :: 0 <= i < t ==> toTest[i] == whole[i]
    {
      if t == |toTest| || prefix[t] != toTest[t] {
        assert toTest != whole by { assert t < |toTest| ==> whole[t] != toTest[t]; }
        return false;
      }
      t := t + 1;
    }
    var q := 0;
    while q < |qual.value|
      invariant q <= |qual.value| && t == |prefix| + q <= |toTest|
      invariant forall i :: 0 <= i < t ==> toTest[i] == whole[i]
    {
      var ch := qual.value[q];
      if sanitize && !Valid(ch) {
        ch := UNDERSCORE;
      }
      assert whole[t] == ch;
      if t == |toTest| || ch != toTest[t] {
        assert toTest != whole by { assert t < |toTest| ==> whole[t] != toTest[t]; }
        return false;
      }
      q, t := q + 1, t + 1;
    }
    r := t == |toTest|;
    assert r ==> toTest == whole;
  }

  lemma WholeAt(prefix: seq<Byte>, qual: seq<Byte>, sanitize: bool)
    ensures var whole := prefix + Shown(qual, sanitize);
      && |whole| == |prefix| + |qual| && (forall i :: 0 <= i < |prefix| ==> whole[i] == prefix[i])
      && forall q :: 0 <= q < |qual| ==>
           whole[|prefix| + q] == if sanitize && !Valid(qual[q]) then UNDERSCORE else qual[q]
  {}

  /** The test acquire_one_transport makes for a serial number. */
  predicate Named(t: Transport, serial: seq<Byte>) {
    || t.serial == Some(serial)
    || t.devpath == Some(serial)
    || QualMatches(serial, Ascii("product:"), t.product, false)
    || QualMatches(serial, Ascii("model:"), t.model, true)
    || QualMatches(serial, Ascii("device:"), t.device, false)
  }

  method IsNamed(t: Transport, serial: seq<Byte>) returns (r: bool)
    ensures r == Named(t, serial)
  {
    if t.serial == Some(serial) || t.devpath == Some(serial) { return true; }
    r := QualMatch(serial, Ascii("product:"), t.product, false);
    if r { return; }
    r := QualMatch(serial, Ascii("model:"), t.model, true);
    if r { return; }
    r := QualMatch(serial, Ascii("device:"), t.device, false);
  }

  // ---------------------------------------------------------------- choosing

  predicate Fits(t: Transport, wanted: Wanted, serial: Option<seq<Byte>>) {
    && t.state != NoPerm
    && match serial
       case Some(s) => Named(t, s)
       case None =>
         match wanted
         case WantUsb => t.kind == UsbDevice
         case WantLocal => t.kind == LocalDevice
         case WantAny => true
  }

  method FitsOne(t: Transport, wanted: Wanted, serial: Option<seq<Byte>>) returns (r: bool)
    requires t.state != NoPerm
    ensures r == Fits(t, wanted, serial)
  {
    if serial != None {
      r := IsNamed(t, serial.value);
    } else if wanted == WantUsb && t.kind == UsbDevice {
      r := true;
    } else if wanted == WantLocal && t.kind == LocalDevice {
      r := true;
    } else {
      r := wanted == WantAny;
    }
  }

  /** The positions of the transports that fit, in list order. */
  function Fitting(ts: seq<Transport>, wanted: Wanted, serial: Option<seq<Byte>>): (ks: seq<nat>)
    ensures forall i :: 0 <= i < |ks| ==> ks[i] < |ts|
    ensures forall i, j :: 0 <= i < j < |ks| ==> ks[i] < ks[j]
  {
    if ts == [] then []
    else
      var last := |ts| - 1;
      Fitting(ts[..last], wanted, serial) + if Fits(ts[last], wanted, serial) then [last] else []
  }

  lemma {:induction false} FittingAre(ts: seq<Transport>, wanted: Wanted, serial: Option<seq<Byte>>, k: nat)
    requires k < |ts|
    ensures k in Fitting(ts, wanted, serial) <==> Fits(ts[k], wanted, serial)
  {
    hide Fits;
    var before := Fitting(ts[..|ts| - 1], wanted, serial);
    if k < |ts| - 1 {
      FittingAre(ts[..|ts| - 1], wanted, serial, k);
      assert k in Fitting(ts, wanted, serial) <==> k in before;
    } else {
      assert k !in before;
    }
  }

  /** One transport fits and no other one does: that is the whole list of those that fit. */
  lemma OnlyFitting(ts: seq<Transport>, wanted: Wanted, serial: Option<seq<Byte>>, k: nat)
    requires k < |ts|
    ensures Fitting(ts, wanted, serial) == [k] <==>
      Fits(ts[k], wanted, serial) && forall j :: 0 <= j < |ts| && j != k ==> !Fits(ts[j], wanted, serial)
  {
    var ks := Fitting(ts, wanted, serial);
    FittingAre(ts, wanted, serial, k);
    if ks == [k] {
      forall j | 0 <= j < |ts| && j != k ensures !Fits(ts[j], wanted, serial) {
        FittingAre(ts, wanted, serial, j);
      }
    }
    if Fits(ts[k], wanted, serial) && forall j :: 0 <= j < |ts| && j != k ==> !Fits(ts[j], wanted, serial) {
      forall i | 0 <= i < |ks| ensures ks[i] == k {
        FittingAre(ts, wanted, serial, ks[i]);
      }
      OnlyOne(ks, k);
    }
  }

  lemma OnlyOne(ks: seq<nat>, k: nat)
    requires k in ks && forall i :: 0 <= i < |ks| ==> ks[i] == k
    requires forall i, j :: 0 <= i < j < |ks| ==> ks[i] < ks[j]
    ensures ks == [k]
  {
    assert ks[0] == k && ks[|ks| - 1] == k;
  }

  /** Whether a device was skipped for want of permissions. */
  predicate Barred(ts: seq<Transport>) {
    ts != [] && (Barred(ts[..|ts| - 1]) || ts[|ts| - 1].state == NoPerm)
  }

  datatype Choice = Chosen(k: nat) | Refused(error: string)

  function Crowded(wanted: Wanted, serial: Option<seq<Byte>>): string {
    if serial.Some? then "more than one device"
    else
      match wanted
      case WantUsb => "more than one device"
      case WantLocal => "more than one emulator"
      case WantAny => "more than one device and emulator"
  }

  const NOPERM_ERROR := "insufficient permissions for device"
  const NOT_FOUND := "device not found"

  function Usable(ts: seq<Transport>, k: nat): Choice
    requires k < |ts|
  {
    match ts[k].state
    case Unauthorized => Refused("device unauthorized. Please check the confirmation dialog on your device.")
    case Offline => Refused("device offline")
    case _ => Chosen(k)
  }

  /** What the caller gets: the only transport that fits, unless it is not usable; or the reason why not. */
  function Selected(ts: seq<Transport>, wanted: Wanted, serial: Option<seq<Byte>>): Choice {
    var ks := Fitting(ts, wanted, serial);
    if |ks| == 0 then
      Refused(if Barred(ts) then NOPERM_ERROR else NOT_FOUND)
    else if |ks| > 1 then Refused(Crowded(wanted, serial))
    else Usable(ts, ks[0])
  }

  /** acquire_one_transport with CS_ANY. */
  method AcquireOneTransport(ts: seq<Transport>, wanted: Wanted, serial: Option<seq<Byte>>) returns (r: Choice)
    ensures r == Selected(ts, wanted, serial)
  {
    var error := NOT_FOUND;
    var result: Option<nat> := None;
    for i := 0 to |ts|
      invariant Fitting(ts[..i], wanted, serial) == if result == None then [] else [result.value]
      invariant error == if Barred(ts[..i]) then NOPERM_ERROR else NOT_FOUND
    {
      OneMore(ts, i, wanted, serial);
      if ts[i].state == NoPerm {
        error := NOPERM_ERROR;
        continue;
      }
      var fits := FitsOne(ts[i], wanted, serial);
      hide Fits, Fitting, Barred, Usable, Crowded;
      if fits {
        if result != None {
          FittingGrows(ts, i + 1, wanted, serial);
          return Refused(Crowded(wanted, serial));
        }
        result := Some(i);
      }
    }
    assert ts[..|ts|] == ts;
    hide Fits, Fitting, Barred, Usable, Crowded;
    if result == None { return Refused(error); }
    assert result.value == Fitting(ts, wanted, serial)[0];
    r := Check(ts, result.value);
  }

  /** What the state of the transport found allows. */
  method Check(ts: seq<Transport>, k: nat) returns (r: Choice)
    requires k < |ts|
    ensures r == Usable(ts, k)
  {
    if ts[k].state == Unauthorized {
      return Refused("device unauthorized. Please check the confirmation dialog on your device.");
    }
    if ts[k].state == Offline { return Refused("device offline"); }
    r := Chosen(k);
  }

  lemma OneMore(ts: seq<Transport>, i: nat, wanted: Wanted, serial: Option<seq<Byte>>)
    requires i < |ts|
    ensures Fitting(ts[..i + 1], wanted, serial) ==
      Fitting(ts[..i], wanted, serial) + if Fits(ts[i], wanted, serial) then [i] else []
    ensures Barred(ts[..i + 1]) == (Barred(ts[..i]) || ts[i].state == NoPerm)
    ensures ts[i].state == NoPerm ==> !Fits(ts[i], wanted, serial)
  {
    assert ts[..i + 1][..i] == ts[..i];
  }

  lemma {:induction false} FittingGrows(ts: seq<Transport>, n: nat, wanted: Wanted, serial: Option<seq<Byte>>)
    requires n <= |ts|
    ensures |Fitting(ts[..n], wanted, serial)| <= |Fitting(ts, wanted, serial)|
  {
    if n < |ts| {
      assert ts[..|ts| - 1][..n] == ts[..n];
      FittingGrows(ts[..|ts| - 1], n, wanted, serial);
    } else {
      assert ts[..n] == ts;
    }
  }

  /** A transport is handed out exactly when it fits, no other one does, and it is neither offline nor
      unauthorized. */
  lemma SelectedExact(ts: seq<Transport>, wanted: Wanted, serial: Option<seq<Byte>>, k: nat)
    requires k < |ts|
    ensures Selected(ts, wanted, serial) == Chosen(k) <==>
      && Fits(ts[k], wanted, serial) && ts[k].state != Offline && ts[k].state != Unauthorized
      && forall j :: 0 <= j < |ts| && j != k ==> !Fits(ts[j], wanted, serial)
  {
    OnlyFitting(ts, wanted, serial, k);
    hide Fits, Fitting;
  }

  // ---------------------------------------------------------------- the long listing

  /** add_qual, in a buffer that is large enough: the text with the qualifier appended. */
  method AddQual(buf: seq<Byte>, prefix: seq<Byte>, qual: Option<seq<Byte>>, sanitize: bool) returns (r: seq<Byte>)
    ensures r == if qual == None || qual == Some([]) then buf else buf + (prefix + Shown(qual.value, sanitize))
  {
    if qual == None || qual.value == [] {
      return buf;
    }
    var text := prefix + qual.value;
    if sanitize {
      for cp := |prefix| to |text|
        invariant |text| == |prefix| + |qual.value|
        invariant text[..cp] == (prefix + Sanitized(qual.value))[..cp]
        invariant text[cp..] == (prefix + qual.value)[cp..]
      {
        var c := text[cp];
        assert c == (prefix + qual.value)[cp..][0] == qual.value[cp - |prefix|];
        var was := text;
        if !Valid(c) {
          text := text[cp := UNDERSCORE];
        }
        assert text[..cp + 1] == was[..cp] + [Clean(c)];
        assert text[cp + 1..] == was[cp..][1..];
      }
      assert text == text[..|text|];
    }
    r := buf + text;
  }

  /** A qualifier as the listing shows it, without the blank in front. */
  function Qualifier(prefix: string, qual: Option<seq<Byte>>, sanitize: bool): seq<seq<Byte>> {
    if qual == None || qual == Some([]) then [] else [Ascii(prefix) + Shown(qual.value, sanitize)]
  }

  function Qualifiers(t: Transport): seq<seq<Byte>> {
    Qualifier("product:", t.product, false) + (Qualifier("model:", t.model, true)
        + Qualifier("device:", t.device, false))
  }

  function Spaced(qs: seq<seq<Byte>>): seq<Byte> {
    if qs == [] then [] else ([32] + qs[0]) + Spaced(qs[1..])
  }

  /** The qualifiers format_transport appends to the line that ends with the state and the device path. */
  method AddQualifiers(line: seq<Byte>, t: Transport) returns (r: seq<Byte>)
    ensures r == line + Spaced(Qualifiers(t))
  {
    assert Ascii(" product:") == [32] + Ascii("product:");
    assert Ascii(" model:") == [32] + Ascii("model:");
    assert Ascii(" device:") == [32] + Ascii("device:");
    var p, m := Qualifier("product:", t.product, false), Qualifier("model:", t.model, true);
    var d := Qualifier("device:", t.device, false);
    hide Ascii, Shown, Sanitized;
    r := AddQual(line, Ascii(" product:"), t.product, false);
    One(line, "product:", t.product, false);
    var r1 := r;
    r := AddQual(r, Ascii(" model:"), t.model, true);
    One(r1, "model:", t.model, true);
    var r2 := r;
    r := AddQual(r, Ascii(" device:"), t.device, false);
    One(r2, "device:", t.device, false);
    hide Qualifier, Spaced;
    assert r == ((line + Spaced(p)) + Spaced(m)) + Spaced(d);
    SpacedJoin(p, m + d);
    SpacedJoin(m, d);
    Assoc(line + Spaced(p), Spaced(m), Spaced(d));
    Assoc(line, Spaced(p), Spaced(m) + Spaced(d));
  }

  lemma One(line: seq<Byte>, prefix: string, qual: Option<seq<Byte>>, sanitize: bool)
    ensures line + Spaced(Qualifier(prefix, qual, sanitize)) ==
      if qual == None || qual == Some([]) then line
      else line + (([32] + Ascii(prefix)) + Shown(qual.value, sanitize))
  {}

  lemma {:induction false} SpacedJoin(a: seq<seq<Byte>>, b: seq<seq<Byte>>)
    ensures Spaced(a + b) == Spaced(a) + Spaced(b)
  {
    if a == [] {
      assert a + b == b;
    } else {
      assert (a + b)[1..] == a[1..] + b;
      SpacedJoin(a[1..], b);
    }
  }

  predicate Alphanumeric(c: Byte) {
    'A' as int <= c <= 'Z' as int || 'a' as int <= c <= 'z' as int || '0' as int <= c <= '9' as int
  }

  /** The listing shows every qualifier that is there and not empty, product, model and device in that order; in the
      model every character that is neither letter nor digit is an underscore. */
  lemma Listed(t: Transport) returns (m: seq<Byte>)
    requires t.product.Some? && t.product.value != [] && t.model.Some? && t.model.value != []
    requires t.device.Some? && t.device.value != []
    ensures |m| == |t.model.value|
    ensures forall i :: 0 <= i < |m| ==> m[i] == if Alphanumeric(t.model.value[i]) then t.model.value[i] else 95
    ensures Qualifiers(t)
         == [Ascii("product:") + t.product.value, Ascii("model:") + m, Ascii("device:") + t.device.value]
    ensures Qualifiers(t.(product := None)) == Qualifiers(t)[1..] == Qualifiers(t.(product := Some([])))
    ensures Qualifiers(t.(device := None)) == Qualifiers(t)[..2] == Qualifiers(t.(device := Some([])))
    ensures Qualifiers(t.(model := None)) == [Qualifiers(t)[0], Qualifiers(t)[2]] == Qualifiers(t.(model := Some([])))
  {
    m := Sanitized(t.model.value);
    hide Ascii, Sanitized;
  }

  /** Every qualifier the long listing shows for a transport names that transport, also after sanitising. */
  lemma QualifierNames(t: Transport, q: seq<Byte>)
    requires q in Qualifiers(t)
    ensures Named(t, q)
  {
    assert |Ascii("product:")| > 0 && |Ascii("model:")| > 0 && |Ascii("device:")| > 0;
  }

  /** So giving it back as a serial number selects that transport exactly when no other permitted one answers
      to it and the transport is usable. */
  lemma QualifierSelects(ts: seq<Transport>, wanted: Wanted, k: nat, q: seq<Byte>)
    requires k < |ts| && q in Qualifiers(ts[k])
    ensures Selected(ts, wanted, Some(q)) == Chosen(k) <==>
      && ts[k].state != NoPerm && ts[k].state != Offline && ts[k].state != Unauthorized
      && forall j :: 0 <= j < |ts| && j != k && ts[j].state != NoPerm ==> !Named(ts[j], q)
    ensures ts[k].state != NoPerm ==>
      (exists j :: 0 <= j < |ts| && j != k && ts[j].state != NoPerm && Named(ts[j], q)) ==>
      Selected(ts, wanted, Some(q)) == Refused("more than one device")
  {
    QualifierNames(ts[k], q);
    hide Named, Qualifiers;
    SelectedExact(ts, wanted, Some(q), k);
    if j :| 0 <= j < |ts| && j != k && ts[j].state != NoPerm && Named(ts[j], q) {
      if ts[k].state != NoPerm {
        FittingAre(ts, wanted, Some(q), k);
        FittingAre(ts, wanted, Some(q), j);
        var ks := Fitting(ts, wanted, Some(q));
        var a :| 0 <= a < |ks| && ks[a] == k;
        var b :| 0 <= b < |ks| && ks[b] == j;
        assert a != b;
      }
    }
  }

  // ---------------------------------------------------------------- who is chosen, and what is said otherwise

  /** Neither short of permissions nor of the wrong kind: what an unnamed choice considers. */
  predicate Considered(t: Transport, usb: bool, emulator: bool) {
    t.state != NoPerm && ((usb && t.kind == UsbDevice) || (emulator && t.kind == LocalDevice))
  }

  /** Without a serial number a transport is chosen exactly when it is usable and the only one of its kind, of those
      the caller asked for, that is not short of permissions. */
  lemma KindSelects(ts: seq<Transport>, wanted: Wanted, k: nat)
    requires k < |ts|
    ensures var usb, emulator := wanted != WantLocal, wanted != WantUsb;
      Selected(ts, wanted, None) == Chosen(k) <==>
        && Considered(ts[k], usb, emulator) && ts[k].state != Offline && ts[k].state != Unauthorized
        && forall j :: 0 <= j < |ts| && j != k ==> !Considered(ts[j], usb, emulator)
  {
    SelectedExact(ts, wanted, None, k);
    hide Selected, Fitting, Usable;
    assert forall j :: 0 <= j < |ts| ==>
      (Fits(ts[j], wanted, None) <==> Considered(ts[j], wanted != WantLocal, wanted != WantUsb));
  }

  const COLON: Byte := 58

  /** A name without a colon is a serial number or a device path. */
  lemma PlainName(t: Transport, serial: seq<Byte>)
    requires serial != [] && COLON !in serial
    ensures Named(t, serial) <==> t.serial == Some(serial) || t.devpath == Some(serial)
  {
    ColonShows(serial, Ascii("product:"), t.product, false);
    ColonShows(serial, Ascii("model:"), t.model, true);
    ColonShows(serial, Ascii("device:"), t.device, false);
  }

  lemma ColonShows(toTest: seq<Byte>, prefix: seq<Byte>, qual: Option<seq<Byte>>, sanitize: bool)
    requires prefix != [] && prefix[|prefix| - 1] == COLON && toTest != []
    ensures QualMatches(toTest, prefix, qual, sanitize) ==> COLON in toTest
  {
    if QualMatches(toTest, prefix, qual, sanitize) {
      assert toTest[|prefix| - 1] == COLON;
    }
  }

  /** The empty name is that of every transport that lacks a qualifier, or whose serial number or path is empty. */
  lemma EmptyName(t: Transport)
    ensures Named(t, []) <==>
      || t.serial == Some([]) || t.devpath == Some([])
      || (t.product == None || t.product == Some([])) || (t.model == None || t.model == Some([]))
      || (t.device == None || t.device == Some([]))
  {}

  /** Giving a serial number or device path selects the transport that has it exactly when that one is usable and no
      other permitted one has it too. */
  lemma SerialSelects(ts: seq<Transport>, wanted: Wanted, k: nat, serial: seq<Byte>)
    requires k < |ts| && serial != [] && COLON !in serial
    ensures Selected(ts, wanted, Some(serial)) == Chosen(k) <==>
      && (ts[k].serial == Some(serial) || ts[k].devpath == Some(serial))
      && ts[k].state != NoPerm && ts[k].state != Offline && ts[k].state != Unauthorized
      && forall j :: 0 <= j < |ts| && j != k && ts[j].state != NoPerm ==>
           ts[j].serial != Some(serial) && ts[j].devpath != Some(serial)
  {
    SelectedExact(ts, wanted, Some(serial), k);
    forall j | 0 <= j < |ts|
      ensures Named(ts[j], serial) <==> ts[j].serial == Some(serial) || ts[j].devpath == Some(serial)
    {
      PlainName(ts[j], serial);
    }
    hide Selected, Fitting, Usable, Named;
  }

  lemma {:induction false} BarredIff(ts: seq<Transport>)
    ensures Barred(ts) <==> exists j :: 0 <= j < |ts| && ts[j].state == NoPerm
  {
    if ts != [] {
      BarredIff(ts[..|ts| - 1]);
      if Barred(ts[..|ts| - 1]) {
        var j :| 0 <= j < |ts| - 1 && ts[..|ts| - 1][j].state == NoPerm;
        assert ts[j].state == NoPerm;
      }
      if j :| 0 <= j < |ts| && ts[j].state == NoPerm {
        assert j < |ts| - 1 ==> ts[..|ts| - 1][j].state == NoPerm;
      }
    }
  }

  /** What is said when no transport fits. */
  lemma NoneFits(ts: seq<Transport>, wanted: Wanted, serial: Option<seq<Byte>>)
    requires forall j :: 0 <= j < |ts| ==> !Fits(ts[j], wanted, serial)
    ensures Selected(ts, wanted, serial) == Refused(
      if exists j :: 0 <= j < |ts| && ts[j].state == NoPerm then "insufficient permissions for device"
      else "device not found")
  {
    var ks := Fitting(ts, wanted, serial);
    BarredIff(ts);
    hide Fits, Fitting, Barred;
    if ks != [] {
      FittingAre(ts, wanted, serial, ks[0]);
    }
  }

  /** What is said when two transports fit. */
  lemma TwoFit(ts: seq<Transport>, wanted: Wanted, serial: Option<seq<Byte>>, i: nat, j: nat)
    requires i < j < |ts| && Fits(ts[i], wanted, serial) && Fits(ts[j], wanted, serial)
    ensures Selected(ts, wanted, serial) == Refused(
      if serial == None && wanted == WantLocal then "more than one emulator"
      else if serial == None && wanted == WantAny then "more than one device and emulator"
      else "more than one device")
  {
    var ks := Fitting(ts, wanted, serial);
    FittingAre(ts, wanted, serial, i);
    FittingAre(ts, wanted, serial, j);
    hide Fits, Fitting, Barred, Usable;
    assert i in ks && j in ks;
    assert |ks| > 1;
  }

  /** What is said when the only transport that fits cannot be used. */
  lemma OnlyUnusable(ts: seq<Transport>, wanted: Wanted, serial: Option<seq<Byte>>, k: nat)
    requires k < |ts| && Fits(ts[k], wanted, serial)
    requires forall j :: 0 <= j < |ts| && j != k ==> !Fits(ts[j], wanted, serial)
    ensures ts[k].state == Offline ==> Selected(ts, wanted, serial) == Refused("device offline")
    ensures ts[k].state == Unauthorized ==>
      Selected(ts, wanted, serial) ==
      Refused("device unauthorized. Please check the confirmation dialog on your device.")
  {
    OnlyFitting(ts, wanted, serial, k);
    hide Fits, Fitting, Barred, Crowded;
    assert Selected(ts, wanted, serial) == Usable(ts, k) by { hide Usable; }
    hide Selected;
  }
}
