/** Requests to the host server: the length-prefixed request of adb_client.c, the command text of commandline.c,
    and the smart socket of sockets.c that takes them apart again. */
module Framing {
  import opened Bytes

  const MAX_PAYLOAD: nat := 4096
  const COLON: Byte := 58

  // ---------------------------------------------------------------- hexadecimal lengths

  /** One digit as printf writes it with %x. */
  function HexDigit(d: nat): Byte
    requires d < 16
  {
    if d < 10 then 48 + d else 97 + (d - 10)
  }

  /** "%04x" of a number that fits. */
  function Hex4(n: nat): (s: seq<Byte>)
    requires n < 0x1_0000
    ensures |s| == 4
  {
    [HexDigit(n / 4096), HexDigit(n / 256 % 16), HexDigit(n / 16 % 16), HexDigit(n % 16)]
  }

  function HexValue(c: Byte): (v: Option<nat>)
    ensures v.Some? ==> v.value < 16
  {
    if 48 <= c <= 57 then Some(c - 48)
    else if 97 <= c <= 102 then Some(c - 97 + 10)
    else if 65 <= c <= 70 then Some(c - 65 + 10)
    else None
  }

  /** What the digits of `s` leave after `n`, in 32-bit arithmetic; nothing when one of them is no digit. */
  function Unhexed(n: nat, s: seq<Byte>): Option<nat>
    decreases |s|
  {
    if s == [] then Some(n)
    else if HexValue(s[0]) == None then None
    else Unhexed((n * 16) % 0x1_0000_0000 + HexValue(s[0]).value, s[1..])
  }

  method Unhex(s: seq<Byte>) returns (n: nat)
    ensures n == if Unhexed(0, s) == None then 0xffff_ffff else Unhexed(0, s).value
  {
    n := 0;
    for i := 0 to |s|
      invariant Unhexed(0, s) == Unhexed(n, s[i..])
    {
      assert s[i..][1..] == s[i + 1..];
      var v := HexValue(s[i]);
      if v == None { return 0xffff_ffff; }
      n := (n * 16) % 0x1_0000_0000 + v.value;
    }
    assert s[|s|..] == [];
  }

  lemma HexRoundTrip(n: nat)
    requires n < 0x1_0000
    ensures Unhexed(0, Hex4(n)) == Some(n)
  {
    var a, b, c, d := n / 4096, n / 256 % 16, n / 16 % 16, n % 16;
    Digits4(n);
    var w, x, y, z := HexDigit(a), HexDigit(b), HexDigit(c), HexDigit(d);
    assert [w, x, y, z][1..] == [x, y, z] && [x, y, z][1..] == [y, z] && [y, z][1..] == [z] && [z][1..] == [];
    hide HexDigit, HexValue;
    UnhexStep(0, a, [w, x, y, z]);
    UnhexStep(a, b, [x, y, z]);
    UnhexStep(a * 16 + b, c, [y, z]);
    UnhexStep((a * 16 + b) * 16 + c, d, [z]);
  }

  lemma Digits4(n: nat)
    requires n < 0x1_0000
    ensures n == ((n / 4096 * 16 + n / 256 % 16) * 16 + n / 16 % 16) * 16 + n % 16
  {}

  lemma UnhexStep(n: nat, d: nat, s: seq<Byte>)
    requires n < 0x1000_0000 && d < 16 && s != [] && s[0] == HexDigit(d)
    ensures Unhexed(n, s) == Unhexed(n * 16 + d, s[1..])
  {}

  // ---------------------------------------------------------------- the client's text

  datatype TransportType = Usb | Local | Any

  /** format_host_command, in a buffer the text fits in. */
  function HostCommand(command: seq<Byte>, ttype: TransportType, serial: Option<seq<Byte>>): seq<Byte> {
    match serial
    case Some(sn) => Ascii("host-serial:") + (sn + [COLON] + command)
    case None =>
      match ttype
      case Usb => Ascii("host-usb:") + command
      case Local => Ascii("host-local:") + command
      case Any => Ascii("host:") + command
  }

  /** What _adb_connect sends for a service; longer and empty ones are refused. */
  function Framed(service: seq<Byte>): Option<seq<Byte>> {
    if 1 <= |service| <= 1024 then Some(Hex4(|service|) + service) else None
  }

  // ---------------------------------------------------------------- skipping the serial number

  predicate StartsWith(s: seq<Byte>, p: seq<Byte>) {
    |p| <= |s| && s[..|p|] == p
  }

  predicate IsDigit(c: Byte) {
    48 <= c <= 57
  }

  predicate AllDigits(s: seq<Byte>, i: nat, n: nat)
    requires n <= |s|
  {
    forall j :: i <= j < n ==> IsDigit(s[j])
  }

  /** strchr from position `i` on. */
  function IndexOf(s: seq<Byte>, c: Byte, i: nat): (k: Option<nat>)
    requires i <= |s|
    ensures k.Some? ==> i <= k.value < |s| && s[k.value] == c && forall j :: i <= j < k.value ==> s[j] != c
    ensures k.None? ==> forall j :: i <= j < |s| ==> s[j] != c
    decreases |s| - i
  {
    if i == |s| then None else if s[i] == c then Some(i) else IndexOf(s, c, i + 1)
  }

  lemma IndexIs(s: seq<Byte>, c: Byte, i: nat, k: nat)
    requires i <= k < |s| && s[k] == c && forall j :: i <= j < k ==> s[j] != c
    ensures IndexOf(s, c, i) == Some(k)
  {
    var r := IndexOf(s, c, i);
    assert r.Some?;
    assert r.value <= k && r.value >= k;
  }

  /** The end of the digits that start at `i`. */
  function DigitsEnd(s: seq<Byte>, i: nat): (e: nat)
    requires i <= |s|
    ensures i <= e <= |s| && (forall j :: i <= j < e ==> IsDigit(s[j])) && (e < |s| ==> !IsDigit(s[e]))
    decreases |s| - i
  {
    if i < |s| && IsDigit(s[i]) then DigitsEnd(s, i + 1) else i
  }

  lemma {:induction false} DigitsEndIs(s: seq<Byte>, i: nat, e: nat)
    requires i <= e <= |s| && (forall j :: i <= j < e ==> IsDigit(s[j])) && (e < |s| ==> !IsDigit(s[e]))
    ensures DigitsEnd(s, i) == e
    decreases e - i
  {
    if i < e {
      DigitsEndIs(s, i + 1, e);
    }
  }

  /** The length of the qualifier prefix `s` starts with, or 0. */
  function PrefixLength(s: seq<Byte>): (n: nat)
    ensures n <= |s|
  {
    if StartsWith(s, Ascii("usb:")) then 4
    else if StartsWith(s, Ascii("product:")) then 8
    else if StartsWith(s, Ascii("model:")) then 6
    else if StartsWith(s, Ascii("device:")) then 7
    else 0
  }

  /** Where the serial number at the start of `s` ends. */
  function SerialEnd(s: seq<Byte>): (e: Option<nat>)
    ensures e.Some? ==> e.value < |s|
  {
    if PrefixLength(s) > 0 then IndexOf(s, COLON, PrefixLength(s))
    else
      match IndexOf(s, COLON, 0)
      case None => None
      case Some(k) =>
        var e := DigitsEnd(s, k + 1);
        if e > k + 1 && e < |s| && s[e] == COLON then Some(e) else Some(k)
  }

  /** skip_host_serial over a string without its terminator; the pointer as a position. */
  method SkipHostSerial(service: seq<Byte>) returns (serialEnd: Option<nat>)
    ensures serialEnd == SerialEnd(service)
  {
    var prefixes := ["usb:", "product:", "model:", "device:"];
    hide Ascii, StartsWith, PrefixLength, IndexOf;
    for i := 0 to |prefixes|
      invariant forall j :: 0 <= j < i ==> !StartsWith(service, Ascii(prefixes[j]))
    {
      if StartsWith(service, Ascii(prefixes[i])) {
        assert PrefixLength(service) == |prefixes[i]| by { OnePrefix(service, prefixes, i); }
        serialEnd := Strchr(service, COLON, |prefixes[i]|);
        return;
      }
    }
    OnePrefix(service, prefixes, |prefixes|);
    var firstColon := Strchr(service, COLON, 0);
    if firstColon == None {
      return None;
    }
    serialEnd := firstColon;
    if firstColon.value + 1 < |service| && IsDigit(service[firstColon.value + 1]) {
      var end := firstColon.value + 1;
      while end < |service| && IsDigit(service[end])
        invariant firstColon.value + 1 <= end <= |service|
        invariant DigitsEnd(service, end) == DigitsEnd(service, firstColon.value + 1)
      {
        end := end + 1;
      }
      assert end == DigitsEnd(service, firstColon.value + 1);
      if end < |service| && service[end] == COLON {
        serialEnd := Some(end);
      }
    }
  }

  lemma OnePrefix(s: seq<Byte>, prefixes: seq<string>, i: nat)
    requires prefixes == ["usb:", "product:", "model:", "device:"] && i <= 4
    requires forall j :: 0 <= j < i ==> !StartsWith(s, Ascii(prefixes[j]))
    requires i < 4 ==> StartsWith(s, Ascii(prefixes[i]))
    ensures PrefixLength(s) == if i < 4 then |prefixes[i]| else 0
  {
    assert i > 0 ==> !StartsWith(s, Ascii(prefixes[0]));
    assert i > 1 ==> !StartsWith(s, Ascii(prefixes[1]));
    assert i > 2 ==> !StartsWith(s, Ascii(prefixes[2]));
    assert i > 3 ==> !StartsWith(s, Ascii(prefixes[3]));
  }

  method Strchr(s: seq<Byte>, c: Byte, from: nat) returns (k: Option<nat>)
    requires from <= |s|
    ensures k == IndexOf(s, c, from)
  {
    var i := from;
    while i < |s|
      invariant from <= i <= |s| && IndexOf(s, c, from) == IndexOf(s, c, i)
    {
      if s[i] == c {
        assert IndexOf(s, c, i) == Some(i);
        return Some(i);
      }
      i := i + 1;
    }
    assert IndexOf(s, c, |s|) == None;
    k := None;
  }

  // ---------------------------------------------------------------- the smart socket

  datatype Request = Host(ttype: TransportType, serial: Option<seq<Byte>>,
      command: seq<Byte>) | Connect(service: seq<Byte>)

  /** How smart_socket_enqueue reads the text of a request. */
  function Understood(text: seq<Byte>): Request {
    if StartsWith(text, Ascii("host-serial:")) then
      var service := text[|Ascii("host-serial:")|..];
      match SerialEnd(service)
      case None => Host(Any, None, service)
      case Some(e) => Host(Any, Some(service[..e]), service[e + 1..])
    else if StartsWith(text, Ascii("host-usb:")) then Host(Usb, None, text[|Ascii("host-usb:")|..])
    else if StartsWith(text, Ascii("host-local:")) then Host(Local, None, text[|Ascii("host-local:")|..])
    else if StartsWith(text, Ascii("host:")) then Host(Any, None, text[|Ascii("host:")|..])
    else Connect(text)
  }

  datatype Outcome = Waiting(data: seq<Byte>) | Failed | Acts(request: Request)

  /** What the bytes received so far amount to. */
  function Decoded(data: seq<Byte>): Outcome {
    if |data| < 4 then Waiting(data)
    else
      match Unhexed(0, data[..4])
      case None => Failed
      case Some(len) =>
        if len < 1 || len > 1024 then Failed
        else if len + 4 > |data| then Waiting(data)
        else Acts(Understood(CString(data[4..len + 4])))
  }

  function Enqueued(pkt: Option<seq<Byte>>, d: seq<Byte>): Outcome {
    match pkt
    case None => Decoded(d)
    case Some(first) => if |first| + |d| > MAX_PAYLOAD then Failed else Decoded(first + d)
  }

  /** The smart socket; `pkt` is the data of its packet, if it holds one. */
  class SmartSocket {
    var pkt: Option<seq<Byte>>

    constructor ()
      ensures pkt == None
    {
      pkt := None;
    }

    /** smart_socket_enqueue up to the point where it acts on the request. */
    method Enqueue(d: seq<Byte>) returns (r: Outcome)
      modifies this
      ensures r == Enqueued(old(pkt), d)
      ensures r.Waiting? ==> pkt == Some(r.data)
    {
      if pkt == None {
        pkt := Some(d);
      } else {
        if |pkt.value| + |d| > MAX_PAYLOAD { return Failed; }
        pkt := Some(pkt.value + d);
      }
      var data := pkt.value;
      if |data| < 4 { return Waiting(data); }
      var len := Unhex(data[..4]);
      if len < 1 || len > 1024 { return Failed; }
      if len + 4 > |data| { return Waiting(data); }
      var text := CString(data[4..len + 4]);
      var request := Understand(text);
      r := Acts(request);
    }
  }

  method Understand(text: seq<Byte>) returns (r: Request)
    ensures r == Understood(text)
  {
    if StartsWith(text, Ascii("host-serial:")) {
      var service := text[|Ascii("host-serial:")|..];
      var end := SkipHostSerial(service);
      if end == None { return Host(Any, None, service); }
      return Host(Any, Some(service[..end.value]), service[end.value + 1..]);
    }
    if StartsWith(text, Ascii("host-usb:")) { return Host(Usb, None, text[|Ascii("host-usb:")|..]); }
    if StartsWith(text, Ascii("host-local:")) { return Host(Local, None, text[|Ascii("host-local:")|..]); }
    if StartsWith(text, Ascii("host:")) { return Host(Any, None, text[|Ascii("host:")|..]); }
    return Connect(text);
  }

  // ---------------------------------------------------------------- requests in fragments

  /** What comes of a stream of fragments; once the socket has acted or failed it takes no more. */
  function Fed(pkt: Option<seq<Byte>>, fragments: seq<seq<Byte>>): Outcome
    decreases |fragments|
  {
    if fragments == [] then Waiting(if pkt.Some? then pkt.value else [])
    else
      match Enqueued(pkt, fragments[0])
      case Waiting(data) => Fed(Some(data), fragments[1..])
      case done => done
  }

  predicate PlainText(s: seq<Byte>) {
    forall i :: 0 <= i < |s| ==> s[i] != 0
  }

  /** A proper beginning of a framed request decides nothing, the whole of it the request. */
  lemma DecodedFrame(service: seq<Byte>, n: nat)
    requires 1 <= |service| <= 1024 && PlainText(service) && n <= |service| + 4
    ensures var frame := Framed(service).value;
      Decoded(frame[..n]) == if n < |frame| then Waiting(frame[..n]) else Acts(Understood(service))
  {
    var hex := Hex4(|service|);
    var frame := hex + service;
    HexRoundTrip(|service|);
    hide Hex4, Unhexed, Understood, CString;
    assert frame[..n][..Min(n, 4)] == hex[..Min(n, 4)];
    assert hex[..4] == hex;
    if n == |frame| {
      assert frame[..n] == frame;
      assert frame[4..|service| + 4] == service;
      CStringIs(service, |service|);
      assert service[..|service|] == service;
    }
  }

  lemma OneFragment(frame: seq<Byte>, n: nat, d: seq<Byte>, others: seq<Byte>, pkt: Option<seq<Byte>>)
    requires n + |d| + |others| <= |frame| <= 1028 && frame[n..n + |d + others|] == d + others
    requires pkt == if n == 0 then None else Some(frame[..n])
    ensures var m := n + |d|; frame[m..m + |others|] == others && Enqueued(pkt, d) == Decoded(frame[..m])
  {
    var m, both := n + |d|, frame[n..n + |d + others|];
    assert d == both[..|d|] && others == both[|d|..];
    assert frame[m..m + |others|] == both[|d|..];
    assert frame[..m] == frame[..n] + d;
    assert n == 0 ==> frame[..m] == d;
    hide Decoded;
  }

  /** From the point where `n` bytes have come in. */
  lemma {:induction false} FedFrame(service: seq<Byte>, n: nat, pkt: Option<seq<Byte>>, fragments: seq<seq<Byte>>)
    requires 1 <= |service| <= 1024 && PlainText(service) && n < |service| + 4
    requires pkt == if n == 0 then None else Some(Framed(service).value[..n])
    requires forall f <- fragments :: f != []
    requires n + |Flat(fragments)| <= |service| + 4
    requires Framed(service).value[n..n + |Flat(fragments)|] == Flat(fragments)
    ensures Fed(pkt, fragments) ==
      if n + |Flat(fragments)| < |service| + 4 then Waiting(Framed(service).value[..n + |Flat(fragments)|])
      else Acts(Understood(service))
    decreases |fragments|
  {
    var frame := Framed(service).value;
    if fragments == [] {
    } else {
      var d, others := fragments[0], Flat(fragments[1..]);
      var m := n + |d|;
      assert d in fragments;
      assert Flat(fragments) == d + others;
      OneFragment(frame, n, d, others, pkt);
      DecodedFrame(service, m);
      hide Decoded, Enqueued, Understood, Flat, Framed, PlainText;
      if m == |frame| {
        assert others == [];
      } else {
        assert forall f <- fragments[1..] :: f in fragments;
        FedFrame(service, m, Some(frame[..m]), fragments[1..]);
      }
    }
  }

  lemma {:induction false} FlatPrefix(q: seq<seq<Byte>>, k: nat)
    requires k <= |q|
    ensures |Flat(q[..k])| <= |Flat(q)| && Flat(q)[..|Flat(q[..k])|] == Flat(q[..k])
    ensures k < |q| && (forall f <- q :: f != []) ==> |Flat(q[..k])| < |Flat(q)|
  {
    if k == 0 {
      if q != [] { assert q[0] in q; }
    } else {
      assert q[..k][1..] == q[1..][..k - 1];
      assert forall f <- q[1..] :: f in q;
      FlatPrefix(q[1..], k - 1);
    }
  }

  /** Every service of 1 to 1024 bytes, however its framed request is split: nothing is decided before the
      last fragment, and with it the socket acts on exactly that service. */
  lemma RequestRoundTrip(service: seq<Byte>, fragments: seq<seq<Byte>>)
    requires 1 <= |service| <= 1024 && PlainText(service)
    requires (forall f <- fragments :: f != []) && Flat(fragments) == Framed(service).value
    ensures Fed(None, fragments) == Acts(Understood(service))
    ensures forall k :: 0 <= k < |fragments| ==> Fed(None, fragments[..k]) == Waiting(Flat(fragments[..k]))
  {
    var frame := Framed(service).value;
    assert frame[0..|frame|] == frame;
    hide Flat, Fed, Understood;
    FedFrame(service, 0, None, fragments);
    forall k | 0 <= k < |fragments| ensures Fed(None, fragments[..k]) == Waiting(Flat(fragments[..k])) {
      StillWaiting(service, fragments, k);
    }
  }

  lemma StillWaiting(service: seq<Byte>, fragments: seq<seq<Byte>>, k: nat)
    requires 1 <= |service| <= 1024 && PlainText(service) && k < |fragments|
    requires (forall f <- fragments :: f != []) && Flat(fragments) == Framed(service).value
    ensures Fed(None, fragments[..k]) == Waiting(Flat(fragments[..k]))
  {
    var frame, first := Framed(service).value, fragments[..k];
    FlatPrefix(fragments, k);
    assert forall f <- first :: f in fragments;
    var n := |Flat(first)|;
    assert frame[0..n] == frame[..n];
    hide Flat, Fed, Understood;
    FedFrame(service, 0, None, first);
  }

  // ---------------------------------------------------------------- serial numbers

  /** The serial numbers skip_host_serial separates from a command: behind a qualifier prefix no colon;
      otherwise host:port with decimal digits as the port, or no colon at all, in which case the command must
      not begin with digits and a colon. The four prefix names themselves never work. */
  predicate Separable(serial: seq<Byte>, command: seq<Byte>) {
    if PrefixLength(serial) > 0 then COLON !in serial[PrefixLength(serial)..]
    else if PrefixLength(serial + [COLON]) > 0 then false
    else
      match IndexOf(serial, COLON, 0)
      case None => !DigitsThenColon(command)
      case Some(h) => h + 1 < |serial| && AllDigits(serial, h + 1, |serial|)
  }

  predicate DigitsThenColon(s: seq<Byte>) {
    0 < DigitsEnd(s, 0) < |s| && s[DigitsEnd(s, 0)] == COLON
  }

  lemma PrefixBefore(serial: seq<Byte>, rest: seq<Byte>, p: seq<Byte>)
    requires p != [] && p[|p| - 1] == COLON && COLON !in p[..|p| - 1]
    ensures StartsWith(serial + [COLON] + rest, p) <==> StartsWith(serial, p) || serial + [COLON] == p
  {
    var s := serial + [COLON] + rest;
    if |p| <= |serial| {
      assert s[..|p|] == serial[..|p|];
    } else {
      assert |p| > |serial| + 1 ==> p[|serial|] == p[..|p| - 1][|serial|];
      assert s[..|serial| + 1] == serial + [COLON];
      assert s[|serial|] == COLON;
    }
  }

  /** The four prefixes end with their only colon, and no two begin alike. */
  lemma Qualifiers()
    ensures forall name <- ["usb:", "product:", "model:", "device:"] ::
      var p := Ascii(name); p != [] && p[|p| - 1] == COLON && COLON !in p[..|p| - 1]
    ensures Ascii("usb:")[0] == 117 && Ascii("product:")[0] == 112 && Ascii("model:")[0] == 109
        && Ascii("device:")[0] == 100
  {}

  lemma PrefixLengths(serial: seq<Byte>, rest: seq<Byte>)
    ensures PrefixLength(serial) > 0 ==> PrefixLength(serial + [COLON] + rest) == PrefixLength(serial)
    ensures PrefixLength(serial) == 0 && PrefixLength(serial + [COLON]) > 0 ==>
      PrefixLength(serial + [COLON] + rest) == |serial| + 1
    ensures PrefixLength(serial + [COLON]) == 0 ==>
      PrefixLength(serial) == 0 && PrefixLength(serial + [COLON] + rest) == 0
  {
    Qualifiers();
    assert serial + [COLON] + [] == serial + [COLON];
    var u, p, m, d := "usb:", "product:", "model:", "device:";
    assert u in [u, p, m, d] && p in [u, p, m, d] && m in [u, p, m, d] && d in [u, p, m, d];
    FirstByte(serial);
    FirstByte(serial + [COLON]);
    FirstByte(serial + [COLON] + rest);
    hide Ascii;
    PrefixBefore(serial, rest, Ascii(u));
    PrefixBefore(serial, rest, Ascii(p));
    PrefixBefore(serial, rest, Ascii(m));
    PrefixBefore(serial, rest, Ascii(d));
    PrefixBefore(serial, [], Ascii(u));
    PrefixBefore(serial, [], Ascii(p));
    PrefixBefore(serial, [], Ascii(m));
    PrefixBefore(serial, [], Ascii(d));
    hide StartsWith;
  }

  lemma FirstByte(s: seq<Byte>)
    ensures StartsWith(s, Ascii("usb:")) ==> s[0] == 117
    ensures StartsWith(s, Ascii("product:")) ==> s[0] == 112
    ensures StartsWith(s, Ascii("model:")) ==> s[0] == 109
    ensures StartsWith(s, Ascii("device:")) ==> s[0] == 100
  {
    Qualifiers();
  }

  /** For every serial number and command: skipping the serial in "serial:command" ends at the colon between
      the two exactly when they are separable. */
  lemma SerialEndExact(serial: seq<Byte>, command: seq<Byte>)
    ensures SerialEnd(serial + [COLON] + command) == Some(|serial|) <==> Separable(serial, command)
  {
    var s := serial + [COLON] + command;
    PrefixLengths(serial, command);
    hide PrefixLength;
    if PrefixLength(serial) > 0 {
      var n := PrefixLength(serial);
      assert forall j :: n <= j < |serial| ==> s[j] == serial[n..][j - n];
      if COLON !in serial[n..] {
        IndexIs(s, COLON, n, |serial|);
      } else {
        var j :| 0 <= j < |serial[n..]| && serial[n..][j] == COLON;
        assert s[n + j] == COLON;
      }
    } else if PrefixLength(serial + [COLON]) == 0 {
      if IndexOf(serial, COLON, 0) == None {
        PlainSerial(serial, command);
      } else {
        HostPort(serial, command, IndexOf(serial, COLON, 0).value);
      }
    }
  }

  /** A command that starts with digits and a colon takes the serial number with it: "dev:5:x" is cut after "dev:5". */
  lemma SerialEndWrong()
    ensures SerialEnd(Ascii("dev") + [COLON] + Ascii("5:x")) == Some(5)
  {
    var s := Ascii("dev") + [COLON] + Ascii("5:x");
    assert |Ascii("dev")| == 3 && |Ascii("5:x")| == 3 && |s| == 7;
    assert s[0] == 100 && s[1] == 101 && s[2] == 118 && s[3] == COLON && s[4] == 53 && s[5] == COLON;
    FirstByte(s);
    assert !StartsWith(s, Ascii("device:")) by { Agree(s, Ascii("device:"), 3); }
    hide Ascii, StartsWith;
    IndexIs(s, COLON, 0, 3);
    DigitsEndIs(s, 4, 5);
  }

  lemma PlainSerial(serial: seq<Byte>, command: seq<Byte>)
    requires IndexOf(serial, COLON, 0) == None && PrefixLength(serial + [COLON] + command) == 0
    ensures SerialEnd(serial + [COLON] + command) == Some(|serial|) <==> !DigitsThenColon(command)
  {
    var s := serial + [COLON] + command;
    hide PrefixLength;
    IndexIs(s, COLON, 0, |serial|);
    DigitsShift(serial + [COLON], command);
  }

  lemma DigitsShift(a: seq<Byte>, b: seq<Byte>)
    ensures DigitsEnd(a + b, |a|) == |a| + DigitsEnd(b, 0)
  {
    var e := DigitsEnd(b, 0);
    assert forall j :: 0 <= j < |b| ==> (a + b)[|a| + j] == b[j];
    assert forall j :: |a| <= j < |a| + e ==> (a + b)[j] == b[j - |a|];
    DigitsEndIs(a + b, |a|, |a| + e);
  }

  lemma HostPort(serial: seq<Byte>, command: seq<Byte>, h: nat)
    requires IndexOf(serial, COLON, 0) == Some(h) && PrefixLength(serial + [COLON] + command) == 0
    ensures SerialEnd(serial + [COLON] + command) == Some(|serial|) <==>
      h + 1 < |serial| && AllDigits(serial, h + 1, |serial|)
  {
    var s, n := serial + [COLON] + command, |serial|;
    hide PrefixLength, SerialEnd, DigitsEnd, AllDigits;
    assert s[..n] == serial && s[n] == COLON;
    SameDigits(s, h + 1, n);
    assert forall j :: 0 <= j <= h ==> s[j] == s[..n][j];
    IndexIs(s, COLON, 0, h);
    SecondColon(s, h, n);
  }

  lemma SameDigits(s: seq<Byte>, i: nat, n: nat)
    requires n <= |s|
    ensures AllDigits(s, i, n) == AllDigits(s[..n], i, n)
  {
    assert forall j :: i <= j < n ==> s[j] == s[..n][j];
  }

  lemma SecondColon(s: seq<Byte>, h: nat, n: nat)
    requires PrefixLength(s) == 0 && IndexOf(s, COLON, 0) == Some(h) && h < n < |s| && s[n] == COLON
    ensures SerialEnd(s) == Some(n) <==> h + 1 < n && AllDigits(s, h + 1, n)
  {
    PortEnd(s, h + 1, n);
    hide PrefixLength, IndexOf, DigitsEnd, AllDigits;
  }

  /** The digits from `i` on reach the colon at `n` exactly when there is nothing else before it. */
  lemma PortEnd(s: seq<Byte>, i: nat, n: nat)
    requires i <= n < |s| && s[n] == COLON
    ensures DigitsEnd(s, i) <= n
    ensures DigitsEnd(s, i) == n <==> AllDigits(s, i, n)
  {
    if AllDigits(s, i, n) {
      DigitsEndIs(s, i, n);
    }
  }

  /** The whole way: a command for a device, framed, split and taken apart again, reaches the server with the
      same serial number and command exactly when the two are separable. */
  lemma HostSerialRoundTrip(serial: seq<Byte>, command: seq<Byte>, ttype: TransportType, fragments: seq<seq<Byte>>)
    requires var text := HostCommand(command, ttype, Some(serial));
      |text| <= 1024 && Framed(text).Some? && Flat(fragments) == Framed(text).value
    requires PlainText(serial) && PlainText(command) && forall f <- fragments :: f != []
    ensures Fed(None, fragments) == Acts(Host(Any, Some(serial), command)) <==> Separable(serial, command)
  {
    var p, service := Ascii("host-serial:"), serial + [COLON] + command;
    var text := p + service;
    assert PlainText(p);
    RequestRoundTrip(text, fragments);
    SerialEndExact(serial, command);
    hide Fed, Flat, SerialEnd, Separable;
    assert text[..|p|] == p && text[|p|..] == service;
    var e := SerialEnd(service);
    if e.Some? && service[..e.value] == serial {
      assert e.value == |serial|;
    }
    assert service[..|serial|] == serial && service[|serial| + 1..] == command;
  }

  /** Without a serial number the command always arrives, for the kind of transport it was meant for. */
  lemma HostRoundTrip(command: seq<Byte>, ttype: TransportType, fragments: seq<seq<Byte>>)
    requires var text := HostCommand(command, ttype, None);
      |text| <= 1024 && Framed(text).Some? && Flat(fragments) == Framed(text).value
    requires PlainText(command) && forall f <- fragments :: f != []
    ensures Fed(None, fragments) == Acts(Host(ttype, None, command))
  {
    var p := match ttype case Usb => Ascii("host-usb:") case Local => Ascii("host-local:") case Any => Ascii("host:");
    var text := p + command;
    assert PlainText(p);
    RequestRoundTrip(text, fragments);
    assert text[..|p|] == p && text[|p|..] == command;
    hide Fed, Flat;
    OtherPrefix(text, ttype);
  }

  predicate ForHost(text: seq<Byte>) {
    StartsWith(text, Ascii("host-serial:")) || StartsWith(text, Ascii("host-usb:"))
    || StartsWith(text, Ascii("host-local:")) || StartsWith(text, Ascii("host:"))
  }

  lemma ConnectsIff(text: seq<Byte>)
    ensures Understood(text) == Connect(text) <==> !ForHost(text)
  {
    hide StartsWith, SerialEnd, Ascii;
  }

  /** A service is taken for one of the device, and asked for under its whole text, exactly when it has none of the
      four prefixes. */
  lemma ServiceRoundTrip(service: seq<Byte>, fragments: seq<seq<Byte>>)
    requires 1 <= |service| <= 1024 && PlainText(service)
    requires (forall f <- fragments :: f != []) && Flat(fragments) == Framed(service).value
    ensures Fed(None, fragments) == Acts(Connect(service)) <==> !ForHost(service)
  {
    RequestRoundTrip(service, fragments);
    ConnectsIff(service);
  }

  /** The digits a length may be written with. */
  lemma HexValueIs(c: Byte, v: nat)
    requires v < 16
    ensures HexValue(c) == Some(v) <==> c == Ascii("0123456789abcdef")[v] || c == Ascii("0123456789ABCDEF")[v]
  {
    var lower, upper := "0123456789abcdef", "0123456789ABCDEF";
    assert Ascii(lower)[v] == lower[v] as int && Ascii(upper)[v] == upper[v] as int;
    if v < 10 {
      assert lower[v] as int == 48 + v && upper[v] as int == 48 + v;
    } else {
      assert lower[v] as int == 87 + v && upper[v] as int == 55 + v;
    }
  }

  /** The number that four digits say, in either case of letters. */
  function Said(s: seq<Byte>): Option<nat>
    requires |s| == 4
  {
    var a, b, c, d := HexValue(s[0]), HexValue(s[1]), HexValue(s[2]), HexValue(s[3]);
    if a == None || b == None || c == None || d == None then None
    else Some(4096 * a.value + 256 * b.value + 16 * c.value + d.value)
  }

  lemma OneDigit(n: nat, s: seq<Byte>)
    requires n < 0x1000_0000 && s != []
    ensures Unhexed(n, s) == if HexValue(s[0]) == None then None else Unhexed(n * 16 + HexValue(s[0]).value, s[1..])
  {}

  lemma SaidIs(s: seq<Byte>)
    requires |s| == 4
    ensures Unhexed(0, s) == Said(s)
  {
    assert s[1..][1..] == s[2..] && s[2..][1..] == s[3..] && s[3..][1..] == [];
    OneDigit(0, s);
    hide HexValue;
    if HexValue(s[0]).Some? {
      var a := HexValue(s[0]).value;
      OneDigit(a, s[1..]);
      if HexValue(s[1]).Some? {
        var b := a * 16 + HexValue(s[1]).value;
        OneDigit(b, s[2..]);
        if HexValue(s[2]).Some? { OneDigit(b * 16 + HexValue(s[2]).value, s[3..]); }
      }
    }
  }

  /** A request is refused with its length, as soon as that is there, exactly when it is not four digits that say 1 to
      1024; and whatever it says when it outgrows its packet. */
  lemma LengthRefused(d: seq<Byte>, first: seq<Byte>)
    ensures |d| < 4 ==> Enqueued(None, d) == Waiting(d)
    ensures |d| >= 4 ==> (Enqueued(None, d) == Failed <==> Said(d[..4]) == None || !(1 <= Said(d[..4]).value <= 1024))
    ensures |first| + |d| > 4096 ==> Enqueued(Some(first), d) == Failed
  {
    if |d| >= 4 { SaidIs(d[..4]); }
    hide Said, Unhexed, Understood, CString;
  }

  /** The prefixes tell the requests apart. */
  lemma OtherPrefix(text: seq<Byte>, ttype: TransportType)
    requires StartsWith(text,
      match ttype case Usb => Ascii("host-usb:") case Local => Ascii("host-local:") case Any => Ascii("host:"))
    ensures !StartsWith(text, Ascii("host-serial:"))
    ensures StartsWith(text, Ascii("host-usb:")) <==> ttype == Usb
    ensures StartsWith(text, Ascii("host-local:")) <==> ttype == Local
  {
    var sn, usb, local, any := Ascii("host-serial:"), Ascii("host-usb:"), Ascii("host-local:"), Ascii("host:");
    assert any[4] == 58 && sn[4] == usb[4] == local[4] == 45;
    assert sn[5] == 115 && usb[5] == 117 && local[5] == 108;
    hide Ascii;
    Agree(text, any, 4);
    Agree(text, sn, 4);
    Agree(text, usb, 4);
    Agree(text, local, 4);
    Agree(text, sn, 5);
    Agree(text, usb, 5);
    Agree(text, local, 5);
  }

  lemma Agree(s: seq<Byte>, p: seq<Byte>, k: nat)
    requires k < |p|
    ensures StartsWith(s, p) ==> k < |s| && s[k] == p[k]
  {
    if StartsWith(s, p) {
      assert s[k] == s[..|p|][k];
    }
  }
}
