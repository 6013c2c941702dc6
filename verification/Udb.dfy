/** The chunked file and log transfers of the UDB protocol: the device handlers of udb_debug.c against the
    client loops of file.cpp and shell.cpp, both ends sharing one packet size. */
module Udb {
  import opened Bytes
  import opened LogRing

  // ---------------------------------------------------------------- packets

  const PROT_DEFAULT: nat := 64
  const WORD: nat := 0x1_0000_0000

  const PULL_INIT: Byte := 0x11
  const PULL_PULLOUT: Byte := 0x12
  const PUSH_INIT: Byte := 0x21
  const PUSH_PROC: Byte := 0x22
  const MSH_PULLOUT: Byte := 0x07

  /** Packet sizes both ends can hold a header and some payload in; 64, 512 and 1470 are in use. */
  predicate PacketSize(p: nat) {
    16 <= p <= 65541
  }

  /** Numbers are copied into packets in host order, which is little-endian at both ends. */
  function GetU32(s: seq<Byte>): (n: nat)
    requires |s| >= 4
    ensures n < WORD
  {
    UnLeBound(s[..4]);
    Powers();
    UnLe(s[..4])
  }

  function GetU16(s: seq<Byte>): (n: nat)
    requires |s| >= 2
    ensures n < 0x1_0000
  {
    UnLeBound(s[..2]);
    Powers();
    UnLe(s[..2])
  }

  /** set_udb_channel_header, then the payload, in a zeroed packet. */
  function Packet(chan: Byte, payload: seq<Byte>, p: nat): (r: seq<Byte>)
    requires 4 + |payload| <= p
    ensures |r| == p && r[3] == chan && r[4..4 + |payload|] == payload
    ensures forall i :: 4 + |payload| <= i < p ==> r[i] == 0
  {
    var h: seq<Byte> := ['u' as int, 'd' as int, 'b' as int, chan];
    assert (h + payload)[4..] == payload;
    Pad(h + payload, p)
  }

  // ---------------------------------------------------------------- chunked pullout

  /** The control struct of a pullout channel: the buffer, its used size, what was copied out. */
  datatype Chunks = Chunks(pullout: seq<Byte>, used: nat, offset: nat)

  predicate ChunksOk(c: Chunks) {
    c.offset <= c.used <= |c.pullout| && c.used < WORD
  }

  /** udb_debug_pullfile_pullout, udb_debug_msh_pullout: one request for `cp` bytes. */
  function PulloutState(c: Chunks, cp: nat): Chunks {
    if (c.offset + cp) % WORD > c.used then c
    else if (c.offset + cp) % WORD == c.used then Chunks([], 0, 0)
    else c.(offset := (c.offset + cp) % WORD)
  }

  function PulloutReply(c: Chunks, cp: nat, p: nat): (r: seq<Byte>)
    requires ChunksOk(c) && cp <= p && cp < WORD
    ensures |r| == p
  {
    if (c.offset + cp) % WORD > c.used || c.offset + cp > |c.pullout| then Zeros(p)
    else Pad(c.pullout[c.offset..c.offset + cp], p)
  }

  class Device {
    const protSize: nat
    var files: map<seq<Byte>, seq<Byte>>
    var pull: Chunks
    var msh: Chunks
    var pushing: seq<seq<Byte>>   // the path of the open file, if any
    const ring: Ring

    ghost predicate Valid()
      reads this, ring, ring.buf
    {
      && PacketSize(protSize) && ChunksOk(pull) && ChunksOk(msh) && |pushing| <= 1
      && (forall path <- pushing :: path in files) && ring.Valid()
    }

    constructor (p: nat, ring: Ring)
      requires PacketSize(p) && ring.Valid()
      ensures Valid() && protSize == p && this.ring == ring && files == map[]
    {
      protSize, files := p, map[];
      pull, msh, pushing, this.ring := Chunks([], 0, 0), Chunks([], 0, 0), [], ring;
    }

    /** udb_debug_pullfile_init: load the file, answer its size; `resp` is whatever the reply buffer held. */
    method PullInit(cmd: seq<Byte>, resp: seq<Byte>) returns (r: seq<Byte>)
      requires Valid() && |cmd| == |resp| == protSize
      modifies this`pull
      ensures Valid() && |r| == protSize
      ensures var path := CString(cmd[4..]);
        if path in files
        then pull == Chunks(files[path], |files[path]| % WORD, 0) && r[..4] == Le(|files[path]| % WORD, 4)
        else pull == Chunks([], 0, 0) && r[..4] == Le(0, 4)
    {
      var path := CString(cmd[4..]);
      if path in files {
        pull := Chunks(files[path], |files[path]| % WORD, 0);
      } else {
        pull := Chunks([], 0, 0);
      }
      r := Le(pull.used, 4) + resp[4..];
    }

    method PullPullout(cmd: seq<Byte>) returns (r: seq<Byte>)
      requires Valid() && |cmd| == protSize && GetU32(cmd[4..]) <= protSize
      modifies this`pull
      ensures Valid() && |r| == protSize
      ensures pull == PulloutState(old(pull), GetU32(cmd[4..])) && r
          == PulloutReply(old(pull), GetU32(cmd[4..]), protSize)
    {
      var cp := GetU32(cmd[4..]);
      r := PulloutReply(pull, cp, protSize);
      pull := PulloutState(pull, cp);
    }

    /** udb_debug_msh_cmd_log, after udb_debug_msh has cleared its buffer. */
    method MshLog(resp: seq<Byte>) returns (r: seq<Byte>)
      requires Valid() && |resp| == protSize
      modifies this`msh
      ensures Valid() && |r| == protSize
      ensures var text := Last(ring.log, LOG_BUF_SIZE);
        msh == Chunks(text + Zeros(LOG_BUF_SIZE - |text|), |text|, 0) && r[..4] == Le(|text|, 4)
    {
      var n := ring.used;
      var data := ring.Dump(n);
      ghost var text := Last(ring.log, LOG_BUF_SIZE);
      assert data == text;
      msh := Chunks(data + Zeros(LOG_BUF_SIZE - n), n, 0);
      r := Le(n, 4) + resp[4..];
    }

    method MshPullout(cmd: seq<Byte>) returns (r: seq<Byte>)
      requires Valid() && |cmd| == protSize && GetU32(cmd[4..]) <= protSize
      modifies this`msh
      ensures Valid() && |r| == protSize
      ensures msh == PulloutState(old(msh), GetU32(cmd[4..])) && r == PulloutReply(old(msh), GetU32(cmd[4..]), protSize)
    {
      var cp := GetU32(cmd[4..]);
      r := PulloutReply(msh, cp, protSize);
      msh := PulloutState(msh, cp);
    }

    /** udb_debug_pushfile_init on a path that can be opened for writing. */
    method PushInit(cmd: seq<Byte>)
      requires Valid() && |cmd| == protSize
      modifies this`files, this`pushing
      ensures Valid() && pushing == [CString(cmd[8..])] && files == old(files)[CString(cmd[8..]) := []]
    {
      var path := CString(cmd[8..]);
      pushing, files := [path], files[path := []];
    }

    /** udb_debug_pushfile_proc: the length is one byte with the default packet size, otherwise two. */
    method PushProc(cmd: seq<Byte>)
      requires Valid() && |cmd| == protSize && pushing != []
      requires protSize == PROT_DEFAULT ==> 5 + cmd[4] <= protSize
      requires protSize != PROT_DEFAULT ==> 6 + GetU16(cmd[4..]) <= protSize
      modifies this`files
      ensures Valid()
      ensures var d := if protSize == PROT_DEFAULT then cmd[5..5 + cmd[4]] else cmd[6..6 + GetU16(cmd[4..])];
        files == old(files)[pushing[0] := old(files[pushing[0]]) + d]
    {
      var path := pushing[0];
      if protSize == PROT_DEFAULT {
        var n := cmd[4];
        files := files[path := files[path] + cmd[5..5 + n]];
      } else {
        var n := GetU16(cmd[4..]);
        files := files[path := files[path] + cmd[6..6 + n]];
      }
    }

    method PushFini()
      requires Valid()
      modifies this`pushing
      ensures Valid() && pushing == []
    {
      pushing := [];
    }
  }

  // ---------------------------------------------------------------- the client

  /** A request for `cp` bytes, read back by the device. */
  lemma RequestSize(chan: Byte, cp: nat, p: nat)
    requires PacketSize(p) && cp < WORD
    ensures GetU32(Packet(chan, Le(cp, 4), p)[4..]) == cp
  {
    var r := Packet(chan, Le(cp, 4), p);
    assert r[4..][..4] == r[4..8];
    LeRoundTrip(cp, 4);
    Powers();
  }

  /** A path copied into a packet at `at`, read back as a C string. */
  lemma PathRoundTrip(chan: Byte, lead: seq<Byte>, path: seq<Byte>, p: nat)
    requires 4 + |lead| + |path| < p && forall i :: 0 <= i < |path| ==> path[i] != 0
    ensures CString(Packet(chan, lead + path, p)[4 + |lead|..]) == path
  {
    var r, at := Packet(chan, lead + path, p), 4 + |lead|;
    assert r[4..at + |path|] == lead + path;
    assert r[at..][..|path|] == r[4..at + |path|][|lead|..];
    assert forall i :: 0 <= i < |path| ==> r[at..][i] == r[at..][..|path|][i];
    CStringIs(r[at..], |path|);
  }

  /** One chunk request against a channel that has delivered `got` of `total` bytes of `data`. */
  lemma OneChunk(data: seq<Byte>, total: nat, got: nat, cp: nat, p: nat)
    requires got <= total <= |data| && total < WORD && PacketSize(p) && cp == Min(total - got, p)
    ensures var c := Chunks(data, total, got);
      && PulloutReply(c, cp, p) == Pad(data[got..got + cp], p)
      && PulloutState(c, cp) == if got + cp == total then Chunks([], 0, 0) else Chunks(data, total, got + cp)
  {}

  /** The size announced in a reply. */
  lemma Announced(r: seq<Byte>, total: nat)
    requires |r| >= 4 && r[..4] == Le(total, 4) && total < WORD
    ensures GetU32(r) == total
  {
    LeRoundTrip(total, 4);
    Powers();
  }

  lemma AnnouncedShort(r: seq<Byte>, n: nat)
    requires |r| >= 2 && r[..2] == Le(n, 2) && n < 0x1_0000
    ensures GetU16(r) == n
  {
    LeRoundTrip(n, 2);
    Powers();
  }

  /** One PULLOUT exchange of pull_file. */
  method PullChunk(dev: Device, cp: nat, ghost data: seq<Byte>, ghost total: nat,
      ghost got: nat) returns (readBuf: seq<Byte>)
    requires dev.Valid() && got <= total <= |data| && total < WORD
    requires dev.pull == Chunks(data, total, got) && cp == Min(total - got, dev.protSize)
    modifies dev`pull
    ensures dev.Valid() && |readBuf| == dev.protSize && readBuf[..cp] == data[got..got + cp]
    ensures got + cp < total ==> dev.pull == Chunks(data, total, got + cp)
  {
    var p := dev.protSize;
    RequestSize(PULL_PULLOUT, cp, p);
    OneChunk(data, total, got, cp, p);
    readBuf := dev.PullPullout(Packet(PULL_PULLOUT, Le(cp, 4), p));
  }

  /** The INIT exchange of pull_file: the size the device announces. */
  method PullStart(dev: Device, path: seq<Byte>, junk: seq<Byte>) returns (getSize: nat)
    requires dev.Valid() && |junk| == dev.protSize
    requires 4 + |path| < dev.protSize && forall i :: 0 <= i < |path| ==> path[i] != 0
    modifies dev`pull
    ensures dev.Valid()
    ensures var data := if path in dev.files then dev.files[path] else [];
      getSize == |data| % WORD && dev.pull == Chunks(data, getSize, 0)
  {
    var p := dev.protSize;
    assert [] + path == path;
    PathRoundTrip(PULL_INIT, [], path, p);
    hide Packet, Le, UnLe, GetU32, CString;
    var readBuf := dev.PullInit(Packet(PULL_INIT, path, p), junk);
    ghost var data := if path in dev.files then dev.files[path] else [];
    Announced(readBuf, |data| % WORD);
    getSize := GetU32(readBuf);
  }

  /** pull_file: everything written to the local file. */
  method PullFile(dev: Device, path: seq<Byte>, junk: seq<Byte>) returns (local: seq<Byte>)
    requires dev.Valid() && |junk| == dev.protSize
    requires 4 + |path| < dev.protSize && forall i :: 0 <= i < |path| ==> path[i] != 0
    modifies dev`pull
    ensures dev.Valid()
    ensures local == if path in dev.files then dev.files[path][..|dev.files[path]| % WORD] else []
    ensures path in dev.files ==> (local == dev.files[path] <==> |dev.files[path]| < WORD)
  {
    var p := dev.protSize;
    var getSize := PullStart(dev, path, junk);
    ghost var data := if path in dev.files then dev.files[path] else [];
    ghost var total := |data| % WORD;
    var readBuf;
    local := [];
    hide Packet, Le, UnLe, GetU32, CString, Device.Valid;
    while true
      invariant dev.Valid() && |local| + getSize == total && local == data[..|local|]
      invariant dev.pull == Chunks(data, total, |local|)
      decreases getSize
    {
      var cp := if getSize < p then getSize else p;
      readBuf := PullChunk(dev, cp, data, total, |local|);
      local := local + readBuf[..cp];
      getSize := getSize - cp;
      if getSize == 0 { break; }
    }
    AnnouncedIsAll(data);
  }

  /** A copy up to the announced size is the file itself exactly when its size fits the unsigned int. */
  lemma AnnouncedIsAll(file: seq<Byte>)
    ensures file[..|file| % WORD] == file <==> |file| < WORD
  {}

  /** One PROC exchange of push_file, in either length encoding. */
  method PushChunk(dev: Device, chunk: seq<Byte>)
    requires dev.Valid() && dev.pushing != []
    requires |chunk| <= dev.protSize - if dev.protSize == PROT_DEFAULT then 5 else 6
    modifies dev`files
    ensures dev.Valid() && dev.pushing[0] in old(dev.files)
    ensures dev.files == old(dev.files)[dev.pushing[0] := old(dev.files)[dev.pushing[0]] + chunk]
  {
    var p, cp := dev.protSize, |chunk|;
    if p == PROT_DEFAULT {
      OneByteLength(chunk, p);
      dev.PushProc(Packet(PUSH_PROC, [cp] + chunk, p));
    } else {
      TwoByteLength(chunk, p);
      dev.PushProc(Packet(PUSH_PROC, Le(cp, 2) + chunk, p));
    }
  }

  /** push_file: the whole local file `content`, into a new file at `path`. */
  method PushFile(dev: Device, path: seq<Byte>, content: seq<Byte>)
    requires dev.Valid() && 8 + |path| < dev.protSize && forall i :: 0 <= i < |path| ==> path[i] != 0
    modifies dev`files, dev`pushing
    ensures dev.Valid() && dev.pushing == []
    ensures dev.files == old(dev.files)[path := content[..|content| % WORD]]
    ensures dev.files[path] == content <==> |content| < WORD
  {
    var p := dev.protSize;
    var fileSize := |content| % WORD;
    assert Le(fileSize, 4) + path == Le(fileSize, 4) + path;
    PathRoundTrip(PUSH_INIT, Le(fileSize, 4), path, p);
    dev.PushInit(Packet(PUSH_INIT, Le(fileSize, 4) + path, p));
    hide Packet, Le, UnLe, CString, Device.Valid;
    PushBody(dev, path, content, fileSize);
    dev.PushFini();
    AnnouncedIsAll(content);
  }

  /** The PROC loop of push_file. */
  method PushBody(dev: Device, path: seq<Byte>, content: seq<Byte>, fileSize: nat)
    requires dev.Valid() && dev.pushing == [path] && fileSize <= |content|
    requires path in dev.files && dev.files[path] == []
    modifies dev`files
    ensures dev.Valid() && dev.files == old(dev.files)[path := content[..fileSize]]
  {
    var p := dev.protSize;
    var left: nat, pos: nat := fileSize, 0;
    var max := if p == PROT_DEFAULT then p - 4 - 1 else p - 4 - 2;
    hide Packet, Le, UnLe, CString, Device.Valid;
    while true
      invariant dev.Valid() && dev.pushing == [path] && left + pos == fileSize
      invariant dev.files == old(dev.files)[path := content[..pos]]
      decreases left
    {
      var cp := if left < max then left else max;
      var chunk := content[pos..pos + cp];
      PushChunk(dev, chunk);
      assert content[..pos] + chunk == content[..pos + cp];
      left, pos := left - cp, pos + cp;
      if left == 0 { break; }
    }
  }

  /** A length field and the bytes after it, as the device finds them in the packet. */
  lemma FieldAndBody(chan: Byte, field: seq<Byte>, body: seq<Byte>, p: nat)
    requires 4 + |field| + |body| <= p
    ensures var r := Packet(chan, field + body, p);
      && r[4..][..|field|] == field && r[4 + |field|..4 + |field| + |body|] == body
  {
    var r := Packet(chan, field + body, p);
    hide Packet;
    var both := r[4..4 + |field| + |body|];
    assert both[..|field|] == field && both[|field|..] == body;
    assert r[4..][..|field|] == both[..|field|];
    assert r[4 + |field|..4 + |field| + |body|] == both[|field|..];
  }

  lemma OneByteLength(chunk: seq<Byte>, p: nat)
    requires 5 + |chunk| <= p && |chunk| < 256
    ensures var r := Packet(PUSH_PROC, [|chunk|] + chunk, p); r[4] == |chunk| && r[5..5 + r[4]] == chunk
  {
    FieldAndBody(PUSH_PROC, [|chunk|], chunk, p);
    var r := Packet(PUSH_PROC, [|chunk|] + chunk, p);
    hide Packet;
    assert r[4] == r[4..][..1][0];
  }

  lemma TwoByteLength(chunk: seq<Byte>, p: nat)
    requires 6 + |chunk| <= p && |chunk| < 0x1_0000
    ensures var r := Packet(PUSH_PROC, Le(|chunk|, 2) + chunk, p);
      GetU16(r[4..]) == |chunk| && r[6..6 + |chunk|] == chunk
  {
    hide Packet, Le, UnLe, Pow256;
    assert Pow256(2) == 0x1_0000 by { Powers(); }
    LeRoundTrip(|chunk|, 2);
    FieldAndBody(PUSH_PROC, Le(|chunk|, 2), chunk, p);
    AnnouncedShort(Packet(PUSH_PROC, Le(|chunk|, 2) + chunk, p)[4..], |chunk|);
  }

  /** msh_exec_cmd with the command log: everything printed. */
  method MshExecLog(dev: Device, junk: seq<Byte>) returns (printed: seq<Byte>)
    requires dev.Valid() && |junk| == dev.protSize
    requires forall i :: 0 <= i < |dev.ring.log| ==> dev.ring.log[i] != 0   // rlog_printf2buf puts C strings
    modifies dev`msh
    ensures dev.Valid() && printed == Last(dev.ring.log, LOG_BUF_SIZE)
  {
    var p := dev.protSize;
    var readBuf := dev.MshLog(junk);
    ghost var text := Last(dev.ring.log, LOG_BUF_SIZE);
    ghost var data := text + Zeros(LOG_BUF_SIZE - |text|);
    assert forall i :: 0 <= i < |text| ==> text[i] != 0;
    Announced(readBuf, |text|);
    var getSize := GetU32(readBuf);
    printed := [];
    hide Packet, Le, UnLe, GetU32, CString, Last;
    while true
      invariant dev.Valid()
      invariant |printed| + getSize == |text| && printed == text[..|printed|]
      invariant dev.msh == Chunks(data, |text|, |printed|)
      decreases getSize
    {
      var cp := if getSize < p then getSize else p;
      readBuf := MshChunk(dev, cp, text, |printed|);
      printed := printed + CString(readBuf);
      getSize := getSize - cp;
      if getSize == 0 { break; }
    }
  }

  /** One PULLOUT exchange of msh_exec_cmd; the reply is printed as a C string. */
  method MshChunk(dev: Device, cp: nat, ghost text: seq<Byte>, ghost got: nat) returns (readBuf: seq<Byte>)
    requires dev.Valid() && got <= |text| <= LOG_BUF_SIZE && forall i :: 0 <= i < |text| ==> text[i] != 0
    requires dev.msh == Chunks(text + Zeros(LOG_BUF_SIZE - |text|), |text|, got) && cp
        == Min(|text| - got, dev.protSize)
    modifies dev`msh
    ensures dev.Valid() && CString(readBuf) == text[got..got + cp]
    ensures got + cp < |text| ==> dev.msh == Chunks(text + Zeros(LOG_BUF_SIZE - |text|), |text|, got + cp)
  {
    var p := dev.protSize;
    ghost var data := text + Zeros(LOG_BUF_SIZE - |text|);
    RequestSize(MSH_PULLOUT, cp, p);
    OneChunk(data, |text|, got, cp, p);
    readBuf := dev.MshPullout(Packet(MSH_PULLOUT, Le(cp, 4), p));
    ghost var chunk := text[got..got + cp];
    assert data[got..got + cp] == chunk;
    assert readBuf[..cp] == chunk;
    assert forall i :: 0 <= i < cp ==> readBuf[i] == chunk[i];
    CStringIs(readBuf, cp);
  }
}
