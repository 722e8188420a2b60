/** The connection handshake: what its builders write, the scanner reads back. */
module Handshake {
  import opened Basics
  import opened Wire
  import opened WireLoops
  import opened Scanner

  // --- the messages as field lists

  const DEFAULT_CAPABILITIES: seq<Field> :=
    [VarintField(1, 6), VarintField(2, 2), VarintField(3, 1), VarintField(4, 2),
     VarintField(6, 2), VarintField(7, 2), VarintField(8, 2), VarintField(9, 1)]

  const RESOLUTION: seq<Field> := [VarintField(1, 5120), VarintField(2, 2880)]

  function Video(resolution: Bytes): seq<Field> {
    [VarintField(1, 2), VarintField(2, 6), VarintField(4, 1), BytesField(5, resolution), BytesField(6, []),
     VarintField(7, 1), VarintField(8, 30000000), VarintField(11, 60)]
  }

  function Codec(first: nat, second: nat): seq<Field> {
    [VarintField(1, 120), VarintField(2, first), VarintField(3, 3840), VarintField(4, 2160), VarintField(5, second)]
  }

  const MODES: seq<(nat, nat)> := [(2, 1), (2, 3), (1, 1), (1, 3)]

  function CodecFields(modes: seq<(nat, nat)>): (fs: seq<Field>)
    ensures |fs| == |modes|
  {
    seq(|modes|, i requires 0 <= i < |modes| => BytesField(4, EncodeFields(Codec(modes[i].0, modes[i].1))))
  }

  function ConnectHead(resolution: Bytes): seq<Field> {
    [VarintField(1, 1), VarintField(2, TWO64 - 1), BytesField(3, EncodeFields(Video(resolution)))]
  }

  function ConnectTail(resolution: Bytes, device: Bytes, version: Bytes, capabilities: Bytes): seq<Field> {
    [BytesField(6, resolution + EncodeField(VarintField(3, 120))), BytesField(7, resolution), VarintField(8, 4),
     BytesField(9, device), VarintField(10, 1), BytesField(11, capabilities), BytesField(12, version)]
  }

  /** ConnectOptions: the captured defaults, with device, capabilities and version of the peer. */
  function ConnectFields(device: Bytes, version: Bytes, capabilities: Bytes): seq<Field> {
    var resolution := EncodeFields(RESOLUTION);
    ConnectHead(resolution) + CodecFields(MODES) + ConnectTail(resolution, device, version, capabilities)
  }

  function Capabilities(given: Option<Bytes>): Bytes {
    if given.None? then EncodeFields(DEFAULT_CAPABILITIES) else given.value
  }

  function ControlFields(seqNo: nat, timestamp: nat, capabilities: Bytes): seq<Field> {
    (if seqNo != 0 then [VarintField(1, seqNo)] else [])
    + [VarintField(2, timestamp), BytesField(3, EncodeFields([BytesField(4, capabilities)]))]
  }

  function TextFields(seqNo: nat, timestamp: nat): seq<Field> {
    [VarintField(1, seqNo), VarintField(2, timestamp), BytesField(13, EncodeFields([BytesField(1, [1, 2])]))]
  }

  /** The answer handleControlEcho sends. */
  function EchoInner(args: Bytes, flags: Bytes): seq<Field> {
    [VarintField(1, 1), BytesField(2, args), BytesField(4, flags)]
  }

  function EchoFields(seqNo: nat, timestamp: nat, args: Bytes, flags: Bytes): seq<Field> {
    [VarintField(1, seqNo), VarintField(2, timestamp), BytesField(3, EncodeFields(EchoInner(args, flags)))]
  }

  // --- the builders

  method DefaultCapabilities() returns (out: Bytes)
    ensures out == EncodeFields(DEFAULT_CAPABILITIES)
  {
    Nothing();
    hide EncodeFields;
    var pairs: seq<(nat, nat)> := [(1, 6), (2, 2), (3, 1), (4, 2), (6, 2), (7, 2), (8, 2), (9, 1)];
    ghost var fs: seq<Field> := [];
    out := [];
    for i := 0 to |pairs|
      invariant fs == DEFAULT_CAPABILITIES[..i] && out == EncodeFields(fs)
    {
      assert DEFAULT_CAPABILITIES[i] == VarintField(pairs[i].0, pairs[i].1);
      fs, out := PutVarint(fs, out, pairs[i].0, pairs[i].1);
    }
    assert DEFAULT_CAPABILITIES[..8] == DEFAULT_CAPABILITIES;
  }

  /** One more field at the end of a buffer. */
  method PutVarint(ghost fs: seq<Field>, buf: Bytes, num: nat, value: nat) returns (ghost more: seq<Field>, out: Bytes)
    requires buf == EncodeFields(fs)
    ensures more == fs + [VarintField(num, value)]
    ensures out == EncodeFields(fs + [VarintField(num, value)])
  {
    hide EncodeFields, EncodeField;
    more := fs + [VarintField(num, value)];
    EncodeConcat(fs, [VarintField(num, value)]);
    EncodeOne(VarintField(num, value));
    out := AppendFieldVarint(buf, num, value);
  }

  method PutBytes(ghost fs: seq<Field>, buf: Bytes, num: nat, b: Bytes) returns (ghost more: seq<Field>, out: Bytes)
    requires buf == EncodeFields(fs)
    ensures more == fs + [BytesField(num, b)]
    ensures out == EncodeFields(fs + [BytesField(num, b)])
  {
    hide EncodeFields, EncodeField;
    more := fs + [BytesField(num, b)];
    EncodeConcat(fs, [BytesField(num, b)]);
    EncodeOne(BytesField(num, b));
    out := AppendFieldBytes(buf, num, b);
  }

  method BuildVideo(resolution: Bytes) returns (out: Bytes)
    ensures out == EncodeFields(Video(resolution))
  {
    Nothing();
    hide EncodeFields;
    ghost var fs: seq<Field> := [];
    fs, out := PutVarint(fs, [], 1, 2);
    fs, out := PutVarint(fs, out, 2, 6);
    fs, out := PutVarint(fs, out, 4, 1);
    fs, out := PutBytes(fs, out, 5, resolution);
    fs, out := PutBytes(fs, out, 6, []);
    fs, out := PutVarint(fs, out, 7, 1);
    fs, out := PutVarint(fs, out, 8, 30000000);
    fs, out := PutVarint(fs, out, 11, 60);
    assert fs == Video(resolution);
  }

  method BuildCodec(first: nat, second: nat) returns (out: Bytes)
    ensures out == EncodeFields(Codec(first, second))
  {
    Nothing();
    hide EncodeFields;
    ghost var fs: seq<Field> := [];
    fs, out := PutVarint(fs, [], 1, 120);
    fs, out := PutVarint(fs, out, 2, first);
    fs, out := PutVarint(fs, out, 3, 3840);
    fs, out := PutVarint(fs, out, 4, 2160);
    fs, out := PutVarint(fs, out, 5, second);
    assert fs == Codec(first, second);
  }

  lemma Nothing()
    ensures EncodeFields([]) == []
  {
  }

  method PutCodecs(ghost fs: seq<Field>, buf: Bytes) returns (ghost more: seq<Field>, out: Bytes)
    requires buf == EncodeFields(fs)
    ensures more == fs + CodecFields(MODES)
    ensures out == EncodeFields(fs + CodecFields(MODES))
  {
    hide EncodeFields, Codec;
    more, out := fs, buf;
    ghost var all := CodecFields(MODES);
    for i := 0 to |MODES|
      invariant more == fs + all[..i] && out == EncodeFields(more)
    {
      assert all[..i + 1] == all[..i] + [all[i]];
      var codec := BuildCodec(MODES[i].0, MODES[i].1);
      more, out := PutBytes(more, out, 4, codec);
    }
    assert all[..|MODES|] == all;
  }

  method PutHead(resolution: Bytes) returns (out: Bytes)
    ensures out == EncodeFields(ConnectHead(resolution))
  {
    Nothing();
    hide EncodeFields, Video;
    var video := BuildVideo(resolution);
    ghost var fs: seq<Field> := [];
    fs, out := PutVarint(fs, [], 1, 1);
    fs, out := PutVarint(fs, out, 2, TWO64 - 1);
    fs, out := PutBytes(fs, out, 3, video);
    assert fs == ConnectHead(resolution);
  }

  method PutTail(ghost fs: seq<Field>, buf: Bytes, resolution: Bytes, device: Bytes, version: Bytes,
                 capabilities: Bytes)
    returns (ghost more: seq<Field>, out: Bytes)
    requires buf == EncodeFields(fs)
    ensures more == fs + ConnectTail(resolution, device, version, capabilities)
    ensures out == EncodeFields(fs + ConnectTail(resolution, device, version, capabilities))
  {
    hide EncodeFields, EncodeField;
    var larger := AppendFieldVarint(resolution, 3, 120);
    more, out := PutBytes(fs, buf, 6, larger);
    more, out := PutBytes(more, out, 7, resolution);
    more, out := PutVarint(more, out, 8, 4);
    more, out := PutBytes(more, out, 9, device);
    more, out := PutVarint(more, out, 10, 1);
    more, out := PutBytes(more, out, 11, capabilities);
    more, out := PutBytes(more, out, 12, version);
  }

  /** ConnectOptions. */
  method ConnectOptions(device: Bytes, version: Bytes, given: Option<Bytes>) returns (out: Bytes)
    ensures out == EncodeFields(ConnectFields(device, version, Capabilities(given)))
  {
    Nothing();
    hide EncodeFields, EncodeField, DEFAULT_CAPABILITIES, ConnectHead, ConnectTail, CodecFields;
    var capabilities: Bytes;
    if given.None? { capabilities := DefaultCapabilities(); } else { capabilities := given.value; }
    ghost var rs: seq<Field> := [];
    var resolution: Bytes;
    rs, resolution := PutVarint(rs, [], 1, 5120);
    rs, resolution := PutVarint(rs, resolution, 2, 2880);
    assert rs == RESOLUTION;
    out := PutHead(resolution);
    ghost var fs := ConnectHead(resolution);
    fs, out := PutCodecs(fs, out);
    fs, out := PutTail(fs, out, resolution, device, version, capabilities);
  }

  method ControlHandshake(seqNo: nat, timestamp: nat, given: Option<Bytes>) returns (out: Bytes)
    ensures out == EncodeFields(ControlFields(seqNo, timestamp, Capabilities(given)))
  {
    Nothing();
    hide EncodeFields, EncodeField, DEFAULT_CAPABILITIES;
    var capabilities: Bytes;
    if given.None? { capabilities := DefaultCapabilities(); } else { capabilities := given.value; }
    ghost var ins: seq<Field> := [];
    var inner: Bytes;
    ins, inner := PutBytes([], [], 4, capabilities);
    assert ins == [BytesField(4, capabilities)];
    out := [];
    ghost var fs: seq<Field> := [];
    if seqNo != 0 { fs, out := PutVarint(fs, out, 1, seqNo); }
    fs, out := PutVarint(fs, out, 2, timestamp);
    fs, out := PutBytes(fs, out, 3, inner);
    assert fs == ControlFields(seqNo, timestamp, capabilities);
  }

  method TextHandshake(seqNo: nat, timestamp: nat) returns (out: Bytes)
    ensures out == EncodeFields(TextFields(seqNo, timestamp))
  {
    Nothing();
    hide EncodeFields, EncodeField;
    ghost var ins, fs: seq<Field> := [], [];
    var list: Bytes;
    ins, list := PutBytes([], [], 1, [1, 2]);
    assert ins == [BytesField(1, [1, 2])];
    fs, out := PutVarint(fs, [], 1, seqNo);
    fs, out := PutVarint(fs, out, 2, timestamp);
    fs, out := PutBytes(fs, out, 13, list);
    assert fs == TextFields(seqNo, timestamp);
  }

  /** The answer built by handleControlEcho. */
  method ControlEcho(seqNo: nat, timestamp: nat, args: Bytes, flags: Bytes) returns (out: Bytes)
    ensures out == EncodeFields(EchoFields(seqNo, timestamp, args, flags))
  {
    Nothing();
    hide EncodeFields, EncodeField;
    ghost var ins, fs: seq<Field> := [], [];
    var inner: Bytes;
    ins, inner := PutVarint([], [], 1, 1);
    ins, inner := PutBytes(ins, inner, 2, args);
    ins, inner := PutBytes(ins, inner, 4, flags);
    assert ins == EchoInner(args, flags);
    fs, out := PutVarint([], [], 1, seqNo);
    fs, out := PutVarint(fs, out, 2, timestamp);
    fs, out := PutBytes(fs, out, 3, inner);
    assert fs == EchoFields(seqNo, timestamp, args, flags);
  }

  // --- reading back

  lemma {:induction false} VarintsAreShort(fs: seq<Field>)
    requires forall f <- fs :: f.VarintField? && Writable(f)
    ensures |EncodeFields(fs)| <= 20 * |fs|
  {
    if fs != [] {
      var f := fs[0];
      assert f in fs && forall g <- fs[1..] :: g in fs;
      SixtyFourBits(Tag(f.num, 0));
      SixtyFourBits(f.value);
      VarintsAreShort(fs[1..]);
      hide EncodeVarint;
    }
  }

  lemma VideoIsShort(resolution: Bytes)
    requires |resolution| <= 1000
    ensures |EncodeFields(Video(resolution))| <= 2000
  {
    var front, back := [VarintField(1, 2), VarintField(2, 6), VarintField(4, 1)],
        [VarintField(7, 1), VarintField(8, 30000000), VarintField(11, 60)];
    var middle := [BytesField(5, resolution), BytesField(6, [])];
    VarintsAreShort(front);
    VarintsAreShort(back);
    BytesAreShort(BytesField(5, resolution));
    BytesAreShort(BytesField(6, []));
    EncodeConcat([BytesField(5, resolution)], [BytesField(6, [])]);
    EncodeOne(BytesField(5, resolution));
    EncodeOne(BytesField(6, []));
    hide EncodeFields, EncodeField;
    assert middle == [BytesField(5, resolution)] + [BytesField(6, [])];
    EncodeConcat(front, middle);
    EncodeConcat(front + middle, back);
    assert Video(resolution) == front + middle + back;
  }

  lemma BytesAreShort(f: Field)
    requires f.BytesField? && Writable(f)
    ensures |EncodeField(f)| <= 20 + |f.bytes|
  {
    SixtyFourBits(Tag(f.num, 2));
    SixtyFourBits(|f.bytes|);
    hide EncodeVarint;
  }

  lemma HeadIsWritable(resolution: Bytes)
    requires |resolution| <= 1000
    ensures AllWritable(ConnectHead(resolution))
  {
    VideoIsShort(resolution);
    hide EncodeFields, Video;
  }

  lemma CodecsAreWritable()
    ensures AllWritable(CodecFields(MODES))
  {
    forall i: nat | i < 4 ensures Writable(CodecFields(MODES)[i]) {
      VarintsAreShort(Codec(MODES[i].0, MODES[i].1));
    }
    hide EncodeFields;
  }

  lemma TailIsWritable(resolution: Bytes, device: Bytes, version: Bytes, capabilities: Bytes)
    requires |resolution| <= 1000 && |device| < TWO64 && |version| < TWO64 && |capabilities| < TWO64
    ensures AllWritable(ConnectTail(resolution, device, version, capabilities))
  {
    VarintsAreShort([VarintField(3, 120)]);
    EncodeOne(VarintField(3, 120));
    hide EncodeFields, EncodeField;
  }

  lemma ConnectIsWritable(device: Bytes, version: Bytes, capabilities: Bytes)
    requires |device| < TWO64 && |version| < TWO64 && |capabilities| < TWO64
    ensures AllWritable(ConnectFields(device, version, capabilities))
  {
    VarintsAreShort(RESOLUTION);
    hide EncodeFields, ConnectHead, ConnectTail, CodecFields, Writable;
    var resolution := EncodeFields(RESOLUTION);
    HeadIsWritable(resolution);
    CodecsAreWritable();
    TailIsWritable(resolution, device, version, capabilities);
  }

  /** The receiver finds exactly the device ID, the capabilities and the version that were put in. */
  lemma ConnectReadsBack(device: Bytes, version: Bytes, given: Option<Bytes>)
    requires |device| < TWO64 && |version| < TWO64 && |Capabilities(given)| < TWO64
    ensures var b := EncodeFields(ConnectFields(device, version, Capabilities(given)));
            && PbField(b, 9) == Some(device) && PbField(b, 11) == Some(Capabilities(given))
               && PbField(b, 12) == Some(version)
            && PbVarint(b, 1) == Some(1) && PbVarint(b, 8) == Some(4)
  {
    hide EncodeFields, EncodeField, PbField, PbVarint, Capabilities;
    var capabilities := Capabilities(given);
    var fs := ConnectFields(device, version, capabilities);
    ConnectIsWritable(device, version, capabilities);
    ScannerAgrees(fs, 9);
    ScannerAgrees(fs, 11);
    ScannerAgrees(fs, 12);
    ScannerAgrees(fs, 1);
    ScannerAgrees(fs, 8);
    Skips(fs, 10);
    hide FirstBytes, FirstVarint;
  }

  /** Capabilities the peer asks for replace the default ones, in either handshake. */
  lemma OverrideReadsBack(device: Bytes, version: Bytes, own: Bytes, seqNo: nat, timestamp: nat)
    requires |device| < TWO64 && |version| < TWO64 && |own| < TWO64 && seqNo < TWO64 && timestamp < TWO64
    requires |EncodeFields([BytesField(4, own)])| < TWO64
    ensures PbField(EncodeFields(ConnectFields(device, version, Capabilities(Some(own)))), 11) == Some(own)
    ensures var b := EncodeFields(ControlFields(seqNo, timestamp, Capabilities(Some(own))));
            PbField(b, 3).Some? && PbField(PbField(b, 3).value, 4) == Some(own)
  {
    assert Capabilities(Some(own)) == own;
    hide EncodeFields, PbField, PbVarint, Capabilities, ConnectFields, ControlFields, ParseControlEcho;
    ConnectReadsBack(device, version, Some(own));
    ControlReadsBack(seqNo, timestamp, own);
  }

  /** What the scanner finds in the last fields of ConnectOptions, once it has passed the first ten. */
  lemma Skips(fs: seq<Field>, n: nat)
    requires n == 10 && |fs| == 14
    requires forall i :: 0 <= i < 10 ==> fs[i].num < 9
    requires fs[0] == VarintField(1, 1) && fs[9] == VarintField(8, 4) && forall i :: 0 <= i < 9 ==> fs[i].num != 8
    requires fs[10].BytesField? && fs[10].num == 9 && fs[11] == VarintField(10, 1)
    requires fs[12].BytesField? && fs[12].num == 11 && fs[13].BytesField? && fs[13].num == 12
    ensures FirstBytes(fs, 9) == Some(fs[10].bytes) && FirstBytes(fs, 11) == Some(fs[12].bytes)
            && FirstBytes(fs, 12) == Some(fs[13].bytes)
    ensures FirstVarint(fs, 1) == Some(1) && FirstVarint(fs, 8) == Some(4)
  {
    FirstAt(fs, 9, 10);
    FirstAt(fs, 11, 12);
    FirstAt(fs, 12, 13);
    FirstAt(fs, 8, 9);
  }

  /** The first field with a number is the one found. */
  lemma {:induction false} FirstAt(fs: seq<Field>, want: nat, i: nat)
    requires i < |fs| && fs[i].num == want && forall j :: 0 <= j < i ==> fs[j].num != want
    ensures fs[i].BytesField? ==> FirstBytes(fs, want) == Some(fs[i].bytes)
    ensures fs[i].VarintField? ==> FirstVarint(fs, want) == Some(fs[i].value)
  {
    if i > 0 { FirstAt(fs[1..], want, i - 1); }
  }

  /** parseControlEcho: sequence number and feature flags of a well-formed echo. */
  function ParseControlEcho(data: Bytes): Option<(nat, Bytes)> {
    var remote := PbVarint(data, 1);
    if remote.None? || remote.value == 0 then None
    else
      var outer := PbField(data, 3);
      if outer.None? then None
      else
        var action, flags := PbVarint(outer.value, 1), PbField(outer.value, 4);
        if action != Some(1) || flags.None? || flags.value == [] then None else Some((remote.value, flags.value))
  }

  method ParseControlEchoLoop(data: Bytes) returns (r: Option<(nat, Bytes)>)
    ensures r == ParseControlEcho(data)
  {
    hide PbField, PbVarint;
    var remote := PbVarintLoop(data, 1);
    if remote.None? || remote.value == 0 { return None; }
    var outer := PbFieldLoop(data, 3);
    if outer.None? { return None; }
    var action := PbVarintLoop(outer.value, 1);
    if action.None? || action.value != 1 { return None; }
    var flags := PbFieldLoop(outer.value, 4);
    if flags.None? || |flags.value| == 0 { return None; }
    return Some((remote.value, flags.value));
  }

  /** Only action 1 is an echo. */
  lemma EchoIsExact(seqNo: nat, timestamp: nat, action: nat, args: Bytes, flags: Bytes)
    requires seqNo < TWO64 && timestamp < TWO64 && action < TWO64 && |args| < TWO64 && |flags| < TWO64
    requires |EncodeFields([VarintField(1, action), BytesField(2, args), BytesField(4, flags)])| < TWO64
    ensures var ins := [VarintField(1, action), BytesField(2, args), BytesField(4, flags)];
            var fs := [VarintField(1, seqNo), VarintField(2, timestamp), BytesField(3, EncodeFields(ins))];
            ParseControlEcho(EncodeFields(fs))
            == if seqNo != 0 && action == 1 && flags != [] then Some((seqNo, flags)) else None
  {
    hide EncodeFields, PbField, PbVarint;
    var ins := [VarintField(1, action), BytesField(2, args), BytesField(4, flags)];
    var fs := [VarintField(1, seqNo), VarintField(2, timestamp), BytesField(3, EncodeFields(ins))];
    ScannerAgrees(fs, 1);
    ScannerAgrees(fs, 3);
    ScannerAgrees(ins, 1);
    ScannerAgrees(ins, 4);
    FirstAt(fs, 1, 0);
    FirstAt(fs, 3, 2);
    FirstAt(ins, 1, 0);
    FirstAt(ins, 4, 2);
    hide FirstBytes, FirstVarint;
  }

  /** The echo is understood exactly when its sequence number is not zero and there are flags; then both come back. */
  lemma EchoInverts(seqNo: nat, timestamp: nat, args: Bytes, flags: Bytes)
    requires seqNo < TWO64 && timestamp < TWO64 && |args| < TWO64 && |flags| < TWO64
    requires |EncodeFields(EchoInner(args, flags))| < TWO64
    ensures ParseControlEcho(EncodeFields(EchoFields(seqNo, timestamp, args, flags)))
            == if seqNo != 0 && flags != [] then Some((seqNo, flags)) else None
  {
    hide EncodeFields, ParseControlEcho;
    EchoIsExact(seqNo, timestamp, 1, args, flags);
  }

  /** A control handshake carries its capabilities, but it is no echo: it has no action. */
  lemma ControlReadsBack(seqNo: nat, timestamp: nat, capabilities: Bytes)
    requires seqNo < TWO64 && timestamp < TWO64 && |capabilities| < TWO64
    requires |EncodeFields([BytesField(4, capabilities)])| < TWO64
    ensures var b := EncodeFields(ControlFields(seqNo, timestamp, capabilities));
            && PbVarint(b, 2) == Some(timestamp) && PbVarint(b, 1) == (if seqNo != 0 then Some(seqNo) else None)
            && PbField(b, 3).Some? && PbField(PbField(b, 3).value, 4) == Some(capabilities)
            && ParseControlEcho(b) == None
  {
    hide EncodeFields, PbField, PbVarint;
    var fs, ins := ControlFields(seqNo, timestamp, capabilities), [BytesField(4, capabilities)];
    ScannerAgrees(fs, 1);
    ScannerAgrees(fs, 2);
    ScannerAgrees(fs, 3);
    ScannerAgrees(ins, 1);
    ScannerAgrees(ins, 4);
    var n := |fs|;
    FirstAt(fs, 2, n - 2);
    FirstAt(fs, 3, n - 1);
    FirstAt(ins, 4, 0);
    NoVarint(ins, 1);
    if seqNo != 0 { FirstAt(fs, 1, 0); } else { NoVarint(fs, 1); }
    hide FirstBytes, FirstVarint;
  }

  lemma {:induction false} NoVarint(fs: seq<Field>, want: nat)
    requires forall f <- fs :: f.num != want
    ensures FirstVarint(fs, want) == None
  {
    if fs != [] {
      assert fs[0] in fs && forall f <- fs[1..] :: f in fs;
      NoVarint(fs[1..], want);
    }
  }

  /** The text handshake's list of message types is found under field 13. */
  lemma TextReadsBack(seqNo: nat, timestamp: nat)
    requires seqNo < TWO64 && timestamp < TWO64
    ensures var b := EncodeFields(TextFields(seqNo, timestamp));
            && PbVarint(b, 1) == Some(seqNo) && PbVarint(b, 2) == Some(timestamp)
            && PbField(b, 13).Some? && PbField(PbField(b, 13).value, 1) == Some([1, 2])
  {
    var fs, ins := TextFields(seqNo, timestamp), [BytesField(1, [1, 2])];
    BytesAreShort(BytesField(1, [1, 2]));
    EncodeOne(BytesField(1, [1, 2]));
    hide EncodeFields, EncodeField, PbField, PbVarint;
    ScannerAgrees(fs, 1);
    ScannerAgrees(fs, 2);
    ScannerAgrees(fs, 13);
    ScannerAgrees(ins, 1);
    FirstAt(fs, 1, 0);
    FirstAt(fs, 2, 1);
    FirstAt(fs, 13, 2);
    FirstAt(ins, 1, 0);
    hide FirstBytes, FirstVarint;
  }
}
