/** The byte-level scanner of pkg/peer, and the handshake messages it has to read. */
module Scanner {
  import opened Basics
  import opened Wire
  import opened WireLoops

  // --- what the scanner looks for

  function FirstBytes(fs: seq<Field>, want: nat): Option<Bytes> {
    if fs == [] then None
    else if fs[0].BytesField? && fs[0].num == want then Some(fs[0].bytes)
    else FirstBytes(fs[1..], want)
  }

  function FirstVarint(fs: seq<Field>, want: nat): Option<nat> {
    if fs == [] then None
    else if fs[0].VarintField? && fs[0].num == want then Some(fs[0].value)
    else FirstVarint(fs[1..], want)
  }

  // --- what it finds in any bytes: it gives up at the first field it cannot pass

  function PbField(data: Bytes, want: nat): Option<Bytes>
    decreases |data|
  {
    if data == [] then None
    else
      match ReadField(data)
      case None => None
      case Some(xn) =>
        match xn.0
        case VarintField(_, _) => PbField(Drop(data, xn.1), want)
        case BytesField(num, b) => if num == want then Some(b) else PbField(Drop(data, xn.1), want)
        case _ => None
  }

  function PbVarint(data: Bytes, want: nat): Option<nat>
    decreases |data|
  {
    if data == [] then None
    else
      match ReadField(data)
      case None => None
      case Some(xn) =>
        match xn.0
        case VarintField(num, v) => if num == want then Some(v) else PbVarint(Drop(data, xn.1), want)
        case BytesField(_, _) => PbVarint(Drop(data, xn.1), want)
        case _ => None
  }

  /** On a list of varint and bytes fields written by either codec, the scanner finds the first match of the list. */
  lemma {:induction false} ScannerAgrees(fs: seq<Field>, want: nat)
    requires AllWritable(fs)
    ensures PbField(EncodeFields(fs), want) == FirstBytes(fs, want)
    ensures PbVarint(EncodeFields(fs), want) == FirstVarint(fs, want)
  {
    hide ReadField, EncodeField;
    if fs != [] {
      var f, rest := fs[0], EncodeFields(fs[1..]);
      assert f in fs && fs == [f] + fs[1..];
      FieldRoundTrip(f, rest);
      ScannerAgrees(fs[1..], want);
      var data, n := EncodeField(f) + rest, |EncodeField(f)|;
      assert data[n..] == rest && Drop(data, n) == rest && n > 0;
    }
  }

  /** What the scanner cannot pass: a field of a fixed size or of no known wire type, or one that is cut off. */
  predicate Blocks(rest: Bytes) {
    || rest == [] || ReadField(rest).None?
    || ReadField(rest).value.0.Fixed64Field? || ReadField(rest).value.0.Fixed32Field?
  }

  /** It finds what stands in front of such a field, and nothing behind it. */
  lemma {:induction false} ScannerStops(fs: seq<Field>, rest: Bytes, want: nat)
    requires AllWritable(fs) && Blocks(rest)
    ensures PbField(EncodeFields(fs) + rest, want) == FirstBytes(fs, want)
    ensures PbVarint(EncodeFields(fs) + rest, want) == FirstVarint(fs, want)
  {
    hide EncodeField;
    if fs == [] {
      assert [] + rest == rest;
    } else {
      var f, more := fs[0], EncodeFields(fs[1..]) + rest;
      assert f in fs && fs == [f] + fs[1..];
      Assoc(EncodeField(f), EncodeFields(fs[1..]), rest);
      FieldRoundTrip(f, more);
      hide ReadField, Blocks;
      ScannerStops(fs[1..], rest, want);
      var data, n := EncodeField(f) + more, |EncodeField(f)|;
      assert data[n..] == more && Drop(data, n) == more && n > 0;
    }
  }

  /** The general decoder's field list and the scanner agree wherever the data is a message. */
  lemma {:induction false} ScannerAgreesWithFields(data: Bytes, want: nat)
    requires Fields(data).Some? && forall f <- Fields(data).value :: f.VarintField? || f.BytesField?
    ensures PbField(data, want) == FirstBytes(Fields(data).value, want)
    ensures PbVarint(data, want) == FirstVarint(Fields(data).value, want)
    decreases |data|
  {
    hide ReadField, Drop;
    if data != [] {
      var (x, n) := ReadField(data).value;
      FieldsCons(data, x, n);
      var rest := Fields(Drop(data, n)).value;
      assert Fields(data).value == [x] + rest && x in Fields(data).value && Fields(data).value[1..] == rest;
      assert forall f <- rest :: f in Fields(data).value;
      Shorter(data, n);
      ScannerAgreesWithFields(Drop(data, n), want);
    }
  }

  lemma Shorter(data: Bytes, n: nat)
    requires data != [] && n > 0
    ensures |Drop(data, n)| < |data|
  {
  }

  // --- the loops

  method PbFieldLoop(data: Bytes, want: nat) returns (r: Option<Bytes>)
    ensures r == PbField(data, want)
  {
    hide ReadField, Varint, ReadBytes, Drop;
    var pos := 0;
    At(data, 0, 0);
    while pos < |data|
      invariant pos <= |data| && PbField(data, want) == PbField(Drop(data, pos), want)
      decreases |data| - pos
    {
      ghost var here, start := Drop(data, pos), pos;
      At(data, pos, 0);
      ByWireType(here);
      var tag, n := DecodeVarint(data[pos..]);
      if n == 0 { return None; }
      pos := pos + n;
      At(data, start, n);
      var num, wire := tag / 8, tag % 8;
      if wire != 2 {
        if wire == 0 {
          var v, k := DecodeVarint(data[pos..]);
          if k == 0 { return None; }
          At(data, start, n + k);
          pos := pos + k;
          continue;
        }
        return None;
      }
      var length, k := DecodeVarint(data[pos..]);
      BytesBehind(data[pos..]);
      if k == 0 || length > |data| - pos - k { return None; }
      var from := pos + k;
      var end := from + length;
      assert data[pos..][k..k + length] == data[from..end];
      if num == want { return Some(data[from..end]); }
      At(data, start, end - start);
      pos := end;
    }
    At(data, pos, 0);
    return None;
  }

  method PbVarintLoop(data: Bytes, want: nat) returns (r: Option<nat>)
    ensures r == PbVarint(data, want)
  {
    hide ReadField, Varint, ReadBytes, Drop;
    var pos := 0;
    At(data, 0, 0);
    while pos < |data|
      invariant pos <= |data| && PbVarint(data, want) == PbVarint(Drop(data, pos), want)
      decreases |data| - pos
    {
      ghost var here, start := Drop(data, pos), pos;
      At(data, pos, 0);
      ByWireType(here);
      var tag, n := DecodeVarint(data[pos..]);
      if n == 0 { return None; }
      pos := pos + n;
      At(data, start, n);
      var num, wire := tag / 8, tag % 8;
      if wire == 0 {
        var v, k := DecodeVarint(data[pos..]);
        if k == 0 { return None; }
        At(data, start, n + k);
        pos := pos + k;
        if num == want { return Some(v); }
        continue;
      }
      if wire != 2 { return None; }
      var length, k := DecodeVarint(data[pos..]);
      BytesBehind(data[pos..]);
      if k == 0 || length > |data| - pos - k { return None; }
      At(data, start, n + k + length);
      pos := pos + k + length;
    }
    At(data, pos, 0);
    return None;
  }

  lemma At(data: Bytes, pos: nat, n: nat)
    requires pos + n <= |data|
    ensures Drop(data, pos) == data[pos..] && Drop(Drop(data, pos), n) == Drop(data, pos + n) == data[pos + n..]
    ensures data[pos..][n..] == data[pos + n..] && Drop(data, 0) == data
  {
  }

  /** What the wire type makes of the field at the start of data. */
  lemma ByWireType(data: Bytes)
    ensures var (tag, n) := Varint(data);
            && (n == 0 ==> ReadField(data).None?)
            && (n > 0 && tag % 8 == 0 ==>
                  var (v, k) := Varint(data[n..]);
                  ReadField(data) == if k == 0 then None else Some((VarintField(tag / 8, v), n + k)))
            && (n > 0 && tag % 8 == 2 ==>
                  var b := ReadBytes(data[n..]);
                  ReadField(data) == if b.None? then None else Some((BytesField(tag / 8, b.value.0), n + b.value.1)))
            && (n > 0 && tag % 8 != 0 && tag % 8 != 2 && ReadField(data).Some? ==>
                  !ReadField(data).value.0.VarintField? && !ReadField(data).value.0.BytesField?)
  {
    hide Varint, ReadBytes;
  }

  lemma BytesBehind(rest: Bytes)
    ensures var (length, k) := Varint(rest);
            ReadBytes(rest) == if k == 0 || length > |rest| - k then None else Some((rest[k..k + length], k + length))
  {
    hide Varint;
  }
}
