/**
 The wire format of Protocol Buffers as far as both codecs use it: base 128 varints and a
 message as a list of fields, first as a pure specification, then the loops of the source.
 */
module Wire {
  import opened Basics

  const TWO64: nat := 0x1_0000_0000_0000_0000
  const MAX_VARINT: nat := 10

  // --- base 128 varints

  function EncodeVarint(v: nat): (b: Bytes)
    ensures b != []
  {
    if v < 128 then [v] else [v % 128 + 128] + EncodeVarint(v / 128)
  }

  /** The number of bytes up to the first one without a continuation bit; 0 if it is not among the first limit bytes. */
  function VarintLength(data: Bytes, limit: nat): (n: nat)
    ensures n <= limit && n <= |data|
  {
    if data == [] || limit == 0 then 0
    else if data[0] < 128 then 1
    else var n := VarintLength(data[1..], limit - 1); if n == 0 then 0 else n + 1
  }

  /** The seven-bit groups of data, least significant first. */
  function Groups(data: Bytes): nat {
    if data == [] then 0 else data[0] % 128 + 128 * Groups(data[1..])
  }

  /** decodeVarint and readPBVarint: value and length; bits beyond the 64th are lost; (0, 0) is the error. */
  function Varint(data: Bytes): (r: (nat, nat))
    ensures r.1 <= |data| && r.1 <= MAX_VARINT && r.0 < TWO64
  {
    var n := VarintLength(data, MAX_VARINT);
    if n == 0 then (0, 0) else (Groups(data[..n]) % TWO64, n)
  }

  function Pow128(k: nat): (p: nat)
    ensures p > 0
  {
    if k == 0 then 1 else 128 * Pow128(k - 1)
  }

  lemma {:induction false} EncodeLength(v: nat, k: nat)
    requires k > 0 && v < Pow128(k)
    ensures |EncodeVarint(v)| <= k
  {
    if v >= 128 {
      assert k > 1 by { assert Pow128(1) == 128; }
      EncodeLength(v / 128, k - 1);
    }
  }

  lemma {:induction false} VarintFound(v: nat, rest: Bytes, limit: nat)
    requires |EncodeVarint(v)| <= limit
    ensures VarintLength(EncodeVarint(v) + rest, limit) == |EncodeVarint(v)|
    ensures Groups(EncodeVarint(v)) == v
  {
    var e := EncodeVarint(v);
    if v < 128 {
      assert (e + rest)[0] == v && e[1..] == [];
    } else {
      var e2 := EncodeVarint(v / 128);
      assert e == [v % 128 + 128] + e2 && e[1..] == e2;
      assert (e + rest)[1..] == e2 + rest;
      VarintFound(v / 128, rest, limit - 1);
    }
  }

  lemma SixtyFourBits(v: nat)
    requires v < TWO64
    ensures |EncodeVarint(v)| <= MAX_VARINT
  {
    assert Pow128(5) == 0x8_0000_0000;
    assert Pow128(10) == 0x40_0000_0000_0000_0000;
    EncodeLength(v, 10);
  }

  /** Reading undoes writing, for every 64-bit value and whatever follows it. */
  lemma VarintRoundTrip(v: nat, rest: Bytes)
    requires v < TWO64
    ensures Varint(EncodeVarint(v) + rest) == (v, |EncodeVarint(v)|)
  {
    SixtyFourBits(v);
    VarintFound(v, rest, MAX_VARINT);
    assert (EncodeVarint(v) + rest)[..|EncodeVarint(v)|] == EncodeVarint(v);
  }

  lemma {:induction false} LengthIsStable(data: Bytes, more: Bytes, limit: nat)
    requires VarintLength(data, limit) > 0
    ensures VarintLength(data + more, limit) == VarintLength(data, limit)
  {
    if data[0] >= 128 {
      assert (data + more)[1..] == data[1..] + more;
      LengthIsStable(data[1..], more, limit - 1);
    }
  }

  /** A varint that is read does not depend on what follows it. */
  lemma VarintIsStable(data: Bytes, more: Bytes)
    requires Varint(data).1 > 0
    ensures Varint(data + more) == Varint(data)
  {
    LengthIsStable(data, more, MAX_VARINT);
    var n := VarintLength(data, MAX_VARINT);
    assert (data + more)[..n] == data[..n];
  }

  // --- fields

  /** One field; the contents of fixed-size fields are never looked at. */
  datatype Field =
    | VarintField(num: nat, value: nat)
    | BytesField(num: nat, bytes: Bytes)
    | Fixed64Field(num: nat)
    | Fixed32Field(num: nat)

  /** decodeBytesField behind its tag. */
  function ReadBytes(data: Bytes): (r: Option<(Bytes, nat)>)
    ensures r.Some? ==> r.value.1 <= |data|
  {
    var (length, n) := Varint(data);
    if n == 0 || length > |data| - n then None else Some((data[n..n + length], n + length))
  }

  /**
   Tag and value of the first field, with the number of bytes passed over; a fixed-size value is
   skipped unseen, and may be cut off.
   */
  function ReadField(data: Bytes): (r: Option<(Field, nat)>)
    ensures r.Some? ==> 0 < r.value.1
  {
    var (tag, n) := Varint(data);
    if n == 0 then None
    else
      var num, rest := tag / 8, data[n..];
      match tag % 8
      case 0 =>
        var (value, k) := Varint(rest);
        if k == 0 then None else Some((VarintField(num, value), n + k))
      case 1 => Some((Fixed64Field(num), n + 8))
      case 2 =>
        var r := ReadBytes(rest);
        if r.None? then None else Some((BytesField(num, r.value.0), n + r.value.1))
      case 5 => Some((Fixed32Field(num), n + 4))
      case _ => None
  }

  function Drop(data: Bytes, n: nat): Bytes { if n <= |data| then data[n..] else [] }

  /** The field list of a message, or nothing if some field cannot be read. */
  function Fields(data: Bytes): Option<seq<Field>>
    decreases |data|
  {
    if data == [] then Some([])
    else
      match ReadField(data)
      case None => None
      case Some(fn) =>
        match Fields(Drop(data, fn.1))
        case None => None
        case Some(rest) => Some([fn.0] + rest)
  }

  /** data ends where a field ends. */
  predicate Complete(data: Bytes)
    decreases |data|
  {
    data == [] || (ReadField(data).Some? && ReadField(data).value.1 <= |data|
        && Complete(Drop(data, ReadField(data).value.1)))
  }

  lemma FieldIsStable(data: Bytes, more: Bytes)
    requires ReadField(data).Some? && ReadField(data).value.1 <= |data|
    ensures ReadField(data + more) == ReadField(data)
  {
    VarintIsStable(data, more);
    var n := Varint(data).1;
    var rest := data[n..];
    assert (data + more)[n..] == rest + more;
    if Varint(rest).1 > 0 { VarintIsStable(rest, more); }
    var (length, k) := Varint(rest);
    if length + k <= |rest| { assert (rest + more)[k..k + length] == rest[k..k + length]; }
    hide Varint;
  }

  /** At a field boundary, the field list of the whole is that of its parts. */
  lemma {:induction false} FieldsConcat(data: Bytes, more: Bytes)
    requires Complete(data)
    ensures Fields(data).Some?
    ensures Fields(data + more) == if Fields(more).None? then None else Some(Fields(data).value + Fields(more).value)
    ensures Complete(data + more) <==> Complete(more)
    decreases |data|
  {
    hide ReadField, Fields, Complete, Drop;
    NoFields();
    if data == [] {
      assert data + more == more;
      assert Fields(more).Some? ==> [] + Fields(more).value == Fields(more).value;
    } else {
      CompleteCons(data);
      var (f, n) := ReadField(data).value;
      var rest, all := data[n..], data + more;
      FieldIsStable(data, more);
      assert all[n..] == rest + more;
      DropIs(data, n);
      DropIs(all, n);
      FieldsConcat(rest, more);
      FieldsCons(data, f, n);
      FieldsCons(all, f, n);
      CompleteCons(all);
      if Fields(more).Some? {
        assert [f] + (Fields(rest).value + Fields(more).value) == [f] + Fields(rest).value + Fields(more).value;
      }
    }
  }

  lemma NoFields()
    ensures Fields([]) == Some([]) && Complete([])
  {
  }

  lemma DropIs(data: Bytes, n: nat)
    requires n <= |data|
    ensures Drop(data, n) == data[n..]
  {
  }

  /** One step of Complete. */
  lemma CompleteCons(data: Bytes)
    requires data != []
    ensures Complete(data) <==>
              ReadField(data).Some? && ReadField(data).value.1 <= |data|
                  && Complete(Drop(data, ReadField(data).value.1))
  {
    hide ReadField;
  }

  /** One step of Fields. */
  lemma FieldsCons(data: Bytes, f: Field, n: nat)
    requires data != [] && ReadField(data) == Some((f, n))
    ensures Fields(data) == if Fields(Drop(data, n)).None? then None else Some([f] + Fields(Drop(data, n)).value)
  {
    hide ReadField;
  }

  // --- writing fields

  function Tag(num: nat, wire: nat): nat { 8 * num + wire }

  /** What the source writes: varint and length-delimited fields. */
  predicate Writable(f: Field) {
    && (f.VarintField? || f.BytesField?) && Tag(f.num, 7) < TWO64
    && (f.VarintField? ==> f.value < TWO64) && (f.BytesField? ==> |f.bytes| < TWO64)
  }

  function EncodeField(f: Field): Bytes {
    match f
    case VarintField(num, value) => EncodeVarint(Tag(num, 0)) + EncodeVarint(value)
    case BytesField(num, bytes) => EncodeVarint(Tag(num, 2)) + EncodeVarint(|bytes|) + bytes
    case _ => []
  }

  function EncodeFields(fs: seq<Field>): Bytes {
    if fs == [] then [] else EncodeField(fs[0]) + EncodeFields(fs[1..])
  }

  predicate AllWritable(fs: seq<Field>) { forall f <- fs :: Writable(f) }

  lemma {:induction false} EncodeConcat(fs: seq<Field>, gs: seq<Field>)
    ensures EncodeFields(fs + gs) == EncodeFields(fs) + EncodeFields(gs)
  {
    hide EncodeField;
    if fs == [] {
      assert fs + gs == gs;
    } else {
      EncodeConcat(fs[1..], gs);
      assert (fs + gs)[1..] == fs[1..] + gs && (fs + gs)[0] == fs[0];
      Assoc(EncodeField(fs[0]), EncodeFields(fs[1..]), EncodeFields(gs));
    }
  }

  lemma Assoc(a: Bytes, b: Bytes, c: Bytes)
    ensures a + (b + c) == a + b + c
  {
  }

  lemma EncodeOne(f: Field)
    ensures EncodeFields([f]) == EncodeField(f) && EncodeFields([]) == []
  {
    hide EncodeField;
    assert [f][1..] == [];
    assert EncodeField(f) + [] == EncodeField(f);
  }

  lemma BytesReadBack(bytes: Bytes, rest: Bytes)
    requires |bytes| < TWO64
    ensures ReadBytes(EncodeVarint(|bytes|) + bytes + rest) == Some((bytes, |EncodeVarint(|bytes|)| + |bytes|))
  {
    var len := EncodeVarint(|bytes|);
    VarintRoundTrip(|bytes|, bytes + rest);
    assert len + bytes + rest == len + (bytes + rest);
    assert (len + bytes + rest)[|len|..|len| + |bytes|] == bytes;
  }

  lemma TagReadBack(tag: nat, rest: Bytes)
    requires tag < TWO64
    ensures var e := EncodeVarint(tag); Varint(e + rest) == (tag, |e|) && |e| > 0 && (e + rest)[|e|..] == rest
  {
    VarintRoundTrip(tag, rest);
    hide Varint, EncodeVarint;
  }

  lemma VarintFieldRoundTrip(num: nat, value: nat, rest: Bytes)
    requires Writable(VarintField(num, value))
    ensures var b := EncodeVarint(Tag(num, 0)) + EncodeVarint(value) + rest;
            ReadField(b) == Some((VarintField(num, value), |EncodeVarint(Tag(num, 0))| + |EncodeVarint(value)|))
  {
    hide Varint, EncodeVarint;
    var t, v := EncodeVarint(Tag(num, 0)), EncodeVarint(value);
    assert t + v + rest == t + (v + rest);
    TagReadBack(Tag(num, 0), v + rest);
    TagReadBack(value, rest);
  }

  lemma BytesFieldRoundTrip(num: nat, bytes: Bytes, rest: Bytes)
    requires Writable(BytesField(num, bytes))
    ensures var b := EncodeVarint(Tag(num, 2)) + EncodeVarint(|bytes|) + bytes + rest;
            ReadField(b) == Some((BytesField(num, bytes),
                |EncodeVarint(Tag(num, 2))| + |EncodeVarint(|bytes|)| + |bytes|))
  {
    hide Varint, EncodeVarint, ReadBytes;
    var t, len := EncodeVarint(Tag(num, 2)), EncodeVarint(|bytes|);
    assert t + len + bytes + rest == t + (len + bytes + rest);
    TagReadBack(Tag(num, 2), len + bytes + rest);
    BytesReadBack(bytes, rest);
  }

  /** A written field is read back, whatever follows it. */
  lemma FieldRoundTrip(f: Field, rest: Bytes)
    requires Writable(f)
    ensures ReadField(EncodeField(f) + rest) == Some((f, |EncodeField(f)|))
  {
    hide ReadField, EncodeVarint;
    match f
    case VarintField(num, value) => VarintFieldRoundTrip(num, value, rest);
    case BytesField(num, bytes) => BytesFieldRoundTrip(num, bytes, rest);
  }

  /** The field list written is the field list read. */
  lemma {:induction false} FieldsRoundTrip(fs: seq<Field>)
    requires AllWritable(fs)
    ensures Fields(EncodeFields(fs)) == Some(fs) && Complete(EncodeFields(fs))
  {
    hide ReadField, EncodeField;
    if fs != [] {
      var f, rest := fs[0], EncodeFields(fs[1..]);
      assert f in fs && fs == [f] + fs[1..];
      FieldRoundTrip(f, rest);
      FieldsRoundTrip(fs[1..]);
      var data, n := EncodeField(f) + rest, |EncodeField(f)|;
      assert data[n..] == rest && Drop(data, n) == rest && n > 0;
      FieldsCons(data, f, n);
    }
  }
}
