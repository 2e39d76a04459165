/** Protocol Buffers wire format: 'Base 128 Varints' and 'Length-Delimited Records' of the encoding
    guide, with a reader for the two wire types the TRON encoder writes (internal/wallet/tron_rpc.go). */
module ProtoWire {
  import opened Records
  import opened ByteStrings
  import opened Words

  const MAX_VARINT: nat := 10

  function Varint(n: nat): (s: seq<Byte>)
    ensures s != []
  {
    if n < 128 then [n] else [n % 128 + 128] + Varint(n / 128)
  }

  /** Appends a length-delimited field. */
  function TronBytes(dst: seq<Byte>, field: nat, value: seq<Byte>): seq<Byte> {
    dst + Varint(field * 8 + 2) + Varint(|value|) + value
  }

  /** A signed 64-bit number as the unsigned one of the same bits. */
  function ToUnsigned(value: int): (u: nat)
    requires -0x8000_0000_0000_0000 <= value < 0x8000_0000_0000_0000
    ensures u < TWO64
  {
    if value < 0 then value + TWO64 else value
  }

  function ToSigned(u: nat): int {
    if u < 0x8000_0000_0000_0000 then u else u - TWO64
  }

  predicate IsInt64(value: int) {
    -0x8000_0000_0000_0000 <= value < 0x8000_0000_0000_0000
  }

  /** Appends a number field; zero is left out. */
  function TronInt(dst: seq<Byte>, field: nat, value: int): seq<Byte>
    requires IsInt64(value)
  {
    if value == 0 then dst else dst + Varint(field * 8) + Varint(ToUnsigned(value))
  }

  // ---------------------------------------------------------------- the reader

  datatype Field = Number(field: nat, value: nat) | Blob(field: nat, bytes: seq<Byte>)

  /** A number and how many bytes it took, at most `left`. */
  function ReadVarint(s: seq<Byte>, left: nat): (r: Option<(nat, nat)>)
    ensures r.Some? ==> 0 < r.value.1 <= |s|
  {
    if s == [] || left == 0 then None
    else if s[0] < 128 then Some((s[0], 1))
    else
      var rest := ReadVarint(s[1..], left - 1);
      if rest.None? then None else Some((s[0] - 128 + 128 * rest.value.0, rest.value.1 + 1))
  }

  /** The first field and how many bytes it took. */
  function ReadField(s: seq<Byte>): (r: Option<(Field, nat)>)
    ensures r.Some? ==> 0 < r.value.1 <= |s|
  {
    var key := ReadVarint(s, MAX_VARINT);
    if key.None? then None
    else
      var rest := s[key.value.1..];
      var n := ReadVarint(rest, MAX_VARINT);
      if n.None? then None
      else if key.value.0 % 8 == 0 then
        if n.value.0 < TWO64 then Some((Number(key.value.0 / 8, n.value.0), key.value.1 + n.value.1)) else None
      else if key.value.0 % 8 == 2 && n.value.0 <= |rest| - n.value.1 then
        Some((Blob(key.value.0 / 8, rest[n.value.1..n.value.1 + n.value.0]), key.value.1 + n.value.1 + n.value.0))
      else None
  }

  function ReadMessage(s: seq<Byte>): Option<seq<Field>>
    decreases |s|
  {
    if s == [] then Some([])
    else
      var first := ReadField(s);
      if first.None? then None
      else
        var rest := ReadMessage(s[first.value.1..]);
        if rest.None? then None else Some([first.value.0] + rest.value)
  }

  // ---------------------------------------------------------------- what the reader reads back

  function Encoded(f: Field): (s: seq<Byte>)
    ensures s != []
  {
    match f
    case Number(field, value) => Varint(field * 8) + Varint(value)
    case Blob(field, bytes) => TronBytes([], field, bytes)
  }

  function EncodedAll(fs: seq<Field>): seq<Byte> {
    if fs == [] then [] else Encoded(fs[0]) + EncodedAll(fs[1..])
  }

  predicate Fits(f: Field) {
    && f.field < 0x2000_0000
    && match f {
      case Number(_, value) => value < TWO64
      case Blob(_, bytes) => |bytes| < TWO64
    }
  }

  function Pow128(k: nat): (p: nat)
    ensures p > 0
  {
    if k == 0 then 1 else 128 * Pow128(k - 1)
  }

  lemma {:induction false} VarintReads(n: nat, rest: seq<Byte>, left: nat)
    requires n < Pow128(left) && left > 0
    ensures ReadVarint(Varint(n) + rest, left) == Some((n, |Varint(n)|))
  {
    var s := Varint(n) + rest;
    if n >= 128 {
      VarintReads(n / 128, rest, left - 1);
      assert s[1..] == Varint(n / 128) + rest;
    }
  }

  lemma TenBytes()
    ensures Pow128(MAX_VARINT) == 64 * TWO64
  {
    assert Pow128(5) == 0x8_0000_0000;
    assert Pow128(10) == 128 * Pow128(9) && Pow128(9) == 128 * Pow128(8) && Pow128(8) == 128 * Pow128(7)
      && Pow128(7) == 128 * Pow128(6) && Pow128(6) == 128 * Pow128(5);
  }

  lemma KeyParts(field: nat)
    ensures field * 8 % 8 == 0 && field * 8 / 8 == field
    ensures (field * 8 + 2) % 8 == 2 && (field * 8 + 2) / 8 == field
  {
  }

  lemma NumberReads(field: nat, value: nat, rest: seq<Byte>)
    requires Fits(Number(field, value))
    ensures ReadField(Encoded(Number(field, value)) + rest) == Some((Number(field, value), |Encoded(Number(field, value))|))
  {
    hide Varint, ReadVarint, Pow128;
    TenBytes();
    KeyParts(field);
    var key, tail := Varint(field * 8), Varint(value) + rest;
    VarintReads(field * 8, tail, MAX_VARINT);
    VarintReads(value, rest, MAX_VARINT);
    assert Encoded(Number(field, value)) + rest == key + tail && (key + tail)[|key|..] == tail;
  }

  lemma Slices<T>(a: seq<T>, b: seq<T>, c: seq<T>, d: seq<T>)
    ensures a + b + c + d == a + (b + (c + d))
    ensures (a + (b + (c + d)))[|a|..] == b + (c + d)
    ensures (b + (c + d))[|b|..|b| + |c|] == c
  {
  }

  lemma BlobReads(field: nat, bytes: seq<Byte>, rest: seq<Byte>)
    requires Fits(Blob(field, bytes))
    ensures ReadField(Encoded(Blob(field, bytes)) + rest) == Some((Blob(field, bytes), |Encoded(Blob(field, bytes))|))
  {
    hide Varint, ReadVarint, Pow128;
    TenBytes();
    KeyParts(field);
    var key, size, tail := Varint(field * 8 + 2), Varint(|bytes|), bytes + rest;
    VarintReads(field * 8 + 2, size + tail, MAX_VARINT);
    VarintReads(|bytes|, tail, MAX_VARINT);
    Slices(key, size, bytes, rest);
    assert Encoded(Blob(field, bytes)) == key + size + bytes;
  }

  lemma FieldReads(f: Field, rest: seq<Byte>)
    requires Fits(f)
    ensures ReadField(Encoded(f) + rest) == Some((f, |Encoded(f)|))
  {
    hide ReadField, Encoded;
    match f
    case Number(field, value) => NumberReads(field, value, rest);
    case Blob(field, bytes) => BlobReads(field, bytes, rest);
  }

  lemma {:induction false} MessageReads(fs: seq<Field>)
    requires forall f :: f in fs ==> Fits(f)
    ensures ReadMessage(EncodedAll(fs)) == Some(fs)
  {
    if fs != [] {
      FieldReads(fs[0], EncodedAll(fs[1..]));
      MessageReads(fs[1..]);
      assert EncodedAll(fs)[|Encoded(fs[0])|..] == EncodedAll(fs[1..]);
      assert [fs[0]] + fs[1..] == fs;
    }
  }

  lemma {:induction false} EncodedSnoc(fs: seq<Field>, f: Field)
    ensures EncodedAll(fs + [f]) == EncodedAll(fs) + Encoded(f)
  {
    if fs == [] {
      assert fs + [f] == [f] && [f][1..] == [];
      assert EncodedAll([f]) == Encoded(f) + EncodedAll([]);
      assert Encoded(f) + [] == [] + Encoded(f);
    } else {
      assert (fs + [f])[1..] == fs[1..] + [f];
      EncodedSnoc(fs[1..], f);
    }
  }

  lemma {:induction false} VarintLength(n: nat, k: nat)
    requires n < Pow128(k) && k > 0
    ensures |Varint(n)| <= k
  {
    if n >= 128 {
      VarintLength(n / 128, k - 1);
    }
  }

  /** An upper bound on the encoded length. */
  function Room(fs: seq<Field>): nat {
    if fs == [] then 0
    else 2 * MAX_VARINT + (if fs[0].Blob? then |fs[0].bytes| else 0) + Room(fs[1..])
  }

  lemma {:induction false} EncodedFits(fs: seq<Field>)
    requires forall f :: f in fs ==> Fits(f)
    ensures |EncodedAll(fs)| <= Room(fs)
  {
    if fs != [] {
      TenBytes();
      assert Fits(fs[0]);
      match fs[0] {
        case Number(field, value) =>
          VarintLength(field * 8, MAX_VARINT);
          VarintLength(value, MAX_VARINT);
        case Blob(field, bytes) =>
          VarintLength(field * 8 + 2, MAX_VARINT);
          VarintLength(|bytes|, MAX_VARINT);
      }
      EncodedFits(fs[1..]);
    }
  }

  function NumberUnlessZero(field: nat, value: int): seq<Field>
    requires IsInt64(value)
  {
    if value == 0 then [] else [Number(field, ToUnsigned(value))]
  }

  /** Appending fields to a buffer, as the encoder does. */
  lemma Appends(fs: seq<Field>, field: nat, value: int, bytes: seq<Byte>)
    requires IsInt64(value)
    ensures TronBytes(EncodedAll(fs), field, bytes) == EncodedAll(fs + [Blob(field, bytes)])
    ensures TronInt(EncodedAll(fs), field, value) == EncodedAll(fs + NumberUnlessZero(field, value))
  {
    hide Varint, EncodedAll;
    assert value == 0 ==> fs + NumberUnlessZero(field, value) == fs;
    EncodedSnoc(fs, Blob(field, bytes));
    EncodedSnoc(fs, Number(field, ToUnsigned(value)));
  }

  // ---------------------------------------------------------------- looking fields up

  function BytesOf(fs: seq<Field>, field: nat): Option<seq<Byte>> {
    if fs == [] then None
    else if fs[|fs|-1].Blob? && fs[|fs|-1].field == field then Some(fs[|fs|-1].bytes)
    else BytesOf(fs[..|fs|-1], field)
  }

  /** The last value of a number field; a missing one reads as zero. */
  function NumberOf(fs: seq<Field>, field: nat): nat {
    if fs == [] then 0
    else if fs[|fs|-1].Number? && fs[|fs|-1].field == field then fs[|fs|-1].value
    else NumberOf(fs[..|fs|-1], field)
  }

  lemma Lookup(fs: seq<Field>, f: Field)
    ensures forall k :: BytesOf(fs + [f], k) == if f.Blob? && f.field == k then Some(f.bytes) else BytesOf(fs, k)
    ensures forall k :: NumberOf(fs + [f], k) == if f.Number? && f.field == k then f.value else NumberOf(fs, k)
  {
    assert (fs + [f])[..|fs + [f]|-1] == fs;
  }
}
