/** The TRON transaction body built for signing, the record kept of it, and the check made on that
    record at restart (internal/wallet/tron_rpc.go, tron.go). */
module TronTransfer {
  import opened Records
  import opened ByteStrings
  import opened ProtoWire
  import opened Words

  function AsciiByte(c: char): Byte {
    if c as int < 128 then c as int else 0
  }

  function Ascii(s: string): (b: Bytes)
    ensures |b| == |s|
  {
    seq(|s|, i requires 0 <= i < |s| => AsciiByte(s[i]))
  }

  const TRANSFER_TYPE := "type.googleapis.com/protocol.TransferContract"
  const TRIGGER_TYPE := "type.googleapis.com/protocol.TriggerSmartContract"

  /** The first four bytes of a call of transfer(address,uint256). */
  const TRANSFER_SELECTOR: Bytes := [0xa9, 0x05, 0x9c, 0xbb]

  /** The call data of a token transfer: the selector, then two 32-byte words. */
  function CallData(to: Bytes, amount: nat): Bytes {
    TRANSFER_SELECTOR + (seq(12, _ => 0) + to) + BigEndian(amount, 32)
  }

  /** What a transfer is about. `contract` is None for TRX, and then `amount` counts sun. */
  datatype Transfer = Transfer(
    owner: Bytes, to: Bytes, amount: nat, contract: Option<Bytes>,
    refBlock: Bytes, refHash: Bytes, now: int, expires: int, feeLimit: int)

  predicate IsAddress(a: Bytes) {
    |a| == 21 && a[0] == 0x41
  }

  predicate Sendable(owner: Bytes, to: Bytes, amount: nat, contract: Bytes, now: int, expires: int, feeLimit: int) {
    && IsAddress(owner) && IsAddress(to) && (contract == [] || IsAddress(contract))
    && (if contract == [] then amount < 0x8000_0000_0000_0000 else amount < TWO256)
    && IsInt64(now) && IsInt64(expires) && IsInt64(feeLimit)
  }

  // ---------------------------------------------------------------- the fields, from the inside out

  function PayloadFields(owner: Bytes, to: Bytes, amount: nat, contract: Bytes): seq<Field>
    requires |to| > 0 && (contract == [] ==> IsInt64(amount))
  {
    if contract == [] then [Blob(1, owner), Blob(2, to)] + NumberUnlessZero(3, amount)
    else [Blob(1, owner), Blob(2, contract), Blob(4, CallData(to[1..], amount))]
  }

  function ParameterFields(typeUrl: Bytes, payload: Bytes): seq<Field> {
    [Blob(1, typeUrl), Blob(2, payload)]
  }

  function OperationFields(kind: nat, parameter: Bytes): seq<Field> {
    [Number(1, kind), Blob(2, parameter)]
  }

  function RawFields(block: Bytes, operation: Bytes, now: int, expires: int, feeLimit: int): seq<Field>
    requires |block| == 32 && IsInt64(now) && IsInt64(expires) && IsInt64(feeLimit)
  {
    [Blob(1, block[6..8]), Blob(4, block[8..16])] + NumberUnlessZero(8, expires) + [Blob(11, operation)]
    + NumberUnlessZero(14, now) + NumberUnlessZero(18, feeLimit)
  }

  function Kind(contract: Bytes): nat {
    if contract == [] then 1 else 31
  }

  function TypeUrl(contract: Bytes): Bytes {
    if contract == [] then Ascii(TRANSFER_TYPE) else Ascii(TRIGGER_TYPE)
  }

  function Payload(owner: Bytes, to: Bytes, amount: nat, contract: Bytes): Bytes
    requires |to| > 0 && (contract == [] ==> IsInt64(amount))
  {
    EncodedAll(PayloadFields(owner, to, amount, contract))
  }

  function Parameter(owner: Bytes, to: Bytes, amount: nat, contract: Bytes): Bytes
    requires |to| > 0 && (contract == [] ==> IsInt64(amount))
  {
    EncodedAll(ParameterFields(TypeUrl(contract), Payload(owner, to, amount, contract)))
  }

  function Operation(owner: Bytes, to: Bytes, amount: nat, contract: Bytes): Bytes
    requires |to| > 0 && (contract == [] ==> IsInt64(amount))
  {
    EncodedAll(OperationFields(Kind(contract), Parameter(owner, to, amount, contract)))
  }

  // ---------------------------------------------------------------- a reader of whole transfers

  datatype Paid = Paid(owner: Bytes, to: Bytes, amount: nat, contract: Option<Bytes>)

  function ReadCall(data: Bytes): Option<(Bytes, nat)> {
    if |data| != 68 || data[..4] != TRANSFER_SELECTOR then None
    else Some(([0x41] + data[16..36], FromBigEndian(data[36..])))
  }

  function ReadPayload(kind: nat, typeUrl: Bytes, payload: Bytes): Option<Paid> {
    var fields := ReadMessage(payload);
    if fields.None? then None
    else
      var owner, second := BytesOf(fields.value, 1), BytesOf(fields.value, 2);
      if owner.None? || second.None? then None
      else if kind == 1 && typeUrl == Ascii(TRANSFER_TYPE) then
        Some(Paid(owner.value, second.value, NumberOf(fields.value, 3), None))
      else if kind == 31 && typeUrl == Ascii(TRIGGER_TYPE) then
        var data := BytesOf(fields.value, 4);
        var call := if data.None? then None else ReadCall(data.value);
        if call.None? then None else Some(Paid(owner.value, call.value.0, call.value.1, second))
      else None
  }

  function ReadOperation(operation: Bytes): Option<Paid> {
    var fields := ReadMessage(operation);
    var parameter := if fields.None? then None else BytesOf(fields.value, 2);
    var inner := if parameter.None? then None else ReadMessage(parameter.value);
    if inner.None? then None
    else
      var typeUrl, payload := BytesOf(inner.value, 1), BytesOf(inner.value, 2);
      if typeUrl.None? || payload.None? then None
      else ReadPayload(NumberOf(fields.value, 1), typeUrl.value, payload.value)
  }

  function ReadTransfer(raw: Bytes): Option<Transfer> {
    var fields := ReadMessage(raw);
    if fields.None? then None
    else
      var fs := fields.value;
      var refBlock, refHash, operation := BytesOf(fs, 1), BytesOf(fs, 4), BytesOf(fs, 11);
      if refBlock.None? || refHash.None? || operation.None? then None
      else
        var paid := ReadOperation(operation.value);
        if paid.None? then None
        else Some(Transfer(paid.value.owner, paid.value.to, paid.value.amount, paid.value.contract,
          refBlock.value, refHash.value, ToSigned(NumberOf(fs, 14)), ToSigned(NumberOf(fs, 8)), ToSigned(NumberOf(fs, 18))))
  }

  // ---------------------------------------------------------------- it reads back what was built

  lemma FourParts(a: Bytes, b: Bytes, c: Bytes, d: Bytes)
    ensures var all := a + (b + c) + d;
      && |all| == |a| + |b| + |c| + |d|
      && all[..|a|] == a && all[|a| + |b|..|a| + |b| + |c|] == c && all[|a| + |b| + |c|..] == d
  {
  }

  lemma CallReads(to: Bytes, amount: nat)
    requires IsAddress(to) && amount < TWO256
    ensures |CallData(to[1..], amount)| == 68
    ensures ReadCall(CallData(to[1..], amount)) == Some((to, amount))
  {
    hide BigEndian, FromBigEndian;
    WordSize();
    BigEndianReads(amount, 32);
    FourParts(TRANSFER_SELECTOR, seq(12, _ => 0), to[1..], BigEndian(amount, 32));
    assert [0x41] + to[1..] == to;
  }

  lemma PayloadReads(owner: Bytes, to: Bytes, amount: nat, contract: Bytes)
    requires Sendable(owner, to, amount, contract, 0, 0, 0)
    ensures |Payload(owner, to, amount, contract)| < 300
    ensures ReadPayload(Kind(contract), TypeUrl(contract), Payload(owner, to, amount, contract))
      == Some(Paid(owner, to, amount, if contract == [] then None else Some(contract)))
  {
    hide ReadMessage, EncodedAll, CallData, ReadCall, FromBigEndian, BytesOf, NumberOf, Room;
    var fields := PayloadFields(owner, to, amount, contract);
    if contract == [] {
      var a: seq<Field> := [Blob(1, owner), Blob(2, to)];
      LookupTwo(a[0], a[1]);
      LookupNumber(a, 3, amount);
      RoomNumber(a, 3, amount);
      RoomTwo(a[0], a[1]);
    } else {
      var data := CallData(to[1..], amount);
      CallReads(to, amount);
      var a: seq<Field> := [Blob(1, owner), Blob(2, contract)];
      assert fields == a + [Blob(4, data)];
      LookupTwo(a[0], a[1]);
      Lookup(a, Blob(4, data));
      RoomMore(a, Blob(4, data));
      RoomTwo(a[0], a[1]);
    }
    UrlsDiffer();
    MessageReads(fields);
    EncodedFits(fields);
  }

  lemma LookupTwo(a: Field, b: Field)
    ensures forall k :: BytesOf([a, b], k) == if b.Blob? && b.field == k then Some(b.bytes)
      else if a.Blob? && a.field == k then Some(a.bytes) else None
    ensures forall k :: NumberOf([a, b], k) == if b.Number? && b.field == k then b.value
      else if a.Number? && a.field == k then a.value else 0
  {
    assert [a, b] == [a] + [b] && [a] == [] + [a];
    Lookup([a], b);
    Lookup([], a);
  }

  lemma LookupNumber(fs: seq<Field>, field: nat, value: int)
    requires IsInt64(value)
    ensures forall k :: BytesOf(fs + NumberUnlessZero(field, value), k) == BytesOf(fs, k)
    ensures forall k :: k != field ==> NumberOf(fs + NumberUnlessZero(field, value), k) == NumberOf(fs, k)
    ensures NumberOf(fs, field) == 0 ==> NumberOf(fs + NumberUnlessZero(field, value), field) == ToUnsigned(value)
  {
    if value == 0 {
      assert fs + NumberUnlessZero(field, value) == fs;
    } else {
      Lookup(fs, Number(field, ToUnsigned(value)));
    }
  }

  lemma {:induction false} RoomMore(fs: seq<Field>, f: Field)
    ensures Room(fs + [f]) == Room(fs) + 20 + (if f.Blob? then |f.bytes| else 0)
  {
    if fs == [] {
      assert fs + [f] == [f] && [f][1..] == [];
    } else {
      assert (fs + [f])[1..] == fs[1..] + [f];
      RoomMore(fs[1..], f);
    }
  }

  lemma RoomNumber(fs: seq<Field>, field: nat, value: int)
    requires IsInt64(value)
    ensures Room(fs + NumberUnlessZero(field, value)) <= Room(fs) + 20
  {
    if value == 0 {
      assert fs + NumberUnlessZero(field, value) == fs;
    } else {
      RoomMore(fs, Number(field, ToUnsigned(value)));
    }
  }

  lemma RoomTwo(a: Field, b: Field)
    ensures Room([a, b]) == 40 + (if a.Blob? then |a.bytes| else 0) + (if b.Blob? then |b.bytes| else 0)
  {
    assert [a, b] == [a] + [b] && [a] == [] + [a];
    RoomMore([a], b);
    RoomMore([], a);
  }

  lemma UrlsDiffer()
    ensures |Ascii(TRANSFER_TYPE)| == 45 && |Ascii(TRIGGER_TYPE)| == 49
  {
  }

  lemma OperationReads(owner: Bytes, to: Bytes, amount: nat, contract: Bytes)
    requires Sendable(owner, to, amount, contract, 0, 0, 0)
    ensures |Operation(owner, to, amount, contract)| < 500
    ensures ReadOperation(Operation(owner, to, amount, contract))
      == Some(Paid(owner, to, amount, if contract == [] then None else Some(contract)))
  {
    hide ReadMessage, EncodedAll, ReadPayload, BytesOf, NumberOf, Room, Payload;
    var typeUrl, payload := TypeUrl(contract), Payload(owner, to, amount, contract);
    var parameter := Parameter(owner, to, amount, contract);
    PayloadReads(owner, to, amount, contract);
    UrlsDiffer();
    var inner, outer := ParameterFields(typeUrl, payload), OperationFields(Kind(contract), parameter);
    LookupTwo(Blob(1, typeUrl), Blob(2, payload));
    RoomTwo(Blob(1, typeUrl), Blob(2, payload));
    MessageReads(inner);
    EncodedFits(inner);
    LookupTwo(Number(1, Kind(contract)), Blob(2, parameter));
    RoomTwo(Number(1, Kind(contract)), Blob(2, parameter));
    MessageReads(outer);
    EncodedFits(outer);
  }

  /** A reader of the wire format recovers every part of the transfer from the body to be signed. */
  lemma RawReads(owner: Bytes, to: Bytes, amount: nat, contract: Bytes, block: Bytes, now: int, expires: int, feeLimit: int)
    requires Sendable(owner, to, amount, contract, now, expires, feeLimit) && |block| == 32
    ensures ReadTransfer(EncodedAll(RawFields(block, Operation(owner, to, amount, contract), now, expires, feeLimit)))
      == Some(Transfer(owner, to, amount, if contract == [] then None else Some(contract),
           block[6..8], block[8..16], now, expires, feeLimit))
  {
    hide ReadMessage, EncodedAll, ReadOperation, Operation, BytesOf, NumberOf;
    var operation := Operation(owner, to, amount, contract);
    OperationReads(owner, to, amount, contract);
    var a: seq<Field> := [Blob(1, block[6..8]), Blob(4, block[8..16])];
    var b := a + NumberUnlessZero(8, expires);
    var c := b + [Blob(11, operation)];
    var d := c + NumberUnlessZero(14, now);
    var e := d + NumberUnlessZero(18, feeLimit);
    assert RawFields(block, operation, now, expires, feeLimit) == e;
    LookupTwo(a[0], a[1]);
    LookupNumber(a, 8, expires);
    Lookup(b, Blob(11, operation));
    LookupNumber(c, 14, now);
    LookupNumber(d, 18, feeLimit);
    MessageReads(e);
  }

  // ---------------------------------------------------------------- the encoder and the record

  /** Buffers grown field by field. `block` is None when the block ID is not hexadecimal. */
  method TronRaw(owner: Bytes, to: Bytes, amount: nat, contract: Bytes, block: Option<Bytes>, now: int, expires: int, feeLimit: int)
    returns (r: Result<Bytes>)
    requires Sendable(owner, to, amount, contract, now, expires, feeLimit)
    ensures r.Ok? <==> block.Some? && |block.value| == 32
    ensures r.Ok? ==> ReadTransfer(r.value) == Some(Transfer(owner, to, amount, if contract == [] then None else Some(contract),
      block.value[6..8], block.value[8..16], now, expires, feeLimit))
  {
    hide TronBytes, TronInt, EncodedAll, ReadTransfer, CallData, RawFields;
    if block.None? || |block.value| != 32 {
      return Err(InvalidRecord);
    }
    NoFields();
    var payload := TronBytes([], 1, owner);
    ghost var fields: seq<Field> := [];
    Appends(fields, 1, 0, owner);
    fields := fields + [Blob(1, owner)];
    var name, kind := TRANSFER_TYPE, 1;
    if |contract| == 0 {
      payload := TronBytes(payload, 2, to);
      Appends(fields, 2, 0, to);
      fields := fields + [Blob(2, to)];
      payload := TronInt(payload, 3, amount);
      Appends(fields, 3, amount, []);
      fields := fields + NumberUnlessZero(3, amount);
    } else {
      name, kind := TRIGGER_TYPE, 31;
      var data := CallData(to[1..], amount);
      payload := TronBytes(payload, 2, contract);
      Appends(fields, 2, 0, contract);
      fields := fields + [Blob(2, contract)];
      payload := TronBytes(payload, 4, data);
      Appends(fields, 4, 0, data);
      fields := fields + [Blob(4, data)];
    }
    assert fields == PayloadFields(owner, to, amount, contract);
    var operation := Wrapped(Ascii(name), kind, payload);
    var raw := Body(block.value, operation, now, expires, feeLimit);
    RawReads(owner, to, amount, contract, block.value, now, expires, feeLimit);
    r := Ok(raw);
  }

  lemma NoFields()
    ensures EncodedAll([]) == []
  {
  }

  method Wrapped(typeUrl: Bytes, kind: nat, payload: Bytes) returns (operation: Bytes)
    requires 0 < kind < 128
    ensures operation == EncodedAll(OperationFields(kind, EncodedAll(ParameterFields(typeUrl, payload))))
  {
    hide TronBytes, TronInt, EncodedAll;
    NoFields();
    var parameter := TronBytes([], 1, typeUrl);
    Appends([], 1, 0, typeUrl);
    parameter := TronBytes(parameter, 2, payload);
    Appends([] + [Blob(1, typeUrl)], 2, 0, payload);
    assert [] + [Blob(1, typeUrl)] + [Blob(2, payload)] == ParameterFields(typeUrl, payload);
    operation := TronInt([], 1, kind);
    Appends([], 1, kind, []);
    operation := TronBytes(operation, 2, parameter);
    Appends([] + NumberUnlessZero(1, kind), 2, 0, parameter);
    assert [] + NumberUnlessZero(1, kind) + [Blob(2, parameter)] == OperationFields(kind, parameter);
  }

  method Body(block: Bytes, operation: Bytes, now: int, expires: int, feeLimit: int) returns (raw: Bytes)
    requires |block| == 32 && IsInt64(now) && IsInt64(expires) && IsInt64(feeLimit)
    ensures raw == EncodedAll(RawFields(block, operation, now, expires, feeLimit))
  {
    hide TronBytes, TronInt, EncodedAll;
    NoFields();
    raw := TronBytes([], 1, block[6..8]);
    ghost var fs: seq<Field> := [];
    Appends(fs, 1, 0, block[6..8]);
    fs := fs + [Blob(1, block[6..8])];
    raw := TronBytes(raw, 4, block[8..16]);
    Appends(fs, 4, 0, block[8..16]);
    fs := fs + [Blob(4, block[8..16])];
    raw := TronInt(raw, 8, expires);
    Appends(fs, 8, expires, []);
    fs := fs + NumberUnlessZero(8, expires);
    raw := TronBytes(raw, 11, operation);
    Appends(fs, 11, 0, operation);
    fs := fs + [Blob(11, operation)];
    raw := TronInt(raw, 14, now);
    Appends(fs, 14, now, []);
    fs := fs + NumberUnlessZero(14, now);
    raw := TronInt(raw, 18, feeLimit);
    Appends(fs, 18, feeLimit, []);
    fs := fs + NumberUnlessZero(18, feeLimit);
    assert fs == RawFields(block, operation, now, expires, feeLimit);
  }
}
