/** ERC-4337 user operations and their packed form ('EntryPoint interface' section of ERC-4337;
    internal/wallet/erc4337/types.go, encoding.go). */
module UserOperation {
  import opened Records
  import opened ByteStrings
  import opened Words

  const PAYMASTER_MIN: nat := 52

  datatype Problem =
    | NilUserOp | NilPackedUserOp | InvalidSender | NilField | NegativeValue | Uint256Overflow
    | GasFeeInconsistent | GasLimitOverflow | GasFeeOverflow | InvalidPaymasterLength

  datatype Checked<+T> = Good(value: T) | Bad(problem: Problem)

  /** A big integer field may be missing or negative. */
  type Big = Option<int>

  datatype Op = Op(
    sender: Address, nonce: Big, initCode: Bytes, callData: Bytes,
    callGasLimit: Big, verificationGasLimit: Big, preVerificationGas: Big,
    maxFeePerGas: Big, maxPriorityFeePerGas: Big, paymasterAndData: Bytes, signature: Bytes)

  datatype PackedOp = PackedOp(
    sender: Address, nonce: Big, initCode: Bytes, callData: Bytes, accountGasLimits: Bytes,
    preVerificationGas: Big, gasFees: Bytes, paymasterAndData: Bytes, signature: Bytes)

  predicate WellFormed(p: PackedOp) {
    |p.accountGasLimits| == 32 && |p.gasFees| == 32
  }

  function Numbers(op: Op): seq<Big> {
    [op.nonce, op.callGasLimit, op.verificationGasLimit, op.preVerificationGas, op.maxFeePerGas, op.maxPriorityFeePerGas]
  }

  /** The first problem of a list of numbers: missing before negative before too large. */
  function NumbersProblem(ns: seq<Big>): Option<Problem> {
    if exists n :: n in ns && n.None? then Some(NilField)
    else if exists n :: n in ns && n.Some? && n.value < 0 then Some(NegativeValue)
    else if exists n :: n in ns && n.Some? && n.value >= TWO256 then Some(Uint256Overflow)
    else None
  }

  function Validate(op: Option<Op>): Option<Problem> {
    if op.None? then Some(NilUserOp)
    else if op.value.sender == 0 then Some(InvalidSender)
    else if NumbersProblem(Numbers(op.value)).Some? then NumbersProblem(Numbers(op.value))
    else if op.value.maxPriorityFeePerGas.Some? && op.value.maxFeePerGas.Some?
      && op.value.maxPriorityFeePerGas.value > op.value.maxFeePerGas.value then Some(GasFeeInconsistent)
    else None
  }

  function ValidatePacked(p: Option<PackedOp>): Option<Problem> {
    if p.None? then Some(NilPackedUserOp)
    else if p.value.sender == 0 then Some(InvalidSender)
    else NumbersProblem([p.value.nonce, p.value.preVerificationGas])
  }

  // ---------------------------------------------------------------- pairs of 128-bit numbers

  function PackedPair(high: Big, low: Big): Checked<Bytes> {
    if high.None? || low.None? then Bad(NilField)
    else if high.value < 0 || low.value < 0 then Bad(NegativeValue)
    else if high.value >= TWO128 || low.value >= TWO128 then Bad(GasLimitOverflow)
    else Good(BigEndian(high.value, 16) + BigEndian(low.value, 16))
  }

  function UnpackUint128Pair(packed: Bytes): (int, int)
    requires |packed| == 32
  {
    (FromBigEndian(packed[0..16]), FromBigEndian(packed[16..32]))
  }

  /** The shortest bytes of each number are copied to the right end of its half of a zeroed buffer. */
  method PackUint128Pair(high: Big, low: Big) returns (r: Checked<Bytes>)
    ensures r == PackedPair(high, low)
  {
    if high.None? || low.None? {
      return Bad(NilField);
    }
    if high.value < 0 || low.value < 0 {
      return Bad(NegativeValue);
    }
    if high.value >= TWO128 || low.value >= TWO128 {
      return Bad(GasLimitOverflow);
    }
    hide BigEndian, MinimalBytes;
    HalfWordSize();
    MinimalFits(high.value, 16);
    MinimalFits(low.value, 16);
    var out := new Byte[32](_ => 0);
    CopyInto(out, 16, MinimalBytes(high.value));
    assert out[..16] == BigEndian(high.value, 16);
    CopyInto(out, 32, MinimalBytes(low.value));
    assert out[..16] == BigEndian(high.value, 16);
    assert out[16..] == BigEndian(low.value, 16);
    assert out[..] == out[..16] + out[16..];
    r := Good(out[..]);
  }

  /** Copies bytes so that they end at `end`. */
  method CopyInto(out: array<Byte>, end: nat, bytes: Bytes)
    requires |bytes| <= end <= out.Length
    modifies out
    ensures forall k :: 0 <= k < out.Length ==>
      out[k] == if end - |bytes| <= k < end then bytes[k - (end - |bytes|)] else old(out[k])
  {
    var begin := end - |bytes|;
    for i := 0 to |bytes|
      invariant forall k :: 0 <= k < out.Length ==>
        out[k] == if begin <= k < begin + i then bytes[k - begin] else old(out[k])
    {
      out[begin + i] := bytes[i];
    }
  }

  lemma PairReads(high: nat, low: nat)
    requires high < TWO128 && low < TWO128
    ensures UnpackUint128Pair(BigEndian(high, 16) + BigEndian(low, 16)) == (high, low)
  {
    hide BigEndian, FromBigEndian, Pow256;
    HalfWordSize();
    var pair := BigEndian(high, 16) + BigEndian(low, 16);
    assert pair[0..16] == BigEndian(high, 16) && pair[16..32] == BigEndian(low, 16);
    BigEndianReads(high, 16);
    BigEndianReads(low, 16);
  }

  /** Packing and unpacking a pair undo each other, both ways. */
  lemma PairRoundTrip(high: nat, low: nat, packed: Bytes)
    requires high < TWO128 && low < TWO128 && |packed| == 32
    ensures UnpackUint128Pair(BigEndian(high, 16) + BigEndian(low, 16)) == (high, low)
    ensures var (h, l) := UnpackUint128Pair(packed);
      0 <= h < TWO128 && 0 <= l < TWO128 && BigEndian(h, 16) + BigEndian(l, 16) == packed
  {
    hide BigEndian, FromBigEndian, Pow256;
    HalfWordSize();
    PairReads(high, low);
    FromReads(packed[0..16]);
    FromReads(packed[16..32]);
    FromBelow(packed[0..16]);
    FromBelow(packed[16..32]);
    assert packed[0..16] + packed[16..32] == packed;
  }

  // ---------------------------------------------------------------- whole operations

  function ToPacked(op: Option<Op>): Checked<PackedOp> {
    var problem := Validate(op);
    if problem.Some? then Bad(problem.value)
    else
      var o := op.value;
      var limits := PackedPair(o.verificationGasLimit, o.callGasLimit);
      var fees := PackedPair(o.maxPriorityFeePerGas, o.maxFeePerGas);
      if limits.Bad? then Bad(limits.problem)
      else if fees.Bad? then Bad(if fees.problem == GasLimitOverflow then GasFeeOverflow else fees.problem)
      else if 0 < |o.paymasterAndData| < PAYMASTER_MIN then Bad(InvalidPaymasterLength)
      else Good(PackedOp(o.sender, o.nonce, o.initCode, o.callData, limits.value, o.preVerificationGas, fees.value,
        o.paymasterAndData, o.signature))
  }

  function Unpack(p: Option<PackedOp>): Checked<Op>
    requires p.Some? ==> WellFormed(p.value)
  {
    var problem := ValidatePacked(p);
    if problem.Some? then Bad(problem.value)
    else
      var o := p.value;
      var (verification, call) := UnpackUint128Pair(o.accountGasLimits);
      var (priority, fee) := UnpackUint128Pair(o.gasFees);
      Good(Op(o.sender, o.nonce, o.initCode, o.callData, Some(call), Some(verification), o.preVerificationGas,
        Some(fee), Some(priority), o.paymasterAndData, o.signature))
  }

  predicate Within(n: Big, limit: nat) {
    n.Some? && 0 <= n.value < limit
  }

  /** What can be packed: a sender, words and half words in range, a priority fee within the fee, and
      either no paymaster or a whole paymaster header. */
  predicate Packable(o: Op) {
    && o.sender != 0
    && Within(o.nonce, TWO256) && Within(o.preVerificationGas, TWO256)
    && Within(o.callGasLimit, TWO128) && Within(o.verificationGasLimit, TWO128)
    && Within(o.maxFeePerGas, TWO128) && Within(o.maxPriorityFeePerGas, TWO128)
    && o.maxPriorityFeePerGas.value <= o.maxFeePerGas.value
    && (|o.paymasterAndData| == 0 || |o.paymasterAndData| >= PAYMASTER_MIN)
  }

  lemma NumbersFine(ns: seq<Big>)
    ensures NumbersProblem(ns).None? <==> forall n :: n in ns ==> Within(n, TWO256)
  {
  }

  lemma NumbersOf(o: Op)
    ensures (forall n :: n in Numbers(o) ==> Within(n, TWO256)) <==>
      && Within(o.nonce, TWO256) && Within(o.callGasLimit, TWO256) && Within(o.verificationGasLimit, TWO256)
      && Within(o.preVerificationGas, TWO256) && Within(o.maxFeePerGas, TWO256) && Within(o.maxPriorityFeePerGas, TWO256)
  {
    var ns := Numbers(o);
    assert ns[0] in ns && ns[1] in ns && ns[2] in ns && ns[3] in ns && ns[4] in ns && ns[5] in ns;
  }

  lemma ToPackedExactly(o: Op)
    ensures ToPacked(Some(o)).Good? <==> Packable(o)
    ensures ToPacked(Some(o)).Good? ==> WellFormed(ToPacked(Some(o)).value)
  {
    hide NumbersProblem, Numbers;
    NumbersFine(Numbers(o));
    NumbersOf(o);
  }

  predicate Present(o: Op) {
    && o.nonce.Some? && o.callGasLimit.Some? && o.verificationGasLimit.Some? && o.preVerificationGas.Some?
    && o.maxFeePerGas.Some? && o.maxPriorityFeePerGas.Some?
  }

  predicate NoneBelowZero(o: Op)
    requires Present(o)
  {
    && o.nonce.value >= 0 && o.callGasLimit.value >= 0 && o.verificationGasLimit.value >= 0
    && o.preVerificationGas.value >= 0 && o.maxFeePerGas.value >= 0 && o.maxPriorityFeePerGas.value >= 0
  }

  predicate NoneTooLong(o: Op)
    requires Present(o)
  {
    && o.nonce.value < TWO256 && o.callGasLimit.value < TWO256 && o.verificationGasLimit.value < TWO256
    && o.preVerificationGas.value < TWO256 && o.maxFeePerGas.value < TWO256 && o.maxPriorityFeePerGas.value < TWO256
  }

  /** Why an operation is refused: the first of these that applies. */
  predicate RefusedFor(o: Op, problem: Problem) {
    if o.sender == 0 then problem == InvalidSender
    else if !Present(o) then problem == NilField
    else if !NoneBelowZero(o) then problem == NegativeValue
    else if !NoneTooLong(o) then problem == Uint256Overflow
    else if o.maxPriorityFeePerGas.value > o.maxFeePerGas.value then problem == GasFeeInconsistent
    else if o.verificationGasLimit.value >= TWO128 || o.callGasLimit.value >= TWO128 then problem == GasLimitOverflow
    else if o.maxPriorityFeePerGas.value >= TWO128 || o.maxFeePerGas.value >= TWO128 then problem == GasFeeOverflow
    else 0 < |o.paymasterAndData| < 52 && problem == InvalidPaymasterLength
  }

  lemma NumbersProblemIs(o: Op)
    ensures NumbersProblem(Numbers(o)) ==
      if !Present(o) then Some(NilField) else if !NoneBelowZero(o) then Some(NegativeValue)
      else if !NoneTooLong(o) then Some(Uint256Overflow) else None
  {
    hide Numbers;
    NumbersAre(o);
  }

  lemma NumbersAre(o: Op)
    ensures forall n :: n in Numbers(o) <==>
      || n == o.nonce || n == o.callGasLimit || n == o.verificationGasLimit || n == o.preVerificationGas
      || n == o.maxFeePerGas || n == o.maxPriorityFeePerGas
  {
    var ns := Numbers(o);
    assert ns[0] in ns && ns[1] in ns && ns[2] in ns && ns[3] in ns && ns[4] in ns && ns[5] in ns;
  }

  lemma RefusedFirst(o: Op)
    ensures ToPacked(Some(o)).Bad? ==> RefusedFor(o, ToPacked(Some(o)).problem)
  {
    hide NumbersProblem, BigEndian;
    NumbersProblemIs(o);
  }

  /** Where the parts of an operation are: the upper half of accountGasLimits is the verification limit
      and the lower one the call limit, the upper half of gasFees the priority fee and the lower one the
      fee; everything else stays as it is. */
  predicate LaidOut(o: Op, p: PackedOp)
    requires WellFormed(p)
  {
    && o.verificationGasLimit == Some(FromBigEndian(p.accountGasLimits[..16]))
    && o.callGasLimit == Some(FromBigEndian(p.accountGasLimits[16..]))
    && o.maxPriorityFeePerGas == Some(FromBigEndian(p.gasFees[..16]))
    && o.maxFeePerGas == Some(FromBigEndian(p.gasFees[16..]))
    && p.sender == o.sender && p.nonce == o.nonce && p.initCode == o.initCode && p.callData == o.callData
    && p.preVerificationGas == o.preVerificationGas && p.paymasterAndData == o.paymasterAndData
    && p.signature == o.signature
  }

  lemma PairHalves(packed: Bytes)
    requires |packed| == 32
    ensures UnpackUint128Pair(packed) == (FromBigEndian(packed[..16]), FromBigEndian(packed[16..]))
  {
    assert packed[0..16] == packed[..16] && packed[16..32] == packed[16..];
  }

  /** Packing and unpacking put every part in its place. */
  lemma PartsInPlace(o: Op, p: PackedOp)
    ensures ToPacked(Some(o)).Good? ==> WellFormed(ToPacked(Some(o)).value) && LaidOut(o, ToPacked(Some(o)).value)
    ensures WellFormed(p) && Unpack(Some(p)).Good? ==> LaidOut(Unpack(Some(p)).value, p)
  {
    hide NumbersProblem, UnpackUint128Pair, Validate, ValidatePacked, BigEndian, FromBigEndian;
    ToPackedExactly(o);
    if Packable(o) {
      PairReads(o.verificationGasLimit.value, o.callGasLimit.value);
      PairReads(o.maxPriorityFeePerGas.value, o.maxFeePerGas.value);
      PairHalves(ToPacked(Some(o)).value.accountGasLimits);
      PairHalves(ToPacked(Some(o)).value.gasFees);
    }
    if WellFormed(p) {
      PairHalves(p.accountGasLimits);
      PairHalves(p.gasFees);
    }
  }

  /** Packing loses nothing: every operation that can be packed unpacks to itself. */
  lemma PackThenUnpack(o: Op)
    requires Packable(o)
    ensures ToPacked(Some(o)).Good? && WellFormed(ToPacked(Some(o)).value)
    ensures Unpack(Some(ToPacked(Some(o)).value)) == Good(o)
  {
    hide NumbersProblem, UnpackUint128Pair, Validate;
    ToPackedExactly(o);
    NumbersFine([o.nonce, o.preVerificationGas]);
    PairRoundTrip(o.verificationGasLimit.value, o.callGasLimit.value, ToPacked(Some(o)).value.accountGasLimits);
    PairRoundTrip(o.maxPriorityFeePerGas.value, o.maxFeePerGas.value, ToPacked(Some(o)).value.gasFees);
  }

  /** A packed operation that unpacks packs again to itself exactly if its priority fee is within its
      fee and its paymaster data is empty or holds a whole header; otherwise it is refused. */
  lemma UnpackThenPack(p: PackedOp)
    requires WellFormed(p) && Unpack(Some(p)).Good?
    ensures var (priority, fee) := UnpackUint128Pair(p.gasFees);
      var again := ToPacked(Some(Unpack(Some(p)).value));
      if priority <= fee && (|p.paymasterAndData| == 0 || |p.paymasterAndData| >= PAYMASTER_MIN) then again == Good(p)
      else again == Bad(if priority > fee then GasFeeInconsistent else InvalidPaymasterLength)
  {
    hide NumbersProblem, UnpackUint128Pair, Numbers, BigEndian;
    var o := Unpack(Some(p)).value;
    NumbersFine([p.nonce, p.preVerificationGas]);
    var ns := [p.nonce, p.preVerificationGas];
    assert ns[0] in ns && ns[1] in ns;
    PairRoundTrip(0, 0, p.accountGasLimits);
    PairRoundTrip(0, 0, p.gasFees);
    NumbersFine(Numbers(o));
    NumbersOf(o);
  }
}
