/** The ledger entries one owner gets from a transaction's receipt (internal/chain/activity.go). */
module Ledger {
  import opened Records
  import opened Sequences
  import opened Words

  type Word = nat

  const SEPOLIA: int := 11155111
  const POLYGON_AMOY: int := 80002
  const SEPOLIA_WETH: Address := 0xfff9976782d46cc05630d1f6ebab18b2324d6b14

  /** The event signatures told apart: Transfer, Deposit, Withdrawal, anything else. */
  datatype Signature = TransferEvent | DepositEvent | WithdrawalEvent | OtherEvent

  /** `event` is the first topic and `args` the others, each a 32-byte word; `data` is None unless it
      is 32 bytes long. */
  datatype Log = Log(
    removed: bool, txHash: Word, blockHash: Word, blockNumber: nat, index: nat,
    address: Address, event: Option<Signature>, args: seq<Word>, data: Option<nat>)

  /** A missing log entry is None. */
  datatype Receipt = Receipt(
    txHash: Word, blockHash: Word, blockNumber: nat, succeeded: bool,
    gasUsed: nat, gasPrice: nat, contractAddress: Address, logs: seq<Option<Log>>)

  datatype Tx = Tx(to: Option<Address>, value: nat)

  datatype Asset = Native(symbol: string) | Token(contract: Address)

  datatype Kind = Fee | Send | Receive

  datatype Evidence = GasPaid | TxValue | LogEntry(index: nat, note: string)

  datatype Movement = Movement(kind: Kind, asset: Asset, amount: nat, other: Address, evidence: Evidence)

  function NativeOf(chain: Option<int>): Asset {
    if chain == Some(POLYGON_AMOY) then Native("POL") else Native("ETH")
  }

  predicate WrapsEther(chain: Option<int>) {
    chain == None || chain == Some(SEPOLIA)
  }

  /** An entry, unless the amount is zero. */
  function Entry(kind: Kind, asset: Asset, amount: nat, other: Address, evidence: Evidence): seq<Movement> {
    if amount > 0 then [Movement(kind, asset, amount, other, evidence)] else []
  }

  function FeeEntries(r: Receipt, from: Address, owner: Address, chain: Option<int>): seq<Movement> {
    if from == owner then Entry(Fee, NativeOf(chain), r.gasUsed * r.gasPrice, 0, GasPaid) else []
  }

  function ValueEntries(tx: Tx, r: Receipt, from: Address, owner: Address, chain: Option<int>): seq<Movement> {
    (if from == owner then
       Entry(Send, NativeOf(chain), tx.value, if tx.to.Some? then tx.to.value else r.contractAddress, TxValue)
     else [])
    + (if tx.to == Some(owner) then Entry(Receive, NativeOf(chain), tx.value, from, TxValue) else [])
  }

  function TransferEntries(l: Log, owner: Address): seq<Movement> {
    if l.event != Some(TransferEvent) || |l.args| != 2 || l.args[0] >= TWO160 || l.args[1] >= TWO160 || l.data.None? then []
    else
      (if l.args[0] == owner then Entry(Send, Token(l.address), l.data.value, l.args[1], LogEntry(l.index, "")) else [])
      + (if l.args[1] == owner then Entry(Receive, Token(l.address), l.data.value, l.args[0], LogEntry(l.index, "")) else [])
  }

  /** WETH9 announces wrapping and unwrapping by events of its own. */
  function WrapEntries(l: Log, owner: Address, chain: Option<int>): seq<Movement> {
    if !WrapsEther(chain) || l.address != SEPOLIA_WETH || |l.args| != 1 || l.args[0] != owner || l.data.None? then []
    else if l.event == Some(DepositEvent) then
      Entry(Receive, Token(l.address), l.data.value, l.address, LogEntry(l.index, ":deposit"))
    else if l.event == Some(WithdrawalEvent) then
      Entry(Send, Token(l.address), l.data.value, l.address, LogEntry(l.index, ":withdraw"))
      + Entry(Receive, Native("ETH"), l.data.value, l.address, LogEntry(l.index, ":withdraw ETH"))
    else []
  }

  function LogEntries(l: Log, owner: Address, chain: Option<int>): seq<Movement> {
    TransferEntries(l, owner) + WrapEntries(l, owner, chain)
  }

  function AllLogEntries(logs: seq<Option<Log>>, owner: Address, chain: Option<int>): seq<Movement> {
    if logs == [] then []
    else
      AllLogEntries(logs[..|logs|-1], owner, chain)
      + (if logs[|logs|-1].Some? then LogEntries(logs[|logs|-1].value, owner, chain) else [])
  }

  predicate LogOk(l: Option<Log>, r: Receipt) {
    && l.Some? && !l.value.removed
    && l.value.txHash == r.txHash && l.value.blockHash == r.blockHash && l.value.blockNumber == r.blockNumber
  }

  function IndexOf(l: Option<Log>): nat {
    if l.Some? then l.value.index else 0
  }

  /** Every log belongs to the receipt, and no index comes twice. */
  predicate LogsOk(logs: seq<Option<Log>>, r: Receipt) {
    && (forall l :: l in logs ==> LogOk(l, r))
    && (forall i, j :: 0 <= i < j < |logs| ==> IndexOf(logs[i]) != IndexOf(logs[j]))
  }

  function ReceiptLedger(tx: Tx, r: Receipt, from: Address, owner: Address, chain: Option<int>): Option<seq<Movement>> {
    var fees := FeeEntries(r, from, owner, chain);
    if !r.succeeded then Some(fees)
    else if !LogsOk(r.logs, r) then None
    else Some(fees + ValueEntries(tx, r, from, owner, chain) + AllLogEntries(r.logs, owner, chain))
  }

  // ---------------------------------------------------------------- balances

  /** None stands for any address. */
  predicate Matches(who: Option<Address>, a: Address) {
    who.None? || who.value == a
  }

  /** What the entries of a kind come to for an asset, with one other address or with all. */
  function Total(ledger: seq<Movement>, kind: Kind, asset: Asset, other: Option<Address>): nat {
    if ledger == [] then 0
    else
      var last := ledger[|ledger|-1];
      Total(ledger[..|ledger|-1], kind, asset, other)
      + (if last.kind == kind && last.asset == asset && Matches(other, last.other) then last.amount else 0)
  }

  /** What a log announces of a token going from one address to another: a Transfer event of that
      contract with two addresses and an amount. */
  function Carried(l: Log, contract: Address, from: Option<Address>, to: Option<Address>): nat {
    if l.event == Some(TransferEvent) && l.address == contract && |l.args| == 2 && l.data.Some?
      && l.args[0] < TWO160 && l.args[1] < TWO160 && Matches(from, l.args[0]) && Matches(to, l.args[1])
    then l.data.value else 0
  }

  /** What a log announces of ether wrapped or unwrapped by this owner. */
  function Wrapped(l: Log, event: Signature, owner: Address, chain: Option<int>): nat {
    if WrapsEther(chain) && l.event == Some(event) && l.address == SEPOLIA_WETH && l.args == [owner] && l.data.Some?
    then l.data.value else 0
  }

  /** What one log does to the owner's balance of an asset: a token comes in by what was carried to the
      owner and, if it is the wrapping one, by deposits; it goes out by what was carried away and by
      withdrawals, and those come in as ether. */
  function LogTotal(l: Log, kind: Kind, asset: Asset, other: Option<Address>, owner: Address, chain: Option<int>): nat {
    match asset
    case Token(contract) =>
      var wraps := contract == SEPOLIA_WETH && Matches(other, contract);
      (match kind
       case Receive => Carried(l, contract, other, Some(owner)) + (if wraps then Wrapped(l, DepositEvent, owner, chain) else 0)
       case Send => Carried(l, contract, Some(owner), other) + (if wraps then Wrapped(l, WithdrawalEvent, owner, chain) else 0)
       case Fee => 0)
    case Native(_) =>
      if kind == Receive && asset == NativeOf(chain) && Matches(other, SEPOLIA_WETH)
      then Wrapped(l, WithdrawalEvent, owner, chain) else 0
  }

  function LogTotals(logs: seq<Option<Log>>, kind: Kind, asset: Asset, other: Option<Address>, owner: Address,
    chain: Option<int>): nat
  {
    if logs == [] then 0
    else
      LogTotals(logs[..|logs|-1], kind, asset, other, owner, chain)
      + (if logs[|logs|-1].Some? then LogTotal(logs[|logs|-1].value, kind, asset, other, owner, chain) else 0)
  }

  /** What the transaction itself does to it: the fee, value out and value in. */
  function TxTotal(tx: Tx, r: Receipt, from: Address, owner: Address, chain: Option<int>, kind: Kind, asset: Asset,
    other: Option<Address>): nat
  {
    if asset != NativeOf(chain) then 0
    else match kind
      case Fee => if from == owner && Matches(other, 0) then r.gasUsed * r.gasPrice else 0
      case Send =>
        var target := if tx.to.Some? then tx.to.value else r.contractAddress;
        if r.succeeded && from == owner && Matches(other, target) then tx.value else 0
      case Receive => if r.succeeded && tx.to == Some(owner) && Matches(other, from) then tx.value else 0
  }

  /** Every total of the ledger is what the transaction and its logs say. */
  ghost predicate Balances(ledger: seq<Movement>, tx: Tx, r: Receipt, from: Address, owner: Address, chain: Option<int>) {
    forall kind, asset, other :: Total(ledger, kind, asset, other)
      == TxTotal(tx, r, from, owner, chain, kind, asset, other)
         + (if r.succeeded then LogTotals(r.logs, kind, asset, other, owner, chain) else 0)
  }

  ghost predicate LogBalances(entries: seq<Movement>, l: Log, owner: Address, chain: Option<int>) {
    forall kind, asset, other :: Total(entries, kind, asset, other) == LogTotal(l, kind, asset, other, owner, chain)
  }

  lemma {:induction false} TotalConcat(a: seq<Movement>, b: seq<Movement>, kind: Kind, asset: Asset, other: Option<Address>)
    ensures Total(a + b, kind, asset, other) == Total(a, kind, asset, other) + Total(b, kind, asset, other)
  {
    if b == [] {
      assert a + b == a;
    } else {
      assert (a + b)[..|a + b|-1] == a + b[..|b|-1];
      TotalConcat(a, b[..|b|-1], kind, asset, other);
    }
  }

  lemma TotalEntry(k: Kind, a: Asset, amount: nat, o: Address, e: Evidence, kind: Kind, asset: Asset, other: Option<Address>)
    ensures Total(Entry(k, a, amount, o, e), kind, asset, other)
      == if k == kind && a == asset && Matches(other, o) then amount else 0
    ensures Total([], kind, asset, other) == 0
  {
    if amount > 0 {
      assert [Movement(k, a, amount, o, e)][..0] == [];
    }
  }

  lemma TransferTotal(l: Log, owner: Address, kind: Kind, asset: Asset, other: Option<Address>)
    ensures Total(TransferEntries(l, owner), kind, asset, other)
      == if asset != Token(l.address) then 0
         else if kind == Send then Carried(l, l.address, Some(owner), other)
         else if kind == Receive then Carried(l, l.address, other, Some(owner)) else 0
  {
    hide Total, Entry;
    TotalEntry(Fee, asset, 0, 0, GasPaid, kind, asset, other);
    if l.data.Some? && |l.args| == 2 {
      var token, amount, e := Token(l.address), l.data.value, LogEntry(l.index, "");
      var sent := if l.args[0] == owner then Entry(Send, token, amount, l.args[1], e) else [];
      var received := if l.args[1] == owner then Entry(Receive, token, amount, l.args[0], e) else [];
      TotalEntry(Send, token, amount, l.args[1], e, kind, asset, other);
      TotalEntry(Receive, token, amount, l.args[0], e, kind, asset, other);
      TotalConcat(sent, received, kind, asset, other);
    }
  }

  lemma WrapTotal(l: Log, owner: Address, chain: Option<int>, kind: Kind, asset: Asset, other: Option<Address>)
    ensures Total(WrapEntries(l, owner, chain), kind, asset, other)
      == if asset == Token(SEPOLIA_WETH) && Matches(other, SEPOLIA_WETH) && kind == Receive then
           Wrapped(l, DepositEvent, owner, chain)
         else if asset == Token(SEPOLIA_WETH) && Matches(other, SEPOLIA_WETH) && kind == Send then
           Wrapped(l, WithdrawalEvent, owner, chain)
         else if asset == NativeOf(chain) && Matches(other, SEPOLIA_WETH) && kind == Receive then
           Wrapped(l, WithdrawalEvent, owner, chain)
         else 0
  {
    hide Total, Entry;
    TotalEntry(Fee, asset, 0, 0, GasPaid, kind, asset, other);
    if l.data.Some? && |l.args| == 1 {
      var token, amount := Token(l.address), l.data.value;
      var out, back := Entry(Send, token, amount, l.address, LogEntry(l.index, ":withdraw")),
        Entry(Receive, Native("ETH"), amount, l.address, LogEntry(l.index, ":withdraw ETH"));
      TotalEntry(Receive, token, amount, l.address, LogEntry(l.index, ":deposit"), kind, asset, other);
      TotalEntry(Send, token, amount, l.address, LogEntry(l.index, ":withdraw"), kind, asset, other);
      TotalEntry(Receive, Native("ETH"), amount, l.address, LogEntry(l.index, ":withdraw ETH"), kind, asset, other);
      TotalConcat(out, back, kind, asset, other);
    }
  }

  lemma EntriesBalance(l: Log, owner: Address, chain: Option<int>)
    ensures LogBalances(LogEntries(l, owner, chain), l, owner, chain)
  {
    hide Total, TransferEntries, WrapEntries;
    forall kind, asset, other
      ensures Total(LogEntries(l, owner, chain), kind, asset, other) == LogTotal(l, kind, asset, other, owner, chain)
    {
      TransferTotal(l, owner, kind, asset, other);
      WrapTotal(l, owner, chain, kind, asset, other);
      TotalConcat(TransferEntries(l, owner), WrapEntries(l, owner, chain), kind, asset, other);
    }
  }

  lemma {:induction false} AllLogsTotal(logs: seq<Option<Log>>, owner: Address, chain: Option<int>, kind: Kind, asset: Asset,
    other: Option<Address>)
    ensures Total(AllLogEntries(logs, owner, chain), kind, asset, other) == LogTotals(logs, kind, asset, other, owner, chain)
  {
    hide Total, LogEntries, LogTotal;
    if logs == [] {
      TotalEntry(Fee, asset, 0, 0, GasPaid, kind, asset, other);
    } else {
      var front, last := logs[..|logs|-1], logs[|logs|-1];
      AllLogsTotal(front, owner, chain, kind, asset, other);
      TotalEntry(Fee, asset, 0, 0, GasPaid, kind, asset, other);
      if last.Some? {
        EntriesBalance(last.value, owner, chain);
        TotalConcat(AllLogEntries(front, owner, chain), LogEntries(last.value, owner, chain), kind, asset, other);
      } else {
        TotalConcat(AllLogEntries(front, owner, chain), [], kind, asset, other);
      }
    }
  }

  lemma TxBalance(tx: Tx, r: Receipt, from: Address, owner: Address, chain: Option<int>, kind: Kind, asset: Asset,
    other: Option<Address>)
    ensures Total(FeeEntries(r, from, owner, chain), kind, asset, other)
        + (if r.succeeded then Total(ValueEntries(tx, r, from, owner, chain), kind, asset, other) else 0)
      == TxTotal(tx, r, from, owner, chain, kind, asset, other)
  {
    hide Total, Entry;
    var native, target := NativeOf(chain), if tx.to.Some? then tx.to.value else r.contractAddress;
    var out := if from == owner then Entry(Send, native, tx.value, target, TxValue) else [];
    var back := if tx.to == Some(owner) then Entry(Receive, native, tx.value, from, TxValue) else [];
    TotalEntry(Fee, native, r.gasUsed * r.gasPrice, 0, GasPaid, kind, asset, other);
    TotalEntry(Send, native, tx.value, target, TxValue, kind, asset, other);
    TotalEntry(Receive, native, tx.value, from, TxValue, kind, asset, other);
    TotalConcat(out, back, kind, asset, other);
  }

  /** Each total of an owner's ledger is what the receipt says came in, went out or was paid. */
  lemma LedgerBalances(tx: Tx, r: Receipt, from: Address, owner: Address, chain: Option<int>)
    requires ReceiptLedger(tx, r, from, owner, chain).Some?
    ensures Balances(ReceiptLedger(tx, r, from, owner, chain).value, tx, r, from, owner, chain)
  {
    hide Total, TxTotal, LogTotals, FeeEntries, ValueEntries, AllLogEntries, LogsOk;
    var ledger := ReceiptLedger(tx, r, from, owner, chain).value;
    var fees, values, logs :=
      FeeEntries(r, from, owner, chain), ValueEntries(tx, r, from, owner, chain), AllLogEntries(r.logs, owner, chain);
    forall kind, asset, other
      ensures Total(ledger, kind, asset, other) == TxTotal(tx, r, from, owner, chain, kind, asset, other)
        + (if r.succeeded then LogTotals(r.logs, kind, asset, other, owner, chain) else 0)
    {
      TxBalance(tx, r, from, owner, chain, kind, asset, other);
      AllLogsTotal(r.logs, owner, chain, kind, asset, other);
      TotalConcat(fees, values, kind, asset, other);
      TotalConcat(fees + values, logs, kind, asset, other);
    }
  }

  // ---------------------------------------------------------------- the loop

  /** A reverted transaction moves nothing but its fee, and that from the sender only. */
  lemma RevertedPaysFeeOnly(tx: Tx, r: Receipt, from: Address, owner: Address, chain: Option<int>)
    requires !r.succeeded
    ensures ReceiptLedger(tx, r, from, owner, chain).Some?
    ensures forall m :: m in ReceiptLedger(tx, r, from, owner, chain).value ==>
      m.kind == Fee && owner == from && m.amount == r.gasUsed * r.gasPrice && m.asset == NativeOf(chain)
    ensures |ReceiptLedger(tx, r, from, owner, chain).value| == if owner == from && r.gasUsed * r.gasPrice > 0 then 1 else 0
  {
  }

  method ReceiptMovements(tx: Tx, r: Receipt, from: Address, owner: Address, chain: Option<int>)
    returns (ledger: Option<seq<Movement>>)
    ensures ledger == ReceiptLedger(tx, r, from, owner, chain)
    ensures !r.succeeded ==> ledger.Some? && forall m :: m in ledger.value ==> m.kind == Fee && owner == from
    ensures ledger.Some? ==> Balances(ledger.value, tx, r, from, owner, chain)
  {
    hide Balances;
    if ReceiptLedger(tx, r, from, owner, chain).Some? {
      LedgerBalances(tx, r, from, owner, chain);
    }
    var moves: seq<Movement> := [];
    if from == owner {
      moves := moves + Entry(Fee, NativeOf(chain), r.gasUsed * r.gasPrice, 0, GasPaid);
    }
    assert moves == FeeEntries(r, from, owner, chain);
    if !r.succeeded {
      RevertedPaysFeeOnly(tx, r, from, owner, chain);
      return Some(moves);
    }
    if from == owner {
      var target := r.contractAddress;
      if tx.to.Some? {
        target := tx.to.value;
      }
      moves := moves + Entry(Send, NativeOf(chain), tx.value, target, TxValue);
    }
    if tx.to == Some(owner) {
      moves := moves + Entry(Receive, NativeOf(chain), tx.value, from, TxValue);
    }
    assert moves == FeeEntries(r, from, owner, chain) + ValueEntries(tx, r, from, owner, chain);
    ledger := AddLogs(moves, r, owner, chain);
  }

  function Indices(logs: seq<Option<Log>>): set<nat> {
    set l | l in logs :: IndexOf(l)
  }

  lemma LogsStep(logs: seq<Option<Log>>, i: nat, r: Receipt)
    requires i < |logs|
    ensures LogsOk(logs[..i + 1], r) <==>
      LogsOk(logs[..i], r) && LogOk(logs[i], r) && IndexOf(logs[i]) !in Indices(logs[..i])
    ensures Indices(logs[..i + 1]) == Indices(logs[..i]) + {IndexOf(logs[i])}
    ensures !LogsOk(logs[..i + 1], r) ==> !LogsOk(logs, r)
  {
    var before, after := logs[..i], logs[..i + 1];
    assert after == before + [logs[i]];
    assert forall k :: 0 <= k < i ==> before[k] in before && after[k] == before[k];
    assert forall l :: l in after ==> l in logs;
    if LogsOk(after, r) {
      assert after[i] in after && LogOk(logs[i], r);
      forall k | 0 <= k < i ensures IndexOf(before[k]) != IndexOf(logs[i]) {
        assert IndexOf(after[k]) != IndexOf(after[i]);
      }
    }
  }

  method AddLogs(start: seq<Movement>, r: Receipt, owner: Address, chain: Option<int>) returns (ledger: Option<seq<Movement>>)
    ensures ledger == if LogsOk(r.logs, r) then Some(start + AllLogEntries(r.logs, owner, chain)) else None
  {
    hide LogEntries, LogsOk, Indices;
    var moves := start;
    var seen: set<nat> := {};
    NoLogs(r);
    for i := 0 to |r.logs|
      invariant LogsOk(r.logs[..i], r)
      invariant seen == Indices(r.logs[..i])
      invariant moves == start + AllLogEntries(r.logs[..i], owner, chain)
    {
      var l := r.logs[i];
      LogsStep(r.logs, i, r);
      PrefixStep(r.logs, i);
      if l.None? || l.value.removed || l.value.txHash != r.txHash || l.value.blockHash != r.blockHash
        || l.value.blockNumber != r.blockNumber {
        return None;
      }
      if l.value.index in seen {
        return None;
      }
      seen := seen + {l.value.index};
      var entries := EntriesOf(l.value, owner, chain);
      moves := moves + entries;
    }
    assert r.logs[..|r.logs|] == r.logs;
    ledger := Some(moves);
  }

  lemma NoLogs(r: Receipt)
    ensures LogsOk(r.logs[..0], r) && Indices(r.logs[..0]) == {}
  {
  }

  /** The entries of one log. */
  method EntriesOf(l: Log, owner: Address, chain: Option<int>) returns (entries: seq<Movement>)
    ensures entries == LogEntries(l, owner, chain)
    ensures LogBalances(entries, l, owner, chain)
  {
    hide LogBalances;
    EntriesBalance(l, owner, chain);
    entries := [];
    if l.data.None? {
      return;
    }
    var amount := l.data.value;
    if |l.args| == 2 && l.event == Some(TransferEvent) {
      if l.args[0] >= TWO160 || l.args[1] >= TWO160 {
        return;
      }
      if l.args[0] == owner {
        entries := entries + Entry(Send, Token(l.address), amount, l.args[1], LogEntry(l.index, ""));
      }
      if l.args[1] == owner {
        entries := entries + Entry(Receive, Token(l.address), amount, l.args[0], LogEntry(l.index, ""));
      }
    }
    if WrapsEther(chain) && l.address == SEPOLIA_WETH && |l.args| == 1 && l.args[0] == owner {
      if l.event == Some(DepositEvent) {
        entries := entries + Entry(Receive, Token(l.address), amount, l.address, LogEntry(l.index, ":deposit"));
      }
      if l.event == Some(WithdrawalEvent) {
        entries := entries + Entry(Send, Token(l.address), amount, l.address, LogEntry(l.index, ":withdraw"));
        entries := entries + Entry(Receive, Native("ETH"), amount, l.address, LogEntry(l.index, ":withdraw ETH"));
      }
    }
  }

  // ---------------------------------------------------------------- double entry

  /** What moved, in order, between a ledger's owner and one other address. */
  function Moved(ledger: seq<Movement>, kind: Kind, other: Address): seq<(Asset, nat)> {
    if ledger == [] then []
    else
      var last := ledger[|ledger|-1];
      Moved(ledger[..|ledger|-1], kind, other)
      + (if last.kind == kind && last.other == other then [(last.asset, last.amount)] else [])
  }

  lemma {:induction false} MovedConcat(a: seq<Movement>, b: seq<Movement>, kind: Kind, other: Address)
    ensures Moved(a + b, kind, other) == Moved(a, kind, other) + Moved(b, kind, other)
  {
    if b == [] {
      assert a + b == a;
    } else {
      assert (a + b)[..|a + b|-1] == a + b[..|b|-1];
      MovedConcat(a, b[..|b|-1], kind, other);
    }
  }

  lemma MovedEntry(k: Kind, asset: Asset, amount: nat, o: Address, e: Evidence, kind: Kind, other: Address)
    ensures Moved(Entry(k, asset, amount, o, e), kind, other)
      == if amount > 0 && k == kind && o == other then [(asset, amount)] else []
  {
    assert Moved([], kind, other) == [];
    if amount > 0 {
      assert [Movement(k, asset, amount, o, e)][..0] == [];
    }
  }

  /** Neither address is the wrapping contract, where wrapping is recognised. */
  predicate Ordinary(a: Address, chain: Option<int>) {
    a < TWO160 && (WrapsEther(chain) ==> a != SEPOLIA_WETH)
  }

  lemma TransferBalances(l: Log, a: Address, b: Address)
    ensures Moved(TransferEntries(l, a), Send, b) == Moved(TransferEntries(l, b), Receive, a)
  {
    hide Moved, Entry;
    NothingMoved(Send, b);
    NothingMoved(Receive, a);
    if l.data.Some? && |l.args| == 2 {
      var asset, amount, e := Token(l.address), l.data.value, LogEntry(l.index, "");
      Pair(Send, asset, amount, l.args[1], Receive, l.args[0], e, Send, b, l.args[0] == a, l.args[1] == a);
      Pair(Send, asset, amount, l.args[1], Receive, l.args[0], e, Receive, a, l.args[0] == b, l.args[1] == b);
    }
  }

  lemma NothingMoved(kind: Kind, other: Address)
    ensures Moved([], kind, other) == []
  {
  }

  /** Two optional entries one after the other. */
  lemma Pair(k0: Kind, asset: Asset, amount: nat, o0: Address, k1: Kind, o1: Address, e: Evidence,
    kind: Kind, other: Address, first: bool, second: bool)
    ensures Moved((if first then Entry(k0, asset, amount, o0, e) else [])
        + (if second then Entry(k1, asset, amount, o1, e) else []), kind, other)
      == (if first && amount > 0 && k0 == kind && o0 == other then [(asset, amount)] else [])
         + (if second && amount > 0 && k1 == kind && o1 == other then [(asset, amount)] else [])
  {
    hide Moved, Entry;
    MovedConcat(if first then Entry(k0, asset, amount, o0, e) else [],
      if second then Entry(k1, asset, amount, o1, e) else [], kind, other);
    MovedEntry(k0, asset, amount, o0, e, kind, other);
    MovedEntry(k1, asset, amount, o1, e, kind, other);
    NothingMoved(kind, other);
  }

  /** Wrapping entries are with the wrapping contract only. */
  lemma WrapsApart(l: Log, owner: Address, chain: Option<int>, kind: Kind, other: Address)
    requires WrapsEther(chain) ==> other != SEPOLIA_WETH
    ensures Moved(WrapEntries(l, owner, chain), kind, other) == []
  {
    hide Moved, Entry;
    NothingMoved(kind, other);
    if l.data.Some? {
      var amount, token := l.data.value, Token(l.address);
      MovedEntry(Receive, token, amount, l.address, LogEntry(l.index, ":deposit"), kind, other);
      MovedEntry(Send, token, amount, l.address, LogEntry(l.index, ":withdraw"), kind, other);
      MovedEntry(Receive, Native("ETH"), amount, l.address, LogEntry(l.index, ":withdraw ETH"), kind, other);
      MovedConcat(Entry(Send, token, amount, l.address, LogEntry(l.index, ":withdraw")),
        Entry(Receive, Native("ETH"), amount, l.address, LogEntry(l.index, ":withdraw ETH")), kind, other);
    }
  }

  lemma {:induction false} LogsBalance(logs: seq<Option<Log>>, a: Address, b: Address, chain: Option<int>)
    requires forall l :: l in logs ==> l.Some?
    requires Ordinary(a, chain) && Ordinary(b, chain)
    ensures Moved(AllLogEntries(logs, a, chain), Send, b) == Moved(AllLogEntries(logs, b, chain), Receive, a)
  {
    hide Moved, TransferEntries, WrapEntries;
    if logs != [] {
      var front := logs[..|logs|-1];
      assert logs[|logs|-1] in logs;
      var l := logs[|logs|-1].value;
      LogsBalance(front, a, b, chain);
      TransferBalances(l, a, b);
      WrapsApart(l, a, chain, Send, b);
      WrapsApart(l, b, chain, Receive, a);
      MovedConcat(TransferEntries(l, a), WrapEntries(l, a, chain), Send, b);
      MovedConcat(TransferEntries(l, b), WrapEntries(l, b, chain), Receive, a);
      MovedConcat(AllLogEntries(front, a, chain), LogEntries(l, a, chain), Send, b);
      MovedConcat(AllLogEntries(front, b, chain), LogEntries(l, b, chain), Receive, a);
    } else {
      NothingMoved(Send, b);
      NothingMoved(Receive, a);
    }
  }

  /** The one payment without a counterpart: the value a creation gives to the new contract. */
  predicate PaysNewContract(tx: Tx, r: Receipt, from: Address, a: Address, b: Address) {
    tx.to.None? && r.succeeded && tx.value > 0 && a == from && b == r.contractAddress
  }

  lemma ValueBalances(tx: Tx, r: Receipt, from: Address, a: Address, b: Address, chain: Option<int>)
    requires r.succeeded
    ensures var paid := [(NativeOf(chain), tx.value)];
      && Moved(ValueEntries(tx, r, from, b, chain), Receive, a)
         == (if tx.to == Some(b) && from == a && tx.value > 0 then paid else [])
      && Moved(ValueEntries(tx, r, from, a, chain), Send, b)
         == (if PaysNewContract(tx, r, from, a, b) || (tx.to == Some(b) && from == a && tx.value > 0) then paid else [])
  {
    hide Moved, Entry;
    var target := if tx.to.Some? then tx.to.value else r.contractAddress;
    Pair(Send, NativeOf(chain), tx.value, target, Receive, from, TxValue, Receive, a, from == b, tx.to == Some(b));
    Pair(Send, NativeOf(chain), tx.value, target, Receive, from, TxValue, Send, b, from == a, tx.to == Some(a));
  }

  /** Double entry: what a's ledger sends to b is, entry by entry, what b's ledger receives from a,
      exactly unless a creation pays its new contract. */
  lemma DoubleEntry(tx: Tx, r: Receipt, from: Address, a: Address, b: Address, chain: Option<int>)
    requires Ordinary(a, chain) && Ordinary(b, chain)
    ensures ReceiptLedger(tx, r, from, a, chain).Some? == ReceiptLedger(tx, r, from, b, chain).Some?
    ensures ReceiptLedger(tx, r, from, a, chain).Some? ==>
      var sends := Moved(ReceiptLedger(tx, r, from, a, chain).value, Send, b);
      var receives := Moved(ReceiptLedger(tx, r, from, b, chain).value, Receive, a);
      sends == receives <==> !PaysNewContract(tx, r, from, a, b)
  {
    hide Moved, Entry, ValueEntries, AllLogEntries, LogsOk;
    MovedEntry(Fee, NativeOf(chain), r.gasUsed * r.gasPrice, 0, GasPaid, Send, b);
    MovedEntry(Fee, NativeOf(chain), r.gasUsed * r.gasPrice, 0, GasPaid, Receive, a);
    NothingMoved(Send, b);
    NothingMoved(Receive, a);
    if r.succeeded && LogsOk(r.logs, r) {
      SoundLogs(r.logs, r);
      ValueBalances(tx, r, from, a, b, chain);
      LogsBalance(r.logs, a, b, chain);
      var fa, va, la := FeeEntries(r, from, a, chain), ValueEntries(tx, r, from, a, chain), AllLogEntries(r.logs, a, chain);
      var fb, vb, lb := FeeEntries(r, from, b, chain), ValueEntries(tx, r, from, b, chain), AllLogEntries(r.logs, b, chain);
      MovedConcat(fa, va, Send, b);
      MovedConcat(fa + va, la, Send, b);
      MovedConcat(fb, vb, Receive, a);
      MovedConcat(fb + vb, lb, Receive, a);
    }
  }

  lemma SoundLogs(logs: seq<Option<Log>>, r: Receipt)
    requires LogsOk(logs, r)
    ensures forall l :: l in logs ==> l.Some?
  {
  }
}
