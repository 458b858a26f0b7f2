/** Reading USDT transfers from the chain: the log parser, the fallback call decoder and the final check of a
    receipt. Amounts are exact raw units of 10^-18 USDT; a JSON field that is absent is its code default. */
module Chain {
  import opened Prelude
  import opened Text

  const USDT_NUMBER: nat := 0x55d398326f99059ff775485246999027b3197955
  const TRANSFER_NUMBER: nat := 0xddf252ad1be2c89b69c2b068fc378daa952ba7f163c4a11628f55a4df523b3ef
  const USDT_CONTRACT := "0x" + HexDigits(USDT_NUMBER, 40)
  const TRANSFER_TOPIC := "0x" + HexDigits(TRANSFER_NUMBER, 64)
  const TRANSFER_SELECTOR := "0xa9059cbb"
  const TRANSFERFROM_SELECTOR := "0x23b872dd"
  const ZEROS_24 := "000000000000000000000000"

  /** Raw units in one micro-USDT. */
  const MICRO := 1_000_000_000_000
  /** The tolerance of `amount_matches`, in micro-USDT. */
  const TOLERANCE := 500

  datatype Log = Log(address: string, topics: seq<string>, data: string, blockNumber: string, txHash: string)
  datatype Tx = Tx(to: string, input: string, blockNumber: string, hash: string)
  datatype Transfer = Transfer(txHash: string, to: string, raw: nat, block: int)
  datatype Receipt = Receipt(status: string, blockNumber: string, logs: seq<Log>)

  predicate IsAddress(a: string) {
    |a| == 42 && a[0] == '0' && a[1] == 'x' && AllHex(a[2..])
  }

  function NormalizeAddress(a: string): string {
    Lower(Strip(a))
  }

  /** An address as a 32-byte topic. */
  function AddrTopic(a: string): string {
    var n := NormalizeAddress(a);
    "0x" + ZEROS_24 + (if |n| < 2 then "" else n[2..])
  }

  function Last(s: string, n: nat): string {
    if |s| <= n then s else s[|s| - n..]
  }

  function ParseTransferLog(log: Log): Option<Transfer> {
    if NormalizeAddress(log.address) != USDT_CONTRACT then None
    else if |log.topics| < 3 || Lower(log.topics[0]) != TRANSFER_TOPIC then None
    else
      var raw, block := ParseHex(log.data), ParseHex(log.blockNumber);
      if raw.None? || block.None? || log.txHash == "" then None
      else Some(Transfer(Lower(log.txHash), Lower("0x" + Last(log.topics[2], 40)), raw.value, block.value))
  }

  /** The recipient and amount words of a call payload; None if it is too short. */
  function CallWords(input: string): Option<(string, string)> {
    if |input| < 10 then None
    else
      var selector, payload := input[..10], input[10..];
      if selector == TRANSFER_SELECTOR then
        if |payload| < 128 then None else Some((payload[24..64], payload[64..128]))
      else if selector == TRANSFERFROM_SELECTOR then
        if |payload| < 192 then None else Some((payload[88..128], payload[128..192]))
      else None
  }

  function DecodeUsdtTx(tx: Tx, targets: set<string>): Option<Transfer> {
    if NormalizeAddress(tx.to) != USDT_CONTRACT then None
    else
      var words := CallWords(Lower(tx.input));
      if words.None? then None
      else
        var to, raw, block := Lower("0x" + words.value.0), ParseHex(words.value.1), ParseHex(tx.blockNumber);
        if raw.None? || to !in targets || block.None? || tx.hash == "" then None
        else Some(Transfer(Lower(tx.hash), to, raw.value, block.value))
  }

  // --- the two decoders agree ---------------------------------------------------

  /** A 256-bit ABI word. */
  function AmountWord(n: nat): string { HexDigits(n, 64) }

  function AddressWord(a: string): string
    requires IsAddress(a)
  {
    ZEROS_24 + a[2..]
  }

  /** The calldata and the Transfer event of the ERC-20 calls transfer and transferFrom. */
  function TransferCall(to: string, n: nat): string
    requires IsAddress(to)
  {
    TRANSFER_SELECTOR + AddressWord(to) + AmountWord(n)
  }

  function TransferFromCall(from: string, to: string, n: nat): string
    requires IsAddress(from) && IsAddress(to)
  {
    TRANSFERFROM_SELECTOR + AddressWord(from) + AddressWord(to) + AmountWord(n)
  }

  function TransferEvent(from: string, to: string, n: nat, block: string, hash: string): Log {
    Log(USDT_CONTRACT, [TRANSFER_TOPIC, AddrTopic(from), AddrTopic(to)], "0x" + AmountWord(n), block, hash)
  }

  lemma HexIsNoBlank(s: string)
    requires AllHex(s)
    ensures NoBlanks(s)
  {
  }

  lemma AddressNormal(a: string)
    requires IsAddress(a)
    ensures NormalizeAddress(a) == Lower(a) && IsAddress(Lower(a))
  {
    HexIsNoBlank(a[2..]);
    assert a == a[..2] + a[2..];
    StripNothing(a);
    assert AllHex(Lower(a)[2..]) by {
      forall i | 0 <= i < 40 ensures IsHexDigit(Lower(a)[2..][i]) {
        assert IsHexDigit(a[2..][i]);
      }
    }
  }

  /** An address as a topic is a word of 32 bytes, of which the first twelve are zero; reading its last 40 digits undoes
      `_addr_topic`, up to letter case. */
  lemma TopicRoundTrip(a: string)
    requires IsAddress(a)
    ensures "0x" + Last(AddrTopic(a), 40) == Lower(a)
    ensures |AddrTopic(a)| == 66 && AddrTopic(a)[..26] == "0x000000000000000000000000"
  {
    AddressNormal(a);
    assert Last(AddrTopic(a), 40) == Lower(a)[2..];
    assert Lower(a)[..2] == "0x";
  }

  lemma AmountWordParses(n: nat)
    requires n < Pow16(64)
    ensures ParseHex(AmountWord(n)) == Some(n) == ParseHex("0x" + AmountWord(n))
  {
    hide HexDigits, ParseHex, HexNumber;
    HexRoundTrip(n, 64);
    PrefixIsOptional(AmountWord(n));
  }

  lemma NoPrefix(w: string)
    requires AllHex(w) && |w| >= 2
    ensures !StartsWith(w, "0x") && !StartsWith(w, "0X")
  {
    assert w[1] in w;
    assert w[..2][1] == w[1] && !IsHexDigit('x') && !IsHexDigit('X');
  }

  lemma Prefixed(w: string)
    ensures StartsWith("0x" + w, "0x") && ("0x" + w)[2..] == w
  {
  }

  lemma PrefixIsOptional(w: string)
    requires AllHex(w) && |w| >= 2
    ensures ParseHex(w) == Some(HexNumber(w)) == ParseHex("0x" + w)
  {
    hide HexNumber, StartsWith, AllHex;
    NoPrefix(w);
    Prefixed(w);
  }

  lemma ContractIsNormal()
    ensures NormalizeAddress(USDT_CONTRACT) == USDT_CONTRACT && Lower(TRANSFER_TOPIC) == TRANSFER_TOPIC
  {
    hide HexDigits;
    assert USDT_CONTRACT[2..] == HexDigits(USDT_NUMBER, 40);
    AddressNormal(USDT_CONTRACT);
    LowerConcat("0x", USDT_CONTRACT[2..]);
    LowerConcat("0x", TRANSFER_TOPIC[2..]);
  }

  lemma Slices(selector: string, before: string, to: string, word: string)
    requires |selector| == 10 && |to| == 40 && |word| == 64
    ensures var s, p := Lower(selector + before + to + word), |before|;
            s[..10] == Lower(selector) && s[10..][p..p + 40] == Lower(to) && s[10..][p + 40..p + 104] == Lower(word)
  {
    var s, p := Lower(selector + before + to + word), |before|;
    assert s[..10] == Lower(selector);
    assert s[10..][p..p + 40] == s[10 + p..50 + p] && s[10 + p..50 + p] == Lower(to);
    assert s[10..][p + 40..p + 104] == s[50 + p..114 + p] && s[50 + p..114 + p] == Lower(word);
  }

  lemma SelectorsDiffer()
    ensures TRANSFER_SELECTOR != TRANSFERFROM_SELECTOR
    ensures Lower(TRANSFER_SELECTOR) == TRANSFER_SELECTOR && Lower(TRANSFERFROM_SELECTOR) == TRANSFERFROM_SELECTOR
  {
    assert TRANSFER_SELECTOR[2] != TRANSFERFROM_SELECTOR[2];
  }

  lemma CallWordsOf(from: string, to: string, n: nat)
    requires IsAddress(from) && IsAddress(to)
    ensures CallWords(Lower(TransferCall(to, n))) == Some((Lower(to)[2..], AmountWord(n)))
    ensures CallWords(Lower(TransferFromCall(from, to, n))) == Some((Lower(to)[2..], AmountWord(n)))
  {
    hide HexDigits, AllHex;
    SelectorsDiffer();
    assert Lower(AmountWord(n)) == AmountWord(n) && Lower(to[2..]) == Lower(to)[2..];
    assert TransferCall(to, n) == TRANSFER_SELECTOR + ZEROS_24 + to[2..] + AmountWord(n);
    Slices(TRANSFER_SELECTOR, ZEROS_24, to[2..], AmountWord(n));
    assert TransferFromCall(from, to, n)
        == TRANSFERFROM_SELECTOR + (AddressWord(from) + ZEROS_24) + to[2..] + AmountWord(n);
    Slices(TRANSFERFROM_SELECTOR, AddressWord(from) + ZEROS_24, to[2..], AmountWord(n));
  }

  lemma EventParses(from: string, to: string, n: nat, block: string, hash: string)
    requires IsAddress(to) && n < Pow16(64)
    ensures ParseTransferLog(TransferEvent(from, to, n, block, hash))
         == if ParseHex(block).None? || hash == "" then None
            else Some(Transfer(Lower(hash), Lower(to), n, ParseHex(block).value))
  {
    hide HexDigits, NormalizeAddress, AddrTopic, ParseHex, Last, Pow16;
    AmountWordParses(n);
    ContractIsNormal();
    TopicRoundTrip(to);
    AddressNormal(to);
    assert Lower(Lower(to)) == Lower(to) by { LowerIdempotent(to); }
    LowerConcat("0x", Last(AddrTopic(to), 40));
  }

  lemma CallDecodes(from: string, to: string, n: nat, tx: Tx, targets: set<string>)
    requires IsAddress(from) && IsAddress(to) && n < Pow16(64)
    requires Lower(tx.input) == Lower(TransferCall(to, n)) || Lower(tx.input) == Lower(TransferFromCall(from, to, n))
    ensures DecodeUsdtTx(tx, targets)
         == if NormalizeAddress(tx.to) != USDT_CONTRACT || Lower(to) !in targets
               || ParseHex(tx.blockNumber).None? || tx.hash == "" then None
            else Some(Transfer(Lower(tx.hash), Lower(to), n, ParseHex(tx.blockNumber).value))
  {
    hide HexDigits, NormalizeAddress, CallWords, TransferCall, TransferFromCall, ParseHex, Pow16;
    CallWordsOf(from, to, n);
    AmountWordParses(n);
    LowerIdempotent(to);
    assert "0x" + Lower(to)[2..] == Lower(to);
  }

  /** For every ERC-20 call, in any letter case, the fallback decoder reads from the calldata exactly what the log
      parser reads from the event the call emits, if the contract is called and the recipient watched; else it reads
      nothing. */
  lemma DecodersAgree(from: string, to: string, n: nat, block: string, hash: string,
                      contract: string, input: string, targets: set<string>)
    requires IsAddress(from) && IsAddress(to) && n < Pow16(64)
    requires Lower(input) == Lower(TransferCall(to, n)) || Lower(input) == Lower(TransferFromCall(from, to, n))
    ensures var event := ParseTransferLog(TransferEvent(from, to, n, block, hash));
            && DecodeUsdtTx(Tx(contract, input, block, hash), targets)
                 == (if NormalizeAddress(contract) == USDT_CONTRACT && Lower(to) in targets then event else None)
            && (event.Some? <==> ParseHex(block).Some? && hash != "")
            && (event.Some? ==> event.value == Transfer(Lower(hash), Lower(to), n, ParseHex(block).value))
  {
    hide *;
    EventParses(from, to, n, block, hash);
    CallDecodes(from, to, n, Tx(contract, input, block, hash), targets);
  }

  // --- transaction hashes ---------------------------------------------------------

  predicate IsTxHash(h: string) {
    |h| == 66 && h[..2] == "0x" && AllHex(h[2..])
  }

  function SearchTxHash(s: string): string {
    if |s| < 66 then ""
    else if IsTxHash(s[..66]) then Lower(s[..66])
    else SearchTxHash(s[1..])
  }

  /** The first 0x + 64 hexadecimal digits in a message or link, in lower case; "" if there is none. */
  function ExtractTxHash(text: string): string {
    SearchTxHash(Strip(text))
  }

  lemma {:induction false} SearchFindsHash(s: string)
    ensures SearchTxHash(s) == "" || (IsTxHash(SearchTxHash(s)) && Lower(SearchTxHash(s)) == SearchTxHash(s))
  {
    if |s| >= 66 {
      if IsTxHash(s[..66]) {
        var h, r := s[..66], Lower(s[..66]);
        assert r[..2] == "0x";
        forall i | 0 <= i < 64 ensures IsHexDigit(r[2..][i]) {
          assert IsHexDigit(h[2..][i]);
        }
        LowerIdempotent(h);
      } else {
        SearchFindsHash(s[1..]);
      }
    }
  }

  /** Extracting again changes nothing, so the hash a user submits is the hash whose receipt is read. */
  lemma ExtractIdempotent(text: string)
    ensures var h := ExtractTxHash(text);
            Lower(h) == h && ExtractTxHash(h) == h && (h != "" ==> IsTxHash(h))
  {
    SearchFindsHash(Strip(text));
    var h := ExtractTxHash(text);
    if h != "" {
      HexIsNoBlank(h[2..]);
      assert h == h[..2] + h[2..];
      StripNothing(h);
      assert h[..66] == h;
    }
  }

  /** A hash is a numeral of 64 hexadecimal digits behind 0x. */
  predicate HashAt(s: string, i: nat) {
    i + 66 <= |s| && s[i] == '0' && s[i + 1] == 'x' && ParseHex(s[i..i + 66]).Some?
  }

  lemma HashAtIff(s: string, i: nat)
    requires i + 66 <= |s|
    ensures HashAt(s, i) <==> IsTxHash(s[i..i + 66])
  {
    var h := s[i..i + 66];
    assert h[..2] == [h[0], h[1]];
  }

  /** The search finds the first hash of a text, in lower case, and nothing only if there is none. */
  lemma {:induction false} SearchIsFirst(s: string, i: nat)
    requires HashAt(s, i) && forall j: nat :: j < i ==> !HashAt(s, j)
    ensures SearchTxHash(s) == Lower(s[i..i + 66])
  {
    hide Lower, ParseHex, IsTxHash;
    HashAtIff(s, 0);
    assert s[0..66] == s[..66];
    if i > 0 {
      assert s[1..][i - 1..i + 65] == s[i..i + 66];
      forall j: nat | j < i - 1 ensures !HashAt(s[1..], j) {
        assert !HashAt(s, j + 1);
        assert j + 66 <= |s[1..]| ==> s[1..][j..j + 66] == s[j + 1..j + 67];
      }
      SearchIsFirst(s[1..], i - 1);
    } else {
      assert IsTxHash(s[..66]);
      SearchHit(s);
    }
  }

  lemma SearchHit(s: string)
    requires |s| >= 66 && IsTxHash(s[..66])
    ensures SearchTxHash(s) == Lower(s[..66])
  {
  }

  lemma {:induction false} SearchIsComplete(s: string)
    ensures SearchTxHash(s) == "" <==> forall i: nat :: !HashAt(s, i)
  {
    if i: nat :| HashAt(s, i) {
      var first := FirstHash(s, i);
      SearchIsFirst(s, first);
      assert |Lower(s[first..first + 66])| == 66;
    } else {
      SearchMisses(s);
    }
  }

  lemma {:induction false} FirstHash(s: string, i: nat) returns (first: nat)
    requires HashAt(s, i)
    ensures first <= i && HashAt(s, first) && forall j: nat :: j < first ==> !HashAt(s, j)
    decreases i
  {
    if j: nat :| j < i && HashAt(s, j) {
      first := FirstHash(s, j);
    } else {
      first := i;
    }
  }

  lemma {:induction false} SearchMisses(s: string)
    requires forall i: nat :: !HashAt(s, i)
    ensures SearchTxHash(s) == ""
  {
    hide ParseHex, IsTxHash;
    if |s| >= 66 {
      HashAtIff(s, 0);
      assert s[0..66] == s[..66] && !HashAt(s, 0);
      forall j: nat ensures !HashAt(s[1..], j) {
        assert !HashAt(s, j + 1);
        assert j + 66 <= |s[1..]| ==> s[1..][j..j + 66] == s[j + 1..j + 67];
      }
      SearchMisses(s[1..]);
    }
  }

  /** The hash read from a message or link is its first one, in lower case; blanks around the message do not count. */
  lemma ExtractsFirstHash(before: string, text: string, after: string, i: nat)
    requires OnlyBlanks(before) && OnlyBlanks(after) && Bare(text)
    ensures HashAt(text, i) && (forall j: nat :: j < i ==> !HashAt(text, j)) ==>
              ExtractTxHash(before + text + after) == Lower(text[i..i + 66])
    ensures ExtractTxHash(before + text + after) == "" <==> forall j: nat :: !HashAt(text, j)
  {
    hide HashAt, Strip, OnlyBlanks, Bare, SearchTxHash, Lower;
    StripTakesBlanks(before, text, after);
    SearchIsComplete(text);
    if HashAt(text, i) && forall j: nat :: j < i ==> !HashAt(text, j) {
      SearchIsFirst(text, i);
    }
  }

  // --- the final check ----------------------------------------------------------------

  datatype Reason = BadHash | NotFound | Reverted | NoTransfer | TooOld | TooLittle | Unconfirmed | Verified
  datatype Verdict = Verdict(reason: Reason, total: nat)

  /** What a deposit is checked against. */
  datatype Demand = Demand(address: string, minAmount: int, confirmations: int, minBlock: nat)

  function PaidBy(log: Log, target: string): nat {
    var t := ParseTransferLog(log);
    if t.Some? && t.value.to == target then t.value.raw else 0
  }

  function PaidTo(logs: seq<Log>, target: string): nat {
    if logs == [] then 0 else PaidTo(logs[..|logs| - 1], target) + PaidBy(logs[|logs| - 1], target)
  }

  function BlockOf(r: Receipt): nat {
    if ParseHex(r.blockNumber).Some? then ParseHex(r.blockNumber).value else 0
  }

  function AtLeastOne(n: int): int {
    if n < 1 then 1 else n
  }

  /** What makes a receipt a valid deposit for a demand. */
  predicate Backs(r: Receipt, head: nat, d: Demand) {
    && Lower(r.status) in {"0x1", "1"}
    && BlockOf(r) != 0
    && head - BlockOf(r) + 1 >= AtLeastOne(d.confirmations)
    && (d.minBlock != 0 ==> BlockOf(r) >= d.minBlock)
    && PaidTo(r.logs, NormalizeAddress(d.address)) > 0
    && PaidTo(r.logs, NormalizeAddress(d.address)) >= (d.minAmount - TOLERANCE) * MICRO
  }

  /** A Transfer event of the official contract. */
  predicate IsOfficial(log: Log) {
    NormalizeAddress(log.address) == USDT_CONTRACT && |log.topics| >= 3 && Lower(log.topics[0]) == TRANSFER_TOPIC
  }

  /** An official event whose recipient, the last 20 bytes of its third topic, is the target. */
  predicate IsTransferTo(log: Log, target: string) {
    IsOfficial(log) && Lower("0x" + Last(log.topics[2], 40)) == target
  }

  /** `verify_deposit_tx`, given the RPC's replies: the receipt (None if unknown or the call failed) and the head block
      (0 if unknown). It accepts exactly the receipts that back the demand, and no receipt without an official transfer
      to the demand's address. The first failed check is the reason given. */
  method VerifyDepositTx(txHash: string, receipt: Option<Receipt>, head: nat, demand: Demand) returns (v: Verdict)
    ensures v.reason == Verified <==> ExtractTxHash(txHash) != "" && receipt.Some? && Backs(receipt.value, head, demand)
    ensures v.reason == BadHash <==> ExtractTxHash(txHash) == ""
    ensures v.reason == NotFound <==> ExtractTxHash(txHash) != "" && receipt.None?
    ensures v.reason == Reverted <==>
              ExtractTxHash(txHash) != "" && receipt.Some? && Lower(receipt.value.status) !in {"0x1", "1"}
    ensures receipt.Some? && v.reason !in {BadHash, Reverted} ==>
              && (v.reason == NoTransfer <==> v.total == 0)
              && (v.reason == TooOld <==> v.total > 0 && 0 < BlockOf(receipt.value) < demand.minBlock)
              && (v.reason == TooLittle ==> v.total < (demand.minAmount - 500) * 1_000_000_000_000)
              && (v.reason == Unconfirmed ==>
                    BlockOf(receipt.value) == 0 || head - BlockOf(receipt.value) + 1 < Max(1, demand.confirmations))
    ensures v.reason in {TooOld, TooLittle, Unconfirmed, Verified} ==>
              exists k :: 0 <= k < |receipt.value.logs|
                          && IsTransferTo(receipt.value.logs[k], NormalizeAddress(demand.address))
    ensures receipt.Some? && v.reason !in {BadHash, Reverted} ==>
              v.total == PaidTo(receipt.value.logs, NormalizeAddress(demand.address))
  {
    hide ParseTransferLog, NormalizeAddress, ExtractTxHash;
    if ExtractTxHash(txHash) == "" {
      return Verdict(BadHash, 0);
    }
    if receipt.None? {
      return Verdict(NotFound, 0);
    }
    var r := receipt.value;
    if Lower(r.status) != "0x1" && Lower(r.status) != "1" {
      return Verdict(Reverted, 0);
    }
    var block := BlockOf(r);
    var confs := if head != 0 && block != 0 then head - block + 1 else 0;
    var target := NormalizeAddress(demand.address);
    var total := 0;
    for k := 0 to |r.logs|
      invariant total == PaidTo(r.logs[..k], target)
    {
      assert r.logs[..k + 1][..k] == r.logs[..k];
      var t := ParseTransferLog(r.logs[k]);
      if t.Some? && t.value.to == target {
        total := total + t.value.raw;
      }
    }
    assert r.logs[..|r.logs|] == r.logs;
    if total <= 0 {
      return Verdict(NoTransfer, 0);
    }
    SomeTransferPays(r.logs, target);
    if demand.minBlock != 0 && block != 0 && block < demand.minBlock {
      return Verdict(TooOld, total);
    }
    if total < (demand.minAmount - TOLERANCE) * MICRO {
      return Verdict(TooLittle, total);
    }
    if confs < AtLeastOne(demand.confirmations) {
      return Verdict(Unconfirmed, total);
    }
    v := Verdict(Verified, total);
  }

  /** No transfer is ever addressed to the empty string, so a row never prepared for crypto cannot be settled. */
  lemma {:induction false} NothingPaidToNobody(logs: seq<Log>)
    ensures PaidTo(logs, "") == 0
  {
    if logs != [] {
      NothingPaidToNobody(logs[..|logs| - 1]);
    }
  }

  lemma {:induction false} SomeTransferPays(logs: seq<Log>, target: string)
    ensures PaidTo(logs, target) > 0 ==> exists k :: 0 <= k < |logs| && IsTransferTo(logs[k], target)
  {
    hide NormalizeAddress;
    if PaidTo(logs, target) > 0 {
      var last := |logs| - 1;
      SomeTransferPays(logs[..last], target);
      assert PaidBy(logs[last], target) > 0 ==> IsTransferTo(logs[last], target);
    }
  }

  lemma {:induction false} PaidToAppend(logs: seq<Log>, more: seq<Log>, target: string)
    ensures PaidTo(logs + more, target) == PaidTo(logs, target) + PaidTo(more, target)
  {
    hide PaidBy;
    if more == [] {
      assert logs + more == logs;
    } else {
      var less := more[..|more| - 1];
      PaidToAppend(logs, less, target);
      assert (logs + more)[..|logs + more| - 1] == logs + less;
    }
  }

  lemma ForeignPaysNothing(log: Log, target: string)
    ensures !IsOfficial(log) ==> PaidTo([log], target) == 0
  {
    hide NormalizeAddress;
    assert [log][..0] == [];
  }

  /** Logs of other contracts or events, wherever they stand in a receipt, add nothing to what it pays. */
  lemma ForeignLogsPayNothing(before: seq<Log>, log: Log, after: seq<Log>, target: string)
    ensures !IsOfficial(log) ==> PaidTo(before + [log] + after, target) == PaidTo(before + after, target)
  {
    hide PaidTo, IsOfficial;
    PaidToAppend(before + [log], after, target);
    PaidToAppend(before, [log], target);
    PaidToAppend(before, after, target);
    ForeignPaysNothing(log, target);
  }

  // --- what transfers pay --------------------------------------------------------------------

  /** An ERC-20 transfer of raw units. */
  datatype Payout = Payout(from: string, to: string, raw: nat)

  predicate GoodPayout(p: Payout) {
    IsAddress(p.to) && p.raw < Pow16(64)
  }

  /** The events of one transaction, in order. */
  function Events(ps: seq<Payout>, block: string, hash: string): seq<Log> {
    if ps == [] then []
    else
      var p := ps[|ps| - 1];
      Events(ps[..|ps| - 1], block, hash) + [TransferEvent(p.from, p.to, p.raw, block, hash)]
  }

  /** What they send to an address, in lower case. */
  function SentTo(ps: seq<Payout>, target: string): nat {
    if ps == [] then 0
    else SentTo(ps[..|ps| - 1], target) + if Lower(ps[|ps| - 1].to) == target then ps[|ps| - 1].raw else 0
  }

  /** The receipt of a transaction pays an address exactly what its transfers send there. */
  lemma {:induction false} TransfersPay(ps: seq<Payout>, block: string, hash: string, target: string)
    requires ParseHex(block).Some? && hash != "" && forall p :: p in ps ==> GoodPayout(p)
    ensures PaidTo(Events(ps, block, hash), target) == SentTo(ps, target)
  {
    hide ParseTransferLog, TransferEvent, ParseHex, GoodPayout;
    if ps != [] {
      var p, front := ps[|ps| - 1], Events(ps[..|ps| - 1], block, hash);
      TransfersPay(ps[..|ps| - 1], block, hash, target);
      assert p in ps && GoodPayout(p);
      assert IsAddress(p.to) && p.raw < Pow16(64) by { GoodPayoutIs(p); }
      EventParses(p.from, p.to, p.raw, block, hash);
      var e := TransferEvent(p.from, p.to, p.raw, block, hash);
      assert (front + [e])[..|front|] == front;
    }
  }

  lemma GoodPayoutIs(p: Payout)
    requires GoodPayout(p)
    ensures IsAddress(p.to) && p.raw < Pow16(64)
  {
    hide Pow16;
  }

  /** Blanks around an address do not count, nor does its letter case. */
  lemma AddressInBlanks(before: string, address: string, after: string)
    requires OnlyBlanks(before) && OnlyBlanks(after) && IsAddress(address)
    ensures NormalizeAddress(before + address + after) == Lower(address)
  {
    hide Strip, OnlyBlanks, Lower;
    BlankIff(address[0]);
    BlankIff(address[41]);
    assert address[41] == address[2..][39] && IsHexDigit(address[41]);
    StripTakesBlanks(before, address, after);
  }

  /** The check of a transaction of transfers, in the numbers of its inputs: it is accepted exactly if it succeeded in a
      readable block other than 0, has at least the demanded confirmations and at least one, is not before a demanded
      block, and sends the address something, and at least the demanded amount less 500 micro-units. */
  lemma TransfersBackIff(ps: seq<Payout>, hash: string, logBlock: string, status: string, block: string, head: nat,
                         address: string, minAmount: int, required: int, minBlock: nat, before: string, after: string)
    requires hash != "" && IsAddress(address) && forall p :: p in ps ==> GoodPayout(p)
    requires OnlyBlanks(before) && OnlyBlanks(after)
    ensures ParseHex(logBlock).Some? ==>
              var b, sent := ParseHex(block), SentTo(ps, Lower(address));
              Backs(Receipt(status, block, Events(ps, logBlock, hash)), head,
                    Demand(before + address + after, minAmount, required, minBlock))
              <==> && (status == "1" || status == "0x1" || status == "0X1") && b.Some? && b.value > 0
                   && b.value <= head && b.value + required <= head + 1 && minBlock <= b.value
                   && sent > 0 && sent + 500_000_000_000_000 >= minAmount * 1_000_000_000_000
  {
    hide ParseHex, PaidTo, Events, NormalizeAddress, GoodPayout, SentTo, IsAddress, OnlyBlanks;
    AddressInBlanks(before, address, after);
    if ParseHex(logBlock).Some? {
      TransfersPay(ps, logBlock, hash, Lower(address));
      SuccessIs(status);
    }
  }

  lemma SuccessIs(status: string)
    ensures Lower(status) in {"0x1", "1"} <==> status == "1" || status == "0x1" || status == "0X1"
  {
    if Lower(status) == "0x1" {
      var low := Lower(status);
      assert low[0] == '0' && low[1] == 'x' && low[2] == '1';
      assert status == [status[0], status[1], status[2]];
    } else if Lower(status) == "1" {
      assert Lower(status)[0] == '1';
      assert status == [status[0]];
    }
    assert Lower("0X1") == "0x1" && Lower("0x1") == "0x1" && Lower("1") == "1";
  }
}
