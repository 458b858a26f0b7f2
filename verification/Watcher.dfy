/** The watcher's arithmetic: which invoice a deposit matches and which blocks a tick scans. */
module Watcher {
  import opened Prelude
  import opened Text
  import opened Tables
  import opened Chain
  import opened RpcPoolClass

  const MAX_BACKFILL_BLOCKS := 2000
  const BLOCKSCAN_WINDOW := 40

  /** A payment row together with its order id. */
  datatype Invoice = Invoice(order: string, row: Payment)

  // --- matching by unique amount --------------------------------------------------

  function Abs(n: int): int { if n < 0 then -n else n }

  predicate Matches(p: Payment, m: Transfer) {
    && NormalizeAddress(p.payAddress) == m.to
    && p.payAmount > 0
    && m.block >= p.startBlock
    && Abs(m.raw - p.payAmount * MICRO) <= MICRO
  }

  function FindPayment(waiting: seq<Invoice>, m: Transfer): Option<Invoice> {
    if waiting == [] then None
    else if Matches(waiting[0].row, m) then Some(waiting[0])
    else FindPayment(waiting[1..], m)
  }

  /** The loop of `_find_payment`. */
  method FindFirst(waiting: seq<Invoice>, m: Transfer) returns (r: Option<Invoice>)
    ensures r == FindPayment(waiting, m)
  {
    for k := 0 to |waiting|
      invariant FindPayment(waiting, m) == FindPayment(waiting[k..], m)
    {
      if Matches(waiting[k].row, m) {
        return Some(waiting[k]);
      }
      assert waiting[k..][1..] == waiting[k + 1..];
    }
    r := None;
  }

  /** Amounts for one address lie more than two micro-USDT apart. */
  ghost predicate Separated(waiting: seq<Invoice>) {
    forall i, j | 0 <= i < j < |waiting| :: Apart(waiting[i].row, waiting[j].row)
  }

  predicate Apart(p: Payment, q: Payment) {
    NormalizeAddress(p.payAddress) == NormalizeAddress(q.payAddress) && p.payAmount > 0 && q.payAmount > 0
    ==> Abs(p.payAmount - q.payAmount) > 2
  }

  ghost predicate AtMostOneMatch(waiting: seq<Invoice>, m: Transfer) {
    forall i, j | 0 <= i < j < |waiting| :: !(Matches(waiting[i].row, m) && Matches(waiting[j].row, m))
  }

  lemma ApartMeansNoCommonDeposit(p: Payment, q: Payment, m: Transfer)
    requires Apart(p, q) && Matches(p, m)
    ensures !Matches(q, m)
  {
  }

  /** A deposit that two invoices both match. */
  function CommonDeposit(p: Payment, q: Payment): Transfer
  {
    Transfer("", NormalizeAddress(p.payAddress), Max(0, (p.payAmount + q.payAmount) * (MICRO / 2)),
             if p.startBlock < q.startBlock then q.startBlock else p.startBlock)
  }

  lemma CommonDepositMatches(p: Payment, q: Payment)
    requires !Apart(p, q)
    ensures Matches(p, CommonDeposit(p, q)) && Matches(q, CommonDeposit(p, q))
  {
    hide NormalizeAddress;
  }

  /** Separation by more than two micro-units is exactly what makes every deposit unambiguous. */
  lemma SeparatedIffUnambiguous(waiting: seq<Invoice>)
    ensures Separated(waiting) <==> forall m: Transfer :: AtMostOneMatch(waiting, m)
  {
    hide Matches, Apart, CommonDeposit;
    if Separated(waiting) {
      forall m: Transfer, i, j | 0 <= i < j < |waiting| && Matches(waiting[i].row, m)
        ensures !Matches(waiting[j].row, m)
      {
        ApartMeansNoCommonDeposit(waiting[i].row, waiting[j].row, m);
      }
    } else {
      var i, j :| 0 <= i < j < |waiting| && !Apart(waiting[i].row, waiting[j].row);
      CommonDepositMatches(waiting[i].row, waiting[j].row);
      assert !AtMostOneMatch(waiting, CommonDeposit(waiting[i].row, waiting[j].row));
    }
  }

  lemma {:induction false} FindPaymentFinds(waiting: seq<Invoice>, m: Transfer)
    ensures var r := FindPayment(waiting, m);
            && (r.Some? ==> r.value in waiting && Matches(r.value.row, m))
            && (r.None? ==> forall p :: p in waiting ==> !Matches(p.row, m))
  {
    if waiting != [] {
      FindPaymentFinds(waiting[1..], m);
    }
  }

  /** Over separated amounts the match does not depend on the order of the list. */
  lemma MatchIgnoresOrder(waiting: seq<Invoice>, shuffled: seq<Invoice>, m: Transfer)
    requires Separated(waiting) && multiset(waiting) == multiset(shuffled)
    ensures FindPayment(waiting, m) == FindPayment(shuffled, m)
  {
    FindPaymentFinds(waiting, m);
    FindPaymentFinds(shuffled, m);
    SeparatedIffUnambiguous(waiting);
    assert forall p :: p in waiting <==> p in multiset(waiting);
    assert forall p :: p in shuffled <==> p in multiset(shuffled);
    var r, s := FindPayment(waiting, m), FindPayment(shuffled, m);
    if r.Some? && s.Some? {
      assert s.value in waiting;
      var i :| 0 <= i < |waiting| && waiting[i] == r.value;
      var j :| 0 <= j < |waiting| && waiting[j] == s.value;
      assert AtMostOneMatch(waiting, m);
    }
  }

  /** Being merely different is too weak: of two invoices for one address, an exact payment of the second is taken for
      the first exactly when their amounts are at most one micro-unit apart and the first is not newer than the
      block. */
  lemma ExactPaymentTakenForOther(a: Invoice, b: Invoice, txHash: string, block: nat)
    requires NormalizeAddress(a.row.payAddress) == NormalizeAddress(b.row.payAddress)
    requires a.row.payAmount > 0 && b.row.payAmount > 0 && a.row.payAmount != b.row.payAmount
    requires block >= b.row.startBlock
    ensures var exact := Transfer(txHash, NormalizeAddress(b.row.payAddress), b.row.payAmount * MICRO, block);
            FindPayment([a, b], exact)
            == Some(if Abs(a.row.payAmount - b.row.payAmount) <= 1 && block >= a.row.startBlock then a else b)
  {
    var exact := Transfer(txHash, NormalizeAddress(b.row.payAddress), b.row.payAmount * MICRO, block);
    assert [a, b][1..] == [b];
    assert Matches(a.row, exact) <==> Abs(a.row.payAmount - b.row.payAmount) <= 1 && block >= a.row.startBlock;
    assert FindPayment([b], exact) == Some(b);
  }

  // --- the scan window ----------------------------------------------------------------

  function PositiveStarts(waiting: seq<Invoice>): seq<int> {
    if waiting == [] then []
    else
      (if waiting[0].row.startBlock > 0 then [waiting[0].row.startBlock as int] else []) + PositiveStarts(waiting[1..])
  }

  function MinOf(s: seq<int>): int
    requires s != []
  {
    if |s| == 1 then s[0] else Min(s[0], MinOf(s[1..]))
  }

  /** The earliest start block of a waiting invoice, or `current` if none is known. */
  function Oldest(waiting: seq<Invoice>, current: int): int {
    var starts := PositiveStarts(waiting);
    if starts == [] then current else MinOf(starts)
  }

  function LogsFrom(waiting: seq<Invoice>, current: int, required: int): int {
    Max(0, Max(Oldest(waiting, current) - (required + 8), current - MAX_BACKFILL_BLOCKS))
  }

  function BlocksFrom(current: int): int {
    Max(0, current - BLOCKSCAN_WINDOW)
  }

  predicate Confirmed(b: int, current: int, required: int) {
    current - b + 1 >= required
  }

  lemma {:induction false} MinOfIsLeast(s: seq<int>, x: int)
    requires x in s
    ensures MinOf(s) <= x
  {
    if |s| > 1 && s[0] != x {
      MinOfIsLeast(s[1..], x);
    }
  }

  lemma {:induction false} StartIsListed(waiting: seq<Invoice>, p: Invoice)
    requires p in waiting && p.row.startBlock > 0
    ensures p.row.startBlock as int in PositiveStarts(waiting)
  {
    if waiting[0] != p {
      StartIsListed(waiting[1..], p);
    }
  }

  lemma OldestIsEarly(waiting: seq<Invoice>, current: int, p: Invoice)
    requires p in waiting && p.row.startBlock > 0
    ensures Oldest(waiting, current) <= p.row.startBlock
  {
    StartIsListed(waiting, p);
    MinOfIsLeast(PositiveStarts(waiting), p.row.startBlock);
  }

  lemma {:induction false} MinOfIsThere(s: seq<int>)
    requires s != []
    ensures MinOf(s) in s
  {
    if |s| > 1 {
      MinOfIsThere(s[1..]);
    }
  }

  lemma {:induction false} ListedIsStart(waiting: seq<Invoice>, x: int)
    requires x in PositiveStarts(waiting)
    ensures exists p :: p in waiting && p.row.startBlock == x > 0
  {
    if waiting[0].row.startBlock > 0 && waiting[0].row.startBlock == x {
      assert waiting[0] in waiting;
    } else {
      ListedIsStart(waiting[1..], x);
      var p :| p in waiting[1..] && p.row.startBlock == x > 0;
      assert p in waiting;
    }
  }

  /** The block is at most required + 8 blocks before the start of some waiting invoice that has one, or before the head
      if none has. */
  ghost predicate NearStart(waiting: seq<Invoice>, current: int, required: int, b: int) {
    || (exists p :: p in waiting && p.row.startBlock > 0 && b >= p.row.startBlock - required - 8)
    || ((forall p :: p in waiting ==> p.row.startBlock == 0) && b >= current - required - 8)
  }

  /** Which blocks a tick queries: exactly those near a start, among the last 2000 before the head. The fallback scans
      exactly the last 40. */
  lemma QueriedIff(waiting: seq<Invoice>, current: int, required: int, b: int)
    ensures b >= LogsFrom(waiting, current, required) <==>
              b >= 0 && b >= current - 2000 && NearStart(waiting, current, required, b)
    ensures b >= BlocksFrom(current) <==> b >= 0 && b >= current - 40
  {
    var starts := PositiveStarts(waiting);
    if starts == [] {
      forall p | p in waiting ensures p.row.startBlock == 0 {
        if p.row.startBlock > 0 {
          StartIsListed(waiting, p);
        }
      }
    } else {
      MinOfIsThere(starts);
      ListedIsStart(waiting, MinOf(starts));
      var p :| p in waiting && p.row.startBlock == MinOf(starts) > 0;
      forall q | q in waiting && q.row.startBlock > 0 ensures MinOf(starts) <= q.row.startBlock {
        OldestIsEarly(waiting, current, q);
      }
    }
  }

  /** The heads seen by successive ticks never jump by more than `rise`. */
  ghost predicate RisesBy(heads: seq<int>, rise: int) {
    forall k :: 0 < k < |heads| ==> heads[k] - heads[k - 1] <= rise
  }

  /** A tick at this head looks far enough back for block `b`, and `b` is confirmed by then. */
  predicate Caught(b: int, head: int, required: int, window: int) {
    b >= head - window && Confirmed(b, head, required)
  }

  lemma {:induction false} SomeTickCatches(heads: seq<int>, b: int, required: int, window: int) returns (k: nat)
    requires heads != [] && heads[0] <= b + window && Confirmed(b, heads[|heads| - 1], required)
    requires RisesBy(heads, window + 2 - required)
    ensures k < |heads| && Caught(b, heads[k], required, window)
  {
    if Confirmed(b, heads[0], required) {
      k := 0;
    } else {
      assert heads[1] - heads[0] <= window + 2 - required;
      forall j | 0 < j < |heads[1..]| ensures heads[1..][j] - heads[1..][j - 1] <= window + 2 - required {
        assert heads[1..][j] == heads[j + 1];
      }
      var rest := SomeTickCatches(heads[1..], b, required, window);
      k := rest + 1;
    }
  }

  /** Ticks that see these positive heads (a tick that sees none does nothing) start soon enough after block `b`, go on
      until it is confirmed, and never jump by more than `rise`. */
  ghost predicate Observes(heads: seq<int>, b: int, required: int, window: int, rise: int) {
    && heads != [] && (forall k :: 0 <= k < |heads| ==> heads[k] > 0)
    && heads[0] <= b + window && Confirmed(b, heads[|heads| - 1], required) && RisesBy(heads, rise)
  }

  ghost predicate CaughtBySome(heads: seq<int>, b: int, required: int, window: int) {
    exists k :: 0 <= k < |heads| && Caught(b, heads[k], required, window)
  }

  /** The bound is exact: whatever heads are seen every confirmed block is caught, if and only if heads rise by
      at most window + 2 - required. */
  lemma RiseBoundIsExact(required: int, window: nat, rise: int)
    requires 1 <= required <= window + 1
    ensures rise <= window + 2 - required <==>
            forall b, heads | Observes(heads, b, required, window, rise) :: CaughtBySome(heads, b, required, window)
  {
    if rise <= window + 2 - required {
      forall b, heads | Observes(heads, b, required, window, rise) ensures CaughtBySome(heads, b, required, window) {
        var k := SomeTickCatches(heads, b, required, window);
      }
    } else {
      var heads := [required, window + 3];
      assert Observes(heads, 2, required, window, rise) && !CaughtBySome(heads, 2, required, window);
    }
  }

  lemma {:induction false} LogIsFetched(chain: int -> seq<Log>, lo: int, hi: int, b: int, log: Log)
    requires lo <= b <= hi && log in chain(b)
    ensures log in LogsIn(chain, lo, hi)
    decreases hi - b
  {
    if b < hi {
      LogIsFetched(chain, lo, hi - 1, b, log);
    }
  }

  lemma {:induction false} TransferIsFound(blocks: int -> seq<Tx>, targets: set<string>, lo: int, hi: int,
                                           b: int, t: Transfer)
    requires lo <= b <= hi
    ensures t in DirectTransfers(blocks(b), targets, b) ==> t in TransfersIn(blocks, targets, lo, hi)
    decreases hi - b
  {
    hide DirectTransfers;
    if b < hi {
      TransferIsFound(blocks, targets, lo, hi - 1, b, t);
    }
  }

  /** While an invoice with a start block stays waiting, prepared again or otherwise rewritten as may be, a deposit at
      or after its start blocks is in the log query of some tick, with enough confirmations, if the heads rise by at
      most 2002 - required. */
  lemma DepositReachesLogQuery(waiting: seq<seq<Invoice>>, heads: seq<int>, required: int, versions: seq<Invoice>,
                               chain: int -> seq<Log>, b: int, log: Log) returns (k: nat)
    requires heads != [] && |waiting| == |versions| == |heads|
    requires forall k :: 0 <= k < |heads| ==> versions[k] in waiting[k] && 0 < versions[k].row.startBlock <= b
    requires log in chain(b) && required >= 1
    requires heads[0] <= b + MAX_BACKFILL_BLOCKS && Confirmed(b, heads[|heads| - 1], required)
    requires RisesBy(heads, 2002 - required)
    ensures k < |heads| && Confirmed(b, heads[k], required)
    ensures log in LogsIn(chain, LogsFrom(waiting[k], heads[k], required), heads[k])
  {
    k := SomeTickCatches(heads, b, required, MAX_BACKFILL_BLOCKS);
    OldestIsEarly(waiting[k], heads[k], versions[k]);
    LogIsFetched(chain, LogsFrom(waiting[k], heads[k], required), heads[k], b, log);
  }

  /** The transfers that a tick reads from the logs of its query. */
  function Parsed(logs: seq<Log>): seq<Transfer> {
    if logs == [] then []
    else
      var t := ParseTransferLog(logs[0]);
      (if t.Some? then [t.value] else []) + Parsed(logs[1..])
  }

  lemma {:induction false} ParsedHasTransfer(logs: seq<Log>, log: Log, m: Transfer)
    requires log in logs && ParseTransferLog(log) == Some(m)
    ensures m in Parsed(logs)
  {
    hide ParseTransferLog;
    if logs[0] != log {
      ParsedHasTransfer(logs[1..], log, m);
    }
  }

  /** A tick at this head reads the transfer from the logs of its query, finds it confirmed, and matches it to p. */
  predicate MatchedBy(waiting: seq<Invoice>, head: int, required: int, chain: int -> seq<Log>, m: Transfer,
                      p: Invoice) {
    && m in Parsed(LogsIn(chain, LogsFrom(waiting, head, required), head))
    && head - m.block + 1 >= required && FindPayment(waiting, m) == Some(p)
  }

  /** So, if amounts are kept apart in every tick and the deposit fits the version of the invoice there, some tick reads
      the transfer from the logs it fetches, finds it confirmed, and matches it to the invoice. */
  lemma DepositIsMatched(waiting: seq<seq<Invoice>>, heads: seq<int>, required: int, versions: seq<Invoice>,
                         chain: int -> seq<Log>, log: Log, m: Transfer)
    requires heads != [] && |waiting| == |versions| == |heads|
    requires forall k :: 0 <= k < |heads| ==>
               versions[k] in waiting[k] && versions[k].row.startBlock > 0 && Separated(waiting[k])
    requires forall k :: 0 <= k < |heads| ==> Matches(versions[k].row, m)
    requires log in chain(m.block) && required >= 1
    requires heads[0] <= m.block + MAX_BACKFILL_BLOCKS && Confirmed(m.block, heads[|heads| - 1], required)
    requires RisesBy(heads, 2002 - required)
    ensures ParseTransferLog(log) == Some(m) ==>
              exists k :: 0 <= k < |heads| && MatchedBy(waiting[k], heads[k], required, chain, m, versions[k])
  {
    hide ParseTransferLog, LogsIn, LogsFrom, Separated, NormalizeAddress;
    var k := DepositReachesLogQuery(waiting, heads, required, versions, chain, m.block, log);
    if ParseTransferLog(log) == Some(m) {
      ParsedHasTransfer(LogsIn(chain, LogsFrom(waiting[k], heads[k], required), heads[k]), log, m);
    }
    hide Matches;
    FoundIsThis(waiting[k], versions[k], m);
    assert ParseTransferLog(log) == Some(m) ==> MatchedBy(waiting[k], heads[k], required, chain, m, versions[k]);
  }

  lemma FoundIsThis(waiting: seq<Invoice>, p: Invoice, m: Transfer)
    requires Separated(waiting) && p in waiting && Matches(p.row, m)
    ensures FindPayment(waiting, m) == Some(p)
  {
    hide Matches, Separated;
    FindPaymentFinds(waiting, m);
    SeparatedIffUnambiguous(waiting);
    assert AtMostOneMatch(waiting, m);
  }

  /** The same for a direct call in the fallback scan, if the heads rise by at most 42 - required: the call of
      `transfer` or `transferFrom` at place j of its block is found, with its recipient, amount and block. */
  lemma DepositReachesBlockScan(heads: seq<int>, required: int, blocks: int -> seq<Tx>, targets: set<string>,
                                b: int, j: nat, from: string, to: string, n: nat) returns (k: nat)
    requires heads != [] && b >= 0 && required >= 1 && j < |blocks(b)| && Lower(to) in targets
    requires heads[0] <= b + BLOCKSCAN_WINDOW && Confirmed(b, heads[|heads| - 1], required)
    requires RisesBy(heads, 42 - required)
    ensures k < |heads| && Confirmed(b, heads[k], required)
    ensures var tx := blocks(b)[j];
            PaysBy(tx, from, to, n) && tx.hash != "" && ParseHex(tx.blockNumber) in {Some(b), Some(0)} ==>
              Transfer(Lower(tx.hash), Lower(to), n, b) in TransfersIn(blocks, targets, BlocksFrom(heads[k]), heads[k])
  {
    hide PaysBy, ParseHex, DirectTransfers, TransfersIn, Lower;
    k := SomeTickCatches(heads, b, required, BLOCKSCAN_WINDOW);
    var txs := blocks(b);
    var t := Transfer(Lower(txs[j].hash), Lower(to), n, b);
    TransferIsFound(blocks, targets, BlocksFrom(heads[k]), heads[k], b, t);
    DirectCallIsFound(txs[..j], txs[j], txs[j + 1..], targets, b, from, to, n);
    assert txs == txs[..j] + [txs[j]] + txs[j + 1..];
  }
}
