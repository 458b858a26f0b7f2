/** The pool of RPC endpoints: cyclic failover, the chunked log query and the block scan. */
module RpcPoolClass {
  import opened Prelude
  import opened Text
  import opened Chain

  /** The most blocks one eth_getLogs call may span. */
  const GETLOGS_CHUNK := 20

  datatype Request = GetLogs(lo: int, hi: int) | GetBlock(number: int)
  datatype Reply = Logs(logs: seq<Log>) | Txs(txs: seq<Tx>) | Nothing

  /** What endpoint `j` answers to the pool's `call`-th request; None is an RPC error. Health may change
      from one request to the next. */
  type Oracle = (nat, nat, Request) -> Option<Reply>

  // --- the endpoint list --------------------------------------------------------

  ghost predicate NoDuplicates<T>(s: seq<T>) {
    forall i, j | 0 <= i < j < |s| :: s[i] != s[j]
  }

  /** The stripped, non-empty urls, each at its first occurrence. */
  function Dedupe(urls: seq<string>): (r: seq<string>)
    ensures NoDuplicates(r)
    ensures forall u :: u in r <==> u != "" && exists k :: 0 <= k < |urls| && Strip(urls[k]) == u
  {
    if urls == [] then []
    else
      var front, u := Dedupe(urls[..|urls| - 1]), Strip(urls[|urls| - 1]);
      if u != "" && u !in front then front + [u] else front
  }

  /** The endpoints keep the order in which they were given first. */
  lemma {:induction false} FirstGivenFirst(urls: seq<string>, more: seq<string>)
    ensures Dedupe(urls) <= Dedupe(urls + more)
    ensures forall u :: u in Dedupe(urls + more)[|Dedupe(urls)|..] ==> u !in Dedupe(urls)
  {
    hide Strip;
    if more == [] {
      assert urls + more == urls;
    } else {
      var less := more[..|more| - 1];
      FirstGivenFirst(urls, less);
      assert (urls + more)[..|urls + more| - 1] == urls + less;
    }
  }

  // --- the chunks of a block range -------------------------------------------------

  /** The requests of one log query, in order. */
  function Chunks(start: int, to: int): seq<Request>
    decreases Max(0, to - start + 1)
  {
    if start > to then []
    else
      var end := Min(start + GETLOGS_CHUNK - 1, to);
      [GetLogs(start, end)] + Chunks(end + 1, to)
  }

  lemma {:induction false} ChunkAt(start: int, to: int, k: nat)
    requires start <= to
    ensures var c := Chunks(start, to);
            && |c| == (to - start) / GETLOGS_CHUNK + 1
            && (k < |c| ==> c[k] == GetLogs(start + GETLOGS_CHUNK * k, Min(start + GETLOGS_CHUNK * k + 19, to)))
    decreases Max(0, to - start)
  {
    var end := Min(start + GETLOGS_CHUNK - 1, to);
    if end < to {
      ChunkAt(end + 1, to, if k == 0 then 0 else k - 1);
    } else {
      assert Chunks(end + 1, to) == [];
    }
  }

  /** The chunks are consecutive and cover the range: each block is asked for exactly once, in order. */
  lemma ChunksPartition(start: int, to: int, b: nat)
    ensures var c := Chunks(start, to);
            && (forall k :: 0 <= k < |c| ==> c[k].GetLogs? && c[k].lo <= c[k].hi < c[k].lo + GETLOGS_CHUNK)
            && (forall k :: 0 <= k < |c| ==>
                  (c[k].lo <= b <= c[k].hi <==> start <= b <= to && k == (b - start) / GETLOGS_CHUNK))
            && (start <= b <= to ==> (b - start) / GETLOGS_CHUNK < |c|)
            && (forall k :: 0 < k < |c| ==> c[k].lo == c[k - 1].hi + 1)
  {
    if start <= to {
      var c := Chunks(start, to);
      ChunkAt(start, to, 0);
      forall k | 0 <= k < |c|
        ensures c[k] == GetLogs(start + GETLOGS_CHUNK * k, Min(start + GETLOGS_CHUNK * k + 19, to))
      {
        ChunkAt(start, to, k);
      }
    }
  }

  // --- what honest endpoints would answer --------------------------------------------

  /** All logs of the blocks lo..hi, in block order: one unbounded query. */
  function LogsIn(chain: int -> seq<Log>, lo: int, hi: int): seq<Log>
    decreases Max(0, hi - lo + 1)
  {
    if hi < lo then [] else LogsIn(chain, lo, hi - 1) + chain(hi)
  }

  lemma {:induction false} LogsInSplit(chain: int -> seq<Log>, lo: int, mid: int, hi: int)
    requires lo <= mid + 1 <= hi + 1
    ensures LogsIn(chain, lo, hi) == LogsIn(chain, lo, mid) + LogsIn(chain, mid + 1, hi)
    decreases hi - mid
  {
    if mid < hi {
      LogsInSplit(chain, lo, mid, hi - 1);
    }
  }

  ghost predicate HonestLogs(oracle: Oracle, chain: int -> seq<Log>) {
    forall j, call, lo, hi ::
      var r := oracle(j, call, GetLogs(lo, hi)); r.Some? ==> r.value == Logs(LogsIn(chain, lo, hi))
  }

  ghost predicate HonestBlocks(oracle: Oracle, blocks: int -> seq<Tx>) {
    forall j, call, n :: var r := oracle(j, call, GetBlock(n)); r.Some? ==> r.value == Txs(blocks(n))
  }

  /** The transfers to the targets that a block's calls carry, each stamped with its block. */
  function DirectTransfers(txs: seq<Tx>, targets: set<string>, number: int): seq<Transfer> {
    if txs == [] then []
    else
      var front, t := DirectTransfers(txs[..|txs| - 1], targets, number), DecodeUsdtTx(txs[|txs| - 1], targets);
      if t.None? then front else front + [if t.value.block == 0 then t.value.(block := number) else t.value]
  }

  lemma {:induction false} DirectTransfersAppend(txs: seq<Tx>, more: seq<Tx>, targets: set<string>, number: int)
    ensures DirectTransfers(txs + more, targets, number)
            == DirectTransfers(txs, targets, number) + DirectTransfers(more, targets, number)
  {
    hide DecodeUsdtTx;
    if more == [] {
      assert txs + more == txs;
    } else {
      DirectTransfersAppend(txs, more[..|more| - 1], targets, number);
      assert (txs + more)[..|txs + more| - 1] == txs + more[..|more| - 1];
    }
  }

  /** The call pays n raw units to the address by `transfer` or `transferFrom` of the official contract. */
  ghost predicate PaysBy(tx: Tx, from: string, to: string, n: nat) {
    && IsAddress(from) && IsAddress(to) && n < Pow16(64)
    && (Lower(tx.input) == Lower(TransferCall(to, n)) || Lower(tx.input) == Lower(TransferFromCall(from, to, n)))
    && NormalizeAddress(tx.to) == USDT_CONTRACT
  }

  /** Wherever such a call stands in its block, the scan finds it exactly if its recipient is watched and its hash and
      block are readable: with its hash in lower case, recipient and amount, and the scanned block if it names none. */
  lemma DirectCallIsFound(before: seq<Tx>, tx: Tx, after: seq<Tx>, targets: set<string>, number: int, from: string,
                          to: string, n: nat)
    ensures PaysBy(tx, from, to, n) ==>
              DirectTransfers(before + [tx] + after, targets, number)
              == DirectTransfers(before, targets, number)
                 + (if Lower(to) in targets && tx.hash != "" && ParseHex(tx.blockNumber).Some?
                    then
                      var block := ParseHex(tx.blockNumber).value;
                      [Transfer(Lower(tx.hash), Lower(to), n, if block == 0 then number else block)]
                    else [])
                 + DirectTransfers(after, targets, number)
  {
    hide DecodeUsdtTx, ParseHex, NormalizeAddress, TransferCall, TransferFromCall, IsAddress, Pow16;
    if PaysBy(tx, from, to, n) {
      DirectTransfersAppend(before + [tx], after, targets, number);
      DirectTransfersAppend(before, [tx], targets, number);
      CallDecodes(from, to, n, tx, targets);
      assert [tx][..0] == [];
    }
  }

  function TransfersIn(blocks: int -> seq<Tx>, targets: set<string>, lo: int, hi: int): seq<Transfer>
    decreases Max(0, hi - lo + 1)
  {
    if hi < lo then [] else TransfersIn(blocks, targets, lo, hi - 1) + DirectTransfers(blocks(hi), targets, hi)
  }

  /** If the endpoints are honest, `logs` is the unbounded answer for lo..hi. */
  ghost predicate Gathered(oracle: Oracle, chain: int -> seq<Log>, logs: seq<Log>, lo: int, hi: int) {
    HonestLogs(oracle, chain) ==> logs == LogsIn(chain, lo, hi)
  }

  lemma GatherMore(oracle: Oracle, chain: int -> seq<Log>, logs: seq<Log>, lo: int, mid: int, hi: int, j: nat,
                   call: nat)
    requires Gathered(oracle, chain, logs, lo, mid - 1) && lo <= mid <= hi
    requires oracle(j, call, GetLogs(mid, hi)).Some?
    ensures var chunk := oracle(j, call, GetLogs(mid, hi)).value;
            Gathered(oracle, chain, if chunk.Logs? then logs + chunk.logs else logs, lo, hi)
  {
    if HonestLogs(oracle, chain) {
      LogsInSplit(chain, lo, mid - 1, hi);
    }
  }

  lemma GatherDone(oracle: Oracle, chain: int -> seq<Log>, logs: seq<Log>, lo: int, start: int, to: int)
    requires Gathered(oracle, chain, logs, lo, start - 1) && to < start && (start == to + 1 || start == lo)
    ensures HonestLogs(oracle, chain) ==> logs == LogsIn(chain, lo, to)
  {
  }

  /** The endpoint tried `k` places after `i`, cyclically. */
  function Endpoint(i: nat, k: nat, n: nat): (j: nat)
    requires n > 0
    ensures j < n && j == (i + k) % n
  {
    (i + k) % n
  }

  // --- the pool ------------------------------------------------------------------------

  class RpcPool {
    const urls: seq<string>
    const oracle: Oracle
    var i: nat
    var calls: nat

    ghost predicate Valid()
      reads this
    {
      NoDuplicates(urls) && i < |urls|
    }

    /** Some endpoint answers this request. */
    ghost predicate Healthy(call: nat, q: Request) {
      exists j :: 0 <= j < |urls| && oracle(j, call, q).Some?
    }

    /** Every chunk has some healthy endpoint when its turn comes. */
    ghost predicate AllHealthy(call: nat, c: seq<Request>)
      decreases |c|
    {
      c == [] || (Healthy(call, c[0]) && AllHealthy(call + 1, c[1..]))
    }

    constructor (given: seq<string>, defaults: seq<string>, oracle: Oracle)
      requires defaults != [] && NoDuplicates(defaults)
      ensures Valid() && this.oracle == oracle
      ensures urls == if Dedupe(given) == [] then defaults else Dedupe(given)
    {
      var seen: set<string>, ordered: seq<string> := {}, [];
      for k := 0 to |given|
        invariant ordered == Dedupe(given[..k])
        invariant seen == set u | u in ordered
      {
        assert given[..k + 1][..k] == given[..k];
        var u := Strip(given[k]);
        if u != "" && u !in seen {
          seen := seen + {u};
          ordered := ordered + [u];
        }
      }
      assert given[..|given|] == given;
      if ordered == [] {
        ordered := defaults;
      }
      this.urls, this.oracle, i, calls := ordered, oracle, 0, 0;
    }

    /** One request with failover: endpoints are tried once each, cyclically from the last good one, until one
        answers. */
    method Call(q: Request) returns (r: Option<Reply>, ghost tried: seq<nat>)
      requires Valid()
      modifies this
      ensures Valid() && calls == old(calls) + 1
      ensures 1 <= |tried| <= |urls| && forall k :: 0 <= k < |tried| ==> tried[k] == (old(i) + k) % |urls|
      ensures NoDuplicates(tried)
      ensures r == oracle(tried[|tried| - 1], old(calls), q)
      ensures forall k :: 0 <= k < |tried| - 1 ==> oracle(tried[k], old(calls), q).None?
      ensures r.Some? <==> Healthy(old(calls), q)
      ensures i == if r.Some? then tried[|tried| - 1] else old(i)
    {
      hide Endpoint;
      var n, call := |urls|, calls;
      calls := calls + 1;
      tried, r := [], None;
      for k := 0 to n
        invariant |tried| == k && forall m :: 0 <= m < k ==> tried[m] == Endpoint(i, m, n)
        invariant forall m :: 0 <= m < k ==> oracle(tried[m], call, q).None?
        invariant NoDuplicates(tried)
        invariant r.None? && i == old(i) && calls == call + 1
      {
        var idx := Endpoint(i, k, n);
        tried := tried + [idx];
        TriedOnce(old(i), n, tried);
        r := oracle(idx, call, q);
        if r.Some? {
          i := idx;
          return;
        }
      }
      forall j | 0 <= j < n ensures oracle(j, call, q).None? {
        var k := CyclicIndex(i, j, n);
        assert tried[k] == j;
      }
    }

    /** One chunk of the log query, added to what is already gathered. */
    method NextChunk(lo: int, start: int, end: int, logs: seq<Log>, ghost chain: int -> seq<Log>)
      returns (r: Option<seq<Log>>)
      requires Valid() && lo <= start <= end && Gathered(oracle, chain, logs, lo, start - 1)
      modifies this
      ensures Valid() && calls == old(calls) + 1
      ensures r.Some? <==> Healthy(old(calls), GetLogs(start, end))
      ensures r.Some? ==> Gathered(oracle, chain, r.value, lo, end)
    {
      hide Gathered, Healthy, NoDuplicates, Endpoint;
      var chunk, tried := Call(GetLogs(start, end));
      if chunk.None? {
        return None;
      }
      GatherMore(oracle, chain, logs, lo, start, end, tried[|tried| - 1], calls - 1);
      r := Some(if chunk.value.Logs? then logs + chunk.value.logs else logs);
    }

    lemma ChunkStep(call: nat, start: int, to: int)
      ensures var end := Min(start + GETLOGS_CHUNK - 1, to);
              if start > to then Chunks(start, to) == [] && AllHealthy(call, Chunks(start, to))
              else && start <= end <= to && Chunks(start, to) != [] && Chunks(start, to)[0] == GetLogs(start, end)
                   && Chunks(start, to)[1..] == Chunks(end + 1, to)
                   && (AllHealthy(call, Chunks(start, to)) <==>
                         Healthy(call, GetLogs(start, end)) && AllHealthy(call + 1, Chunks(end + 1, to)))
    {
      if start <= to {
        assert Chunks(start, to)[1..] == Chunks(Min(start + GETLOGS_CHUNK - 1, to) + 1, to);
      }
    }

    /** Of `all`, in order, `asked` has been asked from that call on and answered, and `rest` is still to ask. */
    ghost predicate Answered(call: nat, all: seq<Request>, asked: seq<Request>, rest: seq<Request>) {
      all == asked + rest && forall k :: 0 <= k < |asked| ==> Healthy(call + k, asked[k])
    }

    /** `asked` are the first of `all`; all were answered but the last, for which no endpoint is healthy. */
    ghost predicate Stopped(call: nat, all: seq<Request>, asked: seq<Request>) {
      && asked != [] && asked <= all && !Healthy(call + |asked| - 1, asked[|asked| - 1])
      && forall k :: 0 <= k < |asked| - 1 ==> Healthy(call + k, asked[k])
    }

    lemma AnsweredStep(call: nat, all: seq<Request>, asked: seq<Request>, rest: seq<Request>)
      requires Answered(call, all, asked, rest) && rest != []
      ensures if Healthy(call + |asked|, rest[0]) then Answered(call, all, asked + [rest[0]], rest[1..])
              else Stopped(call, all, asked + [rest[0]])
    {
      hide Healthy;
      assert rest == [rest[0]] + rest[1..];
    }

    lemma AnsweredAll(call: nat, all: seq<Request>, asked: seq<Request>)
      requires Answered(call, all, asked, [])
      ensures asked == all
    {
      hide Healthy;
    }

    /** The query has come to block `start`, `call` being the first call it made. */
    ghost predicate Underway(call: nat, lo: int, to: int, chain: int -> seq<Log>,
                             start: int, logs: seq<Log>, asked: seq<Request>) {
      && lo <= start && (start <= to + 1 || start == lo)
      && Answered(call, Chunks(lo, to), asked, Chunks(start, to))
      && (AllHealthy(call, Chunks(lo, to)) <==> AllHealthy(call + |asked|, Chunks(start, to)))
      && Gathered(oracle, chain, logs, lo, start - 1)
    }

    lemma UnderwayStart(call: nat, lo: int, to: int, chain: int -> seq<Log>)
      ensures Underway(call, lo, to, chain, lo, [], [])
    {
      hide AllHealthy, Chunks, Healthy;
    }

    lemma UnderwayStep(call: nat, lo: int, to: int, chain: int -> seq<Log>,
                       start: int, logs: seq<Log>, asked: seq<Request>, more: Option<seq<Log>>)
      requires Underway(call, lo, to, chain, start, logs, asked) && start <= to
      requires var end := Min(start + GETLOGS_CHUNK - 1, to);
               && (more.Some? <==> Healthy(call + |asked|, GetLogs(start, end)))
               && (more.Some? ==> Gathered(oracle, chain, more.value, lo, end))
      ensures var end := Min(start + GETLOGS_CHUNK - 1, to);
              if more.Some? then Underway(call, lo, to, chain, end + 1, more.value, asked + [GetLogs(start, end)])
              else Stopped(call, Chunks(lo, to), asked + [GetLogs(start, end)]) && !AllHealthy(call, Chunks(lo, to))
    {
      hide AllHealthy, Chunks, Healthy, Gathered, Answered, Stopped;
      ChunkStep(call + |asked|, start, to);
      AnsweredStep(call, Chunks(lo, to), asked, Chunks(start, to));
    }

    lemma UnderwayDone(call: nat, lo: int, to: int, chain: int -> seq<Log>,
                       start: int, logs: seq<Log>, asked: seq<Request>)
      requires Underway(call, lo, to, chain, start, logs, asked) && start > to
      ensures asked == Chunks(lo, to) && AllHealthy(call, Chunks(lo, to))
      ensures HonestLogs(oracle, chain) ==> logs == LogsIn(chain, lo, to)
    {
      hide AllHealthy, Healthy, Answered, HonestLogs;
      ChunkStep(call + |asked|, start, to);
      AnsweredAll(call, Chunks(lo, to), asked);
      GatherDone(oracle, chain, logs, lo, start, to);
    }

    /** The chunked log query. Over honest endpoints it equals one unbounded query of [max(0, from), to]; otherwise it
        stops at the first chunk for which no endpoint is healthy. */
    method GetTransferLogs(from: int, to: int, ghost chain: int -> seq<Log>)
      returns (r: Option<seq<Log>>, ghost asked: seq<Request>)
      requires Valid()
      modifies this
      ensures Valid()
      ensures if r.Some? then asked == Chunks(Max(0, from), to)
              else Stopped(old(calls), Chunks(Max(0, from), to), asked)
      ensures r.Some? <==> AllHealthy(old(calls), Chunks(Max(0, from), to))
      ensures r.Some? && HonestLogs(oracle, chain) ==> r.value == LogsIn(chain, Max(0, from), to)
    {
      hide HonestLogs, LogsIn, NoDuplicates, AllHealthy, Chunks, Underway, Stopped, Gathered, Healthy;
      var logs: seq<Log>, lo := [], Max(0, from);
      var start := lo;
      asked := [];
      UnderwayStart(calls, lo, to, chain);
      while start <= to
        invariant Valid() && calls == old(calls) + |asked|
        invariant Underway(old(calls), lo, to, chain, start, logs, asked)
        decreases Max(0, to - start + 1)
      {
        var end := Min(start + GETLOGS_CHUNK - 1, to);
        UnderwayGathered(old(calls), lo, to, chain, start, logs, asked);
        var more := NextChunk(lo, start, end, logs, chain);
        UnderwayStep(old(calls), lo, to, chain, start, logs, asked, more);
        asked := asked + [GetLogs(start, end)];
        if more.None? {
          return None, asked;
        }
        logs := more.value;
        start := end + 1;
      }
      UnderwayDone(old(calls), lo, to, chain, start, logs, asked);
      r := Some(logs);
    }

    lemma UnderwayGathered(call: nat, lo: int, to: int, chain: int -> seq<Log>,
                           start: int, logs: seq<Log>, asked: seq<Request>)
      requires Underway(call, lo, to, chain, start, logs, asked)
      ensures lo <= start && Gathered(oracle, chain, logs, lo, start - 1)
    {
      hide Gathered, Answered, AllHealthy, Chunks;
    }

    /** The transfers that the calls of one block carry. */
    static method ReadBlock(txs: seq<Tx>, targets: set<string>, number: int) returns (found: seq<Transfer>)
      ensures found == DirectTransfers(txs, targets, number)
    {
      hide DecodeUsdtTx;
      found := [];
      for k := 0 to |txs|
        invariant found == DirectTransfers(txs[..k], targets, number)
      {
        assert txs[..k + 1][..k] == txs[..k];
        var t := DecodeUsdtTx(txs[k], targets);
        if t.Some? {
          found := found + [if t.value.block == 0 then t.value.(block := number) else t.value];
        }
      }
      assert txs[..|txs|] == txs;
    }

    /** Every block of lo..hi has some healthy endpoint when its turn comes. */
    ghost predicate BlocksHealthy(call: nat, lo: int, hi: int)
      decreases Max(0, hi - lo + 1)
    {
      lo > hi || (Healthy(call, GetBlock(lo)) && BlocksHealthy(call + 1, lo + 1, hi))
    }

    /** The fallback scan. Over honest endpoints it finds exactly the direct transfers of the blocks in the range. */
    method ScanBlockTransfers(targets: set<string>, from: int, to: int, ghost blocks: int -> seq<Tx>)
      returns (r: Option<seq<Transfer>>)
      requires Valid()
      modifies this
      ensures Valid()
      ensures r.Some? <==> BlocksHealthy(old(calls), Max(0, from), to)
      ensures r.Some? && HonestBlocks(oracle, blocks) ==> r.value == TransfersIn(blocks, targets, Max(0, from), to)
    {
      hide Healthy, NoDuplicates, Endpoint, DirectTransfers;
      var found: seq<Transfer>, lo := [], Max(0, from);
      var bn := lo;
      while bn <= to
        invariant Valid()
        invariant lo <= bn && (bn <= to + 1 || bn == lo)
        invariant BlocksHealthy(old(calls), lo, to) <==> BlocksHealthy(calls, bn, to)
        invariant HonestBlocks(oracle, blocks) ==> found == TransfersIn(blocks, targets, lo, bn - 1)
        decreases Max(0, to - bn + 1)
      {
        var block, _ := Call(GetBlock(bn));
        if block.None? {
          return None;
        }
        if block.value.Txs? {
          var more := ReadBlock(block.value.txs, targets, bn);
          found := found + more;
        }
        bn := bn + 1;
      }
      r := Some(found);
    }
  }

  lemma Wrap(a: nat, n: nat)
    requires a < 2 * n
    ensures a % n == if a < n then a else a - n
  {
    if a >= n {
      assert a == n * 1 + (a - n);
    }
  }

  lemma CyclicIndex(i: nat, j: nat, n: nat) returns (k: nat)
    requires i < n && j < n
    ensures k < n && Endpoint(i, k, n) == j
  {
    k := if j >= i then j - i else j + n - i;
    Wrap(i + k, n);
  }

  lemma TriedOnce(i: nat, n: nat, tried: seq<nat>)
    requires i < n && |tried| <= n
    requires forall k :: 0 <= k < |tried| ==> tried[k] == Endpoint(i, k, n)
    ensures NoDuplicates(tried)
  {
    forall j, k | 0 <= j < k < |tried| ensures tried[j] != tried[k] {
      Wrap(i + j, n);
      Wrap(i + k, n);
    }
  }
}
