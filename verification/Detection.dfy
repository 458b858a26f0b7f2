/** From the chain to the credit: a deposit that a waiting invoice can get is credited by some tick of the watcher. */
module Detection {
  import opened Prelude
  import opened Text
  import opened Tables
  import opened Chain
  import opened RpcPoolClass
  import opened Watcher
  import opened Handlers
  import opened Protocol
  import opened Persistence
  import opened Backing
  import opened Evidence

  /** One tick: its task has the logs at step `from`, and is through with its matches in state `to`. */
  datatype Scan = Scan(task: nat, head: nat, from: nat, to: nat)

  function SnapshotOf(t: Task): seq<Invoice> {
    match t
    case Scanning(snapshot) => snapshot
    case Matching(snapshot, _, _, _) => snapshot
    case CheckingMatch(snapshot, _, _, _, _, _) => snapshot
    case _ => []
  }

  predicate IsThrough(t: Task) {
    t.Done? || (t.Matching? && t.matches == [])
  }

  predicate IsScan(states: seq<State>, steps: seq<Step>, scan: Scan, required: int) {
    && |states| == |steps| + 1 && scan.from < scan.to <= |steps| && scan.head > 0
    && TaskAt(states[scan.from], scan.task).Scanning? && IsThrough(TaskAt(states[scan.to], scan.task))
    && var st := steps[scan.from];
       st.Scanned? && st.task == scan.task && st.head == scan.head && st.required == required
  }

  /** The log queries of the tick are answered with all logs that the chain has in their range; it may find more. */
  ghost predicate FindsAll(states: seq<State>, steps: seq<Step>, scan: Scan, required: int, chain: int -> seq<Log>)
    requires IsScan(states, steps, scan, required)
  {
    var waiting := SnapshotOf(TaskAt(states[scan.from], scan.task));
    forall m :: m in Parsed(LogsIn(chain, LogsFrom(waiting, scan.head, required), scan.head)) ==>
      m in steps[scan.from].matches
  }

  /** The step ends the check of this hash for this invoice by task i. */
  predicate EndsCheck(s: State, st: Step, i: nat, p: Invoice, hash: string) {
    st.MatchChecked? && st.task == i && TaskAt(s, i).CheckingMatch? && TaskAt(s, i).hash == hash
    && TaskAt(s, i).invoice == p
  }

  /** The endpoints answer the check of the hash with a receipt that backs the demand. */
  ghost predicate ChecksWell(states: seq<State>, steps: seq<Step>, scan: Scan, required: int, p: Invoice,
                             hash: string) {
    |steps| < |states| && scan.to <= |steps|
    && forall k :: scan.from <= k < scan.to && EndsCheck(states[k], steps[k], scan.task, p, hash) ==>
         steps[k].receipt.Some? && Backs(steps[k].receipt.value, steps[k].head, MatchDemand(p.row, required))
  }

  /** The invoice is credited, or another one carries the hash. */
  predicate Settled(d: Db, order: string, hash: string) {
    IsCredited(d, order) || UsedByOther(d, order, hash)
  }

  /** The tick still has to take the match, or is checking it. */
  predicate Ahead(t: Task, head: nat, required: int, p: Invoice, m: Transfer) {
    && (t.Matching? || t.CheckingMatch?) && p in t.snapshot && t.head == head && t.required == required
    && (m in t.matches || (t.CheckingMatch? && t.hash == m.txHash && t.invoice == p))
  }

  lemma StaysSettled(states: seq<State>, steps: seq<Step>, j: nat, k: nat, order: string, hash: string)
    requires IsRun(states, steps) && j <= k <= |steps| && Settled(states[j].db, order, hash)
    ensures Settled(states[k].db, order, hash)
  {
    hide Next, Sound, MetaKept, StockGrows;
    SettledForever(states, steps, j, k);
    if o :| o in states[j].db.payments && o != order && states[j].db.payments[o].txHash == Lower(hash) != "" {
      assert o in states[k].db.payments && states[k].db.payments[o].txHash == Lower(hash);
    }
  }

  lemma UsedIsSettled(d: Db, order: string, hash: string)
    requires Sound(d) && TxHashUsed(d, hash)
    ensures Settled(d, order, hash)
  {
    hide StockSound;
    var o :| o in d.payments && d.payments[o].txHash == Lower(hash) && d.payments[o].txHash != "";
  }

  /** A step that is out of place does nothing. */
  lemma MisplacedStep(s: State, st: Step, i: nat)
    requires IsStepOf(st, i) && (TaskAt(s, i).Matching? || TaskAt(s, i).CheckingMatch?)
    requires if TaskAt(s, i).Matching? then !st.TakeMatch? else !st.MatchChecked?
    ensures Next(s, st) == s
  {
  }

  lemma OtherMatchTaken(s: State, i: nat, m: Transfer)
    requires TaskAt(s, i).Matching? && m in TaskAt(s, i).matches && TaskAt(s, i).matches[0] != m
    ensures var t, e := TaskAt(s, i), TaskAt(Next(s, TakeMatch(i)), i);
            && (e.Matching? || e.CheckingMatch?) && m in e.matches
            && e.snapshot == t.snapshot && e.head == t.head && e.required == t.required
  {
    hide FindPayment, TxHashUsed;
    assert m in TaskAt(s, i).matches[1..];
  }

  lemma OtherMatchChecked(s: State, i: nat, receipt: Option<Receipt>, now: nat)
    requires TaskAt(s, i).CheckingMatch?
    ensures var t := TaskAt(s, i);
            TaskAt(Next(s, MatchChecked(i, receipt, now)), i) == Matching(t.snapshot, t.head, t.required, t.matches)
  {
    hide Backs, ExtractTxHash, Deliver, CreditCrypto;
    var t := TaskAt(s, i);
    var u := Set(s, i, Matching(t.snapshot, t.head, t.required, t.matches));
    var demand := MatchDemand(t.invoice.row, t.required);
    if receipt.Some? {
      var (d, row) := CreditCrypto(s.db, t.invoice.order, t.hash);
      if row.Some? {
        DeliveryKeepsTask(u.(db := d), t.invoice.order, row.value,
                          Some(Proof(t.invoice.row, t.hash, receipt.value, now, demand)), i);
      }
    }
  }

  /** A step of the tick itself. */
  lemma OwnStep(s: State, st: Step, i: nat, head: nat, required: int, p: Invoice, m: Transfer)
    requires Accounted(s) && IsStepOf(st, i) && Ahead(TaskAt(s, i), head, required, p, m)
    requires Separated(TaskAt(s, i).snapshot) && Matches(p.row, m) && head - m.block + 1 >= required
    ensures ExtractTxHash(m.txHash) != ""
            && (EndsCheck(s, st, i, p, m.txHash) ==>
                  st.receipt.Some? && Backs(st.receipt.value, st.head, MatchDemand(p.row, required))) ==>
              Settled(Next(s, st).db, p.order, m.txHash)
              || (Ahead(TaskAt(Next(s, st), i), head, required, p, m)
                  && TaskAt(Next(s, st), i).snapshot == TaskAt(s, i).snapshot)
  {
    hide Next, Matches, Separated, Backs, ExtractTxHash, Accounted, TxHashUsed, IsCredited, UsedByOther;
    var t := TaskAt(s, i);
    if t.Matching? && st.TakeMatch? {
      if t.matches[0] != m {
        OtherMatchTaken(s, i, m);
      } else if TxHashUsed(s.db, m.txHash) {
        TakenTables(s, i);
        assert Sound(s.db) by { AccountedIsSound(s); }
        UsedIsSettled(s.db, p.order, m.txHash);
      } else {
        FoundIsThis(t.snapshot, p, m);
        TakenMatch(s, i, p);
      }
    } else if t.CheckingMatch? && st.MatchChecked? {
      OtherMatchChecked(s, i, st.receipt, st.head);
      if m !in t.matches && st.receipt.Some? {
        InvoiceIsThere(s, i);
        CheckSettlesIff(s, i, st.receipt.value, st.head);
        if UsedByOther(s.db, p.order, m.txHash) {
          AccountedIsSound(s);
          CheckedStaysUsed(s, i, st.receipt.value, st.head, p.order, m.txHash);
        }
      }
    } else {
      MisplacedStep(s, st, i);
    }
  }

  lemma AccountedIsSound(s: State)
    requires Accounted(s)
    ensures Sound(s.db)
  {
    hide Sound;
  }

  lemma TakenTables(s: State, i: nat)
    requires TaskAt(s, i).Matching?
    ensures Next(s, TakeMatch(i)).db == s.db
  {
    hide FindPayment, TxHashUsed;
  }

  lemma CheckedStaysUsed(s: State, i: nat, receipt: Receipt, now: nat, order: string, hash: string)
    requires Sound(s.db) && UsedByOther(s.db, order, hash)
    ensures UsedByOther(Next(s, MatchChecked(i, Some(receipt), now)).db, order, hash)
  {
    hide Next, Sound, MetaKept, StockGrows;
    NextPersists(s, MatchChecked(i, Some(receipt), now));
    var o :| o in s.db.payments && o != order && s.db.payments[o].txHash == Lower(hash) != "";
    var e := Next(s, MatchChecked(i, Some(receipt), now)).db;
    assert o in e.payments && e.payments[o].txHash == Lower(hash);
  }

  /** During the tick: the invoice is settled, or the tick will come to the match. */
  lemma {:induction false} TickGoesOn(states: seq<State>, steps: seq<Step>, scan: Scan, required: int, p: Invoice,
                                      m: Transfer, n: nat)
    requires IsRun(states, steps) && scan.from < n <= scan.to <= |steps|
    requires Ahead(TaskAt(states[scan.from + 1], scan.task), scan.head, required, p, m)
    requires Separated(SnapshotOf(TaskAt(states[scan.from + 1], scan.task)))
    requires Matches(p.row, m) && scan.head - m.block + 1 >= required && ExtractTxHash(m.txHash) != ""
    requires ChecksWell(states, steps, scan, required, p, m.txHash)
    ensures Settled(states[n].db, p.order, m.txHash)
            || (Ahead(TaskAt(states[n], scan.task), scan.head, required, p, m)
                && SnapshotOf(TaskAt(states[n], scan.task)) == SnapshotOf(TaskAt(states[scan.from + 1], scan.task)))
  {
    hide Next, Matches, Separated, Backs, ExtractTxHash, Accounted, Settled, EndsCheck, IsStepOf;
    if n > scan.from + 1 {
      var s, st := states[n - 1], steps[n - 1];
      TickGoesOn(states, steps, scan, required, p, m, n - 1);
      StepTo(states, steps, n);
      if Settled(s.db, p.order, m.txHash) {
        StaysSettled(states, steps, n - 1, n, p.order, m.txHash);
      } else if IsStepOf(st, scan.task) {
        RunAccounts(states, steps, n - 1);
        OwnStep(s, st, scan.task, scan.head, required, p, m);
      } else {
        OtherStepsKeepTask(s, st, scan.task);
      }
    }
  }

  /** A tick that has a confirmed match for an invoice on its list, and whose check of it is answered well, does not end
      before the invoice is settled, whatever other tasks and other matches do. */
  lemma TickSettles(states: seq<State>, steps: seq<Step>, scan: Scan, required: int, p: Invoice, m: Transfer)
    requires IsRun(states, steps) && IsScan(states, steps, scan, required) && required >= 1
    requires var waiting := SnapshotOf(TaskAt(states[scan.from], scan.task)); p in waiting && Separated(waiting)
    requires m in steps[scan.from].matches && Matches(p.row, m) && scan.head - m.block + 1 >= required
    ensures ExtractTxHash(m.txHash) != "" && ChecksWell(states, steps, scan, required, p, m.txHash) ==>
              Settled(states[scan.to].db, p.order, m.txHash)
  {
    hide Matches, Separated, Backs, ExtractTxHash, Settled, EndsCheck, IsRun;
    if ExtractTxHash(m.txHash) != "" && ChecksWell(states, steps, scan, required, p, m.txHash) {
      StepTo(states, steps, scan.from + 1);
      TickGoesOn(states, steps, scan, required, p, m, scan.to);
    }
  }

  /** All these ticks look at the chain while the invoice waits; the row may be another version each time. */
  ghost predicate Watches(states: seq<State>, steps: seq<Step>, scans: seq<Scan>, required: int,
                          chain: int -> seq<Log>, order: string, versions: seq<Invoice>) {
    && |scans| == |versions| > 0
    && forall k :: 0 <= k < |scans| ==>
         && IsScan(states, steps, scans[k], required) && FindsAll(states, steps, scans[k], required, chain)
         && versions[k].order == order && versions[k].row.startBlock > 0
         && var waiting := SnapshotOf(TaskAt(states[scans[k].from], scans[k].task));
            versions[k] in waiting && Separated(waiting)
  }

  function HeadsOf(scans: seq<Scan>): (heads: seq<int>)
    ensures |heads| == |scans| && forall k :: 0 <= k < |scans| ==> heads[k] == scans[k].head
  {
    seq(|scans|, k requires 0 <= k < |scans| => scans[k].head)
  }

  /** A deposit that fits a waiting invoice is credited. In every run, if ticks look at the chain from soon enough after
      the deposit until it is confirmed, with heads that rise by at most 2002 - required, amounts that are kept apart
      and good answers to the checks of its hash, then by the end of some tick the invoice is credited, or another
      invoice carries the hash. */
  lemma DepositIsCredited(states: seq<State>, steps: seq<Step>, scans: seq<Scan>, required: int,
                          chain: int -> seq<Log>, order: string, versions: seq<Invoice>, log: Log, m: Transfer)
    returns (k: nat)
    requires IsRun(states, steps) && Watches(states, steps, scans, required, chain, order, versions) && required >= 1
    requires log in chain(m.block) && forall k :: 0 <= k < |scans| ==> Matches(versions[k].row, m)
    requires scans[0].head <= m.block + MAX_BACKFILL_BLOCKS && Confirmed(m.block, scans[|scans| - 1].head, required)
    requires RisesBy(HeadsOf(scans), 2002 - required)
    ensures k < |scans|
    ensures ParseTransferLog(log) == Some(m) && ExtractTxHash(m.txHash) != ""
            && ChecksWell(states, steps, scans[k], required, versions[k], m.txHash) ==>
              Settled(states[scans[k].to].db, order, m.txHash)
  {
    hide Matches, Separated, ExtractTxHash, ParseTransferLog, ChecksWell, Settled, IsRun, Parsed, LogsIn, LogsFrom;
    var waiting := seq(|scans|, k requires 0 <= k < |scans| && scans[k].from < |states| =>
                                SnapshotOf(TaskAt(states[scans[k].from], scans[k].task)));
    k := 0;
    DepositIsMatched(waiting, HeadsOf(scans), required, versions, chain, log, m);
    if ParseTransferLog(log) == Some(m) {
      k :| 0 <= k < |scans| && MatchedBy(waiting[k], scans[k].head, required, chain, m, versions[k]);
      assert FindsAll(states, steps, scans[k], required, chain);
      TickSettles(states, steps, scans[k], required, versions[k], m);
    }
  }
}
