/** Every hash written on an invoice has its evidence in the history, and the deposits cover what was credited. */
module Evidence {
  import opened Prelude
  import opened Text
  import opened Tables
  import opened Chain
  import opened Watcher
  import opened Handlers
  import opened Protocol
  import opened Settlement
  import opened Backing

  /** The event is a settlement of this order with this hash, with its proof. */
  predicate Settles(e: Event, order: string, hash: string) {
    e.Credited? && e.order == order && e.row.txHash == hash && e.proof.Some?
  }

  predicate HasEntry(log: seq<Event>, order: string, hash: string) {
    exists i :: 0 <= i < |log| && Settles(log[i], order, hash)
  }

  ghost predicate HashesLogged(s: State) {
    forall o :: o in s.db.payments && s.db.payments[o].txHash != "" ==> HasEntry(s.log, o, s.db.payments[o].txHash)
  }

  /** No hash is new. */
  ghost predicate NoNewHash(d: Db, e: Db) {
    forall o :: o in e.payments && e.payments[o].txHash != "" ==>
      o in d.payments && d.payments[o].txHash == e.payments[o].txHash
  }

  ghost predicate Quiet(s: State, t: State) {
    s.log <= t.log && NoNewHash(s.db, t.db)
  }

  lemma EntryStays(log: seq<Event>, more: seq<Event>, order: string, hash: string)
    requires HasEntry(log, order, hash) && log <= more
    ensures HasEntry(more, order, hash)
  {
    var i :| 0 <= i < |log| && Settles(log[i], order, hash);
    assert more[i] == log[i];
  }

  lemma QuietKeeps(s: State, t: State)
    requires HashesLogged(s) && Quiet(s, t)
    ensures HashesLogged(t)
  {
    hide HasEntry;
    forall o | o in t.db.payments && t.db.payments[o].txHash != ""
      ensures HasEntry(t.log, o, t.db.payments[o].txHash)
    {
      EntryStays(s.log, t.log, o, t.db.payments[o].txHash);
    }
  }

  lemma DeliverIsQuiet(s: State, order: string, row: Payment, proof: Option<Proof>)
    ensures var t := Deliver(s, order, row, proof);
            Quiet(s, t) && |t.log| > |s.log| && t.log[|s.log|] == Credited(order, row, false, proof)
  {
    hide Sound, Grows;
  }

  lemma CallbackIsQuiet(s: State, hoosh: bool, order: string, status: string, invoice: string)
    ensures Quiet(s, OnCallback(s, hoosh, order, status, invoice))
  {
    hide Sound, Grows, MetaKept, Deliver;
    var (d, row) := Handlers.Callback(s.db, if hoosh then HOOSHPAY_PAID else NOWPAYMENTS_PAID, order, status, invoice);
    if row.Some? {
      DeliverIsQuiet(s.(db := d), order, row.value, None);
    }
  }

  lemma InvoiceStepIsQuiet(s: State, st: Step)
    ensures Quiet(s, InvoiceStep(s, st))
  {
    hide Sound, Grows, MetaKept, OnCallback, UniquePayAmount, UsedAmounts, DrawsInRange, IsAddress, PaymentUsd;
    if st.Callback? && st.signed {
      CallbackIsQuiet(s, st.hoosh, st.order, st.status, st.invoice);
    }
  }

  lemma CheckedKeeps(s: State, v: Invoice, hash: string, receipt: Option<Receipt>, head: nat, demand: Demand)
    requires HashesLogged(s)
    ensures HashesLogged(OnChecked(s, v, hash, receipt, head, demand))
  {
    hide Sound, Grows, MetaKept, Deliver, Backs, ExtractTxHash, HasEntry;
    var (d, row) := CreditCrypto(s.db, v.order, hash);
    var t := OnChecked(s, v, hash, receipt, head, demand);
    if row.Some? && t != s && receipt.Some? {
      var proof := Some(Proof(v.row, hash, receipt.value, head, demand));
      DeliverIsQuiet(s.(db := d), v.order, row.value, proof);
      forall o | o in t.db.payments && t.db.payments[o].txHash != ""
        ensures HasEntry(t.log, o, t.db.payments[o].txHash)
      {
        if o == v.order {
          EntryIsThere(t.log, |s.log|, o, row.value.txHash);
        } else {
          EntryStays(s.log, t.log, o, t.db.payments[o].txHash);
        }
      }
    } else {
      QuietKeeps(s, t);
    }
  }

  lemma EntryIsThere(log: seq<Event>, i: nat, order: string, hash: string)
    requires i < |log| && Settles(log[i], order, hash)
    ensures HasEntry(log, order, hash)
  {
  }

  lemma SameLogged(s: State, t: State)
    requires t.db == s.db && t.log == s.log
    ensures HashesLogged(s) ==> HashesLogged(t)
  {
    hide HasEntry;
  }

  lemma DepositStepKeeps(s: State, st: Step)
    requires HashesLogged(s)
    ensures HashesLogged(DepositStep(s, st))
  {
    hide Sound, Grows, MetaKept, HashesLogged, OnChecked, OnTick, OnTakeMatch, TxHashUsed, ExtractTxHash;
    var e := DepositStep(s, st);
    match st
    case Tick(now) => TickIsQuiet(s, now); QuietKeeps(s, e);
    case TakeMatch(i) =>
      if TaskAt(s, i).Matching? {
        TakeMatchSame(s, i);
        SameLogged(s, e);
      }
    case MatchChecked(i, receipt, head) =>
      var t := TaskAt(s, i);
      if t.CheckingMatch? {
        var u := Set(s, i, Matching(t.snapshot, t.head, t.required, t.matches));
        SameLogged(s, u);
        CheckedKeeps(u, t.invoice, t.hash, receipt, head, MatchDemand(t.invoice.row, t.required));
      }
    case HashChecked(i, receipt, head) =>
      var t := TaskAt(s, i);
      if t.CheckingHash? {
        SameLogged(s, Set(s, i, Done));
        CheckedKeeps(Set(s, i, Done), t.invoice, t.hash, receipt, head, HashDemand(t.invoice.row, t.required));
      }
    case _ => SameLogged(s, e);
  }

  lemma TickIsQuiet(s: State, now: int)
    ensures Quiet(s, OnTick(s, now))
  {
    hide Sound, Grows, MetaKept, WaitingInvoices;
  }

  lemma TakeMatchSame(s: State, i: nat)
    requires TaskAt(s, i).Matching?
    ensures var e := OnTakeMatch(s, i, TaskAt(s, i)); e.db == s.db && e.log == s.log
  {
    hide FindPayment, TxHashUsed;
  }

  lemma PurchaseHasNoHash(d: Db, order: string, row: Payment, user: int, price: int)
    ensures NoNewHash(d, WalletPurchase(d, order, row, user, price).0)
  {
    hide Sound, Grows, MetaKept, DeliverDigital, CanBuy;
  }

  lemma PayWalletIsQuiet(s: State, i: nat, v: Invoice, user: int, price: int)
    ensures Quiet(s, OnPayWallet(s, i, v, user, price))
  {
    hide WalletPurchase;
    PurchaseHasNoHash(s.db, v.order, v.row, user, price);
  }

  lemma WalletStepIsQuiet(s: State, st: Step)
    ensures Quiet(s, WalletStep(s, st))
  {
    hide Sound, Grows, MetaKept, OnPayWallet;
    if st.PayWallet? && TaskAt(s, st.task).AskedWallet? {
      PayWalletIsQuiet(s, st.task, TaskAt(s, st.task).invoice, TaskAt(s, st.task).user, st.price);
    }
  }

  lemma StockStepIsQuiet(s: State, st: Step)
    ensures Quiet(s, StockStep(s, st))
  {
    hide Sound, Grows, MetaKept, CreateProduct, DeleteProduct, AddStock, ClearAvailable, DeliverDigital;
  }

  lemma NextLogs(s: State, st: Step)
    requires HashesLogged(s)
    ensures HashesLogged(Next(s, st))
  {
    hide HashesLogged, Quiet, InvoiceStep, DepositStep, WalletStep, StockStep;
    if AboutInvoices(st) {
      InvoiceStepIsQuiet(s, st);
      QuietKeeps(s, Next(s, st));
    } else if AboutDeposits(st) {
      DepositStepKeeps(s, st);
    } else if AboutStock(st) {
      StockStepIsQuiet(s, st);
      QuietKeeps(s, Next(s, st));
    } else {
      WalletStepIsQuiet(s, st);
      QuietKeeps(s, Next(s, st));
    }
  }

  lemma {:induction false} RunLogs(states: seq<State>, steps: seq<Step>, k: nat)
    requires IsRun(states, steps) && k <= |steps|
    ensures HashesLogged(states[k])
  {
    hide Next, HasEntry;
    if k > 0 {
      RunLogs(states, steps, k - 1);
      StepTo(states, steps, k);
      NextLogs(states[k - 1], steps[k - 1]);
    }
  }

  /** In every state of every run, an invoice with a hash has exactly one settlement with that hash in the history, with
      its proof, and no other credit carries the hash. */
  lemma EveryHashHasOneProof(states: seq<State>, steps: seq<Step>, k: nat, order: string) returns (i: nat)
    requires IsRun(states, steps) && k <= |steps|
    requires order in states[k].db.payments && states[k].db.payments[order].txHash != ""
    ensures i < |states[k].log| && Settles(states[k].log[i], order, states[k].db.payments[order].txHash)
    ensures forall j :: 0 <= j < |states[k].log| && j != i && states[k].log[j].Credited? ==>
              states[k].log[j].order != order && states[k].log[j].row.txHash != states[k].db.payments[order].txHash
  {
    hide Next;
    RunLogs(states, steps, k);
    var log, hash := states[k].log, states[k].db.payments[order].txHash;
    assert HasEntry(log, order, hash);
    i :| 0 <= i < |log| && Settles(log[i], order, hash);
    forall j | 0 <= j < |log| && j != i && log[j].Credited? ensures log[j].order != order && log[j].row.txHash != hash {
      if j < i {
        CreditsAreDistinct(states, steps, k, j, i);
      } else {
        CreditsAreDistinct(states, steps, k, i, j);
      }
    }
  }

  // --- deposits do settle --------------------------------------------------------------------------------

  /** A confirmed and unused transfer that matches the invoice, and whose receipt backs the demand. */
  ghost predicate GoodDeposit(d: Db, m: Transfer, head: nat, required: int, row: Payment, receipt: Receipt, now: nat) {
    && Matches(row, m) && head - m.block + 1 >= required && !TxHashUsed(d, m.txHash)
    && ExtractTxHash(m.txHash) != "" && Backs(receipt, now, MatchDemand(row, required))
  }

  predicate UsedByOther(d: Db, order: string, hash: string) {
    exists o :: o in d.payments && o != order && d.payments[o].txHash == Lower(hash) != ""
  }

  /** The step is one of task i. */
  predicate IsStepOf(st: Step, i: nat) {
    match st
    case InvoiceCreated(j, _, _) => i == j
    case Choose(j, _, _, _) => i == j
    case Store(j, _, _) => i == j
    case GatewayReplied(j, _, _, _) => i == j
    case Scanned(j, _, _, _) => i == j
    case TakeMatch(j) => i == j
    case MatchChecked(j, _, _) => i == j
    case CheckHash(j, _) => i == j
    case HashChecked(j, _, _) => i == j
    case PayWallet(j, _) => i == j
    case BoughtDelivered(j, _) => i == j
    case PaidDelivered(j, _, _) => i == j
    case Renewed(j, _) => i == j
    case _ => false
  }

  lemma InvoiceStepKeepsTask(s: State, st: Step, i: nat)
    requires i < |s.tasks| && !IsStepOf(st, i)
    ensures i < |InvoiceStep(s, st).tasks| && InvoiceStep(s, st).tasks[i] == s.tasks[i]
  {
    hide Handlers.Callback, Fulfil, SetStatus, UpdatePayment, CreatePayment, UniquePayAmount, UsedAmounts, PaymentUsd;
  }

  lemma DepositStepKeepsTask(s: State, st: Step, i: nat)
    requires i < |s.tasks| && !IsStepOf(st, i)
    ensures i < |DepositStep(s, st).tasks| && DepositStep(s, st).tasks[i] == s.tasks[i]
  {
    hide Fulfil, CreditCrypto, ExpireStale, WaitingInvoices, FindPayment, TxHashUsed, Backs, ExtractTxHash, MatchDemand;
    hide HashDemand;
  }

  lemma WalletStepKeepsTask(s: State, st: Step, i: nat)
    requires i < |s.tasks| && !IsStepOf(st, i)
    ensures i < |WalletStep(s, st).tasks| && WalletStep(s, st).tasks[i] == s.tasks[i]
  {
    hide WalletPurchase, AddBalance, TryDeduct, Reward, RewardedUser, SetReferrer;
  }

  lemma OtherStepsKeepTask(s: State, st: Step, i: nat)
    requires i < |s.tasks| && !IsStepOf(st, i)
    ensures i < |Next(s, st).tasks| && Next(s, st).tasks[i] == s.tasks[i]
  {
    hide InvoiceStep, DepositStep, WalletStep, IsStepOf, CreateProduct, DeleteProduct, AddStock, ClearAvailable;
    hide DeliverDigital;
    InvoiceStepKeepsTask(s, st, i);
    DepositStepKeepsTask(s, st, i);
    WalletStepKeepsTask(s, st, i);
  }

  /** During the await of task i other tasks step, and it stays where it is. */
  lemma {:induction false} TaskWaits(states: seq<State>, steps: seq<Step>, i: nat, a: nat, b: nat)
    requires IsRun(states, steps) && a <= b <= |steps| && i < |states[a].tasks|
    requires forall k :: a <= k < b ==> !IsStepOf(steps[k], i)
    ensures i < |states[b].tasks| && states[b].tasks[i] == states[a].tasks[i]
    decreases b - a
  {
    hide Next, IsStepOf;
    if a < b {
      TaskWaits(states, steps, i, a, b - 1);
      StepTo(states, steps, b);
      OtherStepsKeepTask(states[b - 1], steps[b - 1], i);
    }
  }

  /** With amounts kept apart, take a good deposit to an invoice that a tick has on its list. When its receipt arrives,
      whatever other tasks have done during the await, the invoice is credited with that hash unless it has been
      credited or another one uses the hash by then; and no other invoice is credited. */
  lemma DepositSettles(states: seq<State>, steps: seq<Step>, a: nat, b: nat, i: nat, p: Invoice,
                       receipt: Receipt, now: nat)
    requires IsRun(states, steps) && a < b < |steps|
    requires steps[a] == TakeMatch(i) && steps[b] == MatchChecked(i, Some(receipt), now)
    requires forall k :: a < k < b ==> !IsStepOf(steps[k], i)
    requires TaskAt(states[a], i).Matching? && TaskAt(states[a], i).matches != []
    requires Separated(TaskAt(states[a], i).snapshot) && p in TaskAt(states[a], i).snapshot
    ensures var t, d, e := TaskAt(states[a], i), states[b].db, states[b + 1].db;
            var m := t.matches[0];
            GoodDeposit(states[a].db, m, t.head, t.required, p.row, receipt, now) ==>
              && p.order in d.payments && p.order in e.payments
              && (forall o :: IsCredited(e, o) <==>
                    IsCredited(d, o) || (o == p.order && !UsedByOther(d, p.order, m.txHash)))
              && (!IsCredited(d, p.order) && IsCredited(e, p.order) ==> e.payments[p.order].txHash == Lower(m.txHash))
  {
    hide Next, Matches, Backs, ExtractTxHash, Separated, UsedByOther, IsCredited, TxHashUsed;
    var t := TaskAt(states[a], i);
    var m := t.matches[0];
    if GoodDeposit(states[a].db, m, t.head, t.required, p.row, receipt, now) {
      FoundIsThis(t.snapshot, p, m);
      StepTo(states, steps, a + 1);
      TakenMatch(states[a], i, p);
      TaskWaits(states, steps, i, a + 1, b);
      RunAccounts(states, steps, b);
      InvoiceIsThere(states[b], i);
      StepTo(states, steps, b + 1);
      CheckSettlesIff(states[b], i, receipt, now);
    }
  }

  lemma TakenMatch(s: State, i: nat, p: Invoice)
    requires TaskAt(s, i).Matching? && TaskAt(s, i).matches != []
    requires var t := TaskAt(s, i);
             var m := t.matches[0];
             t.head - m.block + 1 >= t.required && !TxHashUsed(s.db, m.txHash) && FindPayment(t.snapshot, m) == Some(p)
    ensures var t := TaskAt(s, i);
            Next(s, TakeMatch(i))
            == Set(s, i, CheckingMatch(t.snapshot, t.head, t.required, t.matches[1..], t.matches[0].txHash, p))
  {
    hide FindPayment, TxHashUsed;
  }

  lemma InvoiceIsThere(s: State, i: nat)
    requires Accounted(s) && TaskAt(s, i).CheckingMatch?
    ensures TaskAt(s, i).invoice.order in s.db.payments
  {
    TaskIsOk(s, i);
  }

  /** The end of the check: the invoice is credited exactly if no other one uses the hash. */
  lemma CheckSettlesIff(s: State, i: nat, receipt: Receipt, now: nat)
    requires TaskAt(s, i).CheckingMatch? && TaskAt(s, i).invoice.order in s.db.payments
    ensures var t, e := TaskAt(s, i), Next(s, MatchChecked(i, Some(receipt), now));
            ExtractTxHash(t.hash) != "" && Backs(receipt, now, MatchDemand(t.invoice.row, t.required)) ==>
              && t.invoice.order in e.db.payments
              && TaskAt(e, i) == Matching(t.snapshot, t.head, t.required, t.matches)
              && (forall o :: IsCredited(e.db, o) <==>
                    IsCredited(s.db, o) || (o == t.invoice.order && !UsedByOther(s.db, t.invoice.order, t.hash)))
              && (!IsCredited(s.db, t.invoice.order) && IsCredited(e.db, t.invoice.order) ==>
                    e.db.payments == s.db.payments[t.invoice.order := e.db.payments[t.invoice.order]]
                    && e.db.payments[t.invoice.order].txHash == Lower(t.hash))
  {
    hide Sound, Grows, MetaKept, Backs, ExtractTxHash, Deliver;
    var t := TaskAt(s, i);
    var u := Set(s, i, Matching(t.snapshot, t.head, t.required, t.matches));
    var demand := MatchDemand(t.invoice.row, t.required);
    var e := Next(s, MatchChecked(i, Some(receipt), now));
    assert e == OnChecked(u, t.invoice, t.hash, Some(receipt), now, demand);
    var (d, row) := CreditCrypto(s.db, t.invoice.order, t.hash);
    if row.Some? {
      var proof := Some(Proof(t.invoice.row, t.hash, receipt, now, demand));
      DeliveryKeepsPayments(u.(db := d), t.invoice.order, row.value, proof);
      DeliveryKeepsTask(u.(db := d), t.invoice.order, row.value, proof, i);
    }
  }

  lemma DeliveryKeepsTask(s: State, order: string, row: Payment, proof: Option<Proof>, i: nat)
    requires i < |s.tasks|
    ensures TaskAt(Deliver(s, order, row, proof), i) == s.tasks[i]
  {
    hide Fulfil;
  }

  // --- which deposits are checked ---------------------------------------------------------------------

  predicate Used(d: Db, hash: string) {
    exists o :: o in d.payments && d.payments[o].txHash != "" && d.payments[o].txHash == Lower(hash)
  }

  /** The watcher looks at its matches in order and begins to check the first one exactly if it is confirmed, its hash
      is unused, and it fits some invoice of the tick's list; otherwise it drops it. After the last one the tick ends.
      */
  lemma MatchIsCheckedIff(s: State, i: nat)
    requires TaskAt(s, i).Matching?
    ensures var t, e := TaskAt(s, i), Next(s, TakeMatch(i));
            && e == s.(tasks := e.tasks) && e.tasks == s.tasks[i := TaskAt(e, i)]
            && (if t.matches == [] then TaskAt(e, i) == Done
                else
                  var m, found, rest := t.matches[0], FindPayment(t.snapshot, t.matches[0]), t.matches[1..];
                  TaskAt(e, i) == if t.head - m.block + 1 >= t.required && !Used(s.db, m.txHash) && found.Some?
                                  then CheckingMatch(t.snapshot, t.head, t.required, rest, m.txHash, found.value)
                                  else Matching(t.snapshot, t.head, t.required, rest))
  {
    hide FindPayment;
  }

  /** A submitted hash is checked exactly if it is unused; a tick that sees no head ends without matches. */
  lemma CheckBeginsIff(s: State, i: nat, required: int, head: nat, matches: seq<Transfer>)
    ensures TaskAt(s, i).Submitted? ==>
              var t := TaskAt(s, i);
              Next(s, CheckHash(i, required))
              == s.(tasks := s.tasks[i := if Used(s.db, t.hash) then Done
                                          else CheckingHash(t.invoice, t.hash, Max(1, required))])
    ensures TaskAt(s, i).Scanning? ==>
              Next(s, Scanned(i, head, required, matches))
              == s.(tasks := s.tasks[i := if head == 0 then Done
                                          else Matching(TaskAt(s, i).snapshot, head, Max(1, required), matches)])
  {
  }
}
