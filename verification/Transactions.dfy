/** Hashes and the transactions they name: the check reads the receipt of the hash that it finds inside the text it is
    given, while the table tells used hashes apart by the whole text. */
module Transactions {
  import opened Prelude
  import opened Text
  import opened Tables
  import opened Chain
  import opened Watcher
  import opened Handlers
  import opened Protocol
  import opened Backing
  import opened Evidence

  /** The text is, up to letter case, the hash that is found inside it; or there is none inside. */
  predicate Proper(text: string) {
    ExtractTxHash(text) != "" ==> Lower(text) == ExtractTxHash(text)
  }

  /** The event is a settlement by a deposit. */
  predicate SettledBy(e: Event) {
    e.Credited? && e.proof.Some?
  }

  // --- every settlement goes back to a check -----------------------------------------------------

  /** The text and the receipt of a check, if the step ends one that found its receipt. */
  function CheckOf(s: State, st: Step): Option<(string, Receipt)> {
    match st
    case MatchChecked(i, Some(receipt), _) =>
      if TaskAt(s, i).CheckingMatch? then Some((TaskAt(s, i).hash, receipt)) else None
    case HashChecked(i, Some(receipt), _) =>
      if TaskAt(s, i).CheckingHash? then Some((TaskAt(s, i).hash, receipt)) else None
    case _ => None
  }

  /** New settlements are those of the check. */
  ghost predicate Traced(s: State, t: State, check: Option<(string, Receipt)>) {
    && s.log <= t.log
    && forall i :: |s.log| <= i < |t.log| && SettledBy(t.log[i]) ==>
         check == Some((t.log[i].proof.value.hash, t.log[i].proof.value.receipt))
  }

  lemma DeliverLogs(s: State, order: string, row: Payment, proof: Option<Proof>)
    ensures Deliver(s, order, row, proof).log == s.log + [Credited(order, row, false, proof)] + [DeliveryStarted(order)]
  {
    hide Fulfil;
  }

  lemma CallbackTraced(s: State, hoosh: bool, order: string, status: string, invoice: string)
    ensures Traced(s, OnCallback(s, hoosh, order, status, invoice), None)
  {
    hide Deliver, Handlers.Callback;
    var (d, row) := Handlers.Callback(s.db, if hoosh then HOOSHPAY_PAID else NOWPAYMENTS_PAID, order, status, invoice);
    if row.Some? {
      DeliverLogs(s.(db := d), order, row.value, None);
    }
  }

  lemma CheckedTraced(s: State, v: Invoice, hash: string, receipt: Option<Receipt>, head: nat, demand: Demand)
    ensures Traced(s, OnChecked(s, v, hash, receipt, head, demand),
                   if receipt.Some? then Some((hash, receipt.value)) else None)
  {
    hide Deliver, Backs, ExtractTxHash, CreditCrypto;
    var (d, row) := CreditCrypto(s.db, v.order, hash);
    if row.Some? && receipt.Some? {
      DeliverLogs(s.(db := d), v.order, row.value, Some(Proof(v.row, hash, receipt.value, head, demand)));
    }
  }

  lemma InvoiceStepTraced(s: State, st: Step)
    ensures Traced(s, InvoiceStep(s, st), None)
  {
    hide OnCallback, SetStatus, UpdatePayment, CreatePayment, OnChoose;
    match st
    case Callback(signed, hoosh, order, status, invoice) =>
      CallbackTraced(s, hoosh, order, status, invoice);
    case Choose(i, wallet, draws, fallback) =>
      if TaskAt(s, i).AskedCrypto? {
        ChoiceLogs(s, i, TaskAt(s, i).order, wallet, draws, fallback);
      }
    case _ =>
  }

  lemma ChoiceLogs(s: State, i: nat, order: string, wallet: string, draws: seq<int>, fallback: int)
    ensures OnChoose(s, i, order, wallet, draws, fallback).log == s.log
  {
    hide IsAddress, DrawsInRange, UniquePayAmount, UsedAmounts, PaymentUsd;
  }

  lemma DepositStepTraced(s: State, st: Step)
    ensures Traced(s, DepositStep(s, st), CheckOf(s, st))
  {
    hide OnChecked, OnTick, OnTakeMatch, ExtractTxHash, TxHashUsed, MatchDemand, HashDemand;
    match st
    case Tick(now) => TickLogs(s, now);
    case TakeMatch(i) =>
      if TaskAt(s, i).Matching? {
        TakeMatchSame(s, i);
      }
    case MatchChecked(i, receipt, head) =>
      var t := TaskAt(s, i);
      if t.CheckingMatch? {
        var u := Set(s, i, Matching(t.snapshot, t.head, t.required, t.matches));
        CheckedTraced(u, t.invoice, t.hash, receipt, head, MatchDemand(t.invoice.row, t.required));
      }
    case HashChecked(i, receipt, head) =>
      var t := TaskAt(s, i);
      if t.CheckingHash? {
        CheckedTraced(Set(s, i, Done), t.invoice, t.hash, receipt, head, HashDemand(t.invoice.row, t.required));
      }
    case _ =>
  }

  lemma TickLogs(s: State, now: int)
    ensures OnTick(s, now).log == s.log
  {
    hide ExpireStale, WaitingInvoices;
  }

  lemma WalletStepTraced(s: State, st: Step)
    ensures Traced(s, WalletStep(s, st), None)
  {
    hide WalletPurchase, AddBalance, TryDeduct, SetReferrer, Reward, RewardedUser;
  }

  lemma NextTraced(s: State, st: Step)
    ensures Traced(s, Next(s, st), CheckOf(s, st))
  {
    hide InvoiceStep, DepositStep, WalletStep, CreateProduct, DeleteProduct, AddStock, ClearAvailable, DeliverDigital;
    if AboutInvoices(st) {
      InvoiceStepTraced(s, st);
    } else if AboutDeposits(st) {
      DepositStepTraced(s, st);
    } else if !AboutStock(st) {
      WalletStepTraced(s, st);
    }
  }

  /** In every run, every settlement ends an earlier check of its hash, with the receipt that this check was given. */
  lemma {:induction false} SettlementHasCheck(states: seq<State>, steps: seq<Step>, k: nat, i: nat) returns (j: nat)
    requires IsRun(states, steps) && k <= |steps| && i < |states[k].log| && SettledBy(states[k].log[i])
    ensures var proof := states[k].log[i].proof.value;
            j < k && CheckOf(states[j], steps[j]) == Some((proof.hash, proof.receipt))
  {
    hide Next, CheckOf, SettledBy;
    assert k > 0;
    StepTo(states, steps, k);
    NextTraced(states[k - 1], steps[k - 1]);
    if i < |states[k - 1].log| {
      assert states[k].log[i] == states[k - 1].log[i];
      j := SettlementHasCheck(states, steps, k - 1, i);
    } else {
      j := k - 1;
    }
  }

  // --- proper hashes ----------------------------------------------------------------------------------

  predicate TaskProper(t: Task) {
    match t
    case CheckingMatch(_, _, _, _, hash, _) => Proper(hash)
    case Submitted(_, hash) => Proper(hash)
    case CheckingHash(_, hash, _) => Proper(hash)
    case _ => true
  }

  ghost predicate TasksProper(s: State) {
    forall i :: 0 <= i < |s.tasks| ==> TaskProper(s.tasks[i])
  }

  /** A match that the watcher takes names its transaction and nothing besides; this can be told before it is taken. */
  predicate TakesProper(s: State, st: Step) {
    st.TakeMatch? && TaskAt(s, st.task).Matching? && TaskAt(s, st.task).matches != [] ==>
      Proper(TaskAt(s, st.task).matches[0].txHash)
  }

  lemma ExtractedIsProper(text: string)
    ensures Proper(ExtractTxHash(text))
  {
    hide ExtractTxHash;
    ExtractIdempotent(text);
  }

  lemma InvoiceStepProper(s: State, st: Step)
    requires TasksProper(s)
    ensures TasksProper(InvoiceStep(s, st))
  {
    hide Proper, Handlers.Callback, Fulfil, SetStatus, UpdatePayment, CreatePayment, UniquePayAmount, UsedAmounts;
    hide PaymentUsd, IsAddress, DrawsInRange;
  }

  lemma WalletStepProper(s: State, st: Step)
    requires TasksProper(s)
    ensures TasksProper(WalletStep(s, st))
  {
    hide Proper, WalletPurchase, AddBalance, TryDeduct, SetReferrer, Reward, RewardedUser;
  }

  lemma CheckedProper(s: State, v: Invoice, hash: string, receipt: Option<Receipt>, head: nat, demand: Demand)
    requires TasksProper(s)
    ensures TasksProper(OnChecked(s, v, hash, receipt, head, demand))
  {
    hide Proper, Backs, ExtractTxHash, CreditCrypto, Fulfil;
  }

  lemma SetProper(s: State, i: nat, t: Task)
    requires TasksProper(s) && TaskProper(t)
    ensures TasksProper(Set(s, i, t)) && TasksProper(Spawn(s, t))
  {
    hide TaskProper;
  }

  lemma TaskAtProper(s: State, i: nat)
    requires TasksProper(s)
    ensures TaskProper(TaskAt(s, i))
  {
  }

  lemma TakeMatchProper(s: State, i: nat)
    requires TasksProper(s) && TakesProper(s, TakeMatch(i)) && TaskAt(s, i).Matching?
    ensures TasksProper(OnTakeMatch(s, i, TaskAt(s, i)))
  {
    hide Proper, FindPayment, TxHashUsed;
  }

  lemma DepositStepProper(s: State, st: Step)
    requires TasksProper(s) && TakesProper(s, st)
    ensures TasksProper(DepositStep(s, st))
  {
    hide Proper, TasksProper, OnChecked, OnTick, OnTakeMatch, ExtractTxHash, TxHashUsed, MatchDemand, HashDemand;
    match st
    case Tick(now) => TickProper(s, now);
    case Scanned(i, head, required, matches) =>
      if TaskAt(s, i).Scanning? {
        SetProper(s, i, Done);
        SetProper(s, i, Matching(TaskAt(s, i).snapshot, head, AtLeastOne(required), matches));
      }
    case TakeMatch(i) =>
      if TaskAt(s, i).Matching? {
        TakeMatchProper(s, i);
      }
    case MatchChecked(i, receipt, head) =>
      var t := TaskAt(s, i);
      if t.CheckingMatch? {
        var u := Set(s, i, Matching(t.snapshot, t.head, t.required, t.matches));
        SetProper(s, i, Matching(t.snapshot, t.head, t.required, t.matches));
        CheckedProper(u, t.invoice, t.hash, receipt, head, MatchDemand(t.invoice.row, t.required));
      }
    case Submit(order, user, text) =>
      ExtractedIsProper(text);
      if order in s.db.payments {
        SetProper(s, 0, Submitted(Invoice(order, s.db.payments[order]), ExtractTxHash(text)));
      }
    case CheckHash(i, required) =>
      TaskAtProper(s, i);
      if TaskAt(s, i).Submitted? {
        SetProper(s, i, Done);
        SetProper(s, i, CheckingHash(TaskAt(s, i).invoice, TaskAt(s, i).hash, AtLeastOne(required)));
      }
    case HashChecked(i, receipt, head) =>
      var t := TaskAt(s, i);
      if t.CheckingHash? {
        SetProper(s, i, Done);
        CheckedProper(Set(s, i, Done), t.invoice, t.hash, receipt, head, HashDemand(t.invoice.row, t.required));
      }
    case _ =>
  }

  lemma TickProper(s: State, now: int)
    requires TasksProper(s)
    ensures TasksProper(OnTick(s, now))
  {
    hide Proper, ExpireStale, WaitingInvoices;
  }

  lemma NextProper(s: State, st: Step)
    requires TasksProper(s) && TakesProper(s, st)
    ensures TasksProper(Next(s, st))
  {
    hide TasksProper, TakesProper, InvoiceStep, DepositStep, WalletStep;
    if AboutInvoices(st) {
      InvoiceStepProper(s, st);
    } else if AboutDeposits(st) {
      DepositStepProper(s, st);
    } else if AboutStock(st) {
      SameTasksProper(s, StockStep(s, st));
    } else {
      WalletStepProper(s, st);
    }
  }

  lemma SameTasksProper(s: State, t: State)
    requires TasksProper(s) && t.tasks == s.tasks
    ensures TasksProper(t)
  {
  }

  ghost predicate TakesOnlyProper(states: seq<State>, steps: seq<Step>) {
    |steps| < |states| && forall k :: 0 <= k < |steps| ==> TakesProper(states[k], steps[k])
  }

  lemma {:induction false} RunProper(states: seq<State>, steps: seq<Step>, k: nat)
    requires IsRun(states, steps) && TakesOnlyProper(states, steps) && k <= |steps|
    ensures TasksProper(states[k])
  {
    hide Next, TakesProper, TaskProper;
    if k > 0 {
      RunProper(states, steps, k - 1);
      StepTo(states, steps, k);
      assert TakesProper(states[k - 1], steps[k - 1]);
      NextProper(states[k - 1], steps[k - 1]);
    }
  }

  lemma CheckedTaskProper(s: State, st: Step)
    requires TasksProper(s)
    ensures CheckOf(s, st).Some? ==> Proper(CheckOf(s, st).value.0)
  {
    hide Proper;
  }

  /** In every run whose taken matches are proper, no two settlements name the same transaction; submitted hashes always
      are proper. */
  lemma TransactionsAreDistinct(states: seq<State>, steps: seq<Step>, k: nat, i: nat, j: nat)
    requires IsRun(states, steps) && TakesOnlyProper(states, steps) && k <= |steps|
    requires i < j < |states[k].log| && SettledBy(states[k].log[i]) && SettledBy(states[k].log[j])
    ensures ExtractTxHash(states[k].log[i].proof.value.hash) != ExtractTxHash(states[k].log[j].proof.value.hash)
  {
    hide Next, ExtractTxHash, EventOk, TakesProper;
    SettlementIsProper(states, steps, k, i);
    SettlementIsProper(states, steps, k, j);
    CreditsAreDistinct(states, steps, k, i, j);
  }

  /** The hash written for a proper settlement is the transaction's. */
  lemma SettlementIsProper(states: seq<State>, steps: seq<Step>, k: nat, i: nat)
    requires IsRun(states, steps) && TakesOnlyProper(states, steps) && k <= |steps|
    requires i < |states[k].log| && SettledBy(states[k].log[i])
    ensures var e := states[k].log[i];
            e.row.txHash == ExtractTxHash(e.proof.value.hash) == Lower(e.proof.value.hash) && e.row.txHash != ""
  {
    hide Next, ExtractTxHash, TakesProper, Backs, PaidTo, FromInvoice;
    var j := SettlementHasCheck(states, steps, k, i);
    RunProper(states, steps, j);
    CheckedTaskProper(states[j], steps[j]);
    RunAccounts(states, steps, k);
    assert EventOk(states[k].db, states[k].log[i]);
  }

  // --- one chain ------------------------------------------------------------------------------------------

  /** Every check is answered with the receipt that the chain has for the hash found in the text. */
  ghost predicate RepliesFrom(states: seq<State>, steps: seq<Step>, chain: string -> Option<Receipt>) {
    |steps| < |states| && forall j :: 0 <= j < |steps| && CheckOf(states[j], steps[j]).Some? ==>
      var check := CheckOf(states[j], steps[j]).value; chain(ExtractTxHash(check.0)) == Some(check.1)
  }

  /** With replies from one chain, every settlement was checked with the receipt of the transaction its hash names; if
      taken matches are proper, that is the transaction of the hash written on the invoice. */
  lemma SettlementNamesItsTransaction(states: seq<State>, steps: seq<Step>, k: nat, i: nat,
                                      chain: string -> Option<Receipt>)
    requires IsRun(states, steps) && RepliesFrom(states, steps, chain) && k <= |steps|
    requires i < |states[k].log| && SettledBy(states[k].log[i])
    ensures var e := states[k].log[i];
            && chain(ExtractTxHash(e.proof.value.hash)) == Some(e.proof.value.receipt)
            && Backs(e.proof.value.receipt, e.proof.value.head, e.proof.value.demand)
            && (TakesOnlyProper(states, steps) ==> chain(e.row.txHash) == Some(e.proof.value.receipt))
  {
    hide Next, ExtractTxHash, CheckOf, TakesProper, Backs, PaidTo, FromInvoice;
    var j := SettlementHasCheck(states, steps, k, i);
    assert CheckOf(states[j], steps[j]).Some?;
    RunAccounts(states, steps, k);
    assert EventOk(states[k].db, states[k].log[i]);
    if TakesOnlyProper(states, steps) {
      SettlementIsProper(states, steps, k, i);
    }
  }

  /** The least that the price of a settled invoice asks for, in 10^-18 USDT. */
  ghost function Due(): Event -> int {
    (e: Event) => if SettledBy(e) then (PaymentUsd(e.row) * CENT - TOLERANCE) * MICRO else 0
  }

  /** What the transaction named by the settlement's hash pays to the invoice's address. */
  ghost function Deposited(chain: string -> Option<Receipt>): Event -> int {
    (e: Event) =>
      if SettledBy(e) && chain(ExtractTxHash(e.proof.value.hash)).Some?
      then PaidTo(chain(ExtractTxHash(e.proof.value.hash)).value.logs, NormalizeAddress(e.proof.value.demand.address))
      else 0
  }

  lemma {:induction false} TotalAtMost<T>(xs: seq<T>, f: T -> int, g: T -> int)
    requires forall i :: 0 <= i < |xs| ==> f(xs[i]) <= g(xs[i])
    ensures Total(xs, f) <= Total(xs, g)
  {
    if xs != [] {
      TotalAtMost(xs[..|xs| - 1], f, g);
    }
  }

  lemma CreditIsCovered(d: Db, e: Event, chain: string -> Option<Receipt>)
    requires EventOk(d, e)
    requires SettledBy(e) ==> chain(ExtractTxHash(e.proof.value.hash)) == Some(e.proof.value.receipt)
    ensures Due()(e) <= Deposited(chain)(e)
  {
    hide Backs, ExtractTxHash, PaidTo, NormalizeAddress, FromInvoice;
  }

  /** In every state of every run with replies from one chain whose taken matches are proper, the prices of all settled
      invoices together, less the tolerance for each, are covered by the deposits of their transactions, and no
      transaction is counted twice. */
  lemma DepositsCoverCredits(states: seq<State>, steps: seq<Step>, k: nat, chain: string -> Option<Receipt>)
    requires IsRun(states, steps) && RepliesFrom(states, steps, chain) && TakesOnlyProper(states, steps) && k <= |steps|
    ensures Total(states[k].log, Due()) <= Total(states[k].log, Deposited(chain))
    ensures forall i, j | 0 <= i < j < |states[k].log| ::
              SettledBy(states[k].log[i]) && SettledBy(states[k].log[j]) ==>
              ExtractTxHash(states[k].log[i].proof.value.hash) != ExtractTxHash(states[k].log[j].proof.value.hash)
  {
    hide Next, EventOk, Due, Deposited, ExtractTxHash, Backs, TakesProper, CheckOf;
    RunAccounts(states, steps, k);
    var s := states[k];
    forall i | 0 <= i < |s.log| ensures Due()(s.log[i]) <= Deposited(chain)(s.log[i]) {
      if SettledBy(s.log[i]) {
        SettlementNamesItsTransaction(states, steps, k, i, chain);
      }
      CreditIsCovered(s.db, s.log[i], chain);
    }
    TotalAtMost(s.log, Due(), Deposited(chain));
    forall i, j | 0 <= i < j < |s.log| && SettledBy(s.log[i]) && SettledBy(s.log[j])
      ensures ExtractTxHash(s.log[i].proof.value.hash) != ExtractTxHash(s.log[j].proof.value.hash)
    {
      TransactionsAreDistinct(states, steps, k, i, j);
    }
  }

  // --- improper hashes replay a transaction -------------------------------------------------------------------

  /** A single letter behind a hash makes an improper text that names the same transaction. */
  lemma SuffixIsImproper(hash: string)
    requires IsTxHash(hash) && Lower(hash) == hash
    ensures ExtractTxHash(hash + "z") == hash && !Proper(hash + "z")
  {
    var s := hash + "z";
    HexIsNoBlank(hash[2..]);
    assert hash == hash[..2] + hash[2..];
    StripNothing(s);
    assert s[..66] == hash;
    assert |Lower(s)| == 67;
  }

  /** A match taken and checked, with no other step in between. */
  ghost function TakeAndCheck(s: State, i: nat, receipt: Receipt, now: nat): State {
    Next(Next(s, TakeMatch(i)), MatchChecked(i, Some(receipt), now))
  }

  lemma TakenAndChecked(s: State, i: nat, p: Invoice, receipt: Receipt, now: nat)
    requires TaskAt(s, i).Matching? && TaskAt(s, i).matches != []
    requires p.order in s.db.payments && !IsCredited(s.db, p.order)
    requires var t := TaskAt(s, i);
             FindPayment(t.snapshot, t.matches[0]) == Some(p)
    ensures var t, e := TaskAt(s, i), TakeAndCheck(s, i, receipt, now);
            GoodDeposit(s.db, t.matches[0], t.head, t.required, p.row, receipt, now) ==>
              && TaskAt(e, i) == Matching(t.snapshot, t.head, t.required, t.matches[1..])
              && p.order in e.db.payments && e.db.payments == s.db.payments[p.order := e.db.payments[p.order]]
              && IsCredited(e.db, p.order) && e.db.payments[p.order].txHash == Lower(t.matches[0].txHash)
  {
    hide Next, Matches, Backs, ExtractTxHash, FindPayment;
    var t := TaskAt(s, i);
    if GoodDeposit(s.db, t.matches[0], t.head, t.required, p.row, receipt, now) {
      TakenMatch(s, i, p);
      var u := Next(s, TakeMatch(i));
      CheckSettlesIff(u, i, receipt, now);
      assert !UsedByOther(s.db, p.order, t.matches[0].txHash);
    }
  }

  lemma UsedMatchIsSkipped(s: State, i: nat, receipt: Receipt, now: nat)
    requires TaskAt(s, i).Matching? && TaskAt(s, i).matches != [] && TxHashUsed(s.db, TaskAt(s, i).matches[0].txHash)
    ensures TakeAndCheck(s, i, receipt, now).db == s.db
  {
    hide FindPayment, TxHashUsed;
  }

  /** Two matches, for two invoices, whose hashes name one transaction: the plain hash, and any text h in which it is
      found. One receipt backs both demands. The second invoice is credited from the same transaction exactly if h is
      improper; so a proper match never reuses a transaction, and any other text with a hash inside can. */
  lemma ReplaySettlesIff(s: State, i: nat, p: Invoice, q: Invoice, h: string, receipt: Receipt, now: nat)
    requires TaskAt(s, i).Matching? && |TaskAt(s, i).matches| >= 2
    requires var t := TaskAt(s, i);
             && t.matches[0].txHash == ExtractTxHash(h) != "" && t.matches[1].txHash == h
             && FindPayment(t.snapshot, t.matches[0]) == Some(p) && FindPayment(t.snapshot, t.matches[1]) == Some(q)
    requires p.order != q.order && p.order in s.db.payments && q.order in s.db.payments
    requires !IsCredited(s.db, p.order) && !IsCredited(s.db, q.order)
    ensures var t, e := TaskAt(s, i), TakeAndCheck(TakeAndCheck(s, i, receipt, now), i, receipt, now);
            && GoodDeposit(s.db, t.matches[0], t.head, t.required, p.row, receipt, now)
            && GoodDeposit(s.db, t.matches[1], t.head, t.required, q.row, receipt, now) ==>
              && IsCredited(e.db, p.order) && e.db.payments[p.order].txHash == ExtractTxHash(h)
              && (IsCredited(e.db, q.order) <==> Lower(h) != ExtractTxHash(h))
              && (IsCredited(e.db, q.order) ==> e.db.payments[q.order].txHash == Lower(h))
  {
    hide Next, Matches, Backs, ExtractTxHash, FindPayment, TakeAndCheck;
    var t := TaskAt(s, i);
    ExtractIdempotent(h);
    if GoodDeposit(s.db, t.matches[0], t.head, t.required, p.row, receipt, now)
       && GoodDeposit(s.db, t.matches[1], t.head, t.required, q.row, receipt, now) {
      TakenAndChecked(s, i, p, receipt, now);
      var u := TakeAndCheck(s, i, receipt, now);
      assert u.db.payments[q.order] == s.db.payments[q.order];
      if Lower(h) == ExtractTxHash(h) {
        assert TxHashUsed(u.db, h);
        UsedMatchIsSkipped(u, i, receipt, now);
      } else {
        NotUsedBy(s.db, u.db, p.order, h);
        TakenAndChecked(u, i, q, receipt, now);
      }
    }
  }

  lemma NotUsedBy(d: Db, e: Db, order: string, hash: string)
    requires !TxHashUsed(d, hash) && order in e.payments
    requires e.payments == d.payments[order := e.payments[order]] && e.payments[order].txHash != Lower(hash)
    ensures !TxHashUsed(e, hash)
  {
  }
}
