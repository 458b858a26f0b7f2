/** Only a manual adjustment can take a wallet below zero. */
module Solvency {
  import opened Prelude
  import opened Tables
  import opened Chain
  import opened Watcher
  import opened Handlers
  import opened Protocol
  import opened Backing

  predicate NonNegativePrice(st: Step) {
    (st.PayWallet? ==> st.price >= 0) && (st.Renew? ==> st.price >= 0)
  }

  /** No task in flight owes a negative refund. */
  ghost predicate Priced(s: State) {
    forall i :: 0 <= i < |s.tasks| ==> PricedTask(s.tasks[i])
  }

  predicate PricedTask(t: Task) {
    (t.DeliveringBought? || t.Renewing?) ==> t.price >= 0
  }

  /** The wallet of `u` did not sink, or is not overdrawn. */
  predicate Afloat(d: Db, e: Db, u: int) {
    Balance(e, u) >= Balance(d, u) || Balance(e, u) >= 0
  }

  lemma DeliverAfloat(s: State, order: string, row: Payment, proof: Option<Proof>, u: int)
    requires row.amount >= 0 && Priced(s)
    ensures Balance(Deliver(s, order, row, proof).db, u) >= Balance(s.db, u) && Priced(Deliver(s, order, row, proof))
  {
    hide Sound, Grows, PaymentsSame, ClaimStock;
  }

  lemma InvoiceStepAfloat(s: State, st: Step, u: int)
    requires RowsOk(s.db) && Priced(s)
    ensures Afloat(s.db, InvoiceStep(s, st).db, u) && Priced(InvoiceStep(s, st))
  {
    hide Sound, Grows, MetaKept, Deliver;
    if st.Callback? && st.signed {
      var paid := if st.hoosh then HOOSHPAY_PAID else NOWPAYMENTS_PAID;
      var (d, row) := Handlers.Callback(s.db, paid, st.order, st.status, st.invoice);
      if row.Some? {
        assert RowOk(s.db.payments[st.order]);
        DeliverAfloat(s.(db := d), st.order, row.value, None, u);
      }
    }
  }

  lemma CheckedAfloat(s: State, invoice: Invoice, hash: string, receipt: Option<Receipt>, head: nat, demand: Demand,
                      u: int)
    requires RowsOk(s.db) && Priced(s)
    ensures var t := OnChecked(s, invoice, hash, receipt, head, demand); Afloat(s.db, t.db, u) && Priced(t)
  {
    hide Sound, Grows, MetaKept, Deliver, Backs, ExtractTxHash;
    var (d, row) := CreditCrypto(s.db, invoice.order, hash);
    if row.Some? && receipt.Some? {
      assert RowOk(s.db.payments[invoice.order]);
      DeliverAfloat(s.(db := d), invoice.order, row.value,
                    Some(Proof(invoice.row, hash, receipt.value, head, demand)), u);
    }
  }

  lemma DepositStepAfloat(s: State, st: Step, u: int)
    requires RowsOk(s.db) && Priced(s)
    ensures Afloat(s.db, DepositStep(s, st).db, u) && Priced(DepositStep(s, st))
  {
    hide Sound, Grows, MetaKept, OnChecked, FindPayment, TxHashUsed, ExtractTxHash;
    var t := TaskAt(s, if st.MatchChecked? || st.HashChecked? then st.task else 0);
    if st.MatchChecked? && t.CheckingMatch? {
      var v := Set(s, st.task, Matching(t.snapshot, t.head, t.required, t.matches));
      CheckedAfloat(v, t.invoice, t.hash, st.receipt, st.head, MatchDemand(t.invoice.row, t.required), u);
    } else if st.HashChecked? && t.CheckingHash? {
      var v := Set(s, st.task, Done);
      CheckedAfloat(v, t.invoice, t.hash, st.receipt, st.head, HashDemand(t.invoice.row, t.required), u);
    }
  }

  lemma PurchaseAfloat(d: Db, order: string, row: Payment, user: int, price: int, u: int)
    requires price >= 0
    ensures Afloat(d, WalletPurchase(d, order, row, user, price).0, u)
  {
    hide Sound, Grows, MetaKept, PaymentsSame, LowestAvailable, HeldBy, ClaimStock;
    OnlyPaidCosts(d, order, row, user, price, u);
  }

  lemma WalletStepAfloat(s: State, st: Step, u: int)
    requires Priced(s) && NonNegativePrice(st)
    ensures Priced(WalletStep(s, st))
    ensures if st.Adjust?
            then Balance(WalletStep(s, st).db, u) == Balance(s.db, u) + (if st.user == u then st.amount else 0)
            else Afloat(s.db, WalletStep(s, st).db, u)
  {
    hide Sound, Grows, MetaKept, PaymentsSame, WalletPurchase;
    if st.PayWallet? && TaskAt(s, st.task).AskedWallet? {
      var t := TaskAt(s, st.task);
      PurchaseAfloat(s.db, t.invoice.order, t.invoice.row, t.user, st.price, u);
    }
  }

  lemma StockStepAfloat(s: State, st: Step, u: int)
    requires Priced(s)
    ensures Balance(StockStep(s, st).db, u) == Balance(s.db, u) && Priced(StockStep(s, st))
  {
    hide Sound, Grows, PaymentsSame;
  }

  lemma NextAfloat(s: State, st: Step, u: int)
    requires RowsOk(s.db) && Priced(s) && NonNegativePrice(st)
    ensures Priced(Next(s, st))
    ensures if st.Adjust? then Balance(Next(s, st).db, u) == Balance(s.db, u) + (if st.user == u then st.amount else 0)
            else Afloat(s.db, Next(s, st).db, u)
  {
    hide InvoiceStep, DepositStep, StockStep, WalletStep, RowsOk, Priced;
    InvoiceStepAfloat(s, st, u);
    DepositStepAfloat(s, st, u);
    StockStepAfloat(s, st, u);
    WalletStepAfloat(s, st, u);
  }

  /** What manual adjustments took from `u`. */
  function Debits(steps: seq<Step>, u: int): nat {
    if steps == [] then 0
    else
      var st := steps[|steps| - 1];
      Debits(steps[..|steps| - 1], u) + if st.Adjust? && st.user == u && st.amount < 0 then -st.amount else 0
  }

  lemma {:induction false} RunAfloat(states: seq<State>, steps: seq<Step>, k: nat, u: int)
    requires IsRun(states, steps) && k <= |steps|
    requires forall j :: 0 <= j < |steps| ==> NonNegativePrice(steps[j])
    ensures Balance(states[k].db, u) + Debits(steps[..k], u) >= 0 && Priced(states[k])
  {
    hide Next, RowsOk, NonNegativePrice;
    if k > 0 {
      RunAfloat(states, steps, k - 1, u);
      assert RowsOk(states[k - 1].db) by { RunAccounts(states, steps, k - 1); }
      StepTo(states, steps, k);
      hide Priced;
      NextAfloat(states[k - 1], steps[k - 1], u);
      assert steps[..k][..k - 1] == steps[..k - 1];
    }
  }

  /** While prices are not negative, no wallet is ever overdrawn by more than manual adjustments took from it; in
      particular never, if none took anything. */
  lemma OverdraftIsManual(states: seq<State>, steps: seq<Step>, k: nat, u: int)
    requires IsRun(states, steps) && k <= |steps|
    requires forall j :: 0 <= j < |steps| ==> NonNegativePrice(steps[j])
    ensures Balance(states[k].db, u) >= 0 - Debits(steps[..k], u)
  {
    hide Next;
    RunAfloat(states, steps, k, u);
  }
}
