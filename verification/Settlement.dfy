/** Each order is credited and delivered at most once, in every interleaving of every payment path. */
module Settlement {
  import opened Prelude
  import opened Tables
  import opened Chain
  import opened Watcher
  import opened Handlers
  import opened Protocol

  ghost function CreditOf(order: string): Event -> int {
    (e: Event) => if e.Credited? && e.order == order then 1 else 0
  }

  ghost function StartOf(order: string): Event -> int {
    (e: Event) => if e.DeliveryStarted? && e.order == order then 1 else 0
  }

  ghost function Credits(s: State, order: string): int { Total(s.log, CreditOf(order)) }

  ghost function Deliveries(s: State, order: string): int { Total(s.log, StartOf(order)) }

  /** Credits handed out and deliveries begun are both 1 for a credited order and 0 for any other. */
  ghost predicate CreditsAgree(s: State) {
    forall o :: Credits(s, o) == Deliveries(s, o) == (if IsCredited(s.db, o) then 1 else 0)
  }

  /** What a stretch that may credit `order` does to the credited flags. */
  ghost predicate CreditEffect(d: Db, e: Db, order: string, row: Option<Payment>) {
    && (forall o :: IsCredited(e, o) <==> IsCredited(d, o) || (row.Some? && o == order))
    && (row.Some? ==> !IsCredited(d, order) && order in e.payments && e.payments[order] == row.value)
  }

  lemma CallbackEffect(d: Db, paid: set<string>, order: string, status: string, invoice: string)
    ensures var (e, row) := Handlers.Callback(d, paid, order, status, invoice); CreditEffect(d, e, order, row)
  {
    hide Sound, Grows, MetaKept;
  }

  lemma CryptoEffect(d: Db, order: string, hash: string)
    ensures var (e, row) := CreditCrypto(d, order, hash); CreditEffect(d, e, order, row)
  {
    hide Sound, Grows, MetaKept;
  }

  lemma WalletEffect(d: Db, order: string, row: Payment, user: int, price: int)
    ensures var (e, r) := WalletPurchase(d, order, row, user, price);
            CreditEffect(d, e, order, if r.Paid? then Some(r.row) else None)
  {
    hide Sound, Grows, MetaKept, LowestAvailable, HeldBy, ClaimStock;
  }

  /** A step that neither credits nor begins a delivery. */
  ghost predicate Neutral(s: State, t: State) {
    && (forall o :: IsCredited(t.db, o) <==> IsCredited(s.db, o))
    && (t.log == s.log || exists e: Event :: t.log == s.log + [e] && !e.Credited? && !e.DeliveryStarted?)
  }

  lemma NeutralAgrees(s: State, t: State)
    requires CreditsAgree(s) && Neutral(s, t)
    ensures CreditsAgree(t)
  {
    forall o ensures Credits(t, o) == Credits(s, o) && Deliveries(t, o) == Deliveries(s, o) {
      if t.log != s.log {
        var e: Event :| t.log == s.log + [e] && !e.Credited? && !e.DeliveryStarted?;
        TotalAppend(s.log, e, CreditOf(o));
        TotalAppend(s.log, e, StartOf(o));
      }
    }
  }

  lemma CreditAgrees(s: State, t: State, order: string, row: Payment, credit: Event)
    requires CreditsAgree(s) && CreditEffect(s.db, t.db, order, Some(row))
    requires credit.Credited? && credit.order == order && t.log == s.log + [credit] + [DeliveryStarted(order)]
    ensures CreditsAgree(t)
  {
    forall o ensures Credits(t, o) == Credits(s, o) + (if o == order then 1 else 0)
                  && Deliveries(t, o) == Deliveries(s, o) + (if o == order then 1 else 0) {
      TotalAppend(s.log, credit, CreditOf(o));
      TotalAppend(s.log, credit, StartOf(o));
      TotalAppend(s.log + [credit], DeliveryStarted(order), CreditOf(o));
      TotalAppend(s.log + [credit], DeliveryStarted(order), StartOf(o));
    }
  }

  lemma DeliverAgrees(s: State, d: Db, order: string, row: Payment, proof: Option<Proof>)
    requires CreditsAgree(s) && CreditEffect(s.db, d, order, Some(row))
    ensures CreditsAgree(Deliver(s.(db := d), order, row, proof))
  {
    var t := Deliver(s.(db := d), order, row, proof);
    assert t.db.payments == d.payments;
    CreditAgrees(s, t, order, row, Credited(order, row, false, proof));
  }

  lemma InvoiceStepAgrees(s: State, st: Step)
    requires CreditsAgree(s)
    ensures CreditsAgree(InvoiceStep(s, st))
  {
    hide Sound, Grows, MetaKept, CreditsAgree, Deliver;
    if st.Callback? && st.signed {
      var paid := if st.hoosh then HOOSHPAY_PAID else NOWPAYMENTS_PAID;
      var (d, row) := Handlers.Callback(s.db, paid, st.order, st.status, st.invoice);
      CallbackEffect(s.db, paid, st.order, st.status, st.invoice);
      if row.Some? {
        DeliverAgrees(s, d, st.order, row.value, None);
      } else {
        NeutralAgrees(s, s.(db := d));
      }
    } else {
      assert Neutral(s, InvoiceStep(s, st));
      NeutralAgrees(s, InvoiceStep(s, st));
    }
  }

  lemma CheckedAgrees(s: State, invoice: Invoice, hash: string, receipt: Option<Receipt>, head: nat, demand: Demand)
    requires CreditsAgree(s)
    ensures CreditsAgree(OnChecked(s, invoice, hash, receipt, head, demand))
  {
    hide Sound, Grows, MetaKept, CreditsAgree, Deliver, Backs, ExtractTxHash, CreditCrypto;
    if ExtractTxHash(hash) != "" && receipt.Some? && Backs(receipt.value, head, demand) {
      var (d, row) := CreditCrypto(s.db, invoice.order, hash);
      CryptoEffect(s.db, invoice.order, hash);
      if row.Some? {
        DeliverAgrees(s, d, invoice.order, row.value, Some(Proof(invoice.row, hash, receipt.value, head, demand)));
      } else {
        NeutralAgrees(s, s.(db := d));
      }
    }
  }

  lemma DepositStepAgrees(s: State, st: Step)
    requires CreditsAgree(s)
    ensures CreditsAgree(DepositStep(s, st))
  {
    hide Sound, Grows, MetaKept, CreditsAgree, OnChecked, FindPayment, TxHashUsed, ExtractTxHash;
    var t := TaskAt(s, if st.MatchChecked? || st.HashChecked? then st.task else 0);
    if st.MatchChecked? && t.CheckingMatch? {
      var u := Set(s, st.task, Matching(t.snapshot, t.head, t.required, t.matches));
      NeutralAgrees(s, u);
      CheckedAgrees(u, t.invoice, t.hash, st.receipt, st.head, MatchDemand(t.invoice.row, t.required));
    } else if st.HashChecked? && t.CheckingHash? {
      var u := Set(s, st.task, Done);
      NeutralAgrees(s, u);
      CheckedAgrees(u, t.invoice, t.hash, st.receipt, st.head, HashDemand(t.invoice.row, t.required));
    } else {
      NeutralAgrees(s, DepositStep(s, st));
    }
  }

  lemma PayWalletAgrees(s: State, i: nat, v: Invoice, user: int, price: int)
    requires CreditsAgree(s)
    ensures CreditsAgree(OnPayWallet(s, i, v, user, price))
  {
    hide CreditsAgree, WalletPurchase;
    var (d, r) := WalletPurchase(s.db, v.order, v.row, user, price);
    WalletEffect(s.db, v.order, v.row, user, price);
    if r.Paid? {
      CreditAgrees(s, OnPayWallet(s, i, v, user, price), v.order, r.row, Credited(v.order, r.row, true, None));
    } else {
      NeutralAgrees(s, OnPayWallet(s, i, v, user, price));
    }
  }

  lemma WalletStepAgrees(s: State, st: Step)
    requires CreditsAgree(s)
    ensures CreditsAgree(WalletStep(s, st))
  {
    hide Sound, Grows, MetaKept, CreditsAgree, OnPayWallet;
    var t := TaskAt(s, if st.PayWallet? then st.task else 0);
    if st.PayWallet? && t.AskedWallet? {
      PayWalletAgrees(s, st.task, t.invoice, t.user, st.price);
    } else if st.BoughtDelivered? && TaskAt(s, st.task).DeliveringBought? && TaskAt(s, st.task).delivered {
      var b := TaskAt(s, st.task);
      var u := Emit(Set(s, st.task, Done), Bought(b.user, b.price));
      NeutralAgrees(s, u);
      NeutralAgrees(u, OnReward(u, b.user, st.reward));
    } else {
      NeutralAgrees(s, WalletStep(s, st));
    }
  }

  lemma NextAgrees(s: State, st: Step)
    requires CreditsAgree(s)
    ensures CreditsAgree(Next(s, st))
  {
    hide CreditsAgree, InvoiceStep, DepositStep, WalletStep;
    if AboutInvoices(st) {
      InvoiceStepAgrees(s, st);
    } else if AboutDeposits(st) {
      DepositStepAgrees(s, st);
    } else if AboutStock(st) {
      NeutralAgrees(s, StockStep(s, st));
    } else {
      WalletStepAgrees(s, st);
    }
  }

  lemma {:induction false} RunAgrees(states: seq<State>, steps: seq<Step>, k: nat)
    requires IsRun(states, steps) && k <= |steps|
    ensures CreditsAgree(states[k])
  {
    hide Next;
    if k > 0 {
      RunAgrees(states, steps, k - 1);
      StepTo(states, steps, k);
      NextAgrees(states[k - 1], steps[k - 1]);
    }
  }

  /** In every state of every run, an order has been credited once and its delivery begun once if its row is credited,
      and neither has happened otherwise. */
  lemma CreditedAndDeliveredAtMostOnce(states: seq<State>, steps: seq<Step>, k: nat, order: string)
    requires IsRun(states, steps) && k <= |steps|
    ensures Credits(states[k], order) == Deliveries(states[k], order)
            == if IsCredited(states[k].db, order) then 1 else 0
  {
    hide Next;
    RunAgrees(states, steps, k);
  }

  /** A callback credits exactly its own order, if it is signed and its status means paid at its gateway; a signed one
      for a known order always writes status and invoice id. */
  lemma CallbackCreditsIff(s: State, hoosh: bool, signed: bool, at: string, status: string, invoice: string,
                           order: string)
    ensures var e := Next(s, Callback(signed, hoosh, at, status, invoice));
            && (IsCredited(e.db, order) <==>
                  || IsCredited(s.db, order)
                  || (order == at && order in s.db.payments && signed
                      && (if hoosh then status == "paid" else status == "finished" || status == "confirmed")))
            && (signed && at in s.db.payments ==>
                  at in e.db.payments && e.db.payments[at].status == status && e.db.payments[at].invoiceId == invoice)
            && (!signed ==> e == s)
  {
    hide Sound, Grows, MetaKept, Deliver;
    var paid := if hoosh then HOOSHPAY_PAID else NOWPAYMENTS_PAID;
    var (d, row) := Handlers.Callback(s.db, paid, at, status, invoice);
    if signed && row.Some? {
      DeliveryKeepsPayments(s.(db := d), at, row.value, None);
    }
  }
}
