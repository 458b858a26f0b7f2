/** What no step of the protocol undoes: credits, hashes, sold items, and the terms of an invoice. */
module Persistence {
  import opened Prelude
  import opened Tables
  import opened Chain
  import opened Watcher
  import opened Handlers
  import opened Protocol

  /** The tables stay sound, only grow, and keep every invoice's `meta`. */
  ghost predicate Persists(d: Db, e: Db) {
    (Sound(d) ==> Sound(e) && Grows(d, e)) && MetaKept(d, e)
  }

  lemma PersistsTransitive(d: Db, e: Db, f: Db)
    requires Persists(d, e) && Persists(e, f)
    ensures Persists(d, f)
  {
    if Sound(d) {
      GrowsTransitive(d, e, f);
    }
  }

  lemma Kept(d: Db, e: Db)
    requires PaymentsSame(d, e) && Grows(d, e) && (Sound(d) ==> Sound(e))
    ensures Persists(d, e)
  {
  }

  lemma DeliverPersists(s: State, order: string, row: Payment, proof: Option<Proof>)
    ensures Persists(s.db, Deliver(s, order, row, proof).db)
  {
    hide Sound, Grows, MetaKept, PaymentsSame, Persists;
    Kept(s.db, Fulfil(s.db, order, row).0);
  }

  lemma InvoiceStepPersists(s: State, st: Step)
    ensures Persists(s.db, InvoiceStep(s, st).db)
  {
    hide Sound, Grows, MetaKept, Deliver, Handlers.Callback, SetStatus, UpdatePayment, CreatePayment;
    hide UsedAmounts, UniquePayAmount;
    UnchangedPersists(s.db);
    if st.Callback? && st.signed {
      var paid := if st.hoosh then HOOSHPAY_PAID else NOWPAYMENTS_PAID;
      var (d, row) := Handlers.Callback(s.db, paid, st.order, st.status, st.invoice);
      if row.Some? {
        DeliverPersists(s.(db := d), st.order, row.value, None);
        PersistsTransitive(s.db, d, InvoiceStep(s, st).db);
      }
    }
  }

  lemma UnchangedPersists(d: Db)
    ensures Persists(d, d)
  {
  }

  lemma CheckedPersists(s: State, invoice: Invoice, hash: string, receipt: Option<Receipt>, head: nat, demand: Demand)
    ensures Persists(s.db, OnChecked(s, invoice, hash, receipt, head, demand).db)
  {
    hide Sound, Grows, MetaKept, Deliver, Backs, ExtractTxHash, CreditCrypto;
    UnchangedPersists(s.db);
    if ExtractTxHash(hash) != "" && receipt.Some? && Backs(receipt.value, head, demand) {
      var (d, row) := CreditCrypto(s.db, invoice.order, hash);
      if row.Some? {
        DeliverPersists(s.(db := d), invoice.order, row.value,
                        Some(Proof(invoice.row, hash, receipt.value, head, demand)));
        PersistsTransitive(s.db, d, OnChecked(s, invoice, hash, receipt, head, demand).db);
      }
    }
  }

  lemma DepositStepPersists(s: State, st: Step)
    ensures Persists(s.db, DepositStep(s, st).db)
  {
    hide Sound, Grows, MetaKept, OnChecked, FindPayment, TxHashUsed, ExtractTxHash;
    UnchangedPersists(s.db);
    var t := TaskAt(s, if st.MatchChecked? || st.HashChecked? then st.task else 0);
    if st.MatchChecked? && t.CheckingMatch? {
      var u := Set(s, st.task, Matching(t.snapshot, t.head, t.required, t.matches));
      CheckedPersists(u, t.invoice, t.hash, st.receipt, st.head, MatchDemand(t.invoice.row, t.required));
    } else if st.HashChecked? && t.CheckingHash? {
      var u := Set(s, st.task, Done);
      CheckedPersists(u, t.invoice, t.hash, st.receipt, st.head, HashDemand(t.invoice.row, t.required));
    }
  }

  lemma WalletStepPersists(s: State, st: Step)
    ensures Persists(s.db, WalletStep(s, st).db)
  {
    hide Sound, Grows, MetaKept, PaymentsSame, WalletPurchase, AddBalance, TryDeduct, AddRefEarning, SetReferrer;
    UnchangedPersists(s.db);
    if !st.PayWallet? {
      Kept(s.db, WalletStep(s, st).db);
    }
  }

  lemma NextPersists(s: State, st: Step)
    ensures Persists(s.db, Next(s, st).db)
  {
    hide Persists, InvoiceStep, DepositStep, WalletStep, StockStep;
    InvoiceStepPersists(s, st);
    DepositStepPersists(s, st);
    WalletStepPersists(s, st);
    StockStepPersists(s, st);
  }

  lemma StockStepPersists(s: State, st: Step)
    ensures Persists(s.db, StockStep(s, st).db)
  {
    hide Sound, Grows, MetaKept, PaymentsSame, CreateProduct, DeleteProduct, AddStock, ClearAvailable, DeliverDigital;
    UnchangedPersists(s.db);
    Kept(s.db, StockStep(s, st).db);
  }

  /** In every run, from any state to any later one: rows and their prices persist; a credit stays; a hash stays on its
      order, is lower case and names no other order; a sold item keeps its order and buyer and its order gets no
      other. */
  lemma {:induction false} SettledForever(states: seq<State>, steps: seq<Step>, j: nat, k: nat)
    requires IsRun(states, steps) && j <= k <= |steps|
    ensures Sound(states[j].db) && Sound(states[k].db)
    ensures Grows(states[j].db, states[k].db) && MetaKept(states[j].db, states[k].db)
    decreases k
  {
    hide Next, Sound, Grows, MetaKept;
    if k == 0 {
      EmptyIsSound();
      UnchangedPersists(EMPTY);
    } else {
      SettledForever(states, steps, if j == k then j - 1 else j, k - 1);
      StepTo(states, steps, k);
      NextPersists(states[k - 1], steps[k - 1]);
      if j == k {
        UnchangedPersists(states[k].db);
      } else {
        PersistsTransitive(states[j].db, states[k - 1].db, states[k].db);
      }
    }
  }

  lemma EmptyIsSound()
    ensures Sound(EMPTY)
  {
  }
}
