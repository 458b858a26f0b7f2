/** Every crypto settlement is backed by a deposit on the chain worth the invoice's base price. */
module Backing {
  import opened Prelude
  import opened Text
  import opened Tables
  import opened Chain
  import opened Watcher
  import opened Handlers
  import opened Protocol
  import opened Persistence
  import opened Settlement

  predicate SameTerms(p: Payment, q: Payment) {
    p.tgId == q.tgId && p.amount == q.amount && p.purpose == q.purpose && p.meta == q.meta
  }

  /** A row asks for money; only an invoice with a base price has an address, and the unique amount of a crypto
      invoice exceeds that price by at least 11 micro-units. */
  predicate RowOk(p: Payment) {
    && p.amount > 0
    && (p.payAddress != "" ==> PaymentUsd(p) > 0)
    && (p.payMethod == "crypto" ==> p.payAddress != "" && p.payAmount >= PaymentUsd(p) * CENT + 11)
  }

  ghost predicate RowsOk(d: Db) {
    forall o :: o in d.payments ==> RowOk(d.payments[o])
  }

  /** A row read earlier, whose changeable columns may since have been rewritten. */
  ghost predicate InvoiceOk(d: Db, v: Invoice) {
    v.order in d.payments && SameTerms(v.row, d.payments[v.order]) && RowOk(v.row)
  }

  ghost predicate SnapshotOk(d: Db, snapshot: seq<Invoice>) {
    forall v :: v in snapshot ==> InvoiceOk(d, v) && v.row.payMethod == "crypto"
  }

  ghost predicate TaskOk(d: Db, t: Task) {
    match t
    case ChoseAmount(order, wallet, amount) =>
      && order in d.payments && wallet != ""
      && PaymentUsd(d.payments[order]) > 0 && amount >= PaymentUsd(d.payments[order]) * CENT + 11
    case Scanning(snapshot) => SnapshotOk(d, snapshot)
    case Matching(snapshot, _, _, _) => SnapshotOk(d, snapshot)
    case CheckingMatch(snapshot, _, _, _, _, invoice) =>
      SnapshotOk(d, snapshot) && InvoiceOk(d, invoice) && invoice.row.payMethod == "crypto"
    case Submitted(invoice, _) => InvoiceOk(d, invoice)
    case CheckingHash(invoice, _, _) => InvoiceOk(d, invoice)
    case AskedWallet(invoice, user) => InvoiceOk(d, invoice) && invoice.row.tgId == user
    case _ => true
  }

  /** The demand is one of the two that the code derives from an invoice row. */
  predicate FromInvoice(demand: Demand, row: Payment) {
    demand == MatchDemand(row, demand.confirmations) || demand == HashDemand(row, demand.confirmations)
  }

  /** The evidence for a settlement: a receipt that met a demand of at least the base price less the tolerance. */
  ghost predicate BackedBy(row: Payment, proof: Proof) {
    && Lower(proof.hash) == row.txHash && ExtractTxHash(proof.hash) != ""
    && SameTerms(proof.seen, row) && FromInvoice(proof.demand, proof.seen)
    && Backs(proof.receipt, proof.head, proof.demand)
    && PaidTo(proof.receipt.logs, NormalizeAddress(proof.demand.address))
       >= (PaymentUsd(row) * CENT - TOLERANCE) * MICRO
    && PaymentUsd(row) > 0
  }

  ghost predicate EventOk(d: Db, e: Event) {
    e.Credited? ==>
      && e.order in d.payments && SameTerms(e.row, d.payments[e.order]) && d.payments[e.order].credited
      && (e.row.txHash != "" ==> d.payments[e.order].txHash == e.row.txHash)
      && (e.proof.Some? ==> BackedBy(e.row, e.proof.value))
  }

  ghost predicate TasksOk(d: Db, tasks: seq<Task>) {
    forall i :: 0 <= i < |tasks| ==> TaskOk(d, tasks[i])
  }

  ghost predicate LogOk(d: Db, log: seq<Event>) {
    forall i :: 0 <= i < |log| ==> EventOk(d, log[i])
  }

  ghost predicate Accounted(s: State) {
    Sound(s.db) && RowsOk(s.db) && TasksOk(s.db, s.tasks) && LogOk(s.db, s.log)
  }

  /** What operations in flight and the history rely on outlives every change of the tables. */
  lemma StaysOk(d: Db, e: Db, tasks: seq<Task>, log: seq<Event>)
    requires Sound(d) && Persists(d, e) && TasksOk(d, tasks) && LogOk(d, log)
    ensures TasksOk(e, tasks) && LogOk(e, log)
  {
    hide Sound, BackedBy, RowOk;
    forall i | 0 <= i < |tasks| ensures TaskOk(e, tasks[i]) {
      assert TaskOk(d, tasks[i]);
    }
    forall i | 0 <= i < |log| ensures EventOk(e, log[i]) {
      assert EventOk(d, log[i]);
    }
  }

  lemma UniqueAmountAboveBase(cents: int, used: set<int>, draws: seq<int>, fallback: int)
    requires (forall k :: 0 <= k < |draws| ==> 11 <= draws[k]) && 11 <= fallback
    ensures UniquePayAmount(cents, used, draws, fallback) >= cents * CENT + 11
  {
  }

  // --- delivery ---------------------------------------------------------------------------

  lemma DeliverAccounts(s: State, d: Db, order: string, row: Payment, proof: Option<Proof>)
    requires Accounted(s) && Persists(s.db, d) && RowsOk(d) && EventOk(d, Credited(order, row, false, proof))
    ensures Accounted(Deliver(s.(db := d), order, row, proof))
  {
    hide Sound, Grows, MetaKept, Persists, BackedBy, RowOk, TaskOk;
    var t := Deliver(s.(db := d), order, row, proof);
    assert Sound(d) by { SoundAfter(s.db, d); }
    StaysOk(s.db, d, s.tasks, s.log);
    var f := Fulfil(d, order, row).0;
    Kept(d, f);
    assert f.payments == d.payments;
    assert [Credited(order, row, false, proof)][0] == Credited(order, row, false, proof);
    OutcomeTaskOk(f, row.tgId, Fulfil(d, order, row).1);
    StaysOk(d, f, s.tasks, s.log);
    assert EventOk(f, Credited(order, row, false, proof));
  }

  lemma SoundAfter(d: Db, e: Db)
    requires Sound(d) && Persists(d, e)
    ensures Sound(e)
  {
  }

  lemma OutcomeTaskOk(d: Db, user: int, outcome: Outcome)
    ensures TaskOk(d, DeliveringPaid(user, outcome))
  {
  }

  /** A step that credits nothing keeps everything accounted for, if its rows and its one new task are in order. */
  lemma QuietAccounts(s: State, t: State)
    requires Accounted(s) && Persists(s.db, t.db) && RowsOk(t.db)
    requires |s.tasks| <= |t.tasks| <= |s.tasks| + 1
    requires forall i :: 0 <= i < |t.tasks| ==> (i < |s.tasks| && t.tasks[i] == s.tasks[i]) || TaskOk(t.db, t.tasks[i])
    requires |s.log| <= |t.log| && t.log[..|s.log|] == s.log
    requires forall i :: |s.log| <= i < |t.log| ==> !t.log[i].Credited?
    ensures Accounted(t)
  {
    hide Sound, BackedBy, RowOk, TaskOk, Grows, MetaKept;
    SoundAfter(s.db, t.db);
    StaysOk(s.db, t.db, s.tasks, s.log);
    forall i | 0 <= i < |t.log| ensures EventOk(t.db, t.log[i]) {
      if i < |s.log| {
        assert t.log[i] == s.log[i];
      }
    }
  }

  // --- invoices ----------------------------------------------------------------------------

  lemma InvoiceRowsOk(s: State, st: Step)
    requires Accounted(s) && !st.Callback?
    ensures RowsOk(InvoiceStep(s, st).db)
  {
    hide Sound, Grows, MetaKept, LogOk;
    if st.Store? && st.task < |s.tasks| {
      assert TaskOk(s.db, s.tasks[st.task]);
    }
  }

  lemma InvoiceTaskOk(s: State, st: Step, i: nat)
    requires Accounted(s) && !st.Callback? && i < |InvoiceStep(s, st).tasks|
    ensures |s.tasks| <= |InvoiceStep(s, st).tasks| <= |s.tasks| + 1
    ensures (i < |s.tasks| && InvoiceStep(s, st).tasks[i] == s.tasks[i])
            || TaskOk(InvoiceStep(s, st).db, InvoiceStep(s, st).tasks[i])
  {
    hide Sound, Grows, MetaKept, LogOk, RowsOk, TasksOk;
    if st.Choose? && TaskAt(s, st.task).AskedCrypto? && DrawsInRange(st.draws, st.fallback) {
      var order := TaskAt(s, st.task).order;
      if order in s.db.payments {
        UniqueAmountAboveBase(PaymentUsd(s.db.payments[order]), UsedAmounts(s.db), st.draws, st.fallback);
      }
    }
  }

  lemma CallbackIsOk(d: Db, paid: set<string>, order: string, status: string, invoice: string)
    requires RowsOk(d) && HashesSound(d)
    ensures var (e, row) := Handlers.Callback(d, paid, order, status, invoice);
            && Persists(d, e) && RowsOk(e)
            && (row.Some? ==> EventOk(e, Credited(order, row.value, false, None)))
  {
    hide Sound, Grows, MetaKept, BackedBy, FromInvoice;
  }

  lemma CallbackAccounts(s: State, hoosh: bool, order: string, status: string, invoice: string)
    requires Accounted(s)
    ensures Accounted(OnCallback(s, hoosh, order, status, invoice))
  {
    hide Persists, RowsOk, EventOk, TasksOk, Deliver, Handlers.Callback;
    var paid := if hoosh then HOOSHPAY_PAID else NOWPAYMENTS_PAID;
    var (d, row) := Handlers.Callback(s.db, paid, order, status, invoice);
    CallbackIsOk(s.db, paid, order, status, invoice);
    if row.Some? {
      DeliverAccounts(s, d, order, row.value, None);
    } else {
      assert TasksOk(d, s.tasks) by {
        StaysOk(s.db, d, s.tasks, s.log);
      }
      QuietAccounts(s, s.(db := d));
    }
  }

  lemma InvoiceStepAccounts(s: State, st: Step)
    requires Accounted(s)
    ensures Accounted(InvoiceStep(s, st))
  {
    hide Accounted, OnCallback, Persists, RowsOk, TaskOk;
    if st.Callback? {
      if st.signed {
        CallbackAccounts(s, st.hoosh, st.order, st.status, st.invoice);
      }
    } else {
      var t := InvoiceStep(s, st);
      InvoiceStepPersists(s, st);
      InvoiceRowsOk(s, st);
      forall i: nat | i < |t.tasks| ensures (i < |s.tasks| && t.tasks[i] == s.tasks[i]) || TaskOk(t.db, t.tasks[i]) {
        InvoiceTaskOk(s, st, i);
      }
      if |t.tasks| > 0 {
        InvoiceTaskOk(s, st, 0);
      }
      InvoiceLog(s, st);
      QuietAccounts(s, t);
    }
  }

  lemma InvoiceLog(s: State, st: Step)
    requires !st.Callback?
    ensures InvoiceStep(s, st).log == s.log && |s.tasks| <= |InvoiceStep(s, st).tasks|
  {
    hide Sound, Grows, MetaKept;
  }

  // --- deposits ---------------------------------------------------------------------------

  /** The receipt pays the invoice's address at least the base price less the tolerance. */
  ghost predicate PaysBase(row: Payment, receipt: Receipt, demand: Demand) {
    PaymentUsd(row) > 0
    && PaidTo(receipt.logs, NormalizeAddress(demand.address)) >= (PaymentUsd(row) * CENT - TOLERANCE) * MICRO
  }

  lemma MatchDemandPaysBase(row: Payment, required: int, receipt: Receipt, head: nat)
    requires RowOk(row) && row.payMethod == "crypto" && Backs(receipt, head, MatchDemand(row, required))
    ensures PaysBase(row, receipt, MatchDemand(row, required))
  {
    hide PaidTo, NormalizeAddress, ParseHex, Lower;
  }

  lemma HashDemandPaysBase(row: Payment, required: int, receipt: Receipt, head: nat)
    requires RowOk(row) && Backs(receipt, head, HashDemand(row, required))
    ensures PaysBase(row, receipt, HashDemand(row, required))
  {
    hide PaidTo, ParseHex;
    assert NormalizeAddress("") == "";
    if row.payAddress == "" {
      NothingPaidToNobody(receipt.logs);
    }
  }

  lemma CreditIsOk(d: Db, v: Invoice, hash: string, receipt: Receipt, head: nat, demand: Demand)
    requires RowsOk(d) && HashesSound(d) && InvoiceOk(d, v)
    requires ExtractTxHash(hash) != "" && Backs(receipt, head, demand)
    requires PaysBase(v.row, receipt, demand) && FromInvoice(demand, v.row)
    ensures var (e, row) := CreditCrypto(d, v.order, hash);
            && Persists(d, e) && RowsOk(e)
            && (row.Some? ==>
                  EventOk(e, Credited(v.order, row.value, false, Some(Proof(v.row, hash, receipt, head, demand)))))
  {
    hide StockSound, StockGrows, Backs, PaidTo, ExtractTxHash, NormalizeAddress;
  }

  lemma CheckedAccounts(s: State, v: Invoice, hash: string, receipt: Option<Receipt>, head: nat, demand: Demand)
    requires Accounted(s) && InvoiceOk(s.db, v) && FromInvoice(demand, v.row)
    requires receipt.Some? && Backs(receipt.value, head, demand) ==> PaysBase(v.row, receipt.value, demand)
    ensures Accounted(OnChecked(s, v, hash, receipt, head, demand))
  {
    hide Persists, RowsOk, EventOk, TasksOk, Deliver, CreditCrypto, Backs, ExtractTxHash, PaysBase, InvoiceOk;
    if ExtractTxHash(hash) != "" && receipt.Some? && Backs(receipt.value, head, demand) {
      var (d, row) := CreditCrypto(s.db, v.order, hash);
      CreditIsOk(s.db, v, hash, receipt.value, head, demand);
      if row.Some? {
        DeliverAccounts(s, d, v.order, row.value, Some(Proof(v.row, hash, receipt.value, head, demand)));
      } else {
        StaysOk(s.db, d, s.tasks, s.log);
        QuietAccounts(s, s.(db := d));
      }
    }
  }

  /** Replacing one task by one that is in order. */
  lemma SetAccounts(s: State, i: nat, t: Task)
    requires Accounted(s) && TaskOk(s.db, t)
    ensures Accounted(Set(s, i, t))
  {
    hide Sound, RowsOk, LogOk, TaskOk;
  }

  lemma SpawnAccounts(s: State, t: Task)
    requires Accounted(s) && TaskOk(s.db, t)
    ensures Accounted(Spawn(s, t))
  {
    hide Sound, RowsOk, LogOk, TaskOk;
  }

  lemma TickAccounts(s: State, now: int)
    requires Accounted(s)
    ensures Accounted(OnTick(s, now))
  {
    var d := ExpireStale(s.db, now);
    assert RowsOk(d) by {
      hide Sound, Grows, MetaKept, TasksOk, LogOk;
    }
    assert Accounted(s.(db := d)) by {
      hide Sound, Grows, MetaKept, TaskOk, RowsOk, EventOk;
      StaysOk(s.db, d, s.tasks, s.log);
    }
    assert TaskOk(d, Scanning(WaitingInvoices(d))) by {
      hide Sound, Grows, MetaKept, TasksOk, LogOk, RowOk;
    }
    hide Accounted;
    SpawnAccounts(s.(db := d), Scanning(WaitingInvoices(d)));
  }

  lemma TakeMatchOk(s: State, i: nat)
    requires Accounted(s) && i < |s.tasks| && s.tasks[i].Matching?
    ensures Accounted(OnTakeMatch(s, i, s.tasks[i]))
  {
    hide Sound, RowsOk, LogOk, EventOk, InvoiceOk, FindPayment, TxHashUsed, Accounted;
    var t := s.tasks[i];
    assert TaskOk(s.db, t) by { TaskIsOk(s, i); }
    if t.matches == [] {
      SetAccounts(s, i, Done);
    } else {
      FindPaymentFinds(t.snapshot, t.matches[0]);
      var found := FindPayment(t.snapshot, t.matches[0]);
      SetAccounts(s, i, Matching(t.snapshot, t.head, t.required, t.matches[1..]));
      if found.Some? {
        SetAccounts(s, i, CheckingMatch(t.snapshot, t.head, t.required, t.matches[1..], t.matches[0].txHash,
                                        found.value));
      }
    }
  }

  lemma TaskIsOk(s: State, i: nat)
    requires Accounted(s) && i < |s.tasks|
    ensures TaskOk(s.db, s.tasks[i])
  {
  }

  lemma NewInvoiceOk(s: State, order: string)
    requires Accounted(s) && order in s.db.payments
    ensures InvoiceOk(s.db, Invoice(order, s.db.payments[order]))
  {
  }

  lemma MatchCheckedAccounts(s: State, i: nat, receipt: Option<Receipt>, head: nat)
    requires Accounted(s)
    ensures Accounted(DepositStep(s, MatchChecked(i, receipt, head)))
  {
    hide Accounted, OnChecked, SnapshotOk, InvoiceOk, Backs, PaysBase;
    var t := TaskAt(s, i);
    if t.CheckingMatch? {
      TaskIsOk(s, i);
      var u := Set(s, i, Matching(t.snapshot, t.head, t.required, t.matches));
      SetAccounts(s, i, Matching(t.snapshot, t.head, t.required, t.matches));
      if receipt.Some? && Backs(receipt.value, head, MatchDemand(t.invoice.row, t.required)) {
        InvoiceRowOk(s.db, t.invoice);
        MatchDemandPaysBase(t.invoice.row, t.required, receipt.value, head);
      }
      CheckedAccounts(u, t.invoice, t.hash, receipt, head, MatchDemand(t.invoice.row, t.required));
    }
  }

  lemma HashCheckedAccounts(s: State, i: nat, receipt: Option<Receipt>, head: nat)
    requires Accounted(s)
    ensures Accounted(DepositStep(s, HashChecked(i, receipt, head)))
  {
    hide Accounted, OnChecked, SnapshotOk, InvoiceOk, Backs, PaysBase;
    var t := TaskAt(s, i);
    if t.CheckingHash? {
      TaskIsOk(s, i);
      SetAccounts(s, i, Done);
      if receipt.Some? && Backs(receipt.value, head, HashDemand(t.invoice.row, t.required)) {
        InvoiceRowOk(s.db, t.invoice);
        HashDemandPaysBase(t.invoice.row, t.required, receipt.value, head);
      }
      CheckedAccounts(Set(s, i, Done), t.invoice, t.hash, receipt, head, HashDemand(t.invoice.row, t.required));
    }
  }

  lemma DepositStepAccounts(s: State, st: Step)
    requires Accounted(s)
    ensures Accounted(DepositStep(s, st))
  {
    hide Accounted, OnTick, OnTakeMatch, OnChecked, SnapshotOk, InvoiceOk, ExtractTxHash, TxHashUsed, Backs, PaysBase;
    match st
    case Tick(now) => TickAccounts(s, now);
    case Scanned(i, head, required, matches) =>
      if TaskAt(s, i).Scanning? {
        TaskIsOk(s, i);
        var next := if head == 0 then Done else Matching(TaskAt(s, i).snapshot, head, AtLeastOne(required), matches);
        SetAccounts(s, i, next);
      }
    case TakeMatch(i) =>
      if TaskAt(s, i).Matching? {
        TakeMatchOk(s, i);
      }
    case MatchChecked(i, receipt, head) => MatchCheckedAccounts(s, i, receipt, head);
    case Submit(order, user, text) =>
      if order in s.db.payments {
        NewInvoiceOk(s, order);
        SpawnAccounts(s, Submitted(Invoice(order, s.db.payments[order]), ExtractTxHash(text)));
      }
    case CheckHash(i, required) =>
      if TaskAt(s, i).Submitted? {
        TaskIsOk(s, i);
        SetAccounts(s, i, Done);
        SetAccounts(s, i, CheckingHash(TaskAt(s, i).invoice, TaskAt(s, i).hash, AtLeastOne(required)));
      }
    case HashChecked(i, receipt, head) => HashCheckedAccounts(s, i, receipt, head);
    case _ =>
  }

  lemma InvoiceRowOk(d: Db, v: Invoice)
    requires InvoiceOk(d, v)
    ensures RowOk(v.row)
  {
  }

  // --- wallet and stock -------------------------------------------------------------------------

  /** A change of wallets or stock only. */
  lemma TablesAccount(s: State, d: Db)
    requires Accounted(s) && PaymentsSame(s.db, d) && Grows(s.db, d) && (Sound(s.db) ==> Sound(d))
    ensures Accounted(s.(db := d))
  {
    hide Sound, Grows, TaskOk, EventOk, Persists;
    Kept(s.db, d);
    StaysOk(s.db, d, s.tasks, s.log);
  }

  lemma EmitAccounts(s: State, e: Event)
    requires Accounted(s) && EventOk(s.db, e)
    ensures Accounted(Emit(s, e))
  {
    hide Sound, RowsOk, TasksOk, EventOk;
  }

  lemma WalletPurchaseOk(d: Db, v: Invoice, user: int, price: int)
    requires RowsOk(d) && HashesSound(d)
    ensures var (e, r) := WalletPurchase(d, v.order, v.row, user, price);
            && RowsOk(e) && (r.Paid? ==> EventOk(e, Credited(v.order, r.row, true, None)))
  {
    hide Sound, Grows, MetaKept, LowestAvailable, HeldBy, ClaimStock;
  }

  lemma PayWalletAccounts(s: State, i: nat, v: Invoice, user: int, price: int)
    requires Accounted(s)
    ensures Accounted(OnPayWallet(s, i, v, user, price))
  {
    hide RowsOk, EventOk, TasksOk, WalletPurchase, Grows, MetaKept;
    var (d, r) := WalletPurchase(s.db, v.order, v.row, user, price);
    WalletPurchaseOk(s.db, v, user, price);
    var t := s.(db := d);
    StaysOk(s.db, d, s.tasks, s.log);
    assert Accounted(t);
    hide Accounted;
    SetAccounts(t, i, Done);
    if r.Paid? {
      EmitAccounts(t, Credited(v.order, r.row, true, None));
      StartIsOk(d, v.order);
      EmitAccounts(Emit(t, Credited(v.order, r.row, true, None)), DeliveryStarted(v.order));
      SetAccounts(Emit(Emit(t, Credited(v.order, r.row, true, None)), DeliveryStarted(v.order)), i,
                  DeliveringBought(user, price, r.delivered));
    }
  }

  lemma StartIsOk(d: Db, order: string)
    ensures EventOk(d, DeliveryStarted(order))
  {
  }

  lemma RewardAccounts(s: State, buyer: int, reward: int)
    requires Accounted(s)
    ensures Accounted(OnReward(s, buyer, reward))
  {
    hide Accounted, Sound, Grows, Reward, PaymentsSame;
    TablesAccount(s, Reward(s.db, buyer, reward));
    var who := RewardedUser(s.db, buyer, reward);
    if who.Some? {
      EmitAccounts(s.(db := Reward(s.db, buyer, reward)), Rewarded(who.value, reward));
    }
  }

  lemma WalletStepAccounts(s: State, st: Step)
    requires Accounted(s)
    ensures Accounted(WalletStep(s, st))
  {
    hide Accounted, OnPayWallet, OnReward, Sound, Grows, PaymentsSame, AddBalance, TryDeduct, SetReferrer;
    match st
    case AskWallet(order, user) =>
      if Payable(s.db, order, user) {
        NewInvoiceOk(s, order);
        SpawnAccounts(s, AskedWallet(Invoice(order, s.db.payments[order]), user));
      }
    case PayWallet(i, price) =>
      if TaskAt(s, i).AskedWallet? {
        PayWalletAccounts(s, i, TaskAt(s, i).invoice, TaskAt(s, i).user, price);
      }
    case BoughtDelivered(i, reward) =>
      var t := TaskAt(s, i);
      if t.DeliveringBought? {
        SetAccounts(s, i, Done);
        EmitAccounts(Set(s, i, Done), Bought(t.user, t.price));
        RewardAccounts(Emit(Set(s, i, Done), Bought(t.user, t.price)), t.user, reward);
        TablesAccount(s, AddBalance(s.db, t.user, t.price));
        SetAccounts(s.(db := AddBalance(s.db, t.user, t.price)), i, Done);
      }
    case PaidDelivered(i, panelOk, reward) =>
      SetAccounts(s, i, Done);
      if TaskAt(s, i).DeliveringPaid? {
        RewardAccounts(Set(s, i, Done), TaskAt(s, i).user, reward);
      }
    case Renew(user, price, fromWallet) =>
      var d := TryDeduct(s.db, user, price).0;
      SpawnAccounts(s, Renewing(user, price, false));
      TablesAccount(s, d);
      SpawnAccounts(s.(db := d), Renewing(user, price, true));
    case Renewed(i, ok) =>
      var t := TaskAt(s, i);
      if t.Renewing? {
        SetAccounts(s, i, Done);
        EmitAccounts(Set(s, i, Done), Bought(t.user, t.price));
        TablesAccount(s, AddBalance(s.db, t.user, t.price));
        SetAccounts(s.(db := AddBalance(s.db, t.user, t.price)), i, Done);
      }
    case Adjust(user, amount) =>
      TablesAccount(s, AddBalance(s.db, user, amount));
      EmitAccounts(s.(db := AddBalance(s.db, user, amount)), Adjusted(user, amount));
    case Refer(user, referrer) => TablesAccount(s, SetReferrer(s.db, user, referrer));
    case _ =>
  }

  lemma StockStepAccounts(s: State, st: Step)
    requires Accounted(s)
    ensures Accounted(StockStep(s, st))
  {
    hide Accounted, Sound, Grows, PaymentsSame;
    if AboutStock(st) {
      TablesAccount(s, StockStep(s, st).db);
    }
  }

  lemma NextAccounts(s: State, st: Step)
    requires Accounted(s)
    ensures Accounted(Next(s, st))
  {
    hide Accounted, InvoiceStep, DepositStep, StockStep, WalletStep;
    InvoiceStepAccounts(s, st);
    DepositStepAccounts(s, st);
    StockStepAccounts(s, st);
    WalletStepAccounts(s, st);
  }

  lemma {:induction false} RunAccounts(states: seq<State>, steps: seq<Step>, k: nat)
    requires IsRun(states, steps) && k <= |steps|
    ensures Accounted(states[k])
  {
    hide Next;
    if k > 0 {
      RunAccounts(states, steps, k - 1);
      StepTo(states, steps, k);
      hide Accounted;
      NextAccounts(states[k - 1], steps[k - 1]);
    }
  }

  // --- the invoice that was checked ------------------------------------------------------------

  ghost function RowsOf(d: Db): set<Invoice> {
    set o | o in d.payments :: Invoice(o, d.payments[o])
  }

  /** Every version that any invoice had in these states. */
  ghost function RowsSeen(states: seq<State>): set<Invoice> {
    if states == [] then {} else RowsSeen(states[..|states| - 1]) + RowsOf(states[|states| - 1].db)
  }

  lemma {:induction false} SeenWasThere(states: seq<State>, v: Invoice)
    requires v in RowsSeen(states)
    ensures exists j :: 0 <= j < |states| && v in RowsOf(states[j].db)
  {
    var n := |states| - 1;
    if v !in RowsOf(states[n].db) {
      SeenWasThere(states[..n], v);
      var j :| 0 <= j < n && v in RowsOf(states[..n][j].db);
      assert states[..n][j] == states[j];
    }
  }

  ghost predicate TaskFrom(known: set<Invoice>, t: Task) {
    match t
    case Scanning(snapshot) => forall v :: v in snapshot ==> v in known
    case Matching(snapshot, _, _, _) => forall v :: v in snapshot ==> v in known
    case CheckingMatch(snapshot, _, _, _, _, invoice) => invoice in known && forall v :: v in snapshot ==> v in known
    case Submitted(invoice, _) => invoice in known
    case CheckingHash(invoice, _, _) => invoice in known
    case _ => true
  }

  ghost predicate From(known: set<Invoice>, s: State) {
    && (forall i :: 0 <= i < |s.tasks| ==> TaskFrom(known, s.tasks[i]))
    && (forall i :: 0 <= i < |s.log| && s.log[i].Credited? && s.log[i].proof.Some? ==>
          Invoice(s.log[i].order, s.log[i].proof.value.seen) in known)
  }

  lemma SetFrom(known: set<Invoice>, s: State, i: nat, t: Task)
    requires From(known, s) && TaskFrom(known, t)
    ensures From(known, Set(s, i, t)) && From(known, Spawn(s, t))
  {
    hide TaskFrom;
  }

  lemma EmitFrom(known: set<Invoice>, s: State, e: Event)
    requires From(known, s) && (e.Credited? && e.proof.Some? ==> Invoice(e.order, e.proof.value.seen) in known)
    ensures From(known, Emit(s, e))
  {
    hide TaskFrom;
  }

  lemma DeliverFrom(known: set<Invoice>, s: State, order: string, row: Payment, proof: Option<Proof>)
    requires From(known, s) && (proof.Some? ==> Invoice(order, proof.value.seen) in known)
    ensures From(known, Deliver(s, order, row, proof))
  {
    hide From, Sound, Grows, PaymentsSame, Fulfil;
    var (d, outcome) := Fulfil(s.db, order, row);
    DbFrom(known, s, d);
    EmitFrom(known, s.(db := d), Credited(order, row, false, proof));
    EmitFrom(known, Emit(s.(db := d), Credited(order, row, false, proof)), DeliveryStarted(order));
    SetFrom(known, Emit(Emit(s.(db := d), Credited(order, row, false, proof)), DeliveryStarted(order)), 0,
            DeliveringPaid(row.tgId, outcome));
  }

  lemma DbFrom(known: set<Invoice>, s: State, d: Db)
    requires From(known, s)
    ensures From(known, s.(db := d))
  {
  }

  lemma CheckedFrom(known: set<Invoice>, s: State, v: Invoice, hash: string,
                    receipt: Option<Receipt>, head: nat, demand: Demand)
    requires From(known, s) && v in known
    ensures From(known, OnChecked(s, v, hash, receipt, head, demand))
  {
    hide From, Deliver, CreditCrypto, Backs, ExtractTxHash, Sound, Grows, MetaKept;
    var (d, row) := CreditCrypto(s.db, v.order, hash);
    DbFrom(known, s, d);
    if row.Some? && receipt.Some? {
      DeliverFrom(known, s.(db := d), v.order, row.value, Some(Proof(v.row, hash, receipt.value, head, demand)));
    }
  }

  lemma InvoiceStepFrom(known: set<Invoice>, s: State, st: Step)
    requires From(known, s)
    ensures From(known, InvoiceStep(s, st))
  {
    hide Sound, Grows, MetaKept, Deliver;
    if st.Callback? && st.signed {
      var paid := if st.hoosh then HOOSHPAY_PAID else NOWPAYMENTS_PAID;
      var (d, row) := Handlers.Callback(s.db, paid, st.order, st.status, st.invoice);
      if row.Some? {
        DeliverFrom(known, s.(db := d), st.order, row.value, None);
      }
    }
  }

  lemma TaskIsFrom(known: set<Invoice>, s: State, i: nat)
    requires From(known, s)
    ensures TaskFrom(known, TaskAt(s, i))
  {
    hide TaskFrom;
    assert TaskFrom(known, Done) by { DoneIsFrom(known); }
  }

  lemma DoneIsFrom(known: set<Invoice>)
    ensures TaskFrom(known, Done)
  {
  }

  lemma TickFrom(known: set<Invoice>, s: State, now: int)
    requires From(known, s)
    ensures From(known + RowsOf(OnTick(s, now).db), OnTick(s, now))
  {
    hide From, ExpireStale;
    var d := ExpireStale(s.db, now);
    var more, waiting := known + RowsOf(d), WaitingInvoices(d);
    MoreFrom(known, more, s);
    DbFrom(more, s, d);
    if waiting != [] {
      assert forall v :: v in waiting ==> v in RowsOf(d);
      SetFrom(more, s.(db := d), 0, Scanning(waiting));
    }
  }

  lemma TakeMatchFrom(known: set<Invoice>, s: State, i: nat)
    requires From(known, s) && TaskAt(s, i).Matching?
    ensures From(known, OnTakeMatch(s, i, TaskAt(s, i)))
  {
    hide From, FindPayment, TxHashUsed;
    TaskIsFrom(known, s, i);
    var t := TaskAt(s, i);
    SetFrom(known, s, i, Done);
    if t.matches != [] {
      var found := FindPayment(t.snapshot, t.matches[0]);
      FindPaymentFinds(t.snapshot, t.matches[0]);
      SetFrom(known, s, i, Matching(t.snapshot, t.head, t.required, t.matches[1..]));
      if found.Some? {
        SetFrom(known, s, i, CheckingMatch(t.snapshot, t.head, t.required, t.matches[1..], t.matches[0].txHash,
                                           found.value));
      }
    }
  }

  lemma DepositStepFrom(known: set<Invoice>, s: State, st: Step)
    requires From(known, s) && RowsOf(s.db) <= known
    ensures From(known + RowsOf(DepositStep(s, st).db), DepositStep(s, st))
  {
    hide From, OnChecked, OnTick, OnTakeMatch, TxHashUsed, ExtractTxHash;
    var e := DepositStep(s, st);
    match st {
      case Tick(now) => TickFrom(known, s, now);
      case Scanned(i, head, required, matches) =>
        TaskIsFrom(known, s, i);
        if TaskAt(s, i).Scanning? {
          SetFrom(known, s, i, Done);
          SetFrom(known, s, i, Matching(TaskAt(s, i).snapshot, head, AtLeastOne(required), matches));
        }
      case TakeMatch(i) =>
        if TaskAt(s, i).Matching? {
          TakeMatchFrom(known, s, i);
        }
      case MatchChecked(i, receipt, head) =>
        TaskIsFrom(known, s, i);
        var t := TaskAt(s, i);
        if t.CheckingMatch? {
          var next := Matching(t.snapshot, t.head, t.required, t.matches);
          SetFrom(known, s, i, next);
          CheckedFrom(known, Set(s, i, next), t.invoice, t.hash, receipt, head, MatchDemand(t.invoice.row, t.required));
        }
      case Submit(order, user, text) =>
        if order in s.db.payments {
          SetFrom(known, s, 0, Submitted(Invoice(order, s.db.payments[order]), ExtractTxHash(text)));
        }
      case CheckHash(i, required) =>
        TaskIsFrom(known, s, i);
        if TaskAt(s, i).Submitted? {
          SetFrom(known, s, i, Done);
          SetFrom(known, s, i, CheckingHash(TaskAt(s, i).invoice, TaskAt(s, i).hash, AtLeastOne(required)));
        }
      case HashChecked(i, receipt, head) =>
        TaskIsFrom(known, s, i);
        var t := TaskAt(s, i);
        if t.CheckingHash? {
          SetFrom(known, s, i, Done);
          CheckedFrom(known, Set(s, i, Done), t.invoice, t.hash, receipt, head, HashDemand(t.invoice.row, t.required));
        }
      case _ =>
    }
    if !st.Tick? {
      MoreFrom(known, known + RowsOf(e.db), e);
    }
  }

  lemma PayWalletFrom(known: set<Invoice>, s: State, i: nat, v: Invoice, user: int, price: int)
    requires From(known, s)
    ensures From(known, OnPayWallet(s, i, v, user, price))
  {
    hide WalletPurchase;
  }

  lemma WalletStepFrom(known: set<Invoice>, s: State, st: Step)
    requires From(known, s)
    ensures From(known, WalletStep(s, st))
  {
    hide OnPayWallet, AddBalance, TryDeduct, SetReferrer, Reward, RewardedUser;
    if st.PayWallet? && TaskAt(s, st.task).AskedWallet? {
      PayWalletFrom(known, s, st.task, TaskAt(s, st.task).invoice, TaskAt(s, st.task).user, st.price);
    }
  }

  lemma NextFrom(known: set<Invoice>, s: State, st: Step)
    requires From(known, s) && RowsOf(s.db) <= known
    ensures From(known + RowsOf(Next(s, st).db), Next(s, st))
  {
    hide From, InvoiceStep, DepositStep, WalletStep;
    var e := Next(s, st);
    InvoiceStepFrom(known, s, st);
    DepositStepFrom(known, s, st);
    WalletStepFrom(known, s, st);
    if AboutStock(st) {
      DbFrom(known, s, StockStep(s, st).db);
    }
    MoreFrom(known, known + RowsOf(e.db), e);
  }

  lemma {:induction false} RunFrom(states: seq<State>, steps: seq<Step>, k: nat)
    requires IsRun(states, steps) && k <= |steps|
    ensures From(RowsSeen(states[..k + 1]), states[k])
  {
    hide Next, RowsOf;
    if k > 0 {
      RunFrom(states, steps, k - 1);
      StepTo(states, steps, k);
      assert states[..k + 1][..k] == states[..k];
      assert states[..k][..k - 1] == states[..k - 1];
      hide From;
      NextFrom(RowsSeen(states[..k]), states[k - 1], steps[k - 1]);
    }
  }

  lemma MoreFrom(known: set<Invoice>, more: set<Invoice>, s: State)
    requires known <= more
    ensures From(known, s) ==> From(more, s)
  {
  }

  lemma EmptyHasNoHash()
    ensures ExtractTxHash("") == ""
  {
  }

  /** In every state of every run, take any deposit that settled an invoice. It was checked against a version that the
      invoice had in this or an earlier state, and it was a successful transaction in a non-zero block with at least the
      required confirmations, not before that version's start block if known, whose official USDT transfers to that
      version's address were worth at least the base price of the invoice as it stands now, less 0.0005 USDT. This holds
      however often the invoice was prepared again meanwhile. The hash it settled with is still on that order. */
  lemma SettlementsAreBacked(states: seq<State>, steps: seq<Step>, k: nat, i: nat)
    requires IsRun(states, steps) && k <= |steps|
    requires i < |states[k].log| && states[k].log[i].Credited? && states[k].log[i].proof.Some?
    ensures var e := states[k].log[i];
            && IsCredited(states[k].db, e.order)
            && var p, now := e.proof.value, states[k].db.payments[e.order];
            && (exists j :: 0 <= j <= k && Invoice(e.order, p.seen) in RowsOf(states[j].db))
            && FromInvoice(p.demand, p.seen)
            && Backs(p.receipt, p.head, p.demand)
            && PaidTo(p.receipt.logs, NormalizeAddress(p.demand.address))
               >= (PaymentUsd(now) * CENT - TOLERANCE) * MICRO
            && PaymentUsd(now) > 0
            && now.txHash == Lower(p.hash) && now.txHash != ""
  {
    EmptyHasNoHash();
    hide Backs, PaidTo, ExtractTxHash, NormalizeAddress, Next, RowsOf;
    RunAccounts(states, steps, k);
    RunFrom(states, steps, k);
    var e := states[k].log[i];
    assert EventOk(states[k].db, e);
    SeenWasThere(states[..k + 1], Invoice(e.order, e.proof.value.seen));
    var j :| 0 <= j < k + 1 && Invoice(e.order, e.proof.value.seen) in RowsOf(states[..k + 1][j].db);
    assert states[..k + 1][j] == states[j];
  }

  lemma OneCreditPerOrder(s: State, i: nat, j: nat)
    requires CreditsAgree(s) && i < j < |s.log| && s.log[i].Credited? && s.log[j].Credited?
    ensures s.log[i].order != s.log[j].order
  {
    assert Credits(s, s.log[i].order) <= 1;
    if s.log[i].order == s.log[j].order {
      TotalOfTwo(s.log, i, j, CreditOf(s.log[i].order));
    }
  }

  lemma OneOrderPerHash(d: Db, e: Event, f: Event)
    requires HashesSound(d) && e.Credited? && f.Credited? && EventOk(d, e) && EventOk(d, f)
    requires e.row.txHash == f.row.txHash != ""
    ensures e.order == f.order
  {
    hide BackedBy;
  }

  /** Any two credits in a run, by whatever paths, are for different orders and write different hashes; so the same
      match twice in one tick, or the same hash sent twice, settles nothing a second time. `Transactions` says when
      different hashes name different transactions. */
  lemma CreditsAreDistinct(states: seq<State>, steps: seq<Step>, k: nat, i: nat, j: nat)
    requires IsRun(states, steps) && k <= |steps|
    requires i < j < |states[k].log| && states[k].log[i].Credited? && states[k].log[j].Credited?
    ensures var log := states[k].log;
            log[i].order != log[j].order && (log[i].row.txHash == log[j].row.txHash ==> log[i].row.txHash == "")
  {
    hide EventOk, CreditsAgree, TasksOk, RowsOk, StockSound, HashesSound, Next;
    var s := states[k];
    RunAgrees(states, steps, k);
    RunAccounts(states, steps, k);
    OneCreditPerOrder(s, i, j);
    if s.log[i].row.txHash == s.log[j].row.txHash != "" {
      OneOrderPerHash(s.db, s.log[i], s.log[j]);
    }
  }
}
