/** When the amounts of waiting crypto invoices stay pairwise different. */
module UniqueAmounts {
  import opened Prelude
  import opened Tables
  import opened Chain
  import opened Watcher
  import opened Handlers
  import opened Protocol

  ghost predicate Distinct(d: Db) {
    forall o, p | o in d.payments && p in d.payments && o != p ::
      WaitingCrypto(d.payments[o]) && WaitingCrypto(d.payments[p]) ==>
          d.payments[o].payAmount != d.payments[p].payAmount
  }

  /** Another waiting invoice already asks for this amount. */
  predicate TakenByOther(d: Db, order: string, amount: int) {
    exists p :: p in d.payments && p != order && WaitingCrypto(d.payments[p]) && d.payments[p].payAmount == amount
  }

  // --- choosing -----------------------------------------------------------------------

  /** The search loop of `_unique_pay_amount`. */
  method ChooseAmount(cents: int, used: set<int>, draws: seq<int>, fallback: int) returns (amount: int)
    ensures amount == UniquePayAmount(cents, used, draws, fallback)
  {
    for k := 0 to |draws|
      invariant UniquePayAmount(cents, used, draws, fallback) == UniquePayAmount(cents, used, draws[k..], fallback)
    {
      var candidate := cents * CENT + draws[k];
      if candidate !in used {
        return candidate;
      }
      assert draws[k..][1..] == draws[k + 1..];
    }
    amount := cents * CENT + fallback;
  }

  predicate SomeDrawFree(cents: int, used: set<int>, draws: seq<int>) {
    exists k :: 0 <= k < |draws| && cents * CENT + draws[k] !in used
  }

  /** If any draw is free the amount is unused, and dividing it by a cent gives back the price and the offset;
      otherwise it is the fallback, which nobody checks against the used amounts. */
  lemma {:induction false} ChosenAmount(cents: int, used: set<int>, draws: seq<int>, fallback: int)
    requires forall k :: 0 <= k < |draws| ==> 11 <= draws[k] <= 999
    ensures var a := UniquePayAmount(cents, used, draws, fallback);
            if SomeDrawFree(cents, used, draws)
            then a !in used && a / CENT == cents && a % CENT in draws && 11 <= a % CENT <= 999
            else a == cents * CENT + fallback
  {
    if draws != [] {
      if cents * CENT + draws[0] !in used {
        assert draws[0] in draws;
      } else {
        ChosenAmount(cents, used, draws[1..], fallback);
        assert forall k :: 0 < k < |draws| ==> draws[k] == draws[1..][k - 1];
        if SomeDrawFree(cents, used, draws[1..]) {
          var k :| 0 <= k < |draws[1..]| && cents * CENT + draws[1..][k] !in used;
          assert draws[k + 1] == draws[1..][k];
        }
      }
    }
  }

  // --- which steps break distinctness ---------------------------------------------------

  /** A status write that turns an expired, cancelled or failed crypto invoice back into a waiting one. */
  predicate Revives(d: Db, order: string, status: string) {
    order in d.payments && status == "waiting" && !WaitingCrypto(d.payments[order])
    && d.payments[order].payMethod == "crypto" && !d.payments[order].credited
  }

  /** The step makes an invoice wait for an amount that another one already waits for: a stored amount that was
      taken meanwhile, or the revival of an invoice whose amount was given away. */
  predicate Clashes(s: State, st: Step) {
    match st
    case Store(i, _, _) =>
      (match TaskAt(s, i)
       case ChoseAmount(order, _, amount) =>
         order in s.db.payments && !s.db.payments[order].credited && TakenByOther(s.db, order, amount)
       case _ => false)
    case Callback(signed, _, order, status, _) =>
      signed && Revives(s.db, order, status) && TakenByOther(s.db, order, s.db.payments[order].payAmount)
    case InvoiceCreated(i, ok, _) =>
      (match TaskAt(s, i)
       case CreatingInvoice(order) =>
         ok && Revives(s.db, order, "waiting") && TakenByOther(s.db, order, s.db.payments[order].payAmount)
       case _ => false)
    case _ => false
  }

  /** One row changed. */
  lemma RowChange(d: Db, e: Db, order: string)
    requires Distinct(d) && order in e.payments && (forall p :: p in e.payments && p != order ==> p in d.payments)
    requires forall p :: p in d.payments && p != order ==> p in e.payments
    requires forall p :: p in d.payments && p != order ==>
               && e.payments[p].payAmount == d.payments[p].payAmount
               && (WaitingCrypto(e.payments[p]) <==> WaitingCrypto(d.payments[p]))
    ensures Distinct(e) <==> !(WaitingCrypto(e.payments[order]) && TakenByOther(d, order, e.payments[order].payAmount))
  {
  }

  /** Rows only leave the waiting list. */
  lemma Fewer(d: Db, e: Db)
    requires Distinct(d)
    requires forall p :: p in e.payments && WaitingCrypto(e.payments[p]) ==>
               p in d.payments && WaitingCrypto(d.payments[p]) && e.payments[p].payAmount == d.payments[p].payAmount
    ensures Distinct(e)
  {
  }

  lemma CallbackDistinct(d: Db, paid: set<string>, order: string, status: string, invoice: string)
    requires Distinct(d) && "waiting" !in paid
    ensures Distinct(Handlers.Callback(d, paid, order, status, invoice).0)
            <==> !(Revives(d, order, status) && TakenByOther(d, order, d.payments[order].payAmount))
  {
    hide Sound, Grows, MetaKept, Distinct, TakenByOther;
    var e := Handlers.Callback(d, paid, order, status, invoice).0;
    if order in d.payments {
      if Revives(d, order, status) {
        RowChange(d, e, order);
      } else {
        Fewer(d, e);
      }
    }
  }

  lemma CallbackStepDistinct(s: State, hoosh: bool, order: string, status: string, invoice: string)
    requires Distinct(s.db)
    ensures Distinct(OnCallback(s, hoosh, order, status, invoice).db)
            <==> !(Revives(s.db, order, status) && TakenByOther(s.db, order, s.db.payments[order].payAmount))
  {
    hide Sound, Grows, MetaKept, Distinct, TakenByOther, Revives, Handlers.Callback, Deliver;
    var paid := if hoosh then HOOSHPAY_PAID else NOWPAYMENTS_PAID;
    var (d, row) := Handlers.Callback(s.db, paid, order, status, invoice);
    CallbackDistinct(s.db, paid, order, status, invoice);
    if row.Some? {
      DeliveryKeepsPayments(s.(db := d), order, row.value, None);
      SamePayments(d, OnCallback(s, hoosh, order, status, invoice).db);
    }
  }

  lemma StatusDistinct(d: Db, order: string, status: string, invoice: Option<string>)
    requires Distinct(d)
    ensures Distinct(SetStatus(d, order, status, invoice))
            <==> !(Revives(d, order, status) && TakenByOther(d, order, d.payments[order].payAmount))
  {
    hide Sound, Grows, MetaKept, Distinct, TakenByOther;
    if Revives(d, order, status) {
      RowChange(d, SetStatus(d, order, status, invoice), order);
    } else {
      Fewer(d, SetStatus(d, order, status, invoice));
    }
  }

  lemma StoreDistinct(d: Db, order: string, wallet: string, amount: int, head: nat, until: int)
    requires Distinct(d)
    ensures Distinct(UpdatePayment(d, order, CryptoPatch(wallet, amount, head, until)))
            <==> !(order in d.payments && !d.payments[order].credited && TakenByOther(d, order, amount))
  {
    hide Sound, Grows, MetaKept, Distinct, TakenByOther;
    if order in d.payments {
      RowChange(d, UpdatePayment(d, order, CryptoPatch(wallet, amount, head, until)), order);
    }
  }

  lemma GatewayDistinct(d: Db, order: string, hoosh: bool, ok: bool, invoice: string, payable: int)
    requires Distinct(d)
    ensures Distinct(UpdatePayment(d, order, GatewayPatch(hoosh, ok, invoice, payable)))
  {
    hide Sound, Grows, MetaKept, Distinct;
    Fewer(d, UpdatePayment(d, order, GatewayPatch(hoosh, ok, invoice, payable)));
  }

  lemma CreateDistinct(d: Db, order: string, row: Payment)
    requires Distinct(d) && row.payMethod != "crypto"
    ensures Distinct(CreatePayment(d, order, row))
  {
    hide Sound, Grows, MetaKept, Distinct;
    Fewer(d, CreatePayment(d, order, row));
  }

  /** The three steps that can clash. */
  lemma ClashingStepDistinct(s: State, st: Step)
    requires Distinct(s.db) && (st.Callback? || st.InvoiceCreated? || st.Store?)
    ensures Distinct(InvoiceStep(s, st).db) <==> !Clashes(s, st)
  {
    hide Distinct, TakenByOther, Revives, OnCallback, SetStatus, UpdatePayment;
    if st.Callback? {
      CallbackStepDistinct(s, st.hoosh, st.order, st.status, st.invoice);
    } else if st.Store? {
      var t := TaskAt(s, st.task);
      if t.ChoseAmount? {
        StoreDistinct(s.db, t.order, t.wallet, t.amount, st.head, st.expiresAt);
      }
    } else {
      var t := TaskAt(s, st.task);
      if t.CreatingInvoice? {
        StatusDistinct(s.db, t.order, "waiting", Some(st.invoice));
        StatusDistinct(s.db, t.order, "failed", None);
        NoRevival(s.db, t.order, "failed");
      }
    }
  }

  lemma InvoiceStepDistinct(s: State, st: Step)
    requires Distinct(s.db)
    ensures Distinct(InvoiceStep(s, st).db) <==> !Clashes(s, st)
  {
    hide Distinct, TakenByOther, Revives, OnCallback, SetStatus, UpdatePayment, OnChoose, CreatePayment;
    match st
    case Create(order, user, amount, purpose, meta, viaGateway) =>
      CreateDistinct(s.db, order,
        Payment(user, amount, purpose, meta, if viaGateway then "nowpayments" else "", "", 0, 0, 0, "", "", false, ""));
    case Callback(_, _, _, _, _) => ClashingStepDistinct(s, st);
    case InvoiceCreated(_, _, _) => ClashingStepDistinct(s, st);
    case Store(_, _, _) => ClashingStepDistinct(s, st);
    case Cancel(order, user) =>
      StatusDistinct(s.db, order, "cancelled", None);
      NoRevival(s.db, order, "cancelled");
    case Choose(i, wallet, draws, fallback) => ChoiceKeepsTables(s, i, wallet, draws, fallback);
    case GatewayReplied(i, ok, invoice, payable) =>
      if TaskAt(s, i).AskedGateway? {
        GatewayDistinct(s.db, TaskAt(s, i).order, TaskAt(s, i).hoosh, ok, invoice, payable);
      }
    case _ =>
  }

  lemma NoRevival(d: Db, order: string, status: string)
    requires status != "waiting"
    ensures !Revives(d, order, status)
  {
  }

  lemma ChoiceKeepsTables(s: State, i: nat, wallet: string, draws: seq<int>, fallback: int)
    ensures InvoiceStep(s, Choose(i, wallet, draws, fallback)).db == s.db
  {
    hide UniquePayAmount, UsedAmounts, DrawsInRange, IsAddress;
  }

  lemma SamePayments(d: Db, e: Db)
    requires d.payments == e.payments
    ensures Distinct(d) <==> Distinct(e)
  {
  }

  lemma CheckedDistinct(s: State, invoice: Invoice, hash: string, receipt: Option<Receipt>, head: nat, demand: Demand)
    requires Distinct(s.db)
    ensures Distinct(OnChecked(s, invoice, hash, receipt, head, demand).db)
  {
    hide Sound, Grows, MetaKept, Distinct, Deliver, Backs, ExtractTxHash;
    var (d, row) := CreditCrypto(s.db, invoice.order, hash);
    Fewer(s.db, d);
    if row.Some? && ExtractTxHash(hash) != "" && receipt.Some? && Backs(receipt.value, head, demand) {
      DeliveryKeepsPayments(s.(db := d), invoice.order, row.value,
                            Some(Proof(invoice.row, hash, receipt.value, head, demand)));
      SamePayments(d, OnChecked(s, invoice, hash, receipt, head, demand).db);
    }
  }

  lemma TickDistinct(s: State, now: int)
    requires Distinct(s.db)
    ensures Distinct(OnTick(s, now).db)
  {
    hide Sound, Grows, MetaKept, Distinct, WaitingInvoices;
    Fewer(s.db, OnTick(s, now).db);
  }

  lemma TakeMatchKeepsTables(s: State, i: nat)
    requires TaskAt(s, i).Matching?
    ensures OnTakeMatch(s, i, TaskAt(s, i)).db == s.db
  {
    hide FindPayment, TxHashUsed;
  }

  lemma DepositStepDistinct(s: State, st: Step)
    requires Distinct(s.db)
    ensures Distinct(DepositStep(s, st).db)
  {
    hide Sound, Grows, MetaKept, PaymentsSame, Distinct, OnChecked, OnTick, OnTakeMatch, ExtractTxHash, TxHashUsed;
    match st
    case Tick(now) => TickDistinct(s, now);
    case TakeMatch(i) =>
      if TaskAt(s, i).Matching? {
        TakeMatchKeepsTables(s, i);
      }
    case MatchChecked(i, receipt, head) =>
      match TaskAt(s, i) {
        case CheckingMatch(snapshot, h, required, matches, hash, invoice) =>
          var t := Set(s, i, Matching(snapshot, h, required, matches));
          CheckedDistinct(t, invoice, hash, receipt, head, MatchDemand(invoice.row, required));
        case _ =>
      }
    case HashChecked(i, receipt, head) =>
      match TaskAt(s, i) {
        case CheckingHash(invoice, hash, required) =>
          CheckedDistinct(Set(s, i, Done), invoice, hash, receipt, head, HashDemand(invoice.row, required));
        case _ =>
      }
    case _ => assert DepositStep(s, st).db == s.db;
  }

  lemma PurchaseDistinct(d: Db, order: string, row: Payment, user: int, price: int)
    requires Distinct(d)
    ensures Distinct(WalletPurchase(d, order, row, user, price).0)
  {
    hide Sound, Grows, MetaKept, Distinct, DeliverDigital, CanBuy;
    Fewer(d, WalletPurchase(d, order, row, user, price).0);
  }

  lemma WalletStepKeepsPayments(s: State, st: Step)
    requires !st.PayWallet?
    ensures WalletStep(s, st).db.payments == s.db.payments
  {
    hide Sound, Grows, MetaKept;
  }

  lemma WalletStepDistinct(s: State, st: Step)
    requires Distinct(s.db)
    ensures Distinct(WalletStep(s, st).db)
  {
    hide Sound, Grows, MetaKept, Distinct, WalletPurchase;
    if st.PayWallet? {
      var t := TaskAt(s, st.task);
      if t.AskedWallet? {
        PurchaseDistinct(s.db, t.invoice.order, t.invoice.row, t.user, st.price);
      }
    } else {
      WalletStepKeepsPayments(s, st);
      SamePayments(s.db, WalletStep(s, st).db);
    }
  }

  lemma StockStepDistinct(s: State, st: Step)
    requires Distinct(s.db)
    ensures Distinct(StockStep(s, st).db)
  {
    hide Sound, Grows, MetaKept, Distinct, CreateProduct, DeleteProduct, AddStock, ClearAvailable, DeliverDigital;
    SamePayments(s.db, StockStep(s, st).db);
  }

  /** Of all steps, exactly the clashing ones break distinctness. */
  lemma StepKeepsDistinctIff(s: State, st: Step)
    requires Distinct(s.db)
    ensures Distinct(Next(s, st).db) <==> !Clashes(s, st)
  {
    hide Distinct, InvoiceStep, DepositStep, WalletStep, StockStep, TakenByOther;
    InvoiceStepDistinct(s, st);
    DepositStepDistinct(s, st);
    WalletStepDistinct(s, st);
    StockStepDistinct(s, st);
  }

  // --- distinctness fails as the code stands ----------------------------------------------

  /** Two preparations of equally priced invoices that both choose before either stores can end on one amount. */
  lemma InterleavedPreparationsCollide(s: State, i: nat, j: nat, wallet: string, draws: seq<int>, fallback: int,
                                       head: nat, until: int)
    requires i != j && TaskAt(s, i).AskedCrypto? && TaskAt(s, j).AskedCrypto?
    requires var o, p := s.tasks[i].order, s.tasks[j].order;
             && o != p && o in s.db.payments && p in s.db.payments
             && !s.db.payments[o].credited && !s.db.payments[p].credited
             && PaymentUsd(s.db.payments[o]) == PaymentUsd(s.db.payments[p]) > 0
    requires IsAddress(wallet) && DrawsInRange(draws, fallback)
    ensures var t := Next(Next(s, Choose(i, wallet, draws, fallback)), Choose(j, wallet, draws, fallback));
            !Distinct(Next(Next(t, Store(i, head, until)), Store(j, head, until)).db)
  {
    hide IsAddress, DrawsInRange, UniquePayAmount, UsedAmounts, Next, PaymentUsd, WaitingCrypto;
    var o, p := s.tasks[i].order, s.tasks[j].order;
    var amount := UniquePayAmount(PaymentUsd(s.db.payments[o]), UsedAmounts(s.db), draws, fallback);
    ChoiceIsHeld(s, i, wallet, draws, fallback);
    var once := Next(s, Choose(i, wallet, draws, fallback));
    ChoiceIsHeld(once, j, wallet, draws, fallback);
    var t := Next(once, Choose(j, wallet, draws, fallback));
    StoreWaits(t, i, o, wallet, amount, head, until);
    StoreWaits(Next(t, Store(i, head, until)), j, p, wallet, amount, head, until);
  }

  lemma ChoiceIsHeld(s: State, i: nat, wallet: string, draws: seq<int>, fallback: int)
    requires TaskAt(s, i).AskedCrypto? && IsAddress(wallet) && DrawsInRange(draws, fallback)
    requires s.tasks[i].order in s.db.payments && PaymentUsd(s.db.payments[s.tasks[i].order]) > 0
    ensures var o := s.tasks[i].order;
            var amount := UniquePayAmount(PaymentUsd(s.db.payments[o]), UsedAmounts(s.db), draws, fallback);
            Next(s, Choose(i, wallet, draws, fallback)) == s.(tasks := s.tasks[i := ChoseAmount(o, wallet, amount)])
  {
    hide IsAddress, DrawsInRange, UniquePayAmount, UsedAmounts, PaymentUsd;
  }

  lemma StoreWaits(s: State, i: nat, order: string, wallet: string, amount: int, head: nat, until: int)
    requires TaskAt(s, i) == ChoseAmount(order, wallet, amount)
    requires order in s.db.payments && !s.db.payments[order].credited
    ensures var e := Next(s, Store(i, head, until));
            && e.tasks == s.tasks[i := Done] && e.db.payments.Keys == s.db.payments.Keys
            && WaitingCrypto(e.db.payments[order]) && e.db.payments[order].payAmount == amount
            && forall o :: o in s.db.payments && o != order ==> e.db.payments[o] == s.db.payments[o]
  {
    hide Sound, Grows, MetaKept;
  }

  // --- distinctness holds when choosing and storing is one step ------------------------------

  /** A step of the protocol, or a preparation that is not interrupted between choosing and storing. */
  datatype Move = Single(st: Step) | Prepare(task: nat, wallet: string, draws: seq<int>, fallback: int, head: nat,
                                             until: int)

  ghost function Make(s: State, m: Move): State {
    match m
    case Single(st) => Next(s, st)
    case Prepare(i, wallet, draws, fallback, head, until) =>
      Next(Next(s, Choose(i, wallet, draws, fallback)), Store(i, head, until))
  }

  /** No amount is stored on its own, no status write revives an invoice, and one of the draws is free. */
  predicate Orderly(s: State, m: Move) {
    match m
    case Single(st) =>
      && !st.Store?
      && (st.Callback? ==> !Revives(s.db, st.order, st.status))
      && (st.InvoiceCreated? && TaskAt(s, st.task).CreatingInvoice? ==>
            !Revives(s.db, TaskAt(s, st.task).order, "waiting"))
    case Prepare(i, wallet, draws, fallback, head, until) =>
      && TaskAt(s, i).AskedCrypto?
      && (TaskAt(s, i).order in s.db.payments ==>
            SomeDrawFree(PaymentUsd(s.db.payments[TaskAt(s, i).order]), UsedAmounts(s.db), draws))
  }

  ghost predicate IsOrderlyPlay(states: seq<State>, moves: seq<Move>) {
    && |states| == |moves| + 1 && states[0] == INITIAL
    && forall k :: 0 <= k < |moves| ==> Orderly(states[k], moves[k]) && states[k + 1] == Make(states[k], moves[k])
  }

  lemma PrepareKeepsDistinct(s: State, m: Move)
    requires Distinct(s.db) && m.Prepare? && Orderly(s, m)
    ensures Distinct(Make(s, m).db)
  {
    hide Distinct, Sound, Grows, MetaKept, IsAddress, UniquePayAmount;
    var t := Next(s, Choose(m.task, m.wallet, m.draws, m.fallback));
    var order := TaskAt(s, m.task).order;
    assert t.db == s.db;
    if order in s.db.payments && DrawsInRange(m.draws, m.fallback) {
      ChosenAmount(PaymentUsd(s.db.payments[order]), UsedAmounts(s.db), m.draws, m.fallback);
    }
    StepKeepsDistinctIff(t, Store(m.task, m.head, m.until));
  }

  lemma MoveKeepsDistinct(s: State, m: Move)
    requires Distinct(s.db) && Orderly(s, m)
    ensures Distinct(Make(s, m).db)
  {
    hide Distinct, Next, Revives, SomeDrawFree, TakenByOther;
    match m
    case Single(st) => StepKeepsDistinctIff(s, st);
    case Prepare(_, _, _, _, _, _) => PrepareKeepsDistinct(s, m);
  }

  /** In every state of every orderly play, through any preparations, re-preparations, cancellations, expiries and
      credits, waiting crypto amounts are pairwise different. */
  lemma {:induction false} OrderlyPlayIsDistinct(states: seq<State>, moves: seq<Move>, k: nat)
    requires IsOrderlyPlay(states, moves) && k <= |moves|
    ensures Distinct(states[k].db)
  {
    hide Make, Orderly;
    if k > 0 {
      OrderlyPlayIsDistinct(states, moves, k - 1);
      assert moves[k - 1] in moves;
      hide Distinct;
      MoveKeepsDistinct(states[k - 1], moves[k - 1]);
    }
  }
}
