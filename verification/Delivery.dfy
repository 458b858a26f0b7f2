/** What is handed over for a paid order, and who is rewarded for it, whichever path the payment took. */
module Delivery {
  import opened Prelude
  import opened Tables
  import opened Chain
  import opened Watcher
  import opened Handlers
  import opened Protocol
  import Persistence
  import UniqueAmounts
  import opened Backing
  import opened Settlement

  /** An order of a digital product, as the shop writes it. */
  predicate IsOrderOf(row: Payment, slug: string) {
    row.purpose == "order" && row.meta.product == "digital:" + slug && row.meta.digitalSlug == slug
  }

  /** A stocked product gives the order one item for the buyer if it can; nothing else changes in the stock. */
  ghost predicate ItemGiven(d: Db, e: Db, order: string, slug: string, buyer: int) {
    if slug in d.products && d.products[slug].delivery != Manual
       && (HoldsItem(d.stock, order) || HasUnsold(d.stock, slug))
    then GetsItem(d.stock, e.stock, slug, buyer, order)
    else e.stock == d.stock
  }

  lemma DeliverGivesItem(s: State, order: string, row: Payment, proof: Option<Proof>, slug: string)
    requires StockSound(s.db) && order != "" && IsOrderOf(row, slug)
    ensures ItemGiven(s.db, Deliver(s, order, row, proof).db, order, slug, row.tgId)
  {
    hide GetsItem, HoldsItem, HasUnsold, Fulfil, StockSound;
    OrderGetsItem(s.db, order, row, slug);
  }

  /** The rest of the delivery: a digital order is served or not by what it got, another order waits for the panel, and
      a top-up is finished. */
  lemma DeliverBegins(s: State, order: string, row: Payment, proof: Option<Proof>)
    ensures var e := Deliver(s, order, row, proof);
            && e.log == s.log + [Credited(order, row, false, proof), DeliveryStarted(order)]
            && (row.purpose == "order" ==>
                  e.tasks == s.tasks + [DeliveringPaid(row.tgId, Fulfil(s.db, order, row).1)])
            && (row.purpose != "order" ==> e.tasks == s.tasks)
  {
    hide Sound, Grows, PaymentsSame, DeliverDigital;
  }

  lemma CallbackGivesItem(s: State, hoosh: bool, at: string, status: string, invoice: string, order: string,
                          slug: string)
    requires Sound(s.db) && order != "" && !IsCredited(s.db, order)
    ensures var e := OnCallback(s, hoosh, at, status, invoice);
            IsCredited(e.db, order) && IsOrderOf(e.db.payments[order], slug) ==>
              ItemGiven(s.db, e.db, order, slug, e.db.payments[order].tgId)
  {
    hide Sound, Grows, MetaKept, Deliver, ItemGiven, IsOrderOf;
    var paid := if hoosh then HOOSHPAY_PAID else NOWPAYMENTS_PAID;
    var (d, row) := Handlers.Callback(s.db, paid, at, status, invoice);
    CallbackEffect(s.db, paid, at, status, invoice);
    if row.Some? {
      DeliveryKeepsPayments(s.(db := d), at, row.value, None);
      assert d.stock == s.db.stock && d.products == s.db.products && StockSound(d) by { SoundParts(d); }
      if at == order && IsOrderOf(row.value, slug) {
        DeliverGivesItem(s.(db := d), at, row.value, None, slug);
        SameStock(s.db, d, OnCallback(s, hoosh, at, status, invoice).db, order, slug, row.value.tgId);
      }
    }
  }

  lemma SoundParts(d: Db)
    requires Sound(d)
    ensures HashesSound(d) && StockSound(d)
  {
  }

  lemma SameStock(d: Db, same: Db, e: Db, order: string, slug: string, buyer: int)
    requires same.stock == d.stock && same.products == d.products && ItemGiven(same, e, order, slug, buyer)
    ensures ItemGiven(d, e, order, slug, buyer)
  {
  }

  lemma CheckedGivesItem(s: State, v: Invoice, hash: string, receipt: Option<Receipt>, head: nat, demand: Demand,
                         order: string, slug: string)
    requires Sound(s.db) && order != "" && !IsCredited(s.db, order)
    ensures var e := OnChecked(s, v, hash, receipt, head, demand);
            IsCredited(e.db, order) && IsOrderOf(e.db.payments[order], slug) ==>
              ItemGiven(s.db, e.db, order, slug, e.db.payments[order].tgId)
  {
    hide Sound, Grows, MetaKept, Deliver, ItemGiven, IsOrderOf, Backs, ExtractTxHash;
    var (d, row) := CreditCrypto(s.db, v.order, hash);
    CryptoEffect(s.db, v.order, hash);
    if row.Some? && receipt.Some? {
      var proof := Some(Proof(v.row, hash, receipt.value, head, demand));
      DeliveryKeepsPayments(s.(db := d), v.order, row.value, proof);
      assert d.stock == s.db.stock && d.products == s.db.products && StockSound(d) by { SoundParts(d); }
      if v.order == order && IsOrderOf(row.value, slug) {
        DeliverGivesItem(s.(db := d), v.order, row.value, proof, slug);
        SameStock(s.db, d, Deliver(s.(db := d), v.order, row.value, proof).db, order, slug, row.value.tgId);
      }
    }
  }

  lemma PurchaseGivesItem(s: State, i: nat, price: int, order: string, slug: string)
    requires Accounted(s) && TaskAt(s, i).AskedWallet? && order != "" && !IsCredited(s.db, order)
    ensures var e := Next(s, PayWallet(i, price));
            IsCredited(e.db, order) && IsOrderOf(e.db.payments[order], slug) ==>
              ItemGiven(s.db, e.db, order, slug, e.db.payments[order].tgId)
  {
    hide Sound, Grows, MetaKept, GetsItem, HoldsItem, HasUnsold, WalletPurchase, RowsOk, LogOk;
    var t := TaskAt(s, i);
    TaskIsOk(s, i);
    assert StockSound(s.db) by { SoundParts(s.db); }
    hide StockSound, TasksOk, RowOk;
    WalletEffect(s.db, t.invoice.order, t.invoice.row, t.user, price);
    if t.invoice.order == order {
      PurchaseIff(s.db, order, t.invoice.row, t.user, price);
      NoPurchase(s.db, order, t.invoice.row, t.user, price);
    }
  }

  lemma StatusKeepsCredits(d: Db, at: string, status: string, invoice: Option<string>, order: string)
    ensures IsCredited(SetStatus(d, at, status, invoice), order) <==> IsCredited(d, order)
  {
    hide Sound, Grows, MetaKept;
  }

  lemma PatchKeepsCredits(d: Db, at: string, patch: Patch, order: string)
    ensures IsCredited(UpdatePayment(d, at, patch), order) <==> IsCredited(d, order)
  {
    hide Sound, Grows, MetaKept;
  }

  lemma CreationKeepsCredits(d: Db, at: string, row: Payment, order: string)
    ensures IsCredited(CreatePayment(d, at, row), order) <==> IsCredited(d, order)
  {
    hide Sound, Grows, MetaKept;
  }

  lemma InvoiceStepKeepsCredits(s: State, st: Step, order: string)
    requires !st.Callback?
    ensures IsCredited(InvoiceStep(s, st).db, order) <==> IsCredited(s.db, order)
  {
    hide SetStatus, UpdatePayment, CreatePayment, CryptoPatch, GatewayPatch, OnChoose, IsCredited;
    match st
    case Create(at, user, amount, purpose, meta, viaGateway) =>
      CreationKeepsCredits(s.db, at,
        Payment(user, amount, purpose, meta, if viaGateway then "nowpayments" else "", "", 0, 0, 0, "", "", false, ""),
        order);
    case InvoiceCreated(i, ok, invoice) =>
      if TaskAt(s, i).CreatingInvoice? {
        StatusKeepsCredits(s.db, TaskAt(s, i).order, "waiting", Some(invoice), order);
        StatusKeepsCredits(s.db, TaskAt(s, i).order, "failed", None, order);
      }
    case Cancel(at, user) => StatusKeepsCredits(s.db, at, "cancelled", None, order);
    case Choose(i, wallet, draws, fallback) => UniqueAmounts.ChoiceKeepsTables(s, i, wallet, draws, fallback);
    case Store(i, head, expiresAt) =>
      var t := TaskAt(s, i);
      if t.ChoseAmount? {
        PatchKeepsCredits(s.db, t.order, CryptoPatch(t.wallet, t.amount, head, expiresAt), order);
      }
    case GatewayReplied(i, ok, invoice, payable) =>
      var t := TaskAt(s, i);
      if t.AskedGateway? {
        PatchKeepsCredits(s.db, t.order, GatewayPatch(t.hoosh, ok, invoice, payable), order);
      }
    case _ =>
  }

  lemma DepositStepKeepsCredits(s: State, st: Step, order: string)
    requires !st.MatchChecked? && !st.HashChecked?
    ensures IsCredited(DepositStep(s, st).db, order) <==> IsCredited(s.db, order)
  {
    hide Sound, Grows, MetaKept, FindPayment, TxHashUsed, ExtractTxHash, WaitingInvoices;
  }

  lemma WalletStepKeepsCredits(s: State, st: Step, order: string)
    requires !st.PayWallet?
    ensures IsCredited(WalletStep(s, st).db, order) <==> IsCredited(s.db, order)
  {
    hide Sound, Grows, MetaKept, PaymentsSame;
  }

  lemma StockStepKeepsCredits(s: State, st: Step, order: string)
    ensures IsCredited(StockStep(s, st).db, order) <==> IsCredited(s.db, order)
  {
    hide Sound, Grows, MetaKept, CreateProduct, DeleteProduct, AddStock, ClearAvailable, DeliverDigital;
  }

  /** The step that credits a digital order, by any path, gives it its item: the one it holds, or else the lowest unsold
      one of its product, sold to the order's owner; if there is none, or the product is not stocked, the stock stays as
      it is. */
  lemma CreditGivesItem(s: State, st: Step, order: string, slug: string)
    requires Accounted(s) && order != "" && !IsCredited(s.db, order)
    ensures var e := Next(s, st);
            IsCredited(e.db, order) && IsOrderOf(e.db.payments[order], slug) ==>
              ItemGiven(s.db, e.db, order, slug, e.db.payments[order].tgId)
  {
    hide InvoiceStep, DepositStep, StockStep, WalletStep, ItemGiven, IsOrderOf, IsCredited;
    if st.Callback? || st.MatchChecked? || st.HashChecked? || st.PayWallet? {
      CreditingStepGivesItem(s, st, order, slug);
    } else if AboutInvoices(st) {
      InvoiceStepKeepsCredits(s, st, order);
    } else if AboutDeposits(st) {
      DepositStepKeepsCredits(s, st, order);
    } else if AboutStock(st) {
      StockStepKeepsCredits(s, st, order);
    } else {
      WalletStepKeepsCredits(s, st, order);
    }
  }

  lemma CreditingStepGivesItem(s: State, st: Step, order: string, slug: string)
    requires Accounted(s) && order != "" && !IsCredited(s.db, order)
    requires st.Callback? || st.MatchChecked? || st.HashChecked? || st.PayWallet?
    ensures var e := Next(s, st);
            IsCredited(e.db, order) && IsOrderOf(e.db.payments[order], slug) ==>
              ItemGiven(s.db, e.db, order, slug, e.db.payments[order].tgId)
  {
    assert Sound(s.db);
    hide OnCallback, ItemGiven, IsOrderOf, IsCredited, Accounted, Sound, OnPayWallet, DepositStep;
    if st.Callback? {
      CallbackGivesItem(s, st.hoosh, st.order, st.status, st.invoice, order, slug);
    } else if st.PayWallet? {
      if TaskAt(s, st.task).AskedWallet? {
        PurchaseGivesItem(s, st.task, st.price, order, slug);
      }
    } else {
      EndedCheckGivesItem(s, st, order, slug);
    }
  }

  lemma EndedCheckGivesItem(s: State, st: Step, order: string, slug: string)
    requires Sound(s.db) && order != "" && !IsCredited(s.db, order) && (st.MatchChecked? || st.HashChecked?)
    ensures var e := Next(s, st);
            IsCredited(e.db, order) && IsOrderOf(e.db.payments[order], slug) ==>
              ItemGiven(s.db, e.db, order, slug, e.db.payments[order].tgId)
  {
    hide OnChecked, ItemGiven, IsOrderOf, Sound, MatchDemand, HashDemand;
    var t := TaskAt(s, st.task);
    if t.CheckingMatch? || t.CheckingHash? {
      if st.MatchChecked? && t.CheckingMatch? {
        var u := Set(s, st.task, Matching(t.snapshot, t.head, t.required, t.matches));
        CheckedGivesItem(u, t.invoice, t.hash, st.receipt, st.head, MatchDemand(t.invoice.row, t.required), order,
                         slug);
      } else if st.HashChecked? && t.CheckingHash? {
        CheckedGivesItem(Set(s, st.task, Done), t.invoice, t.hash, st.receipt, st.head,
                         HashDemand(t.invoice.row, t.required), order, slug);
      }
    }
  }

  /** In every run, a credited order of a digital product was given its item, for its owner, in the step that credited
      it. */
  lemma {:induction false} CreditedOrderGotItem(states: seq<State>, steps: seq<Step>, k: nat, order: string,
                                                slug: string) returns (j: nat)
    requires IsRun(states, steps) && k <= |steps| && order != ""
    requires IsCredited(states[k].db, order) && IsOrderOf(states[k].db.payments[order], slug)
    ensures j < k && !IsCredited(states[j].db, order) && IsCredited(states[j + 1].db, order)
    ensures ItemGiven(states[j].db, states[j + 1].db, order, slug, states[k].db.payments[order].tgId)
  {
    hide Next, Accounted, ItemGiven;
    assert k > 0;
    StepTo(states, steps, k);
    if IsCredited(states[k - 1].db, order) {
      SameOrder(states, steps, k - 1, order, slug);
      j := CreditedOrderGotItem(states, steps, k - 1, order, slug);
    } else {
      RunAccounts(states, steps, k - 1);
      CreditGivesItem(states[k - 1], steps[k - 1], order, slug);
      j := k - 1;
    }
  }

  lemma SameOrder(states: seq<State>, steps: seq<Step>, k: nat, order: string, slug: string)
    requires IsRun(states, steps) && k < |steps| && order in states[k].db.payments
    ensures order in states[k + 1].db.payments
    ensures states[k].db.payments[order].tgId == states[k + 1].db.payments[order].tgId
    ensures IsOrderOf(states[k].db.payments[order], slug) <==> IsOrderOf(states[k + 1].db.payments[order], slug)
  {
    hide Next, Sound, StockGrows;
    Persistence.SettledForever(states, steps, k, k + 1);
  }

  // --- rewards --------------------------------------------------------------------------

  /** The buyer, if the step ends a delivery that went through. */
  function Served(s: State, st: Step): Option<int> {
    match st
    case BoughtDelivered(i, _) =>
      (match TaskAt(s, i) case DeliveringBought(user, _, true) => Some(user) case _ => None)
    case PaidDelivered(i, panelOk, _) =>
      (match TaskAt(s, i)
       case DeliveringPaid(user, Delivered) => Some(user)
       case DeliveringPaid(user, Building) => if panelOk then Some(user) else None
       case _ => None)
    case _ => None
  }

  /** Everybody whose paid order is being delivered has one in the history. */
  predicate HasPaid(log: seq<Event>, user: int) {
    exists j :: 0 <= j < |log| && log[j].Credited? && log[j].row.tgId == user && log[j].row.purpose == "order"
  }

  ghost predicate BuyersHavePaid(s: State) {
    forall i :: 0 <= i < |s.tasks| && s.tasks[i].DeliveringPaid? ==> HasPaid(s.log, s.tasks[i].user)
  }

  /** No reward is new, and the buyers of all deliveries are known to have paid. */
  ghost predicate Unrewarded(s: State, t: State) {
    s.log <= t.log && (forall k :: |s.log| <= k < |t.log| ==> !t.log[k].Rewarded?)
    && (BuyersHavePaid(s) ==> BuyersHavePaid(t))
  }

  lemma StillPaid(log: seq<Event>, more: seq<Event>, user: int)
    requires HasPaid(log, user) && log <= more
    ensures HasPaid(more, user)
  {
    var j :| 0 <= j < |log| && log[j].Credited? && log[j].row.tgId == user && log[j].row.purpose == "order";
    assert more[j] == log[j];
  }

  lemma PlainStep(s: State, t: State)
    requires s.log <= t.log && forall k :: |s.log| <= k < |t.log| ==> !t.log[k].Rewarded?
    requires forall i :: 0 <= i < |t.tasks| && t.tasks[i].DeliveringPaid? ==>
               (i < |s.tasks| && t.tasks[i] == s.tasks[i]) || HasPaid(t.log, t.tasks[i].user)
    ensures Unrewarded(s, t)
  {
    hide HasPaid;
    if BuyersHavePaid(s) {
      forall i | 0 <= i < |t.tasks| && t.tasks[i].DeliveringPaid? ensures HasPaid(t.log, t.tasks[i].user) {
        if i < |s.tasks| && t.tasks[i] == s.tasks[i] {
          StillPaid(s.log, t.log, t.tasks[i].user);
        }
      }
    }
  }

  lemma DeliverUnrewarded(s: State, order: string, row: Payment, proof: Option<Proof>)
    ensures Unrewarded(s, Deliver(s, order, row, proof))
  {
    hide Sound, Grows, PaymentsSame, AddBalance, DeliverDigital;
    var t := Deliver(s, order, row, proof);
    assert t.log[|s.log|] == Credited(order, row, false, proof);
    PlainStep(s, t);
  }

  lemma UnrewardedThen(s: State, t: State, u: State)
    requires Unrewarded(s, t) && Unrewarded(t, u)
    ensures Unrewarded(s, u)
  {
    hide BuyersHavePaid;
  }

  lemma CheckedUnrewarded(s: State, v: Invoice, hash: string, receipt: Option<Receipt>, head: nat, demand: Demand)
    ensures Unrewarded(s, OnChecked(s, v, hash, receipt, head, demand))
  {
    hide Deliver, Backs, ExtractTxHash, CreditCrypto, HasPaid, Unrewarded;
    var (d, row) := CreditCrypto(s.db, v.order, hash);
    PlainStep(s, s);
    PlainStep(s, s.(db := d));
    if row.Some? && receipt.Some? {
      var proof := Some(Proof(v.row, hash, receipt.value, head, demand));
      DeliverUnrewarded(s.(db := d), v.order, row.value, proof);
      UnrewardedThen(s, s.(db := d), Deliver(s.(db := d), v.order, row.value, proof));
    }
  }

  lemma InvoiceStepUnrewarded(s: State, st: Step)
    ensures Unrewarded(s, InvoiceStep(s, st))
  {
    hide Deliver, Handlers.Callback, SetStatus, UpdatePayment, CreatePayment, UniquePayAmount, UsedAmounts, HasPaid;
    hide Unrewarded, DrawsInRange, IsAddress, PaymentUsd;
    if st.Callback? && st.signed {
      var paid := if st.hoosh then HOOSHPAY_PAID else NOWPAYMENTS_PAID;
      var (d, row) := Handlers.Callback(s.db, paid, st.order, st.status, st.invoice);
      PlainStep(s, s.(db := d));
      if row.Some? {
        DeliverUnrewarded(s.(db := d), st.order, row.value, None);
        UnrewardedThen(s, s.(db := d), Deliver(s.(db := d), st.order, row.value, None));
      }
    } else {
      PlainStep(s, InvoiceStep(s, st));
    }
  }

  lemma DepositStepUnrewarded(s: State, st: Step)
    ensures Unrewarded(s, DepositStep(s, st))
  {
    hide OnChecked, ExtractTxHash, TxHashUsed, FindPayment, ExpireStale, WaitingInvoices, MatchDemand, HashDemand;
    hide Unrewarded, HasPaid;
    var t := TaskAt(s, if st.MatchChecked? || st.HashChecked? then st.task else 0);
    if st.MatchChecked? && t.CheckingMatch? {
      var u := Set(s, st.task, Matching(t.snapshot, t.head, t.required, t.matches));
      PlainStep(s, u);
      CheckedUnrewarded(u, t.invoice, t.hash, st.receipt, st.head, MatchDemand(t.invoice.row, t.required));
      UnrewardedThen(s, u, DepositStep(s, st));
    } else if st.HashChecked? && t.CheckingHash? {
      var u := Set(s, st.task, Done);
      PlainStep(s, u);
      CheckedUnrewarded(u, t.invoice, t.hash, st.receipt, st.head, HashDemand(t.invoice.row, t.required));
      UnrewardedThen(s, u, DepositStep(s, st));
    } else {
      PlainStep(s, DepositStep(s, st));
    }
  }

  lemma WalletStepUnrewarded(s: State, st: Step)
    requires Served(s, st).None?
    ensures Unrewarded(s, WalletStep(s, st))
  {
    hide WalletPurchase, AddBalance, TryDeduct, SetReferrer, Reward, RewardedUser, HasPaid, Unrewarded;
    PlainStep(s, WalletStep(s, st));
  }

  /** What the referral of a buyer earns by a reward: the event, if there is one. */
  function RewardEvents(d: Db, buyer: int, reward: int): seq<Event> {
    var referrer := UserOf(d, buyer).referredBy;
    if referrer != 0 && referrer != buyer && reward > 0 then [Rewarded(referrer, reward)] else []
  }

  /** Of all steps, exactly those that end a successful delivery reward anybody: the buyer's referrer, with the reward.
      */
  lemma RewardIff(s: State, st: Step)
    ensures var e := Next(s, st);
            match Served(s, st)
            case None => Unrewarded(s, e)
            case Some(buyer) =>
              && e.log == s.log + (if st.BoughtDelivered? then [Bought(buyer, TaskAt(s, st.task).price)] else [])
                          + RewardEvents(s.db, buyer, st.reward)
              && (BuyersHavePaid(s) ==> BuyersHavePaid(e))
  {
    hide InvoiceStep, DepositStep, WalletStep, Unrewarded, HasPaid, BuyersHavePaid;
    if Served(s, st).Some? {
      ServedStep(s, st);
    } else if AboutInvoices(st) {
      InvoiceStepUnrewarded(s, st);
    } else if AboutDeposits(st) {
      DepositStepUnrewarded(s, st);
    } else if AboutStock(st) {
      PlainStep(s, StockStep(s, st));
    } else {
      WalletStepUnrewarded(s, st);
    }
  }

  lemma ServedStep(s: State, st: Step)
    requires Served(s, st).Some?
    ensures var e, buyer := Next(s, st), Served(s, st).value;
            && e.log == s.log + (if st.BoughtDelivered? then [Bought(buyer, TaskAt(s, st.task).price)] else [])
                        + RewardEvents(s.db, buyer, st.reward)
            && (BuyersHavePaid(s) ==> BuyersHavePaid(e))
  {
    hide HasPaid, Reward;
    var e := Next(s, st);
    if BuyersHavePaid(s) {
      forall i | 0 <= i < |e.tasks| && e.tasks[i].DeliveringPaid? ensures HasPaid(e.log, e.tasks[i].user) {
        StillPaid(s.log, e.log, e.tasks[i].user);
      }
    }
  }

  /** In every run, whoever is served after a payment has a credited order in the history, so nobody is rewarded for a
      delivery that was not paid for; a wallet purchase that is served is in it as bought by the same step. */
  lemma {:induction false} ServedHavePaid(states: seq<State>, steps: seq<Step>, k: nat)
    requires IsRun(states, steps) && k <= |steps|
    ensures BuyersHavePaid(states[k])
    ensures k < |steps| && steps[k].PaidDelivered? && Served(states[k], steps[k]).Some? ==>
              HasPaid(states[k].log, Served(states[k], steps[k]).value)
  {
    hide Next, HasPaid, Unrewarded;
    if k > 0 {
      ServedHavePaid(states, steps, k - 1);
      StepTo(states, steps, k);
      RewardIff(states[k - 1], steps[k - 1]);
      UnrewardedKeeps(states[k - 1], states[k]);
    }
  }

  lemma UnrewardedKeeps(s: State, t: State)
    ensures Unrewarded(s, t) && BuyersHavePaid(s) ==> BuyersHavePaid(t)
  {
  }

  /** A renewal, from the deduction to the panel's answer: it is begun if the wallet covers its price or does not pay,
      and costs the price exactly if it succeeds and the wallet pays. */
  lemma RenewalCosts(s: State, user: int, price: int, fromWallet: bool, ok: bool, u: int)
    ensures var begun := Next(s, Renew(user, price, fromWallet));
            var e := Next(begun, Renewed(|s.tasks|, ok));
            if fromWallet && Balance(s.db, user) < price then |begun.tasks| == |s.tasks| && begun.log == s.log
            else
              && begun.tasks == s.tasks + [Renewing(user, price, fromWallet)]
              && Balance(e.db, u) == Balance(s.db, u) - (if ok && fromWallet && u == user then price else 0)
              && e.log == s.log + (if ok && fromWallet then [Bought(user, price)] else [])
  {
    hide Sound, Grows, PaymentsSame;
  }
}
