/** Conservation of money: what each wallet holds is explained by the history, in every interleaving. */
module Ledger {
  import opened Prelude
  import opened Tables
  import opened Chain
  import opened Watcher
  import opened Handlers
  import opened Protocol

  /** What an event adds to the wallet of `u`. */
  ghost function LedgerOf(u: int): Event -> int {
    (e: Event) =>
      match e
      case Credited(_, row, wallet, _) => if !wallet && row.purpose != "order" && row.tgId == u then row.amount else 0
      case Rewarded(user, amount) => if user == u then amount else 0
      case Adjusted(user, amount) => if user == u then amount else 0
      case Bought(user, price) => if user == u then -price else 0
      case DeliveryStarted(_) => 0
  }

  ghost function RewardOf(u: int): Event -> int {
    (e: Event) => if e.Rewarded? && e.user == u then e.amount else 0
  }

  /** What a task in flight holds of the money of `u`. */
  ghost function HeldFor(u: int): Task -> int {
    (t: Task) =>
      match t
      case DeliveringBought(user, price, _) => if user == u then price else 0
      case Renewing(user, price, fromWallet) => if fromWallet && user == u then price else 0
      case _ => 0
  }

  ghost function Held(s: State, u: int): int { Total(s.tasks, HeldFor(u)) }

  /** Credited top-ups plus rewards plus adjustments minus completed purchases. */
  ghost function Explained(s: State, u: int): int { Total(s.log, LedgerOf(u)) }

  ghost function Rewards(s: State, u: int): int { Total(s.log, RewardOf(u)) }

  /** The money of `u` that the history does not explain, and the referral income it does not explain. */
  ghost function Gap(s: State, u: int): (int, int) {
    (Balance(s.db, u) + Held(s, u) - Explained(s, u), UserOf(s.db, u).refEarnings - Rewards(s, u))
  }

  // --- what the building blocks of a step do to the gap --------------------------------

  lemma SetGap(s: State, i: nat, t: Task, u: int)
    requires i < |s.tasks|
    ensures Gap(Set(s, i, t), u) == (Gap(s, u).0 + HeldFor(u)(t) - HeldFor(u)(s.tasks[i]), Gap(s, u).1)
  {
    TotalUpdate(s.tasks, i, t, HeldFor(u));
  }

  lemma SpawnGap(s: State, t: Task, u: int)
    ensures Gap(Spawn(s, t), u) == (Gap(s, u).0 + HeldFor(u)(t), Gap(s, u).1)
  {
    TotalAppend(s.tasks, t, HeldFor(u));
  }

  lemma EmitGap(s: State, e: Event, u: int)
    ensures Gap(Emit(s, e), u) == (Gap(s, u).0 - LedgerOf(u)(e), Gap(s, u).1 - RewardOf(u)(e))
  {
    TotalAppend(s.log, e, LedgerOf(u));
    TotalAppend(s.log, e, RewardOf(u));
  }

  /** A step that touches no wallet, writes no history, and changes or adds no task that holds money. */
  ghost predicate Calm(s: State, t: State, u: int) {
    && t.log == s.log && UserOf(t.db, u) == UserOf(s.db, u)
    && |s.tasks| <= |t.tasks| <= |s.tasks| + 1
    && (forall i :: 0 <= i < |s.tasks| ==> HeldFor(u)(t.tasks[i]) == HeldFor(u)(s.tasks[i]))
    && (|t.tasks| > |s.tasks| ==> HeldFor(u)(t.tasks[|s.tasks|]) == 0)
  }

  lemma CalmGap(s: State, t: State, u: int)
    requires Calm(s, t, u)
    ensures Gap(t, u) == Gap(s, u)
  {
    var kept := t.tasks[..|s.tasks|];
    TotalPointwise(s.tasks, kept, HeldFor(u));
    if |t.tasks| > |s.tasks| {
      TotalAppend(kept, t.tasks[|s.tasks|], HeldFor(u));
      assert t.tasks == kept + [t.tasks[|s.tasks|]];
    } else {
      assert t.tasks == kept;
    }
  }

  // --- every step keeps the gap ------------------------------------------------------------

  lemma DeliverGap(s: State, order: string, row: Payment, proof: Option<Proof>, u: int)
    ensures Gap(Deliver(s, order, row, proof), u) == Gap(s, u)
  {
    hide Sound, Grows, PaymentsSame, ClaimStock, Total;
    var (d, outcome) := Fulfil(s.db, order, row);
    var s1, c := s.(db := d), Credited(order, row, false, proof);
    EmitGap(s1, c, u);
    EmitGap(Emit(s1, c), DeliveryStarted(order), u);
    SpawnGap(Emit(Emit(s1, c), DeliveryStarted(order)), DeliveringPaid(row.tgId, outcome), u);
  }

  lemma InvoiceStepGap(s: State, st: Step, u: int)
    ensures Gap(InvoiceStep(s, st), u) == Gap(s, u)
  {
    hide Sound, Grows, MetaKept, Deliver, Gap;
    if st.Callback? && st.signed {
      var paid := if st.hoosh then HOOSHPAY_PAID else NOWPAYMENTS_PAID;
      var (d, row) := Handlers.Callback(s.db, paid, st.order, st.status, st.invoice);
      CalmGap(s, s.(db := d), u);
      if row.Some? {
        DeliverGap(s.(db := d), st.order, row.value, None, u);
      }
    } else {
      CalmGap(s, InvoiceStep(s, st), u);
    }
  }

  lemma CheckedGap(s: State, invoice: Invoice, hash: string, receipt: Option<Receipt>, head: nat, demand: Demand,
                   u: int)
    ensures Gap(OnChecked(s, invoice, hash, receipt, head, demand), u) == Gap(s, u)
  {
    hide Sound, Grows, MetaKept, Deliver, Backs, ExtractTxHash, Gap;
    if ExtractTxHash(hash) != "" && receipt.Some? && Backs(receipt.value, head, demand) {
      var (d, row) := CreditCrypto(s.db, invoice.order, hash);
      CalmGap(s, s.(db := d), u);
      if row.Some? {
        DeliverGap(s.(db := d), invoice.order, row.value,
                   Some(Proof(invoice.row, hash, receipt.value, head, demand)), u);
      }
    }
  }

  lemma DepositStepGap(s: State, st: Step, u: int)
    ensures Gap(DepositStep(s, st), u) == Gap(s, u)
  {
    hide Sound, Grows, MetaKept, OnChecked, FindPayment, TxHashUsed, ExtractTxHash, Gap;
    var t := TaskAt(s, if st.MatchChecked? || st.HashChecked? then st.task else 0);
    if st.MatchChecked? && t.CheckingMatch? {
      var v := Set(s, st.task, Matching(t.snapshot, t.head, t.required, t.matches));
      CalmGap(s, v, u);
      CheckedGap(v, t.invoice, t.hash, st.receipt, st.head, MatchDemand(t.invoice.row, t.required), u);
    } else if st.HashChecked? && t.CheckingHash? {
      var v := Set(s, st.task, Done);
      CalmGap(s, v, u);
      CheckedGap(v, t.invoice, t.hash, st.receipt, st.head, HashDemand(t.invoice.row, t.required), u);
    } else {
      CalmGap(s, DepositStep(s, st), u);
    }
  }

  lemma PayWalletGap(s: State, i: nat, invoice: Invoice, user: int, price: int, u: int)
    requires TaskAt(s, i) == AskedWallet(invoice, user)
    ensures Gap(OnPayWallet(s, i, invoice, user, price), u) == Gap(s, u)
  {
    hide Sound, Grows, MetaKept, PaymentsSame, WalletPurchase;
    var (d, r) := WalletPurchase(s.db, invoice.order, invoice.row, user, price);
    OnlyPaidCosts(s.db, invoice.order, invoice.row, user, price, u);
    var t := s.(db := d);
    if r.Paid? {
      var c := Credited(invoice.order, r.row, true, None);
      EmitGap(t, c, u);
      EmitGap(Emit(t, c), DeliveryStarted(invoice.order), u);
      SetGap(Emit(Emit(t, c), DeliveryStarted(invoice.order)), i, DeliveringBought(user, price, r.delivered), u);
    } else {
      SetGap(t, i, Done, u);
    }
  }

  lemma RewardGap(s: State, buyer: int, reward: int, u: int)
    ensures Gap(OnReward(s, buyer, reward), u) == Gap(s, u)
  {
    hide Sound, Grows, PaymentsSame;
    var who := RewardedUser(s.db, buyer, reward);
    if who.Some? {
      EmitGap(s.(db := Reward(s.db, buyer, reward)), Rewarded(who.value, reward), u);
    }
  }

  lemma BoughtGap(s: State, i: nat, t: Task, reward: int, u: int)
    requires i < |s.tasks| && s.tasks[i] == t && t.DeliveringBought?
    ensures Gap(OnBoughtDelivered(s, i, t, reward), u) == Gap(s, u)
  {
    hide Sound, Grows, PaymentsSame;
    if t.delivered {
      SetGap(s, i, Done, u);
      EmitGap(Set(s, i, Done), Bought(t.user, t.price), u);
      RewardGap(Emit(Set(s, i, Done), Bought(t.user, t.price)), t.user, reward, u);
    } else {
      SetGap(s.(db := AddBalance(s.db, t.user, t.price)), i, Done, u);
    }
  }

  lemma RenewedGap(s: State, i: nat, t: Task, ok: bool, u: int)
    requires i < |s.tasks| && s.tasks[i] == t && t.Renewing?
    ensures Gap(OnRenewed(s, i, t, ok), u) == Gap(s, u)
  {
    hide Sound, Grows, PaymentsSame, Total;
    SetGap(s, i, Done, u);
    EmitGap(Set(s, i, Done), Bought(t.user, t.price), u);
    SetGap(s.(db := AddBalance(s.db, t.user, t.price)), i, Done, u);
  }

  lemma RenewGap(s: State, user: int, price: int, fromWallet: bool, u: int)
    ensures Gap(OnRenew(s, user, price, fromWallet), u) == Gap(s, u)
  {
    hide Sound, Grows, PaymentsSame, Total;
    if !fromWallet {
      SpawnGap(s, Renewing(user, price, false), u);
    } else {
      SpawnGap(s.(db := TryDeduct(s.db, user, price).0), Renewing(user, price, true), u);
    }
  }

  lemma WalletStepGap(s: State, st: Step, u: int)
    ensures Gap(WalletStep(s, st), u) == Gap(s, u)
  {
    hide Sound, Grows, MetaKept, PaymentsSame, Gap, OnPayWallet, OnBoughtDelivered, OnReward, OnRenewed, OnRenew;
    match st
    case PayWallet(i, price) =>
      if TaskAt(s, i).AskedWallet? {
        PayWalletGap(s, i, TaskAt(s, i).invoice, TaskAt(s, i).user, price, u);
      }
    case BoughtDelivered(i, reward) =>
      if TaskAt(s, i).DeliveringBought? {
        BoughtGap(s, i, TaskAt(s, i), reward, u);
      }
    case PaidDelivered(i, panelOk, reward) =>
      if TaskAt(s, i).DeliveringPaid? {
        CalmGap(s, Set(s, i, Done), u);
        RewardGap(Set(s, i, Done), TaskAt(s, i).user, reward, u);
      }
    case Renew(user, price, fromWallet) => RenewGap(s, user, price, fromWallet, u);
    case Renewed(i, ok) =>
      if TaskAt(s, i).Renewing? {
        RenewedGap(s, i, TaskAt(s, i), ok, u);
      }
    case Adjust(user, amount) => AdjustGap(s, user, amount, u);
    case Refer(user, referrer) => ReferGap(s, user, referrer, u);
    case _ => CalmGap(s, WalletStep(s, st), u);
  }

  lemma AdjustGap(s: State, user: int, amount: int, u: int)
    ensures Gap(Emit(s.(db := AddBalance(s.db, user, amount)), Adjusted(user, amount)), u) == Gap(s, u)
  {
    hide Sound, Grows, PaymentsSame, Total;
    EmitGap(s.(db := AddBalance(s.db, user, amount)), Adjusted(user, amount), u);
  }

  lemma ReferGap(s: State, user: int, referrer: int, u: int)
    ensures Gap(s.(db := SetReferrer(s.db, user, referrer)), u) == Gap(s, u)
  {
    hide Sound, Grows, PaymentsSame, Total;
  }

  lemma StockStepGap(s: State, st: Step, u: int)
    ensures Gap(StockStep(s, st), u) == Gap(s, u)
  {
    hide Sound, Grows, PaymentsSame, Gap;
    CalmGap(s, StockStep(s, st), u);
  }

  lemma NextGap(s: State, st: Step, u: int)
    ensures Gap(Next(s, st), u) == Gap(s, u)
  {
    hide Gap, InvoiceStep, DepositStep, StockStep, WalletStep;
    InvoiceStepGap(s, st, u);
    DepositStepGap(s, st, u);
    StockStepGap(s, st, u);
    WalletStepGap(s, st, u);
  }

  lemma {:induction false} RunGap(states: seq<State>, steps: seq<Step>, k: nat, u: int)
    requires IsRun(states, steps) && k <= |steps|
    ensures Gap(states[k], u) == Gap(INITIAL, u)
  {
    hide Gap, Next;
    if k > 0 {
      RunGap(states, steps, k - 1, u);
      StepTo(states, steps, k);
      NextGap(states[k - 1], steps[k - 1], u);
    }
  }

  /** In every state of every run, balance plus money in flight is credited top-ups plus rewards plus adjustments minus
      completed purchases; so a purchase or renewal that fails nets to zero, and referral income is exactly the
      rewards. */
  lemma MoneyIsConserved(states: seq<State>, steps: seq<Step>, k: nat, u: int)
    requires IsRun(states, steps) && k <= |steps|
    ensures Balance(states[k].db, u) + Held(states[k], u) == Explained(states[k], u)
    ensures UserOf(states[k].db, u).refEarnings == Rewards(states[k], u)
  {
    hide Next;
    RunGap(states, steps, k, u);
  }
}
