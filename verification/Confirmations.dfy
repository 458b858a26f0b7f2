/** Every settlement met the settings that were in force when its check began. */
module Confirmations {
  import opened Prelude
  import opened Text
  import opened Tables
  import opened Chain
  import opened Watcher
  import opened Handlers
  import opened Protocol
  import opened Backing
  import opened Settlement
  import opened Evidence
  import opened Transactions

  // --- where the required confirmations come from -------------------------------------------------

  /** The confirmations that a task of the watcher or of a submitted hash asks for. */
  function RequiredBy(t: Task): Option<int> {
    match t
    case Matching(_, _, required, _) => Some(required)
    case CheckingMatch(_, _, required, _, _, _) => Some(required)
    case CheckingHash(_, _, required) => Some(required)
    case _ => None
  }

  /** The setting read by a step of task i. */
  function SettingRead(st: Step, i: nat): Option<int> {
    match st
    case Scanned(j, _, required, _) => if i == j then Some(required) else None
    case CheckHash(j, required) => if i == j then Some(required) else None
    case _ => None
  }

  lemma InvoiceStepSettings(s: State, st: Step, i: nat)
    ensures RequiredBy(TaskAt(InvoiceStep(s, st), i)) in {None, RequiredBy(TaskAt(s, i))}
  {
    hide Handlers.Callback, Fulfil, SetStatus, UpdatePayment, CreatePayment, UniquePayAmount, UsedAmounts, PaymentUsd;
    hide IsAddress, DrawsInRange;
  }

  lemma WalletStepSettings(s: State, st: Step, i: nat)
    ensures RequiredBy(TaskAt(WalletStep(s, st), i)) in {None, RequiredBy(TaskAt(s, i))}
  {
    hide WalletPurchase, AddBalance, TryDeduct, SetReferrer, Reward, RewardedUser;
  }

  lemma CheckedSettings(s: State, v: Invoice, hash: string, receipt: Option<Receipt>, head: nat, demand: Demand, i: nat)
    ensures RequiredBy(TaskAt(OnChecked(s, v, hash, receipt, head, demand), i)) in {None, RequiredBy(TaskAt(s, i))}
  {
    hide Backs, ExtractTxHash, CreditCrypto, Fulfil;
  }

  lemma DepositStepSettings(s: State, st: Step, i: nat)
    ensures var was, now := RequiredBy(TaskAt(s, i)), RequiredBy(TaskAt(DepositStep(s, st), i));
            now in {None, was} || (SettingRead(st, i).Some? && now == Some(Max(1, SettingRead(st, i).value)))
  {
    hide OnChecked, ExpireStale, WaitingInvoices, FindPayment, ExtractTxHash, TxHashUsed, MatchDemand, HashDemand;
    var t := TaskAt(s, if st.MatchChecked? || st.HashChecked? then st.task else 0);
    if st.MatchChecked? && t.CheckingMatch? {
      var u := Set(s, st.task, Matching(t.snapshot, t.head, t.required, t.matches));
      CheckedSettings(u, t.invoice, t.hash, st.receipt, st.head, MatchDemand(t.invoice.row, t.required), i);
    } else if st.HashChecked? && t.CheckingHash? {
      var u := Set(s, st.task, Done);
      CheckedSettings(u, t.invoice, t.hash, st.receipt, st.head, HashDemand(t.invoice.row, t.required), i);
    }
  }

  lemma NextSettings(s: State, st: Step, i: nat)
    ensures var was, now := RequiredBy(TaskAt(s, i)), RequiredBy(TaskAt(Next(s, st), i));
            now in {None, was} || (SettingRead(st, i).Some? && now == Some(Max(1, SettingRead(st, i).value)))
  {
    hide InvoiceStep, DepositStep, WalletStep;
    InvoiceStepSettings(s, st, i);
    DepositStepSettings(s, st, i);
    WalletStepSettings(s, st, i);
  }

  /** In every run, what a task asks for was read from the settings by an earlier step of it, and is at least one. */
  lemma {:induction false} SettingWasRead(states: seq<State>, steps: seq<Step>, k: nat, i: nat) returns (c: nat)
    requires IsRun(states, steps) && k <= |steps| && RequiredBy(TaskAt(states[k], i)).Some?
    ensures c < k && SettingRead(steps[c], i).Some?
    ensures RequiredBy(TaskAt(states[k], i)).value == Max(1, SettingRead(steps[c], i).value)
  {
    hide Next, RequiredBy, SettingRead;
    assert k > 0 by { NoTasks(i); }
    StepTo(states, steps, k);
    NextSettings(states[k - 1], steps[k - 1], i);
    if RequiredBy(TaskAt(states[k], i)) == RequiredBy(TaskAt(states[k - 1], i)) {
      c := SettingWasRead(states, steps, k - 1, i);
    } else {
      c := k - 1;
    }
  }

  lemma NoTasks(i: nat)
    ensures RequiredBy(TaskAt(INITIAL, i)).None?
  {
  }

  // --- what a check has asked for ---------------------------------------------------------------------

  /** The invoice that a check is for. */
  function CheckedInvoice(t: Task): Option<Invoice> {
    match t
    case CheckingMatch(_, _, _, _, _, invoice) => Some(invoice)
    case CheckingHash(invoice, _, _) => Some(invoice)
    case _ => None
  }

  function HashOf(t: Task): string {
    match t
    case CheckingMatch(_, _, _, _, hash, _) => hash
    case CheckingHash(_, hash, _) => hash
    case _ => ""
  }

  /** The step ends a check that its task has begun. */
  predicate EndsCheckOf(s: State, st: Step) {
    (st.MatchChecked? && TaskAt(s, st.task).CheckingMatch?) || (st.HashChecked? && TaskAt(s, st.task).CheckingHash?)
  }

  /** The price without the unique offset, in micro-USDT: what the order's `meta` says, or the amount of an order
      without one; the amount on the invoice if neither is positive. */
  function BasePrice(row: Payment): int {
    var cents := if row.meta.usd.Some? then row.meta.usd.value else if row.purpose == "order" then row.amount else 0;
    if cents > 0 then cents * 10_000 else row.payAmount
  }

  /** The deposit of this receipt, seen at this head, is good for the invoice row by the settings: it succeeded, lies in
      a known block with enough confirmations, not before the invoice's start block if known, and pays its address the
      amount less 500 micro-units. */
  predicate Meets(r: Receipt, head: nat, row: Payment, required: int, amount: int) {
    var sent := PaidTo(r.logs, NormalizeAddress(row.payAddress));
    && Lower(r.status) in {"0x1", "1"}
    && BlockOf(r) != 0 && head - BlockOf(r) + 1 >= Max(1, required)
    && (row.startBlock != 0 ==> BlockOf(r) >= row.startBlock)
    && sent > 0 && sent >= (amount - 500) * 1_000_000_000_000
  }

  lemma MatchDemandMeets(r: Receipt, head: nat, row: Payment, required: int)
    ensures Backs(r, head, MatchDemand(row, required)) <==> Meets(r, head, row, required, row.payAmount)
  {
    hide PaidTo, NormalizeAddress, BlockOf, Lower;
  }

  lemma HashDemandMeets(r: Receipt, head: nat, row: Payment, required: int)
    ensures Backs(r, head, HashDemand(row, required)) <==> Meets(r, head, row, required, BasePrice(row))
  {
    hide PaidTo, NormalizeAddress, BlockOf, Lower;
  }

  /** The new entry of a check. */
  lemma CheckedSettles(s: State, v: Invoice, hash: string, receipt: Option<Receipt>, head: nat, demand: Demand, i: nat)
    requires var e := OnChecked(s, v, hash, receipt, head, demand);
             |s.log| <= i < |e.log| && SettledBy(e.log[i])
    ensures var e := OnChecked(s, v, hash, receipt, head, demand).log[i];
            && receipt.Some? && Backs(receipt.value, head, demand)
            && e.order == v.order && e.proof == Some(Proof(v.row, hash, receipt.value, head, demand))
  {
    hide Backs, ExtractTxHash, CreditCrypto, Deliver;
    var (d, row) := CreditCrypto(s.db, v.order, hash);
    if row.Some? && receipt.Some? {
      DeliverLogs(s.(db := d), v.order, row.value, Some(Proof(v.row, hash, receipt.value, head, demand)));
    }
  }

  /** What a step that settles an invoice has checked. */
  ghost predicate SettledAfterCheck(s: State, st: Step, e: Event) {
    && EndsCheckOf(s, st) && SettledBy(e)
    && var t, p := TaskAt(s, st.task), e.proof.value;
       && CheckedInvoice(t) == Some(Invoice(e.order, p.seen)) && p.hash == HashOf(t)
       && st.receipt == Some(p.receipt) && st.head == p.head && RequiredBy(t).Some?
       && Meets(p.receipt, p.head, p.seen, RequiredBy(t).value,
                if st.HashChecked? then BasePrice(p.seen) else p.seen.payAmount)
  }

  lemma SettlingStep(s: State, st: Step, i: nat)
    requires |s.log| <= i < |Next(s, st).log| && SettledBy(Next(s, st).log[i])
    ensures SettledAfterCheck(s, st, Next(s, st).log[i])
  {
    NextTraced(s, st);
    hide OnChecked, Backs, Meets, InvoiceStep, WalletStep, StockStep, MatchDemand, HashDemand, BasePrice;
    assert EndsCheckOf(s, st);
    var t := TaskAt(s, st.task);
    if st.MatchChecked? {
      var u := Set(s, st.task, Matching(t.snapshot, t.head, t.required, t.matches));
      var demand := MatchDemand(t.invoice.row, t.required);
      assert Next(s, st) == OnChecked(u, t.invoice, t.hash, st.receipt, st.head, demand);
      CheckedSettles(u, t.invoice, t.hash, st.receipt, st.head, demand, i);
      MatchDemandMeets(st.receipt.value, st.head, t.invoice.row, t.required);
    } else {
      var demand := HashDemand(t.invoice.row, t.required);
      assert Next(s, st) == OnChecked(Set(s, st.task, Done), t.invoice, t.hash, st.receipt, st.head, demand);
      CheckedSettles(Set(s, st.task, Done), t.invoice, t.hash, st.receipt, st.head, demand, i);
      HashDemandMeets(st.receipt.value, st.head, t.invoice.row, t.required);
    }
  }

  /** In every run, every settlement, by the watcher or by a submitted hash, ends a check at step j of a version of its
      invoice, and the receipt it was given meets the settings that an earlier step c of the same task has read: in
      confirmations, start block, address and amount, which is the unique one for the watcher and the base price for a
      submitted hash. */
  lemma {:induction false} SettlementMetSettings(states: seq<State>, steps: seq<Step>, k: nat, i: nat)
    returns (c: nat, j: nat)
    requires IsRun(states, steps) && k <= |steps| && i < |states[k].log| && SettledBy(states[k].log[i])
    ensures c < j < k && SettledAfterCheck(states[j], steps[j], states[k].log[i])
    ensures SettingRead(steps[c], steps[j].task).Some?
    ensures var p := states[k].log[i].proof.value;
            Meets(p.receipt, p.head, p.seen, SettingRead(steps[c], steps[j].task).value,
                  if steps[j].HashChecked? then BasePrice(p.seen) else p.seen.payAmount)
  {
    hide Next, Meets, BasePrice, CheckedInvoice, HashOf, SettingRead, RequiredBy;
    assert k > 0;
    StepTo(states, steps, k);
    NextTraced(states[k - 1], steps[k - 1]);
    if i < |states[k - 1].log| {
      assert states[k].log[i] == states[k - 1].log[i];
      c, j := SettlementMetSettings(states, steps, k - 1, i);
    } else {
      j := k - 1;
      SettlingStep(states[j], steps[j], i);
      c := SettingWasRead(states, steps, j, steps[j].task);
      var p := states[k].log[i].proof.value;
      AtLeast(p.receipt, p.head, p.seen, SettingRead(steps[c], steps[j].task).value,
              if steps[j].HashChecked? then BasePrice(p.seen) else p.seen.payAmount);
    }
  }

  lemma AtLeast(r: Receipt, head: nat, row: Payment, required: int, amount: int)
    ensures Meets(r, head, row, Max(1, required), amount) <==> Meets(r, head, row, required, amount)
  {
    hide PaidTo, NormalizeAddress, BlockOf, Lower;
  }

  /** What the end of a check credits: its own invoice, exactly if a receipt came that meets the settings, the text
      holds a hash, and no other invoice carries it. */
  lemma CheckCreditsIff(s: State, st: Step, order: string)
    requires EndsCheckOf(s, st) && CheckedInvoice(TaskAt(s, st.task)).value.order in s.db.payments
    ensures var t := TaskAt(s, st.task);
            var v := CheckedInvoice(t).value;
            var amount := if st.HashChecked? then BasePrice(v.row) else v.row.payAmount;
            IsCredited(Next(s, st).db, order) <==>
              || IsCredited(s.db, order)
              || (order == v.order && st.receipt.Some? && ExtractTxHash(HashOf(t)) != ""
                  && Meets(st.receipt.value, st.head, v.row, RequiredBy(t).value, amount)
                  && !UsedByOther(s.db, v.order, HashOf(t)))
  {
    hide OnChecked, Backs, Meets, InvoiceStep, WalletStep, StockStep, MatchDemand, HashDemand, BasePrice, ExtractTxHash;
    hide IsCredited, UsedByOther;
    var t := TaskAt(s, st.task);
    if st.MatchChecked? {
      var u := Set(s, st.task, Matching(t.snapshot, t.head, t.required, t.matches));
      CheckedCreditsIff(u, t.invoice, t.hash, st.receipt, st.head, MatchDemand(t.invoice.row, t.required), order);
      if st.receipt.Some? {
        MatchDemandMeets(st.receipt.value, st.head, t.invoice.row, t.required);
      }
    } else {
      CheckedCreditsIff(Set(s, st.task, Done), t.invoice, t.hash, st.receipt, st.head,
                        HashDemand(t.invoice.row, t.required), order);
      if st.receipt.Some? {
        HashDemandMeets(st.receipt.value, st.head, t.invoice.row, t.required);
      }
    }
  }

  lemma CheckedCreditsIff(s: State, v: Invoice, hash: string, receipt: Option<Receipt>, head: nat, demand: Demand,
                          order: string)
    requires v.order in s.db.payments
    ensures IsCredited(OnChecked(s, v, hash, receipt, head, demand).db, order) <==>
              || IsCredited(s.db, order)
              || (order == v.order && receipt.Some? && ExtractTxHash(hash) != "" && Backs(receipt.value, head, demand)
                  && !UsedByOther(s.db, v.order, hash))
  {
    hide Sound, Grows, MetaKept, Backs, ExtractTxHash, Deliver;
    var (d, row) := CreditCrypto(s.db, v.order, hash);
    if row.Some? && receipt.Some? {
      DeliveryKeepsPayments(s.(db := d), v.order, row.value, Some(Proof(v.row, hash, receipt.value, head, demand)));
    }
  }
}
