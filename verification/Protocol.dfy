/** The payment protocol: handlers as tasks cut at their awaits, over shared tables. A step runs one task (or one
    await-free handler) from one cut to the next; replies of the RPC, the gateways and the panel, random draws,
    clocks and settings are arguments of the step. */
module Protocol {
  import opened Prelude
  import opened Tables
  import opened Chain
  import opened Watcher
  import opened Handlers

  /** What a settled deposit was checked with; `seen` is the invoice as it was read before the check. */
  datatype Proof = Proof(seen: Payment, hash: string, receipt: Receipt, head: nat, demand: Demand)

  datatype Task =
    | Done
    | CreatingInvoice(order: string)
    | AskedCrypto(order: string)
    | ChoseAmount(order: string, wallet: string, amount: int)
    | AskedGateway(order: string, hoosh: bool)
    | Scanning(snapshot: seq<Invoice>)
    | Matching(snapshot: seq<Invoice>, head: nat, required: int, matches: seq<Transfer>)
    | CheckingMatch(snapshot: seq<Invoice>, head: nat, required: int, matches: seq<Transfer>, hash: string,
                    invoice: Invoice)
    | Submitted(invoice: Invoice, hash: string)
    | CheckingHash(invoice: Invoice, hash: string, required: int)
    | AskedWallet(invoice: Invoice, user: int)
    | DeliveringBought(user: int, price: int, delivered: bool)
    | DeliveringPaid(user: int, outcome: Outcome)
    | Renewing(user: int, price: int, fromWallet: bool)

  /** The history that the safety properties speak about. */
  datatype Event =
    | Credited(order: string, row: Payment, wallet: bool, proof: Option<Proof>)
    | DeliveryStarted(order: string)
    | Bought(user: int, price: int)
    | Rewarded(user: int, amount: int)
    | Adjusted(user: int, amount: int)

  datatype State = State(db: Db, tasks: seq<Task>, log: seq<Event>)

  const INITIAL := State(EMPTY, [], [])

  datatype Step =
    // invoices
    | Create(order: string, user: int, amount: int, purpose: string, meta: Meta, viaGateway: bool)
    | InvoiceCreated(task: nat, ok: bool, invoice: string)
    | Callback(signed: bool, hoosh: bool, order: string, status: string, invoice: string)
    | Cancel(order: string, user: int)
    | AskCrypto(order: string, user: int)
    | Choose(task: nat, wallet: string, draws: seq<int>, fallback: int)
    | Store(task: nat, head: nat, expiresAt: int)
    | AskGateway(order: string, user: int, hoosh: bool)
    | GatewayReplied(task: nat, ok: bool, invoice: string, payable: int)
    // deposits
    | Tick(now: int)
    | Scanned(task: nat, head: nat, required: int, matches: seq<Transfer>)
    | TakeMatch(task: nat)
    | MatchChecked(task: nat, receipt: Option<Receipt>, head: nat)
    | Submit(order: string, user: int, text: string)
    | CheckHash(task: nat, required: int)
    | HashChecked(task: nat, receipt: Option<Receipt>, head: nat)
    // wallet and delivery
    | AskWallet(order: string, user: int)
    | PayWallet(task: nat, price: int)
    | BoughtDelivered(task: nat, reward: int)
    | PaidDelivered(task: nat, panelOk: bool, reward: int)
    | Renew(user: int, price: int, fromWallet: bool)
    | Renewed(task: nat, ok: bool)
    | Adjust(user: int, amount: int)
    | Refer(user: int, referrer: int)
    // stock
    | AddProduct(slug: string, product: Product)
    | DropProduct(slug: string)
    | Restock(slug: string, payloads: seq<string>)
    | ClearStock(slug: string)
    | AdminTake(slug: string, user: int, order: string)

  // --- prices -----------------------------------------------------------------------

  /** `_payment_usd`, in cents. */
  function PaymentUsd(p: Payment): int {
    if p.meta.usd.Some? then p.meta.usd.value else if p.purpose == "order" then p.amount else 0
  }

  /** Micro-USDT in one cent. */
  const CENT := 10_000
  const MAX_DRAWS := 400

  function UsedAmounts(d: Db): set<int> {
    set o | o in d.payments && WaitingCrypto(d.payments[o]) :: d.payments[o].payAmount
  }

  /** `_unique_pay_amount`: the first draw, of at most 400, whose amount is unused; else the unchecked fallback. */
  function UniquePayAmount(cents: int, used: set<int>, draws: seq<int>, fallback: int): int {
    if draws == [] then cents * CENT + fallback
    else if cents * CENT + draws[0] !in used then cents * CENT + draws[0]
    else UniquePayAmount(cents, used, draws[1..], fallback)
  }

  /** The ranges of the two random draws. */
  predicate DrawsInRange(draws: seq<int>, fallback: int) {
    |draws| == MAX_DRAWS && (forall k :: 0 <= k < |draws| ==> 11 <= draws[k] <= 999) && 1000 <= fallback <= 999999
  }

  // --- steps ---------------------------------------------------------------------------

  function TaskAt(s: State, i: nat): Task {
    if i < |s.tasks| then s.tasks[i] else Done
  }

  function Set(s: State, i: nat, t: Task): State {
    if i < |s.tasks| then s.(tasks := s.tasks[i := t]) else s
  }

  function Spawn(s: State, t: Task): State {
    s.(tasks := s.tasks + [t])
  }

  function Emit(s: State, e: Event): State {
    s.(log := s.log + [e])
  }

  /** The caller owns the invoice and it is not paid yet. */
  predicate Payable(d: Db, order: string, user: int) {
    order in d.payments && d.payments[order].tgId == user && !d.payments[order].credited
  }

  /** From a credit by a gateway or a deposit to the first await of the delivery. */
  function Deliver(s: State, order: string, row: Payment, proof: Option<Proof>): State {
    var (d, outcome) := Fulfil(s.db, order, row);
    var t := Emit(Emit(s.(db := d), Credited(order, row, false, proof)), DeliveryStarted(order));
    if outcome.ToppedUp? then t else Spawn(t, DeliveringPaid(row.tgId, outcome))
  }

  lemma DeliveryKeepsPayments(s: State, order: string, row: Payment, proof: Option<Proof>)
    ensures Deliver(s, order, row, proof).db.payments == s.db.payments
  {
    hide Sound, Grows;
  }

  function OnCallback(s: State, hoosh: bool, order: string, status: string, invoice: string): State {
    var (d, row) := Handlers.Callback(s.db, if hoosh then HOOSHPAY_PAID else NOWPAYMENTS_PAID, order, status, invoice);
    if row.None? then s.(db := d) else Deliver(s.(db := d), order, row.value, None)
  }

  function OnChoose(s: State, i: nat, order: string, wallet: string, draws: seq<int>, fallback: int): State {
    if order !in s.db.payments || !IsAddress(wallet) || PaymentUsd(s.db.payments[order]) <= 0
       || !DrawsInRange(draws, fallback) then Set(s, i, Done)
    else
      var amount := UniquePayAmount(PaymentUsd(s.db.payments[order]), UsedAmounts(s.db), draws, fallback);
      Set(s, i, ChoseAmount(order, wallet, amount))
  }

  function CryptoPatch(wallet: string, amount: int, head: nat, expiresAt: int): Patch {
    Patch(Some("crypto"), Some(wallet), Some(amount), Some(head), Some(expiresAt), Some("waiting"), None, None)
  }

  function GatewayPatch(hoosh: bool, ok: bool, invoice: string, payable: int): Patch {
    var p := NO_PATCH.(payMethod := Some(if hoosh then "hooshpay" else "nowpayments"));
    if !ok then p.(status := Some("failed"))
    else
      var q := p.(status := Some("waiting"), invoiceId := Some(invoice));
      if hoosh then q.(payAmount := Some(payable)) else q
  }

  ghost predicate IsSnapshot(d: Db, snapshot: seq<Invoice>) {
    && (forall v :: v in snapshot ==> v.order in d.payments && d.payments[v.order] == v.row && WaitingCrypto(v.row))
    && (forall o :: o in d.payments && WaitingCrypto(d.payments[o]) ==> Invoice(o, d.payments[o]) in snapshot)
  }

  /** The waiting invoices in some order (SQL promises none). */
  ghost function WaitingInvoices(d: Db): (snapshot: seq<Invoice>)
    ensures IsSnapshot(d, snapshot)
  {
    var waiting := set o | o in d.payments && WaitingCrypto(d.payments[o]) :: Invoice(o, d.payments[o]);
    var snapshot := ListOf(waiting);
    snapshot
  }

  ghost function ListOf(s: set<Invoice>): (r: seq<Invoice>)
    ensures forall x :: x in r <==> x in s
  {
    if s == {} then [] else var x :| x in s; [x] + ListOf(s - {x})
  }

  ghost function OnTick(s: State, now: int): State {
    var d := ExpireStale(s.db, now);
    var waiting := WaitingInvoices(d);
    if waiting == [] then s.(db := d) else Spawn(s.(db := d), Scanning(waiting))
  }

  /** The demand a watched deposit must meet: the invoice as it was in the snapshot. */
  function MatchDemand(row: Payment, required: int): Demand {
    Demand(row.payAddress, row.payAmount, required, row.startBlock)
  }

  /** The demand for a hash sent by the user: the base price counts, not the unique amount. */
  function HashDemand(row: Payment, required: int): Demand {
    Demand(row.payAddress, if PaymentUsd(row) > 0 then PaymentUsd(row) * CENT else row.payAmount, required,
           row.startBlock)
  }

  function OnTakeMatch(s: State, i: nat, t: Task): State
    requires t.Matching?
  {
    if t.matches == [] then Set(s, i, Done)
    else
      var m, rest := t.matches[0], Matching(t.snapshot, t.head, t.required, t.matches[1..]);
      var found := FindPayment(t.snapshot, m);
      if t.head - m.block + 1 < t.required || TxHashUsed(s.db, m.txHash) || found.None? then Set(s, i, rest)
      else Set(s, i, CheckingMatch(t.snapshot, t.head, t.required, t.matches[1..], m.txHash, found.value))
  }

  /** Settlement once the receipt is in: credit the hash, then deliver. */
  function OnChecked(s: State, invoice: Invoice, hash: string, receipt: Option<Receipt>, head: nat,
                     demand: Demand): State {
    if ExtractTxHash(hash) == "" || receipt.None? || !Backs(receipt.value, head, demand) then s
    else
      var (d, row) := CreditCrypto(s.db, invoice.order, hash);
      if row.None? then s.(db := d)
      else Deliver(s.(db := d), invoice.order, row.value, Some(Proof(invoice.row, hash, receipt.value, head, demand)))
  }

  function OnPayWallet(s: State, i: nat, invoice: Invoice, user: int, price: int): State {
    var (d, r) := WalletPurchase(s.db, invoice.order, invoice.row, user, price);
    var t := s.(db := d);
    if !r.Paid? then Set(t, i, Done)
    else Set(Emit(Emit(t, Credited(invoice.order, r.row, true, None)), DeliveryStarted(invoice.order)),
             i, DeliveringBought(user, price, r.delivered))
  }

  function OnReward(s: State, buyer: int, reward: int): State {
    var t := s.(db := Reward(s.db, buyer, reward));
    var who := RewardedUser(s.db, buyer, reward);
    if who.None? then t else Emit(t, Rewarded(who.value, reward))
  }

  function OnBoughtDelivered(s: State, i: nat, t: Task, reward: int): State
    requires t.DeliveringBought?
  {
    if t.delivered then OnReward(Emit(Set(s, i, Done), Bought(t.user, t.price)), t.user, reward)
    else Set(s.(db := AddBalance(s.db, t.user, t.price)), i, Done)
  }

  function OnPaidDelivered(s: State, i: nat, t: Task, panelOk: bool, reward: int): State
    requires t.DeliveringPaid?
  {
    if t.outcome.Delivered? || (t.outcome.Building? && panelOk) then OnReward(Set(s, i, Done), t.user, reward)
    else Set(s, i, Done)
  }

  function OnRenew(s: State, user: int, price: int, fromWallet: bool): State {
    if !fromWallet then Spawn(s, Renewing(user, price, false))
    else
      var (d, ok) := TryDeduct(s.db, user, price);
      if ok then Spawn(s.(db := d), Renewing(user, price, true)) else s.(db := d)
  }

  function OnRenewed(s: State, i: nat, t: Task, ok: bool): State
    requires t.Renewing?
  {
    if !t.fromWallet then Set(s, i, Done)
    else if ok then Emit(Set(s, i, Done), Bought(t.user, t.price))
    else Set(s.(db := AddBalance(s.db, t.user, t.price)), i, Done)
  }

  ghost function InvoiceStep(s: State, st: Step): State {
    match st
    case Create(order, user, amount, purpose, meta, viaGateway) =>
      if amount <= 0 || (meta.usd.Some? && meta.usd.value <= 0) || order in s.db.payments then s
      else
        var row := Payment(
          user, amount, purpose, meta, if viaGateway then "nowpayments" else "", "", 0, 0, 0, "", "", false, "");
        var t := s.(db := CreatePayment(s.db, order, row));
        if viaGateway then Spawn(t, CreatingInvoice(order)) else t
    case InvoiceCreated(i, ok, invoice) =>
      (match TaskAt(s, i)
       case CreatingInvoice(order) =>
         var d := if ok then SetStatus(s.db, order, "waiting", Some(invoice))
             else SetStatus(s.db, order, "failed", None);
         Set(s.(db := d), i, Done)
       case _ => s)
    case Callback(signed, hoosh, order, status, invoice) =>
      if signed then OnCallback(s, hoosh, order, status, invoice) else s
    case Cancel(order, user) =>
      if Payable(s.db, order, user) then s.(db := SetStatus(s.db, order, "cancelled", None)) else s
    case AskCrypto(order, user) => if Payable(s.db, order, user) then Spawn(s, AskedCrypto(order)) else s
    case Choose(i, wallet, draws, fallback) =>
      (match TaskAt(s, i) case AskedCrypto(order) => OnChoose(s, i, order, wallet, draws, fallback) case _ => s)
    case Store(i, head, expiresAt) =>
      (match TaskAt(s, i)
       case ChoseAmount(order, wallet, amount) =>
         Set(s.(db := UpdatePayment(s.db, order, CryptoPatch(wallet, amount, head, expiresAt))), i, Done)
       case _ => s)
    case AskGateway(order, user, hoosh) =>
      if Payable(s.db, order, user) then Spawn(s, AskedGateway(order, hoosh)) else s
    case GatewayReplied(i, ok, invoice, payable) =>
      (match TaskAt(s, i)
       case AskedGateway(order, hoosh) =>
         Set(s.(db := UpdatePayment(s.db, order, GatewayPatch(hoosh, ok, invoice, payable))), i, Done)
       case _ => s)
    case _ => s
  }

  ghost function DepositStep(s: State, st: Step): State {
    match st
    case Tick(now) => OnTick(s, now)
    case Scanned(i, head, required, matches) =>
      (match TaskAt(s, i)
       case Scanning(snapshot) =>
         Set(s, i, if head == 0 then Done else Matching(snapshot, head, AtLeastOne(required), matches))
       case _ => s)
    case TakeMatch(i) => if TaskAt(s, i).Matching? then OnTakeMatch(s, i, TaskAt(s, i)) else s
    case MatchChecked(i, receipt, head) =>
      (match TaskAt(s, i)
       case CheckingMatch(snapshot, h, required, matches, hash, invoice) =>
         OnChecked(Set(s, i, Matching(snapshot, h, required, matches)), invoice, hash, receipt, head,
                   MatchDemand(invoice.row, required))
       case _ => s)
    case Submit(order, user, text) =>
      if ExtractTxHash(text) == "" || !Payable(s.db, order, user) then s
      else Spawn(s, Submitted(Invoice(order, s.db.payments[order]), ExtractTxHash(text)))
    case CheckHash(i, required) =>
      (match TaskAt(s, i)
       case Submitted(invoice, hash) =>
         Set(s, i, if TxHashUsed(s.db, hash) then Done else CheckingHash(invoice, hash, AtLeastOne(required)))
       case _ => s)
    case HashChecked(i, receipt, head) =>
      (match TaskAt(s, i)
       case CheckingHash(invoice, hash, required) =>
         OnChecked(Set(s, i, Done), invoice, hash, receipt, head, HashDemand(invoice.row, required))
       case _ => s)
    case _ => s
  }

  function WalletStep(s: State, st: Step): State {
    match st
    case AskWallet(order, user) =>
      if Payable(s.db, order, user) then Spawn(s, AskedWallet(Invoice(order, s.db.payments[order]), user)) else s
    case PayWallet(i, price) =>
      (match TaskAt(s, i) case AskedWallet(invoice, user) => OnPayWallet(s, i, invoice, user, price) case _ => s)
    case BoughtDelivered(i, reward) =>
      if TaskAt(s, i).DeliveringBought? then OnBoughtDelivered(s, i, TaskAt(s, i), reward) else s
    case PaidDelivered(i, panelOk, reward) =>
      if TaskAt(s, i).DeliveringPaid? then OnPaidDelivered(s, i, TaskAt(s, i), panelOk, reward) else s
    case Renew(user, price, fromWallet) => OnRenew(s, user, price, fromWallet)
    case Renewed(i, ok) => if TaskAt(s, i).Renewing? then OnRenewed(s, i, TaskAt(s, i), ok) else s
    case Adjust(user, amount) => Emit(s.(db := AddBalance(s.db, user, amount)), Adjusted(user, amount))
    case Refer(user, referrer) => s.(db := SetReferrer(s.db, user, referrer))
    case _ => s
  }

  function StockStep(s: State, st: Step): State {
    match st
    case AddProduct(slug, product) => s.(db := CreateProduct(s.db, slug, product))
    case DropProduct(slug) => s.(db := DeleteProduct(s.db, slug))
    case Restock(slug, payloads) => s.(db := AddStock(s.db, slug, payloads).0)
    case ClearStock(slug) => s.(db := ClearAvailable(s.db, slug).0)
    case AdminTake(slug, user, order) => s.(db := DeliverDigital(s.db, slug, user, order).0)
    case _ => s
  }

  predicate AboutInvoices(st: Step) {
    st.Create? || st.InvoiceCreated? || st.Callback? || st.Cancel? || st.AskCrypto? || st.Choose? || st.Store?
    || st.AskGateway? || st.GatewayReplied?
  }

  predicate AboutDeposits(st: Step) {
    st.Tick? || st.Scanned? || st.TakeMatch? || st.MatchChecked? || st.Submit? || st.CheckHash? || st.HashChecked?
  }

  predicate AboutStock(st: Step) {
    st.AddProduct? || st.DropProduct? || st.Restock? || st.ClearStock? || st.AdminTake?
  }

  ghost function Next(s: State, st: Step): State {
    if AboutInvoices(st) then InvoiceStep(s, st)
    else if AboutDeposits(st) then DepositStep(s, st)
    else if AboutStock(st) then StockStep(s, st)
    else WalletStep(s, st)
  }

  /** A run: from the initial state, step k leads from state k to state k + 1. Any interleaving of any handlers with
      any replies is one. */
  ghost predicate IsRun(states: seq<State>, steps: seq<Step>) {
    && |states| == |steps| + 1 && states[0] == INITIAL
    && forall k :: 0 <= k < |steps| ==> states[k + 1] == Next(states[k], steps[k])
  }

  lemma StepTo(states: seq<State>, steps: seq<Step>, k: nat)
    requires IsRun(states, steps) && 0 < k <= |steps|
    ensures states[k] == Next(states[k - 1], steps[k - 1])
  {
    hide Next;
    assert steps[k - 1] in steps;
  }
}
