/** The SQLite tables as values, and each `Database` method as a function on them.
    A method runs under one lock, so each function is one atomic step.
    Money is counted in hundredths; on-chain invoice amounts in micro-USDT. */
module Tables {
  import opened Prelude
  import opened Text

  /** The JSON kept in the `meta` column, already parsed; a missing `usd` is None. */
  datatype Meta = Meta(product: string, digitalSlug: string, usd: Option<int>)

  datatype Payment = Payment(
    tgId: int, amount: int, purpose: string, meta: Meta,
    payMethod: string, payAddress: string, payAmount: int, startBlock: nat, expiresAt: int,
    status: string, invoiceId: string, credited: bool, txHash: string)

  datatype User = User(balance: int, refEarnings: int, referredBy: int)

  datatype Delivery = Link | Account | Manual

  /** A product row; its slug is the key (id and slug are both unique, so they are one key here). */
  datatype Product = Product(price: int, delivery: Delivery)

  datatype StockItem = StockItem(product: string, payload: string, sold: bool, buyer: int, orderId: string)

  datatype Db = Db(
    payments: map<string, Payment>, users: map<int, User>, products: map<string, Product>,
    stock: map<nat, StockItem>, nextStock: nat)

  /** The writable columns of `update_payment`; None leaves a column alone. */
  datatype Patch = Patch(
    payMethod: Option<string>, payAddress: Option<string>, payAmount: Option<int>,
    startBlock: Option<nat>, expiresAt: Option<int>, status: Option<string>,
    invoiceId: Option<string>, meta: Option<Meta>)

  const NO_PATCH := Patch(None, None, None, None, None, None, None, None)
  const EMPTY := Db(map[], map[], map[], map[], 1)

  // --- what every method keeps ------------------------------------------------

  /** Non-empty hashes are lower case, sit on credited rows only, and name one order each. */
  ghost predicate HashesSound(d: Db) {
    && (forall o :: o in d.payments && d.payments[o].txHash != "" ==>
          d.payments[o].credited && Lower(d.payments[o].txHash) == d.payments[o].txHash)
    && (forall o, p | o in d.payments && p in d.payments ::
          d.payments[o].txHash == d.payments[p].txHash != "" ==> o == p)
  }

  /** Each non-empty order holds at most one item; an unsold item belongs to nobody. */
  ghost predicate StockSound(d: Db) {
    && (forall i :: i in d.stock ==> i < d.nextStock && d.stock[i].product in d.products)
    && (forall i :: i in d.stock && !d.stock[i].sold ==> d.stock[i].orderId == "" && d.stock[i].buyer == 0)
    && (forall i, j | i in d.stock && j in d.stock :: d.stock[i].orderId == d.stock[j].orderId != "" ==> i == j)
  }

  ghost predicate Sound(d: Db) {
    HashesSound(d) && StockSound(d)
  }

  /** Payment rows persist with their owner, amount and purpose; a credit and a written hash are for ever. */
  ghost predicate PaymentsGrow(d: Db, e: Db) {
    forall o :: o in d.payments ==>
      && o in e.payments
      && e.payments[o].tgId == d.payments[o].tgId
      && e.payments[o].amount == d.payments[o].amount
      && e.payments[o].purpose == d.payments[o].purpose
      && (d.payments[o].credited ==> e.payments[o].credited)
      && (d.payments[o].txHash != "" ==> e.payments[o].txHash == d.payments[o].txHash)
  }

  /** Item ids are never reused, and a sold item never reverts or changes buyer. */
  ghost predicate StockGrows(d: Db, e: Db) {
    && d.nextStock <= e.nextStock
    && (forall i :: i in e.stock && i < d.nextStock ==>
          i in d.stock && e.stock[i].product == d.stock[i].product && e.stock[i].payload == d.stock[i].payload
          && (d.stock[i].sold ==> e.stock[i] == d.stock[i]))
  }

  ghost predicate Grows(d: Db, e: Db) {
    PaymentsGrow(d, e) && StockGrows(d, e)
  }

  ghost predicate MetaKept(d: Db, e: Db) {
    forall o :: o in d.payments ==> o in e.payments && e.payments[o].meta == d.payments[o].meta
  }

  /** Nothing but rows other than payments may differ. */
  ghost predicate PaymentsSame(d: Db, e: Db) {
    e.payments == d.payments
  }

  lemma GrowsTransitive(d: Db, e: Db, f: Db)
    requires Grows(d, e) && Grows(e, f)
    ensures Grows(d, f)
  {
  }

  lemma Untouched(d: Db)
    ensures Grows(d, d) && MetaKept(d, d)
  {
  }

  /** Two changes in a row. */
  lemma Then(d: Db, e: Db, f: Db)
    requires Grows(d, e) && Grows(e, f)
    requires (MetaKept(d, e) || PaymentsSame(d, e)) && (MetaKept(e, f) || PaymentsSame(e, f))
    ensures Grows(d, f) && MetaKept(d, f)
  {
    hide StockGrows;
    GrowsTransitive(d, e, f);
  }

  // --- payments ---------------------------------------------------------------

  predicate IsCredited(d: Db, order: string) {
    order in d.payments && d.payments[order].credited
  }

  predicate WaitingCrypto(p: Payment) {
    p.payMethod == "crypto" && !p.credited && p.status == "waiting"
  }

  /** The columns an INSERT never sets start at their defaults. */
  function Fresh(row: Payment): Payment {
    row.(status := "waiting", invoiceId := "", credited := false, txHash := "")
  }

  /** INSERT; the UNIQUE order id refuses a second row. */
  function CreatePayment(d: Db, order: string, row: Payment): (e: Db)
    ensures Sound(d) ==> Sound(e)
    ensures Grows(d, e) && MetaKept(d, e)
  {
    if order in d.payments then d else d.(payments := d.payments[order := Fresh(row)])
  }

  function TxHashUsed(d: Db, txHash: string): (used: bool) {
    exists o :: o in d.payments && d.payments[o].txHash == Lower(txHash) && d.payments[o].txHash != ""
  }

  function CreditCrypto(d: Db, order: string, txHash: string): (r: (Db, Option<Payment>))
    ensures Sound(d) ==> Sound(r.0) && Grows(d, r.0)
    ensures MetaKept(d, r.0)
  {
    var tx := Lower(txHash);
    LowerIdempotent(txHash);
    if exists o :: o in d.payments && o != order && d.payments[o].txHash == tx && tx != "" then (d, None)
    else if order !in d.payments || d.payments[order].credited then (d, None)
    else
      var row := d.payments[order].(credited := true, status := "finished", txHash := tx);
      (d.(payments := d.payments[order := row]), Some(row))
  }

  function CreditOnce(d: Db, order: string): (r: (Db, Option<Payment>))
    ensures Sound(d) ==> Sound(r.0)
    ensures Grows(d, r.0) && MetaKept(d, r.0)
  {
    if order !in d.payments || d.payments[order].credited then (d, None)
    else
      var row := d.payments[order].(credited := true);
      (d.(payments := d.payments[order := row]), Some(row))
  }

  predicate Stale(p: Payment, now: int) {
    WaitingCrypto(p) && 0 < p.expiresAt < now
  }

  function ExpireStale(d: Db, now: int): (e: Db)
    ensures Sound(d) ==> Sound(e)
    ensures Grows(d, e) && MetaKept(d, e)
  {
    d.(payments := map o | o in d.payments ::
         if Stale(d.payments[o], now) then d.payments[o].(status := "expired") else d.payments[o])
  }

  function Patched(p: Payment, patch: Patch): Payment {
    p.(payMethod := Or(patch.payMethod, p.payMethod), payAddress := Or(patch.payAddress, p.payAddress),
       payAmount := Or(patch.payAmount, p.payAmount), startBlock := Or(patch.startBlock, p.startBlock),
       expiresAt := Or(patch.expiresAt, p.expiresAt), status := Or(patch.status, p.status),
       invoiceId := Or(patch.invoiceId, p.invoiceId), meta := Or(patch.meta, p.meta))
  }

  function Or<T>(o: Option<T>, other: T): T {
    if o.Some? then o.value else other
  }

  function UpdatePayment(d: Db, order: string, patch: Patch): (e: Db)
    ensures Sound(d) ==> Sound(e)
    ensures Grows(d, e) && (patch.meta.None? ==> MetaKept(d, e))
  {
    if order in d.payments then d.(payments := d.payments[order := Patched(d.payments[order], patch)]) else d
  }

  function SetStatus(d: Db, order: string, status: string, invoiceId: Option<string>): (e: Db)
    ensures Sound(d) ==> Sound(e)
    ensures Grows(d, e) && MetaKept(d, e)
  {
    UpdatePayment(d, order, NO_PATCH.(status := Some(status), invoiceId := invoiceId))
  }

  // --- wallet -----------------------------------------------------------------

  function UserOf(d: Db, u: int): User {
    if u in d.users then d.users[u] else User(0, 0, 0)
  }

  function Balance(d: Db, u: int): int {
    UserOf(d, u).balance
  }

  function AddBalance(d: Db, u: int, amount: int): (e: Db)
    ensures Sound(d) ==> Sound(e)
    ensures Grows(d, e) && PaymentsSame(d, e)
  {
    var row := UserOf(d, u);
    d.(users := d.users[u := row.(balance := row.balance + amount)])
  }

  function TryDeduct(d: Db, u: int, amount: int): (r: (Db, bool))
    ensures Sound(d) ==> Sound(r.0)
    ensures Grows(d, r.0) && PaymentsSame(d, r.0)
  {
    var row := UserOf(d, u);
    if row.balance >= amount then (d.(users := d.users[u := row.(balance := row.balance - amount)]), true)
    else (d.(users := d.users[u := row]), false)
  }

  function AddRefEarning(d: Db, u: int, amount: int): (e: Db)
    ensures Sound(d) ==> Sound(e)
    ensures Grows(d, e) && PaymentsSame(d, e)
  {
    var row := UserOf(d, u);
    d.(users := d.users[u := row.(balance := row.balance + amount, refEarnings := row.refEarnings + amount)])
  }

  function SetReferrer(d: Db, u: int, referrer: int): (e: Db)
    ensures Sound(d) ==> Sound(e)
    ensures Grows(d, e) && PaymentsSame(d, e)
  {
    if referrer <= 0 || referrer == u then d
    else
      var row := UserOf(d, u);
      var both := d.users[u := row][referrer := UserOf(d, referrer)];
      d.(users := both[u := if row.referredBy == 0 then row.(referredBy := referrer) else row])
  }

  // --- digital stock ------------------------------------------------------------

  function CreateProduct(d: Db, slug: string, product: Product): (e: Db)
    ensures Sound(d) ==> Sound(e)
    ensures Grows(d, e) && PaymentsSame(d, e)
  {
    if slug in d.products then d else d.(products := d.products[slug := product])
  }

  /** ON DELETE CASCADE takes the product's stock with it. */
  function DeleteProduct(d: Db, slug: string): (e: Db)
    ensures Sound(d) ==> Sound(e)
    ensures Grows(d, e) && PaymentsSame(d, e)
  {
    d.(products := d.products - {slug},
       stock := map i | i in d.stock && d.stock[i].product != slug :: d.stock[i])
  }

  predicate Available(d: Db, i: nat, slug: string) {
    i in d.stock && d.stock[i].product == slug && !d.stock[i].sold
  }

  /** The lowest available id of the product that is at least `from`. */
  function LowestAvailable(d: Db, slug: string, from: nat): (r: Option<nat>)
    ensures r.Some? ==> from <= r.value && Available(d, r.value, slug)
    ensures forall i :: from <= i < (if r.Some? then r.value else d.nextStock) ==> !Available(d, i, slug)
    decreases d.nextStock - from
  {
    if from >= d.nextStock then None
    else if Available(d, from, slug) then Some(from)
    else LowestAvailable(d, slug, from + 1)
  }

  function HeldBy(d: Db, order: string, from: nat): (r: Option<nat>)
    ensures r.Some? ==> from <= r.value && r.value in d.stock && d.stock[r.value].orderId == order
    ensures forall i :: from <= i < (if r.Some? then r.value else d.nextStock) ==>
              !(i in d.stock && d.stock[i].orderId == order)
    decreases d.nextStock - from
  {
    if from >= d.nextStock then None
    else if from in d.stock && d.stock[from].orderId == order then Some(from)
    else HeldBy(d, order, from + 1)
  }

  function ClaimStock(d: Db, slug: string, buyer: int, order: string): (r: (Db, Option<nat>))
    ensures Sound(d) ==> Sound(r.0)
    ensures Grows(d, r.0) && PaymentsSame(d, r.0)
  {
    var existing := HeldBy(d, order, 0);
    if order != "" && existing.Some? then (d, existing)
    else
      var id := LowestAvailable(d, slug, 0);
      if id.None? then (d, None)
      else
        var item := d.stock[id.value].(sold := true, buyer := buyer, orderId := order);
        (d.(stock := d.stock[id.value := item]), id)
  }

  /** Inserts the non-blank payloads; a missing product makes the first INSERT fail and adds nothing. */
  function AddStock(d: Db, slug: string, payloads: seq<string>): (r: (Db, nat))
    ensures Sound(d) ==> Sound(r.0)
    ensures Grows(d, r.0) && PaymentsSame(d, r.0) && r.0.users == d.users && r.0.products == d.products
  {
    if payloads == [] || slug !in d.products then (d, 0)
    else
      var (e, n) := AddStock(d, slug, payloads[..|payloads| - 1]);
      var text := Strip(payloads[|payloads| - 1]);
      if text == "" then (e, n)
      else (e.(stock := e.stock[e.nextStock := StockItem(slug, text, false, 0, "")], nextStock := e.nextStock + 1),
            n + 1)
  }

  function ClearAvailable(d: Db, slug: string): (r: (Db, nat))
    ensures Sound(d) ==> Sound(r.0)
    ensures Grows(d, r.0) && PaymentsSame(d, r.0)
  {
    var gone := set i | i in d.stock && Available(d, i, slug);
    (d.(stock := d.stock - gone), |gone|)
  }
}
