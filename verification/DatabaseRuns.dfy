/** Safety of the database under every sequence of method calls with any arguments. As each method is
    atomic, this covers every interleaving of every caller. */
module DatabaseRuns {
  import opened Prelude
  import opened Tables
  import opened Text

  datatype Call =
    | CreatePaymentCall(order: string, row: Payment)
    | CreditCryptoCall(order: string, txHash: string)
    | CreditOnceCall(order: string)
    | ExpireStaleCall(now: int)
    | UpdatePaymentCall(order: string, patch: Patch)
    | SetStatusCall(order: string, status: string, invoiceId: Option<string>)
    | AddBalanceCall(user: int, amount: int)
    | TryDeductCall(user: int, amount: int)
    | AddRefEarningCall(user: int, amount: int)
    | SetReferrerCall(user: int, referrer: int)
    | CreateProductCall(slug: string, product: Product)
    | DeleteProductCall(slug: string)
    | ClaimStockCall(slug: string, user: int, order: string)
    | AddStockCall(slug: string, payloads: seq<string>)
    | ClearAvailableCall(slug: string)

  function Apply(d: Db, c: Call): (e: Db)
    ensures Sound(d) ==> Sound(e) && Grows(d, e)
  {
    match c
    case CreatePaymentCall(order, row) => CreatePayment(d, order, row)
    case CreditCryptoCall(order, txHash) => CreditCrypto(d, order, txHash).0
    case CreditOnceCall(order) => CreditOnce(d, order).0
    case ExpireStaleCall(now) => ExpireStale(d, now)
    case UpdatePaymentCall(order, patch) => UpdatePayment(d, order, patch)
    case SetStatusCall(order, status, invoiceId) => SetStatus(d, order, status, invoiceId)
    case AddBalanceCall(user, amount) => AddBalance(d, user, amount)
    case TryDeductCall(user, amount) => TryDeduct(d, user, amount).0
    case AddRefEarningCall(user, amount) => AddRefEarning(d, user, amount)
    case SetReferrerCall(user, referrer) => SetReferrer(d, user, referrer)
    case CreateProductCall(slug, product) => CreateProduct(d, slug, product)
    case DeleteProductCall(slug) => DeleteProduct(d, slug)
    case ClaimStockCall(slug, user, order) => ClaimStock(d, slug, user, order).0
    case AddStockCall(slug, payloads) => AddStock(d, slug, payloads).0
    case ClearAvailableCall(slug) => ClearAvailable(d, slug).0
  }

  /** Call k leads from tables k to tables k + 1, starting from empty tables. */
  ghost predicate IsHistory(dbs: seq<Db>, calls: seq<Call>) {
    && |dbs| == |calls| + 1 && dbs[0] == EMPTY
    && forall k :: 0 <= k < |calls| ==> dbs[k + 1] == Apply(dbs[k], calls[k])
  }

  lemma CallTo(dbs: seq<Db>, calls: seq<Call>, k: nat)
    requires IsHistory(dbs, calls) && 0 < k <= |calls|
    ensures dbs[k] == Apply(dbs[k - 1], calls[k - 1])
  {
    hide Apply;
    assert calls[k - 1] in calls;
  }

  /** Whether this call hands its caller the payment row of `order` as newly credited. */
  predicate Credits(d: Db, c: Call, order: string) {
    match c
    case CreditCryptoCall(o, txHash) => o == order && CreditCrypto(d, o, txHash).1.Some?
    case CreditOnceCall(o) => o == order && CreditOnce(d, o).1.Some?
    case _ => false
  }

  /** How many of the first k calls handed out `order` as newly credited. */
  function CreditResults(dbs: seq<Db>, calls: seq<Call>, k: nat, order: string): nat
    requires k <= |calls| < |dbs|
  {
    if k == 0 then 0
    else CreditResults(dbs, calls, k - 1, order) + if Credits(dbs[k - 1], calls[k - 1], order) then 1 else 0
  }

  /** Tables stay sound, and from any point to any later one they only grow. */
  lemma {:induction false} HistoriesGrow(dbs: seq<Db>, calls: seq<Call>, j: nat, k: nat)
    requires IsHistory(dbs, calls) && j <= k <= |calls|
    ensures Sound(dbs[k]) && Grows(dbs[j], dbs[k])
    decreases k
  {
    hide Apply;
    if k > 0 {
      HistoriesGrow(dbs, calls, if j == k then j - 1 else j, k - 1);
      CallTo(dbs, calls, k);
      if j < k {
        GrowsTransitive(dbs[j], dbs[k - 1], dbs[k]);
      }
    }
  }

  lemma CreditStep(d: Db, c: Call, order: string)
    ensures IsCredited(Apply(d, c), order) <==> IsCredited(d, order) || Credits(d, c, order)
    ensures Credits(d, c, order) ==> !IsCredited(d, order)
  {
    hide Sound, Grows, MetaKept;
    match c
    case ExpireStaleCall(now) =>
    case AddStockCall(slug, payloads) =>
    case _ =>
  }

  /** However the callers interleave, an order is handed out as credited exactly once if its row is
      credited and never otherwise. */
  lemma {:induction false} CreditedExactlyOnce(dbs: seq<Db>, calls: seq<Call>, k: nat, order: string)
    requires IsHistory(dbs, calls) && k <= |calls|
    ensures CreditResults(dbs, calls, k, order) == if IsCredited(dbs[k], order) then 1 else 0
  {
    hide Sound, Grows, Apply, Credits;
    if k > 0 {
      CreditedExactlyOnce(dbs, calls, k - 1, order);
      CallTo(dbs, calls, k);
      CreditStep(dbs[k - 1], calls[k - 1], order);
    }
  }

  /** A hash, once written, stays on its order, is lower case, and never settles another order. */
  lemma HashSettlesOneOrderForever(dbs: seq<Db>, calls: seq<Call>, j: nat, k: nat, o: string, p: string)
    requires IsHistory(dbs, calls) && j <= k <= |calls|
    requires o in dbs[j].payments && dbs[j].payments[o].txHash != ""
    requires p in dbs[k].payments && dbs[k].payments[p].txHash == dbs[j].payments[o].txHash
    ensures p == o && IsCredited(dbs[k], o) && Lower(dbs[k].payments[o].txHash) == dbs[k].payments[o].txHash
  {
    hide Apply;
    HistoriesGrow(dbs, calls, j, k);
  }

  /** An item once sold to an order belongs, wherever it still exists, to that order and buyer, and no other
      item ever goes to that order while it does. */
  lemma ItemSoldOnce(dbs: seq<Db>, calls: seq<Call>, j: nat, k: nat, i: nat, other: nat)
    requires IsHistory(dbs, calls) && j <= k <= |calls|
    requires i in dbs[j].stock && dbs[j].stock[i].sold && dbs[j].stock[i].orderId != ""
    requires i in dbs[k].stock && other in dbs[k].stock && dbs[k].stock[other].orderId == dbs[j].stock[i].orderId
    ensures other == i && dbs[k].stock[i] == dbs[j].stock[i]
  {
    hide Apply;
    HistoriesGrow(dbs, calls, 0, j);
    HistoriesGrow(dbs, calls, j, k);
  }

  /** Expiry ends exactly the waiting, uncredited crypto invoices whose expiry is known and has passed, leaves no
      overdue invoice waiting, and changes no other column or row. */
  lemma ExpiryIsExact(d: Db, now: int)
    ensures var e := ExpireStale(d, now);
            && e == d.(payments := e.payments) && e.payments.Keys == d.payments.Keys
            && (forall o :: o in d.payments ==>
                  var p := d.payments[o];
                  e.payments[o]
                  == if p.payMethod == "crypto" && p.status == "waiting" && !p.credited && 0 < p.expiresAt < now
                     then p.(status := "expired") else p)
            && (forall o :: o in d.payments ==>
                  && !Stale(e.payments[o], now)
                  && (WaitingCrypto(e.payments[o]) <==> WaitingCrypto(d.payments[o]) && !Stale(d.payments[o], now))
                  && e.payments[o] == d.payments[o].(status := e.payments[o].status)
                  && (!Stale(d.payments[o], now) ==> e.payments[o] == d.payments[o]))
            && ExpireStale(e, now) == e
  {
    hide Sound, Grows, MetaKept;
    var e := ExpireStale(d, now);
    assert ExpireStale(e, now).payments == e.payments;
  }

  /** A claim returns the order's own item if it has one, else sells it the lowest available item of the
      product, else fails because there is none; it touches nothing else. */
  lemma ClaimTakesLowest(d: Db, slug: string, buyer: int, order: string)
    requires StockSound(d)
    ensures var (e, r) := ClaimStock(d, slug, buyer, order);
            && e == d.(stock := e.stock) && e.stock.Keys == d.stock.Keys
            && (r.Some? && order != "" ==> r.value in e.stock && e.stock[r.value].orderId == order)
            && (forall i :: i in d.stock && (r.None? || i != r.value) ==> e.stock[i] == d.stock[i])
            && (if r.Some? && Available(d, r.value, slug)
                then e.stock[r.value] == d.stock[r.value].(sold := true, buyer := buyer, orderId := order)
                     && forall i: nat :: i < r.value ==> !Available(d, i, slug)
                else e == d && (r.None? ==> forall i: nat :: !Available(d, i, slug)))
  {
  }

  /** Items appear only by AddStock and disappear only by ClearAvailable, which takes exactly the unsold ones of the
      product, and DeleteProduct, which takes exactly those of the product. */
  lemma StockIdsChangeOnlyBy(dbs: seq<Db>, calls: seq<Call>, k: nat)
    requires IsHistory(dbs, calls) && k < |calls|
    ensures var d, c, e := dbs[k], calls[k], dbs[k + 1];
            && (!c.AddStockCall? ==> e.stock.Keys <= d.stock.Keys)
            && (!c.ClearAvailableCall? && !c.DeleteProductCall? ==> d.stock.Keys <= e.stock.Keys)
            && (c.ClearAvailableCall? ==> forall i :: i in d.stock ==> (i in e.stock <==> !Available(d, i, c.slug)))
            && (c.DeleteProductCall? ==> forall i :: i in d.stock ==> (i in e.stock <==> d.stock[i].product != c.slug))
  {
    assert Sound(dbs[k]) by { hide Apply; HistoriesGrow(dbs, calls, 0, k); }
    ApplyStock(dbs[k], calls[k]);
  }

  lemma ApplyStock(d: Db, c: Call)
    requires StockSound(d)
    ensures var e := Apply(d, c);
            && (!c.AddStockCall? ==> e.stock.Keys <= d.stock.Keys)
            && (!c.ClearAvailableCall? && !c.DeleteProductCall? ==> d.stock.Keys <= e.stock.Keys)
            && (c.ClearAvailableCall? ==> forall i :: i in d.stock ==> (i in e.stock <==> !Available(d, i, c.slug)))
            && (c.DeleteProductCall? ==> forall i :: i in d.stock ==> (i in e.stock <==> d.stock[i].product != c.slug))
  {
    hide Sound, Grows, MetaKept, PaymentsSame, AddStock, HeldBy;
    match c
    case AddStockCall(slug, payloads) => AddStockKeeps(d, slug, payloads);
    case _ =>
  }

  lemma {:induction false} AddStockKeeps(d: Db, slug: string, payloads: seq<string>)
    requires StockSound(d)
    ensures var (e, n) := AddStock(d, slug, payloads);
            && e.nextStock == d.nextStock + n
            && (forall i :: i in d.stock ==> i in e.stock && e.stock[i] == d.stock[i])
            && (forall i :: i in e.stock && i !in d.stock ==> d.nextStock <= i < e.nextStock && Available(e, i, slug))
  {
    hide Sound, Grows, PaymentsSame, Strip;
    if payloads != [] && slug in d.products {
      AddStockKeeps(d, slug, payloads[..|payloads| - 1]);
    }
  }

  /** The payloads that are not blank, stripped. */
  function Texts(payloads: seq<string>): seq<string> {
    if payloads == [] then []
    else
      var text := Strip(payloads[|payloads| - 1]);
      Texts(payloads[..|payloads| - 1]) + if text == "" then [] else [text]
  }

  /** For a known product these are added, in order, from the next id on, unsold and nobody's; nothing else changes. */
  lemma {:induction false} AddedItems(d: Db, slug: string, payloads: seq<string>)
    requires StockSound(d)
    ensures slug !in d.products ==> AddStock(d, slug, payloads) == (d, 0)
    ensures var (e, n) := AddStock(d, slug, payloads);
            slug in d.products ==>
            && n == |Texts(payloads)| && e == d.(stock := e.stock, nextStock := d.nextStock + n)
            && (forall i: nat :: i in e.stock <==> i in d.stock || d.nextStock <= i < d.nextStock + n)
            && (forall i: nat :: i in e.stock ==>
                  e.stock[i] == if i < d.nextStock then d.stock[i]
                                else StockItem(slug, Texts(payloads)[i - d.nextStock], false, 0, ""))
  {
    hide Sound, Grows, PaymentsSame, Strip;
    if payloads != [] && slug in d.products {
      AddedItems(d, slug, payloads[..|payloads| - 1]);
    }
  }

  /** A deduction goes through exactly if the balance covers it; like a credit it touches one wallet only. A reward adds
      to balance and referral income; a referrer is set once, and never oneself. */
  lemma WalletCalls(d: Db, u: int, amount: int, v: int)
    ensures var (e, ok) := TryDeduct(d, u, amount);
            && (ok <==> Balance(d, u) >= amount)
            && UserOf(e, v) == UserOf(d, v).(balance := Balance(d, v) - if ok && u == v then amount else 0)
    ensures UserOf(AddBalance(d, u, amount), v)
            == UserOf(d, v).(balance := Balance(d, v) + if u == v then amount else 0)
    ensures var was, more := UserOf(d, v), if u == v then amount else 0;
            UserOf(AddRefEarning(d, u, amount), v)
            == was.(balance := was.balance + more, refEarnings := was.refEarnings + more)
    ensures UserOf(SetReferrer(d, u, amount), v)
            == UserOf(d, v).(referredBy := if u == v && UserOf(d, v).referredBy == 0 && amount > 0 && amount != u
                                           then amount else UserOf(d, v).referredBy)
  {
    hide Sound, Grows, PaymentsSame;
  }

  /** Clearing reports how many items went. */
  lemma ClearedItems(d: Db, slug: string)
    ensures var (e, n) := ClearAvailable(d, slug); |e.stock| + n == |d.stock|
  {
    hide Sound, Grows, PaymentsSame;
    var (e, n) := ClearAvailable(d, slug);
    var gone := set i | i in d.stock && Available(d, i, slug);
    assert gone <= d.stock.Keys && e.stock.Keys == d.stock.Keys - gone;
    assert |d.stock.Keys - gone| == |d.stock.Keys| - |gone|;
    assert |e.stock| == |e.stock.Keys| && |d.stock| == |d.stock.Keys|;
  }

  /** A product is never overwritten, and is deleted alone. */
  lemma ProductCalls(d: Db, slug: string, p: Product, other: string)
    ensures var e := CreateProduct(d, slug, p);
            && e == d.(products := e.products) && (other in e.products <==> other == slug || other in d.products)
            && (other in e.products ==> e.products[other] == if other in d.products then d.products[other] else p)
    ensures var e := DeleteProduct(d, slug);
            && (other in e.products <==> other in d.products && other != slug)
            && (other in e.products ==> e.products[other] == d.products[other])
  {
    hide Sound, Grows, PaymentsSame;
  }

  /** A hash credits a known, uncredited order exactly if no other order has it, in lower case; the row is then finished
      and has it. A credit without a hash leaves the status alone. Nothing else changes. */
  lemma CreditWrites(d: Db, order: string, txHash: string)
    ensures var (e, r) := CreditCrypto(d, order, txHash);
            var tx := Lower(txHash);
            var free := tx == "" || forall o :: o in d.payments && o != order ==> d.payments[o].txHash != tx;
            && (r.Some? <==> order in d.payments && !d.payments[order].credited && free)
            && (r.Some? ==>
                  && r.value == d.payments[order].(credited := true, status := "finished", txHash := tx)
                  && e == d.(payments := d.payments[order := r.value]))
            && (r.None? ==> e == d)
    ensures var (e, r) := CreditOnce(d, order);
            && (r.Some? <==> order in d.payments && !d.payments[order].credited)
            && (r.Some? ==>
                  && r.value == d.payments[order].(credited := true)
                  && e == d.(payments := d.payments[order := r.value]))
            && (r.None? ==> e == d)
  {
    hide Sound, Grows, MetaKept;
  }

  /** The column has the given value, or none is given and it is as it was. */
  predicate Writes<T(==)>(given: Option<T>, was: T, now: T) {
    match given
    case Some(value) => now == value
    case None => now == was
  }

  /** A patch writes exactly the columns it gives, on one row. */
  lemma PatchWrites(d: Db, order: string, patch: Patch)
    ensures order !in d.payments ==> UpdatePayment(d, order, patch) == d
    ensures order in d.payments ==>
              var e, p := UpdatePayment(d, order, patch), d.payments[order];
              var q := e.payments[order];
              && e == d.(payments := d.payments[order := q])
              && q == p.(payMethod := q.payMethod, payAddress := q.payAddress, payAmount := q.payAmount,
                         startBlock := q.startBlock, expiresAt := q.expiresAt, status := q.status,
                         invoiceId := q.invoiceId, meta := q.meta)
              && Writes(patch.payMethod, p.payMethod, q.payMethod)
              && Writes(patch.payAddress, p.payAddress, q.payAddress)
              && Writes(patch.payAmount, p.payAmount, q.payAmount)
              && Writes(patch.startBlock, p.startBlock, q.startBlock)
              && Writes(patch.expiresAt, p.expiresAt, q.expiresAt)
              && Writes(patch.status, p.status, q.status)
              && Writes(patch.invoiceId, p.invoiceId, q.invoiceId)
              && Writes(patch.meta, p.meta, q.meta)
  {
    hide Sound, Grows, MetaKept;
  }
}
