/** The stretches of the handlers between two awaits, as functions on the tables and as methods that run the
    database calls in the handlers' order. */
module Handlers {
  import opened Prelude
  import opened Text
  import opened Tables
  import opened DatabaseClass

  const NOWPAYMENTS_PAID := {"finished", "confirmed"}
  const HOOSHPAY_PAID := {"paid"}
  const DIGITAL_PREFIX := "digital:"

  predicate IsDigital(product: string) {
    product != "" && StartsWith(product, DIGITAL_PREFIX)
  }

  function SlugOf(product: string): string {
    if IsDigital(product) then product[|DIGITAL_PREFIX|..] else ""
  }

  // --- gateway callbacks ----------------------------------------------------------

  function Callback(d: Db, paid: set<string>, order: string, status: string,
                    invoice: string): (r: (Db, Option<Payment>))
    ensures Sound(d) ==> Sound(r.0)
    ensures Grows(d, r.0) && MetaKept(d, r.0) && r.0.users == d.users
  {
    Untouched(d);
    hide Sound, Grows, MetaKept;
    if order !in d.payments then (d, None)
    else
      var e := SetStatus(d, order, status, Some(invoice));
      Then(d, e, CreditOnce(e, order).0);
      if status in paid then CreditOnce(e, order) else (e, None)
  }

  /** `ipn_handler` and `hooshpay_callback` after the signature check, up to the delivery. */
  method GatewayCallback(db: Database, signed: bool, paid: set<string>, order: string, status: string, invoice: string)
    returns (credited: Option<Payment>)
    modifies db`payments
    ensures if signed then (db.Value(), credited) == Callback(old(db.Value()), paid, order, status, invoice)
            else db.Value() == old(db.Value()) && credited.None?
  {
    credited := None;
    if !signed || order !in db.payments {
      return;
    }
    db.SetPaymentStatus(order, status, Some(invoice));
    if status in paid {
      credited := db.CreditPaymentOnce(order);
    }
  }

  /** A callback credits exactly an uncredited known order with a paid status; the same callback again changes nothing
      and credits nothing; and no callback of either gateway credits the order afterwards. */
  lemma CallbacksCreditOnce(d: Db, paid: set<string>, order: string, status: string, invoice: string,
                            again: set<string>, other: string, otherInvoice: string)
    ensures var (e, row) := Callback(d, paid, order, status, invoice);
            && (row.Some? <==> order in d.payments && status in paid && !d.payments[order].credited)
            && (row.Some? ==> IsCredited(e, order) && Callback(e, again, order, other, otherInvoice).1.None?)
            && Callback(e, paid, order, status, invoice) == (e, None)
            && (forall p :: p in d.payments && p != order ==> p in e.payments && e.payments[p] == d.payments[p])
  {
    hide Sound, Grows, MetaKept;
    var (e, row) := Callback(d, paid, order, status, invoice);
    if order in d.payments {
      assert e.payments[order := e.payments[order]] == e.payments;
    }
  }

  // --- delivery ----------------------------------------------------------------------

  /** The delivery of a digital product: whether it was accepted, and the stock after it. */
  function DeliverDigital(d: Db, slug: string, user: int, order: string): (r: (Db, bool))
    ensures Sound(d) ==> Sound(r.0)
    ensures Grows(d, r.0) && PaymentsSame(d, r.0) && r.0.users == d.users
  {
    if slug !in d.products then (d, false)
    else if d.products[slug].delivery.Manual? then (d, true)
    else var (e, item) := ClaimStock(d, slug, user, order); (e, item.Some?)
  }

  /** How far a delivery got at its first await; Building ends with whatever the panel answers. */
  datatype Outcome = ToppedUp | Delivered | Undelivered | Building

  /** `deliver_paid_order` up to its first await. */
  function Fulfil(d: Db, order: string, row: Payment): (r: (Db, Outcome))
    ensures Sound(d) ==> Sound(r.0)
    ensures Grows(d, r.0) && PaymentsSame(d, r.0)
  {
    if row.purpose != "order" then (AddBalance(d, row.tgId, row.amount), ToppedUp)
    else if IsDigital(row.meta.product) then
      var (e, ok) := DeliverDigital(d, SlugOf(row.meta.product), row.tgId, order);
      (e, if ok then Delivered else Undelivered)
    else (d, Building)
  }

  method StartDelivery(db: Database, order: string, row: Payment) returns (outcome: Outcome)
    modifies db
    ensures (db.Value(), outcome) == Fulfil(old(db.Value()), order, row)
  {
    if row.purpose != "order" {
      var _ := db.AddBalance(row.tgId, row.amount);
      return ToppedUp;
    }
    if !IsDigital(row.meta.product) {
      return Building;
    }
    var ok := StartDigital(db, SlugOf(row.meta.product), row.tgId, order);
    outcome := if ok then Delivered else Undelivered;
  }

  method StartDigital(db: Database, slug: string, user: int, order: string) returns (ok: bool)
    modifies db`stock
    ensures (db.Value(), ok) == DeliverDigital(old(db.Value()), slug, user, order)
  {
    if slug !in db.products {
      return false;
    }
    if db.products[slug].delivery.Manual? {
      return true;
    }
    var item := db.ClaimStockItem(slug, user, order);
    ok := item.Some?;
  }

  // --- wallet purchase -----------------------------------------------------------------

  datatype WalletResult =
    | NotDigital | Gone | SoldOut | TooPoor | AlreadyPaid
    | Paid(row: Payment, delivered: bool)

  predicate CanBuy(d: Db, slug: string)
    requires slug in d.products
  {
    d.products[slug].delivery.Manual? || LowestAvailable(d, slug, 0).Some?
  }

  const BY_WALLET := NO_PATCH.(payMethod := Some("wallet"))

  /** `dg_wallet` from the invoice check to the first await after the claim; `row` is the row read before. */
  function WalletPurchase(d: Db, order: string, row: Payment, user: int, price: int): (r: (Db, WalletResult))
    ensures Sound(d) ==> Sound(r.0)
    ensures Grows(d, r.0) && MetaKept(d, r.0)
  {
    Untouched(d);
    hide Sound, Grows, MetaKept, PaymentsSame;
    var slug := row.meta.digitalSlug;
    if slug == "" then (d, NotDigital)
    else if slug !in d.products then (d, Gone)
    else if !CanBuy(d, slug) then (d, SoldOut)
    else
      var (d1, enough) := TryDeduct(d, user, price);
      Then(d, d, d1);
      if !enough then (d1, TooPoor)
      else
        var marked := UpdatePayment(d1, order, BY_WALLET);
        Then(d, d1, marked);
        var (d2, credited) := CreditOnce(marked, order);
        Then(d, marked, d2);
        if credited.None? then
          Then(d, d2, AddBalance(d2, user, price));
          (AddBalance(d2, user, price), AlreadyPaid)
        else
          var (d3, ok) := DeliverDigital(d2, slug, user, order);
          Then(d, d2, d3);
          (d3, Paid(credited.value, ok))
  }

  method PayFromWallet(db: Database, order: string, row: Payment, user: int, price: int) returns (r: WalletResult)
    modifies db
    ensures (db.Value(), r) == WalletPurchase(old(db.Value()), order, row, user, price)
  {
    var slug := row.meta.digitalSlug;
    if slug == "" {
      return NotDigital;
    }
    if slug !in db.products {
      return Gone;
    }
    if !CanBuy(db.Value(), slug) {
      return SoldOut;
    }
    var enough := db.TryDeductBalance(user, price);
    if !enough {
      return TooPoor;
    }
    db.UpdatePayment(order, BY_WALLET);
    var credited := db.CreditPaymentOnce(order);
    if credited.None? {
      var _ := db.AddBalance(user, price);
      return AlreadyPaid;
    }
    var ok := StartDigital(db, slug, user, order);
    r := Paid(credited.value, ok);
  }

  /** Only a purchase that goes through costs anything; an attempt that finds the invoice already paid, or fails
      earlier, leaves every balance as it was. */
  lemma OnlyPaidCosts(d: Db, order: string, row: Payment, user: int, price: int, u: int)
    ensures var (e, r) := WalletPurchase(d, order, row, user, price);
            UserOf(e, u) == UserOf(d, u).(balance := Balance(d, u) - if r.Paid? && u == user then price else 0)
  {
    hide Sound, Grows, MetaKept, PaymentsSame, LowestAvailable, HeldBy;
  }

  lemma {:induction false} AvailabilityMonotone(d: Db, e: Db, slug: string, from: nat)
    requires d.stock == e.stock && d.nextStock == e.nextStock
    ensures LowestAvailable(d, slug, from) == LowestAvailable(e, slug, from)
    decreases d.nextStock - from
  {
    if from < d.nextStock && !Available(d, from, slug) {
      AvailabilityMonotone(d, e, slug, from + 1);
    }
  }

  /** A debited purchase is always delivered: stock was seen in the same stretch, so the refund branch after the
      delivery is never taken. */
  lemma PaidMeansDelivered(d: Db, order: string, row: Payment, user: int, price: int)
    ensures var (_, r) := WalletPurchase(d, order, row, user, price); r.Paid? ==> r.delivered
  {
    hide Sound, Grows, MetaKept, LowestAvailable, HeldBy;
    var (d1, enough) := TryDeduct(d, user, price);
    var (d2, credited) := CreditOnce(UpdatePayment(d1, order, BY_WALLET), order);
    AvailabilityMonotone(d, d2, row.meta.digitalSlug, 0);
  }

  // --- which item an order gets ----------------------------------------------------------

  ghost predicate Unsold(stock: map<nat, StockItem>, i: nat, slug: string) {
    i in stock && stock[i].product == slug && !stock[i].sold
  }

  ghost predicate HoldsItem(stock: map<nat, StockItem>, order: string) {
    exists i :: i in stock && stock[i].orderId == order
  }

  /** Item i, the lowest unsold one of the product, is now sold to the buyer for the order, and nothing else changed. */
  ghost predicate SoldLowest(stock: map<nat, StockItem>, after: map<nat, StockItem>, i: nat, slug: string, buyer: int,
                       order: string) {
    && Unsold(stock, i, slug) && (forall j: nat :: j < i ==> !Unsold(stock, j, slug))
    && after == stock[i := StockItem(slug, stock[i].payload, true, buyer, order)]
  }

  /** The order keeps the item it has, or gets the lowest unsold one. */
  ghost predicate GetsItem(stock: map<nat, StockItem>, after: map<nat, StockItem>, slug: string, buyer: int,
                           order: string) {
    if HoldsItem(stock, order) then after == stock
    else exists i :: SoldLowest(stock, after, i, slug, buyer, order)
  }

  ghost predicate HasUnsold(stock: map<nat, StockItem>, slug: string) {
    exists i :: Unsold(stock, i, slug)
  }

  lemma ClaimGetsItem(d: Db, slug: string, buyer: int, order: string)
    requires StockSound(d) && order != ""
    ensures var (e, item) := ClaimStock(d, slug, buyer, order);
            && e == d.(stock := e.stock)
            && (item.Some? <==> HoldsItem(d.stock, order) || HasUnsold(d.stock, slug))
            && (if item.Some? then GetsItem(d.stock, e.stock, slug, buyer, order) else e == d)
  {
    hide Sound, Grows, PaymentsSame;
    var (e, item) := ClaimStock(d, slug, buyer, order);
    if HoldsItem(d.stock, order) {
      assert HeldBy(d, order, 0).Some?;
    } else if HasUnsold(d.stock, slug) {
      var i :| Unsold(d.stock, i, slug);
      assert Available(d, i, slug);
      assert forall j: nat :: Unsold(d.stock, j, slug) ==> Available(d, j, slug);
      assert SoldLowest(d.stock, e.stock, item.value, slug, buyer, order);
    } else {
      var low := LowestAvailable(d, slug, 0);
      assert low.Some? ==> Unsold(d.stock, low.value, slug);
    }
  }

  /** What a paid order of a digital product gets: a stocked product delivers exactly if the order holds an item or one
      of the product is unsold, and then the order has that one item, for the row's owner; a product delivered by hand
      is accepted and a missing one is not. Nothing else changes. */
  lemma OrderGetsItem(d: Db, order: string, row: Payment, slug: string)
    requires StockSound(d) && order != "" && row.purpose == "order" && row.meta.product == "digital:" + slug
    ensures var (e, outcome) := Fulfil(d, order, row);
            && e == d.(stock := e.stock) && outcome in {Delivered, Undelivered}
            && (if slug !in d.products then outcome.Undelivered? && e == d
                else if d.products[slug].delivery == Manual then outcome.Delivered? && e == d
                else
                  && (outcome.Delivered? <==> HoldsItem(d.stock, order) || HasUnsold(d.stock, slug))
                  && (if outcome.Delivered? then GetsItem(d.stock, e.stock, slug, row.tgId, order) else e == d))
  {
    hide Sound, Grows, PaymentsSame, ClaimStock, GetsItem, HoldsItem, HasUnsold;
    assert row.meta.product[8..] == slug && row.meta.product[..8] == "digital:";
    ClaimGetsItem(d, slug, row.tgId, order);
  }

  /** An order of another product waits for the panel; anything but an order tops up the owner's wallet by its amount.
      */
  lemma OtherOrders(d: Db, order: string, row: Payment, u: int)
    ensures var (e, outcome) := Fulfil(d, order, row);
            && e == d.(stock := e.stock, users := e.users)
            && (row.purpose == "order" && !("digital:" <= row.meta.product) ==> e == d && outcome == Building)
            && (row.purpose != "order" ==>
                  && outcome == ToppedUp && e.stock == d.stock
                  && Balance(e, u) == Balance(d, u) + (if u == row.tgId then row.amount else 0))
  {
    hide Sound, Grows, PaymentsSame;
  }

  /** When a wallet purchase fails before it costs anything: the invoice is not for a digital product, the product is
      gone, or a stocked one has nothing unsold. */
  lemma NoPurchase(d: Db, order: string, row: Payment, user: int, price: int)
    requires StockSound(d)
    ensures var (e, r) := WalletPurchase(d, order, row, user, price);
            var slug := row.meta.digitalSlug;
            && (r == NotDigital <==> slug == "")
            && (r == Gone <==> slug != "" && slug !in d.products)
            && (r == SoldOut <==>
                  slug != "" && slug in d.products && d.products[slug].delivery != Manual && !HasUnsold(d.stock, slug))
            && (r in {NotDigital, Gone, SoldOut} ==> e == d)
  {
    hide Sound, Grows, MetaKept, PaymentsSame, CanBuy, DeliverDigital, TryDeduct, CreditOnce, UpdatePayment, AddBalance;
    CanBuyIff(d, row.meta.digitalSlug);
  }

  /** Otherwise it goes through exactly if the balance covers the price and the order is known and uncredited. Then the
      row is credited as paid by wallet, and the order gets its item of a stocked product, for the buyer. */
  lemma PurchaseIff(d: Db, order: string, row: Payment, user: int, price: int)
    requires StockSound(d) && order != ""
    ensures var (e, r) := WalletPurchase(d, order, row, user, price);
            var slug := row.meta.digitalSlug;
            && (r.Paid? || r.AlreadyPaid? ==> Balance(d, user) >= price)
            && (r.TooPoor? ==> Balance(d, user) < price)
            && (r.Paid? ==> order in d.payments && !d.payments[order].credited)
            && (r.AlreadyPaid? ==> order !in d.payments || d.payments[order].credited)
            && (!r.Paid? ==> e.stock == d.stock)
            && (r.Paid? ==>
                  && slug in d.products
                  && r.row == d.payments[order].(payMethod := "wallet", credited := true)
                  && e.payments == d.payments[order := r.row] && e.products == d.products
                  && (if d.products[slug].delivery == Manual then e.stock == d.stock
                      else GetsItem(d.stock, e.stock, slug, user, order)))
  {
    hide Sound, Grows, MetaKept, PaymentsSame, CanBuy, ClaimStock, GetsItem, HoldsItem, HasUnsold, StockSound;
    hide TryDeduct, CreditOnce, UpdatePayment;
    var (d1, enough) := TryDeduct(d, user, price);
    var (d2, credited) := CreditOnce(UpdatePayment(d1, order, BY_WALLET), order);
    PaymentTaken(d, order, user, price);
    ClaimGetsItem(d2, row.meta.digitalSlug, user, order);
    PaidMeansDelivered(d, order, row, user, price);
  }

  /** The deduction and the credit of a wallet purchase. */
  lemma PaymentTaken(d: Db, order: string, user: int, price: int)
    requires StockSound(d)
    ensures var (d1, enough) := TryDeduct(d, user, price);
            var (d2, credited) := CreditOnce(UpdatePayment(d1, order, BY_WALLET), order);
            && (enough <==> Balance(d, user) >= price) && d1.stock == d.stock
            && d2.stock == d.stock && d2.products == d.products && StockSound(d2)
            && (credited.Some? <==> order in d.payments && !d.payments[order].credited)
            && (credited.Some? ==>
                  && credited.value == d.payments[order].(payMethod := "wallet", credited := true)
                  && d2.payments == d.payments[order := credited.value])
  {
    hide Sound, Grows, MetaKept, PaymentsSame;
  }

  lemma CanBuyIff(d: Db, slug: string)
    requires StockSound(d)
    ensures slug in d.products ==>
              (CanBuy(d, slug) <==> d.products[slug].delivery == Manual || HasUnsold(d.stock, slug))
  {
    if slug in d.products {
      if i: nat :| Unsold(d.stock, i, slug) {
        assert Available(d, i, slug);
      }
      var low := LowestAvailable(d, slug, 0);
      assert low.Some? ==> Unsold(d.stock, low.value, slug);
    }
  }

  // --- referral reward -----------------------------------------------------------------

  /** Whom `credit_referral` pays, if anyone. */
  function RewardedUser(d: Db, buyer: int, reward: int): Option<int> {
    var referrer := UserOf(d, buyer).referredBy;
    if referrer == 0 || referrer == buyer || reward <= 0 then None else Some(referrer)
  }

  function Reward(d: Db, buyer: int, reward: int): (e: Db)
    ensures Sound(d) ==> Sound(e)
    ensures Grows(d, e) && PaymentsSame(d, e)
  {
    var who := RewardedUser(d, buyer, reward);
    if who.None? then d else AddRefEarning(d, who.value, reward)
  }

  /** A reward is new money of the referrer alone, in balance and in referral income; nobody is rewarded for their own
      purchase, and without a referrer nothing changes. */
  lemma OnlyReferrerIsRewarded(d: Db, buyer: int, reward: int, u: int)
    ensures var e, was := Reward(d, buyer, reward), UserOf(d, u);
            && (u == buyer || u == 0 || UserOf(d, buyer).referredBy != u || reward <= 0 ==> UserOf(e, u) == was)
            && (u != buyer && u != 0 && UserOf(d, buyer).referredBy == u && reward > 0 ==>
                  UserOf(e, u) == User(was.balance + reward, was.refEarnings + reward, was.referredBy))
  {
    hide Sound, Grows, PaymentsSame;
  }
}
