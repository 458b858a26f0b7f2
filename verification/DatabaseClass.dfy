/** The `Database` class: the tables as fields, its methods as in-place updates, each proved to be the
    function of the same name in `Tables`. */
module DatabaseClass {
  import opened Prelude
  import opened Text
  import opened Tables

  class Database {
    var payments: map<string, Payment>
    var users: map<int, User>
    var products: map<string, Product>
    var stock: map<nat, StockItem>
    var nextStock: nat

    function Value(): Db
      reads this
    {
      Db(payments, users, products, stock, nextStock)
    }

    constructor ()
      ensures Value() == EMPTY
    {
      payments, users, products, stock, nextStock := map[], map[], map[], map[], 1;
    }

    /** The UNIQUE order id refuses a second row; `inserted` is false where the INSERT raises. */
    method CreatePayment(order: string, row: Payment) returns (inserted: bool)
      modifies this`payments
      ensures Value() == Tables.CreatePayment(old(Value()), order, row)
      ensures inserted <==> order !in old(payments)
    {
      inserted := order !in payments;
      if inserted {
        payments := payments[order := Fresh(row)];
      }
    }

    method CreditCryptoPayment(order: string, txHash: string) returns (row: Option<Payment>)
      modifies this`payments
      ensures (Value(), row) == CreditCrypto(old(Value()), order, txHash)
    {
      var tx := Lower(txHash);
      var used := exists o :: o in payments && o != order && payments[o].txHash == tx && tx != "";
      if used {
        return None;
      }
      if order !in payments || payments[order].credited {
        return None;
      }
      payments := payments[order := payments[order].(credited := true, status := "finished", txHash := tx)];
      row := Some(payments[order]);
    }

    method CreditPaymentOnce(order: string) returns (row: Option<Payment>)
      modifies this`payments
      ensures (Value(), row) == CreditOnce(old(Value()), order)
    {
      if order !in payments || payments[order].credited {
        return None;
      }
      payments := payments[order := payments[order].(credited := true)];
      row := Some(payments[order]);
    }

    method ExpireStaleCryptoPayments(now: int)
      modifies this`payments
      ensures Value() == ExpireStale(old(Value()), now)
    {
      var stale := set o | o in payments && Stale(payments[o], now);
      payments := map o | o in payments :: if o in stale then payments[o].(status := "expired") else payments[o];
    }

    method UpdatePayment(order: string, patch: Patch)
      modifies this`payments
      ensures Value() == Tables.UpdatePayment(old(Value()), order, patch)
    {
      if order in payments {
        payments := payments[order := Patched(payments[order], patch)];
      }
    }

    method SetPaymentStatus(order: string, status: string, invoiceId: Option<string>)
      modifies this`payments
      ensures Value() == SetStatus(old(Value()), order, status, invoiceId)
    {
      if order in payments {
        var row := payments[order].(status := status);
        if invoiceId.Some? {
          row := row.(invoiceId := invoiceId.value);
        }
        payments := payments[order := row];
      }
    }

    method EnsureUser(u: int)
      modifies this`users
      ensures users == old(users)[u := UserOf(old(Value()), u)]
    {
      if u !in users {
        users := users[u := User(0, 0, 0)];
      }
    }

    method AddBalance(u: int, amount: int) returns (balance: int)
      modifies this`users
      ensures Value() == Tables.AddBalance(old(Value()), u, amount)
      ensures balance == Balance(Value(), u)
    {
      EnsureUser(u);
      users := users[u := users[u].(balance := users[u].balance + amount)];
      balance := users[u].balance;
    }

    method TryDeductBalance(u: int, amount: int) returns (ok: bool)
      modifies this`users
      ensures (Value(), ok) == TryDeduct(old(Value()), u, amount)
    {
      EnsureUser(u);
      ok := users[u].balance >= amount;
      if ok {
        users := users[u := users[u].(balance := users[u].balance - amount)];
      }
      assert users == TryDeduct(old(Value()), u, amount).0.users;
    }

    method AddRefEarning(u: int, amount: int) returns (balance: int)
      modifies this`users
      ensures Value() == Tables.AddRefEarning(old(Value()), u, amount)
      ensures balance == Balance(Value(), u)
    {
      EnsureUser(u);
      var row := users[u];
      users := users[u := row.(balance := row.balance + amount, refEarnings := row.refEarnings + amount)];
      balance := users[u].balance;
    }

    method ClaimStockItem(slug: string, buyer: int, order: string) returns (item: Option<nat>)
      modifies this`stock
      ensures (Value(), item) == ClaimStock(old(Value()), slug, buyer, order)
    {
      var existing := HeldBy(Value(), order, 0);
      if order != "" && existing.Some? {
        return existing;
      }
      item := LowestAvailable(Value(), slug, 0);
      if item.None? {
        return;
      }
      stock := stock[item.value := stock[item.value].(sold := true, buyer := buyer, orderId := order)];
    }

    method AddStockItems(slug: string, payloads: seq<string>) returns (count: nat)
      modifies this`stock, this`nextStock
      ensures (Value(), count) == AddStock(old(Value()), slug, payloads)
    {
      count := 0;
      if slug !in products {
        return;
      }
      for k := 0 to |payloads|
        invariant (Value(), count) == AddStock(old(Value()), slug, payloads[..k])
      {
        assert payloads[..k + 1][..k] == payloads[..k];
        var text := Strip(payloads[k]);
        if text != "" {
          stock := stock[nextStock := StockItem(slug, text, false, 0, "")];
          nextStock := nextStock + 1;
          count := count + 1;
        }
      }
      assert payloads[..|payloads|] == payloads;
    }

    method ClearAvailableStock(slug: string) returns (removed: nat)
      modifies this`stock
      ensures (Value(), removed) == ClearAvailable(old(Value()), slug)
    {
      hide Sound, Grows, PaymentsSame;
      var gone := set i | i in stock && Available(Value(), i, slug);
      removed := |gone|;
      stock := stock - gone;
    }

    method DeleteDigitalProduct(slug: string)
      modifies this`products, this`stock
      ensures Value() == DeleteProduct(old(Value()), slug)
    {
      products := products - {slug};
      stock := map i | i in stock && stock[i].product != slug :: stock[i];
    }
  }
}
