/** What the handlers write on an invoice, and for whom. */
module Invoices {
  import opened Prelude
  import opened Tables
  import opened Chain
  import opened Watcher
  import opened Handlers
  import opened Protocol

  /** The order and the user of a step that a user takes on an invoice. */
  function Asked(st: Step): Option<(string, int)> {
    match st
    case Cancel(order, user) => Some((order, user))
    case AskCrypto(order, user) => Some((order, user))
    case AskGateway(order, user, _) => Some((order, user))
    case AskWallet(order, user) => Some((order, user))
    case Submit(order, user, _) => Some((order, user))
    case _ => None
  }

  /** Such a step does something exactly if the user owns the invoice, it is not paid yet, and a submitted text holds a
      hash. A cancellation writes the status of this invoice; any other step begins a task and changes no table. */
  lemma OnlyOwnersAct(s: State, st: Step)
    requires Asked(st).Some?
    ensures var (order, user) := Asked(st).value;
            var e, p := Next(s, st), s.db.payments;
            if order in p && p[order].tgId == user && !p[order].credited
               && (st.Submit? ==> ExtractTxHash(st.text) != "")
            then
              if st.Cancel? then e == s.(db := s.db.(payments := p[order := p[order].(status := "cancelled")]))
              else |e.tasks| == |s.tasks| + 1 && e == s.(tasks := e.tasks) && e.tasks[..|s.tasks|] == s.tasks
            else e == s
  {
    hide Sound, Grows, MetaKept, ExtractTxHash;
  }

  /** A new invoice: refused if it asks for nothing or its id is taken, else waiting, unpaid and without a hash, as its
      buyer, price and purpose say; one for the gateway asks it for a payment page. */
  lemma InvoiceCreation(s: State, order: string, user: int, amount: int, purpose: string, meta: Meta, viaGateway: bool)
    ensures var e := Next(s, Create(order, user, amount, purpose, meta, viaGateway));
            if order in s.db.payments || amount <= 0 || (meta.usd.Some? && meta.usd.value <= 0) then e == s
            else
              && e.db.payments.Keys == s.db.payments.Keys + {order}
              && (forall o :: o in s.db.payments ==> e.db.payments[o] == s.db.payments[o])
              && var row := e.db.payments[order];
                 && row.tgId == user && row.amount == amount && row.purpose == purpose && row.meta == meta
                 && row.payMethod == (if viaGateway then "nowpayments" else "")
                 && row.status == "waiting" && !row.credited && row.txHash == row.payAddress == row.invoiceId == ""
                 && row.payAmount == row.startBlock == row.expiresAt == 0
                 && (viaGateway ==> e.tasks == s.tasks + [CreatingInvoice(order)])
                 && (!viaGateway ==> e.tasks == s.tasks)
  {
    hide Sound, Grows, MetaKept;
  }

  /** The reply of a gateway: an invoice id, or a failure; HooshPay's payable amount. */
  lemma GatewayReply(s: State, i: nat, ok: bool, invoice: string, payable: int)
    ensures TaskAt(s, i).AskedGateway? && TaskAt(s, i).order in s.db.payments ==>
              var t, e := TaskAt(s, i), Next(s, GatewayReplied(i, ok, invoice, payable));
              var row := s.db.payments[t.order].(payMethod := if t.hoosh then "hooshpay" else "nowpayments");
              e.db == s.db.(payments := s.db.payments[t.order :=
                        if !ok then row.(status := "failed")
                        else if t.hoosh then row.(status := "waiting", invoiceId := invoice, payAmount := payable)
                        else row.(status := "waiting", invoiceId := invoice)])
    ensures TaskAt(s, i).CreatingInvoice? && TaskAt(s, i).order in s.db.payments ==>
              var o, e := TaskAt(s, i).order, Next(s, InvoiceCreated(i, ok, invoice));
              e.db == s.db.(payments := s.db.payments[o :=
                        if ok then s.db.payments[o].(status := "waiting", invoiceId := invoice)
                        else s.db.payments[o].(status := "failed")])
  {
    hide Sound, Grows, MetaKept;
  }

  /** The first draw that gives a free amount, or the fallback. */
  function FirstFree(base: int, used: set<int>, draws: seq<int>, fallback: int): int {
    if draws == [] then fallback
    else if base + draws[0] !in used then draws[0] else FirstFree(base, used, draws[1..], fallback)
  }

  lemma {:induction false} ChoosesFirstFree(cents: int, used: set<int>, draws: seq<int>, fallback: int)
    ensures UniquePayAmount(cents, used, draws, fallback)
            == cents * 10_000 + FirstFree(cents * 10_000, used, draws, fallback)
  {
    if draws != [] {
      ChoosesFirstFree(cents, used, draws[1..], fallback);
    }
  }

  predicate IsWaiting(p: Payment) {
    p.payMethod == "crypto" && p.status == "waiting" && !p.credited
  }

  /** The amounts that unpaid crypto invoices wait for. */
  ghost predicate Waits(d: Db, amount: int) {
    exists o :: o in d.payments && IsWaiting(d.payments[o]) && d.payments[o].payAmount == amount
  }

  lemma UsedIsWaited(d: Db, amount: int)
    ensures amount in UsedAmounts(d) <==> Waits(d, amount)
  {
  }

  /** A preparation of an invoice with a price, to a valid address: the crypto columns say address, start block, expiry
      and the base price with the first offset of the draws that no waiting invoice has; the row waits; no other column
      or row changes. Without a price or a valid address the row stays as it is. */
  lemma Preparation(s: State, i: nat, wallet: string, draws: seq<int>, fallback: int, head: nat, expiresAt: int)
    requires TaskAt(s, i).AskedCrypto? && TaskAt(s, i).order in s.db.payments
    requires DrawsInRange(draws, fallback)
    ensures var o := TaskAt(s, i).order;
            var row := s.db.payments[o];
            var price := if row.meta.usd.Some? then row.meta.usd.value
                         else if row.purpose == "order" then row.amount else 0;
            var e := Next(Next(s, Choose(i, wallet, draws, fallback)), Store(i, head, expiresAt));
            if price <= 0 || !IsAddress(wallet) then e.db == s.db
            else
              var offset := FirstFree(price * 10_000, UsedAmounts(s.db), draws, fallback);
              e.db == s.db.(payments := s.db.payments[o := row.(
                payMethod := "crypto", payAddress := wallet, payAmount := price * 10_000 + offset,
                startBlock := head, expiresAt := expiresAt, status := "waiting")])
  {
    hide Sound, Grows, MetaKept, UniquePayAmount, UsedAmounts, DrawsInRange, IsAddress;
    var row := s.db.payments[TaskAt(s, i).order];
    ChoosesFirstFree(PaymentUsd(row), UsedAmounts(s.db), draws, fallback);
  }

  /** A tick first ends what is overdue; then, if any invoice is left waiting, it begins to scan for exactly these. */
  lemma TickIs(s: State, now: int)
    ensures var e := Next(s, Tick(now));
            && e.log == s.log && e.db == s.db.(payments := e.db.payments) && e.db.payments.Keys == s.db.payments.Keys
            && (forall o :: o in s.db.payments ==>
                  var p := s.db.payments[o];
                  e.db.payments[o] == if IsWaiting(p) && 0 < p.expiresAt < now then p.(status := "expired") else p)
            && (if forall o :: o in e.db.payments ==> !IsWaiting(e.db.payments[o]) then e.tasks == s.tasks
                else
                  && |e.tasks| == |s.tasks| + 1 && e.tasks[..|s.tasks|] == s.tasks && e.tasks[|s.tasks|].Scanning?
                  && forall v :: v in e.tasks[|s.tasks|].snapshot <==>
                       v.order in e.db.payments && e.db.payments[v.order] == v.row && IsWaiting(v.row))
  {
    hide Sound, Grows, MetaKept;
    var d := ExpireStale(s.db, now);
    var waiting := WaitingInvoices(d);
    assert IsSnapshot(d, waiting);
    if waiting != [] {
      assert waiting[0] in waiting && IsWaiting(d.payments[waiting[0].order]);
      forall v: Invoice | v.order in d.payments && d.payments[v.order] == v.row && IsWaiting(v.row)
        ensures v in waiting
      {
        assert Invoice(v.order, d.payments[v.order]) == v;
      }
    }
  }
}
