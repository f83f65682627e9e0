/** The deposit path: polling the blockchain, asking for a vote, crediting the
    wallet and adding the receipt to an invoice. */
module Deposits {
  import opened Records
  import opened Operations
  import opened Consensus
  import opened WalletStore

  // ---- invoices ----

  datatype InvoiceStatus = InvoicePending | InvoicePaid | InvoiceExpired

  datatype Invoice = Invoice(wallet: Uuid, code: string, amount: int, received: int, status: InvoiceStatus,
      paidBy: string)

  /** The invoice after one more receipt, and whether that one paid it. An
      amount of zero is an open invoice. */
  function Receive(inv: Invoice, amount: int, hash: string): (Invoice, bool) {
    var total := inv.received + amount;
    if inv.status.InvoicePending? && (inv.amount == 0 || total >= inv.amount) then
      (inv.(received := total, status := InvoicePaid, paidBy := hash), true)
    else (inv.(received := total), false)
  }

  /** One more receipt: the total rises by its amount whatever the status is,
      and a pending invoice that is open, or that the total now covers, is paid
      by it. */
  predicate Receipted(before: Invoice, after: Invoice, amount: int, hash: string, paid: bool) {
    && after.received == before.received + amount
    && (paid <==> before.status == InvoicePending && (before.amount == 0 || before.received + amount >= before.amount))
    && (if paid then after.status == InvoicePaid && after.paidBy == hash
        else after.status == before.status && after.paidBy == before.paidBy)
    && after.wallet == before.wallet && after.code == before.code && after.amount == before.amount
  }

  lemma ReceiveMeans(inv: Invoice, amount: int, hash: string)
    ensures Receipted(inv, Receive(inv, amount, hash).0, amount, hash, Receive(inv, amount, hash).1)
  {
  }

  class InvoiceStore {
    var invoices: map<Uuid, Invoice>

    constructor ()
      ensures invoices == map[]
    {
      invoices := map[];
    }

    method FindPendingInvoiceByCode(code: string) returns (r: Option<Uuid>)
      ensures r.Some? ==>
        r.value in invoices && invoices[r.value].code == code && invoices[r.value].status.InvoicePending?
      ensures r.None? ==>
        forall id :: id in invoices ==> invoices[id].code != code || !invoices[id].status.InvoicePending?
    {
      if id :| id in invoices && invoices[id].code == code && invoices[id].status.InvoicePending? {
        return Some(id);
      }
      return None;
    }

    method AddInvoiceReceipt(id: Uuid, amount: int, hash: string) returns (found: bool, paid: bool)
      modifies this
      ensures found == (id in old(invoices))
      ensures !found ==> !paid && invoices == old(invoices)
      ensures found ==> (var (inv, settled) := Receive(old(invoices)[id], amount, hash);
                         invoices == old(invoices)[id := inv] && paid == settled
                         && Receipted(old(invoices)[id], inv, amount, hash, paid))
    {
      found, paid := id in invoices, false;
      if found {
        var inv := invoices[id];
        var newReceived := inv.received + amount;
        var updated := inv.(received := newReceived);
        if inv.status.InvoicePending? && (inv.amount == 0 || newReceived >= inv.amount) {
          updated := updated.(status := InvoicePaid, paidBy := hash);
          paid := true;
        }
        invoices := invoices[id := updated];
      }
    }
  }

  // ---- the watcher ----

  datatype TonTx = TonTx(hash: string, source: string, value: string, message: string)

  datatype Event = Event(hash: string, code: string, amount: int)

  predicate Incoming(t: TonTx) {
    t.source != "" && t.value != "0" && t.value != ""
  }

  function Hashes(txs: seq<TonTx>): set<string> {
    set t | t in txs && Incoming(t) :: t.hash
  }

  /** The events of one poll: the first transaction with each hash not seen
      before, if its amount is positive. */
  function Polled(scan: string -> int, seen: set<string>, txs: seq<TonTx>): seq<Event> {
    if txs == [] then []
    else
      var init, t := txs[..|txs| - 1], txs[|txs| - 1];
      if Incoming(t) && t.hash !in seen + Hashes(init) && scan(t.value) > 0 then
        Polled(scan, seen, init) + [Event(t.hash, t.message, scan(t.value))]
      else Polled(scan, seen, init)
  }

  class Watcher {
    const scan: string -> int
    var seenTx: set<string>

    constructor (scan: string -> int)
      ensures this.scan == scan && seenTx == {}
    {
      this.scan := scan;
      seenTx := {};
    }

    method Poll(txs: seq<TonTx>) returns (events: seq<Event>)
      modifies this
      ensures events == Polled(scan, old(seenTx), txs) && seenTx == old(seenTx) + Hashes(txs)
      ensures seenTx ==
        old(seenTx) + set t | t in txs && t.source != "" && t.value != "0" && t.value != "" :: t.hash
    {
      events := [];
      for k := 0 to |txs|
        invariant events == Polled(scan, old(seenTx), txs[..k])
        invariant seenTx == old(seenTx) + Hashes(txs[..k])
      {
        var t := txs[k];
        assert txs[..k + 1][..k] == txs[..k];
        assert txs[..k + 1] == txs[..k] + [t];
        assert Hashes(txs[..k + 1]) == Hashes(txs[..k]) + if Incoming(t) then {t.hash} else {};
        if t.source == "" || t.value == "0" || t.value == "" {
          continue;
        }
        if t.hash in seenTx {
          continue;
        }
        seenTx := seenTx + {t.hash};
        var amount := scan(t.value);
        if amount <= 0 {
          continue;
        }
        events := events + [Event(t.hash, t.message, amount)];
      }
      assert txs[..|txs|] == txs;
    }
  }

  predicate DistinctHashes(events: seq<Event>) {
    forall i, j :: 0 <= i < j < |events| ==> events[i].hash != events[j].hash
  }

  lemma {:induction false} PolledAreNew(scan: string -> int, seen: set<string>, txs: seq<TonTx>)
    ensures forall e :: e in Polled(scan, seen, txs) ==> e.hash !in seen && e.hash in Hashes(txs)
  {
    if txs != [] {
      PolledAreNew(scan, seen, txs[..|txs| - 1]);
      assert txs[|txs| - 1] in txs;
    }
  }

  /** A hash is delivered if and only if the first transaction that carries it
      has not been seen and brings a positive amount; and then once. */
  lemma {:induction false} PolledIff(scan: string -> int, seen: set<string>, txs: seq<TonTx>, hash: string)
    ensures (exists e :: e in Polled(scan, seen, txs) && e.hash == hash) <==>
      hash !in seen && exists i :: (
        && 0 <= i < |txs| && Incoming(txs[i]) && txs[i].hash == hash && scan(txs[i].value) > 0
        && hash !in Hashes(txs[..i]))
    ensures DistinctHashes(Polled(scan, seen, txs))
  {
    if txs != [] {
      var n := |txs| - 1;
      var init, t := txs[..n], txs[n];
      PolledIff(scan, seen, init, hash);
      PolledAreNew(scan, seen, init);
      assert forall i :: 0 <= i < n ==> txs[..i] == init[..i];
    }
  }

  /** The first incoming transaction with its hash. */
  predicate FirstOf(txs: seq<TonTx>, i: int) {
    && 0 <= i < |txs| && txs[i].source != "" && txs[i].value != "" && txs[i].value != "0"
    && forall j :: 0 <= j < i && txs[j].hash == txs[i].hash ==>
        txs[j].source == "" || txs[j].value == "" || txs[j].value == "0"
  }

  lemma FirstIff(txs: seq<TonTx>, i: int)
    requires 0 <= i < |txs|
    ensures FirstOf(txs, i) <==> Incoming(txs[i]) && txs[i].hash !in Hashes(txs[..i])
  {
    forall j | 0 <= j < i && Incoming(txs[j])
      ensures txs[j].hash in Hashes(txs[..i])
    {
      assert txs[j] in txs[..i];
    }
  }

  predicate Brings(scan: string -> int, txs: seq<TonTx>, i: int, e: Event) {
    FirstOf(txs, i) && e == Event(txs[i].hash, txs[i].message, scan(txs[i].value))
  }

  lemma BroughtEarlier(scan: string -> int, txs: seq<TonTx>, n: nat, i: int, e: Event)
    requires n <= |txs| && 0 <= i < n
    ensures Brings(scan, txs, i, e) <==> Brings(scan, txs[..n], i, e)
  {
    assert txs[..n][i] == txs[i] && forall j :: 0 <= j < i ==> txs[..n][j] == txs[j];
  }

  /** What is delivered: for every new hash the comment and the amount of the
      first transaction that carries it, if that is positive. */
  lemma {:induction false} PolledEvent(scan: string -> int, seen: set<string>, txs: seq<TonTx>, e: Event)
    ensures e in Polled(scan, seen, txs) <==>
      e.hash !in seen && e.amount > 0 && exists i :: Brings(scan, txs, i, e)
  {
    if txs != [] {
      var n := |txs| - 1;
      PolledEvent(scan, seen, txs[..n], e);
      FirstIff(txs, n);
      forall i | 0 <= i < n
        ensures Brings(scan, txs, i, e) <==> Brings(scan, txs[..n], i, e)
      {
        BroughtEarlier(scan, txs, n, i, e);
      }
      if exists i :: Brings(scan, txs, i, e) {
        var i :| Brings(scan, txs, i, e);
        assert i < n ==> Brings(scan, txs[..n], i, e);
      }
      var brought := Event(txs[n].hash, txs[n].message, scan(txs[n].value));
      assert Brings(scan, txs, n, e) <==> FirstOf(txs, n) && e == brought;
    }
  }

  /** Events come in the order of their transactions. */
  lemma {:induction false} PolledInOrder(scan: string -> int, seen: set<string>, txs: seq<TonTx>, n: nat)
    requires n <= |txs|
    ensures Polled(scan, seen, txs[..n]) <= Polled(scan, seen, txs)
  {
    if n == |txs| {
      assert txs[..n] == txs;
    } else {
      assert txs[..|txs| - 1][..n] == txs[..n];
      PolledInOrder(scan, seen, txs[..|txs| - 1], n);
    }
  }

  /** What a watcher delivers over all its polls. */
  function Delivered(scan: string -> int, batches: seq<seq<TonTx>>): (seq<Event>, set<string>) {
    if batches == [] then ([], {})
    else
      var (events, seen) := Delivered(scan, batches[..|batches| - 1]);
      var txs := batches[|batches| - 1];
      (events + Polled(scan, seen, txs), seen + Hashes(txs))
  }

  /** One watcher delivers each hash at most once. */
  lemma {:induction false} DeliveredOnce(scan: string -> int, batches: seq<seq<TonTx>>)
    ensures var (events, seen) := Delivered(scan, batches);
      DistinctHashes(events) && forall e :: e in events ==> e.hash in seen
  {
    if batches != [] {
      var init, txs := batches[..|batches| - 1], batches[|batches| - 1];
      DeliveredOnce(scan, init);
      var (events, seen) := Delivered(scan, init);
      PolledAreNew(scan, seen, txs);
      PolledIff(scan, seen, txs, "");
      var more := Polled(scan, seen, txs);
      forall i, j | 0 <= i < j < |events + more|
        ensures (events + more)[i].hash != (events + more)[j].hash
      {
        if i < |events| <= j {
          assert more[j - |events|] in more && events[i] in events;
        }
      }
    }
  }

  // ---- one event ----

  /** The pending invoice with the event's code, if there is one. */
  predicate FindsInvoice(invoices: map<Uuid, Invoice>, code: string, found: Option<Uuid>) {
    if found.Some? then
      code != "" && found.value in invoices && invoices[found.value].code == code
          && invoices[found.value].status.InvoicePending?
    else code == "" || forall id :: id in invoices ==> invoices[id].code != code || !invoices[id].status.InvoicePending?
  }

  datatype Handling = Ignored | NoWallet | VotedDown | Uncredited | Credited(paid: bool)

  class DepositService {
    const store: Store
    const invoices: InvoiceStore
    const guard: Guard
    const guarded: bool
    const handles: map<string, Uuid>

    constructor (store: Store, invoices: InvoiceStore, guard: Guard, guarded: bool, handles: map<string, Uuid>)
      ensures this.store == store && this.invoices == invoices && this.guard == guard && this.guarded == guarded
      ensures this.handles == handles
    {
      this.store, this.invoices, this.guard, this.guarded, this.handles := store, invoices, guard, guarded, handles;
    }

    /** An event without a pending invoice and without a known handle is ignored.
        Any other is put to the vote and credited: to the invoice's wallet if a
        pending invoice has the comment as its code, else to the named wallet. */
    method HandleDeposit(event: Event, tx: Uuid, telegram: string, now: int, order: seq<Option<nat>>)
      returns (r: Handling, invoice: Option<Uuid>)
      requires guard.Ready(order)
      requires forall code :: code in handles ==> handles[code] in store.db.wallets
      modifies store, invoices, guard.engine`stats, guard.engine.workers
      ensures FindsInvoice(old(invoices.invoices), event.code, invoice)
      ensures r.Ignored? <==> invoice.None? && (event.code == "" || event.code !in handles)
      ensures r.NoWallet? <==>
        invoice.Some? && old(invoices.invoices)[invoice.value].wallet !in old(store.db).wallets
      ensures !r.Credited? ==> store.db == old(store.db) && invoices.invoices == old(invoices.invoices)
      ensures r.VotedDown? <==>
        && !r.Ignored? && !r.NoWallet? && guarded && event.hash != ""
        && (old(guard.engine.workers) == [] || guard.engine.threshold >
              |old(guard.Yes(Tx("deposit-" + event.hash, event.hash, "wallet-tg-" + telegram, event.amount, now),
                  order))|)
      ensures r.Credited? || r.Uncredited? ==>
        var wallet := if invoice.Some? then old(invoices.invoices)[invoice.value].wallet else handles[event.code];
        var (db, outcome) := Apply(store.h, old(store.db),
            Op.Deposit(tx, wallet, event.amount, event.hash, event.code));
        store.db == db && (r.Uncredited? <==> outcome.Failed?)
      ensures r.Credited? && invoice.None? ==> !r.paid && invoices.invoices == old(invoices.invoices)
      ensures r.Credited? && invoice.Some? ==>
        var (inv, paid) := Receive(old(invoices.invoices)[invoice.value], event.amount, event.hash);
        && r.paid == paid && invoices.invoices == old(invoices.invoices)[invoice.value := inv]
        && Receipted(old(invoices.invoices)[invoice.value], inv, event.amount, event.hash, r.paid)
    {
      invoice := None;
      if event.code != "" {
        invoice := invoices.FindPendingInvoiceByCode(event.code);
      }
      var wallet: Uuid;
      if invoice.Some? {
        wallet := invoices.invoices[invoice.value].wallet;
        if wallet !in store.db.wallets {
          return NoWallet, invoice;
        }
      } else if event.code != "" && event.code in handles {
        wallet := handles[event.code];
      } else {
        return Ignored, invoice;
      }
      if guarded {
        var ok := guard.CheckDeposit(telegram, event.amount, event.hash, now, order);
        if !ok {
          return VotedDown, invoice;
        }
      }
      var outcome := store.Deposit(tx, wallet, event.amount, event.hash, event.code);
      if outcome.Failed? {
        return Uncredited, invoice;
      }
      var paid := false;
      if invoice.Some? {
        var found;
        found, paid := invoices.AddInvoiceReceipt(invoice.value, event.amount, event.hash);
      }
      return Credited(paid), invoice;
    }
  }
}
