/** The repository object: each method performs its writes one by one inside a
    database transaction that is rolled back on failure. */
module WalletStore {
  import opened Records
  import opened HashChain
  import opened Operations
  import opened Bookkeeping

  class Store {
    const h: Hasher
    var db: DB

    constructor (h: Hasher)
      ensures this.h == h && db == EMPTY
    {
      this.h := h;
      db := EMPTY;
    }

    // ---- single statements ----

    method UpdateWallet(id: Uuid, ton: int, credit: int, frozen: int)
      modifies this
      ensures db == old(db).(wallets := Update(old(db).wallets, Delta(id, ton, credit, frozen)))
    {
      if id in db.wallets {
        var w := db.wallets[id];
        var changed := Wallet(w.ton + ton, w.credit + credit, w.frozen + frozen);
        db := db.(wallets := db.wallets[id := changed]);
      }
    }

    method InsertTx(t: Transaction) returns (ok: bool)
      modifies this
      ensures ok == FreshId(old(db).txs, t.id)
      ensures db == if ok then old(db).(txs := old(db).txs + [t]) else old(db)
    {
      ok := FreshId(db.txs, t.id);
      if ok {
        db := db.(txs := db.txs + [t]);
      }
    }

    /** Reads the tip, links the movement to it and inserts the block. */
    method AppendLedger(m: Move)
      modifies this
      ensures db == old(db).(ledger := Append(h, old(db).ledger, [m]))
    {
      var tip := Tip(db.ledger);
      var e := Link(h, m, tip.0, tip.1);
      db := db.(ledger := db.ledger + [e]);
      AppendOne(h, old(db).ledger, m);
    }

    // ---- operations ----

    method GetOrCreateWallet(id: Uuid)
      modifies this
      ensures db == Apply(h, old(db), Register(id)).0
      ensures db == old(db).(wallets := if id in old(db).wallets then old(db).wallets
                                       else old(db).wallets[id := Wallet(0, 0, 0)])
    {
      if id !in db.wallets {
        db := db.(wallets := db.wallets[id := Wallet(0, 0, 0)]);
      }
    }

    method Deposit(tx: Uuid, wallet: Uuid, amount: int, hash: string, ref: string) returns (r: Outcome)
      modifies this
      ensures (db, r) == Apply(h, old(db), Op.Deposit(tx, wallet, amount, hash, ref))
      ensures Describes(old(db), Op.Deposit(tx, wallet, amount, hash, ref), db, r)
    {
      CallDescribed(h, db, Op.Deposit(tx, wallet, amount, hash, ref));
      var begin := db;
      var existing := FindTx(db.txs, ByHash(hash));
      if existing.Some? {
        return Duplicate(existing.value);
      }
      if wallet !in db.wallets {
        return Failed(WalletMissing);
      }
      var w := db.wallets[wallet];
      var row := Transaction(tx, wallet, TxDeposit, amount, "", ref, OnChain(hash));
      var block := Move(tx, wallet, CREDIT, amount, w.ton + w.credit + amount);
      SingleEffect(h, begin, Op.Deposit(tx, wallet, amount, hash, ref), Delta(wallet, amount, 0, 0), row, block, Keep);
      UpdateWallet(wallet, amount, 0, 0);
      var ok := InsertTx(row);
      if !ok {
        db := begin;
        return Failed(KeyClash);
      }
      AppendLedger(block);
      return Applied;
    }

    method Deduct(tx: Uuid, wallet: Uuid, amount: int, service: string, ref: string) returns (r: Outcome)
      modifies this
      ensures (db, r) == Apply(h, old(db), Op.Deduct(tx, wallet, amount, service, ref))
      ensures Describes(old(db), Op.Deduct(tx, wallet, amount, service, ref), db, r)
    {
      CallDescribed(h, db, Op.Deduct(tx, wallet, amount, service, ref));
      if amount <= 0 {
        return Failed(InvalidAmount);
      }
      var begin := db;
      if ref != "" {
        var existing := FindTx(db.txs, ByRef(wallet, service, ref, TxPayment));
        if existing.Some? {
          return Duplicate(existing.value);
        }
      }
      if wallet !in db.wallets {
        return Failed(WalletMissing);
      }
      var w := db.wallets[wallet];
      if !w.HasEnough(amount) {
        return Failed(Insufficient);
      }
      var creditUsed, tonUsed := 0, 0;
      if w.credit >= amount {
        creditUsed := amount;
      } else {
        creditUsed := w.credit;
        tonUsed := amount - creditUsed;
      }
      var tonCut, creditCut := Positive(tonUsed), Positive(creditUsed);
      var row := Transaction(tx, wallet, TxPayment, -amount, service, ref, Internal);
      var block := Move(tx, wallet, DEBIT, amount, (w.ton + w.credit) - amount);
      SingleEffect(h, begin, Op.Deduct(tx, wallet, amount, service, ref), Delta(wallet, -tonCut, -creditCut, 0), row,
          block, Keep);
      UpdateWallet(wallet, -tonCut, -creditCut, 0);
      var ok := InsertTx(row);
      if !ok {
        db := begin;
        return Failed(KeyClash);
      }
      AppendLedger(block);
      return Applied;
    }

    method AddCredit(tx: Uuid, wallet: Uuid, amount: int, service: string, ref: string) returns (r: Outcome)
      modifies this
      ensures (db, r) == Apply(h, old(db), Op.AddCredit(tx, wallet, amount, service, ref))
      ensures Describes(old(db), Op.AddCredit(tx, wallet, amount, service, ref), db, r)
    {
      CallDescribed(h, db, Op.AddCredit(tx, wallet, amount, service, ref));
      if amount <= 0 {
        return Failed(InvalidAmount);
      }
      if service == "" || ref == "" {
        return Failed(KeyRequired);
      }
      var begin := db;
      if wallet !in db.wallets {
        return Failed(WalletMissing);
      }
      var w := db.wallets[wallet];
      var existing := FindTx(db.txs, ByRef(wallet, service, ref, TxCreditAdd));
      if existing.Some? {
        return Duplicate(existing.value);
      }
      var row := Transaction(tx, wallet, TxCreditAdd, amount, service, ref, Internal);
      var block := Move(tx, wallet, CREDIT, amount, w.ton + w.credit + amount);
      SingleEffect(h, begin, Op.AddCredit(tx, wallet, amount, service, ref), Delta(wallet, 0, amount, 0), row, block,
          Keep);
      UpdateWallet(wallet, 0, amount, 0);
      var ok := InsertTx(row);
      if !ok {
        db := begin;
        return Failed(KeyClash);
      }
      AppendLedger(block);
      return Applied;
    }

    method Transfer(tx: Uuid, toTx: Uuid, from: Uuid, to: Uuid, amount: int) returns (r: Outcome)
      modifies this
      ensures (db, r) == Apply(h, old(db), Op.Transfer(tx, toTx, from, to, amount))
      ensures Describes(old(db), Op.Transfer(tx, toTx, from, to, amount), db, r)
    {
      CallDescribed(h, db, Op.Transfer(tx, toTx, from, to, amount));
      if amount <= 0 {
        return Failed(InvalidAmount);
      }
      var begin := db;
      if from !in db.wallets || to !in db.wallets {
        return Failed(WalletMissing);
      }
      var sender, receiver := db.wallets[from], db.wallets[to];
      if !sender.HasEnough(amount) {
        return Failed(Insufficient);
      }
      var creditUsed, tonUsed := 0, 0;
      if sender.credit >= amount {
        creditUsed := amount;
      } else {
        creditUsed := sender.credit;
        tonUsed := amount - creditUsed;
      }
      var tonMoved, creditMoved := Positive(tonUsed), Positive(creditUsed);
      var debit := Transaction(tx, from, TxPayment, -amount, "", "", Internal);
      var credit := Transaction(toTx, to, TxDeposit, amount, "", "", Internal);
      var out := Move(tx, from, DEBIT, amount, (sender.ton + sender.credit) - amount);
      var into := Move(toTx, to, CREDIT, amount, (receiver.ton + receiver.credit) + amount);
      TransferEffect(h, begin, tx, toTx, from, to, amount, tonMoved, creditMoved, debit, credit, out, into);
      var ok := WriteTransfer(debit, credit, out, into, tonMoved, creditMoved);
      return if ok then Applied else Failed(KeyClash);
    }

    /** The writes of a transfer: both rows, both transactions, both blocks. */
    method WriteTransfer(debit: Transaction, credit: Transaction, out: Move, into: Move, ton: int, cr: int)
      returns (ok: bool)
      modifies this
      ensures ok == (FreshId(old(db).txs, debit.id) && FreshId(old(db).txs + [debit], credit.id))
      ensures !ok ==> db == old(db)
      ensures ok ==>
        db.wallets == Update(Update(old(db).wallets, Delta(debit.wallet, -ton, -cr, 0)),
            Delta(credit.wallet, ton, cr, 0))
      ensures ok ==> db.txs == old(db).txs + [debit] + [credit] && db.requests == old(db).requests
      ensures ok ==> db.ledger == Append(h, Append(h, old(db).ledger, [out]), [into])
    {
      var begin := db;
      UpdateWallet(debit.wallet, -ton, -cr, 0);
      UpdateWallet(credit.wallet, ton, cr, 0);
      ok := InsertTx(debit);
      if ok {
        ok := InsertTx(credit);
      }
      if !ok {
        db := begin;
        return;
      }
      AppendLedger(out);
      AppendLedger(into);
    }

    method CreateWithdraw(id: Uuid, wallet: Uuid, amount: int, fee: int) returns (r: Outcome)
      modifies this
      ensures (db, r) == Apply(h, old(db), Op.CreateWithdraw(id, wallet, amount, fee))
      ensures Describes(old(db), Op.CreateWithdraw(id, wallet, amount, fee), db, r)
    {
      CallDescribed(h, db, Op.CreateWithdraw(id, wallet, amount, fee));
      var total := amount + fee;
      var begin := db;
      if wallet !in db.wallets {
        return Failed(WalletMissing);
      }
      if !db.wallets[wallet].HasEnough(total) {
        return Failed(Insufficient);
      }
      var request := Request(id, wallet, amount, fee, Pending);
      CommitHold(h, begin, Delta(wallet, 0, 0, total), [], Open(request));
      UpdateWallet(wallet, 0, 0, total);
      if FindRequest(db.requests, id).Some? {
        db := begin;
        return Failed(KeyClash);
      }
      db := db.(requests := db.requests + [request]);
      return Applied;
    }

    method CompleteWithdraw(tx: Uuid, id: Uuid, hash: string) returns (r: Outcome)
      modifies this
      ensures (db, r) == Apply(h, old(db), Op.CompleteWithdraw(tx, id, hash))
      ensures Describes(old(db), Op.CompleteWithdraw(tx, id, hash), db, r)
    {
      CallDescribed(h, db, Op.CompleteWithdraw(tx, id, hash));
      var found := FindRequest(db.requests, id);
      if found.None? {
        return Failed(RequestMissing);
      }
      var q := found.value;
      if q.wallet !in db.wallets {
        return Failed(WalletMissing);
      }
      var w := db.wallets[q.wallet];
      var total := q.amount + q.fee;
      var row := Transaction(tx, q.wallet, TxWithdraw, -total, "", id, OnChain(hash));
      var block := Move(tx, q.wallet, DEBIT, total, (w.ton + w.credit) - total);
      CompletionEffect(h, db, tx, id, hash, q, row, block);
      var ok := WriteCompletion(row, block, total, id);
      return if ok then Applied else Failed(KeyClash);
    }

    /** The writes of a completed withdrawal: the row, its transaction and block
        and the request's status. */
    method WriteCompletion(row: Transaction, block: Move, total: int, id: Uuid) returns (ok: bool)
      modifies this
      ensures ok == FreshId(old(db).txs, row.id)
      ensures db ==
        if ok then
          DB(Update(old(db).wallets, Delta(row.wallet, -total, 0, -total)), old(db).txs + [row],
              Append(h, old(db).ledger, [block]), SetStatus(old(db).requests, id, Done))
        else old(db)
    {
      var begin := db;
      UpdateWallet(row.wallet, -total, 0, -total);
      ok := InsertTx(row);
      if !ok {
        db := begin;
        return;
      }
      AppendLedger(block);
      db := db.(requests := SetStatus(db.requests, id, Done));
    }

    method RejectWithdraw(tx: Uuid, id: Uuid) returns (r: Outcome)
      modifies this
      ensures (db, r) == Apply(h, old(db), Op.RejectWithdraw(tx, id))
      ensures Describes(old(db), Op.RejectWithdraw(tx, id), db, r)
    {
      CallDescribed(h, db, Op.RejectWithdraw(tx, id));
      var begin := db;
      var found := FindRequest(db.requests, id);
      if found.None? {
        return Failed(RequestMissing);
      }
      var q := found.value;
      var row := Transaction(tx, q.wallet, TxRefund, 0, "", id, Internal);
      var release := -(q.amount + q.fee);
      SilentEffect(h, begin, Op.RejectWithdraw(tx, id), Delta(q.wallet, 0, 0, release), row, Settle(id, Rejected));
      UpdateWallet(q.wallet, 0, 0, release);
      var ok := InsertTx(row);
      if !ok {
        db := begin;
        return Failed(KeyClash);
      }
      db := db.(requests := SetStatus(db.requests, id, Rejected));
      return Applied;
    }
  }

  // ---- one statement at a time is the same as all at once ----

  lemma AppendOne(h: Hasher, chain: seq<LedgerEntry>, m: Move)
    ensures var (n, hash) := Tip(chain);
      Append(h, chain, [m]) == chain + [LedgerEntry(n + 1, m, hash, h(n + 1, m, hash))]
  {
    assert [m][..0] == [];
  }

  lemma UpdateOne(wallets: map<Uuid, Wallet>, d: Delta)
    ensures UpdateAll(wallets, [d]) == Update(wallets, d)
  {
    assert [d][..0] == [];
  }

  lemma OneRow(txs: seq<Transaction>, t: Transaction)
    ensures RowsFree(txs, [t]) <==> FreshId(txs, t.id)
  {
    assert txs + [t][..0] == txs;
  }

  lemma TwoRows(txs: seq<Transaction>, t: Transaction, u: Transaction)
    ensures RowsFree(txs, [t, u]) <==> FreshId(txs, t.id) && FreshId(txs + [t], u.id)
  {
    var rows := [t, u];
    assert txs + rows[..0] == txs && txs + rows[..1] == txs + [t];
    assert rows[0] == t && rows[1] == u;
    assert RowsFree(txs, rows) <==> FreshId(txs + rows[..0], rows[0].id) && FreshId(txs + rows[..1], rows[1].id);
  }

  lemma CommitOne(h: Hasher, db: DB, d: Delta, t: Transaction, m: Move, c: RequestChange)
    requires !c.Open?
    ensures Commit(h, db, Plan([d], [t], [m], c)) ==
      DB(Update(db.wallets, d), db.txs + [t], Append(h, db.ledger, [m]), ChangeRequests(db.requests, c))
    ensures KeysFree(db, Plan([d], [t], [m], c)) == FreshId(db.txs, t.id)
  {
    UpdateOne(db.wallets, d);
    OneRow(db.txs, t);
  }

  /** An operation that decides on one row, one transaction and one block. */
  lemma SingleEffect(h: Hasher, db: DB, op: Op, d: Delta, t: Transaction, m: Move, c: RequestChange)
    requires !op.Register? && !c.Open? && EarlierTx(db.txs, op).None?
    requires Decide(db.wallets, db.txs, RequestOf(db.requests, op), op) == Go(Plan([d], [t], [m], c))
    ensures Apply(h, db, op) ==
      if FreshId(db.txs, t.id) then
        (DB(Update(db.wallets, d), db.txs + [t], Append(h, db.ledger, [m]), ChangeRequests(db.requests, c)), Applied)
      else (db, Failed(KeyClash))
  {
    CommitOne(h, db, d, t, m, c);
  }

  /** An operation that decides on one row and one transaction, with no block. */
  lemma SilentEffect(h: Hasher, db: DB, op: Op, d: Delta, t: Transaction, c: RequestChange)
    requires !op.Register? && !c.Open? && EarlierTx(db.txs, op).None?
    requires Decide(db.wallets, db.txs, RequestOf(db.requests, op), op) == Go(Plan([d], [t], [], c))
    ensures Apply(h, db, op) ==
      if FreshId(db.txs, t.id) then
        (DB(Update(db.wallets, d), db.txs + [t], db.ledger, ChangeRequests(db.requests, c)), Applied)
      else (db, Failed(KeyClash))
  {
    CommitHold(h, db, d, [t], c);
  }

  lemma CommitTwo(h: Hasher, db: DB, d: Delta, e: Delta, t: Transaction, u: Transaction, m: Move, n: Move)
    ensures Commit(h, db, Plan([d, e], [t, u], [m, n], Keep)) ==
      DB(Update(Update(db.wallets, d), e), db.txs + [t] + [u], Append(h, Append(h, db.ledger, [m]), [n]), db.requests)
    ensures KeysFree(db, Plan([d, e], [t, u], [m, n], Keep)) == (FreshId(db.txs, t.id) && FreshId(db.txs + [t], u.id))
  {
    assert [d, e][..1] == [d] && [m, n][..1] == [m];
    UpdateOne(db.wallets, d);
    AppendOne(h, db.ledger, m);
    AppendOne(h, Append(h, db.ledger, [m]), n);
    TwoRows(db.txs, t, u);
    assert db.txs + [t] + [u] == db.txs + [t, u];
  }

  lemma TransferEffect(h: Hasher, db: DB, tx: Uuid, toTx: Uuid, from: Uuid, to: Uuid, amount: int, ton: int,
                       credit: int,
                       t: Transaction, u: Transaction, m: Move, n: Move)
    requires amount > 0 && from in db.wallets && to in db.wallets && db.wallets[from].HasEnough(amount)
    requires ton == Positive(Split(db.wallets[from], amount).1) && credit == Positive(Split(db.wallets[from], amount).0)
    requires t == Transaction(tx, from, TxPayment, -amount, "", "", Internal)
    requires u == Transaction(toTx, to, TxDeposit, amount, "", "", Internal)
    requires m == Move(tx, from, DEBIT, amount, db.wallets[from].Total() - amount)
    requires n == Move(toTx, to, CREDIT, amount, db.wallets[to].Total() + amount)
    ensures Apply(h, db, Transfer(tx, toTx, from, to, amount)) ==
      if FreshId(db.txs, t.id) && FreshId(db.txs + [t], u.id) then
        (DB(Update(Update(db.wallets, Delta(from, -ton, -credit, 0)), Delta(to, ton, credit, 0)),
            db.txs + [t] + [u], Append(h, Append(h, db.ledger, [m]), [n]), db.requests), Applied)
      else (db, Failed(KeyClash))
  {
    CommitTwo(h, db, Delta(from, -ton, -credit, 0), Delta(to, ton, credit, 0), t, u, m, n);
  }

  lemma CompletionEffect(h: Hasher, db: DB, tx: Uuid, id: Uuid, hash: string, q: Request, t: Transaction, m: Move)
    requires FindRequest(db.requests, id) == Some(q) && q.wallet in db.wallets
    requires t == Transaction(tx, q.wallet, TxWithdraw, -q.Total(), "", id, OnChain(hash))
    requires m == Move(tx, q.wallet, DEBIT, q.Total(), db.wallets[q.wallet].Total() - q.Total())
    ensures Apply(h, db, CompleteWithdraw(tx, id, hash)) ==
      if FreshId(db.txs, tx) then
        (DB(Update(db.wallets, Delta(q.wallet, -q.Total(), 0, -q.Total())), db.txs + [t], Append(h, db.ledger, [m]),
            SetStatus(db.requests, id, Done)), Applied)
      else (db, Failed(KeyClash))
  {
    SingleEffect(h, db, CompleteWithdraw(tx, id, hash), Delta(q.wallet, -q.Total(), 0, -q.Total()), t, m,
        Settle(id, Done));
  }

  lemma CommitHold(h: Hasher, db: DB, d: Delta, rows: seq<Transaction>, c: RequestChange)
    ensures Commit(h, db, Plan([d], rows, [], c)) ==
      DB(Update(db.wallets, d), db.txs + rows, db.ledger, ChangeRequests(db.requests, c))
    ensures rows == [] ==> db.txs + rows == db.txs
    ensures |rows| == 1 ==> RowsFree(db.txs, rows) == FreshId(db.txs, rows[0].id)
  {
    UpdateOne(db.wallets, d);
    if |rows| == 1 {
      assert rows == [rows[0]];
      OneRow(db.txs, rows[0]);
    }
  }
}
