/** What each operation does and when, said of the rows, transactions, blocks
    and requests before and after it. */
module Bookkeeping {
  import opened Records
  import opened HashChain
  import opened Operations
  import opened LedgerAgreement
  import opened Holds

  // ---- rows ----

  /** `s` is `r` after it has paid: TON covers only what the credit does not,
      and falls only if that leaves no credit. */
  predicate Pays(r: Wallet, s: Wallet, amount: int) {
    && s.frozen == r.frozen && s.ton + s.credit == r.ton + r.credit - amount
    && r.ton - s.ton == (if amount > r.credit then amount - r.credit else 0)
    && (s.ton < r.ton ==> s.credit == 0)
  }

  /** `s` is `r` after a payer with so much credit has paid it: as credit what
      the payer had as credit, the rest as TON. */
  predicate IsPaid(r: Wallet, s: Wallet, amount: int, payerCredit: int) {
    && s.frozen == r.frozen && s.ton + s.credit == r.ton + r.credit + amount
    && s.credit - r.credit == (if amount < payerCredit then amount else payerCredit)
  }

  predicate OthersStay(before: map<Uuid, Wallet>, after: map<Uuid, Wallet>, touched: set<Uuid>) {
    && touched <= before.Keys && after.Keys == before.Keys
    && forall w :: w in before && w !in touched ==> after[w] == before[w]
  }

  predicate OnlyRow(before: map<Uuid, Wallet>, after: map<Uuid, Wallet>, wallet: Uuid, ton: int, credit: int,
                    frozen: int) {
    && OthersStay(before, after, {wallet})
    && after[wallet] == Wallet(before[wallet].ton + ton, before[wallet].credit + credit, before[wallet].frozen + frozen)
  }

  /** One transaction with its block, which shows the wallet's new total. */
  predicate Enters(before: DB, after: DB, t: Transaction, kind: string, amount: int) {
    && after.txs == before.txs + [t] && t.wallet in before.wallets
    && var w := before.wallets[t.wallet];
      Moves(after.ledger) == Moves(before.ledger) + [Move(t.id, t.wallet, kind, amount, w.ton + w.credit + t.amount)]
  }

  predicate Settles(before: seq<Request>, after: seq<Request>, id: Uuid, status: RequestStatus) {
    && |after| == |before|
    && forall i :: 0 <= i < |before| ==>
        after[i] == if before[i].id == id then before[i].(status := status) else before[i]
  }

  // ---- one operation ----

  predicate DidPay(before: DB, after: DB, tx: Uuid, wallet: Uuid, amount: int, service: string, ref: string) {
    && OthersStay(before.wallets, after.wallets, {wallet})
    && Pays(before.wallets[wallet], after.wallets[wallet], amount)
    && Enters(before, after, Transaction(tx, wallet, TxPayment, -amount, service, ref, Internal), "debit", amount)
    && after.requests == before.requests
  }

  predicate DidMove(before: map<Uuid, Wallet>, after: map<Uuid, Wallet>, from: Uuid, to: Uuid, amount: int) {
    && OthersStay(before, after, {from, to})
    && (from == to ==> after == before)
    && (from != to ==> Pays(before[from], after[from], amount))
    && (from != to ==> IsPaid(before[to], after[to], amount, before[from].credit))
  }

  predicate DidTransfer(before: DB, after: DB, tx: Uuid, toTx: Uuid, from: Uuid, to: Uuid, amount: int) {
    && DidMove(before.wallets, after.wallets, from, to, amount)
    && after.txs == before.txs
        + [Transaction(tx, from, TxPayment, -amount, "", "", Internal),
           Transaction(toTx, to, TxDeposit, amount, "", "", Internal)]
    && after.requests == before.requests
    && var sender, receiver := before.wallets[from], before.wallets[to];
      Moves(after.ledger) == Moves(before.ledger)
        + [Move(tx, from, "debit", amount, sender.ton + sender.credit - amount),
           Move(toTx, to, "credit", amount, receiver.ton + receiver.credit + amount)]
  }

  predicate DidHold(before: DB, after: DB, q: Request) {
    && OnlyRow(before.wallets, after.wallets, q.wallet, 0, 0, q.amount + q.fee)
    && after.txs == before.txs && Moves(after.ledger) == Moves(before.ledger)
    && after.requests == before.requests + [q]
  }

  predicate DidComplete(before: DB, after: DB, tx: Uuid, q: Request, hash: string) {
    && OnlyRow(before.wallets, after.wallets, q.wallet, -(q.amount + q.fee), 0, -(q.amount + q.fee))
    && Enters(before, after, Transaction(tx, q.wallet, TxWithdraw, -(q.amount + q.fee), "", q.id, OnChain(hash)),
        "debit", q.amount + q.fee)
    && Settles(before.requests, after.requests, q.id, Done)
  }

  /** Rejecting the request of a wallet that does not exist leaves the rows. */
  predicate DidReject(before: DB, after: DB, tx: Uuid, q: Request) {
    && (if q.wallet in before.wallets then
          OnlyRow(before.wallets, after.wallets, q.wallet, 0, 0, -(q.amount + q.fee))
        else after.wallets == before.wallets)
    && after.txs == before.txs + [Transaction(tx, q.wallet, TxRefund, 0, "", q.id, Internal)]
    && Moves(after.ledger) == Moves(before.ledger)
    && Settles(before.requests, after.requests, q.id, Rejected)
  }

  /** What an applied operation has done. */
  predicate Did(before: DB, after: DB, op: Op) {
    match op
    case Register(w) =>
      if w in before.wallets then after == before
      else after == before.(wallets := before.wallets[w := Wallet(0, 0, 0)])
    case Deposit(tx, w, amount, hash, ref) =>
      && OnlyRow(before.wallets, after.wallets, w, amount, 0, 0)
      && Enters(before, after, Transaction(tx, w, TxDeposit, amount, "", ref, OnChain(hash)), "credit", amount)
      && after.requests == before.requests
    case Deduct(tx, w, amount, service, ref) => DidPay(before, after, tx, w, amount, service, ref)
    case AddCredit(tx, w, amount, service, ref) =>
      && OnlyRow(before.wallets, after.wallets, w, 0, amount, 0)
      && Enters(before, after, Transaction(tx, w, TxCreditAdd, amount, service, ref, Internal), "credit", amount)
      && after.requests == before.requests
    case Transfer(tx, toTx, from, to, amount) => DidTransfer(before, after, tx, toTx, from, to, amount)
    case CreateWithdraw(id, w, amount, fee) => DidHold(before, after, Request(id, w, amount, fee, Pending))
    case CompleteWithdraw(tx, id, hash) =>
      && FindRequest(before.requests, id).Some?
      && DidComplete(before, after, tx, FindRequest(before.requests, id).value, hash)
    case RejectWithdraw(tx, id) =>
      FindRequest(before.requests, id).Some? && DidReject(before, after, tx, FindRequest(before.requests, id).value)
  }

  lemma OneBooked(h: Hasher, before: DB, after: DB, p: Plan, t: Transaction, kind: string, amount: int)
    requires after == Commit(h, before, p) && p.rows == [t] && t.wallet in before.wallets
    requires p.moves == [Move(t.id, t.wallet, kind, amount, before.wallets[t.wallet].Total() + t.amount)]
    ensures Enters(before, after, t, kind, amount)
  {
    AppendMoves(h, before.ledger, p.moves);
  }

  lemma NoneBooked(h: Hasher, before: DB, after: DB, p: Plan)
    requires after == Commit(h, before, p) && p.moves == []
    ensures after.ledger == before.ledger && after.txs == before.txs + p.rows
  {
  }

  lemma OneRowDone(wallets: map<Uuid, Wallet>, p: Plan, d: Delta)
    requires p.deltas == [d] && d.wallet in wallets
    ensures OnlyRow(wallets, UpdateAll(wallets, p.deltas), d.wallet, d.ton, d.credit, d.frozen)
  {
    OneUpdate(wallets, p);
  }

  lemma PaymentDone(h: Hasher, before: DB, after: DB, op: Op, p: Plan)
    requires op.Deduct? && Decide(before.wallets, before.txs, None, op) == Go(p) && after == Commit(h, before, p)
    requires CreditsNonNegative(before.wallets)
    ensures Did(before, after, op)
  {
    var amount := op.amount;
    var t := Transaction(op.tx, op.wallet, TxPayment, -amount, op.service, op.ref, Internal);
    OneRowDone(before.wallets, p, p.deltas[0]);
    OneBooked(h, before, after, p, t, DEBIT, amount);
  }

  lemma MoveDone(wallets: map<Uuid, Wallet>, from: Uuid, to: Uuid, amount: int, p: Plan)
    requires from in wallets && to in wallets && CreditsNonNegative(wallets) && amount > 0 && |p.deltas| == 2
    requires var s := Split(wallets[from], amount);
      && p.deltas[0] == Delta(from, -Positive(s.1), -Positive(s.0), 0)
      && p.deltas[1] == Delta(to, Positive(s.1), Positive(s.0), 0)
    ensures DidMove(wallets, UpdateAll(wallets, p.deltas), from, to, amount)
  {
    TwoUpdates(wallets, p);
  }

  lemma TransferDone(h: Hasher, before: DB, after: DB, op: Op, p: Plan)
    requires op.Transfer? && Decide(before.wallets, before.txs, None, op) == Go(p) && after == Commit(h, before, p)
    requires CreditsNonNegative(before.wallets)
    ensures Did(before, after, op)
  {
    MoveDone(before.wallets, op.from, op.to, op.amount, p);
    AppendMoves(h, before.ledger, p.moves);
  }

  lemma CompletionPlan(rows: map<Uuid, Wallet>, txs: seq<Transaction>, op: Op, q: Request, p: Plan)
    requires op.CompleteWithdraw? && Decide(rows, txs, Some(q), op) == Go(p) && q.id == op.request
    ensures q.wallet in rows && p.deltas == [Delta(q.wallet, -q.Total(), 0, -q.Total())]
    ensures p.rows == [Transaction(op.tx, q.wallet, TxWithdraw, -q.Total(), "", q.id, OnChain(op.hash))]
    ensures p.moves == [Move(op.tx, q.wallet, DEBIT, q.Total(), rows[q.wallet].Total() - q.Total())]
    ensures p.change == Settle(q.id, Done)
  {
  }

  lemma CompletionDone(h: Hasher, before: DB, after: DB, op: Op, q: Request, p: Plan)
    requires op.CompleteWithdraw? && FindRequest(before.requests, op.request) == Some(q)
    requires Decide(before.wallets, before.txs, Some(q), op) == Go(p) && after == Commit(h, before, p)
    ensures Did(before, after, op)
  {
    CompletionPlan(before.wallets, before.txs, op, q, p);
    CompletionBooked(h, before, after, op.tx, q, op.hash, p);
  }

  lemma CompletionBooked(h: Hasher, before: DB, after: DB, tx: Uuid, q: Request, hash: string, p: Plan)
    requires q.wallet in before.wallets && p.deltas == [Delta(q.wallet, -q.Total(), 0, -q.Total())]
    requires p.rows == [Transaction(tx, q.wallet, TxWithdraw, -q.Total(), "", q.id, OnChain(hash))]
    requires p.moves == [Move(tx, q.wallet, DEBIT, q.Total(), before.wallets[q.wallet].Total() - q.Total())]
    requires p.change == Settle(q.id, Done) && after == Commit(h, before, p)
    ensures DidComplete(before, after, tx, q, hash)
  {
    OneRowDone(before.wallets, p, p.deltas[0]);
    OneBooked(h, before, after, p, p.rows[0], DEBIT, q.Total());
  }

  lemma RejectionDone(h: Hasher, before: DB, after: DB, op: Op, q: Request, p: Plan)
    requires op.RejectWithdraw? && FindRequest(before.requests, op.request) == Some(q)
    requires Decide(before.wallets, before.txs, Some(q), op) == Go(p) && after == Commit(h, before, p)
    ensures Did(before, after, op)
  {
    OneUpdate(before.wallets, p);
    NoneBooked(h, before, after, p);
  }

  /** A hold only touches its row, whatever the row it was decided on was. */
  lemma HoldDone(h: Hasher, before: DB, after: DB, rows: map<Uuid, Wallet>, op: Op, p: Plan)
    requires op.CreateWithdraw? && Decide(rows, before.txs, None, op) == Go(p) && after == Commit(h, before, p)
    requires op.wallet in before.wallets
    ensures Did(before, after, op)
  {
    OneRowDone(before.wallets, p, p.deltas[0]);
    NoneBooked(h, before, after, p);
  }

  lemma IncomeDone(h: Hasher, before: DB, after: DB, op: Op, p: Plan)
    requires (op.Deposit? || op.AddCredit?) && Decide(before.wallets, before.txs, None, op) == Go(p)
    requires after == Commit(h, before, p)
    ensures Did(before, after, op)
  {
    OneRowDone(before.wallets, p, p.deltas[0]);
    OneBooked(h, before, after, p, p.rows[0], CREDIT, op.amount);
  }

  lemma PlanDone(h: Hasher, before: DB, after: DB, op: Op, p: Plan)
    requires Decide(before.wallets, before.txs, RequestOf(before.requests, op), op) == Go(p)
    requires after == Commit(h, before, p) && CreditsNonNegative(before.wallets)
    ensures Did(before, after, op)
  {
    match op {
      case Deposit(_, _, _, _, _) => IncomeDone(h, before, after, op, p);
      case Deduct(_, _, _, _, _) => PaymentDone(h, before, after, op, p);
      case AddCredit(_, _, _, _, _) => IncomeDone(h, before, after, op, p);
      case Transfer(_, _, _, _, _) => TransferDone(h, before, after, op, p);
      case CreateWithdraw(_, _, _, _) => HoldDone(h, before, after, before.wallets, op, p);
      case CompleteWithdraw(_, id, _) =>
        CompletionDone(h, before, after, op, FindRequest(before.requests, id).value, p);
      case RejectWithdraw(_, id) => RejectionDone(h, before, after, op, FindRequest(before.requests, id).value, p);
    }
  }

  lemma EffectDid(h: Hasher, db: DB, op: Op, after: DB)
    requires CreditsNonNegative(db.wallets) && Effect(h, db, op) == (after, Applied)
    ensures Did(db, after, op)
  {
    if !op.Register? {
      var p := AppliedPlan(h, db, op, after);
      PlanDone(h, db, after, op, p);
    }
  }

  // ---- when it is applied ----

  /** The row's free total is at least so much. */
  predicate Affords(wallets: map<Uuid, Wallet>, wallet: Uuid, amount: int) {
    wallet in wallets && wallets[wallet].ton + wallets[wallet].credit - wallets[wallet].frozen >= amount
  }

  /** The transaction that makes the call a repetition. */
  predicate SameKey(t: Transaction, op: Op) {
    match op
    case Deposit(_, _, _, hash, _) => t.hash == OnChain(hash)
    case Deduct(_, w, _, service, ref) =>
      ref != "" && t.kind == TxPayment && t.wallet == w && t.service == service && t.ref == ref
    case AddCredit(_, w, _, service, ref) =>
      t.kind == TxCreditAdd && t.wallet == w && t.service == service && t.ref == ref
    case _ => false
  }

  predicate Repeated(txs: seq<Transaction>, op: Op) {
    exists t :: t in txs && SameKey(t, op)
  }

  predicate Taken(txs: seq<Transaction>, id: Uuid) {
    exists t :: t in txs && t.id == id
  }

  predicate Requested(requests: seq<Request>, id: Uuid) {
    exists q :: q in requests && q.id == id
  }

  /** The calls that are applied. */
  predicate Accepts(db: DB, op: Op) {
    match op
    case Register(_) => true
    case Deposit(tx, w, _, _, _) => w in db.wallets && !Repeated(db.txs, op) && !Taken(db.txs, tx)
    case Deduct(tx, w, amount, _, _) =>
      amount > 0 && Affords(db.wallets, w, amount) && !Repeated(db.txs, op) && !Taken(db.txs, tx)
    case AddCredit(tx, w, amount, service, ref) =>
      && amount > 0 && service != "" && ref != ""
      && w in db.wallets && !Repeated(db.txs, op) && !Taken(db.txs, tx)
    case Transfer(tx, toTx, from, to, amount) =>
      && amount > 0 && Affords(db.wallets, from, amount) && to in db.wallets
      && !Taken(db.txs, tx) && !Taken(db.txs, toTx) && tx != toTx
    case CreateWithdraw(id, w, amount, fee) => Affords(db.wallets, w, amount + fee) && !Requested(db.requests, id)
    case CompleteWithdraw(tx, id, _) =>
      && Requested(db.requests, id) && !Taken(db.txs, tx)
      && FindRequest(db.requests, id).Some? && FindRequest(db.requests, id).value.wallet in db.wallets
    case RejectWithdraw(tx, id) => Requested(db.requests, id) && !Taken(db.txs, tx)
  }

  /** What the other answers mean. */
  predicate Explains(db: DB, op: Op, r: Outcome) {
    match r
    case Applied => true
    case Duplicate(t) => t in db.txs && SameKey(t, op)
    case Failed(InvalidAmount) => (op.Deduct? || op.AddCredit? || op.Transfer?) && op.amount <= 0
    case Failed(KeyRequired) => op.AddCredit? && (op.service == "" || op.ref == "")
    case Failed(WalletMissing) =>
      if op.Transfer? then op.from !in db.wallets || op.to !in db.wallets
      else if op.CompleteWithdraw? then
        FindRequest(db.requests, op.request).Some? && FindRequest(db.requests, op.request).value.wallet !in db.wallets
      else !op.Register? && !op.RejectWithdraw? && op.wallet !in db.wallets
    case Failed(Insufficient) =>
      || (op.Deduct? && !Affords(db.wallets, op.wallet, op.amount))
      || (op.Transfer? && !Affords(db.wallets, op.from, op.amount))
      || (op.CreateWithdraw? && !Affords(db.wallets, op.wallet, op.amount + op.fee))
    case Failed(RequestMissing) => (op.CompleteWithdraw? || op.RejectWithdraw?) && !Requested(db.requests, op.request)
    case Failed(KeyClash) =>
      if op.CreateWithdraw? then Requested(db.requests, op.request)
      else !op.Register? && (Taken(db.txs, op.tx) || (op.Transfer? && (Taken(db.txs, op.toTx) || op.tx == op.toTx)))
  }

  lemma OneRowFree(txs: seq<Transaction>, rows: seq<Transaction>)
    requires |rows| == 1
    ensures RowsFree(txs, rows) <==> !Taken(txs, rows[0].id)
  {
    assert txs + rows[..0] == txs;
  }

  lemma TwoRowsFree(txs: seq<Transaction>, rows: seq<Transaction>)
    requires |rows| == 2
    ensures RowsFree(txs, rows) <==>
      !Taken(txs, rows[0].id) && !Taken(txs, rows[1].id) && rows[0].id != rows[1].id
  {
    var more := txs + rows[..1];
    assert txs + rows[..0] == txs && more == txs + [rows[0]];
    assert FreshId(more, rows[1].id) <==> !Taken(txs, rows[1].id) && rows[0].id != rows[1].id by {
      assert more[|txs|] == rows[0];
    }
  }

  lemma PlanKeys(db: DB, request: Option<Request>, op: Op, p: Plan)
    requires Decide(db.wallets, db.txs, request, op) == Go(p)
    ensures KeysFree(db, p) <==>
      match op
      case Register(_) => true
      case Transfer(tx, toTx, _, _, _) => !Taken(db.txs, tx) && !Taken(db.txs, toTx) && tx != toTx
      case CreateWithdraw(id, _, _, _) => !Requested(db.requests, id)
      case _ => !Taken(db.txs, op.tx)
  {
    if op.Transfer? {
      TwoRowsFree(db.txs, p.rows);
    } else if !op.CreateWithdraw? {
      OneRowFree(db.txs, p.rows);
    }
  }

  lemma EarlierMeans(txs: seq<Transaction>, op: Op)
    ensures op.Deposit? || (op.Deduct? && op.amount > 0) ==> (EarlierTx(txs, op).Some? <==> Repeated(txs, op))
    ensures EarlierTx(txs, op).Some? ==> EarlierTx(txs, op).value in txs && SameKey(EarlierTx(txs, op).value, op)
    ensures EarlierTx(txs, op).Some? ==> op.Deposit? || (op.Deduct? && op.amount > 0)
  {
  }

  lemma EffectAnswers(h: Hasher, db: DB, op: Op)
    requires EarlierTx(db.txs, op).None?
    ensures Effect(h, db, op).1.Applied? <==> Accepts(db, op)
    ensures !Effect(h, db, op).1.Applied? ==> Effect(h, db, op).0 == db && Explains(db, op, Effect(h, db, op).1)
  {
    EarlierMeans(db.txs, op);
    if !op.Register? {
      var request := RequestOf(db.requests, op);
      var d := Decide(db.wallets, db.txs, request, op);
      if d.Go? {
        PlanKeys(db, request, op, d.plan);
      }
    }
  }

  /** A call is applied exactly when it is acceptable, and then it does what its
      description says: credit spent before TON, the buckets kept by a transfer,
      one block of the right type for each movement. Otherwise it changes
      nothing, and its answer says why. */
  predicate Describes(before: DB, op: Op, after: DB, r: Outcome) {
    && (r.Applied? <==> Accepts(before, op))
    && (r.Applied? && CreditsNonNegative(before.wallets) ==> Did(before, after, op))
    && (!r.Applied? ==> after == before && Explains(before, op, r))
  }

  lemma CallDescribed(h: Hasher, db: DB, op: Op)
    ensures Describes(db, op, Apply(h, db, op).0, Apply(h, db, op).1)
  {
    EarlierMeans(db.txs, op);
    if EarlierTx(db.txs, op).None? {
      EffectAnswers(h, db, op);
      if CreditsNonNegative(db.wallets) && Effect(h, db, op).1.Applied? {
        EffectDid(h, db, op, Effect(h, db, op).0);
      }
    }
  }

  // ---- runs ----

  /** Every call of every run does what its description says, or nothing. */
  lemma EveryCallDid(h: Hasher, ops: seq<Op>, i: nat)
    requires i < |ops|
    ensures var before, after := Run(h, EMPTY, ops[..i]), Run(h, EMPTY, ops[..i + 1]);
      if Accepts(before, ops[i]) then Did(before, after, ops[i]) else after == before
  {
    var before := Run(h, EMPTY, ops[..i]);
    assert ops[..i + 1][..i] == ops[..i];
    RunAgrees(h, ops[..i]);
    CallDescribed(h, before, ops[i]);
  }
}
