/** What each store operation does to the database, as a decision taken on the
    rows it reads and a commit of relative updates, new rows and new blocks. */
module Operations {
  import opened Records
  import opened HashChain

  /** An operation with its arguments. Identifiers the database generates are
      arguments too, and may clash with existing keys. */
  datatype Op =
    | Register(wallet: Uuid)
    | Deposit(tx: Uuid, wallet: Uuid, amount: int, hash: string, ref: string)
    | Deduct(tx: Uuid, wallet: Uuid, amount: int, service: string, ref: string)
    | AddCredit(tx: Uuid, wallet: Uuid, amount: int, service: string, ref: string)
    | Transfer(tx: Uuid, toTx: Uuid, from: Uuid, to: Uuid, amount: int)
    | CreateWithdraw(request: Uuid, wallet: Uuid, amount: int, fee: int)
    | CompleteWithdraw(tx: Uuid, request: Uuid, hash: string)
    | RejectWithdraw(tx: Uuid, request: Uuid)

  datatype Failure = InvalidAmount | KeyRequired | WalletMissing | Insufficient | RequestMissing | KeyClash

  datatype Outcome = Applied | Duplicate(existing: Transaction) | Failed(why: Failure)

  // ---- idempotency keys ----

  datatype Key = ByHash(hash: string) | ByRef(wallet: Uuid, service: string, ref: string, kind: TxType)

  predicate Matches(t: Transaction, key: Key) {
    match key
    case ByHash(hash) => t.hash == OnChain(hash)
    case ByRef(wallet, service, ref, kind) =>
      t.wallet == wallet && t.service == service && t.ref == ref && t.kind == kind
  }

  function FindTx(txs: seq<Transaction>, key: Key): (r: Option<Transaction>)
    ensures r.Some? ==> r.value in txs && Matches(r.value, key)
    ensures r.None? ==> forall t :: t in txs ==> !Matches(t, key)
  {
    if txs == [] then None
    else if Matches(txs[0], key) then Some(txs[0])
    else FindTx(txs[1..], key)
  }

  /** The key under which a repeated call is recognised, if it has one. */
  function KeyOf(op: Op): Option<Key> {
    match op
    case Deposit(_, _, _, hash, _) => Some(ByHash(hash))
    case Deduct(_, wallet, amount, service, ref) =>
      if amount > 0 && ref != "" then Some(ByRef(wallet, service, ref, TxPayment)) else None
    case AddCredit(_, wallet, amount, service, ref) =>
      if amount > 0 && service != "" && ref != "" then Some(ByRef(wallet, service, ref, TxCreditAdd)) else None
    case _ => None
  }

  /** The duplicate check `Deposit` and `Deduct` make before they lock a row. */
  function EarlierTx(txs: seq<Transaction>, op: Op): Option<Transaction> {
    if (op.Deposit? || op.Deduct?) && KeyOf(op).Some? then FindTx(txs, KeyOf(op).value) else None
  }

  // ---- relative row updates ----

  datatype Delta = Delta(wallet: Uuid, ton: int, credit: int, frozen: int)

  /** `UPDATE ... WHERE id = ?`: a missing row is no error and no change. */
  function Update(wallets: map<Uuid, Wallet>, d: Delta): map<Uuid, Wallet> {
    if d.wallet in wallets then
      var w := wallets[d.wallet];
      wallets[d.wallet := Wallet(w.ton + d.ton, w.credit + d.credit, w.frozen + d.frozen)]
    else wallets
  }

  function UpdateAll(wallets: map<Uuid, Wallet>, ds: seq<Delta>): map<Uuid, Wallet> {
    if ds == [] then wallets else Update(UpdateAll(wallets, ds[..|ds| - 1]), ds[|ds| - 1])
  }

  /** Credit is spent first and TON covers the rest. */
  function Split(w: Wallet, amount: int): (int, int) {
    if w.credit >= amount then (amount, 0) else (w.credit, amount - w.credit)
  }

  /** A column is only updated by a positive part. */
  function Positive(n: int): int {
    if n > 0 then n else 0
  }

  // ---- withdrawal requests ----

  function FindRequest(requests: seq<Request>, id: Uuid): (r: Option<Request>)
    ensures r.Some? ==> r.value in requests && r.value.id == id
    ensures r.None? ==> forall q :: q in requests ==> q.id != id
  {
    if requests == [] then None
    else if requests[0].id == id then Some(requests[0])
    else FindRequest(requests[1..], id)
  }

  function SetStatus(requests: seq<Request>, id: Uuid, status: RequestStatus): (r: seq<Request>)
    ensures |r| == |requests|
    ensures forall i :: 0 <= i < |r| ==>
      r[i] == if requests[i].id == id then requests[i].(status := status) else requests[i]
  {
    if requests == [] then []
    else
      var q := requests[0];
      [if q.id == id then q.(status := status) else q] + SetStatus(requests[1..], id, status)
  }

  datatype RequestChange = Keep | Open(request: Request) | Settle(id: Uuid, status: RequestStatus)

  function ChangeRequests(requests: seq<Request>, c: RequestChange): seq<Request> {
    match c
    case Keep => requests
    case Open(q) => requests + [q]
    case Settle(id, status) => SetStatus(requests, id, status)
  }

  // ---- decision and commit ----

  /** Everything one successful operation writes. */
  datatype Plan = Plan(deltas: seq<Delta>, rows: seq<Transaction>, moves: seq<Move>, change: RequestChange)

  datatype Decision = Go(plan: Plan) | Stop(outcome: Outcome)

  /** What an operation decides from the wallet rows it has read, the
      transactions it may look up and the request it settles. */
  function Decide(rows: map<Uuid, Wallet>, txs: seq<Transaction>, request: Option<Request>, op: Op): Decision {
    match op
    case Register(_) => Stop(Failed(WalletMissing))
    case Deposit(tx, wallet, amount, hash, ref) =>
      if wallet !in rows then Stop(Failed(WalletMissing))
      else Go(Plan(
        [Delta(wallet, amount, 0, 0)],
        [Transaction(tx, wallet, TxDeposit, amount, "", ref, OnChain(hash))],
        [Move(tx, wallet, CREDIT, amount, rows[wallet].Total() + amount)],
        Keep))
    case Deduct(tx, wallet, amount, service, ref) =>
      if amount <= 0 then Stop(Failed(InvalidAmount))
      else if wallet !in rows then Stop(Failed(WalletMissing))
      else if !rows[wallet].HasEnough(amount) then Stop(Failed(Insufficient))
      else
        var s := Split(rows[wallet], amount);
        Go(Plan(
          [Delta(wallet, -Positive(s.1), -Positive(s.0), 0)],
          [Transaction(tx, wallet, TxPayment, -amount, service, ref, Internal)],
          [Move(tx, wallet, DEBIT, amount, rows[wallet].Total() - amount)],
          Keep))
    case AddCredit(tx, wallet, amount, service, ref) =>
      if amount <= 0 then Stop(Failed(InvalidAmount))
      else if service == "" || ref == "" then Stop(Failed(KeyRequired))
      else if wallet !in rows then Stop(Failed(WalletMissing))
      else
        var existing := FindTx(txs, ByRef(wallet, service, ref, TxCreditAdd));
        if existing.Some? then Stop(Duplicate(existing.value))
        else Go(Plan(
          [Delta(wallet, 0, amount, 0)],
          [Transaction(tx, wallet, TxCreditAdd, amount, service, ref, Internal)],
          [Move(tx, wallet, CREDIT, amount, rows[wallet].Total() + amount)],
          Keep))
    case Transfer(tx, toTx, from, to, amount) =>
      if amount <= 0 then Stop(Failed(InvalidAmount))
      else if from !in rows || to !in rows then Stop(Failed(WalletMissing))
      else if !rows[from].HasEnough(amount) then Stop(Failed(Insufficient))
      else
        var s := Split(rows[from], amount);
        Go(Plan(
          [Delta(from, -Positive(s.1), -Positive(s.0), 0), Delta(to, Positive(s.1), Positive(s.0), 0)],
          [Transaction(tx, from, TxPayment, -amount, "", "", Internal),
           Transaction(toTx, to, TxDeposit, amount, "", "", Internal)],
          [Move(tx, from, DEBIT, amount, rows[from].Total() - amount),
           Move(toTx, to, CREDIT, amount, rows[to].Total() + amount)],
          Keep))
    case CreateWithdraw(id, wallet, amount, fee) =>
      if wallet !in rows then Stop(Failed(WalletMissing))
      else if !rows[wallet].HasEnough(amount + fee) then Stop(Failed(Insufficient))
      else Go(Plan([Delta(wallet, 0, 0, amount + fee)], [], [], Open(Request(id, wallet, amount, fee, Pending))))
    case CompleteWithdraw(tx, id, hash) =>
      if request.None? then Stop(Failed(RequestMissing))
      else
        var q := request.value;
        if q.wallet !in rows then Stop(Failed(WalletMissing))
        else Go(Plan(
          [Delta(q.wallet, -q.Total(), 0, -q.Total())],
          [Transaction(tx, q.wallet, TxWithdraw, -q.Total(), "", id, OnChain(hash))],
          [Move(tx, q.wallet, DEBIT, q.Total(), rows[q.wallet].Total() - q.Total())],
          Settle(id, Done)))
    case RejectWithdraw(tx, id) =>
      if request.None? then Stop(Failed(RequestMissing))
      else
        var q := request.value;
        Go(Plan(
          [Delta(q.wallet, 0, 0, -q.Total())],
          [Transaction(tx, q.wallet, TxRefund, 0, "", id, Internal)],
          [],
          Settle(id, Rejected)))
  }

  /** The request an operation settles, as the table has it. */
  function RequestOf(requests: seq<Request>, op: Op): Option<Request> {
    if op.CompleteWithdraw? || op.RejectWithdraw? then FindRequest(requests, op.request) else None
  }

  predicate FreshId(txs: seq<Transaction>, id: Uuid) {
    forall t :: t in txs ==> t.id != id
  }

  predicate RowsFree(txs: seq<Transaction>, rows: seq<Transaction>) {
    forall i :: 0 <= i < |rows| ==> FreshId(txs + rows[..i], rows[i].id)
  }

  /** Primary keys: no new row reuses an identifier. */
  predicate KeysFree(db: DB, plan: Plan) {
    && RowsFree(db.txs, plan.rows)
    && (plan.change.Open? ==> FindRequest(db.requests, plan.change.request.id).None?)
  }

  function Commit(h: Hasher, db: DB, plan: Plan): DB {
    DB(UpdateAll(db.wallets, plan.deltas),
       db.txs + plan.rows,
       Append(h, db.ledger, plan.moves),
       ChangeRequests(db.requests, plan.change))
  }

  /** The transaction body from the row lock on, all or nothing. */
  function Effect(h: Hasher, db: DB, op: Op): (DB, Outcome) {
    if op.Register? then
      if op.wallet in db.wallets then (db, Applied)
      else (db.(wallets := db.wallets[op.wallet := Wallet(0, 0, 0)]), Applied)
    else
      match Decide(db.wallets, db.txs, RequestOf(db.requests, op), op)
      case Stop(outcome) => (db, outcome)
      case Go(plan) =>
        if KeysFree(db, plan) then (Commit(h, db, plan), Applied) else (db, Failed(KeyClash))
  }

  /** The whole call, with the early duplicate check of `Deposit` and `Deduct`. */
  function Apply(h: Hasher, db: DB, op: Op): (DB, Outcome) {
    var earlier := EarlierTx(db.txs, op);
    if earlier.Some? then (db, Duplicate(earlier.value)) else Effect(h, db, op)
  }

  /** A run of calls one after another. */
  function Run(h: Hasher, db: DB, ops: seq<Op>): DB {
    if ops == [] then db else Apply(h, Run(h, db, ops[..|ops| - 1]), ops[|ops| - 1]).0
  }

  const EMPTY := DB(map[], [], [], [])
}
