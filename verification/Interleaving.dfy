/** Store operations in flight at the same time. Each takes row locks, reads
    rows and the chain tip, decides, inserts its blocks and commits, one
    statement at a time, in any order relative to the others. A schedule is any
    sequence of such steps; a step that is not enabled leaves the state alone. */
module Interleaving {
  import opened Records
  import opened HashChain
  import opened Operations
  import opened LedgerAgreement
  import opened Holds

  /** One open database transaction. */
  datatype Flight = Flight(
    op: Op,
    request: Option<Request>,
    snap: map<Uuid, Wallet>,
    held: set<Uuid>,
    plan: Option<Plan>,
    tip: Option<(int, string)>,
    blocks: seq<LedgerEntry>)

  /** The committed database, the open transactions and what has committed. */
  datatype Sys = Sys(db: DB, flights: map<nat, Flight>, log: seq<Op>)

  datatype Step =
    | NewWallet(wallet: Uuid)
    | Begin(t: nat, op: Op)
    | ReadRow(t: nat, wallet: Uuid)
    | Choose(t: nat)
    | LockRow(t: nat, wallet: Uuid)
    | ReadTip(t: nat)
    | InsertBlock(t: nat)
    | Finish(t: nat)
    | Abandon(t: nat)

  /** The wallet rows an operation reads or updates. */
  function Touches(op: Op, request: Option<Request>): set<Uuid> {
    match op
    case Register(w) => {w}
    case Deposit(_, w, _, _, _) => {w}
    case Deduct(_, w, _, _, _) => {w}
    case AddCredit(_, w, _, _, _) => {w}
    case Transfer(_, _, from, to, _) => {from, to}
    case CreateWithdraw(_, w, _, _) => {w}
    case _ => if request.Some? then {request.value.wallet} else {}
  }

  /** Whether reading a row locks it. `CreateWithdraw` asks for its lock through
      a query option; `honoured` says whether the database sees it. */
  predicate LocksOnRead(honoured: bool, op: Op) {
    honoured || !op.CreateWithdraw?
  }

  /** No other open transaction holds the row. */
  predicate Free(s: Sys, t: nat, wallet: Uuid) {
    forall u :: u in s.flights && u != t ==> wallet !in s.flights[u].held
  }

  predicate HasSeq(blocks: seq<LedgerEntry>, n: int) {
    exists e :: e in blocks && e.seqNo == n
  }

  /** Another transaction has inserted, but not committed, this number. */
  predicate Reserved(s: Sys, t: nat, n: int) {
    exists u :: u in s.flights && u != t && HasSeq(s.flights[u].blocks, n)
  }

  predicate ReadyToFinish(db: DB, f: Flight) {
    && f.plan.Some?
    && (forall d :: d in f.plan.value.deltas ==> d.wallet in f.held)
    && |f.blocks| == |f.plan.value.moves|
    && KeysFree(db, f.plan.value)
  }

  function Next(h: Hasher, honoured: bool, s: Sys, step: Step): Sys {
    match step
    case NewWallet(w) =>
      if w in s.db.wallets then s
      else s.(db := Effect(h, s.db, Register(w)).0, log := s.log + [Register(w)])
    case Begin(t, op) =>
      if t in s.flights || op.Register? || EarlierTx(s.db.txs, op).Some? then s
      else s.(flights := s.flights[t := Flight(op, RequestOf(s.db.requests, op), map[], {}, None, None, [])])
    case Abandon(t) => s.(flights := s.flights - {t})
    case _ => if step.t in s.flights then Advance(h, honoured, s, step, s.flights[step.t]) else s
  }

  function Advance(h: Hasher, honoured: bool, s: Sys, step: Step, f: Flight): Sys
    requires !step.NewWallet? && !step.Begin? && !step.Abandon?
  {
    match step
    case ReadRow(t, w) =>
      if f.plan.Some? || w !in Touches(f.op, f.request) || w !in s.db.wallets || w in f.snap then s
      else if !LocksOnRead(honoured, f.op) then Put(s, t, f.(snap := f.snap[w := s.db.wallets[w]]))
      else if Free(s, t, w) then Put(s, t, f.(snap := f.snap[w := s.db.wallets[w]], held := f.held + {w}))
      else s
    case Choose(t) =>
      if f.plan.Some? then s
      else
        (match Decide(f.snap, s.db.txs, f.request, f.op)
         case Stop(_) => s.(flights := s.flights - {t})
         case Go(plan) => Put(s, t, f.(plan := Some(plan))))
    case LockRow(t, w) =>
      if f.plan.None? || w !in Touches(f.op, f.request) || !Free(s, t, w) then s
      else Put(s, t, f.(held := f.held + {w}))
    case ReadTip(t) =>
      if f.plan.None? || |f.blocks| >= |f.plan.value.moves| then s
      else Put(s, t, f.(tip := Some(Tip(s.db.ledger + f.blocks))))
    case InsertBlock(t) =>
      if f.plan.None? || |f.blocks| >= |f.plan.value.moves| || f.tip.None? then s
      else
        var e := Link(h, f.plan.value.moves[|f.blocks|], f.tip.value.0, f.tip.value.1);
        if HasSeq(s.db.ledger + f.blocks, e.seqNo) then s.(flights := s.flights - {t})
        else if Reserved(s, t, e.seqNo) then s
        else Put(s, t, f.(blocks := f.blocks + [e], tip := None))
    case Finish(t) =>
      if !ReadyToFinish(s.db, f) then s
      else Sys(Committed(s.db, f), s.flights - {t}, s.log + [f.op])
  }

  function Put(s: Sys, t: nat, f: Flight): Sys {
    s.(flights := s.flights[t := f])
  }

  /** Relative updates on the rows as they are now, and the inserted rows. */
  function Committed(db: DB, f: Flight): DB
    requires f.plan.Some?
  {
    var p := f.plan.value;
    DB(UpdateAll(db.wallets, p.deltas), db.txs + p.rows, db.ledger + f.blocks, ChangeRequests(db.requests, p.change))
  }

  function Play(h: Hasher, honoured: bool, s: Sys, schedule: seq<Step>): Sys {
    if schedule == [] then s
    else Next(h, honoured, Play(h, honoured, s, schedule[..|schedule| - 1]), schedule[|schedule| - 1])
  }

  const START := Sys(EMPTY, map[], [])

  // ---- the invariant ----

  /** A tip read at some earlier moment: the end of a prefix of the chain. */
  predicate OldTip(chain: seq<LedgerEntry>, tip: (int, string)) {
    0 <= tip.0 <= |chain| && tip.1 == TipHash(chain[..tip.0])
  }

  /** The inserted blocks are the first of the planned movements, linked behind
      the committed chain. */
  predicate BlocksLinked(h: Hasher, ledger: seq<LedgerEntry>, moves: seq<Move>, blocks: seq<LedgerEntry>) {
    |blocks| <= |moves| && ledger + blocks == Append(h, ledger, moves[..|blocks|])
  }

  ghost predicate FlightOk(h: Hasher, honoured: bool, db: DB, f: Flight) {
    && !f.op.Register?
    && (LocksOnRead(honoured, f.op) ==> f.snap.Keys <= f.held && Current(f.snap, db.wallets))
    && SameRequest(db.requests, f.op, f.request)
    && (f.plan.Some? ==> Decide(f.snap, db.txs, f.request, f.op) == Go(f.plan.value))
    && (f.plan.None? ==> f.blocks == [])
    && (f.tip.Some? ==> OldTip(db.ledger + f.blocks, f.tip.value))
    && (f.plan.Some? ==> BlocksLinked(h, db.ledger, f.plan.value.moves, f.blocks))
  }

  ghost predicate Inv(h: Hasher, honoured: bool, s: Sys) {
    && Agreement(h, s.db)
    && (forall t :: t in s.flights ==> FlightOk(h, honoured, s.db, s.flights[t]))
    && (forall t, u :: t in s.flights && u in s.flights && t != u ==> s.flights[t].held !! s.flights[u].held)
    && (forall t, u :: t in s.flights && u in s.flights && t != u ==>
        s.flights[t].blocks == [] || s.flights[u].blocks == [])
    && ((forall op :: op in s.log ==> !SelfTransfer(op)) ==> RunningTotals(Moves(s.db.ledger)))
  }

  /** What a decision's parts have to do with the rows it touches. */
  lemma DecisionTouches(rows: map<Uuid, Wallet>, txs: seq<Transaction>, request: Option<Request>, op: Op)
    requires Decide(rows, txs, request, op).Go?
    ensures var p := Decide(rows, txs, request, op).plan;
      && (set d | d in p.deltas :: d.wallet) == Touches(op, request)
      && (forall r :: r in p.rows ==> r.wallet in Touches(op, request))
      && (p.change.Settle? ==> op.CompleteWithdraw? || op.RejectWithdraw?)
  {
    var p := Decide(rows, txs, request, op).plan;
    assert forall d :: d in p.deltas ==> d.wallet in Touches(op, request);
    forall w | w in Touches(op, request)
      ensures w in set d | d in p.deltas :: d.wallet
    {
      if op.Transfer? && w == op.to {
        assert p.deltas[1].wallet == w;
      } else {
        assert p.deltas[0].wallet == w;
      }
    }
  }

  /** Decisions only look at the rows they touch, at the credit key of their
      own wallet and at the settled request's wallet and amount. */
  lemma DecisionStable(rows: map<Uuid, Wallet>, txs: seq<Transaction>, request: Option<Request>,
                       rows': map<Uuid, Wallet>, txs': seq<Transaction>, request': Option<Request>, op: Op)
    requires Decide(rows, txs, request, op).Go?
    requires Current(rows, rows')
    requires op.AddCredit? ==> FindTx(txs', ByRef(op.wallet, op.service, op.ref, TxCreditAdd)).None?
    requires request.Some? ==>
      request'.Some? && request'.value.wallet == request.value.wallet && request'.value.Total() == request.value.Total()
    ensures Decide(rows', txs', request', op) == Decide(rows, txs, request, op)
  {
  }

  lemma UpdateOthers(wallets: map<Uuid, Wallet>, ds: seq<Delta>, w: Uuid)
    requires forall d :: d in ds ==> d.wallet != w
    ensures w in wallets <==> w in UpdateAll(wallets, ds)
    ensures w in wallets ==> UpdateAll(wallets, ds)[w] == wallets[w]
  {
    if ds != [] {
      UpdateOthers(wallets, ds[..|ds| - 1], w);
      assert ds[|ds| - 1] in ds;
    }
  }

  lemma {:induction false} StatusKeepsRequest(requests: seq<Request>, id: Uuid, status: RequestStatus, other: Uuid)
    requires FindRequest(requests, other).Some?
    ensures var q, r := FindRequest(requests, other).value, FindRequest(SetStatus(requests, id, status), other);
      r.Some? && r.value.wallet == q.wallet && r.value.Total() == q.Total()
  {
    if requests[0].id != other {
      StatusKeepsRequest(requests[1..], id, status, other);
      assert SetStatus(requests, id, status)[1..] == SetStatus(requests[1..], id, status);
    }
  }

  lemma {:induction false} AppendKeepsRequest(requests: seq<Request>, q: Request, other: Uuid)
    requires FindRequest(requests, other).Some?
    ensures FindRequest(requests + [q], other) == FindRequest(requests, other)
  {
    assert (requests + [q])[0] == requests[0] && (requests + [q])[1..] == requests[1..] + [q];
    if requests[0].id != other {
      AppendKeepsRequest(requests[1..], q, other);
    }
  }

  lemma ChangeKeepsRequest(requests: seq<Request>, c: RequestChange, op: Op, request: Option<Request>)
    requires SameRequest(requests, op, request)
    ensures SameRequest(ChangeRequests(requests, c), op, request)
  {
    if request.Some? {
      match c {
        case Keep =>
        case Open(q) => AppendKeepsRequest(requests, q, op.request);
        case Settle(id, status) => StatusKeepsRequest(requests, id, status, op.request);
      }
    }
  }

  // ---- a commit ----

  /** All the row locks an open transaction needs are its own when it commits. */
  lemma HeldAtFinish(h: Hasher, honoured: bool, db: DB, f: Flight)
    requires FlightOk(h, honoured, db, f) && ReadyToFinish(db, f)
    ensures Touches(f.op, f.request) <= f.held
    ensures Committed(db, f) == Commit(h, db, f.plan.value)
    ensures forall r :: r in f.plan.value.rows ==> r.wallet in f.held
  {
    DecisionTouches(f.snap, db.txs, f.request, f.op);
    var p := f.plan.value;
    forall w | w in Touches(f.op, f.request)
      ensures w in f.held
    {
      assert w in set d | d in p.deltas :: d.wallet;
    }
    assert p.moves[..|f.blocks|] == p.moves;
  }

  /** Locks held from read to commit make the commit what a serial execution of
      the operation's body on the committed database would do. */
  lemma FinishIsEffect(h: Hasher, honoured: bool, db: DB, f: Flight)
    requires FlightOk(h, honoured, db, f) && ReadyToFinish(db, f) && LocksOnRead(honoured, f.op)
    ensures Effect(h, db, f.op) == (Committed(db, f), Applied)
  {
    HeldAtFinish(h, honoured, db, f);
    if f.op.AddCredit? {
      assert FindTx(db.txs, ByRef(f.op.wallet, f.op.service, f.op.ref, TxCreditAdd)).None?;
    }
    DecisionStable(f.snap, db.txs, f.request, db.wallets, db.txs, RequestOf(db.requests, f.op), f.op);
  }

  /** The totals and the chain stay in agreement even when a hold is placed on
      rows read without a lock. */
  lemma FinishAgrees(h: Hasher, honoured: bool, db: DB, f: Flight)
    requires Agreement(h, db) && FlightOk(h, honoured, db, f) && ReadyToFinish(db, f)
    ensures Agreement(h, Committed(db, f))
  {
    HeldAtFinish(h, honoured, db, f);
    DecisionFits(db.wallets, f.snap, db.txs, f.request, f.op);
    CommitAgrees(h, db, f.plan.value);
  }

  lemma FinishBalances(h: Hasher, honoured: bool, db: DB, f: Flight)
    requires Agreement(h, db) && FlightOk(h, honoured, db, f) && ReadyToFinish(db, f)
    requires RunningTotals(Moves(db.ledger)) && !SelfTransfer(f.op)
    ensures RunningTotals(Moves(Committed(db, f).ledger))
  {
    var moves := f.plan.value.moves;
    HeldAtFinish(h, honoured, db, f);
    DecidedBalances(f.snap, db.txs, f.request, f.op);
    if f.op.CreateWithdraw? {
      assert db.ledger + f.blocks == db.ledger;
    } else {
      forall m | m in moves
        ensures TotalOf(f.snap, m.wallet) == TotalOf(db.wallets, m.wallet)
      {
        MovesRead(f.snap, db.txs, f.request, f.op, m);
      }
      AppendBalances(h, db, moves, false);
    }
  }

  lemma MovesRead(rows: map<Uuid, Wallet>, txs: seq<Transaction>, request: Option<Request>, op: Op, m: Move)
    requires Decide(rows, txs, request, op).Go? && m in Decide(rows, txs, request, op).plan.moves
    ensures m.wallet in rows
  {
  }

  /** Another transaction's commit leaves an open one's reads valid. */
  lemma OtherFlightOk(h: Hasher, honoured: bool, db: DB, f: Flight, g: Flight)
    requires Agreement(h, db) && FlightOk(h, honoured, db, f) && ReadyToFinish(db, f)
    requires FlightOk(h, honoured, db, g) && g.held !! f.held && (g.blocks == [] || f.blocks == [])
    ensures FlightOk(h, honoured, Committed(db, f), g)
  {
    var after, p := Committed(db, f), f.plan.value;
    HeldAtFinish(h, honoured, db, f);
    ChangeKeepsRequest(db.requests, p.change, g.op, g.request);
    if LocksOnRead(honoured, g.op) {
      forall w | w in g.snap
        ensures w in after.wallets && after.wallets[w] == g.snap[w]
      {
        UpdateOthers(db.wallets, p.deltas, w);
      }
    }
    if g.plan.Some? {
      OtherDecision(h, honoured, db, f, g);
    }
    OtherChainOk(h, db, f, g);
  }

  lemma StillNone(txs: seq<Transaction>, rows: seq<Transaction>, key: Key)
    requires FindTx(txs, key).None? && forall r :: r in rows ==> !Matches(r, key)
    ensures FindTx(txs + rows, key).None?
  {
  }

  /** Only `AddCredit` decides on the transactions. */
  lemma DecisionIgnores(rows: map<Uuid, Wallet>, txs: seq<Transaction>, txs': seq<Transaction>,
                        request: Option<Request>, op: Op)
    requires Decide(rows, txs, request, op).Go?
    requires op.AddCredit? ==> FindTx(txs', ByRef(op.wallet, op.service, op.ref, TxCreditAdd)).None?
    ensures Decide(rows, txs', request, op) == Decide(rows, txs, request, op)
  {
  }

  lemma CreditDecided(rows: map<Uuid, Wallet>, txs: seq<Transaction>, request: Option<Request>, op: Op)
    requires op.AddCredit? && Decide(rows, txs, request, op).Go?
    ensures op.wallet in rows && FindTx(txs, ByRef(op.wallet, op.service, op.ref, TxCreditAdd)).None?
  {
  }

  /** The rows another transaction inserts belong to wallets it has locked. */
  lemma OtherDecision(h: Hasher, honoured: bool, db: DB, f: Flight, g: Flight)
    requires FlightOk(h, honoured, db, f) && ReadyToFinish(db, f)
    requires FlightOk(h, honoured, db, g) && g.held !! f.held && g.plan.Some?
    ensures Decide(g.snap, db.txs + f.plan.value.rows, g.request, g.op) == Decide(g.snap, db.txs, g.request, g.op)
  {
    var rows := f.plan.value.rows;
    if g.op.AddCredit? {
      CreditDecided(g.snap, db.txs, g.request, g.op);
      HeldAtFinish(h, honoured, db, f);
      assert g.op.wallet in g.held;
      StillNone(db.txs, rows, ByRef(g.op.wallet, g.op.service, g.op.ref, TxCreditAdd));
    }
    DecisionIgnores(g.snap, db.txs, db.txs + rows, g.request, g.op);
  }

  lemma OtherChainOk(h: Hasher, db: DB, f: Flight, g: Flight)
    requires f.plan.Some? && (g.blocks == [] || f.blocks == [])
    ensures g.tip.Some? && OldTip(db.ledger + g.blocks, g.tip.value) ==>
      OldTip(db.ledger + f.blocks + g.blocks, g.tip.value)
    ensures g.blocks == [] ==> Append(h, db.ledger + f.blocks, []) == db.ledger + f.blocks + g.blocks
    ensures f.blocks == [] ==> db.ledger + f.blocks == db.ledger
  {
    if g.tip.Some? && OldTip(db.ledger + g.blocks, g.tip.value) {
      var n := g.tip.value.0;
      if g.blocks == [] {
        assert (db.ledger + f.blocks + g.blocks)[..n] == (db.ledger + g.blocks)[..n];
      } else {
        assert db.ledger + f.blocks + g.blocks == db.ledger + g.blocks;
      }
    }
  }

  lemma FinishKeepsInv(h: Hasher, honoured: bool, s: Sys, t: nat)
    requires Inv(h, honoured, s) && t in s.flights && ReadyToFinish(s.db, s.flights[t])
    ensures Inv(h, honoured, Sys(Committed(s.db, s.flights[t]), s.flights - {t}, s.log + [s.flights[t].op]))
  {
    var f := s.flights[t];
    FinishAgrees(h, honoured, s.db, f);
    forall u | u in s.flights && u != t
      ensures FlightOk(h, honoured, Committed(s.db, f), s.flights[u])
    {
      OtherFlightOk(h, honoured, s.db, f, s.flights[u]);
    }
    var log := s.log + [f.op];
    if forall op :: op in log ==> !SelfTransfer(op) {
      assert f.op in log && forall op :: op in s.log ==> op in log;
      FinishBalances(h, honoured, s.db, f);
    }
  }

  // ---- an insertion ----

  lemma SeqsOfValid(h: Hasher, chain: seq<LedgerEntry>, n: int)
    requires ChainValid(h, chain)
    ensures HasSeq(chain, n) <==> 1 <= n <= |chain|
  {
    if 1 <= n <= |chain| {
      assert BlockOk(h, chain, n - 1) && chain[n - 1] in chain;
    }
    if HasSeq(chain, n) {
      var e :| e in chain && e.seqNo == n;
      var k :| 0 <= k < |chain| && chain[k] == e;
      assert BlockOk(h, chain, k);
    }
  }

  /** The unique index turns every stale tip into a failed insertion: a block
      that does get in sits right behind the committed chain. */
  lemma InsertedBlock(h: Hasher, honoured: bool, db: DB, f: Flight)
    requires Agreement(h, db) && FlightOk(h, honoured, db, f)
    requires f.plan.Some? && |f.blocks| < |f.plan.value.moves| && f.tip.Some?
    requires var e := Link(h, f.plan.value.moves[|f.blocks|], f.tip.value.0, f.tip.value.1);
      !HasSeq(db.ledger + f.blocks, e.seqNo)
    ensures var e, moves := Link(h, f.plan.value.moves[|f.blocks|], f.tip.value.0, f.tip.value.1), f.plan.value.moves;
      && e.seqNo == |db.ledger| + |f.blocks| + 1
      && db.ledger + (f.blocks + [e]) == Append(h, db.ledger, moves[..|f.blocks| + 1])
  {
    var chain, moves, k := db.ledger + f.blocks, f.plan.value.moves, |f.blocks|;
    AppendValid(h, db.ledger, moves[..k]);
    FreshTip(h, chain, f.tip.value);
    NextBlock(h, db.ledger, f.blocks, moves, k);
  }

  /** A tip whose next number is not taken is the chain's end. */
  lemma FreshTip(h: Hasher, chain: seq<LedgerEntry>, tip: (int, string))
    requires ChainValid(h, chain) && OldTip(chain, tip) && !HasSeq(chain, tip.0 + 1)
    ensures tip == (|chain|, TipHash(chain))
  {
    SeqsOfValid(h, chain, tip.0 + 1);
    assert chain[..|chain|] == chain;
  }

  lemma NextBlock(h: Hasher, ledger: seq<LedgerEntry>, blocks: seq<LedgerEntry>, moves: seq<Move>, k: nat)
    requires k < |moves| && ledger + blocks == Append(h, ledger, moves[..k]) && ChainValid(h, ledger + blocks)
    ensures var chain := ledger + blocks;
      ledger + (blocks + [Link(h, moves[k], |chain|, TipHash(chain))]) == Append(h, ledger, moves[..k + 1])
  {
    var chain := ledger + blocks;
    TipOfValid(h, chain);
    assert moves[..k + 1][..k] == moves[..k] && moves[..k + 1] != [];
    assert ledger + (blocks + [Link(h, moves[k], |chain|, TipHash(chain))]) ==
        chain + [Link(h, moves[k], |chain|, TipHash(chain))];
  }

  /** The first block an open transaction has inserted is numbered right after
      the committed chain, so no two can both have inserted one. */
  lemma FirstReserved(h: Hasher, honoured: bool, db: DB, g: Flight)
    requires Agreement(h, db) && FlightOk(h, honoured, db, g) && g.blocks != []
    ensures HasSeq(g.blocks, |db.ledger| + 1)
  {
    var chain := db.ledger + g.blocks;
    AppendValid(h, db.ledger, g.plan.value.moves[..|g.blocks|]);
    assert BlockOk(h, chain, |db.ledger|);
    assert chain[|db.ledger|] == g.blocks[0] && g.blocks[0] in g.blocks;
  }

  /** A number that gets past the unique index belongs to the only open
      transaction with inserted blocks. */
  lemma OthersEmpty(h: Hasher, honoured: bool, s: Sys, t: nat, u: nat)
    requires Inv(h, honoured, s) && t in s.flights && u in s.flights && u != t
    requires !Reserved(s, t, |s.db.ledger| + |s.flights[t].blocks| + 1)
    ensures s.flights[u].blocks == []
  {
    if s.flights[u].blocks != [] {
      FirstReserved(h, honoured, s.db, s.flights[u]);
    }
  }

  lemma InsertKeepsInv(h: Hasher, honoured: bool, s: Sys, t: nat, e: LedgerEntry)
    requires Inv(h, honoured, s) && t in s.flights
    requires var f := s.flights[t]; f.plan.Some? && |f.blocks| < |f.plan.value.moves| && f.tip.Some?
    requires var f := s.flights[t]; e == Link(h, f.plan.value.moves[|f.blocks|], f.tip.value.0, f.tip.value.1)
    requires !HasSeq(s.db.ledger + s.flights[t].blocks, e.seqNo) && !Reserved(s, t, e.seqNo)
    ensures Inv(h, honoured, Put(s, t, s.flights[t].(blocks := s.flights[t].blocks + [e], tip := None)))
  {
    var f := s.flights[t];
    InsertedBlock(h, honoured, s.db, f);
    forall u | u in s.flights && u != t
      ensures s.flights[u].blocks == []
    {
      OthersEmpty(h, honoured, s, t, u);
    }
    InsertedFlightOk(h, honoured, s.db, f, e);
    PutKeepsInv(h, honoured, s, t, f.(blocks := f.blocks + [e], tip := None));
  }

  lemma InsertedFlightOk(h: Hasher, honoured: bool, db: DB, f: Flight, e: LedgerEntry)
    requires FlightOk(h, honoured, db, f) && f.plan.Some? && |f.blocks| < |f.plan.value.moves|
    requires db.ledger + (f.blocks + [e]) == Append(h, db.ledger, f.plan.value.moves[..|f.blocks| + 1])
    ensures FlightOk(h, honoured, db, f.(blocks := f.blocks + [e], tip := None))
  {
  }

  // ---- every step ----

  lemma RegisterKeepsInv(h: Hasher, honoured: bool, s: Sys, w: Uuid)
    requires Inv(h, honoured, s)
    ensures Inv(h, honoured, Next(h, honoured, s, NewWallet(w)))
  {
    EffectAgrees(h, s.db, Register(w));
    var n := Next(h, honoured, s, NewWallet(w));
    forall op | op in s.log
      ensures op in n.log
    {
    }
  }

  /** An open transaction that advances without interfering with the others. */
  lemma PutKeepsInv(h: Hasher, honoured: bool, s: Sys, t: nat, f: Flight)
    requires Inv(h, honoured, s) && FlightOk(h, honoured, s.db, f)
    requires forall u :: u in s.flights && u != t ==> s.flights[u].held !! f.held
    requires forall u :: u in s.flights && u != t ==> f.blocks == [] || s.flights[u].blocks == []
    ensures Inv(h, honoured, Put(s, t, f))
  {
  }

  lemma BeginKeepsInv(h: Hasher, honoured: bool, s: Sys, t: nat, op: Op)
    requires Inv(h, honoured, s)
    ensures Inv(h, honoured, Next(h, honoured, s, Begin(t, op)))
  {
    var f := Flight(op, RequestOf(s.db.requests, op), map[], {}, None, None, []);
    if Next(h, honoured, s, Begin(t, op)) != s {
      PutKeepsInv(h, honoured, s, t, f);
    }
  }

  lemma LockKeepsInv(h: Hasher, honoured: bool, s: Sys, t: nat, f: Flight, w: Uuid)
    requires Inv(h, honoured, s) && t in s.flights && Free(s, t, w)
    requires f == s.flights[t].(held := f.held, snap := f.snap) && f.held == s.flights[t].held + {w}
    requires FlightOk(h, honoured, s.db, f)
    ensures Inv(h, honoured, Put(s, t, f))
  {
    PutKeepsInv(h, honoured, s, t, f);
  }

  lemma ReadKeepsInv(h: Hasher, honoured: bool, s: Sys, t: nat, w: Uuid)
    requires Inv(h, honoured, s) && t in s.flights
    ensures Inv(h, honoured, Next(h, honoured, s, ReadRow(t, w)))
  {
    var f := s.flights[t];
    if f.plan.None? && w in s.db.wallets {
      var g := f.(snap := f.snap[w := s.db.wallets[w]]);
      if !LocksOnRead(honoured, f.op) {
        PutKeepsInv(h, honoured, s, t, g);
      } else if Free(s, t, w) {
        LockKeepsInv(h, honoured, s, t, g.(held := f.held + {w}), w);
      }
    }
  }

  lemma ChooseKeepsInv(h: Hasher, honoured: bool, s: Sys, t: nat)
    requires Inv(h, honoured, s) && t in s.flights
    ensures Inv(h, honoured, Next(h, honoured, s, Choose(t)))
  {
    var f := s.flights[t];
    var d := Decide(f.snap, s.db.txs, f.request, f.op);
    if f.plan.None? && d.Go? {
      assert d.plan.moves[..0] == [] && s.db.ledger + f.blocks == s.db.ledger;
      PutKeepsInv(h, honoured, s, t, f.(plan := Some(d.plan)));
    }
  }

  lemma TipRead(h: Hasher, honoured: bool, s: Sys, t: nat)
    requires Inv(h, honoured, s) && t in s.flights
    ensures Inv(h, honoured, Next(h, honoured, s, ReadTip(t)))
  {
    var f, n := s.flights[t], Next(h, honoured, s, ReadTip(t));
    if n != s {
      var g := f.(tip := Some(Tip(s.db.ledger + f.blocks)));
      assert n == Put(s, t, g);
      TipIsOld(h, honoured, s.db, f);
      PutKeepsInv(h, honoured, s, t, g);
    }
  }

  lemma TipIsOld(h: Hasher, honoured: bool, db: DB, f: Flight)
    requires Agreement(h, db) && FlightOk(h, honoured, db, f) && f.plan.Some?
    ensures OldTip(db.ledger + f.blocks, Tip(db.ledger + f.blocks))
  {
    var chain := db.ledger + f.blocks;
    AppendValid(h, db.ledger, f.plan.value.moves[..|f.blocks|]);
    TipOfValid(h, chain);
    assert chain[..|chain|] == chain;
  }

  lemma StepKeepsInv(h: Hasher, honoured: bool, s: Sys, step: Step)
    requires Inv(h, honoured, s)
    ensures Inv(h, honoured, Next(h, honoured, s, step))
  {
    match step {
      case NewWallet(w) => RegisterKeepsInv(h, honoured, s, w);
      case Begin(t, op) => BeginKeepsInv(h, honoured, s, t, op);
      case Abandon(t) =>
      case _ =>
        if step.t in s.flights {
          AdvanceKeepsInv(h, honoured, s, step);
        }
    }
  }

  lemma DropKeepsInv(h: Hasher, honoured: bool, s: Sys, t: nat)
    requires Inv(h, honoured, s)
    ensures Inv(h, honoured, s.(flights := s.flights - {t}))
  {
  }

  /** An insertion that is made gets past the unique index and finds its number
      free of reservations. */
  lemma InsertHappens(h: Hasher, honoured: bool, s: Sys, t: nat) returns (e: LedgerEntry)
    requires t in s.flights && Next(h, honoured, s, InsertBlock(t)) != s
    requires Next(h, honoured, s, InsertBlock(t)) != s.(flights := s.flights - {t})
    ensures var f := s.flights[t];
      && f.plan.Some? && |f.blocks| < |f.plan.value.moves| && f.tip.Some?
      && e == Link(h, f.plan.value.moves[|f.blocks|], f.tip.value.0, f.tip.value.1)
      && !HasSeq(s.db.ledger + f.blocks, e.seqNo) && !Reserved(s, t, e.seqNo)
      && Next(h, honoured, s, InsertBlock(t)) == Put(s, t, f.(blocks := f.blocks + [e], tip := None))
  {
    var f := s.flights[t];
    e := Link(h, f.plan.value.moves[|f.blocks|], f.tip.value.0, f.tip.value.1);
  }

  lemma InsertStepKeepsInv(h: Hasher, honoured: bool, s: Sys, t: nat)
    requires Inv(h, honoured, s) && t in s.flights
    ensures Inv(h, honoured, Next(h, honoured, s, InsertBlock(t)))
  {
    var n := Next(h, honoured, s, InsertBlock(t));
    if n == s.(flights := s.flights - {t}) {
      DropKeepsInv(h, honoured, s, t);
    } else if n != s {
      var e := InsertHappens(h, honoured, s, t);
      InsertKeepsInv(h, honoured, s, t, e);
    }
  }

  lemma LockStepKeepsInv(h: Hasher, honoured: bool, s: Sys, t: nat, w: Uuid)
    requires Inv(h, honoured, s) && t in s.flights
    ensures Inv(h, honoured, Next(h, honoured, s, LockRow(t, w)))
  {
    var f := s.flights[t];
    if Free(s, t, w) {
      LockKeepsInv(h, honoured, s, t, f.(held := f.held + {w}), w);
    }
  }

  lemma AdvanceKeepsInv(h: Hasher, honoured: bool, s: Sys, step: Step)
    requires Inv(h, honoured, s) && !step.NewWallet? && !step.Begin? && !step.Abandon? && step.t in s.flights
    ensures Inv(h, honoured, Next(h, honoured, s, step))
  {
    match step {
      case ReadRow(t, w) => ReadKeepsInv(h, honoured, s, t, w);
      case Choose(t) => ChooseKeepsInv(h, honoured, s, t);
      case LockRow(t, w) => LockStepKeepsInv(h, honoured, s, t, w);
      case ReadTip(t) => TipRead(h, honoured, s, t);
      case InsertBlock(t) => InsertStepKeepsInv(h, honoured, s, t);
      case Finish(t) =>
        if ReadyToFinish(s.db, s.flights[t]) {
          FinishKeepsInv(h, honoured, s, t);
        }
    }
  }

  // ---- all schedules ----

  /** Under every interleaving the committed records agree and the chain is
      valid; without self-transfers every block's `BalanceAfter` is right, so
      the last block of each wallet gives its committed total. */
  lemma {:induction false} EveryScheduleAgrees(h: Hasher, honoured: bool, schedule: seq<Step>)
    ensures Inv(h, honoured, Play(h, honoured, START, schedule))
  {
    if schedule != [] {
      EveryScheduleAgrees(h, honoured, schedule[..|schedule| - 1]);
      StepKeepsInv(h, honoured, Play(h, honoured, START, schedule[..|schedule| - 1]), schedule[|schedule| - 1]);
    }
  }
}
