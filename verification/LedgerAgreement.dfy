/** The redundant records agree: wallet rows, transactions and ledger blocks
    tell the same story in every state any run of operations reaches. */
module LedgerAgreement {
  import opened Records
  import opened HashChain
  import opened Operations

  /** A signed change of one wallet's total, with the transaction behind it and
      the type its block is entered under. */
  datatype Flow = Flow(tx: Uuid, wallet: Uuid, kind: string, amount: int)

  function FlowOf(m: Move): Flow {
    Flow(m.txID, m.wallet, m.kind, if m.kind == DEBIT then -m.amount else m.amount)
  }

  /** Deposits and added credit are credits, payments and withdrawals debits. */
  function TxFlow(t: Transaction): Flow {
    Flow(t.id, t.wallet, if t.kind == TxDeposit || t.kind == TxCreditAdd then CREDIT else DEBIT, t.amount)
  }

  function MoveFlows(ms: seq<Move>): seq<Flow> {
    if ms == [] then [] else MoveFlows(ms[..|ms| - 1]) + [FlowOf(ms[|ms| - 1])]
  }

  /** A refund notice moves nothing and has no block. */
  function Entered(t: Transaction): seq<Flow> {
    if t.kind == TxRefund then [] else [TxFlow(t)]
  }

  /** Every transaction except the refund notices, in order. */
  function TxFlows(txs: seq<Transaction>): seq<Flow> {
    if txs == [] then []
    else TxFlows(txs[..|txs| - 1]) + Entered(txs[|txs| - 1])
  }

  function FlowSum(fs: seq<Flow>, wallet: Uuid): int {
    if fs == [] then 0
    else
      var f := fs[|fs| - 1];
      FlowSum(fs[..|fs| - 1], wallet) + if f.wallet == wallet then f.amount else 0
  }

  function TxSum(txs: seq<Transaction>, wallet: Uuid): int {
    if txs == [] then 0
    else
      var t := txs[|txs| - 1];
      TxSum(txs[..|txs| - 1], wallet) + if t.wallet == wallet then t.amount else 0
  }

  function TotalOf(wallets: map<Uuid, Wallet>, id: Uuid): int {
    if id in wallets then wallets[id].Total() else 0
  }

  predicate SoundRows(txs: seq<Transaction>) {
    forall t :: t in txs && t.kind == TxRefund ==> t.amount == 0
  }

  predicate SoundMoves(ms: seq<Move>) {
    forall m :: m in ms ==> m.kind == DEBIT || m.kind == CREDIT
  }

  predicate CreditsNonNegative(wallets: map<Uuid, Wallet>) {
    forall w :: w in wallets ==> wallets[w].credit >= 0
  }

  predicate DistinctIds(txs: seq<Transaction>) {
    forall i, j :: 0 <= i < j < |txs| ==> txs[i].id != txs[j].id
  }

  /** The chain is valid; its blocks are, one for one and in order, the
      non-refund transactions with their types and signed amounts; the transactions of
      each wallet add up to its row; no credit is negative. */
  ghost predicate Agreement(h: Hasher, db: DB) {
    && ChainValid(h, db.ledger)
    && MoveFlows(Moves(db.ledger)) == TxFlows(db.txs)
    && (forall w: Uuid :: TxSum(db.txs, w) == TotalOf(db.wallets, w))
    && SoundRows(db.txs) && SoundMoves(Moves(db.ledger)) && DistinctIds(db.txs)
    && CreditsNonNegative(db.wallets)
  }

  // ---- sums over appended tables ----

  lemma {:induction false} FlowsAppend(a: seq<Move>, b: seq<Move>)
    ensures MoveFlows(a + b) == MoveFlows(a) + MoveFlows(b)
  {
    if b == [] {
      assert a + b == a;
    } else {
      var c := a + b;
      assert c[..|c| - 1] == a + b[..|b| - 1];
      FlowsAppend(a, b[..|b| - 1]);
    }
  }

  lemma FlowsJoin(a: seq<Flow>, b: seq<Flow>, c: seq<Flow>)
    ensures (a + b) + c == a + (b + c)
  {
  }

  lemma {:induction false} TxFlowsAppend(a: seq<Transaction>, b: seq<Transaction>)
    ensures TxFlows(a + b) == TxFlows(a) + TxFlows(b)
  {
    if b == [] {
      assert a + b == a;
    } else {
      var c := a + b;
      assert c[..|c| - 1] == a + b[..|b| - 1];
      TxFlowsAppend(a, b[..|b| - 1]);
      FlowsJoin(TxFlows(a), TxFlows(b[..|b| - 1]), Entered(b[|b| - 1]));
    }
  }

  lemma {:induction false} TxSumAppend(a: seq<Transaction>, b: seq<Transaction>, wallet: Uuid)
    ensures TxSum(a + b, wallet) == TxSum(a, wallet) + TxSum(b, wallet)
  {
    if b == [] {
      assert a + b == a;
    } else {
      var c := a + b;
      assert c[..|c| - 1] == a + b[..|b| - 1];
      TxSumAppend(a, b[..|b| - 1], wallet);
    }
  }

  lemma OneMoreFlow(fs: seq<Flow>, f: Flow, wallet: Uuid)
    ensures FlowSum(fs + [f], wallet) == FlowSum(fs, wallet) + if f.wallet == wallet then f.amount else 0
  {
    assert (fs + [f])[..|fs|] == fs;
  }

  /** Refund notices carry no amount, so both sums of a wallet are one. */
  lemma {:induction false} SumsMeet(txs: seq<Transaction>, wallet: Uuid)
    requires SoundRows(txs)
    ensures FlowSum(TxFlows(txs), wallet) == TxSum(txs, wallet)
  {
    if txs != [] {
      var init, t := txs[..|txs| - 1], txs[|txs| - 1];
      SumsMeet(init, wallet);
      assert t in txs;
      OneMoreFlow(TxFlows(init), TxFlow(t), wallet);
      assert TxFlows(init) + [] == TxFlows(init);
    }
  }

  // ---- one commit ----

  /** A plan whose blocks, transactions and row updates tell the same story. */
  ghost predicate PlanFits(wallets: map<Uuid, Wallet>, plan: Plan) {
    && MoveFlows(plan.moves) == TxFlows(plan.rows)
    && (forall w: Uuid :: TotalOf(UpdateAll(wallets, plan.deltas), w) == TotalOf(wallets, w) + TxSum(plan.rows, w))
    && SoundRows(plan.rows) && SoundMoves(plan.moves)
    && CreditsNonNegative(UpdateAll(wallets, plan.deltas))
  }

  /** Rows read for a decision that are still the table's rows. */
  predicate Current(rows: map<Uuid, Wallet>, wallets: map<Uuid, Wallet>) {
    forall w :: w in rows ==> w in wallets && wallets[w] == rows[w]
  }

  lemma SingleFits(wallets: map<Uuid, Wallet>, d: Delta, t: Transaction, m: Move, c: RequestChange)
    requires d.wallet == t.wallet && d.wallet in wallets && d.ton + d.credit == t.amount
    requires t.kind != TxRefund && FlowOf(m) == TxFlow(t) && (m.kind == DEBIT || m.kind == CREDIT)
    requires CreditsNonNegative(wallets) && wallets[d.wallet].credit + d.credit >= 0
    ensures PlanFits(wallets, Plan([d], [t], [m], c))
  {
    assert [d][..0] == [] && [t][..0] == [] && [m][..0] == [];
    assert UpdateAll(wallets, [d]) == Update(wallets, d);
    assert MoveFlows([m]) == [FlowOf(m)];
    assert TxFlows([t]) == [TxFlow(t)];
    forall w: Uuid
      ensures TotalOf(UpdateAll(wallets, [d]), w) == TotalOf(wallets, w) + TxSum([t], w)
    {
      assert TxSum([t], w) == if t.wallet == w then t.amount else 0;
    }
  }

  /** Only `frozen` moves, so no record of totals does. */
  lemma HoldFits(wallets: map<Uuid, Wallet>, d: Delta, rows: seq<Transaction>, c: RequestChange)
    requires d.ton == d.credit == 0 && CreditsNonNegative(wallets)
    requires |rows| <= 1 && forall t :: t in rows ==> t.kind == TxRefund && t.amount == 0
    ensures PlanFits(wallets, Plan([d], rows, [], c))
  {
    assert [d][..0] == [];
    assert UpdateAll(wallets, [d]) == Update(wallets, d);
    if rows != [] {
      assert rows[..0] == [] && rows[0] in rows;
      assert TxFlows(rows) == [];
    }
  }

  lemma TransferFits(wallets: map<Uuid, Wallet>, d: Delta, e: Delta, t: Transaction, u: Transaction, m: Move, n: Move)
    requires d.wallet in wallets && e.wallet in wallets && CreditsNonNegative(wallets)
    requires e.ton == -d.ton && e.credit == -d.credit && e.credit >= 0
    requires wallets[d.wallet].credit + d.credit >= 0
    requires t.wallet == d.wallet && u.wallet == e.wallet
    requires t.amount == d.ton + d.credit && u.amount == e.ton + e.credit
    requires t.kind != TxRefund && u.kind != TxRefund
    requires FlowOf(m) == TxFlow(t) && m.kind == DEBIT
    requires FlowOf(n) == TxFlow(u) && n.kind == CREDIT
    ensures PlanFits(wallets, Plan([d, e], [t, u], [m, n], Keep))
  {
    SingleFits(wallets, d, t, m, Keep);
    assert [d][..0] == [] && UpdateAll(wallets, []) == wallets;
    var after := UpdateAll(wallets, [d]);
    assert after == Update(wallets, d);
    SingleFits(after, e, u, n, Keep);
    assert [e][..0] == [];
    assert UpdateAll(after, [e]) == Update(after, e);
    assert [d, e][..1] == [d] && [t, u] == [t] + [u] && [m, n] == [m] + [n];
    FlowsAppend([m], [n]);
    TxFlowsAppend([t], [u]);
    forall w: Uuid
      ensures TotalOf(UpdateAll(wallets, [d, e]), w) == TotalOf(wallets, w) + TxSum([t, u], w)
    {
      TxSumAppend([t], [u], w);
      assert TotalOf(UpdateAll(after, [e]), w) == TotalOf(after, w) + TxSum([u], w);
    }
  }

  /** Whatever an operation decides fits the table its rows were read from. A
      hold fits even a table whose rows have changed since. */
  lemma DecisionFits(wallets: map<Uuid, Wallet>, rows: map<Uuid, Wallet>, txs: seq<Transaction>,
                     request: Option<Request>, op: Op)
    requires Current(rows, wallets) || op.CreateWithdraw?
    requires CreditsNonNegative(wallets)
    requires Decide(rows, txs, request, op).Go?
    ensures PlanFits(wallets, Decide(rows, txs, request, op).plan)
  {
    var p := Decide(rows, txs, request, op).plan;
    match op {
      case Deposit(_, _, _, _, _) => SingleFits(wallets, p.deltas[0], p.rows[0], p.moves[0], Keep);
      case Deduct(_, _, _, _, _) => SingleFits(wallets, p.deltas[0], p.rows[0], p.moves[0], Keep);
      case AddCredit(_, _, _, _, _) => SingleFits(wallets, p.deltas[0], p.rows[0], p.moves[0], Keep);
      case Transfer(_, _, _, _, _) =>
        TransferFits(wallets, p.deltas[0], p.deltas[1], p.rows[0], p.rows[1], p.moves[0], p.moves[1]);
      case CreateWithdraw(_, _, _, _) => HoldFits(wallets, p.deltas[0], [], p.change);
      case CompleteWithdraw(_, _, _) => SingleFits(wallets, p.deltas[0], p.rows[0], p.moves[0], p.change);
      case RejectWithdraw(_, _) => HoldFits(wallets, p.deltas[0], p.rows, p.change);
    }
  }

  lemma FreshRowsStayDistinct(txs: seq<Transaction>, rows: seq<Transaction>)
    requires DistinctIds(txs) && RowsFree(txs, rows)
    ensures DistinctIds(txs + rows)
  {
    var all := txs + rows;
    forall i, j | 0 <= i < j < |all|
      ensures all[i].id != all[j].id
    {
      if j >= |txs| {
        var k := j - |txs|;
        assert FreshId(txs + rows[..k], rows[k].id);
        assert (txs + rows[..k])[i] == all[i];
      }
    }
  }

  lemma CommitAgrees(h: Hasher, db: DB, plan: Plan)
    requires Agreement(h, db) && PlanFits(db.wallets, plan) && KeysFree(db, plan)
    ensures Agreement(h, Commit(h, db, plan))
  {
    AppendValid(h, db.ledger, plan.moves);
    AppendMoves(h, db.ledger, plan.moves);
    FlowsAppend(Moves(db.ledger), plan.moves);
    TxFlowsAppend(db.txs, plan.rows);
    FreshRowsStayDistinct(db.txs, plan.rows);
    forall w: Uuid
      ensures TxSum(db.txs + plan.rows, w) == TotalOf(UpdateAll(db.wallets, plan.deltas), w)
    {
      TxSumAppend(db.txs, plan.rows, w);
    }
  }

  lemma PlanAgrees(h: Hasher, db: DB, request: Option<Request>, op: Op, p: Plan)
    requires Agreement(h, db) && Decide(db.wallets, db.txs, request, op) == Go(p) && KeysFree(db, p)
    ensures Agreement(h, Commit(h, db, p))
  {
    DecisionFits(db.wallets, db.wallets, db.txs, request, op);
    CommitAgrees(h, db, p);
  }

  lemma RegisterAgrees(h: Hasher, db: DB, w: Uuid)
    requires Agreement(h, db) && w !in db.wallets
    ensures Agreement(h, db.(wallets := db.wallets[w := Wallet(0, 0, 0)]))
  {
    forall id: Uuid
      ensures TxSum(db.txs, id) == TotalOf(db.wallets[w := Wallet(0, 0, 0)], id)
    {
      assert TxSum(db.txs, id) == TotalOf(db.wallets, id);
    }
  }

  /** No operation breaks the agreement, whatever its arguments: not a
      non-positive deposit, not a self-transfer, not a second settlement. */
  lemma EffectAgrees(h: Hasher, db: DB, op: Op)
    requires Agreement(h, db)
    ensures Agreement(h, Effect(h, db, op).0)
  {
    if op.Register? {
      if op.wallet !in db.wallets {
        RegisterAgrees(h, db, op.wallet);
      }
    } else {
      var d := Decide(db.wallets, db.txs, RequestOf(db.requests, op), op);
      if d.Go? && KeysFree(db, d.plan) {
        PlanAgrees(h, db, RequestOf(db.requests, op), op, d.plan);
      }
    }
  }

  /** Every run of calls from the empty database ends in agreement. */
  lemma {:induction false} RunAgrees(h: Hasher, ops: seq<Op>)
    ensures Agreement(h, Run(h, EMPTY, ops))
  {
    if ops != [] {
      RunAgrees(h, ops[..|ops| - 1]);
      EffectAgrees(h, Run(h, EMPTY, ops[..|ops| - 1]), ops[|ops| - 1]);
    }
  }

  // ---- the balance check ----

  /** `SUM(amount_nano)` over a wallet's blocks of one type. */
  function KindSum(ms: seq<Move>, wallet: Uuid, kind: string): int {
    if ms == [] then 0
    else
      var m := ms[|ms| - 1];
      KindSum(ms[..|ms| - 1], wallet, kind) + if m.wallet == wallet && m.kind == kind then m.amount else 0
  }

  /** The verdict for a wallet, or none when it does not exist. The row, the
      credits and the debits are read by three queries, in this order. */
  function VerifyLedgerBalance(row: DB, credits: DB, debits: DB, wallet: Uuid): Option<bool> {
    if wallet !in row.wallets then None
    else
      var creditSum, debitSum :=
          KindSum(Moves(credits.ledger), wallet, CREDIT), KindSum(Moves(debits.ledger), wallet, DEBIT);
      Some(creditSum - debitSum == row.wallets[wallet].ton + row.wallets[wallet].credit)
  }

  lemma {:induction false} KindsAddUp(ms: seq<Move>, wallet: Uuid)
    requires SoundMoves(ms)
    ensures KindSum(ms, wallet, CREDIT) - KindSum(ms, wallet, DEBIT) == FlowSum(MoveFlows(ms), wallet)
  {
    if ms != [] {
      var init, m := ms[..|ms| - 1], ms[|ms| - 1];
      KindsAddUp(init, wallet);
      assert m in ms;
      assert MoveFlows(ms)[..|MoveFlows(ms)| - 1] == MoveFlows(init);
      assert DEBIT[0] != CREDIT[0];
    }
  }

  /** In agreement, the flows on the chain add up to the row. */
  lemma ChainTotal(h: Hasher, db: DB, wallet: Uuid)
    requires Agreement(h, db)
    ensures FlowSum(MoveFlows(Moves(db.ledger)), wallet) == TotalOf(db.wallets, wallet)
  {
    SumsMeet(db.txs, wallet);
  }

  lemma AgreedSums(h: Hasher, db: DB, wallet: Uuid)
    requires Agreement(h, db)
    ensures KindSum(Moves(db.ledger), wallet, CREDIT) - KindSum(Moves(db.ledger), wallet, DEBIT) ==
      TotalOf(db.wallets, wallet)
  {
    ChainTotal(h, db, wallet);
    KindsAddUp(Moves(db.ledger), wallet);
  }

  /** After any run the balance check passes for every wallet there is. */
  lemma BalanceCheckPasses(h: Hasher, ops: seq<Op>, wallet: Uuid)
    ensures var db := Run(h, EMPTY, ops);
      VerifyLedgerBalance(db, db, db, wallet) == if wallet in db.wallets then Some(true) else None
  {
    RunAgrees(h, ops);
    AgreedSums(h, Run(h, EMPTY, ops), wallet);
  }

  /** What has been booked on a wallet between two views of the chain. */
  function Booked(earlier: DB, later: DB, wallet: Uuid, kind: string): int
    requires earlier.ledger <= later.ledger
  {
    KindSum(Moves(later.ledger[|earlier.ledger|..]), wallet, kind)
  }

  lemma {:induction false} MovesAppend(a: seq<LedgerEntry>, b: seq<LedgerEntry>)
    ensures Moves(a + b) == Moves(a) + Moves(b)
  {
    if b == [] {
      assert a + b == a;
    } else {
      var c := a + b;
      assert c[..|c| - 1] == a + b[..|b| - 1];
      MovesAppend(a, b[..|b| - 1]);
    }
  }

  lemma {:induction false} KindSumAppend(a: seq<Move>, b: seq<Move>, wallet: Uuid, kind: string)
    ensures KindSum(a + b, wallet, kind) == KindSum(a, wallet, kind) + KindSum(b, wallet, kind)
  {
    if b == [] {
      assert a + b == a;
    } else {
      var c := a + b;
      assert c[..|c| - 1] == a + b[..|b| - 1];
      KindSumAppend(a, b[..|b| - 1], wallet, kind);
    }
  }

  lemma BookedAddsUp(earlier: DB, later: DB, wallet: Uuid, kind: string)
    requires earlier.ledger <= later.ledger
    ensures KindSum(Moves(later.ledger), wallet, kind) ==
      KindSum(Moves(earlier.ledger), wallet, kind) + Booked(earlier, later, wallet, kind)
  {
    var more := later.ledger[|earlier.ledger|..];
    assert later.ledger == earlier.ledger + more;
    MovesAppend(earlier.ledger, more);
    KindSumAppend(Moves(earlier.ledger), Moves(more), wallet, kind);
  }

  /** Whatever is booked while the three queries run: the check passes exactly
      if the credits booked before the second query equal the debits booked
      before the third. */
  lemma ApartCheckIff(h: Hasher, row: DB, credits: DB, debits: DB, wallet: Uuid)
    requires Agreement(h, row) && wallet in row.wallets
    requires row.ledger <= credits.ledger && row.ledger <= debits.ledger
    ensures VerifyLedgerBalance(row, credits, debits, wallet) ==
      Some(Booked(row, credits, wallet, CREDIT) == Booked(row, debits, wallet, DEBIT))
  {
    AgreedSums(h, row, wallet);
    BookedAddsUp(row, credits, wallet, CREDIT);
    BookedAddsUp(row, debits, wallet, DEBIT);
  }

  // ---- BalanceAfter ----

  /** Each block's `BalanceAfter` is its wallet's running total at that block. */
  predicate RunningTotals(ms: seq<Move>) {
    ms == [] || (RunningTotals(ms[..|ms| - 1])
        && ms[|ms| - 1].balanceAfter == FlowSum(MoveFlows(ms), ms[|ms| - 1].wallet))
  }

  lemma RunningStep(ms: seq<Move>, m: Move)
    ensures RunningTotals(ms + [m]) <==>
      RunningTotals(ms) && m.balanceAfter == FlowSum(MoveFlows(ms), m.wallet) + FlowOf(m).amount
    ensures forall w: Uuid ::
      FlowSum(MoveFlows(ms + [m]), w) == FlowSum(MoveFlows(ms), w) + if w == m.wallet then FlowOf(m).amount else 0
  {
    var all := ms + [m];
    assert all[..|all| - 1] == ms && all[|all| - 1] == m;
    assert MoveFlows(all) == MoveFlows(ms) + [FlowOf(m)];
    assert MoveFlows(all)[..|MoveFlows(all)| - 1] == MoveFlows(ms);
  }

  /** Self-transfer is the one operation that records a wrong running total. */
  predicate SelfTransfer(op: Op) {
    op.Transfer? && op.from == op.to
  }

  /** Two more movements keep the running totals right exactly when each
      movement's balance is the running total it produces. */
  lemma RunningTwo(ms: seq<Move>, m: Move, n: Move)
    requires RunningTotals(ms)
    ensures RunningTotals((ms + [m]) + [n]) <==>
      && m.balanceAfter == FlowSum(MoveFlows(ms), m.wallet) + FlowOf(m).amount
      && n.balanceAfter == FlowSum(MoveFlows(ms), n.wallet) + FlowOf(n).amount
          + (if m.wallet == n.wallet then FlowOf(m).amount else 0)
  {
    RunningStep(ms, m);
    RunningStep(ms + [m], n);
  }

  /** Blocks that carry the total read at the start plus their own amount; two
      blocks of one wallet start with a debit. */
  predicate BalancesFrom(rows: map<Uuid, Wallet>, moves: seq<Move>, sameWallet: bool) {
    && |moves| <= 2
    && (forall m :: m in moves ==> m.balanceAfter == TotalOf(rows, m.wallet) + FlowOf(m).amount)
    && (sameWallet <==> |moves| == 2 && moves[0].wallet == moves[1].wallet)
    && (|moves| == 2 ==> FlowOf(moves[0]).amount < 0)
  }

  lemma DecidedBalances(rows: map<Uuid, Wallet>, txs: seq<Transaction>, request: Option<Request>, op: Op)
    requires Decide(rows, txs, request, op).Go?
    ensures BalancesFrom(rows, Decide(rows, txs, request, op).plan.moves, SelfTransfer(op))
  {
    assert DEBIT[0] != CREDIT[0];
  }

  /** The movement's balance is the total so far plus its own amount. */
  predicate StartsFrom(ms: seq<Move>, m: Move) {
    m.balanceAfter == FlowSum(MoveFlows(ms), m.wallet) + FlowOf(m).amount
  }

  lemma OneMove(ms: seq<Move>, moves: seq<Move>)
    requires RunningTotals(ms) && |moves| == 1 && StartsFrom(ms, moves[0])
    ensures RunningTotals(ms + moves)
  {
    assert moves == [moves[0]];
    RunningStep(ms, moves[0]);
  }

  lemma TwoMoves(ms: seq<Move>, m: Move, n: Move)
    requires RunningTotals(ms) && StartsFrom(ms, m) && StartsFrom(ms, n) && FlowOf(m).amount < 0
    ensures RunningTotals(ms + [m] + [n]) <==> m.wallet != n.wallet
  {
    RunningTwo(ms, m, n);
  }

  lemma OneByOne(ms: seq<Move>, moves: seq<Move>)
    requires |moves| == 2
    ensures ms + moves == ms + [moves[0]] + [moves[1]]
  {
  }

  lemma MoveStartsFrom(h: Hasher, db: DB, moves: seq<Move>, sameWallet: bool, i: nat)
    requires Agreement(h, db) && BalancesFrom(db.wallets, moves, sameWallet) && i < |moves|
    ensures StartsFrom(Moves(db.ledger), moves[i])
  {
    assert moves[i] in moves;
    ChainTotal(h, db, moves[i].wallet);
  }

  lemma AppendBalances(h: Hasher, db: DB, moves: seq<Move>, sameWallet: bool)
    requires Agreement(h, db) && RunningTotals(Moves(db.ledger))
    requires BalancesFrom(db.wallets, moves, sameWallet)
    ensures RunningTotals(Moves(Append(h, db.ledger, moves))) <==> !sameWallet
  {
    var ms := Moves(db.ledger);
    AppendMoves(h, db.ledger, moves);
    if |moves| == 0 {
      assert ms + moves == ms;
    } else if |moves| == 1 {
      MoveStartsFrom(h, db, moves, sameWallet, 0);
      OneMove(ms, moves);
    } else {
      MoveStartsFrom(h, db, moves, sameWallet, 0);
      MoveStartsFrom(h, db, moves, sameWallet, 1);
      TwoMoves(ms, moves[0], moves[1]);
      OneByOne(ms, moves);
    }
  }

  /** What an applied operation has committed. */
  lemma AppliedPlan(h: Hasher, db: DB, op: Op, after: DB) returns (p: Plan)
    requires !op.Register? && Effect(h, db, op) == (after, Applied)
    ensures Decide(db.wallets, db.txs, RequestOf(db.requests, op), op) == Go(p)
    ensures KeysFree(db, p) && after == Commit(h, db, p)
  {
    p := Decide(db.wallets, db.txs, RequestOf(db.requests, op), op).plan;
  }

  lemma AppliedBalances(h: Hasher, db: DB, op: Op, after: DB)
    requires Agreement(h, db) && RunningTotals(Moves(db.ledger))
    requires Effect(h, db, op) == (after, Applied)
    ensures RunningTotals(Moves(after.ledger)) <==> !SelfTransfer(op)
  {
    if !op.Register? {
      var p := AppliedPlan(h, db, op, after);
      PlanBalances(h, db, RequestOf(db.requests, op), op, p.moves);
    }
  }

  lemma PlanBalances(h: Hasher, db: DB, request: Option<Request>, op: Op, moves: seq<Move>)
    requires Agreement(h, db) && RunningTotals(Moves(db.ledger))
    requires Decide(db.wallets, db.txs, request, op).Go? && Decide(db.wallets, db.txs, request, op).plan.moves == moves
    ensures RunningTotals(Moves(Append(h, db.ledger, moves))) <==> !SelfTransfer(op)
  {
    DecidedBalances(db.wallets, db.txs, request, op);
    AppendBalances(h, db, moves, SelfTransfer(op));
  }

  /** `BalanceAfter`, computed from the rows read at the start, is the total
      after the relative update exactly when the operation does not transfer
      from a wallet to itself. */
  lemma BalanceAfterIff(h: Hasher, db: DB, op: Op)
    requires Agreement(h, db) && RunningTotals(Moves(db.ledger))
    requires Effect(h, db, op).1.Applied?
    ensures RunningTotals(Moves(Effect(h, db, op).0.ledger)) <==> !SelfTransfer(op)
  {
    AppliedBalances(h, db, op, Effect(h, db, op).0);
  }

  /** The last balance the chain records for a wallet. */
  function LastBalance(ms: seq<Move>, wallet: Uuid): Option<int> {
    if ms == [] then None
    else if ms[|ms| - 1].wallet == wallet then Some(ms[|ms| - 1].balanceAfter)
    else LastBalance(ms[..|ms| - 1], wallet)
  }

  lemma {:induction false} LastBalanceIsSum(ms: seq<Move>, wallet: Uuid)
    requires RunningTotals(ms)
    ensures FlowSum(MoveFlows(ms), wallet) == match LastBalance(ms, wallet) { case Some(b) => b case None => 0 }
  {
    if ms != [] {
      var init := ms[..|ms| - 1];
      LastBalanceIsSum(init, wallet);
      assert MoveFlows(ms)[..|MoveFlows(ms)| - 1] == MoveFlows(init);
    }
  }

  lemma CallKeepsRunning(h: Hasher, db: DB, op: Op)
    requires Agreement(h, db) && RunningTotals(Moves(db.ledger)) && !SelfTransfer(op)
    ensures RunningTotals(Moves(Apply(h, db, op).0.ledger))
  {
    if Apply(h, db, op).1.Applied? {
      BalanceAfterIff(h, db, op);
    }
  }

  lemma {:induction false} RunKeepsRunning(h: Hasher, ops: seq<Op>)
    requires forall op :: op in ops ==> !SelfTransfer(op)
    ensures RunningTotals(Moves(Run(h, EMPTY, ops).ledger))
  {
    if ops != [] {
      var init, op := ops[..|ops| - 1], ops[|ops| - 1];
      assert op in ops;
      RunKeepsRunning(h, init);
      RunAgrees(h, init);
      CallKeepsRunning(h, Run(h, EMPTY, init), op);
    }
  }

  /** In agreement and with running totals, the last block of each wallet gives
      its current total, and a wallet without blocks has total zero. */
  lemma LastBlockTotal(h: Hasher, db: DB, wallet: Uuid)
    requires Agreement(h, db) && RunningTotals(Moves(db.ledger))
    ensures TotalOf(db.wallets, wallet) ==
      match LastBalance(Moves(db.ledger), wallet) { case Some(b) => b case None => 0 }
  {
    ChainTotal(h, db, wallet);
    LastBalanceIsSum(Moves(db.ledger), wallet);
  }

  /** So it does after every run without self-transfers. */
  lemma LastBlockGivesTotal(h: Hasher, ops: seq<Op>, wallet: Uuid)
    requires forall op :: op in ops ==> !SelfTransfer(op)
    ensures var db := Run(h, EMPTY, ops);
      && RunningTotals(Moves(db.ledger))
      && TotalOf(db.wallets, wallet) == match LastBalance(Moves(db.ledger), wallet) { case Some(b) => b case None => 0 }
  {
    RunKeepsRunning(h, ops);
    RunAgrees(h, ops);
    LastBlockTotal(h, Run(h, EMPTY, ops), wallet);
  }
}
