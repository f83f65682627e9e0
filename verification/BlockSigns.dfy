/** Signs: every block of the chain has an amount that is not negative, and its
    type is the sign of the transaction it carries. */
module BlockSigns {
  import opened Records
  import opened HashChain
  import opened Operations
  import opened LedgerAgreement
  import opened Holds
  import opened Interleaving
  import opened Schedules

  /** The sign each kind of transaction has. */
  predicate Signed(t: Transaction) {
    match t.kind
    case TxDeposit => t.amount > 0
    case TxCreditAdd => t.amount > 0
    case TxPayment => t.amount < 0
    case TxWithdraw => t.amount <= 0
    case TxRefund => t.amount == 0
  }

  predicate SignedRows(txs: seq<Transaction>) {
    forall t :: t in txs ==> Signed(t)
  }

  /** A credit of a positive amount, or a debit of the amount without its sign. */
  predicate Carries(m: Move, t: Transaction) {
    && m.txID == t.id && m.wallet == t.wallet && m.amount >= 0
    && (m.kind == CREDIT <==> t.amount > 0)
    && (t.amount > 0 ==> m.amount == t.amount)
    && (t.amount <= 0 ==> m.kind == DEBIT && m.amount == -t.amount)
  }

  /** The transactions that have a block, in order. */
  function Carried(txs: seq<Transaction>): seq<Transaction> {
    if txs == [] then []
    else
      var init, t := Carried(txs[..|txs| - 1]), txs[|txs| - 1];
      if t.kind == TxRefund then init else init + [t]
  }

  /** The blocks carry those transactions, one for one and in order. */
  predicate BlocksCarry(ms: seq<Move>, txs: seq<Transaction>) {
    |ms| == |Carried(txs)| && forall k :: 0 <= k < |ms| ==> Carries(ms[k], Carried(txs)[k])
  }

  lemma {:induction false} CarriedFlows(txs: seq<Transaction>)
    ensures |TxFlows(txs)| == |Carried(txs)|
    ensures forall k :: 0 <= k < |Carried(txs)| ==> TxFlows(txs)[k] == TxFlow(Carried(txs)[k])
    ensures forall t :: t in Carried(txs) ==> t in txs && t.kind != TxRefund
  {
    if txs != [] {
      CarriedFlows(txs[..|txs| - 1]);
      assert txs[|txs| - 1] in txs;
    }
  }

  lemma {:induction false} MoveFlowAt(ms: seq<Move>)
    ensures |MoveFlows(ms)| == |ms|
    ensures forall k :: 0 <= k < |ms| ==> MoveFlows(ms)[k] == FlowOf(ms[k])
  {
    if ms != [] {
      MoveFlowAt(ms[..|ms| - 1]);
    }
  }

  lemma SameFlow(m: Move, t: Transaction)
    requires FlowOf(m) == TxFlow(t) && Signed(t) && t.kind != TxRefund
    ensures Carries(m, t)
  {
    assert DEBIT[0] != CREDIT[0];
  }

  lemma AgreedBlocksCarry(h: Hasher, db: DB)
    requires Agreement(h, db) && SignedRows(db.txs)
    ensures BlocksCarry(Moves(db.ledger), db.txs)
  {
    var ms, ts := Moves(db.ledger), Carried(db.txs);
    CarriedFlows(db.txs);
    MoveFlowAt(ms);
    forall k | 0 <= k < |ms|
      ensures Carries(ms[k], ts[k])
    {
      assert ts[k] in ts && MoveFlows(ms)[k] == TxFlows(db.txs)[k];
      SameFlow(ms[k], ts[k]);
    }
  }

  // ---- one operation ----

  lemma DecidedSigns(rows: map<Uuid, Wallet>, txs: seq<Transaction>, request: Option<Request>, op: Op, p: Plan)
    requires Decide(rows, txs, request, op) == Go(p)
    requires op.Deposit? ==> op.amount > 0
    requires request.Some? ==> request.value.Total() >= 0
    ensures SignedRows(p.rows)
  {
  }

  lemma EffectSigns(h: Hasher, db: DB, op: Op)
    requires SignedRows(db.txs) && SoundRequests(db.wallets, db.requests) && Admissible(db, op)
    ensures SignedRows(Effect(h, db, op).0.txs)
  {
    var request, after := RequestOf(db.requests, op), Effect(h, db, op).0;
    if !op.Register? && Effect(h, db, op).1.Applied? {
      var p := AppliedPlan(h, db, op, after);
      DecidedSigns(db.wallets, db.txs, request, op, p);
    }
  }

  /** A deposit of a positive amount, or the completion of a request that is not
      negative, if it is one of the two. */
  predicate KeepsSigns(db: DB, op: Op) {
    && (op.Deposit? ==> op.amount > 0)
    && (op.CompleteWithdraw? && FindRequest(db.requests, op.request).Some? ==>
          var q := FindRequest(db.requests, op.request).value; q.amount + q.fee >= 0)
  }

  lemma DecidedSignsIff(db: DB, op: Op, p: Plan)
    requires Decide(db.wallets, db.txs, RequestOf(db.requests, op), op) == Go(p)
    ensures SignedRows(p.rows) <==> KeepsSigns(db, op)
  {
    if |p.rows| > 0 {
      assert p.rows[0] in p.rows;
    }
  }

  /** The signs are checked by the callers and not by the operations: an applied
      operation keeps them if and only if it is no deposit without an amount and
      completes no negative request. */
  lemma SignsIff(h: Hasher, db: DB, op: Op)
    requires SignedRows(db.txs) && Effect(h, db, op).1.Applied?
    ensures SignedRows(Effect(h, db, op).0.txs) <==> KeepsSigns(db, op)
  {
    if !op.Register? {
      var p := AppliedPlan(h, db, op, Effect(h, db, op).0);
      DecidedSignsIff(db, op, p);
      assert forall t :: t in db.txs + p.rows <==> t in db.txs || t in p.rows;
    }
  }

  // ---- runs and schedules ----

  lemma {:induction false} RunSigns(h: Hasher, ops: seq<Op>)
    requires AdmissibleRun(h, ops)
    ensures SignedRows(Run(h, EMPTY, ops).txs)
  {
    if ops != [] {
      var init := ops[..|ops| - 1];
      AdmissiblePrefix(h, ops);
      RunSigns(h, init);
      RunHolds(h, init);
      EffectSigns(h, Run(h, EMPTY, init), ops[|ops| - 1]);
    }
  }

  /** After every admissible run no block has a negative amount, and a block is
      a credit exactly when its transaction brings something in. */
  lemma RunBlocksCarry(h: Hasher, ops: seq<Op>)
    requires AdmissibleRun(h, ops)
    ensures var db := Run(h, EMPTY, ops); SignedRows(db.txs) && BlocksCarry(Moves(db.ledger), db.txs)
  {
    RunSigns(h, ops);
    RunAgrees(h, ops);
    AgreedBlocksCarry(h, Run(h, EMPTY, ops));
  }

  lemma CommitSigns(h: Hasher, honoured: bool, s: Sys, step: Step)
    requires Inv(h, honoured, s) && Commits(s, step).Some? && SignedRows(s.db.txs)
    requires SoundRequests(s.db.wallets, s.db.requests) && Admissible(s.db, Commits(s, step).value)
    ensures SignedRows(Next(h, honoured, s, step).db.txs)
  {
    var op := Commits(s, step).value;
    if LocksOnRead(honoured, op) {
      CommitIsEffect(h, honoured, s, step);
      EffectSigns(h, s.db, op);
    } else {
      LooseHold(h, honoured, s, step);
    }
  }

  lemma {:induction false} EveryScheduleSigns(h: Hasher, honoured: bool, schedule: seq<Step>)
    requires AdmissibleSchedule(h, honoured, schedule)
    ensures SignedRows(Play(h, honoured, START, schedule).db.txs)
  {
    if schedule != [] {
      var init, step := schedule[..|schedule| - 1], schedule[|schedule| - 1];
      var s := Play(h, honoured, START, init);
      EveryScheduleSigns(h, honoured, init);
      EveryScheduleFrozen(h, honoured, init);
      EveryScheduleAgrees(h, honoured, init);
      CommitLogged(h, honoured, s, step);
      if Commits(s, step).Some? {
        CommitSigns(h, honoured, s, step);
      }
    }
  }

  /** The same under every interleaving, with either lock setting. */
  lemma EveryScheduleBlocksCarry(h: Hasher, honoured: bool, schedule: seq<Step>)
    requires AdmissibleSchedule(h, honoured, schedule)
    ensures var db := Play(h, honoured, START, schedule).db;
      SignedRows(db.txs) && BlocksCarry(Moves(db.ledger), db.txs)
  {
    EveryScheduleSigns(h, honoured, schedule);
    EveryScheduleAgrees(h, honoured, schedule);
    AgreedBlocksCarry(h, Play(h, honoured, START, schedule).db);
  }
}
