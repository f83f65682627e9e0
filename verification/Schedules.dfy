/** What holds after every schedule of interleaved operations. */
module Schedules {
  import opened Records
  import opened HashChain
  import opened Operations
  import opened LedgerAgreement
  import opened Holds
  import opened Replay
  import opened Interleaving

  // ---- serializability ----

  /** The operation a step commits, if it commits one. */
  function Commits(s: Sys, step: Step): Option<Op> {
    match step
    case NewWallet(w) => if w in s.db.wallets then None else Some(Register(w))
    case Finish(t) => if t in s.flights && ReadyToFinish(s.db, s.flights[t]) then Some(s.flights[t].op) else None
    case _ => None
  }

  lemma CommitLogged(h: Hasher, honoured: bool, s: Sys, step: Step)
    ensures var n := Next(h, honoured, s, step);
      match Commits(s, step)
      case None => n.db == s.db && n.log == s.log
      case Some(op) => n.log == s.log + [op]
  {
  }

  /** With its locks held, a commit is the operation's effect on the database
      it meets. */
  lemma CommitIsEffect(h: Hasher, honoured: bool, s: Sys, step: Step)
    requires Inv(h, honoured, s) && Commits(s, step).Some? && LocksOnRead(honoured, Commits(s, step).value)
    ensures Effect(h, s.db, Commits(s, step).value) == (Next(h, honoured, s, step).db, Applied)
  {
    if step.Finish? {
      FinishIsEffect(h, honoured, s.db, s.flights[step.t]);
    }
  }

  /** A hold decided on a row read without a lock books nothing. */
  lemma LooseHold(h: Hasher, honoured: bool, s: Sys, step: Step)
    requires Inv(h, honoured, s) && Commits(s, step).Some? && !LocksOnRead(honoured, Commits(s, step).value)
    ensures var n := Next(h, honoured, s, step); n.db.txs == s.db.txs && n.db.ledger == s.db.ledger
  {
    var f := s.flights[step.t];
    assert f.plan.value.rows == [] && f.plan.value.moves == [];
  }

  /** The operations' bodies, one after another. */
  function RunEffects(h: Hasher, ops: seq<Op>): DB {
    if ops == [] then EMPTY else Effect(h, RunEffects(h, ops[..|ops| - 1]), ops[|ops| - 1]).0
  }

  lemma OneMoreEffect(h: Hasher, ops: seq<Op>, op: Op)
    ensures RunEffects(h, ops + [op]) == Effect(h, RunEffects(h, ops), op).0
  {
    assert (ops + [op])[..|ops|] == ops;
  }

  /** With the row locks the code asks for, every interleaving commits what
      running the same bodies one after another, in commit order, would. A body
      is what follows the early duplicate check. */
  lemma {:induction false} EveryScheduleSerializes(h: Hasher, schedule: seq<Step>)
    ensures var s := Play(h, true, START, schedule); s.db == RunEffects(h, s.log)
  {
    if schedule != [] {
      var init, step := schedule[..|schedule| - 1], schedule[|schedule| - 1];
      var s := Play(h, true, START, init);
      EveryScheduleSerializes(h, init);
      EveryScheduleAgrees(h, true, init);
      CommitLogged(h, true, s, step);
      if Commits(s, step).Some? {
        CommitIsEffect(h, true, s, step);
        OneMoreEffect(h, s.log, Commits(s, step).value);
      }
    }
  }

  /** Under every interleaving the balance in a committed block, computed from
      the rows read at the start, is the wallet's running total, and the last
      block of a wallet shows its current total. */
  lemma EveryScheduleLastBlock(h: Hasher, honoured: bool, schedule: seq<Step>, wallet: Uuid)
    requires forall op :: op in Play(h, honoured, START, schedule).log ==> !SelfTransfer(op)
    ensures var db := Play(h, honoured, START, schedule).db;
      && RunningTotals(Moves(db.ledger))
      && TotalOf(db.wallets, wallet) == match LastBalance(Moves(db.ledger), wallet) { case Some(b) => b case None => 0 }
  {
    EveryScheduleAgrees(h, honoured, schedule);
    LastBlockTotal(h, Play(h, honoured, START, schedule).db, wallet);
  }

  // ---- holds ----

  /** Each operation is admissible when it commits. */
  ghost predicate AdmissibleSchedule(h: Hasher, honoured: bool, schedule: seq<Step>) {
    schedule == [] ||
    var init, step := schedule[..|schedule| - 1], schedule[|schedule| - 1];
    var s := Play(h, honoured, START, init);
    AdmissibleSchedule(h, honoured, init) && (Commits(s, step).Some? ==> Admissible(s.db, Commits(s, step).value))
  }

  /** Rows that have been read exist. */
  predicate SnapsExist(s: Sys) {
    forall t :: t in s.flights ==> s.flights[t].snap.Keys <= s.db.wallets.Keys
  }

  lemma FinishKeepsSnaps(h: Hasher, honoured: bool, s: Sys, t: nat)
    requires SnapsExist(s)
    ensures SnapsExist(Next(h, honoured, s, Finish(t)))
  {
    if t in s.flights && ReadyToFinish(s.db, s.flights[t]) {
      UpdatesKeepKeys(s.db.wallets, s.flights[t].plan.value.deltas);
    }
  }

  lemma StepKeepsSnaps(h: Hasher, honoured: bool, s: Sys, step: Step)
    requires SnapsExist(s)
    ensures SnapsExist(Next(h, honoured, s, step))
  {
    if step.Finish? {
      FinishKeepsSnaps(h, honoured, s, step.t);
    }
  }

  lemma FinishKeepsFrozen(h: Hasher, honoured: bool, s: Sys, t: nat)
    requires Inv(h, honoured, s) && SnapsExist(s) && FrozenExact(s.db.wallets, s.db.requests)
    requires t in s.flights && ReadyToFinish(s.db, s.flights[t]) && Admissible(s.db, s.flights[t].op)
    ensures var after := Committed(s.db, s.flights[t]); FrozenExact(after.wallets, after.requests)
  {
    var f := s.flights[t];
    PlanKeepsFrozen(s.db, f.snap, f.request, f.op, f.plan.value);
  }

  lemma StepKeepsFrozen(h: Hasher, honoured: bool, s: Sys, step: Step)
    requires Inv(h, honoured, s) && SnapsExist(s) && FrozenExact(s.db.wallets, s.db.requests)
    requires Commits(s, step).Some? ==> Admissible(s.db, Commits(s, step).value)
    ensures var n := Next(h, honoured, s, step); FrozenExact(n.db.wallets, n.db.requests)
  {
    CommitLogged(h, honoured, s, step);
    if Commits(s, step).Some? {
      match step {
        case NewWallet(w) => RegisterKeepsFrozen(s.db.wallets, s.db.requests, w);
        case Finish(t) => FinishKeepsFrozen(h, honoured, s, t);
      }
    }
  }

  /** Whether or not `CreateWithdraw` locks its row: under every interleaving
      `frozen` is the sum of the pending requests. */
  lemma {:induction false} EveryScheduleFrozen(h: Hasher, honoured: bool, schedule: seq<Step>)
    requires AdmissibleSchedule(h, honoured, schedule)
    ensures var s := Play(h, honoured, START, schedule); FrozenExact(s.db.wallets, s.db.requests) && SnapsExist(s)
  {
    if schedule != [] {
      var init, step := schedule[..|schedule| - 1], schedule[|schedule| - 1];
      var s := Play(h, honoured, START, init);
      EveryScheduleFrozen(h, honoured, init);
      EveryScheduleAgrees(h, honoured, init);
      StepKeepsFrozen(h, honoured, s, step);
      StepKeepsSnaps(h, honoured, s, step);
    }
  }

  /** If it does, every wallet's total covers its hold too. */
  lemma {:induction false} EveryScheduleHolds(h: Hasher, schedule: seq<Step>)
    requires AdmissibleSchedule(h, true, schedule)
    ensures HoldsExact(Play(h, true, START, schedule).db)
  {
    if schedule != [] {
      var init, step := schedule[..|schedule| - 1], schedule[|schedule| - 1];
      var s := Play(h, true, START, init);
      EveryScheduleHolds(h, init);
      EveryScheduleAgrees(h, true, init);
      CommitLogged(h, true, s, step);
      if Commits(s, step).Some? {
        CommitIsEffect(h, true, s, step);
        EffectHolds(h, s.db, Commits(s, step).value);
      }
    }
  }

  // ---- credits are booked once ----

  /** Each committed credit has its row, and no two share a key. */
  ghost predicate CreditsOnce(txs: seq<Transaction>, log: seq<Op>) {
    && (forall op :: op in log && op.AddCredit? ==> KeyOf(op).Some? && FindTx(txs, KeyOf(op).value).Some?)
    && (forall i, j :: 0 <= i < j < |log| && log[i].AddCredit? && log[j].AddCredit? ==> KeyOf(log[i]) != KeyOf(log[j]))
  }

  lemma LogStays(txs: seq<Transaction>, more: seq<Transaction>, log: seq<Op>, op: Op)
    requires CreditsOnce(txs, log) && op in log && op.AddCredit?
    ensures KeyOf(op).Some? && FindTx(txs + more, KeyOf(op).value).Some?
  {
    FindStays(txs, more, KeyOf(op).value);
  }

  lemma EffectCreditsOnce(h: Hasher, db: DB, log: seq<Op>, op: Op)
    requires CreditsOnce(db.txs, log) && Effect(h, db, op).1.Applied?
    ensures CreditsOnce(Effect(h, db, op).0.txs, log + [op])
  {
    var after := Effect(h, db, op).0.txs;
    var more := EffectRows(h, db, op);
    forall o | o in log && o.AddCredit?
      ensures FindTx(after, KeyOf(o).value).Some?
    {
      LogStays(db.txs, more, log, o);
    }
    if op.AddCredit? {
      AppliedLeavesKey(h, db, op);
      assert FindTx(db.txs, KeyOf(op).value).None?;
    }
  }

  lemma EffectRows(h: Hasher, db: DB, op: Op) returns (more: seq<Transaction>)
    ensures Effect(h, db, op).0.txs == db.txs + more
    ensures op.AddCredit? && Effect(h, db, op).1.Applied? ==> KeyOf(op).Some?
  {
    more := Effect(h, db, op).0.txs[|db.txs|..];
  }

  /** Under every interleaving, whether or not `CreateWithdraw` locks its row,
      at most one credit per wallet, service and reference is ever applied. */
  lemma {:induction false} EveryScheduleCreditsOnce(h: Hasher, honoured: bool, schedule: seq<Step>, key: Key)
    requires key.ByRef? && key.kind == TxCreditAdd
    ensures var s := Play(h, honoured, START, schedule); CreditsOnce(s.db.txs, s.log) && BookedOnce(s.db.txs, key)
  {
    if schedule != [] {
      var init, step := schedule[..|schedule| - 1], schedule[|schedule| - 1];
      var s := Play(h, honoured, START, init);
      EveryScheduleCreditsOnce(h, honoured, init, key);
      EveryScheduleAgrees(h, honoured, init);
      CommitLogged(h, honoured, s, step);
      if Commits(s, step).Some? {
        var op := Commits(s, step).value;
        if LocksOnRead(honoured, op) {
          CommitIsEffect(h, honoured, s, step);
          EffectCreditsOnce(h, s.db, s.log, op);
          EffectBooksCreditOnce(h, s.db, op, key);
        } else {
          LooseHold(h, honoured, s, step);
        }
      }
    }
  }

  // ---- keys checked before the lock ----

  /** The duplicate check of `Deposit` and `Deduct` comes before the row lock:
      on-chain hashes and payment references. */
  predicate EarlyKey(key: Key) {
    match key
    case ByHash(_) => true
    case ByRef(_, _, ref, kind) => ref != "" && kind == TxPayment
  }

  /** No two calls with one of the exclusive keys are open. */
  ghost predicate OnePerKey(s: Sys, exclusive: Key -> bool) {
    forall t, u, key :: t in s.flights && u in s.flights && t != u && exclusive(key) ==>
      KeyOf(s.flights[t].op) != Some(key) || KeyOf(s.flights[u].op) != Some(key)
  }

  /** At no moment of the schedule. */
  ghost predicate Excluding(h: Hasher, honoured: bool, exclusive: Key -> bool, s: Sys, schedule: seq<Step>) {
    && OnePerKey(Play(h, honoured, s, schedule), exclusive)
    && (schedule == [] || Excluding(h, honoured, exclusive, s, schedule[..|schedule| - 1]))
  }

  predicate Unbooked(txs: seq<Transaction>, key: Key) {
    forall t :: t in txs ==> !Books(t, key)
  }

  /** While a call with the key is open nothing is booked under it. */
  ghost predicate KeyInv(s: Sys, key: Key) {
    BookedOnce(s.db.txs, key) && forall t :: t in s.flights && KeyOf(s.flights[t].op) == Some(key) ==>
        Unbooked(s.db.txs, key)
  }

  /** Only a call with the key writes a row that books it. */
  lemma DecidedRows(rows: map<Uuid, Wallet>, txs: seq<Transaction>, request: Option<Request>, op: Op, key: Key)
    requires Decide(rows, txs, request, op).Go? && EarlyKey(key)
    ensures var p := Decide(rows, txs, request, op).plan;
      if KeyOf(op) == Some(key) then |p.rows| == 1 else Unbooked(p.rows, key)
  {
  }

  lemma CommitKeepsUnbooked(txs: seq<Transaction>, rows: seq<Transaction>, key: Key)
    requires Unbooked(txs, key) && Unbooked(rows, key)
    ensures Unbooked(txs + rows, key)
  {
  }

  lemma RowsBookOnce(txs: seq<Transaction>, rows: seq<Transaction>, key: Key)
    requires BookedOnce(txs, key) && (Unbooked(rows, key) || (Unbooked(txs, key) && |rows| == 1))
    ensures BookedOnce(txs + rows, key)
  {
    OneMoreRow(txs, rows, key);
  }

  /** A commit's rows, and one open call less. */
  lemma KeyAfter(s: Sys, n: Sys, rows: seq<Transaction>, key: Key, own: bool)
    requires KeyInv(s, key) && n.db.txs == s.db.txs + rows
    requires forall u :: u in n.flights ==> u in s.flights && n.flights[u].op == s.flights[u].op
    requires own ==> |rows| == 1 && Unbooked(s.db.txs, key)
    requires own ==> forall u :: u in n.flights ==> KeyOf(n.flights[u].op) != Some(key)
    requires !own ==> Unbooked(rows, key)
    ensures KeyInv(n, key)
  {
    RowsBookOnce(s.db.txs, rows, key);
    if !own {
      forall u | u in n.flights && KeyOf(n.flights[u].op) == Some(key)
        ensures Unbooked(n.db.txs, key)
      {
        CommitKeepsUnbooked(s.db.txs, rows, key);
      }
    }
  }

  lemma FlightRows(h: Hasher, honoured: bool, db: DB, f: Flight, key: Key)
    requires FlightOk(h, honoured, db, f) && f.plan.Some? && EarlyKey(key)
    ensures if KeyOf(f.op) == Some(key) then |f.plan.value.rows| == 1 else Unbooked(f.plan.value.rows, key)
  {
    DecidedRows(f.snap, db.txs, f.request, f.op, key);
  }

  lemma FinishedTxs(h: Hasher, honoured: bool, s: Sys, t: nat)
    requires t in s.flights && ReadyToFinish(s.db, s.flights[t])
    ensures var n := Next(h, honoured, s, Finish(t));
      n.db.txs == s.db.txs + s.flights[t].plan.value.rows && n.flights == s.flights - {t}
  {
  }

  lemma FinishKeepsKey(h: Hasher, honoured: bool, s: Sys, t: nat, key: Key)
    requires KeyInv(s, key) && EarlyKey(key) && t in s.flights && FlightOk(h, honoured, s.db, s.flights[t])
    requires ReadyToFinish(s.db, s.flights[t])
    requires forall u :: u in s.flights && u != t ==>
      KeyOf(s.flights[u].op) != Some(key) || KeyOf(s.flights[t].op) != Some(key)
    ensures KeyInv(Next(h, honoured, s, Finish(t)), key)
  {
    var f := s.flights[t];
    FlightRows(h, honoured, s.db, f, key);
    FinishedTxs(h, honoured, s, t);
    KeyAfter(s, Next(h, honoured, s, Finish(t)), f.plan.value.rows, key, KeyOf(f.op) == Some(key));
  }

  lemma BeginKeepsKey(h: Hasher, honoured: bool, s: Sys, t: nat, op: Op, key: Key)
    requires KeyInv(s, key) && EarlyKey(key)
    ensures KeyInv(Next(h, honoured, s, Begin(t, op)), key)
  {
    if KeyOf(op) == Some(key) && EarlierTx(s.db.txs, op).None? {
      assert Unbooked(s.db.txs, key);
    }
  }

  /** The steps in between change no transaction and no open call's key. */
  lemma StepLeavesKeys(h: Hasher, honoured: bool, s: Sys, step: Step)
    requires !step.Begin? && Commits(s, step).None?
    ensures var n := Next(h, honoured, s, step);
      n.db == s.db && forall t :: t in n.flights ==> t in s.flights && n.flights[t].op == s.flights[t].op
  {
  }

  lemma StepKeepsKey(h: Hasher, honoured: bool, s: Sys, step: Step, key: Key, exclusive: Key -> bool)
    requires Inv(h, honoured, s) && KeyInv(s, key) && EarlyKey(key) && OnePerKey(s, exclusive) && exclusive(key)
    ensures KeyInv(Next(h, honoured, s, step), key)
  {
    if step.Begin? {
      BeginKeepsKey(h, honoured, s, step.t, step.op, key);
    } else if Commits(s, step).None? {
      StepLeavesKeys(h, honoured, s, step);
    } else if step.Finish? {
      FinishKeepsKey(h, honoured, s, step.t, key);
    }
  }

  /** A deposit hash or a payment reference is booked at most once under every
      interleaving in which no two calls with it are ever open together. */
  lemma {:induction false} ExclusiveKeyBooksOnce(
    h: Hasher, honoured: bool, exclusive: Key -> bool, schedule: seq<Step>, key: Key)
    requires Excluding(h, honoured, exclusive, START, schedule) && EarlyKey(key) && exclusive(key)
    ensures KeyInv(Play(h, honoured, START, schedule), key)
  {
    if schedule != [] {
      var init, step := schedule[..|schedule| - 1], schedule[|schedule| - 1];
      ExclusiveKeyBooksOnce(h, honoured, exclusive, init, key);
      EveryScheduleAgrees(h, honoured, init);
      StepKeepsKey(h, honoured, Play(h, honoured, START, init), step, key, exclusive);
    }
  }

  // ---- queries beside operations ----

  lemma StepGrows(h: Hasher, honoured: bool, s: Sys, step: Step)
    ensures s.db.ledger <= Next(h, honoured, s, step).db.ledger
  {
  }

  lemma {:induction false} LedgerGrows(h: Hasher, honoured: bool, schedule: seq<Step>, n: nat)
    requires n <= |schedule|
    ensures Play(h, honoured, START, schedule[..n]).db.ledger <= Play(h, honoured, START, schedule).db.ledger
  {
    if n == |schedule| {
      assert schedule[..n] == schedule;
    } else {
      var init := schedule[..|schedule| - 1];
      LedgerGrows(h, honoured, init, n);
      assert init[..n] == schedule[..n];
      StepGrows(h, honoured, Play(h, honoured, START, init), schedule[|schedule| - 1]);
    }
  }

  /** What a query sees after so many steps of a schedule. */
  function After(h: Hasher, honoured: bool, schedule: seq<Step>, steps: nat): DB {
    Play(h, honoured, START, if steps < |schedule| then schedule[..steps] else schedule).db
  }

  lemma AfterAgrees(h: Hasher, honoured: bool, schedule: seq<Step>, steps: nat)
    ensures Agreement(h, After(h, honoured, schedule, steps))
  {
    EveryScheduleAgrees(h, honoured, if steps < |schedule| then schedule[..steps] else schedule);
  }

  lemma LaterSeesMore(h: Hasher, honoured: bool, schedule: seq<Step>, m: nat, n: nat)
    requires m <= n
    ensures After(h, honoured, schedule, m).ledger <= After(h, honoured, schedule, n).ledger
  {
    var upto := if n < |schedule| then schedule[..n] else schedule;
    if m < |upto| {
      LedgerGrows(h, honoured, upto, m);
      assert upto[..m] == schedule[..m];
    }
  }

  /** The balance check beside operations: its three queries, outside any
      transaction, pass exactly if the credits booked on the wallet between the
      first and the second equal the debits booked between the first and the
      third. Nothing booked in between, it passes. */
  lemma BalanceCheckBesideOperations(h: Hasher, honoured: bool, schedule: seq<Step>, a: nat, b: nat, c: nat,
                                     wallet: Uuid)
    requires a <= b <= c
    ensures var row := After(h, honoured, schedule, a);
      var credits, debits := After(h, honoured, schedule, b), After(h, honoured, schedule, c);
      && row.ledger <= credits.ledger && row.ledger <= debits.ledger
      && VerifyLedgerBalance(row, credits, debits, wallet) ==
           (if wallet !in row.wallets then None
            else Some(Booked(row, credits, wallet, CREDIT) == Booked(row, debits, wallet, DEBIT)))
      && (wallet in row.wallets && debits.ledger == row.ledger ==>
          VerifyLedgerBalance(row, credits, debits, wallet) == Some(true))
  {
    var row := After(h, honoured, schedule, a);
    var credits, debits := After(h, honoured, schedule, b), After(h, honoured, schedule, c);
    LaterSeesMore(h, honoured, schedule, a, b);
    LaterSeesMore(h, honoured, schedule, b, c);
    AfterAgrees(h, honoured, schedule, a);
    if wallet in row.wallets {
      ApartCheckIff(h, row, credits, debits, wallet);
      if debits.ledger == row.ledger {
        assert credits.ledger[|row.ledger|..] == [] && debits.ledger[|row.ledger|..] == [];
      }
    }
  }
}
