/** Money under every schedule of interleaved operations: it is conserved, the
    arithmetic on it fits, TON does not run out under holds that fit, and every
    commit does what its operation's description says. */
module ScheduledMoney {
  import opened Records
  import opened BaseTen
  import opened HashChain
  import opened Operations
  import opened Holds
  import opened Bookkeeping
  import opened Conservation
  import opened Interleaving
  import opened Schedules

  // ---- conservation ----

  /** What the committed operations have brought in. */
  function BroughtIn(log: seq<Op>): int {
    if log == [] then 0 else BroughtIn(log[..|log| - 1]) + Inward(log[|log| - 1])
  }

  lemma OneMoreIn(log: seq<Op>, op: Op)
    ensures BroughtIn(log + [op]) == BroughtIn(log) + Inward(op)
  {
    assert (log + [op])[..|log|] == log;
  }

  /** What they have paid out, each by the request it met when it committed. */
  function PaidOutBy(h: Hasher, honoured: bool, schedule: seq<Step>): int {
    if schedule == [] then 0
    else
      var init, step := schedule[..|schedule| - 1], schedule[|schedule| - 1];
      var s := Play(h, honoured, START, init);
      PaidOutBy(h, honoured, init) + if Commits(s, step).Some? then Outward(s.db, Commits(s, step).value) else 0
  }

  lemma HoldDelta(rows: map<Uuid, Wallet>, txs: seq<Transaction>, request: Option<Request>, op: Op, p: Plan)
    requires op.CreateWithdraw? && Decide(rows, txs, request, op) == Go(p)
    ensures p.deltas == [Delta(op.wallet, 0, 0, op.amount + op.fee)]
  {
  }

  /** A hold decided on a row read without a lock moves nothing but `frozen`. */
  lemma LooseRows(h: Hasher, honoured: bool, s: Sys, step: Step)
    requires Inv(h, honoured, s) && Commits(s, step).Some? && !LocksOnRead(honoured, Commits(s, step).value)
    ensures var op := Commits(s, step).value;
      Next(h, honoured, s, step).db.wallets == Update(s.db.wallets, Delta(op.wallet, 0, 0, op.amount + op.fee))
  {
    var f := s.flights[step.t];
    assert FlightOk(h, honoured, s.db, f);
    HoldDelta(f.snap, s.db.txs, f.request, f.op, f.plan.value);
    OneUpdate(s.db.wallets, f.plan.value);
  }

  lemma CommitConserves(h: Hasher, honoured: bool, s: Sys, step: Step)
    requires Inv(h, honoured, s) && Commits(s, step).Some?
    ensures Conserves(s.db.wallets, Next(h, honoured, s, step).db.wallets, s.db, Commits(s, step).value)
  {
    var op := Commits(s, step).value;
    if LocksOnRead(honoured, op) {
      CommitIsEffect(h, honoured, s, step);
      EffectConserves(h, s.db, op);
    } else {
      var d := Delta(op.wallet, 0, 0, op.amount + op.fee);
      LooseRows(h, honoured, s, step);
      SumUpdate(s.db.wallets, TotalColumn, d);
      SumUpdate(s.db.wallets, TonColumn, d);
      SumUpdate(s.db.wallets, CreditColumn, d);
    }
  }

  /** Under every interleaving, whatever the lock of `CreateWithdraw` does, the
      wallets together hold what the committed operations have brought in minus
      what they have paid out. */
  lemma {:induction false} EveryScheduleConserves(h: Hasher, honoured: bool, schedule: seq<Step>)
    ensures var s := Play(h, honoured, START, schedule);
      Sum(s.db.wallets, TotalColumn) == BroughtIn(s.log) - PaidOutBy(h, honoured, schedule)
  {
    if schedule != [] {
      var init, step := schedule[..|schedule| - 1], schedule[|schedule| - 1];
      var s := Play(h, honoured, START, init);
      EveryScheduleConserves(h, honoured, init);
      EveryScheduleAgrees(h, honoured, init);
      CommitLogged(h, honoured, s, step);
      if Commits(s, step).Some? {
        CommitConserves(h, honoured, s, step);
        OneMoreIn(s.log, Commits(s, step).value);
      }
    }
  }

  // ---- machine arithmetic ----

  lemma OutwardNonNegative(db: DB, op: Op)
    requires SoundRequests(db.wallets, db.requests) && (op.Deduct? ==> op.amount > 0)
    ensures Outward(db, op) >= 0
  {
    if op.CompleteWithdraw? && FindRequest(db.requests, op.request).Some? {
      assert FindRequest(db.requests, op.request).value in db.requests;
    }
  }

  lemma CommitBounds(h: Hasher, s: Sys, step: Step)
    requires Inv(h, true, s) && Commits(s, step).Some? && SoundRequests(s.db.wallets, s.db.requests)
    requires Admissible(s.db, Commits(s, step).value)
    ensures var op, after := Commits(s, step).value, Next(h, true, s, step).db.wallets;
      && Sum(after, TotalColumn) <= Sum(s.db.wallets, TotalColumn) + Inward(op)
      && Sum(after, CreditColumn) <= Sum(s.db.wallets, CreditColumn) + Inward(op)
  {
    CommitConserves(h, true, s, step);
    CommitIsEffect(h, true, s, step);
    OutwardNonNegative(s.db, Commits(s, step).value);
  }

  lemma {:induction false} ScheduleBounds(h: Hasher, schedule: seq<Step>)
    requires AdmissibleSchedule(h, true, schedule)
    ensures var s := Play(h, true, START, schedule);
      Sum(s.db.wallets, TotalColumn) <= BroughtIn(s.log) && Sum(s.db.wallets, CreditColumn) <= BroughtIn(s.log)
  {
    if schedule != [] {
      var init, step := schedule[..|schedule| - 1], schedule[|schedule| - 1];
      var s := Play(h, true, START, init);
      ScheduleBounds(h, init);
      EveryScheduleAgrees(h, true, init);
      EveryScheduleFrozen(h, true, init);
      CommitLogged(h, true, s, step);
      if Commits(s, step).Some? {
        CommitBounds(h, s, step);
        OneMoreIn(s.log, Commits(s, step).value);
      }
    }
  }

  /** At every moment of every interleaving with its locks honoured: if all that
      has been brought in, together with what an operation brings in, fits 64
      bits, so does every value the operation computes from the rows as they are
      then; they stay as they are until it commits. */
  lemma EveryScheduleFits(h: Hasher, schedule: seq<Step>, op: Op)
    requires AdmissibleSchedule(h, true, schedule)
    requires var s := Play(h, true, START, schedule);
      && Admissible(s.db, op) && BroughtIn(s.log) <= MAX_INT64 && BroughtIn(s.log) + Inward(op) <= MAX_INT64
    requires op.CreateWithdraw? ==> op.amount + op.fee <= MAX_INT64
    ensures var db := Play(h, true, START, schedule).db; AllInt64(Intermediates(db, op)) <==> SelfFits(db, op)
  {
    var s := Play(h, true, START, schedule);
    EveryScheduleHolds(h, schedule);
    ScheduleBounds(h, schedule);
    ValuesFit(s.db, op, BroughtIn(s.log));
  }

  // ---- TON cover ----

  /** Each hold fits the free TON when it commits. */
  ghost predicate FittingSchedule(h: Hasher, honoured: bool, schedule: seq<Step>) {
    schedule == [] ||
    var init, step := schedule[..|schedule| - 1], schedule[|schedule| - 1];
    var s := Play(h, honoured, START, init);
    FittingSchedule(h, honoured, init) && (Commits(s, step).Some? ==> HoldFitsTon(s.db, Commits(s, step).value))
  }

  lemma CommitKeepsTon(h: Hasher, honoured: bool, s: Sys, step: Step)
    requires Inv(h, honoured, s) && Commits(s, step).Some? && HoldsExact(s.db) && TonCovers(s.db.wallets)
    requires Admissible(s.db, Commits(s, step).value) && HoldFitsTon(s.db, Commits(s, step).value)
    ensures TonCovers(Next(h, honoured, s, step).db.wallets)
  {
    var op := Commits(s, step).value;
    if LocksOnRead(honoured, op) {
      CommitIsEffect(h, honoured, s, step);
      CoverIff(h, s.db, op);
    } else {
      LooseRows(h, honoured, s, step);
    }
  }

  /** Under every interleaving, whatever the lock of `CreateWithdraw` does: as
      long as each hold fits the free TON when it commits, every hold stays
      covered by TON and no TON balance is ever negative. */
  lemma {:induction false} EveryScheduleCoversTon(h: Hasher, honoured: bool, schedule: seq<Step>)
    requires AdmissibleSchedule(h, honoured, schedule) && FittingSchedule(h, honoured, schedule)
    ensures var db := Play(h, honoured, START, schedule).db;
      HoldsExact(db) && TonCovers(db.wallets) && forall w :: w in db.wallets ==> db.wallets[w].ton >= 0
  {
    var db := Play(h, honoured, START, schedule).db;
    if schedule != [] {
      var init, step := schedule[..|schedule| - 1], schedule[|schedule| - 1];
      var s := Play(h, honoured, START, init);
      EveryScheduleCoversTon(h, honoured, init);
      EveryScheduleAgrees(h, honoured, init);
      CommitLogged(h, honoured, s, step);
      if Commits(s, step).Some? {
        CommitKeepsTon(h, honoured, s, step);
      }
    }
    EveryScheduleAgrees(h, honoured, schedule);
    EveryScheduleFrozen(h, honoured, schedule);
    FrozenNonNegative(db.wallets, db.requests);
  }

  // ---- what each commit does ----

  lemma {:induction false} EverySnapExists(h: Hasher, honoured: bool, schedule: seq<Step>)
    ensures SnapsExist(Play(h, honoured, START, schedule))
  {
    if schedule != [] {
      var init, step := schedule[..|schedule| - 1], schedule[|schedule| - 1];
      EverySnapExists(h, honoured, init);
      StepKeepsSnaps(h, honoured, Play(h, honoured, START, init), step);
    }
  }

  lemma LooseHoldDid(h: Hasher, honoured: bool, db: DB, f: Flight)
    requires FlightOk(h, honoured, db, f) && ReadyToFinish(db, f) && f.snap.Keys <= db.wallets.Keys
    requires f.op.CreateWithdraw?
    ensures Did(db, Committed(db, f), f.op)
  {
    HeldAtFinish(h, honoured, db, f);
    HoldDone(h, db, Committed(db, f), f.snap, f.op, f.plan.value);
  }

  lemma CommitDid(h: Hasher, honoured: bool, s: Sys, step: Step)
    requires Inv(h, honoured, s) && SnapsExist(s) && Commits(s, step).Some?
    ensures Did(s.db, Next(h, honoured, s, step).db, Commits(s, step).value)
  {
    var op := Commits(s, step).value;
    if LocksOnRead(honoured, op) {
      CommitIsEffect(h, honoured, s, step);
      EffectDid(h, s.db, op, Next(h, honoured, s, step).db);
    } else {
      LooseHoldDid(h, honoured, s.db, s.flights[step.t]);
    }
  }

  /** So does every commit of every interleaving, with either lock setting, on
      the rows it meets; no other step changes the database. */
  lemma EveryCommitDid(h: Hasher, honoured: bool, schedule: seq<Step>, step: Step)
    ensures var s := Play(h, honoured, START, schedule);
      var after := Next(h, honoured, s, step).db;
      match Commits(s, step)
      case None => after == s.db
      case Some(op) => Did(s.db, after, op)
  {
    var s := Play(h, honoured, START, schedule);
    EveryScheduleAgrees(h, honoured, schedule);
    EverySnapExists(h, honoured, schedule);
    CommitLogged(h, honoured, s, step);
    if Commits(s, step).Some? {
      CommitDid(h, honoured, s, step);
    }
  }
}
