/** What can still become of a deposit: when a hash can still be credited and
    when it can still reach its invoice. */
module DepositFates {
  import opened Records
  import opened HashChain
  import opened Operations
  import opened Replay
  import opened Consensus
  import opened Deposits
  import opened DepositRuns
  import opened DepositBounds
  import Q = Quorum
  import QB = QuorumBounds
  import Holds

  // ---- continuations ----

  /** A continuation with one polling goroutine. */
  predicate WatchedFrom(cfg: Q.Config, h: Hasher, s: Site, later: seq<Step>)
    requires |s.net.tables| == |cfg.rules|
  {
    later == [] ||
    var init := later[..|later| - 1];
    WatchedFrom(cfg, h, s, init) && Watched(Play(cfg, h, s, init), later[|later| - 1])
  }

  ghost predicate Leads(cfg: Q.Config, h: Hasher, s: Site, t: Site)
    requires |s.net.tables| == |cfg.rules|
  {
    exists later :: WatchedFrom(cfg, h, s, later) && Play(cfg, h, s, later) == t
  }

  lemma LeadsHere(cfg: Q.Config, h: Hasher, s: Site)
    requires |s.net.tables| == |cfg.rules|
    ensures Leads(cfg, h, s, s)
  {
    assert WatchedFrom(cfg, h, s, []) && Play(cfg, h, s, []) == s;
  }

  lemma LeadsStep(cfg: Q.Config, h: Hasher, s: Site, t: Site, step: Step)
    requires |s.net.tables| == |cfg.rules| && Leads(cfg, h, s, t) && Watched(t, step)
    ensures |t.net.tables| == |cfg.rules| && Leads(cfg, h, s, Next(cfg, h, t, step))
  {
    var later :| WatchedFrom(cfg, h, s, later) && Play(cfg, h, s, later) == t;
    PlayStep(cfg, h, s, later, step);
    assert (later + [step])[..|later|] == later;
    assert WatchedFrom(cfg, h, s, later + [step]);
  }

  lemma {:induction false} LeadsVotes(cfg: Q.Config, h: Hasher, s: Site, t: Site, votes: seq<Q.Step>)
    requires |s.net.tables| == |t.net.tables| == |cfg.rules| && Leads(cfg, h, s, t) && QB.Voting(votes)
    ensures Leads(cfg, h, s, t.(net := Q.Play(cfg, t.net, votes)))
  {
    if votes == [] {
      assert t.(net := t.net) == t;
    } else {
      var init, last := votes[..|votes| - 1], votes[|votes| - 1];
      assert last in votes;
      LeadsVotes(cfg, h, s, t, init);
      LeadsStep(cfg, h, s, t.(net := Q.Play(cfg, t.net, init)), Consult(last));
    }
  }

  // ---- what every step keeps ----

  lemma StepGrows(cfg: Q.Config, h: Hasher, s: Site, step: Step)
    requires |s.net.tables| == |cfg.rules|
    ensures Grows(s, Next(cfg, h, s, step))
  {
  }

  predicate Booked(s: Site, hash: string) {
    exists r :: 0 <= r < |s.db.txs| && Books(s.db.txs[r], ByHash(hash))
  }

  /** A step books a hash by crediting one of its handlers. */
  lemma StepBooks(cfg: Q.Config, h: Hasher, s: Site, step: Step, hash: string)
    requires |s.net.tables| == |cfg.rules| && !Booked(s, hash) && Booked(Next(cfg, h, s, step), hash)
    ensures step.Credit? && step.k in s.handlers
    ensures s.handlers[step.k].event.hash == hash && s.handlers[step.k].stage.Crediting?
  {
    var t := Next(cfg, h, s, step);
    var r :| 0 <= r < |t.db.txs| && Books(t.db.txs[r], ByHash(hash));
    if step.Other? {
      OtherRows(h, s.db, step.op);
    }
    assert r >= |s.db.txs|;
  }

  lemma KnownStays(cfg: Q.Config, h: Hasher, s: Site, step: Step, hash: string)
    requires |s.net.tables| == |cfg.rules| && FindTx(s.db.txs, ByHash(hash)).Some?
    ensures FindTx(Next(cfg, h, s, step).db.txs, ByHash(hash)).Some?
  {
    StepGrows(cfg, h, s, step);
    RowStays(s, Next(cfg, h, s, step), hash);
  }

  /** A handler's way: vote, check, credit unless the check finds the hash, and
      receipt. */
  predicate Moves(s: Site, f: Handler, g: Handler) {
    && g == f.(stage := g.stage)
    && (|| g.stage == f.stage
        || (f.stage.Voting? && g.stage.Checking?)
        || (f.stage.Checking? &&
            g.stage == if FindTx(s.db.txs, ByHash(f.event.hash)).Some? then Receipting else Crediting)
        || (f.stage.Crediting? && g.stage.Receipting?))
  }

  predicate Arrives(s: Site, step: Step, k: nat, g: Handler) {
    step.Arrive? && step.k == k && k !in s.begun && k !in s.net.used && (g.stage.Voting? || g.stage.Checking?)
  }

  lemma HandlerMoves(cfg: Q.Config, h: Hasher, s: Site, step: Step, k: nat)
    requires |s.net.tables| == |cfg.rules| && k in Next(cfg, h, s, step).handlers
    ensures var g := Next(cfg, h, s, step).handlers[k];
      (k in s.handlers && Moves(s, s.handlers[k], g)) || Arrives(s, step, k, g)
  {
  }

  /** Handlers credit wallets that exist. */
  predicate WalletsKnown(s: Site) {
    forall k :: k in s.handlers ==> s.handlers[k].wallet in s.db.wallets
  }

  lemma EffectKeepsWallets(h: Hasher, db: DB, op: Op)
    ensures db.wallets.Keys <= Effect(h, db, op).0.wallets.Keys
  {
    if !op.Register? && Effect(h, db, op).1.Applied? {
      Holds.UpdatesKeepKeys(db.wallets, Decide(db.wallets, db.txs, RequestOf(db.requests, op), op).plan.deltas);
    }
  }

  lemma StepKeepsWallets(cfg: Q.Config, h: Hasher, s: Site, step: Step)
    requires |s.net.tables| == |cfg.rules| && WalletsKnown(s)
    ensures WalletsKnown(Next(cfg, h, s, step))
  {
    if step.Other? {
      EffectKeepsWallets(h, s.db, step.op);
    } else if step.Credit? && step.k in s.handlers {
      var f := s.handlers[step.k];
      EffectKeepsWallets(h, s.db, Deposit(step.tx, f.wallet, f.event.amount, f.event.hash, f.event.code));
    }
  }

  /** Every state a run leads to. */
  lemma {:induction false} RunsAreSound(cfg: Q.Config, h: Hasher, schedule: seq<Step>)
    ensures var s := Play(cfg, h, Opened(cfg), schedule); Inv(cfg, s) && WalletsKnown(s)
  {
    OpenedInv(cfg);
    PlayKeepsInv(cfg, h, Opened(cfg), schedule);
    if schedule != [] {
      RunsAreSound(cfg, h, schedule[..|schedule| - 1]);
      StepKeepsWallets(cfg, h, Play(cfg, h, Opened(cfg), schedule[..|schedule| - 1]), schedule[|schedule| - 1]);
    }
  }

  // ---- a handler that is still there ----

  /** The handler, past its vote or about to learn that it was approved. */
  predicate Approved(s: Site, k: nat) {
    && k in s.handlers
    && (s.handlers[k].stage.Voting? ==> k in s.net.calls && s.net.calls[k].done && ApprovedCall(s.net, k))
  }

  /** It takes the handler past the vote. */
  lemma Decides(cfg: Q.Config, h: Hasher, s: Site, t: Site, k: nat) returns (u: Site)
    requires |s.net.tables| == |cfg.rules| && Leads(cfg, h, s, t) && Approved(t, k)
    ensures Leads(cfg, h, s, u) && u == t.(handlers := u.handlers) && k in u.handlers
    ensures u.handlers[k] == t.handlers[k].(stage := u.handlers[k].stage)
    ensures u.handlers[k].stage == if t.handlers[k].stage.Voting? then Checking else t.handlers[k].stage
  {
    if t.handlers[k].stage.Voting? {
      LeadsStep(cfg, h, s, t, Decided(k));
      u := Next(cfg, h, t, Decided(k));
    } else {
      u := t;
    }
  }

  /** And past the check. */
  lemma Checks(cfg: Q.Config, h: Hasher, s: Site, t: Site, k: nat) returns (u: Site)
    requires |s.net.tables| == |cfg.rules| && Leads(cfg, h, s, t) && k in t.handlers && !t.handlers[k].stage.Voting?
    ensures Leads(cfg, h, s, u) && u == t.(handlers := u.handlers) && k in u.handlers
    ensures u.handlers[k] == t.handlers[k].(stage := u.handlers[k].stage)
    ensures var known := FindTx(t.db.txs, ByHash(t.handlers[k].event.hash)).Some?;
      u.handlers[k].stage ==
        if !t.handlers[k].stage.Checking? then t.handlers[k].stage else if known then Receipting else Crediting
  {
    if t.handlers[k].stage.Checking? {
      LeadsStep(cfg, h, s, t, Check(k));
      u := Next(cfg, h, t, Check(k));
    } else {
      u := t;
    }
  }

  /** And books its hash. */
  lemma Credits(cfg: Q.Config, h: Hasher, s: Site, t: Site, k: nat, tx: Uuid) returns (u: Site)
    requires |s.net.tables| == |cfg.rules| && Leads(cfg, h, s, t) && k in t.handlers && t.handlers[k].stage.Crediting?
    requires t.handlers[k].wallet in t.db.wallets && FreshId(t.db.txs, tx)
    ensures Leads(cfg, h, s, u) && Booked(u, t.handlers[k].event.hash)
    ensures k in u.handlers && u.handlers[k] == t.handlers[k].(stage := Receipting)
    ensures u == t.(handlers := u.handlers, db := u.db, entries := u.entries)
  {
    var f := t.handlers[k];
    var op := Deposit(tx, f.wallet, f.event.amount, f.event.hash, f.event.code);
    Holds.DepositApplies(h, t.db, op);
    LeadsStep(cfg, h, s, t, Credit(k, tx));
    u := Next(cfg, h, t, Credit(k, tx));
    assert Books(u.db.txs[|t.db.txs|], ByHash(f.event.hash));
  }

  /** The handler of the hash is there and can book it: it is at the credit, or
      on its way to a check that will find nothing. */
  predicate Due(s: Site, k: nat, hash: string) {
    && k in s.handlers && s.handlers[k].event.hash == hash
    && (s.handlers[k].stage.Crediting? ||
        (!s.handlers[k].stage.Receipting? && FindTx(s.db.txs, ByHash(hash)).None?))
  }

  lemma DueBooks(cfg: Q.Config, h: Hasher, s: Site, t: Site, k: nat, hash: string, tx: Uuid) returns (u: Site)
    requires |s.net.tables| == |cfg.rules| && Leads(cfg, h, s, t) && Due(t, k, hash) && Approved(t, k)
    requires t.handlers[k].wallet in t.db.wallets && FreshId(t.db.txs, tx)
    ensures Leads(cfg, h, s, u) && Booked(u, hash) && u.net == t.net && u.receipts == t.receipts
  {
    var decided := Decides(cfg, h, s, t, k);
    var checked := Checks(cfg, h, s, decided, k);
    u := Credits(cfg, h, s, checked, k, tx);
  }

  /** Some continuation credits the hash. */
  ghost predicate CanCredit(cfg: Q.Config, h: Hasher, s: Site, hash: string)
    requires |s.net.tables| == |cfg.rules|
  {
    exists later :: Booked(Play(cfg, h, s, later), hash)
  }

  /** Some continuation with one polling goroutine does. */
  ghost predicate CanCreditWatched(cfg: Q.Config, h: Hasher, s: Site, hash: string)
    requires |s.net.tables| == |cfg.rules|
  {
    exists t :: Leads(cfg, h, s, t) && Booked(t, hash)
  }

  lemma WatchedIsOne(cfg: Q.Config, h: Hasher, s: Site, hash: string)
    requires |s.net.tables| == |cfg.rules| && CanCreditWatched(cfg, h, s, hash)
    ensures CanCredit(cfg, h, s, hash)
  {
    var t :| Leads(cfg, h, s, t) && Booked(t, hash);
    var later :| WatchedFrom(cfg, h, s, later) && Play(cfg, h, s, later) == t;
  }

  // ---- a hash that has been approved ----

  /** The handler of an approved hash is approved. */
  lemma ApprovedHandler(cfg: Q.Config, s: Site, k: nat, hash: string)
    requires Inv(cfg, s) && HasApproval(s.net, k, hash) && k in s.handlers && hash != ""
    requires s.handlers[k].event.hash == hash
    ensures Approved(s, k)
  {
    assert HandlerOk(s, k, s.handlers[k]);
    var i :| 0 <= i < |s.net.approvals| && s.net.approvals[i].call == k && s.net.approvals[i].tx.id == DepositID(hash);
    assert Q.ApprovalOk(cfg, s.net, s.net.approvals[i]);
  }

  lemma ApprovedIsUsed(cfg: Q.Config, s: Site, k: nat, hash: string)
    requires Inv(cfg, s) && HasApproval(s.net, k, hash)
    ensures k in s.net.used
  {
    var i :| 0 <= i < |s.net.approvals| && s.net.approvals[i].call == k && s.net.approvals[i].tx.id == DepositID(hash);
    assert Q.ApprovalOk(cfg, s.net, s.net.approvals[i]);
  }

  /** Only the approved handler could book the hash. */
  lemma OnlyDueBooks(cfg: Q.Config, h: Hasher, s: Site, step: Step, k: nat, hash: string)
    requires Inv(cfg, s) && cfg.exclusive(DepositID(hash)) && 2 * cfg.threshold > |cfg.rules| && hash != ""
    requires HasApproval(s.net, k, hash) && !Booked(s, hash) && !Due(s, k, hash)
    ensures !Booked(Next(cfg, h, s, step), hash)
  {
    if Booked(Next(cfg, h, s, step), hash) {
      StepBooks(cfg, h, s, step, hash);
      assert HandlerOk(s, step.k, s.handlers[step.k]);
      SameHandler(cfg, s, hash, k, step.k);
    }
  }

  lemma StaysUndue(cfg: Q.Config, h: Hasher, s: Site, step: Step, k: nat, hash: string)
    requires |s.net.tables| == |cfg.rules| && k in s.net.used && !Due(s, k, hash)
    ensures !Due(Next(cfg, h, s, step), k, hash)
  {
    if k in Next(cfg, h, s, step).handlers {
      HandlerMoves(cfg, h, s, step, k);
      if FindTx(s.db.txs, ByHash(hash)).Some? {
        KnownStays(cfg, h, s, step, hash);
      }
    }
  }

  lemma {:induction false} UndueStays(cfg: Q.Config, h: Hasher, s: Site, later: seq<Step>, k: nat, hash: string)
    requires Inv(cfg, s) && cfg.exclusive(DepositID(hash)) && 2 * cfg.threshold > |cfg.rules| && hash != ""
    requires HasApproval(s.net, k, hash) && !Booked(s, hash) && !Due(s, k, hash)
    ensures var t := Play(cfg, h, s, later);
      Inv(cfg, t) && HasApproval(t.net, k, hash) && !Booked(t, hash) && !Due(t, k, hash)
  {
    PlayKeepsInv(cfg, h, s, later);
    if later != [] {
      var init, step := later[..|later| - 1], later[|later| - 1];
      var t := Play(cfg, h, s, init);
      UndueStays(cfg, h, s, init, k, hash);
      OnlyDueBooks(cfg, h, t, step, k, hash);
      ApprovedIsUsed(cfg, t, k, hash);
      StaysUndue(cfg, h, t, step, k, hash);
      StepGrows(cfg, h, t, step);
      ApprovalStays(t, Next(cfg, h, t, step), k, hash);
    }
  }

  /** An approved hash that is not booked can still be credited if and only if
      its handler is still there, at the credit or before a check that finds no
      transaction with the hash. */
  lemma ApprovedCreditableIff(cfg: Q.Config, h: Hasher, s: Site, k: nat, hash: string, tx: Uuid)
    requires Inv(cfg, s) && WalletsKnown(s) && cfg.exclusive(DepositID(hash)) && 2 * cfg.threshold > |cfg.rules|
    requires hash != "" && HasApproval(s.net, k, hash) && !Booked(s, hash) && FreshId(s.db.txs, tx)
    ensures CanCredit(cfg, h, s, hash) <==> Due(s, k, hash)
    ensures CanCreditWatched(cfg, h, s, hash) <==> Due(s, k, hash)
  {
    if Due(s, k, hash) {
      ApprovedHandler(cfg, s, k, hash);
      LeadsHere(cfg, h, s);
      var t := DueBooks(cfg, h, s, s, k, hash, tx);
      WatchedIsOne(cfg, h, s, hash);
    } else {
      forall later: seq<Step>
        ensures !Booked(Play(cfg, h, s, later), hash)
      {
        UndueStays(cfg, h, s, later, k, hash);
      }
      if CanCreditWatched(cfg, h, s, hash) {
        WatchedIsOne(cfg, h, s, hash);
      }
    }
  }

  // ---- a hash that has not been approved ----

  /** Without an approval nothing is booked and no handler is past its vote. */
  lemma UnapprovedIsUnbooked(cfg: Q.Config, s: Site, hash: string)
    requires Inv(cfg, s) && Unapproved(s.net, hash) && hash != ""
    ensures !Booked(s, hash)
    ensures forall k :: k in s.handlers && s.handlers[k].event.hash == hash ==> s.handlers[k].stage.Voting?
  {
    if r: nat :| r < |s.db.txs| && Books(s.db.txs[r], ByHash(hash)) {
      var i := RowEntry(cfg, s, r, hash);
    }
    forall k | k in s.handlers && s.handlers[k].event.hash == hash
      ensures s.handlers[k].stage.Voting?
    {
      assert HandlerOk(s, k, s.handlers[k]);
    }
  }

  /** A transaction with the hash, not a deposit, is on record, and no handler is
      at the credit. */
  predicate Barred(s: Site, hash: string) {
    && FindTx(s.db.txs, ByHash(hash)).Some? && !Booked(s, hash)
    && forall k :: k in s.handlers && s.handlers[k].event.hash == hash ==> !s.handlers[k].stage.Crediting?
  }

  lemma StepStaysBarred(cfg: Q.Config, h: Hasher, s: Site, step: Step, hash: string)
    requires |s.net.tables| == |cfg.rules| && Barred(s, hash)
    ensures Barred(Next(cfg, h, s, step), hash)
  {
    var t := Next(cfg, h, s, step);
    KnownStays(cfg, h, s, step, hash);
    if Booked(t, hash) {
      StepBooks(cfg, h, s, step, hash);
    }
    forall k | k in t.handlers && t.handlers[k].event.hash == hash
      ensures !t.handlers[k].stage.Crediting?
    {
      HandlerMoves(cfg, h, s, step, k);
    }
  }

  lemma {:induction false} StaysBarred(cfg: Q.Config, h: Hasher, s: Site, later: seq<Step>, hash: string)
    requires |s.net.tables| == |cfg.rules| && Barred(s, hash)
    ensures Barred(Play(cfg, h, s, later), hash)
  {
    if later != [] {
      StaysBarred(cfg, h, s, later[..|later| - 1], hash);
      StepStaysBarred(cfg, h, Play(cfg, h, s, later[..|later| - 1]), later[|later| - 1], hash);
    }
  }

  /** An event that finds a wallet to credit and that every rule accepts. */
  predicate Deliverable(cfg: Q.Config, s: Site, arrival: Step) {
    && arrival.Arrive? && arrival.event.hash != "" && arrival.event.amount > 0
    && FindsInvoice(s.invoices, arrival.event.code, arrival.invoice)
    && var wallet := Target(s, arrival.event.code, arrival.handle, arrival.invoice);
      && wallet.Some? && wallet.value in s.db.wallets
      && forall i :: 0 <= i < |cfg.rules| ==>
          Willing(cfg.rules[i], Asked(arrival.event, arrival.service, arrival.stamp))
  }

  /** After a restart its handler votes under a new number. */
  lemma ArrivesAgain(cfg: Q.Config, h: Hasher, s: Site, arrival: Step, k: nat) returns (t: Site)
    requires |s.net.tables| == |cfg.rules| && Deliverable(cfg, s, arrival) && k !in s.begun && k !in s.net.used
    ensures Leads(cfg, h, s, t) && t.db == s.db && |t.net.tables| == |cfg.rules|
    ensures t.net == Q.Next(cfg, Q.Next(cfg, s.net, Q.Restart),
                            Q.Start(k, Asked(arrival.event, arrival.service, arrival.stamp), ""))
    ensures k in t.handlers && t.handlers[k].event == arrival.event && t.handlers[k].stage.Voting?
    ensures t.handlers[k].wallet in t.db.wallets && t.handlers[k].invoice == arrival.invoice
  {
    LeadsHere(cfg, h, s);
    LeadsStep(cfg, h, s, s, Restart);
    var restarted := Next(cfg, h, s, Restart);
    var again := Arrive(k, arrival.event, arrival.handle, arrival.invoice, arrival.service, arrival.stamp);
    LeadsStep(cfg, h, s, restarted, again);
    t := Next(cfg, h, restarted, again);
  }

  lemma EnoughCredit(cfg: Q.Config, h: Hasher, s: Site, arrival: Step, tx: Uuid)
    requires |s.net.tables| == |cfg.rules| > 0 && Deliverable(cfg, s, arrival) && FreshId(s.db.txs, tx)
    requires FindTx(s.db.txs, ByHash(arrival.event.hash)).None?
    requires |QB.Unrecorded(s.net, DepositID(arrival.event.hash))| >= cfg.threshold
    ensures CanCreditWatched(cfg, h, s, arrival.event.hash)
  {
    var asked := Asked(arrival.event, arrival.service, arrival.stamp);
    var k := QB.FreshNumber(s.begun + s.net.used);
    var t := ArrivesAgain(cfg, h, s, arrival, k);
    var votes := QB.FreshCallApproves(cfg, s.net, asked, k);
    LeadsVotes(cfg, h, s, t, votes);
    var voted := t.(net := Q.Play(cfg, t.net, votes));
    assert voted.net.approvals[|s.net.approvals|].call == k;
    var u := DueBooks(cfg, h, s, voted, k, arrival.event.hash, tx);
  }

  lemma FewDoNotCredit(cfg: Q.Config, h: Hasher, s: Site, hash: string)
    requires Inv(cfg, s) && QB.Idle(s.net, DepositID(hash)) && Unapproved(s.net, hash) && hash != ""
    requires |QB.Unrecorded(s.net, DepositID(hash))| < cfg.threshold
    ensures !CanCredit(cfg, h, s, hash)
  {
    QB.FewAreSpent(cfg, s.net, DepositID(hash));
    forall later: seq<Step>
      ensures !Booked(Play(cfg, h, s, later), hash)
    {
      StaysLost(cfg, h, s, later, hash, QB.Recorded(s.net, DepositID(hash)));
      UnapprovedIsUnbooked(cfg, Play(cfg, h, s, later), hash);
    }
  }

  lemma BarredDoesNotCredit(cfg: Q.Config, h: Hasher, s: Site, hash: string)
    requires Inv(cfg, s) && Unapproved(s.net, hash) && hash != "" && FindTx(s.db.txs, ByHash(hash)).Some?
    ensures !CanCredit(cfg, h, s, hash)
  {
    UnapprovedIsUnbooked(cfg, s, hash);
    forall later: seq<Step>
      ensures !Booked(Play(cfg, h, s, later), hash)
    {
      StaysBarred(cfg, h, s, later, hash);
    }
  }

  /** Enough workers have not recorded the hash and no transaction carries it. */
  predicate StillOpen(cfg: Q.Config, s: Site, hash: string) {
    |QB.Unrecorded(s.net, DepositID(hash))| >= cfg.threshold && FindTx(s.db.txs, ByHash(hash)).None?
  }

  lemma ClosedDoesNotCredit(cfg: Q.Config, h: Hasher, s: Site, hash: string)
    requires Inv(cfg, s) && hash != "" && !StillOpen(cfg, s, hash)
    requires QB.Idle(s.net, DepositID(hash)) && Unapproved(s.net, hash)
    ensures !CanCredit(cfg, h, s, hash) && !CanCreditWatched(cfg, h, s, hash)
  {
    if FindTx(s.db.txs, ByHash(hash)).Some? {
      BarredDoesNotCredit(cfg, h, s, hash);
    } else {
      FewDoNotCredit(cfg, h, s, hash);
    }
    if CanCreditWatched(cfg, h, s, hash) {
      WatchedIsOne(cfg, h, s, hash);
    }
  }

  /** A hash can still be credited if as many workers as the threshold have not
      recorded it and no transaction carries it; if it has no approval and no
      open votes, only then. */
  lemma CreditableIff(cfg: Q.Config, h: Hasher, s: Site, arrival: Step, tx: Uuid)
    requires Inv(cfg, s) && |cfg.rules| > 0 && Deliverable(cfg, s, arrival) && FreshId(s.db.txs, tx)
    ensures var hash := arrival.event.hash;
      && (StillOpen(cfg, s, hash) ==> CanCredit(cfg, h, s, hash) && CanCreditWatched(cfg, h, s, hash))
      && (QB.Idle(s.net, DepositID(hash)) && Unapproved(s.net, hash) ==>
            && (CanCredit(cfg, h, s, hash) <==> StillOpen(cfg, s, hash))
            && (CanCreditWatched(cfg, h, s, hash) <==> StillOpen(cfg, s, hash)))
  {
    var hash := arrival.event.hash;
    if StillOpen(cfg, s, hash) {
      EnoughCredit(cfg, h, s, arrival, tx);
      WatchedIsOne(cfg, h, s, hash);
    } else if QB.Idle(s.net, DepositID(hash)) && Unapproved(s.net, hash) {
      ClosedDoesNotCredit(cfg, h, s, hash);
    }
  }

  // ---- the receipt of an approved hash ----

  predicate Received(s: Site, hash: string) {
    exists i :: 0 <= i < |s.receipts| && s.receipts[i].hash == hash
  }

  /** Its handler is there and has found an invoice. */
  predicate Expected(s: Site, k: nat, hash: string) {
    k in s.handlers && s.handlers[k].event.hash == hash && s.handlers[k].invoice.Some?
  }

  ghost predicate CanReceive(cfg: Q.Config, h: Hasher, s: Site, hash: string)
    requires |s.net.tables| == |cfg.rules|
  {
    exists later :: Received(Play(cfg, h, s, later), hash)
  }

  lemma StepReceives(cfg: Q.Config, h: Hasher, s: Site, step: Step, hash: string)
    requires |s.net.tables| == |cfg.rules| && !Received(s, hash) && Received(Next(cfg, h, s, step), hash)
    ensures step.AddReceipt? && Expected(s, step.k, hash) && s.handlers[step.k].stage.Receipting?
  {
    var t := Next(cfg, h, s, step);
    var i :| 0 <= i < |t.receipts| && t.receipts[i].hash == hash;
    assert i >= |s.receipts|;
  }

  lemma {:induction false} UnexpectedStays(cfg: Q.Config, h: Hasher, s: Site, later: seq<Step>, k: nat, hash: string)
    requires Inv(cfg, s) && cfg.exclusive(DepositID(hash)) && 2 * cfg.threshold > |cfg.rules| && hash != ""
    requires HasApproval(s.net, k, hash) && !Received(s, hash) && !Expected(s, k, hash)
    ensures var t := Play(cfg, h, s, later);
      Inv(cfg, t) && HasApproval(t.net, k, hash) && !Received(t, hash) && !Expected(t, k, hash)
  {
    PlayKeepsInv(cfg, h, s, later);
    if later != [] {
      var init, step := later[..|later| - 1], later[|later| - 1];
      var t := Play(cfg, h, s, init);
      UnexpectedStays(cfg, h, s, init, k, hash);
      ApprovedIsUsed(cfg, t, k, hash);
      StepGrows(cfg, h, t, step);
      ApprovalStays(t, Next(cfg, h, t, step), k, hash);
      StaysUnexpected(cfg, h, t, step, k, hash);
    }
  }

  lemma StaysUnexpected(cfg: Q.Config, h: Hasher, s: Site, step: Step, k: nat, hash: string)
    requires Inv(cfg, s) && cfg.exclusive(DepositID(hash)) && 2 * cfg.threshold > |cfg.rules| && hash != ""
    requires HasApproval(s.net, k, hash) && k in s.net.used && !Received(s, hash) && !Expected(s, k, hash)
    ensures !Received(Next(cfg, h, s, step), hash) && !Expected(Next(cfg, h, s, step), k, hash)
  {
    OnlyExpectedReceives(cfg, h, s, step, k, hash);
    if k in Next(cfg, h, s, step).handlers {
      HandlerMoves(cfg, h, s, step, k);
    }
  }

  lemma OnlyExpectedReceives(cfg: Q.Config, h: Hasher, s: Site, step: Step, k: nat, hash: string)
    requires Inv(cfg, s) && cfg.exclusive(DepositID(hash)) && 2 * cfg.threshold > |cfg.rules| && hash != ""
    requires HasApproval(s.net, k, hash) && !Received(s, hash) && !Expected(s, k, hash)
    ensures !Received(Next(cfg, h, s, step), hash)
  {
    if Received(Next(cfg, h, s, step), hash) {
      StepReceives(cfg, h, s, step, hash);
      assert HandlerOk(s, step.k, s.handlers[step.k]);
      SameHandler(cfg, s, hash, k, step.k);
    }
  }

  lemma InvoiceThere(cfg: Q.Config, h: Hasher, s: Site, t: Site, id: Uuid, w: Uuid) returns (u: Site)
    requires |s.net.tables| == |cfg.rules| && Leads(cfg, h, s, t)
    ensures Leads(cfg, h, s, u) && id in u.invoices && u == t.(invoices := u.invoices)
  {
    if id in t.invoices {
      u := t;
    } else {
      LeadsStep(cfg, h, s, t, NewInvoice(id, w, "", 0));
      u := Next(cfg, h, t, NewInvoice(id, w, "", 0));
    }
  }

  lemma Receives(cfg: Q.Config, h: Hasher, s: Site, t: Site, k: nat, hash: string) returns (u: Site)
    requires |s.net.tables| == |cfg.rules| && Leads(cfg, h, s, t) && Expected(t, k, hash)
    requires t.handlers[k].stage.Receipting?
    ensures Leads(cfg, h, s, u) && Received(u, hash)
  {
    var known := InvoiceThere(cfg, h, s, t, t.handlers[k].invoice.value, t.handlers[k].wallet);
    LeadsStep(cfg, h, s, known, AddReceipt(k));
    u := Next(cfg, h, known, AddReceipt(k));
    assert u.receipts[|t.receipts|].hash == hash;
  }

  lemma ExpectedReceives(cfg: Q.Config, h: Hasher, s: Site, k: nat, hash: string, tx: Uuid) returns (u: Site)
    requires |s.net.tables| == |cfg.rules| && Expected(s, k, hash) && Approved(s, k)
    requires s.handlers[k].wallet in s.db.wallets && FreshId(s.db.txs, tx)
    ensures Leads(cfg, h, s, u) && Received(u, hash)
  {
    LeadsHere(cfg, h, s);
    var decided := Decides(cfg, h, s, s, k);
    var checked := Checks(cfg, h, s, decided, k);
    var credited := checked;
    if checked.handlers[k].stage.Crediting? {
      credited := Credits(cfg, h, s, checked, k, tx);
    }
    u := Receives(cfg, h, s, credited, k, hash);
  }

  /** An approved hash that has not been received can still reach its invoice if
      and only if its handler is still there. A handler that stops between the
      credit and the receipt leaves the invoice without the money for good. */
  lemma ApprovedReceivableIff(cfg: Q.Config, h: Hasher, s: Site, k: nat, hash: string, tx: Uuid)
    requires Inv(cfg, s) && WalletsKnown(s) && cfg.exclusive(DepositID(hash)) && 2 * cfg.threshold > |cfg.rules|
    requires hash != "" && HasApproval(s.net, k, hash) && !Received(s, hash) && FreshId(s.db.txs, tx)
    ensures CanReceive(cfg, h, s, hash) <==> Expected(s, k, hash)
  {
    if Expected(s, k, hash) {
      ApprovedHandler(cfg, s, k, hash);
      var t := ExpectedReceives(cfg, h, s, k, hash, tx);
      var later :| WatchedFrom(cfg, h, s, later) && Play(cfg, h, s, later) == t;
    } else {
      forall later: seq<Step>
        ensures !Received(Play(cfg, h, s, later), hash)
      {
        UnexpectedStays(cfg, h, s, later, k, hash);
      }
    }
  }

  lemma {:induction false} ReachesOn(cfg: Q.Config, h: Hasher, schedule: seq<Step>, later: seq<Step>)
    requires OneWatcher(cfg, h, schedule) && WatchedFrom(cfg, h, Play(cfg, h, Opened(cfg), schedule), later)
    ensures OneWatcher(cfg, h, schedule + later)
    ensures Play(cfg, h, Opened(cfg), schedule + later) == Play(cfg, h, Play(cfg, h, Opened(cfg), schedule), later)
  {
    PlayAppend(cfg, h, Opened(cfg), schedule, later);
    if later == [] {
      assert schedule + later == schedule;
    } else {
      var init := later[..|later| - 1];
      ReachesOn(cfg, h, schedule, init);
      assert (schedule + later)[..|schedule + later| - 1] == schedule + init;
    }
  }

  lemma ReachesFrom(cfg: Q.Config, h: Hasher, s: Site, t: Site)
    requires |s.net.tables| == |cfg.rules| && Reaches(cfg, h, s) && Leads(cfg, h, s, t)
    ensures Reaches(cfg, h, t)
  {
    var schedule :| OneWatcher(cfg, h, schedule) && Play(cfg, h, Opened(cfg), schedule) == s;
    var later :| WatchedFrom(cfg, h, s, later) && Play(cfg, h, s, later) == t;
    ReachesOn(cfg, h, schedule, later);
    assert OneWatcher(cfg, h, schedule + later) && Play(cfg, h, Opened(cfg), schedule + later) == t;
  }

  /** It happens: credited, and stopped before the receipt. */
  lemma CreditedAndStopped(cfg: Q.Config, h: Hasher, w: Uuid, id: Uuid, event: Event, service: string, stamp: int,
                           tx: Uuid)
    returns (s: Site)
    requires event.hash != "" && event.code != "" && event.amount > 0
    requires |cfg.rules| > 0 && |Q.WillingFor(cfg, Asked(event, service, stamp))| >= cfg.threshold
    ensures Reaches(cfg, h, s) && HasApproval(s.net, 0, event.hash) && Booked(s, event.hash)
    ensures !Received(s, event.hash) && !Expected(s, 0, event.hash)
  {
    var waiting := ApprovedWaiting(cfg, h, w, id, event, service, stamp);
    SoundTables(cfg, h, waiting);
    LeadsHere(cfg, h, waiting);
    var booked := DueBooks(cfg, h, waiting, waiting, 0, event.hash, tx);
    ReachesFrom(cfg, h, waiting, booked);
    s := Restarted(cfg, h, booked);
  }

  lemma SoundTables(cfg: Q.Config, h: Hasher, s: Site)
    requires Reaches(cfg, h, s)
    ensures |s.net.tables| == |cfg.rules|
  {
  }
}
