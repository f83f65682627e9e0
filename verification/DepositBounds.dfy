/** What one polling process guarantees about deposits, and the three ways in
    which the path falls short: events without a hash, handlers that stop and
    votes that come too late. */
module DepositBounds {
  import opened Records
  import opened HashChain
  import opened Operations
  import opened Replay
  import opened Consensus
  import opened Deposits
  import opened DepositRuns
  import Q = Quorum
  import QB = QuorumBounds
  import Holds

  // ---- one watcher ----

  /** One goroutine polls, so a hash arrives once between restarts, and no other
      caller chooses the identifier it votes under. */
  predicate Watched(s: Site, step: Step) {
    && (step.Arrive? ==> step.event.hash !in s.polled)
    && (step.Consult? && step.step.Start? ==> step.step.request.id == "")
  }

  predicate OneWatcher(cfg: Q.Config, h: Hasher, schedule: seq<Step>) {
    schedule == [] ||
    var init := schedule[..|schedule| - 1];
    OneWatcher(cfg, h, init) && Watched(Play(cfg, h, Opened(cfg), init), schedule[|schedule| - 1])
  }

  /** At most one call votes on the hash, and only while it counts as polled. */
  predicate OneCall(s: Site, hash: string) {
    && (forall c :: c in s.net.calls && s.net.calls[c].tx.id == DepositID(hash) ==> hash in s.polled)
    && (forall c, d :: c in s.net.calls && d in s.net.calls && c != d ==>
          s.net.calls[c].tx.id != DepositID(hash) || s.net.calls[d].tx.id != DepositID(hash))
  }

  /** The same workers, and the hash's identifier exclusive too. */
  function Excluding(cfg: Q.Config, hash: string): Q.Config {
    Q.Config(cfg.rules, cfg.threshold, id => cfg.exclusive(id) || id == DepositID(hash))
  }

  /** Generated identifiers are no deposit's. */
  lemma GeneratedIsNoDeposit(generated: string, hash: string)
    ensures "TX-" + generated != DepositID(hash)
  {
    assert ("TX-" + generated)[0] == 'T' && DepositID(hash)[0] == 'd';
  }

  /** A vote on the hash is alone with its identifier, so nobody is busy. */
  lemma NobodyElse(s: Site, hash: string, c: nat, i: nat)
    requires OneCall(s, hash) && c in s.net.calls && s.net.calls[c].tx.id == DepositID(hash)
    ensures !Q.Busy(s.net, c, i)
  {
  }

  lemma VoteUnaffected(cfg: Q.Config, s: Site, vote: Q.Step, hash: string)
    requires |s.net.tables| == |cfg.rules| && OneCall(s, hash)
    ensures Q.Next(Excluding(cfg, hash), s.net, vote) == Q.Next(cfg, s.net, vote)
  {
    if vote.Look? && vote.c in s.net.calls && s.net.calls[vote.c].tx.id == DepositID(hash) {
      NobodyElse(s, hash, vote.c, vote.i);
    }
  }

  lemma VoteKeepsOneCall(cfg: Q.Config, s: Site, vote: Q.Step, hash: string)
    requires |s.net.tables| == |cfg.rules| && OneCall(s, hash) && !vote.Restart?
    requires vote.Start? ==> vote.request.id == ""
    ensures OneCall(s.(net := Q.Next(cfg, s.net, vote)), hash)
    ensures Q.Next(Excluding(cfg, hash), s.net, vote) == Q.Next(cfg, s.net, vote)
  {
    VoteUnaffected(cfg, s, vote, hash);
    if vote.Start? {
      GeneratedIsNoDeposit(vote.generated, hash);
    }
  }

  lemma ArrivalKeepsOneCall(cfg: Q.Config, h: Hasher, s: Site, step: Step, hash: string)
    requires |s.net.tables| == |cfg.rules| && OneCall(s, hash) && step.Arrive? && Watched(s, step)
    ensures OneCall(Next(cfg, h, s, step), hash)
    ensures Next(Excluding(cfg, hash), h, s, step) == Next(cfg, h, s, step)
  {
    if DepositID(step.event.hash) == DepositID(hash) {
      assert step.event.hash == hash;
    }
  }

  /** Under one watcher making the hash's identifier exclusive changes nothing. */
  lemma StepKeepsOneCall(cfg: Q.Config, h: Hasher, s: Site, step: Step, hash: string)
    requires |s.net.tables| == |cfg.rules| && OneCall(s, hash) && Watched(s, step)
    ensures OneCall(Next(cfg, h, s, step), hash)
    ensures Next(Excluding(cfg, hash), h, s, step) == Next(cfg, h, s, step)
  {
    if step.Consult? && !step.step.Restart? {
      VoteKeepsOneCall(cfg, s, step.step, hash);
    } else if step.Arrive? {
      ArrivalKeepsOneCall(cfg, h, s, step, hash);
    }
  }

  lemma {:induction false} SameRun(cfg: Q.Config, h: Hasher, schedule: seq<Step>, hash: string)
    requires OneWatcher(cfg, h, schedule)
    ensures Play(Excluding(cfg, hash), h, Opened(cfg), schedule) == Play(cfg, h, Opened(cfg), schedule)
    ensures OneCall(Play(cfg, h, Opened(cfg), schedule), hash)
  {
    if schedule != [] {
      SameRun(cfg, h, schedule[..|schedule| - 1], hash);
      StepKeepsOneCall(cfg, h, Play(cfg, h, Opened(cfg), schedule[..|schedule| - 1]), schedule[|schedule| - 1], hash);
    }
  }

  /** With one watcher nothing needs to be said about how the workers overlap
      calls: payment votes beside deposit votes, timeouts and restarts at any
      moment, and still a hash counts at most once. */
  lemma OneWatcherCountsOnce(cfg: Q.Config, h: Hasher, schedule: seq<Step>, hash: string)
    requires OneWatcher(cfg, h, schedule) && 2 * cfg.threshold > |cfg.rules| && hash != ""
    ensures var s := Play(cfg, h, Opened(cfg), schedule);
      BookedOnce(s.db.txs, ByHash(hash)) && ReceivedOnce(s.receipts, hash)
  {
    SameRun(cfg, h, schedule, hash);
    assert Opened(Excluding(cfg, hash)) == Opened(cfg);
    HashCountsOnce(Excluding(cfg, hash), h, schedule, hash);
  }

  // ---- reaching a state with one watcher ----

  ghost predicate Reaches(cfg: Q.Config, h: Hasher, s: Site) {
    exists schedule :: OneWatcher(cfg, h, schedule) && Play(cfg, h, Opened(cfg), schedule) == s
  }

  lemma ReachStep(cfg: Q.Config, h: Hasher, s: Site, step: Step)
    requires Reaches(cfg, h, s) && Watched(s, step)
    ensures |s.net.tables| == |cfg.rules| && Reaches(cfg, h, Next(cfg, h, s, step))
  {
    var schedule :| OneWatcher(cfg, h, schedule) && Play(cfg, h, Opened(cfg), schedule) == s;
    var longer := schedule + [step];
    assert longer[..|longer| - 1] == schedule;
    assert OneWatcher(cfg, h, longer) && Play(cfg, h, Opened(cfg), longer) == Next(cfg, h, s, step);
  }

  /** A wallet with an invoice. */
  lemma Prepared(cfg: Q.Config, h: Hasher, w: Uuid, id: Uuid, code: string, amount: int) returns (s: Site)
    ensures Reaches(cfg, h, s)
    ensures s == Opened(cfg).(db := DB(map[w := Wallet(0, 0, 0)], [], [], []),
                              invoices := map[id := Invoice(w, code, amount, 0, InvoicePending, "")])
  {
    assert OneWatcher(cfg, h, []) && Play(cfg, h, Opened(cfg), []) == Opened(cfg);
    ReachStep(cfg, h, Opened(cfg), Other(Register(w)));
    var registered := Next(cfg, h, Opened(cfg), Other(Register(w)));
    ReachStep(cfg, h, registered, NewInvoice(id, w, code, amount));
    s := Next(cfg, h, registered, NewInvoice(id, w, code, amount));
  }

  lemma Restarted(cfg: Q.Config, h: Hasher, s: Site) returns (t: Site)
    requires Reaches(cfg, h, s)
    ensures Reaches(cfg, h, t)
    ensures t == s.(net := s.net.(calls := map[]), handlers := map[], polled := {})
  {
    ReachStep(cfg, h, s, Restart);
    t := Next(cfg, h, s, Restart);
  }

  // ---- without a hash ----

  lemma ArrivesUnhashed(cfg: Q.Config, h: Hasher, s: Site, k: nat, event: Event, id: Uuid) returns (t: Site)
    requires Reaches(cfg, h, s) && k !in s.begun && k !in s.net.used && event.amount > 0 && event.code != ""
    requires event.hash == "" && "" !in s.polled
    requires FindsInvoice(s.invoices, event.code, Some(id)) && s.invoices[id].wallet in s.db.wallets
    ensures Reaches(cfg, h, t)
    ensures var f := Handler(event, s.invoices[id].wallet, Some(id), Checking);
      t == s.(begun := s.begun + {k}, polled := s.polled + {""}, handlers := s.handlers[k := f])
  {
    t := Next(cfg, h, s, Arrive(k, event, None, Some(id), "", 0));
    ReachStep(cfg, h, s, Arrive(k, event, None, Some(id), "", 0));
  }

  lemma UnhashedApplies(h: Hasher, db: DB, op: Op)
    requires op.Deposit? && db.txs == [] && op.wallet in db.wallets
    ensures Effect(h, db, op).1.Applied? && FindTx(Effect(h, db, op).0.txs, ByHash(op.hash)).Some?
    ensures Effect(h, db, op).0.wallets == Update(db.wallets, Delta(op.wallet, op.amount, 0, 0))
  {
    Holds.DepositApplies(h, db, op);
    CreditedRow(h, db, op);
    assert Effect(h, db, op).0.txs[0] in Effect(h, db, op).0.txs;
  }

  /** The first event without a hash is credited. */
  lemma FirstCredited(cfg: Q.Config, h: Hasher, s: Site, k: nat, tx: Uuid) returns (t: Site)
    requires Reaches(cfg, h, s) && k in s.handlers && s.handlers[k].stage == Checking
    requires s.db.txs == [] && s.handlers[k].wallet in s.db.wallets
    ensures Reaches(cfg, h, t) && FindTx(t.db.txs, ByHash(s.handlers[k].event.hash)).Some?
    ensures t == MoveTo(s, k, s.handlers[k], Receipting).(db := t.db, entries := t.entries)
    ensures var d := Delta(s.handlers[k].wallet, s.handlers[k].event.amount, 0, 0);
      t.db.wallets == Update(s.db.wallets, d)
  {
    var f := s.handlers[k];
    var checked := Next(cfg, h, s, Check(k));
    assert checked == MoveTo(s, k, f, Crediting);
    ReachStep(cfg, h, s, Check(k));
    UnhashedApplies(h, s.db, Deposit(tx, f.wallet, f.event.amount, f.event.hash, f.event.code));
    t := Next(cfg, h, checked, Credit(k, tx));
    ReachStep(cfg, h, checked, Credit(k, tx));
  }

  lemma Receipted(cfg: Q.Config, h: Hasher, s: Site, k: nat, id: Uuid) returns (t: Site)
    requires Reaches(cfg, h, s) && k in s.handlers && s.handlers[k].stage == Receipting
    requires s.handlers[k].invoice == Some(id) && id in s.invoices
    ensures Reaches(cfg, h, t)
    ensures var e := s.handlers[k].event;
      t == s.(handlers := s.handlers - {k}, paid := t.paid, receipts := s.receipts + [Receipt(k, e.hash, id, e.amount)],
              invoices := s.invoices[id := Receive(s.invoices[id], e.amount, e.hash).0])
  {
    t := Next(cfg, h, s, AddReceipt(k));
    ReachStep(cfg, h, s, AddReceipt(k));
  }

  /** The duplicate check passes the handler on to the receipt. */
  lemma SecondSkipsCredit(cfg: Q.Config, h: Hasher, s: Site, k: nat) returns (t: Site)
    requires Reaches(cfg, h, s) && k in s.handlers && s.handlers[k].stage == Checking
    requires FindTx(s.db.txs, ByHash(s.handlers[k].event.hash)).Some?
    ensures Reaches(cfg, h, t) && t == MoveTo(s, k, s.handlers[k], Receipting)
  {
    t := Next(cfg, h, s, Check(k));
    ReachStep(cfg, h, s, Check(k));
  }

  /** A handler without a hash and the pending invoice it found. */
  lemma OneArrived(cfg: Q.Config, h: Hasher, w: Uuid, id: Uuid, event: Event) returns (s: Site)
    requires event.hash == "" && event.code != "" && event.amount > 0
    ensures Reaches(cfg, h, s) && s.begun == {0} && s.net == Q.Fresh(cfg) && s.receipts == []
    ensures 0 in s.handlers && s.handlers[0] == Handler(event, w, Some(id), Checking)
    ensures id in s.invoices && s.invoices[id] == Invoice(w, event.code, 3 * event.amount, 0, InvoicePending, "")
    ensures s.db == DB(map[w := Wallet(0, 0, 0)], [], [], [])
  {
    var prepared := Prepared(cfg, h, w, id, event.code, 3 * event.amount);
    s := ArrivesUnhashed(cfg, h, prepared, 0, event, id);
  }

  /** The deposit is credited. */
  lemma OneCredited(cfg: Q.Config, h: Hasher, w: Uuid, id: Uuid, tx: Uuid, event: Event) returns (s: Site)
    requires event.hash == "" && event.code != "" && event.amount > 0
    ensures Reaches(cfg, h, s) && s.begun == {0} && s.net == Q.Fresh(cfg) && s.receipts == []
    ensures 0 in s.handlers && s.handlers[0] == Handler(event, w, Some(id), Receipting)
    ensures id in s.invoices && s.invoices[id] == Invoice(w, event.code, 3 * event.amount, 0, InvoicePending, "")
    ensures FindTx(s.db.txs, ByHash("")).Some?
    ensures w in s.db.wallets && s.db.wallets[w] == Wallet(event.amount, 0, 0)
  {
    var arrived := OneArrived(cfg, h, w, id, event);
    s := FirstCredited(cfg, h, arrived, 0, tx);
  }

  /** It is received too, and the process restarts. */
  lemma OneReceived(cfg: Q.Config, h: Hasher, w: Uuid, id: Uuid, tx: Uuid, event: Event) returns (s: Site)
    requires event.hash == "" && event.code != "" && event.amount > 0
    ensures Reaches(cfg, h, s) && s.begun == {0} && s.polled == {} && s.net.used == {}
    ensures s.receipts == [Receipt(0, "", id, event.amount)] && FindTx(s.db.txs, ByHash("")).Some?
    ensures id in s.invoices
    ensures s.invoices[id] == Invoice(w, event.code, 3 * event.amount, event.amount, InvoicePending, "")
    ensures w in s.db.wallets && s.db.wallets[w] == Wallet(event.amount, 0, 0)
  {
    var credited := OneCredited(cfg, h, w, id, tx, event);
    var received := Receipted(cfg, h, credited, 0, id);
    s := Restarted(cfg, h, received);
  }

  /** Without a hash there is no vote, and an event that comes again after a
      restart adds a second receipt for a deposit that is credited once. */
  lemma UnhashedReceivedTwice(cfg: Q.Config, h: Hasher, w: Uuid, id: Uuid, tx: Uuid, event: Event) returns (s: Site)
    requires event.hash == "" && event.code != "" && event.amount > 0
    ensures Reaches(cfg, h, s) && !ReceivedOnce(s.receipts, "") && id in s.invoices && w in s.db.wallets
    ensures s.invoices[id].received == 2 * event.amount && s.db.wallets[w].ton == event.amount
  {
    var received := OneReceived(cfg, h, w, id, tx, event);
    var arrived := ArrivesUnhashed(cfg, h, received, 1, event, id);
    var again := SecondSkipsCredit(cfg, h, arrived, 1);
    s := Receipted(cfg, h, again, 1, id);
    assert s.receipts[0].hash == s.receipts[1].hash == "";
  }

  ghost predicate AlwaysOnce(cfg: Q.Config, h: Hasher, hash: string) {
    forall schedule :: OneWatcher(cfg, h, schedule) ==>
      var s := Play(cfg, h, Opened(cfg), schedule);
      BookedOnce(s.db.txs, ByHash(hash)) && ReceivedOnce(s.receipts, hash)
  }

  /** With one watcher and quorums that share a worker, a hash counts at most
      once in every run if and only if it is not empty. */
  lemma CountsOnceIff(cfg: Q.Config, h: Hasher, hash: string, w: Uuid, id: Uuid, tx: Uuid)
    requires 2 * cfg.threshold > |cfg.rules|
    ensures AlwaysOnce(cfg, h, hash) <==> hash != ""
  {
    if hash != "" {
      forall schedule | OneWatcher(cfg, h, schedule)
        ensures var s := Play(cfg, h, Opened(cfg), schedule);
          BookedOnce(s.db.txs, ByHash(hash)) && ReceivedOnce(s.receipts, hash)
      {
        OneWatcherCountsOnce(cfg, h, schedule, hash);
      }
    } else {
      var s := UnhashedReceivedTwice(cfg, h, w, id, tx, Event("", "a", 1));
      var schedule :| OneWatcher(cfg, h, schedule) && Play(cfg, h, Opened(cfg), schedule) == s;
    }
  }

  // ---- approved, but never credited ----

  /** The vote on an event: what `CheckDeposit` asks. */
  function Asked(event: Event, service: string, stamp: int): Tx {
    Tx(DepositID(event.hash), event.hash, service, event.amount, stamp)
  }

  /** A handler that waits for its vote. */
  lemma ArrivesHashed(cfg: Q.Config, h: Hasher, w: Uuid, id: Uuid, event: Event, service: string, stamp: int)
    returns (s: Site)
    requires event.hash != "" && event.code != "" && event.amount > 0
    ensures Reaches(cfg, h, s) && s.begun == {0} && s.entries == [] && s.db.txs == [] && s.receipts == []
    ensures w in s.db.wallets
    ensures s.net ==
      Q.Fresh(cfg).(calls := map[0 := Q.Call(Asked(event, service, stamp), map[], map[], {}, 0, false)], used := {0})
    ensures s.handlers == map[0 := Handler(event, w, Some(id), Voting)]
  {
    var prepared := Prepared(cfg, h, w, id, event.code, 0);
    s := Next(cfg, h, prepared, Arrive(0, event, None, Some(id), service, stamp));
    ReachStep(cfg, h, prepared, Arrive(0, event, None, Some(id), service, stamp));
  }

  /** Voting steps change the votes and nothing else. */
  lemma {:induction false} Lifted(cfg: Q.Config, h: Hasher, s: Site, votes: seq<Q.Step>) returns (t: Site)
    requires Reaches(cfg, h, s) && |s.net.tables| == |cfg.rules| && QB.Voting(votes)
    ensures Reaches(cfg, h, t) && t == s.(net := Q.Play(cfg, s.net, votes))
  {
    if votes == [] {
      t := s;
    } else {
      var last := votes[|votes| - 1];
      var mid := Lifted(cfg, h, s, votes[..|votes| - 1]);
      assert last in votes;
      t := Next(cfg, h, mid, Consult(last));
      ReachStep(cfg, h, mid, Consult(last));
    }
  }

  /** A hash that enough rules accept has been approved, and its handler has not
      been told. */
  lemma ApprovedWaiting(cfg: Q.Config, h: Hasher, w: Uuid, id: Uuid, event: Event, service: string, stamp: int)
    returns (s: Site)
    requires event.hash != "" && event.code != "" && event.amount > 0
    requires |cfg.rules| > 0 && |Q.WillingFor(cfg, Asked(event, service, stamp))| >= cfg.threshold
    ensures Reaches(cfg, h, s) && HasApproval(s.net, 0, event.hash) && 0 in s.net.calls && s.net.calls[0].done
    ensures s.begun == {0} && s.entries == [] && s.db.txs == [] && s.receipts == [] && w in s.db.wallets
    ensures s.handlers == map[0 := Handler(event, w, Some(id), Voting)]
  {
    var tx := Asked(event, service, stamp);
    var asked := ArrivesHashed(cfg, h, w, id, event, service, stamp);
    QB.ReachHere(cfg, asked.net);
    var net := QB.GroupApproves(cfg, asked.net, asked.net, 0, Q.WillingFor(cfg, tx));
    var votes :| QB.Voting(votes) && Q.Play(cfg, asked.net, votes) == net;
    s := Lifted(cfg, h, asked, votes);
    assert net.approvals[0] == Q.Approval(0, tx, Q.WillingFor(cfg, tx));
  }

  /** The handler can stop before the credit; the hash is then never credited. */
  lemma ApprovedAndStopped(cfg: Q.Config, h: Hasher, w: Uuid, id: Uuid, event: Event, service: string, stamp: int)
    returns (s: Site)
    requires event.hash != "" && event.code != "" && event.amount > 0
    requires |cfg.rules| > 0 && |Q.WillingFor(cfg, Asked(event, service, stamp))| >= cfg.threshold
    ensures Reaches(cfg, h, s) && HasApproval(s.net, 0, event.hash) && Stopped(s, 0)
  {
    var approved := ApprovedWaiting(cfg, h, w, id, event, service, stamp);
    s := Restarted(cfg, h, approved);
  }

  lemma {:induction false} WatcherPrefix(cfg: Q.Config, h: Hasher, schedule: seq<Step>, later: seq<Step>)
    requires OneWatcher(cfg, h, schedule + later)
    ensures OneWatcher(cfg, h, schedule)
  {
    if later == [] {
      assert schedule + later == schedule;
    } else {
      assert (schedule + later)[..|schedule + later| - 1] == schedule + later[..|later| - 1];
      WatcherPrefix(cfg, h, schedule, later[..|later| - 1]);
    }
  }

  lemma {:induction false} PlayAppend(cfg: Q.Config, h: Hasher, s: Site, a: seq<Step>, b: seq<Step>)
    requires |s.net.tables| == |cfg.rules|
    ensures Play(cfg, h, s, a + b) == Play(cfg, h, Play(cfg, h, s, a), b)
  {
    if b == [] {
      assert a + b == a;
    } else {
      assert (a + b)[..|a + b| - 1] == a + b[..|b| - 1];
      PlayAppend(cfg, h, s, a, b[..|b| - 1]);
    }
  }

  /** Under one watcher that needs no exclusion: whatever polls, votes and
      restarts follow, the approved hash is not credited. */
  lemma OneWatcherNeverCredits(cfg: Q.Config, h: Hasher, schedule: seq<Step>, later: seq<Step>, k: nat, hash: string)
    requires OneWatcher(cfg, h, schedule + later) && 2 * cfg.threshold > |cfg.rules| && hash != ""
    requires var s := Play(cfg, h, Opened(cfg), schedule); HasApproval(s.net, k, hash) && Stopped(s, k)
    ensures forall row :: row in Play(cfg, h, Opened(cfg), schedule + later).db.txs ==> !Books(row, ByHash(hash))
  {
    var other := Excluding(cfg, hash);
    assert Opened(other) == Opened(cfg);
    WatcherPrefix(cfg, h, schedule, later);
    SameRun(cfg, h, schedule, hash);
    SameRun(cfg, h, schedule + later, hash);
    PlayAppend(other, h, Opened(other), schedule, later);
    NeverCredited(other, h, schedule, later, k, hash);
  }

  // ---- a vote that comes too late ----

  predicate Unapproved(net: Q.Net, hash: string) {
    forall i :: 0 <= i < |net.approvals| ==> net.approvals[i].tx.id != DepositID(hash)
  }

  lemma StepStaysLost(cfg: Q.Config, h: Hasher, s: Site, step: Step, hash: string, group: set<nat>)
    requires Inv(cfg, s) && QB.Spent(cfg, s.net, DepositID(hash), group) && Unapproved(s.net, hash)
    ensures var t := Next(cfg, h, s, step); QB.Spent(cfg, t.net, DepositID(hash), group) && Unapproved(t.net, hash)
  {
    var t := Next(cfg, h, s, step);
    match step {
      case Consult(vote) => QB.StepStaysSpent(cfg, s.net, vote, DepositID(hash), group);
      case Restart => QB.StepStaysSpent(cfg, s.net, Q.Restart, DepositID(hash), group);
      case Arrive(k, event, _, _, service, stamp) =>
        QB.StepStaysSpent(cfg, s.net, Q.Start(k, Asked(event, service, stamp), ""), DepositID(hash), group);
      case _ => assert t.net == s.net;
    }
  }

  lemma {:induction false} StaysLost(cfg: Q.Config, h: Hasher, s: Site, later: seq<Step>, hash: string, group: set<nat>)
    requires Inv(cfg, s) && QB.Spent(cfg, s.net, DepositID(hash), group) && Unapproved(s.net, hash)
    ensures var t := Play(cfg, h, s, later);
      Inv(cfg, t) && QB.Spent(cfg, t.net, DepositID(hash), group) && Unapproved(t.net, hash)
  {
    PlayKeepsInv(cfg, h, s, later);
    if later != [] {
      var init := later[..|later| - 1];
      StaysLost(cfg, h, s, init, hash, group);
      StepStaysLost(cfg, h, Play(cfg, h, s, init), later[|later| - 1], hash, group);
    }
  }

  /** Once so many workers have recorded a hash without approving it in time
      that the rest are no quorum, no later poll, vote or restart credits it. */
  lemma LateVotesLoseDeposit(cfg: Q.Config, h: Hasher, schedule: seq<Step>, later: seq<Step>, hash: string,
                             group: set<nat>)
    requires hash != ""
    requires var s := Play(cfg, h, Opened(cfg), schedule);
      QB.Spent(cfg, s.net, DepositID(hash), group) && Unapproved(s.net, hash)
    ensures var t := Play(cfg, h, Play(cfg, h, Opened(cfg), schedule), later);
      forall row :: row in t.db.txs ==> !Books(row, ByHash(hash))
  {
    var s := Play(cfg, h, Opened(cfg), schedule);
    var t := Play(cfg, h, s, later);
    OpenedInv(cfg);
    PlayKeepsInv(cfg, h, Opened(cfg), schedule);
    StaysLost(cfg, h, s, later, hash, group);
    forall row | row in t.db.txs
      ensures !Books(row, ByHash(hash))
    {
      if Books(row, ByHash(hash)) {
        var r :| 0 <= r < |t.db.txs| && t.db.txs[r] == row;
        var i := RowEntry(cfg, t, r, hash);
      }
    }
  }

  /** It happens to a hash that every rule accepts. */
  lemma LateVotes(cfg: Q.Config, h: Hasher, w: Uuid, id: Uuid, event: Event, service: string, stamp: int)
    returns (s: Site)
    requires event.hash != "" && event.code != "" && event.amount > 0 && |cfg.rules| > 0 && cfg.threshold > 0
    ensures Reaches(cfg, h, s) && Unapproved(s.net, event.hash)
    ensures QB.Spent(cfg, s.net, DepositID(event.hash), Upto(|cfg.rules|))
  {
    var asked := ArrivesHashed(cfg, h, w, id, event, service, stamp);
    var order := QB.Never(|cfg.rules|);
    var net := QB.AloneVerifies(cfg, asked.net, 0, stamp, order);
    assert Approvers(QB.Judgements(cfg, asked.net, Asked(event, service, stamp), stamp), order) == {};
    var votes :| QB.Voting(votes) && Q.Play(cfg, asked.net, votes) == net;
    s := Lifted(cfg, h, asked, votes);
  }

  // ---- a handler that nothing overlaps ----

  /** Where an event goes when `handles` says which wallet a comment names: to
      the wallet of the pending invoice with its code, else to the named one. It
      is put to the vote under its hash, or checked at once if it has none. */
  lemma ArrivalChooses(cfg: Q.Config, h: Hasher, s: Site, k: nat, event: Event, handles: map<string, Uuid>,
                       invoice: Option<Uuid>, service: string, stamp: int)
    requires |s.net.tables| == |cfg.rules| && k !in s.begun && k !in s.net.used && event.amount > 0
    requires FindsInvoice(s.invoices, event.code, invoice)
    requires forall code :: code in handles ==> handles[code] in s.db.wallets
    ensures var handle := if event.code in handles then Some(handles[event.code]) else None;
      var t := Next(cfg, h, s, Arrive(k, event, handle, invoice, service, stamp));
      if (invoice.None? && (event.code == "" || event.code !in handles))
          || (invoice.Some? && s.invoices[invoice.value].wallet !in s.db.wallets) then t == s
      else
        var wallet := if invoice.Some? then s.invoices[invoice.value].wallet else handles[event.code];
        && t.db == s.db && t.invoices == s.invoices
        && t.handlers == s.handlers[k :=
             Handler(event, wallet, invoice, if event.hash == "" then Checking else Voting)]
        && (event.hash == "" ==> t.net == s.net)
        && (event.hash != "" ==>
              k in t.net.calls
              && t.net.calls[k].tx == Tx("deposit-" + event.hash, event.hash, service, event.amount, stamp))
  {
  }

  lemma PlayStep(cfg: Q.Config, h: Hasher, s: Site, schedule: seq<Step>, step: Step)
    requires |s.net.tables| == |cfg.rules|
    ensures Play(cfg, h, s, schedule + [step]) == Next(cfg, h, Play(cfg, h, s, schedule), step)
  {
    assert (schedule + [step])[..|schedule|] == schedule;
  }

  function Alone(k: nat, tx: Uuid): seq<Step> {
    [] + [Check(k)] + [Credit(k, tx)] + [AddReceipt(k)]
  }

  lemma PlayAlone(cfg: Q.Config, h: Hasher, s: Site, k: nat, tx: Uuid)
    requires |s.net.tables| == |cfg.rules|
    ensures Play(cfg, h, s, Alone(k, tx)) ==
      Next(cfg, h, Next(cfg, h, Next(cfg, h, s, Check(k)), Credit(k, tx)), AddReceipt(k))
  {
    PlayStep(cfg, h, s, [], Check(k));
    PlayStep(cfg, h, s, [] + [Check(k)], Credit(k, tx));
    PlayStep(cfg, h, s, [] + [Check(k)] + [Credit(k, tx)], AddReceipt(k));
  }

  /** The check and the credit together are one call of `Deposit`. */
  lemma AloneDeposits(cfg: Q.Config, h: Hasher, s: Site, k: nat, tx: Uuid)
    requires |s.net.tables| == |cfg.rules| && k in s.handlers && s.handlers[k].stage == Checking
    ensures var f, t := s.handlers[k], Next(cfg, h, Next(cfg, h, s, Check(k)), Credit(k, tx));
      var (db, outcome) := Apply(h, s.db, Deposit(tx, f.wallet, f.event.amount, f.event.hash, f.event.code));
      && t.db == db && t.invoices == s.invoices
      && t.handlers == (if outcome.Failed? then s.handlers - {k} else s.handlers[k := f.(stage := Receipting)])
  {
    var f := s.handlers[k];
    var checked := Next(cfg, h, s, Check(k));
    if FindTx(s.db.txs, ByHash(f.event.hash)).Some? {
      assert Next(cfg, h, checked, Credit(k, tx)) == checked;
    } else {
      assert checked == MoveTo(s, k, f, Crediting);
      assert s.handlers[k := f.(stage := Crediting)] - {k} == s.handlers - {k};
    }
  }

  /** Past its vote, a handler whose steps run alone does what `HandleDeposit`
      says: one call of `Deposit`, and unless that fails one receipt. */
  lemma AloneHandles(cfg: Q.Config, h: Hasher, s: Site, k: nat, tx: Uuid)
    requires |s.net.tables| == |cfg.rules| && k in s.handlers && s.handlers[k].stage == Checking
    ensures var f, t := s.handlers[k], Play(cfg, h, s, Alone(k, tx));
      var (db, outcome) := Apply(h, s.db, Deposit(tx, f.wallet, f.event.amount, f.event.hash, f.event.code));
      && t.db == db && t.handlers == s.handlers - {k}
      && t.invoices == (if outcome.Failed? || f.invoice.None? || f.invoice.value !in s.invoices then s.invoices
                        else
                          var id := f.invoice.value;
                          s.invoices[id := Receive(s.invoices[id], f.event.amount, f.event.hash).0])
  {
    var f := s.handlers[k];
    PlayAlone(cfg, h, s, k, tx);
    AloneDeposits(cfg, h, s, k, tx);
    var credited := Next(cfg, h, Next(cfg, h, s, Check(k)), Credit(k, tx));
    if k in credited.handlers {
      assert credited.handlers - {k} == s.handlers - {k};
    }
  }

  lemma {:induction false} PlayMore(cfg: Q.Config, h: Hasher, s: Site, a: seq<Step>, b: seq<Step>)
    requires |s.net.tables| == |cfg.rules|
    ensures Play(cfg, h, s, a + b) == Play(cfg, h, Play(cfg, h, s, a), b)
  {
    if b == [] {
      assert a + b == a;
    } else {
      assert (a + b)[..|a + b| - 1] == a + b[..|b| - 1];
      PlayMore(cfg, h, s, a, b[..|b| - 1]);
    }
  }

  lemma {:induction false} Consulted(cfg: Q.Config, h: Hasher, s: Site, votes: seq<Q.Step>) returns (later: seq<Step>)
    requires |s.net.tables| == |cfg.rules| && QB.Voting(votes)
    ensures Play(cfg, h, s, later) == s.(net := Q.Play(cfg, s.net, votes))
  {
    if votes == [] {
      later := [];
    } else {
      var last := votes[|votes| - 1];
      var before := Consulted(cfg, h, s, votes[..|votes| - 1]);
      assert last in votes;
      later := before + [Consult(last)];
      PlayStep(cfg, h, s, before, Consult(last));
    }
  }

  /** A call that nobody has voted on yet, among calls that are not being voted
      on at the moment. */
  predicate JustAsked(net: Q.Net, k: nat) {
    && k in net.calls && (forall d :: d in net.calls ==> net.calls[d].looked == map[])
    && net.calls[k].cast == map[] && net.calls[k].taken == {} && net.calls[k].missed == 0 && !net.calls[k].done
    && forall i :: 0 <= i < |net.approvals| ==> net.approvals[i].call != k
  }

  /** The whole vote and the handler's look at its result. */
  lemma AloneVotes(cfg: Q.Config, h: Hasher, s: Site, k: nat, now: int, order: seq<Option<nat>>)
    returns (later: seq<Step>, t: Site)
    requires |s.net.tables| == |cfg.rules| > 0 && Arrivals(order, |cfg.rules|) && JustAsked(s.net, k)
    requires k in s.handlers && s.handlers[k].stage == Voting
    ensures |t.net.tables| == |cfg.rules| && Play(cfg, h, s, later) == t && t.db == s.db && t.invoices == s.invoices
    ensures var votes := QB.Judgements(cfg, s.net, s.net.calls[k].tx, now);
      t.handlers ==
        if |Approvers(votes, order)| >= cfg.threshold then s.handlers[k := s.handlers[k].(stage := Checking)]
        else s.handlers - {k}
  {
    var net := QB.AloneVerifies(cfg, s.net, k, now, order);
    var votes :| QB.Voting(votes) && Q.Play(cfg, s.net, votes) == net;
    var before := Consulted(cfg, h, s, votes);
    var voted := s.(net := net);
    var enough := |Approvers(QB.Judgements(cfg, s.net, s.net.calls[k].tx, now), order)| >= cfg.threshold;
    assert ApprovedCall(net, k) <==> enough by {
      if enough {
        assert net.approvals[|s.net.approvals|].call == k;
      }
    }
    later := before + [Decided(k)];
    t := Next(cfg, h, voted, Decided(k));
    PlayStep(cfg, h, s, before, Decided(k));
  }

  /** The wallet an event is for. */
  predicate Addressed(s: Site, event: Event, handles: map<string, Uuid>, invoice: Option<Uuid>, wallet: Uuid) {
    && FindsInvoice(s.invoices, event.code, invoice) && wallet in s.db.wallets
    && (invoice.Some? ==> wallet == s.invoices[invoice.value].wallet)
    && (invoice.None? ==> event.code != "" && event.code in handles && wallet == handles[event.code])
  }

  /** What a handler leaves when nothing overlaps it. */
  ghost predicate Handled(cfg: Q.Config, h: Hasher, s: Site, t: Site, f: Handler, approved: bool, tx: Uuid) {
    var (db, outcome) := Apply(h, s.db, Deposit(tx, f.wallet, f.event.amount, f.event.hash, f.event.code));
    if !approved then t.db == s.db && t.invoices == s.invoices
    else
      && t.db == db
      && t.invoices == (if outcome.Failed? || f.invoice.None? || f.invoice.value !in s.invoices then s.invoices
                        else
                          var id := f.invoice.value;
                          s.invoices[id := Receive(s.invoices[id], f.event.amount, f.event.hash).0])
  }

  /** From the check on. */
  lemma AloneFinishes(cfg: Q.Config, h: Hasher, s: Site, k: nat, tx: Uuid) returns (later: seq<Step>, t: Site)
    requires |s.net.tables| == |cfg.rules| && k in s.handlers && s.handlers[k].stage == Checking
    ensures |t.net.tables| == |cfg.rules| && Play(cfg, h, s, later) == t && t.handlers == s.handlers - {k}
    ensures Handled(cfg, h, s, t, s.handlers[k], true, tx)
  {
    later, t := Alone(k, tx), Play(cfg, h, s, Alone(k, tx));
    AloneHandles(cfg, h, s, k, tx);
  }

  /** From the vote on. */
  lemma AloneFromVote(cfg: Q.Config, h: Hasher, s: Site, k: nat, now: int, order: seq<Option<nat>>, tx: Uuid)
    returns (later: seq<Step>, t: Site)
    requires |s.net.tables| == |cfg.rules| > 0 && Arrivals(order, |cfg.rules|) && JustAsked(s.net, k)
    requires k in s.handlers && s.handlers[k].stage == Voting
    ensures |t.net.tables| == |cfg.rules| && Play(cfg, h, s, later) == t && t.handlers == s.handlers - {k}
    ensures var votes := QB.Judgements(cfg, s.net, s.net.calls[k].tx, now);
      Handled(cfg, h, s, t, s.handlers[k], |Approvers(votes, order)| >= cfg.threshold, tx)
  {
    later, t := AloneVotes(cfg, h, s, k, now, order);
    if k in t.handlers {
      var more, end := AloneFinishes(cfg, h, t, k, tx);
      PlayMore(cfg, h, s, later, more);
      assert t.handlers - {k} == s.handlers - {k};
      later, t := later + more, end;
    }
  }

  lemma AloneArrives(cfg: Q.Config, h: Hasher, s: Site, k: nat, event: Event, handles: map<string, Uuid>,
                     invoice: Option<Uuid>, wallet: Uuid, service: string, stamp: int)
    returns (arrive: Step, t: Site)
    requires |s.net.tables| == |cfg.rules| && k !in s.begun && k !in s.net.used && event.amount > 0
    requires forall d :: d in s.net.calls ==> s.net.calls[d].looked == map[]
    requires forall i :: 0 <= i < |s.net.approvals| ==> s.net.approvals[i].call != k
    requires Addressed(s, event, handles, invoice, wallet)
    ensures t == Next(cfg, h, s, arrive) && t.db == s.db && t.invoices == s.invoices && t.net.tables == s.net.tables
    ensures t.handlers ==
      s.handlers[k := Handler(event, wallet, invoice, if event.hash == "" then Checking else Voting)]
    ensures event.hash != "" ==> JustAsked(t.net, k) && t.net.calls[k].tx == Asked(event, service, stamp)
  {
    var handle := if event.code in handles then Some(handles[event.code]) else None;
    arrive := Arrive(k, event, handle, invoice, service, stamp);
    t := Next(cfg, h, s, arrive);
  }

  /** An event, its vote, the check, the credit and the receipt, with nothing in
      between: as `HandleDeposit` says, the money is put to the vote and goes to
      the invoice's wallet or the one the comment names. */
  lemma AloneTurn(cfg: Q.Config, h: Hasher, s: Site, k: nat, event: Event, handles: map<string, Uuid>,
                  invoice: Option<Uuid>, wallet: Uuid, service: string, stamp: int, order: seq<Option<nat>>, tx: Uuid)
    returns (later: seq<Step>, t: Site)
    requires |s.net.tables| == |cfg.rules| > 0 && Arrivals(order, |cfg.rules|)
    requires k !in s.begun && k !in s.net.used && k !in s.handlers && event.amount > 0
    requires forall d :: d in s.net.calls ==> s.net.calls[d].looked == map[]
    requires forall i :: 0 <= i < |s.net.approvals| ==> s.net.approvals[i].call != k
    requires Addressed(s, event, handles, invoice, wallet)
    ensures |t.net.tables| == |cfg.rules| && Play(cfg, h, s, later) == t && t.handlers == s.handlers
    ensures
      var votes := QB.Judgements(cfg, s.net, Asked(event, service, stamp), stamp);
      Handled(cfg, h, s, t, Handler(event, wallet, invoice, Checking),
          event.hash == "" || |Approvers(votes, order)| >= cfg.threshold, tx)
  {
    var arrive, asked := AloneArrives(cfg, h, s, k, event, handles, invoice, wallet, service, stamp);
    PlayStep(cfg, h, s, [], arrive);
    var more;
    if event.hash == "" {
      more, t := AloneFinishes(cfg, h, asked, k, tx);
    } else {
      more, t := AloneFromVote(cfg, h, asked, k, stamp, order, tx);
    }
    later := [] + [arrive] + more;
    PlayMore(cfg, h, s, [] + [arrive], more);
    assert asked.handlers - {k} == s.handlers;
  }
}
