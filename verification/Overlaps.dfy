/** What single operations do between the steps of others: left alone they
    commit their effect; overlapping, two keyed calls can both be booked and two
    holds can both be placed. */
module Overlaps {
  import opened Records
  import opened HashChain
  import opened Operations
  import opened LedgerAgreement
  import opened Holds
  import opened Replay
  import opened Interleaving
  import opened Schedules

  // ---- an operation left alone commits its effect ----

  /** Statements of one open transaction. */
  predicate Own(t: nat, step: Step) {
    !step.NewWallet? && !step.Begin? && !step.Abandon? && step.t == t
  }

  /** Statements of this transaction and of no other lead from one state to
      the other. */
  ghost predicate Runs(h: Hasher, honoured: bool, t: nat, s: Sys, n: Sys) {
    exists schedule :: (forall step :: step in schedule ==> Own(t, step)) && Play(h, honoured, s, schedule) == n
  }

  lemma PlayStep(h: Hasher, honoured: bool, s: Sys, schedule: seq<Step>, step: Step)
    ensures Play(h, honoured, s, schedule + [step]) == Next(h, honoured, Play(h, honoured, s, schedule), step)
  {
    assert (schedule + [step])[..|schedule|] == schedule;
  }

  lemma RunsNothing(h: Hasher, honoured: bool, t: nat, s: Sys)
    ensures Runs(h, honoured, t, s, s)
  {
    assert Play(h, honoured, s, []) == s;
  }

  lemma RunsStep(h: Hasher, honoured: bool, t: nat, s: Sys, n: Sys, step: Step)
    requires Runs(h, honoured, t, s, n) && Own(t, step)
    ensures Runs(h, honoured, t, s, Next(h, honoured, n, step))
  {
    var schedule :| (forall step :: step in schedule ==> Own(t, step)) && Play(h, honoured, s, schedule) == n;
    PlayStep(h, honoured, s, schedule, step);
    assert forall step' :: step' in schedule + [step] ==> Own(t, step');
  }

  lemma PutPut(s: Sys, t: nat, f: Flight, g: Flight)
    ensures Put(Put(s, t, f), t, g) == Put(s, t, g)
  {
  }

  /** Nobody holds a row or has inserted a block. */
  predicate Quiet(s: Sys) {
    forall u :: u in s.flights ==> s.flights[u].held == {} && s.flights[u].blocks == []
  }

  lemma QuietIsFree(s: Sys, t: nat, f: Flight, w: Uuid)
    requires Quiet(s)
    ensures Free(Put(s, t, f), t, w)
  {
  }

  lemma AloneReads(h: Hasher, honoured: bool, s: Sys, t: nat, f: Flight, w: Uuid) returns (g: Flight)
    requires Quiet(s) && Runs(h, honoured, t, s, Put(s, t, f))
    requires f.plan.None? && w in Touches(f.op, f.request) && Current(f.snap, s.db.wallets)
    ensures Runs(h, honoured, t, s, Put(s, t, g)) && g == f.(snap := g.snap, held := g.held)
    ensures Current(g.snap, s.db.wallets) && f.snap.Keys <= g.snap.Keys && (w in s.db.wallets ==> w in g.snap)
    ensures LocksOnRead(honoured, f.op) || g.held == f.held
  {
    QuietIsFree(s, t, f, w);
    RunsStep(h, honoured, t, s, Put(s, t, f), ReadRow(t, w));
    if w !in s.db.wallets || w in f.snap {
      g := f;
    } else {
      g := f.(snap := f.snap[w := s.db.wallets[w]],
              held := if LocksOnRead(honoured, f.op) then f.held + {w} else f.held);
      PutPut(s, t, f, g);
    }
  }

  /** Decisions look at the touched rows only. */
  lemma RowsSuffice(wallets: map<Uuid, Wallet>, rows: map<Uuid, Wallet>, txs: seq<Transaction>,
                    request: Option<Request>, op: Op)
    requires Current(rows, wallets) && forall w :: w in Touches(op, request) && w in wallets ==> w in rows
    ensures Decide(rows, txs, request, op) == Decide(wallets, txs, request, op)
  {
  }

  lemma AloneChooses(h: Hasher, honoured: bool, s: Sys, t: nat, f: Flight, p: Plan)
    requires Runs(h, honoured, t, s, Put(s, t, f)) && f.plan.None? && Decide(f.snap, s.db.txs, f.request, f.op) == Go(p)
    ensures Runs(h, honoured, t, s, Put(s, t, f.(plan := Some(p))))
  {
    RunsStep(h, honoured, t, s, Put(s, t, f), Choose(t));
    PutPut(s, t, f, f.(plan := Some(p)));
  }

  /** The tip it reads is the end of the committed chain and its own blocks. */
  lemma AloneReadsTip(h: Hasher, honoured: bool, s: Sys, t: nat, f: Flight) returns (g: Flight)
    requires Runs(h, honoured, t, s, Put(s, t, f)) && f.plan.Some? && |f.blocks| < |f.plan.value.moves|
    requires ChainValid(h, s.db.ledger + f.blocks)
    ensures Runs(h, honoured, t, s, Put(s, t, g))
    ensures var chain := s.db.ledger + f.blocks; g == f.(tip := Some((|chain|, TipHash(chain))))
  {
    TipOfValid(h, s.db.ledger + f.blocks);
    RunsStep(h, honoured, t, s, Put(s, t, f), ReadTip(t));
    g := f.(tip := Some(Tip(s.db.ledger + f.blocks)));
    PutPut(s, t, f, g);
  }

  lemma AloneInserts(h: Hasher, honoured: bool, s: Sys, t: nat, f: Flight) returns (g: Flight)
    requires Quiet(s) && Runs(h, honoured, t, s, Put(s, t, f)) && f.plan.Some? && |f.blocks| < |f.plan.value.moves|
    requires var chain := s.db.ledger + f.blocks; ChainValid(h, chain) && f.tip == Some((|chain|, TipHash(chain)))
    ensures Runs(h, honoured, t, s, Put(s, t, g))
    ensures var chain := s.db.ledger + f.blocks;
      g == f.(blocks := f.blocks + [Link(h, f.plan.value.moves[|f.blocks|], |chain|, TipHash(chain))], tip := None)
  {
    var chain := s.db.ledger + f.blocks;
    var e := Link(h, f.plan.value.moves[|f.blocks|], |chain|, TipHash(chain));
    SeqsOfValid(h, chain, |chain| + 1);
    NobodyReserves(s, t, f, e.seqNo);
    RunsStep(h, honoured, t, s, Put(s, t, f), InsertBlock(t));
    g := f.(blocks := f.blocks + [e], tip := None);
    PutPut(s, t, f, g);
  }

  lemma NobodyReserves(s: Sys, t: nat, f: Flight, n: int)
    requires Quiet(s)
    ensures !Reserved(Put(s, t, f), t, n)
  {
  }

  /** Tip and insertion, once for each movement. */
  lemma {:induction false} AloneAppends(h: Hasher, honoured: bool, s: Sys, t: nat, f: Flight) returns (g: Flight)
    requires Quiet(s) && ChainValid(h, s.db.ledger) && Runs(h, honoured, t, s, Put(s, t, f)) && f.plan.Some?
    requires BlocksLinked(h, s.db.ledger, f.plan.value.moves, f.blocks) && f.tip == None
    ensures Runs(h, honoured, t, s, Put(s, t, g)) && g == f.(blocks := g.blocks)
    ensures |g.blocks| == |f.plan.value.moves| && s.db.ledger + g.blocks == Append(h, s.db.ledger, f.plan.value.moves)
    decreases |f.plan.value.moves| - |f.blocks|
  {
    var moves, k := f.plan.value.moves, |f.blocks|;
    if k == |moves| {
      assert moves[..k] == moves;
      g := f;
    } else {
      AppendValid(h, s.db.ledger, moves[..k]);
      NextBlock(h, s.db.ledger, f.blocks, moves, k);
      var read := AloneReadsTip(h, honoured, s, t, f);
      var more := AloneInserts(h, honoured, s, t, read);
      g := AloneAppends(h, honoured, s, t, more);
    }
  }

  lemma AloneLocks(h: Hasher, honoured: bool, s: Sys, t: nat, f: Flight, w: Uuid) returns (g: Flight)
    requires Quiet(s) && Runs(h, honoured, t, s, Put(s, t, f)) && f.plan.Some? && w in Touches(f.op, f.request)
    ensures Runs(h, honoured, t, s, Put(s, t, g)) && g == f.(held := f.held + {w})
  {
    QuietIsFree(s, t, f, w);
    RunsStep(h, honoured, t, s, Put(s, t, f), LockRow(t, w));
    g := f.(held := f.held + {w});
    PutPut(s, t, f, g);
  }

  lemma AloneFinishes(h: Hasher, honoured: bool, s: Sys, t: nat, f: Flight, p: Plan)
    requires Runs(h, honoured, t, s, Put(s, t, f)) && t in s.flights && f.plan == Some(p) && KeysFree(s.db, p)
    requires (forall d :: d in p.deltas ==> d.wallet in f.held) && |f.blocks| == |p.moves|
    requires s.db.ledger + f.blocks == Append(h, s.db.ledger, p.moves)
    ensures Runs(h, honoured, t, s, Sys(Commit(h, s.db, p), s.flights - {t}, s.log + [f.op]))
  {
    RunsStep(h, honoured, t, s, Put(s, t, f), Finish(t));
    assert Put(s, t, f).flights - {t} == s.flights - {t};
  }

  /** The touched wallets, in the order the code comes to them. */
  function Wallets(op: Op, request: Option<Request>): seq<Uuid> {
    match op
    case Register(w) => [w]
    case Deposit(_, w, _, _, _) => [w]
    case Deduct(_, w, _, _, _) => [w]
    case AddCredit(_, w, _, _, _) => [w]
    case Transfer(_, _, from, to, _) => [from, to]
    case CreateWithdraw(_, w, _, _) => [w]
    case _ => if request.Some? then [request.value.wallet] else []
  }

  lemma TouchedAreListed(op: Op, request: Option<Request>)
    ensures forall w :: w in Touches(op, request) <==> w in Wallets(op, request)
  {
  }

  lemma {:induction false} AloneReadsAll(h: Hasher, honoured: bool, s: Sys, t: nat, f: Flight, k: nat)
    returns (g: Flight)
    requires Quiet(s) && t in s.flights && f == s.flights[t] && f.snap == map[] && f.plan.None?
    requires k <= |Wallets(f.op, f.request)|
    ensures Runs(h, honoured, t, s, Put(s, t, g)) && g == f.(snap := g.snap, held := g.held)
    ensures Current(g.snap, s.db.wallets) && (LocksOnRead(honoured, f.op) || g.held == f.held)
    ensures forall i :: 0 <= i < k && Wallets(f.op, f.request)[i] in s.db.wallets ==>
      Wallets(f.op, f.request)[i] in g.snap
  {
    if k == 0 {
      RunsNothing(h, honoured, t, s);
      g := f;
      assert Put(s, t, f) == s;
    } else {
      var mid := AloneReadsAll(h, honoured, s, t, f, k - 1);
      TouchedAreListed(f.op, f.request);
      g := AloneReads(h, honoured, s, t, mid, Wallets(f.op, f.request)[k - 1]);
    }
  }

  lemma {:induction false} AloneLocksAll(h: Hasher, honoured: bool, s: Sys, t: nat, f: Flight, k: nat)
    returns (g: Flight)
    requires Quiet(s) && Runs(h, honoured, t, s, Put(s, t, f)) && f.plan.Some? && k <= |Wallets(f.op, f.request)|
    ensures Runs(h, honoured, t, s, Put(s, t, g)) && g == f.(held := g.held)
    ensures forall i :: 0 <= i < k ==> Wallets(f.op, f.request)[i] in g.held
  {
    if k == 0 {
      g := f;
    } else {
      var mid := AloneLocksAll(h, honoured, s, t, f, k - 1);
      TouchedAreListed(f.op, f.request);
      g := AloneLocks(h, honoured, s, t, mid, Wallets(f.op, f.request)[k - 1]);
    }
  }

  /** Just begun on the request as it is now, with nothing read. */
  predicate JustBegun(db: DB, f: Flight) {
    && !f.op.Register? && f.request == RequestOf(db.requests, f.op)
    && f.snap == map[] && f.held == {} && f.plan == None && f.tip == None && f.blocks == []
  }

  lemma PlannedEffect(h: Hasher, db: DB, op: Op) returns (p: Plan)
    requires !op.Register? && Effect(h, db, op).1.Applied?
    ensures Decide(db.wallets, db.txs, RequestOf(db.requests, op), op) == Go(p) && KeysFree(db, p)
    ensures Effect(h, db, op).0 == Commit(h, db, p)
  {
    p := Decide(db.wallets, db.txs, RequestOf(db.requests, op), op).plan;
  }

  lemma AloneDecides(h: Hasher, honoured: bool, s: Sys, t: nat, p: Plan) returns (g: Flight)
    requires Quiet(s) && t in s.flights && JustBegun(s.db, s.flights[t])
    requires Decide(s.db.wallets, s.db.txs, s.flights[t].request, s.flights[t].op) == Go(p)
    ensures Runs(h, honoured, t, s, Put(s, t, g)) && g == s.flights[t].(snap := g.snap, held := g.held, plan := Some(p))
    ensures LocksOnRead(honoured, g.op) || g.held == {}
  {
    var f := s.flights[t];
    var read := AloneReadsAll(h, honoured, s, t, f, |Wallets(f.op, f.request)|);
    TouchedAreListed(f.op, f.request);
    RowsSuffice(s.db.wallets, read.snap, s.db.txs, f.request, f.op);
    AloneChooses(h, honoured, s, t, read, p);
    g := read.(plan := Some(p));
  }

  /** From a decision on: the blocks, the locks and the commit. */
  lemma AloneConcludes(h: Hasher, honoured: bool, s: Sys, t: nat, f: Flight, p: Plan)
    requires ChainValid(h, s.db.ledger) && Quiet(s) && t in s.flights && Runs(h, honoured, t, s, Put(s, t, f))
    requires f.plan == Some(p) && f.tip == None && f.blocks == [] && KeysFree(s.db, p)
    requires forall d :: d in p.deltas ==> d.wallet in Touches(f.op, f.request)
    ensures Runs(h, honoured, t, s, Sys(Commit(h, s.db, p), s.flights - {t}, s.log + [f.op]))
  {
    assert p.moves[..0] == [] && s.db.ledger + f.blocks == s.db.ledger;
    var linked := AloneAppends(h, honoured, s, t, f);
    var locked := AloneLocksAll(h, honoured, s, t, linked, |Wallets(f.op, f.request)|);
    TouchedAreListed(f.op, f.request);
    AloneFinishes(h, honoured, s, t, locked, p);
  }

  /** An operation whose statements nobody else's separate commits its effect,
      whatever duplicate check it made when it began. */
  lemma AloneCommits(h: Hasher, honoured: bool, s: Sys, t: nat)
    requires Agreement(h, s.db) && Quiet(s) && t in s.flights && JustBegun(s.db, s.flights[t])
    requires Effect(h, s.db, s.flights[t].op).1.Applied?
    ensures Runs(h, honoured, t, s, Sys(Effect(h, s.db, s.flights[t].op).0, s.flights - {t}, s.log + [s.flights[t].op]))
  {
    var f := s.flights[t];
    var p := PlannedEffect(h, s.db, f.op);
    var decided := AloneDecides(h, honoured, s, t, p);
    DecisionTouches(s.db.wallets, s.db.txs, f.request, f.op);
    forall d | d in p.deltas
      ensures d.wallet in Touches(f.op, f.request)
    {
      assert d.wallet in set d | d in p.deltas :: d.wallet;
    }
    AloneConcludes(h, honoured, s, t, decided, p);
  }

  // ---- schedules in which exclusive keys exclude each other ----

  /** A schedule that keeps to the exclusive keys leads from one state to the
      other. */
  ghost predicate Leads(h: Hasher, honoured: bool, exclusive: Key -> bool, s: Sys, n: Sys) {
    exists schedule :: Excluding(h, honoured, exclusive, s, schedule) && Play(h, honoured, s, schedule) == n
  }

  lemma LeadsNowhere(h: Hasher, honoured: bool, exclusive: Key -> bool, s: Sys)
    requires OnePerKey(s, exclusive)
    ensures Leads(h, honoured, exclusive, s, s)
  {
    assert Play(h, honoured, s, []) == s && Excluding(h, honoured, exclusive, s, []);
  }

  lemma LeadsStep(h: Hasher, honoured: bool, exclusive: Key -> bool, s: Sys, n: Sys, step: Step)
    requires Leads(h, honoured, exclusive, s, n) && OnePerKey(Next(h, honoured, n, step), exclusive)
    ensures Leads(h, honoured, exclusive, s, Next(h, honoured, n, step))
  {
    var schedule :| Excluding(h, honoured, exclusive, s, schedule) && Play(h, honoured, s, schedule) == n;
    PlayStep(h, honoured, s, schedule, step);
    assert (schedule + [step])[..|schedule + [step]| - 1] == schedule;
    assert Excluding(h, honoured, exclusive, s, schedule + [step]);
  }

  lemma OwnKeepsKeys(h: Hasher, honoured: bool, exclusive: Key -> bool, s: Sys, t: nat, step: Step)
    requires OnePerKey(s, exclusive) && Own(t, step)
    ensures OnePerKey(Next(h, honoured, s, step), exclusive)
  {
    var n := Next(h, honoured, s, step);
    assert forall u :: u in n.flights ==> u in s.flights && n.flights[u].op == s.flights[u].op;
  }

  lemma {:induction false} OwnLeads(h: Hasher, honoured: bool, exclusive: Key -> bool, s: Sys, n: Sys, t: nat,
                                    rest: seq<Step>)
    requires Leads(h, honoured, exclusive, s, n) && OnePerKey(n, exclusive)
    requires forall step :: step in rest ==> Own(t, step)
    ensures var m := Play(h, honoured, n, rest); Leads(h, honoured, exclusive, s, m) && OnePerKey(m, exclusive)
  {
    if rest != [] {
      var init, step := rest[..|rest| - 1], rest[|rest| - 1];
      assert step in rest;
      OwnLeads(h, honoured, exclusive, s, n, t, init);
      OwnKeepsKeys(h, honoured, exclusive, Play(h, honoured, n, init), t, step);
      LeadsStep(h, honoured, exclusive, s, Play(h, honoured, n, init), step);
    }
  }

  lemma RunsLeads(h: Hasher, honoured: bool, exclusive: Key -> bool, s: Sys, n: Sys, t: nat, m: Sys)
    requires Leads(h, honoured, exclusive, s, n) && OnePerKey(n, exclusive) && Runs(h, honoured, t, n, m)
    ensures Leads(h, honoured, exclusive, s, m) && OnePerKey(m, exclusive)
  {
    var rest :| (forall step :: step in rest ==> Own(t, step)) && Play(h, honoured, n, rest) == m;
    OwnLeads(h, honoured, exclusive, s, n, t, rest);
  }

  /** An open transaction left alone, seen from where the schedule started. */
  lemma CommitLeads(h: Hasher, honoured: bool, exclusive: Key -> bool, s: Sys, n: Sys, t: nat) returns (m: Sys)
    requires Leads(h, honoured, exclusive, s, n) && OnePerKey(n, exclusive)
    requires Agreement(h, n.db) && Quiet(n) && t in n.flights && JustBegun(n.db, n.flights[t])
    requires Effect(h, n.db, n.flights[t].op).1.Applied?
    ensures Leads(h, honoured, exclusive, s, m) && OnePerKey(m, exclusive) && Agreement(h, m.db)
    ensures m == Sys(Effect(h, n.db, n.flights[t].op).0, n.flights - {t}, n.log + [n.flights[t].op])
  {
    AloneCommits(h, honoured, n, t);
    EffectAgrees(h, n.db, n.flights[t].op);
    m := Sys(Effect(h, n.db, n.flights[t].op).0, n.flights - {t}, n.log + [n.flights[t].op]);
    RunsLeads(h, honoured, exclusive, s, n, t, m);
  }

  /** What follows on a state a schedule leads to. */
  lemma {:induction false} LeadsOn(h: Hasher, honoured: bool, exclusive: Key -> bool, s: Sys, n: Sys, rest: seq<Step>)
    requires Leads(h, honoured, exclusive, s, n) && Excluding(h, honoured, exclusive, n, rest)
    ensures Leads(h, honoured, exclusive, s, Play(h, honoured, n, rest))
  {
    if rest != [] {
      var init, step := rest[..|rest| - 1], rest[|rest| - 1];
      LeadsOn(h, honoured, exclusive, s, n, init);
      LeadsStep(h, honoured, exclusive, s, Play(h, honoured, n, init), step);
    }
  }

  /** An open transaction that has just passed its early check. */
  function Begun(db: DB, op: Op): Flight {
    Flight(op, RequestOf(db.requests, op), map[], {}, None, None, [])
  }

  lemma OneBegun(h: Hasher, honoured: bool, exclusive: Key -> bool, s: Sys, n: Sys, t: nat, op: Op)
    requires Leads(h, honoured, exclusive, s, n) && t !in n.flights && !op.Register? && EarlierTx(n.db.txs, op).None?
    requires OnePerKey(Put(n, t, Begun(n.db, op)), exclusive)
    ensures Leads(h, honoured, exclusive, s, Put(n, t, Begun(n.db, op)))
  {
    LeadsStep(h, honoured, exclusive, s, n, Begin(t, op));
  }

  lemma BothBegun(h: Hasher, honoured: bool, exclusive: Key -> bool, s: Sys, a: Op, b: Op) returns (n: Sys)
    requires s.flights == map[] && !a.Register? && !b.Register?
    requires EarlierTx(s.db.txs, a).None? && EarlierTx(s.db.txs, b).None?
    requires KeyOf(a).Some? && KeyOf(a) == KeyOf(b) ==> !exclusive(KeyOf(a).value)
    ensures Leads(h, honoured, exclusive, s, n) && OnePerKey(n, exclusive)
    ensures n == s.(flights := map[0 := Begun(s.db, a), 1 := Begun(s.db, b)])
  {
    LeadsNowhere(h, honoured, exclusive, s);
    OneBegun(h, honoured, exclusive, s, s, 0, a);
    var one := Put(s, 0, Begun(s.db, a));
    n := Put(one, 1, Begun(s.db, b));
    OneBegun(h, honoured, exclusive, s, one, 1, b);
  }

  // ---- keys checked before the lock ----

  /** The row of an applied deposit or payment. */
  lemma KeyedRow(h: Hasher, db: DB, op: Op, key: Key)
    requires (op.Deposit? || op.Deduct?) && KeyOf(op) == Some(key) && Effect(h, db, op).1.Applied?
    ensures var txs := Effect(h, db, op).0.txs;
      |txs| == |db.txs| + 1 && txs[..|db.txs|] == db.txs && Books(txs[|db.txs|], key) && txs[|db.txs|].id == op.tx
  {
  }

  lemma TwoMoreRows(txs: seq<Transaction>, more: seq<Transaction>, most: seq<Transaction>, key: Key)
    requires |more| == |txs| + 1 && Books(more[|txs|], key)
    requires |most| == |more| + 1 && most[..|more|] == more && Books(most[|more|], key)
    ensures !BookedOnce(most, key)
  {
    assert most[|txs|] == more[|txs|];
  }

  lemma BothBooked(h: Hasher, db: DB, one: DB, two: DB, a: Op, b: Op, key: Key)
    requires (a.Deposit? || a.Deduct?) && (b.Deposit? || b.Deduct?) && KeyOf(a) == KeyOf(b) == Some(key)
    requires Effect(h, db, a) == (one, Applied) && Effect(h, one, b) == (two, Applied)
    ensures !BookedOnce(two.txs, key)
  {
    KeyedRow(h, db, a, key);
    KeyedRow(h, one, b, key);
    TwoMoreRows(db.txs, one.txs, two.txs, key);
  }

  lemma StillBegun(db: DB, after: DB, f: Flight)
    requires (f.op.Deposit? || f.op.Deduct?) && JustBegun(db, f)
    ensures JustBegun(after, f)
  {
  }

  lemma BothCommit(h: Hasher, honoured: bool, exclusive: Key -> bool, s: Sys, n: Sys, one: DB, two: DB, a: Op, b: Op)
    returns (m: Sys)
    requires Leads(h, honoured, exclusive, s, n) && OnePerKey(n, exclusive) && Agreement(h, n.db) && Quiet(n)
    requires 0 in n.flights && n.flights[0].op == a && JustBegun(n.db, n.flights[0])
    requires 1 in n.flights && n.flights[1].op == b && JustBegun(n.db, n.flights[1]) && (b.Deposit? || b.Deduct?)
    requires Effect(h, n.db, a) == (one, Applied) && Effect(h, one, b) == (two, Applied)
    ensures Leads(h, honoured, exclusive, s, m) && m.db == two
  {
    var mid := CommitLeads(h, honoured, exclusive, s, n, 0);
    StillBegun(n.db, mid.db, n.flights[1]);
    m := CommitLeads(h, honoured, exclusive, s, mid, 1);
  }

  /** Two overlapping calls with one key, each of which would go through without
      its early check, are both booked when both check before either commits. */
  lemma BookedTwice(h: Hasher, honoured: bool, exclusive: Key -> bool, s: Sys, a: Op, b: Op, key: Key)
    requires Agreement(h, s.db) && s.flights == map[] && !exclusive(key) && EarlierTx(s.db.txs, a).None?
    requires (a.Deposit? || a.Deduct?) && (b.Deposit? || b.Deduct?) && KeyOf(a) == KeyOf(b) == Some(key)
    requires Effect(h, s.db, a).1.Applied? && Effect(h, Effect(h, s.db, a).0, b).1.Applied?
    ensures exists schedule ::
      Excluding(h, honoured, exclusive, s, schedule) && !BookedOnce(Play(h, honoured, s, schedule).db.txs, key)
  {
    var one := Effect(h, s.db, a).0;
    ReachesBoth(h, honoured, exclusive, s, one, Effect(h, one, b).0, a, b, key);
  }

  lemma LeadsToDouble(h: Hasher, honoured: bool, exclusive: Key -> bool, s: Sys, m: Sys, key: Key)
    requires Leads(h, honoured, exclusive, s, m) && !BookedOnce(m.db.txs, key)
    ensures exists schedule ::
      Excluding(h, honoured, exclusive, s, schedule) && !BookedOnce(Play(h, honoured, s, schedule).db.txs, key)
  {
    var schedule :| Excluding(h, honoured, exclusive, s, schedule) && Play(h, honoured, s, schedule) == m;
  }

  lemma ReachesBoth(h: Hasher, honoured: bool, exclusive: Key -> bool, s: Sys, one: DB, two: DB, a: Op, b: Op,
                    key: Key)
    requires Agreement(h, s.db) && s.flights == map[] && !exclusive(key) && EarlierTx(s.db.txs, a).None?
    requires (a.Deposit? || a.Deduct?) && (b.Deposit? || b.Deduct?) && KeyOf(a) == KeyOf(b) == Some(key)
    requires Effect(h, s.db, a) == (one, Applied) && Effect(h, one, b) == (two, Applied)
    ensures exists schedule ::
      Excluding(h, honoured, exclusive, s, schedule) && !BookedOnce(Play(h, honoured, s, schedule).db.txs, key)
  {
    var begun := BothBegun(h, honoured, exclusive, s, a, b);
    var both := BothCommit(h, honoured, exclusive, s, begun, one, two, a, b);
    BothBooked(h, s.db, one, two, a, b, key);
    LeadsToDouble(h, honoured, exclusive, s, both, key);
  }

  lemma PaymentApplies(h: Hasher, db: DB, op: Op)
    requires CreditsNonNegative(db.wallets) && op.Deduct? && op.amount > 0 && op.wallet in db.wallets
    requires db.wallets[op.wallet].HasEnough(op.amount) && FreshId(db.txs, op.tx)
    ensures Effect(h, db, op).1.Applied?
    ensures var w, after := db.wallets[op.wallet], Effect(h, db, op).0;
      && op.wallet in after.wallets
      && after.wallets[op.wallet].Total() == w.Total() - op.amount && after.wallets[op.wallet].frozen == w.frozen
      && after.txs == db.txs + [Transaction(op.tx, op.wallet, TxPayment, -op.amount, op.service, op.ref, Internal)]
  {
    var p := Decide(db.wallets, db.txs, None, op).plan;
    FirstRow(db, p);
    OneUpdate(db.wallets, p);
    SpendFacts(db.wallets[op.wallet], op.amount);
  }

  /** One on-chain transaction credited twice. */
  lemma DepositBookedTwice(h: Hasher, honoured: bool, exclusive: Key -> bool, s: Sys, a: Op, b: Op)
    requires Agreement(h, s.db) && s.flights == map[] && a.Deposit? && b.Deposit? && a.hash == b.hash
    requires !exclusive(ByHash(a.hash))
    requires FindTx(s.db.txs, ByHash(a.hash)).None? && FreshId(s.db.txs, a.tx) && FreshId(s.db.txs, b.tx)
    requires a.tx != b.tx
    requires a.wallet in s.db.wallets && b.wallet in s.db.wallets
    ensures exists schedule ::
      Excluding(h, honoured, exclusive, s, schedule)
          && !BookedOnce(Play(h, honoured, s, schedule).db.txs, ByHash(a.hash))
  {
    DepositApplies(h, s.db, a);
    DepositApplies(h, Effect(h, s.db, a).0, b);
    BookedTwice(h, honoured, exclusive, s, a, b, ByHash(a.hash));
  }

  /** One payment charged twice. */
  lemma PaymentBookedTwice(h: Hasher, honoured: bool, exclusive: Key -> bool, s: Sys, a: Op, b: Op)
    requires Agreement(h, s.db) && s.flights == map[]
    requires a.Deduct? && b.Deduct? && a.amount > 0 && b.amount > 0 && KeyOf(a).Some? && KeyOf(a) == KeyOf(b)
    requires !exclusive(KeyOf(a).value) && EarlierTx(s.db.txs, a).None?
    requires FreshId(s.db.txs, a.tx) && FreshId(s.db.txs, b.tx) && a.tx != b.tx
    requires a.wallet in s.db.wallets && s.db.wallets[a.wallet].HasEnough(a.amount + b.amount)
    ensures exists schedule ::
      Excluding(h, honoured, exclusive, s, schedule)
          && !BookedOnce(Play(h, honoured, s, schedule).db.txs, KeyOf(a).value)
  {
    PaymentApplies(h, s.db, a);
    EffectAgrees(h, s.db, a);
    PaymentApplies(h, Effect(h, s.db, a).0, b);
    BookedTwice(h, honoured, exclusive, s, a, b, KeyOf(a).value);
  }

  /** A registered wallet. */
  lemma Registered(h: Hasher, honoured: bool, exclusive: Key -> bool, w: Uuid) returns (s: Sys)
    ensures Leads(h, honoured, exclusive, START, s)
    ensures s == Sys(DB(map[w := Wallet(0, 0, 0)], [], [], []), map[], [Register(w)])
  {
    LeadsNowhere(h, honoured, exclusive, START);
    s := Next(h, honoured, START, NewWallet(w));
    LeadsStep(h, honoured, exclusive, START, START, NewWallet(w));
  }

  lemma LeadsToAgreement(h: Hasher, honoured: bool, exclusive: Key -> bool, s: Sys)
    requires Leads(h, honoured, exclusive, START, s)
    ensures Agreement(h, s.db)
  {
    var schedule :| Excluding(h, honoured, exclusive, START, schedule) && Play(h, honoured, START, schedule) == s;
    EveryScheduleAgrees(h, honoured, schedule);
  }

  lemma DepositBegun(h: Hasher, honoured: bool, exclusive: Key -> bool, op: Op) returns (s: Sys)
    requires op.Deposit?
    ensures Leads(h, honoured, exclusive, START, s) && OnePerKey(s, exclusive) && Agreement(h, s.db)
    ensures s.db == DB(map[op.wallet := Wallet(0, 0, 0)], [], [], []) && s.log == [Register(op.wallet)]
    ensures s.flights == map[0 := Begun(s.db, op)]
  {
    var first := Registered(h, honoured, exclusive, op.wallet);
    s := Put(first, 0, Begun(first.db, op));
    OneBegun(h, honoured, exclusive, START, first, 0, op);
    LeadsToAgreement(h, honoured, exclusive, s);
  }

  /** A wallet with money, reached by a registration and a deposit. */
  lemma Funded(h: Hasher, honoured: bool, exclusive: Key -> bool, op: Op) returns (s: Sys)
    requires op.Deposit?
    ensures Leads(h, honoured, exclusive, START, s) && s.flights == map[] && s.db.requests == []
    ensures op.wallet in s.db.wallets && s.db.wallets[op.wallet] == Wallet(op.amount, 0, 0)
    ensures s.log == [Register(op.wallet)] + [op] && forall t :: t in s.db.txs ==> t.id == op.tx && t.kind == TxDeposit
  {
    var begun := DepositBegun(h, honoured, exclusive, op);
    DepositApplies(h, begun.db, op);
    s := CommitLeads(h, honoured, exclusive, START, begun, 0);
  }

  ghost predicate BookedAlways(h: Hasher, honoured: bool, exclusive: Key -> bool, key: Key) {
    forall schedule :: Excluding(h, honoured, exclusive, START, schedule) ==>
        BookedOnce(Play(h, honoured, START, schedule).db.txs, key)
  }

  lemma HashNotAlways(h: Hasher, honoured: bool, exclusive: Key -> bool, hash: string, w: Uuid, a: Uuid, b: Uuid)
    requires !exclusive(ByHash(hash)) && a != b
    ensures !BookedAlways(h, honoured, exclusive, ByHash(hash))
  {
    var s := Registered(h, honoured, exclusive, w);
    LeadsToAgreement(h, honoured, exclusive, s);
    DepositBookedTwice(h, honoured, exclusive, s, Deposit(a, w, 1, hash, ""), Deposit(b, w, 1, hash, ""));
    NotAlways(h, honoured, exclusive, s, ByHash(hash));
  }

  lemma NotAlways(h: Hasher, honoured: bool, exclusive: Key -> bool, s: Sys, key: Key)
    requires Leads(h, honoured, exclusive, START, s)
    requires exists rest ::
      Excluding(h, honoured, exclusive, s, rest) && !BookedOnce(Play(h, honoured, s, rest).db.txs, key)
    ensures !BookedAlways(h, honoured, exclusive, key)
  {
    var rest :| Excluding(h, honoured, exclusive, s, rest) && !BookedOnce(Play(h, honoured, s, rest).db.txs, key);
    var end := Play(h, honoured, s, rest);
    LeadsOn(h, honoured, exclusive, START, s, rest);
    var schedule :| Excluding(h, honoured, exclusive, START, schedule) && Play(h, honoured, START, schedule) == end;
  }

  lemma PaymentNotAlways(h: Hasher, honoured: bool, exclusive: Key -> bool, key: Key, tx: Uuid, a: Uuid, b: Uuid)
    requires key.ByRef? && EarlyKey(key) && !exclusive(key) && tx != a && tx != b && a != b
    ensures !BookedAlways(h, honoured, exclusive, key)
  {
    var s := Funded(h, honoured, exclusive, Deposit(tx, key.wallet, 2, "", ""));
    LeadsToAgreement(h, honoured, exclusive, s);
    var one, two := Deduct(a, key.wallet, 1, key.service, key.ref), Deduct(b, key.wallet, 1, key.service, key.ref);
    PaymentBookedTwice(h, honoured, exclusive, s, one, two);
    NotAlways(h, honoured, exclusive, s, key);
  }

  /** In all schedules that keep to the exclusive keys a deposit hash or a
      payment reference is booked at most once if and only if it is one of
      them; a credit reference, checked under the lock, always is. */
  lemma BookedOnceIff(h: Hasher, honoured: bool, exclusive: Key -> bool, key: Key, w: Uuid, tx: Uuid, a: Uuid, b: Uuid)
    requires EarlyKey(key) || (key.ByRef? && key.kind == TxCreditAdd)
    requires tx != a && tx != b && a != b
    ensures BookedAlways(h, honoured, exclusive, key) <==> !EarlyKey(key) || exclusive(key)
  {
    if EarlyKey(key) && !exclusive(key) {
      if key.ByHash? {
        HashNotAlways(h, honoured, exclusive, key.hash, w, a, b);
      } else {
        PaymentNotAlways(h, honoured, exclusive, key, tx, a, b);
      }
    } else {
      forall schedule | Excluding(h, honoured, exclusive, START, schedule)
        ensures BookedOnce(Play(h, honoured, START, schedule).db.txs, key)
      {
        if EarlyKey(key) {
          ExclusiveKeyBooksOnce(h, honoured, exclusive, schedule, key);
        } else {
          EveryScheduleCreditsOnce(h, honoured, schedule, key);
        }
      }
    }
  }

  // ---- holds without the lock ----

  function HoldPlan(op: Op): Plan
    requires op.CreateWithdraw?
  {
    Plan([Delta(op.wallet, 0, 0, op.amount + op.fee)], [], [], Open(HoldOf(op)))
  }

  lemma HoldDecided(rows: map<Uuid, Wallet>, txs: seq<Transaction>, op: Op)
    requires op.CreateWithdraw? && op.wallet in rows && rows[op.wallet].HasEnough(op.amount + op.fee)
    ensures Decide(rows, txs, None, op) == Go(HoldPlan(op))
  {
  }

  /** A hold decided on and neither locked nor placed. */
  predicate Unplaced(f: Flight, op: Op) {
    op.CreateWithdraw? && f.op == op && f.request == None && f.held == {} && f.blocks == [] && f.tip == None
        && f.plan == Some(HoldPlan(op))
  }

  /** Both requests are decided on the balance before either hold. */
  lemma BothDecided(h: Hasher, exclusive: Key -> bool, s: Sys, a: Op, b: Op) returns (n: Sys)
    requires s.flights == map[] && a.CreateWithdraw? && b.CreateWithdraw? && a.wallet == b.wallet
    requires a.wallet in s.db.wallets
    requires var w := s.db.wallets[a.wallet]; w.HasEnough(a.amount + a.fee) && w.HasEnough(b.amount + b.fee)
    ensures Leads(h, false, exclusive, s, n) && OnePerKey(n, exclusive) && n.db == s.db && n.log == s.log
    ensures n.flights.Keys == {0, 1} && Unplaced(n.flights[0], a) && Unplaced(n.flights[1], b)
  {
    var begun := BothBegun(h, false, exclusive, s, a, b);
    HoldDecided(s.db.wallets, s.db.txs, a);
    HoldDecided(s.db.wallets, s.db.txs, b);
    var f := AloneDecides(h, false, begun, 0, HoldPlan(a));
    var mid := Put(begun, 0, f);
    RunsLeads(h, false, exclusive, s, begun, 0, mid);
    var g := AloneDecides(h, false, mid, 1, HoldPlan(b));
    n := Put(mid, 1, g);
    RunsLeads(h, false, exclusive, s, mid, 1, n);
  }

  /** The decided hold commits on whatever the row has become. */
  lemma HoldPlaced(h: Hasher, exclusive: Key -> bool, s: Sys, n: Sys, t: nat, op: Op) returns (m: Sys)
    requires Leads(h, false, exclusive, s, n) && OnePerKey(n, exclusive) && ChainValid(h, n.db.ledger) && Quiet(n)
    requires t in n.flights && Unplaced(n.flights[t], op) && FindRequest(n.db.requests, op.request).None?
    ensures Leads(h, false, exclusive, s, m) && OnePerKey(m, exclusive)
    ensures m == Sys(m.db, n.flights - {t}, n.log + [op]) && m.db.ledger == n.db.ledger
    ensures m.db.wallets == Update(n.db.wallets, Delta(op.wallet, 0, 0, op.amount + op.fee))
    ensures m.db.requests == n.db.requests + [HoldOf(op)]
  {
    var f, p := n.flights[t], HoldPlan(op);
    RunsNothing(h, false, t, n);
    assert Put(n, t, f) == n;
    AloneConcludes(h, false, n, t, f, p);
    m := Sys(Commit(h, n.db, p), n.flights - {t}, n.log + [op]);
    RunsLeads(h, false, exclusive, s, n, t, m);
    OneUpdate(n.db.wallets, p);
  }

  /** If the lock that `CreateWithdraw` asks for is not honoured, two requests
      that each fit the balance but together do not can both be held. */
  lemma OverHeld(h: Hasher, s: Sys, a: Op, b: Op)
    requires ChainValid(h, s.db.ledger) && s.flights == map[] && a.CreateWithdraw? && b.CreateWithdraw?
    requires a.wallet == b.wallet
    requires a.request != b.request && FindRequest(s.db.requests, a.request).None?
    requires FindRequest(s.db.requests, b.request).None?
    requires a.wallet in s.db.wallets
    requires var w := s.db.wallets[a.wallet];
      w.HasEnough(a.amount + a.fee) && w.HasEnough(b.amount + b.fee)
          && !w.HasEnough(a.amount + a.fee + b.amount + b.fee)
    ensures exists schedule ::
      (var n := Play(h, false, s, schedule); !Covered(n.db.wallets) && n.log == s.log + [a] + [b])
  {
    var exclusive: Key -> bool := _ => false;
    var decided := BothDecided(h, exclusive, s, a, b);
    var one := HoldPlaced(h, exclusive, s, decided, 0, a);
    assert FindRequest(one.db.requests, b.request).None?;
    var two := HoldPlaced(h, exclusive, s, one, 1, b);
    assert two.db.wallets[a.wallet].frozen > two.db.wallets[a.wallet].Total();
    var schedule :| Excluding(h, false, exclusive, s, schedule) && Play(h, false, s, schedule) == two;
  }

  ghost predicate AlwaysCovered(h: Hasher, honoured: bool) {
    forall schedule :: AdmissibleSchedule(h, honoured, schedule) ==>
        Covered(Play(h, honoured, START, schedule).db.wallets)
  }

  /** Operations admissible in every state. */
  predicate Plain(op: Op) {
    match op
    case Deposit(_, _, amount, _, _) => amount > 0
    case CreateWithdraw(_, _, amount, fee) => amount + fee >= 0
    case CompleteWithdraw(_, _, _) => false
    case RejectWithdraw(_, _) => false
    case _ => true
  }

  lemma {:induction false} PlainIsAdmissible(h: Hasher, honoured: bool, schedule: seq<Step>)
    requires forall op :: op in Play(h, honoured, START, schedule).log ==> Plain(op)
    ensures AdmissibleSchedule(h, honoured, schedule)
  {
    if schedule != [] {
      var init, step := schedule[..|schedule| - 1], schedule[|schedule| - 1];
      var s, n := Play(h, honoured, START, init), Play(h, honoured, START, schedule);
      CommitLogged(h, honoured, s, step);
      assert forall op :: op in s.log ==> op in n.log;
      PlainIsAdmissible(h, honoured, init);
      if Commits(s, step).Some? {
        assert n.log[|s.log|] == Commits(s, step).value && n.log[|s.log|] in n.log;
      }
    }
  }

  lemma {:induction false} PlayAppend(h: Hasher, honoured: bool, s: Sys, a: seq<Step>, b: seq<Step>)
    ensures Play(h, honoured, s, a + b) == Play(h, honoured, Play(h, honoured, s, a), b)
  {
    if b == [] {
      assert a + b == a;
    } else {
      assert (a + b)[..|a + b| - 1] == a + b[..|b| - 1];
      PlayAppend(h, honoured, s, a, b[..|b| - 1]);
    }
  }

  lemma PlainUncovers(h: Hasher, s: Sys, start: seq<Step>, rest: seq<Step>)
    requires Play(h, false, START, start) == s
    requires var n := Play(h, false, s, rest); !Covered(n.db.wallets) && forall op :: op in n.log ==> Plain(op)
    ensures !AlwaysCovered(h, false)
  {
    PlayAppend(h, false, START, start, rest);
    PlainIsAdmissible(h, false, start + rest);
  }

  lemma PlainOverHeld(h: Hasher, s: Sys, w: Uuid, p: Uuid, q: Uuid) returns (rest: seq<Step>)
    requires ChainValid(h, s.db.ledger) && s.flights == map[] && s.db.requests == [] && p != q
    requires w in s.db.wallets && s.db.wallets[w] == Wallet(100, 0, 0) && forall op :: op in s.log ==> Plain(op)
    ensures var n := Play(h, false, s, rest); !Covered(n.db.wallets) && forall op :: op in n.log ==> Plain(op)
  {
    var a, b := CreateWithdraw(p, w, 60, 0), CreateWithdraw(q, w, 60, 0);
    OverHeld(h, s, a, b);
    rest :| (var n := Play(h, false, s, rest); !Covered(n.db.wallets) && n.log == s.log + [a] + [b]);
  }

  lemma UnhonouredUncovers(h: Hasher, w: Uuid, tx: Uuid, p: Uuid, q: Uuid)
    requires p != q
    ensures !AlwaysCovered(h, false)
  {
    var exclusive: Key -> bool := _ => false;
    var s := Funded(h, false, exclusive, Deposit(tx, w, 100, "", ""));
    LeadsToAgreement(h, false, exclusive, s);
    var start :| Excluding(h, false, exclusive, START, start) && Play(h, false, START, start) == s;
    var rest := PlainOverHeld(h, s, w, p, q);
    PlainUncovers(h, s, start, rest);
  }

  /** Whether holds stay covered under every interleaving of admissible calls,
      settlements of pending requests among them, depends on nothing but the
      lock that `CreateWithdraw` asks for. */
  lemma CoveredIffHonoured(h: Hasher, honoured: bool, w: Uuid, tx: Uuid, p: Uuid, q: Uuid)
    requires p != q
    ensures AlwaysCovered(h, honoured) <==> honoured
  {
    if honoured {
      forall schedule | AdmissibleSchedule(h, true, schedule)
        ensures Covered(Play(h, true, START, schedule).db.wallets)
      {
        EveryScheduleHolds(h, schedule);
      }
    } else {
      UnhonouredUncovers(h, w, tx, p, q);
    }
  }
}
