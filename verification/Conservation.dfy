/** Sums over all wallets: what enters and leaves the platform, and why 64-bit
    arithmetic suffices. */
module Conservation {
  import opened Records
  import opened BaseTen
  import opened HashChain
  import opened Operations
  import opened LedgerAgreement
  import opened Holds
  import opened Bookkeeping

  datatype Column = TonColumn | CreditColumn | TotalColumn

  function Get(w: Wallet, c: Column): int {
    match c
    case TonColumn => w.ton
    case CreditColumn => w.credit
    case TotalColumn => w.Total()
  }

  ghost function Pick(wallets: map<Uuid, Wallet>): Uuid
    requires wallets != map[]
  {
    var id :| id in wallets; id
  }

  /** `SUM(column)` over all wallet rows. */
  ghost function Sum(wallets: map<Uuid, Wallet>, c: Column): int
    decreases |wallets|
  {
    if wallets == map[] then 0
    else Get(wallets[Pick(wallets)], c) + Sum(wallets - {Pick(wallets)}, c)
  }

  lemma {:induction false} SumWithout(wallets: map<Uuid, Wallet>, c: Column, id: Uuid)
    requires id in wallets
    ensures Sum(wallets, c) == Get(wallets[id], c) + Sum(wallets - {id}, c)
    decreases |wallets|
  {
    var k := Pick(wallets);
    if k != id {
      SumWithout(wallets - {k}, c, id);
      SumWithout(wallets - {id}, c, k);
      assert wallets - {k} - {id} == wallets - {id} - {k};
    }
  }

  lemma SumSet(wallets: map<Uuid, Wallet>, c: Column, id: Uuid, w: Wallet)
    ensures Sum(wallets[id := w], c) == Sum(wallets, c) + Get(w, c) - if id in wallets then Get(wallets[id], c) else 0
  {
    SumWithout(wallets[id := w], c, id);
    assert wallets[id := w] - {id} == wallets - {id};
    if id in wallets {
      SumWithout(wallets, c, id);
    } else {
      assert wallets - {id} == wallets;
    }
  }

  function Change(d: Delta, c: Column): int {
    match c
    case TonColumn => d.ton
    case CreditColumn => d.credit
    case TotalColumn => d.ton + d.credit
  }

  lemma SumUpdate(wallets: map<Uuid, Wallet>, c: Column, d: Delta)
    ensures Sum(Update(wallets, d), c) == Sum(wallets, c) + if d.wallet in wallets then Change(d, c) else 0
  {
    if d.wallet in wallets {
      SumSet(wallets, c, d.wallet, Update(wallets, d)[d.wallet]);
    }
  }

  lemma {:induction false} SumBounds(wallets: map<Uuid, Wallet>, c: Column)
    requires forall w :: w in wallets ==> Get(wallets[w], c) >= 0
    ensures Sum(wallets, c) >= 0
    ensures forall w :: w in wallets ==> Get(wallets[w], c) <= Sum(wallets, c)
    ensures forall v, w :: v in wallets && w in wallets && v != w ==>
      Get(wallets[v], c) + Get(wallets[w], c) <= Sum(wallets, c)
    decreases |wallets|
  {
    if wallets != map[] {
      var k := Pick(wallets);
      var rest := wallets - {k};
      SumBounds(rest, c);
      assert forall w :: w in wallets ==> w == k || w in rest;
    }
  }

  // ---- conservation ----

  /** What a call brings in or pays out when it is applied. */
  function Inward(op: Op): int {
    match op
    case Deposit(_, _, amount, _, _) => amount
    case AddCredit(_, _, amount, _, _) => amount
    case _ => 0
  }

  function Outward(db: DB, op: Op): int {
    match op
    case Deduct(_, _, amount, _, _) => amount
    case CompleteWithdraw(_, id, _) =>
      var q := FindRequest(db.requests, id);
      if q.Some? then q.value.Total() else 0
    case _ => 0
  }

  ghost predicate Conserves(before: map<Uuid, Wallet>, after: map<Uuid, Wallet>, db: DB, op: Op) {
    && Sum(after, TotalColumn) == Sum(before, TotalColumn) + Inward(op) - Outward(db, op)
    && (op.Transfer? ==> Sum(after, TonColumn) == Sum(before, TonColumn))
    && (op.Transfer? ==> Sum(after, CreditColumn) == Sum(before, CreditColumn))
    && Sum(after, CreditColumn) <= Sum(before, CreditColumn) + if op.AddCredit? then op.amount else 0
  }

  lemma PlanConserves(db: DB, op: Op, p: Plan)
    requires CreditsNonNegative(db.wallets) && Decide(db.wallets, db.txs, RequestOf(db.requests, op), op) == Go(p)
    ensures Conserves(db.wallets, UpdateAll(db.wallets, p.deltas), db, op)
  {
    PlanBalance(db, op, p);
    PlanSum(db.wallets, p, TotalColumn);
    PlanSum(db.wallets, p, TonColumn);
    PlanSum(db.wallets, p, CreditColumn);
  }

  lemma RegisterConserves(db: DB, op: Op)
    requires op.Register? && op.wallet !in db.wallets
    ensures Conserves(db.wallets, db.wallets[op.wallet := Wallet(0, 0, 0)], db, op)
  {
    SumSet(db.wallets, TotalColumn, op.wallet, Wallet(0, 0, 0));
    SumSet(db.wallets, CreditColumn, op.wallet, Wallet(0, 0, 0));
  }

  lemma PlannedWallets(h: Hasher, db: DB, op: Op) returns (p: Plan)
    requires !op.Register? && Effect(h, db, op).1.Applied?
    ensures Decide(db.wallets, db.txs, RequestOf(db.requests, op), op) == Go(p)
    ensures Effect(h, db, op).0.wallets == UpdateAll(db.wallets, p.deltas)
  {
    p := Decide(db.wallets, db.txs, RequestOf(db.requests, op), op).plan;
  }

  lemma EffectConserves(h: Hasher, db: DB, op: Op)
    requires CreditsNonNegative(db.wallets) && Effect(h, db, op).1.Applied?
    ensures Conserves(db.wallets, Effect(h, db, op).0.wallets, db, op)
  {
    if !op.Register? {
      var p := PlannedWallets(h, db, op);
      PlanConserves(db, op, p);
    } else if op.wallet !in db.wallets {
      RegisterConserves(db, op);
    }
  }

  function PlanChange(wallets: map<Uuid, Wallet>, p: Plan, c: Column): int
    requires 1 <= |p.deltas| <= 2
  {
    (if p.deltas[0].wallet in wallets then Change(p.deltas[0], c) else 0) +
    (if |p.deltas| == 2 && p.deltas[1].wallet in wallets then Change(p.deltas[1], c) else 0)
  }

  lemma PlanSum(wallets: map<Uuid, Wallet>, p: Plan, c: Column)
    requires 1 <= |p.deltas| <= 2
    ensures Sum(UpdateAll(wallets, p.deltas), c) == Sum(wallets, c) + PlanChange(wallets, p, c)
  {
    SumUpdate(wallets, c, p.deltas[0]);
    if |p.deltas| == 1 {
      OneUpdate(wallets, p);
    } else {
      TwoUpdates(wallets, p);
      SumUpdate(Update(wallets, p.deltas[0]), c, p.deltas[1]);
    }
  }

  lemma PlanBalance(db: DB, op: Op, p: Plan)
    requires CreditsNonNegative(db.wallets)
    requires Decide(db.wallets, db.txs, RequestOf(db.requests, op), op) == Go(p)
    ensures 1 <= |p.deltas| <= 2
    ensures PlanChange(db.wallets, p, TotalColumn) == Inward(op) - Outward(db, op)
    ensures op.Transfer? ==> PlanChange(db.wallets, p, TonColumn) == PlanChange(db.wallets, p, CreditColumn) == 0
    ensures PlanChange(db.wallets, p, CreditColumn) <= if op.AddCredit? then op.amount else 0
  {
  }

  /** Everything that entered during a run, and everything that left. */
  function Inflow(h: Hasher, ops: seq<Op>): int {
    if ops == [] then 0
    else
      var init, op := ops[..|ops| - 1], ops[|ops| - 1];
      Inflow(h, init) + if Apply(h, Run(h, EMPTY, init), op).1.Applied? then Inward(op) else 0
  }

  function Outflow(h: Hasher, ops: seq<Op>): int {
    if ops == [] then 0
    else
      var init, op := ops[..|ops| - 1], ops[|ops| - 1];
      Outflow(h, init) + if Apply(h, Run(h, EMPTY, init), op).1.Applied? then Outward(Run(h, EMPTY, init), op) else 0
  }

  /** After any run the wallets together hold deposits plus credits minus
      deductions minus completed withdrawals. */
  lemma {:induction false} TotalsConserved(h: Hasher, ops: seq<Op>)
    ensures Sum(Run(h, EMPTY, ops).wallets, TotalColumn) == Inflow(h, ops) - Outflow(h, ops)
  {
    if ops != [] {
      var init, op := ops[..|ops| - 1], ops[|ops| - 1];
      TotalsConserved(h, init);
      RunAgrees(h, init);
      if Apply(h, Run(h, EMPTY, init), op).1.Applied? {
        EffectConserves(h, Run(h, EMPTY, init), op);
      }
    }
  }

  // ---- machine arithmetic ----

  /** What has entered bounds the totals and the credits, since nothing that
      leaves is negative. */
  lemma {:induction false} InflowBounds(h: Hasher, ops: seq<Op>)
    requires AdmissibleRun(h, ops)
    ensures Sum(Run(h, EMPTY, ops).wallets, TotalColumn) <= Inflow(h, ops)
    ensures Sum(Run(h, EMPTY, ops).wallets, CreditColumn) <= Inflow(h, ops)
  {
    if ops != [] {
      var init, op := ops[..|ops| - 1], ops[|ops| - 1];
      var db := Run(h, EMPTY, init);
      AdmissiblePrefix(h, ops);
      InflowBounds(h, init);
      RunHolds(h, init);
      if Apply(h, db, op).1.Applied? {
        EffectConserves(h, db, op);
      }
    }
  }

  /** A row all of whose sums and differences fit 64 bits. */
  predicate Fits(w: Wallet) {
    0 <= w.frozen <= w.Total() <= MAX_INT64 && 0 <= w.credit <= MAX_INT64
  }

  /** Every value the code computes from the rows while carrying out a call, as
      far as the call gets. */
  function Intermediates(db: DB, op: Op): seq<int> {
    match op
    case Deposit(_, wallet, amount, _, _) =>
      if wallet !in db.wallets then [] else Raise(db.wallets[wallet], amount, 0)
    case Deduct(_, wallet, amount, _, _) =>
      if amount <= 0 || wallet !in db.wallets then [] else Spend(db.wallets[wallet], amount)
    case AddCredit(_, wallet, amount, _, _) =>
      if amount <= 0 || wallet !in db.wallets then [] else Raise(db.wallets[wallet], 0, amount)
    case Transfer(_, _, from, to, amount) =>
      if amount <= 0 || from !in db.wallets || to !in db.wallets then []
      else if !db.wallets[from].HasEnough(amount) then Spend(db.wallets[from], amount)
      else
        var s := Split(db.wallets[from], amount);
        Spend(db.wallets[from], amount) + Raise(db.wallets[to], Positive(s.1), Positive(s.0))
    case CreateWithdraw(_, wallet, amount, fee) =>
      if wallet !in db.wallets then [amount + fee]
      else
        var w := db.wallets[wallet];
        [amount + fee, w.ton + w.credit, w.ton + w.credit - w.frozen] +
        if w.HasEnough(amount + fee) then [w.frozen + (amount + fee)] else []
    case CompleteWithdraw(_, id, _) =>
      var q := FindRequest(db.requests, id);
      if q.None? || q.value.wallet !in db.wallets then []
      else
        var w, total := db.wallets[q.value.wallet], q.value.Total();
        [total, -total, w.ton - total, w.frozen - total, w.ton + w.credit, w.ton + w.credit - total]
    case RejectWithdraw(_, id) =>
      var q := FindRequest(db.requests, id);
      if q.None? || q.value.wallet !in db.wallets then []
      else [q.value.Total(), db.wallets[q.value.wallet].frozen - q.value.Total()]
    case Register(_) => []
  }

  function Raise(w: Wallet, ton: int, credit: int): seq<int> {
    [w.ton + ton, w.credit + credit, w.ton + w.credit, w.ton + w.credit + (ton + credit)]
  }

  function Spend(w: Wallet, amount: int): seq<int> {
    [w.ton + w.credit, w.ton + w.credit - w.frozen] +
    if !w.HasEnough(amount) then []
    else
      var s := Split(w, amount);
      [s.0, s.1, -amount, w.credit - Positive(s.0), w.ton - Positive(s.1), w.ton + w.credit - amount]
  }

  predicate RowInt64(w: Wallet) {
    IsInt64(w.ton) && IsInt64(w.credit) && IsInt64(w.frozen)
  }

  predicate RowsInt64(wallets: map<Uuid, Wallet>) {
    forall w :: w in wallets ==> RowInt64(wallets[w])
  }

  /** The numbers of the blocks from the n-th on. */
  predicate BlocksInt64(ms: seq<Move>, n: nat) {
    forall k :: n <= k < |ms| ==> IsInt64(ms[k].amount) && IsInt64(ms[k].balanceAfter)
  }

  predicate AllInt64(values: seq<int>) {
    forall v :: v in values ==> IsInt64(v)
  }

  /** The amounts a call is made with, and those of the request it settles. */
  predicate GivenInt64(db: DB, op: Op) {
    match op
    case Register(_) => true
    case CreateWithdraw(_, _, amount, fee) => IsInt64(amount) && IsInt64(fee)
    case CompleteWithdraw(_, _, _) => true
    case RejectWithdraw(_, _) => true
    case _ => IsInt64(op.amount)
  }

  lemma SpendCovers(r: Wallet, s: Wallet, amount: int)
    requires Pays(r, s, amount) && r.credit >= 0 && amount > 0 && r.HasEnough(amount)
    requires AllInt64(Spend(r, amount)) && IsInt64(r.frozen)
    ensures RowInt64(s) && IsInt64(r.ton + r.credit - amount)
  {
    var values := Spend(r, amount);
    assert values[5] in values && values[6] in values && values[7] in values;
  }

  lemma RaiseCovers(r: Wallet, ton: int, credit: int)
    requires AllInt64(Raise(r, ton, credit))
    ensures IsInt64(r.ton + ton) && IsInt64(r.credit + credit) && IsInt64(r.ton + r.credit + (ton + credit))
  {
    var values := Raise(r, ton, credit);
    assert values[0] in values && values[1] in values && values[3] in values;
  }

  lemma MoveCovers(before: map<Uuid, Wallet>, after: map<Uuid, Wallet>, from: Uuid, to: Uuid, amount: int,
                   values: seq<int>)
    requires from != to && DidMove(before, after, from, to, amount) && before[from].credit >= 0 && amount > 0
    requires before[from].HasEnough(amount) && RowsInt64(before) && AllInt64(values)
    requires var s := Split(before[from], amount);
      values == Spend(before[from], amount) + Raise(before[to], Positive(s.1), Positive(s.0))
    ensures RowInt64(after[from]) && RowInt64(after[to])
    ensures IsInt64(before[from].Total() - amount) && IsInt64(before[to].Total() + amount)
  {
    var s := Split(before[from], amount);
    assert forall v :: v in Spend(before[from], amount) ==> v in values;
    assert forall v :: v in Raise(before[to], Positive(s.1), Positive(s.0)) ==> v in values;
    SpendCovers(before[from], after[from], amount);
    RaiseCovers(before[to], Positive(s.1), Positive(s.0));
  }

  /** Nor what the check of the free total computes, whether or not it passes. */
  lemma CheckedValuesFit(db: DB, op: Op, wallet: Uuid)
    requires AllInt64(Intermediates(db, op)) && wallet in db.wallets
    requires
      || (op.Deduct? && op.amount > 0 && wallet == op.wallet)
      || (op.Transfer? && op.amount > 0 && op.to in db.wallets && wallet == op.from)
      || (op.CreateWithdraw? && wallet == op.wallet)
    ensures var w := db.wallets[wallet]; IsInt64(w.ton + w.credit) && IsInt64(w.ton + w.credit - w.frozen)
    ensures op.CreateWithdraw? ==> IsInt64(op.amount + op.fee)
  {
    var values, w := Intermediates(db, op), db.wallets[wallet];
    if op.CreateWithdraw? {
      assert values[0] in values && values[1] in values && values[2] in values;
    } else {
      assert Spend(w, op.amount)[0] in Spend(w, op.amount) && Spend(w, op.amount)[1] in Spend(w, op.amount);
      assert forall v :: v in Spend(w, op.amount) ==> v in values;
    }
  }

  lemma PaymentValuesFit(db: DB, after: DB, op: Op)
    requires op.Deposit? || op.Deduct? || op.AddCredit?
    requires Accepts(db, op) && Did(db, after, op) && CreditsNonNegative(db.wallets)
    requires RowsInt64(db.wallets) && GivenInt64(db, op) && AllInt64(Intermediates(db, op))
    ensures RowsInt64(after.wallets) && BlocksInt64(Moves(after.ledger), |Moves(db.ledger)|)
  {
    match op {
      case Deposit(_, w, amount, _, _) => RaiseCovers(db.wallets[w], amount, 0);
      case Deduct(_, w, amount, _, _) => SpendCovers(db.wallets[w], after.wallets[w], amount);
      case AddCredit(_, w, amount, _, _) => RaiseCovers(db.wallets[w], 0, amount);
    }
  }

  lemma TransferValuesFit(db: DB, after: DB, op: Op)
    requires op.Transfer? && op.from != op.to
    requires Accepts(db, op) && Did(db, after, op) && CreditsNonNegative(db.wallets)
    requires RowsInt64(db.wallets) && GivenInt64(db, op) && AllInt64(Intermediates(db, op))
    ensures RowsInt64(after.wallets) && BlocksInt64(Moves(after.ledger), |Moves(db.ledger)|)
  {
    MoveCovers(db.wallets, after.wallets, op.from, op.to, op.amount, Intermediates(db, op));
  }

  lemma RequestValuesFit(db: DB, after: DB, op: Op)
    requires op.CreateWithdraw? || op.CompleteWithdraw? || op.RejectWithdraw?
    requires Accepts(db, op) && Did(db, after, op) && CreditsNonNegative(db.wallets)
    requires RowsInt64(db.wallets) && GivenInt64(db, op) && AllInt64(Intermediates(db, op))
    ensures RowsInt64(after.wallets) && BlocksInt64(Moves(after.ledger), |Moves(db.ledger)|)
  {
    var values := Intermediates(db, op);
    if op.CreateWithdraw? {
      assert values[3] in values;
    } else if op.CompleteWithdraw? {
      assert values[0] in values && values[2] in values && values[3] in values && values[5] in values;
    } else if FindRequest(db.requests, op.request).value.wallet in db.wallets {
      assert values[1] in values;
    }
  }

  /** The list leaves out nothing that is stored: if its values fit, and what was
      stored and given before does, then every row and every new block of the
      applied call fits. */
  lemma StoredValuesFit(db: DB, after: DB, op: Op)
    requires Accepts(db, op) && Did(db, after, op) && CreditsNonNegative(db.wallets)
    requires RowsInt64(db.wallets) && GivenInt64(db, op) && AllInt64(Intermediates(db, op))
    requires !SelfTransfer(op)
    ensures RowsInt64(after.wallets) && BlocksInt64(Moves(after.ledger), |Moves(db.ledger)|)
  {
    match op {
      case Register(_) =>
      case Deposit(_, _, _, _, _) => PaymentValuesFit(db, after, op);
      case Deduct(_, _, _, _, _) => PaymentValuesFit(db, after, op);
      case AddCredit(_, _, _, _, _) => PaymentValuesFit(db, after, op);
      case Transfer(_, _, _, _, _) => TransferValuesFit(db, after, op);
      case CreateWithdraw(_, _, _, _) => RequestValuesFit(db, after, op);
      case CompleteWithdraw(_, _, _) => RequestValuesFit(db, after, op);
      case RejectWithdraw(_, _) => RequestValuesFit(db, after, op);
    }
  }

  lemma SpendFits(w: Wallet, amount: int)
    requires Fits(w) && amount > 0
    ensures AllInt64(Spend(w, amount))
  {
    if w.HasEnough(amount) {
      SpendFacts(w, amount);
    }
  }

  lemma RaiseFits(w: Wallet, ton: int, credit: int)
    requires Fits(w) && ton >= 0 && credit >= 0
    requires w.Total() + ton + credit <= MAX_INT64 && w.credit + credit <= MAX_INT64
    ensures AllInt64(Raise(w, ton, credit))
  {
  }

  /** The receiving half of a transfer from a wallet to itself starts from the
      total the sending half has not yet lowered. */
  predicate SelfFits(db: DB, op: Op) {
    SelfTransfer(op) && op.amount > 0 && op.from in db.wallets && db.wallets[op.from].HasEnough(op.amount) ==>
      var w := db.wallets[op.from];
      w.Total() + op.amount <= MAX_INT64 && w.credit + Split(w, op.amount).0 <= MAX_INT64
  }

  lemma SelfIff(db: DB, op: Op)
    requires op.Transfer? && op.from == op.to && (op.from in db.wallets ==> Fits(db.wallets[op.from]))
    ensures AllInt64(Intermediates(db, op)) <==> SelfFits(db, op)
  {
    if op.amount > 0 && op.from in db.wallets {
      var w := db.wallets[op.from];
      SpendFits(w, op.amount);
      if w.HasEnough(op.amount) {
        SpendFacts(w, op.amount);
        SelfRaise(w, op.amount);
      }
    }
  }

  lemma SelfRaise(w: Wallet, amount: int)
    requires Fits(w) && amount > 0 && w.HasEnough(amount)
    ensures var s := Split(w, amount);
      AllInt64(Spend(w, amount) + Raise(w, Positive(s.1), Positive(s.0))) <==>
      w.Total() + amount <= MAX_INT64 && w.credit + s.0 <= MAX_INT64
  {
    var s := Split(w, amount);
    var up := Raise(w, Positive(s.1), Positive(s.0));
    SpendFits(w, amount);
    SpendFacts(w, amount);
    assert up[1] in Spend(w, amount) + up && up[3] in Spend(w, amount) + up;
  }

  /** Any bound on the sums that leaves room for what the call brings in will
      do. */
  lemma ValuesFit(db: DB, op: Op, inflow: int)
    requires HoldsExact(db) && Admissible(db, op)
    requires Sum(db.wallets, TotalColumn) <= inflow && Sum(db.wallets, CreditColumn) <= inflow
    requires inflow <= MAX_INT64 && inflow + Inward(op) <= MAX_INT64
    requires op.CreateWithdraw? ==> op.amount + op.fee <= MAX_INT64
    ensures AllInt64(Intermediates(db, op)) <==> SelfFits(db, op)
  {
    FrozenNonNegative(db.wallets, db.requests);
    SumBounds(db.wallets, TotalColumn);
    SumBounds(db.wallets, CreditColumn);
    assert forall w :: w in db.wallets ==> Get(db.wallets[w], TotalColumn) == db.wallets[w].Total();
    assert forall w :: w in db.wallets ==> Get(db.wallets[w], CreditColumn) == db.wallets[w].credit;
    if SelfTransfer(op) {
      SelfIff(db, op);
    } else {
      RowsFit(db, op, inflow);
    }
  }

  /** If all that has ever entered, together with what the call brings in, fits
      64 bits, and a new request's amount and fee do, then so does every value
      the call computes; a transfer from a wallet to itself needs more, and
      exactly that. */
  lemma NoOverflow(h: Hasher, ops: seq<Op>, op: Op)
    requires AdmissibleRun(h, ops) && Admissible(Run(h, EMPTY, ops), op)
    requires Inflow(h, ops) <= MAX_INT64 && Inflow(h, ops) + Inward(op) <= MAX_INT64
    requires op.CreateWithdraw? ==> op.amount + op.fee <= MAX_INT64
    ensures AllInt64(Intermediates(Run(h, EMPTY, ops), op)) <==> SelfFits(Run(h, EMPTY, ops), op)
  {
    RunHolds(h, ops);
    InflowBounds(h, ops);
    ValuesFit(Run(h, EMPTY, ops), op, Inflow(h, ops));
  }

  lemma RowsFit(db: DB, op: Op, inflow: int)
    requires HoldsExact(db) && Admissible(db, op) && !SelfTransfer(op)
    requires inflow <= MAX_INT64 && inflow + Inward(op) <= MAX_INT64
    requires op.CreateWithdraw? ==> op.amount + op.fee <= MAX_INT64
    requires forall w :: w in db.wallets ==>
      0 <= db.wallets[w].frozen && db.wallets[w].Total() <= inflow && db.wallets[w].credit <= inflow
    requires forall v, w :: v in db.wallets && w in db.wallets && v != w ==>
      db.wallets[v].Total() + db.wallets[w].Total() <= inflow && db.wallets[v].credit + db.wallets[w].credit <= inflow
    ensures AllInt64(Intermediates(db, op))
  {
    match op {
      case Deposit(_, wallet, amount, _, _) =>
        if wallet in db.wallets {
          RaiseFits(db.wallets[wallet], amount, 0);
        }
      case Deduct(_, wallet, amount, _, _) =>
        if amount > 0 && wallet in db.wallets {
          SpendFits(db.wallets[wallet], amount);
        }
      case AddCredit(_, wallet, amount, _, _) =>
        if amount > 0 && wallet in db.wallets {
          RaiseFits(db.wallets[wallet], 0, amount);
        }
      case Transfer(_, _, from, to, amount) =>
        if amount > 0 && from in db.wallets && to in db.wallets {
          var sender := db.wallets[from];
          SpendFits(sender, amount);
          if sender.HasEnough(amount) {
            SpendFacts(sender, amount);
            RaiseFits(db.wallets[to], Positive(Split(sender, amount).1), Positive(Split(sender, amount).0));
          }
        }
      case CreateWithdraw(_, _, _, _) =>
      case CompleteWithdraw(_, id, _) => SettledFits(db, id);
      case RejectWithdraw(_, id) => SettledFits(db, id);
      case Register(_) =>
    }
  }

  lemma SettledFits(db: DB, id: Uuid)
    requires HoldsExact(db)
    ensures var q := FindRequest(db.requests, id);
      q.Some? && q.value.status == Pending ==>
        q.value.wallet in db.wallets && 0 <= q.value.Total() <= db.wallets[q.value.wallet].frozen
  {
    var q := FindRequest(db.requests, id);
    if q.Some? {
      assert q.value in db.requests;
      PendingBounds(db.requests, q.value.wallet);
      assert FrozenOf(db.wallets, q.value.wallet) == PendingSum(db.requests, q.value.wallet);
    }
  }
}
