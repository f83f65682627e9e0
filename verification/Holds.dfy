/** Withdrawal holds: what `frozen` means, when a settlement keeps it meaning
    that, and when a completed withdrawal can overdraw the TON balance. */
module Holds {
  import opened Records
  import opened HashChain
  import opened Operations

  /** What a wallet's pending requests add up to, fees included. */
  function PendingSum(requests: seq<Request>, wallet: Uuid): int {
    if requests == [] then 0
    else
      var q := requests[0];
      (if q.wallet == wallet && q.status == Pending then q.Total() else 0) + PendingSum(requests[1..], wallet)
  }

  function FrozenOf(wallets: map<Uuid, Wallet>, id: Uuid): int {
    if id in wallets then wallets[id].frozen else 0
  }

  predicate DistinctRequests(requests: seq<Request>) {
    forall i, j :: 0 <= i < j < |requests| ==> requests[i].id != requests[j].id
  }

  predicate SoundRequests(wallets: map<Uuid, Wallet>, requests: seq<Request>) {
    forall q :: q in requests ==> q.Total() >= 0 && q.wallet in wallets
  }

  /** The total of every wallet covers its hold, and no credit is negative. */
  predicate Covered(wallets: map<Uuid, Wallet>) {
    forall w :: w in wallets ==> wallets[w].credit >= 0 && wallets[w].Total() >= wallets[w].frozen
  }

  /** `frozen` is exactly what the pending requests hold. */
  ghost predicate FrozenIsPending(wallets: map<Uuid, Wallet>, requests: seq<Request>) {
    forall w: Uuid :: FrozenOf(wallets, w) == PendingSum(requests, w)
  }

  /** The holds are what the requests say they are. */
  ghost predicate FrozenExact(wallets: map<Uuid, Wallet>, requests: seq<Request>) {
    DistinctRequests(requests) && SoundRequests(wallets, requests) && FrozenIsPending(wallets, requests)
  }

  ghost predicate HoldsExact(db: DB) {
    FrozenExact(db.wallets, db.requests) && Covered(db.wallets)
  }

  /** What the callers of the store see to: deposits read from the chain are
      positive, holds are not negative, a settled request is still pending. */
  predicate Admissible(db: DB, op: Op) {
    match op
    case Deposit(_, _, amount, _, _) => amount > 0
    case CreateWithdraw(_, _, amount, fee) => amount + fee >= 0
    case CompleteWithdraw(_, id, _) => var q := FindRequest(db.requests, id); q.Some? ==> q.value.status == Pending
    case RejectWithdraw(_, id) => var q := FindRequest(db.requests, id); q.Some? ==> q.value.status == Pending
    case _ => true
  }

  // ---- pending sums ----

  lemma {:induction false} PendingAppend(requests: seq<Request>, q: Request, wallet: Uuid)
    ensures PendingSum(requests + [q], wallet) ==
      PendingSum(requests, wallet) + if q.wallet == wallet && q.status == Pending then q.Total() else 0
  {
    var all := requests + [q];
    if requests != [] {
      PendingAppend(requests[1..], q, wallet);
      assert all[1..] == requests[1..] + [q];
    }
  }

  lemma {:induction false} PendingBounds(requests: seq<Request>, wallet: Uuid)
    requires forall q :: q in requests ==> q.Total() >= 0
    ensures PendingSum(requests, wallet) >= 0
    ensures forall q :: q in requests && q.wallet == wallet && q.status == Pending ==>
      q.Total() <= PendingSum(requests, wallet)
  {
    if requests != [] {
      assert requests[0] in requests;
      PendingBounds(requests[1..], wallet);
    }
  }

  lemma {:induction false} PendingOther(requests: seq<Request>, id: Uuid, status: RequestStatus, wallet: Uuid)
    requires forall q :: q in requests ==> q.id != id
    ensures PendingSum(SetStatus(requests, id, status), wallet) == PendingSum(requests, wallet)
  {
    if requests != [] {
      assert requests[0] in requests;
      PendingOther(requests[1..], id, status, wallet);
    }
  }

  /** Settling a request takes it out of its wallet's pending sum, if it was
      in there, and leaves every other wallet's sum alone. */
  lemma {:induction false} PendingSettle(requests: seq<Request>, id: Uuid, status: RequestStatus, wallet: Uuid)
    requires DistinctRequests(requests) && FindRequest(requests, id).Some? && status != Pending
    ensures var q := FindRequest(requests, id).value;
      PendingSum(SetStatus(requests, id, status), wallet) ==
      PendingSum(requests, wallet) - if q.wallet == wallet && q.status == Pending then q.Total() else 0
  {
    var rest := requests[1..];
    if requests[0].id == id {
      forall q | q in rest
        ensures q.id != id
      {
        var i :| 0 <= i < |rest| && rest[i] == q;
        assert requests[i + 1] == q;
      }
      PendingOther(rest, id, status, wallet);
    } else {
      PendingSettle(rest, id, status, wallet);
    }
  }

  lemma {:induction false} FindAppended(requests: seq<Request>, q: Request)
    requires FindRequest(requests, q.id).None?
    ensures FindRequest(requests + [q], q.id) == Some(q)
  {
    var all := requests + [q];
    if requests != [] {
      assert requests[0] in requests;
      FindAppended(requests[1..], q);
      assert all[1..] == requests[1..] + [q];
    }
  }

  // ---- one operation ----

  lemma OneUpdate(wallets: map<Uuid, Wallet>, plan: Plan)
    requires |plan.deltas| == 1
    ensures UpdateAll(wallets, plan.deltas) == Update(wallets, plan.deltas[0])
  {
    assert plan.deltas[..0] == [];
  }

  lemma TwoUpdates(wallets: map<Uuid, Wallet>, plan: Plan)
    requires |plan.deltas| == 2
    ensures UpdateAll(wallets, plan.deltas) == Update(Update(wallets, plan.deltas[0]), plan.deltas[1])
  {
    OneUpdate(wallets, plan.(deltas := plan.deltas[..1]));
    assert plan.deltas[..1][0] == plan.deltas[0];
  }

  lemma {:induction false} UpdatesKeepKeys(wallets: map<Uuid, Wallet>, ds: seq<Delta>)
    ensures UpdateAll(wallets, ds).Keys == wallets.Keys
  {
    if ds != [] {
      UpdatesKeepKeys(wallets, ds[..|ds| - 1]);
    }
  }

  /** An update that leaves `frozen` alone. */
  lemma RowKeepsFrozen(wallets: map<Uuid, Wallet>, requests: seq<Request>, d: Delta)
    requires FrozenExact(wallets, requests) && d.frozen == 0
    ensures FrozenExact(Update(wallets, d), requests)
  {
    forall id: Uuid
      ensures FrozenOf(Update(wallets, d), id) == PendingSum(requests, id)
    {
      assert FrozenOf(wallets, id) == PendingSum(requests, id);
    }
  }

  lemma OpenKeepsFrozen(wallets: map<Uuid, Wallet>, requests: seq<Request>, q: Request)
    requires FrozenExact(wallets, requests) && FindRequest(requests, q.id).None?
    requires q.wallet in wallets && q.status == Pending && q.Total() >= 0
    ensures FrozenExact(Update(wallets, Delta(q.wallet, 0, 0, q.Total())), requests + [q])
  {
    var after := Update(wallets, Delta(q.wallet, 0, 0, q.Total()));
    forall w: Uuid
      ensures FrozenOf(after, w) == PendingSum(requests + [q], w)
    {
      PendingAppend(requests, q, w);
      assert FrozenOf(wallets, w) == PendingSum(requests, w);
    }
  }

  lemma SettleSound(wallets: map<Uuid, Wallet>, requests: seq<Request>, id: Uuid, status: RequestStatus,
                    after: map<Uuid, Wallet>)
    requires DistinctRequests(requests) && SoundRequests(wallets, requests) && wallets.Keys <= after.Keys
    ensures DistinctRequests(SetStatus(requests, id, status)) && SoundRequests(after, SetStatus(requests, id, status))
  {
    var rs := SetStatus(requests, id, status);
    forall i | 0 <= i < |rs|
      ensures rs[i].id == requests[i].id && rs[i].Total() >= 0 && rs[i].wallet in after
    {
      assert requests[i] in requests;
    }
  }

  lemma SettledSums(wallets: map<Uuid, Wallet>, requests: seq<Request>, q: Request, status: RequestStatus, paid: int,
                    w: Uuid)
    requires DistinctRequests(requests) && FindRequest(requests, q.id) == Some(q) && status != Pending
    requires q.wallet in wallets && FrozenOf(wallets, w) == PendingSum(requests, w)
    ensures PendingSum(SetStatus(requests, q.id, status), w) ==
      FrozenOf(wallets, w) - if q.wallet == w && q.status == Pending then q.Total() else 0
    ensures FrozenOf(Update(wallets, Delta(q.wallet, -paid, 0, -q.Total())), w) ==
      FrozenOf(wallets, w) - if q.wallet == w then q.Total() else 0
  {
    PendingSettle(requests, q.id, status, w);
  }

  lemma PendingSettles(wallets: map<Uuid, Wallet>, requests: seq<Request>, q: Request, status: RequestStatus, paid: int)
    requires FrozenExact(wallets, requests) && FindRequest(requests, q.id) == Some(q) && status != Pending
    requires q.status == Pending || q.Total() == 0
    ensures FrozenExact(Update(wallets, Delta(q.wallet, -paid, 0, -q.Total())), SetStatus(requests, q.id, status))
  {
    var after, settled := Update(wallets, Delta(q.wallet, -paid, 0, -q.Total())), SetStatus(requests, q.id, status);
    SettleSound(wallets, requests, q.id, status, after);
    forall w: Uuid
      ensures FrozenOf(after, w) == PendingSum(settled, w)
    {
      assert FrozenOf(wallets, w) == PendingSum(requests, w);
      SettledSums(wallets, requests, q, status, paid, w);
    }
  }

  lemma SettlingAgainFails(wallets: map<Uuid, Wallet>, requests: seq<Request>, q: Request, status: RequestStatus,
                           paid: int)
    requires FrozenExact(wallets, requests) && FindRequest(requests, q.id) == Some(q) && status != Pending
    requires q.status != Pending && q.Total() != 0
    ensures !FrozenExact(Update(wallets, Delta(q.wallet, -paid, 0, -q.Total())), SetStatus(requests, q.id, status))
  {
    var after, settled := Update(wallets, Delta(q.wallet, -paid, 0, -q.Total())), SetStatus(requests, q.id, status);
    assert FrozenOf(wallets, q.wallet) == PendingSum(requests, q.wallet);
    SettledSums(wallets, requests, q, status, paid, q.wallet);
    assert FrozenOf(after, q.wallet) != PendingSum(settled, q.wallet);
  }

  /** What is paid out is released from the hold too. */
  lemma SettleCovered(wallets: map<Uuid, Wallet>, q: Request, paid: int)
    requires Covered(wallets) && paid <= q.Total()
    ensures Covered(Update(wallets, Delta(q.wallet, -paid, 0, -q.Total())))
  {
  }

  /** Spending takes at most the free total, and its TON part leaves the hold
      covered by TON. */
  lemma SpendFacts(w: Wallet, amount: int)
    requires w.credit >= 0 && amount > 0 && w.HasEnough(amount)
    ensures var s := Split(w, amount);
      && s.0 >= 0 && s.1 >= 0 && s.0 + s.1 == amount && s.0 <= w.credit
      && w.ton + w.credit - amount >= w.frozen
      && (s.1 > 0 ==> w.ton - s.1 >= w.frozen)
  {
  }

  /** The request a decision was taken on is the stored one, but for its status. */
  predicate SameRequest(requests: seq<Request>, op: Op, request: Option<Request>) {
    request.Some? ==>
      var now := RequestOf(requests, op);
      now.Some? && now.value.wallet == request.value.wallet && now.value.Total() == request.value.Total()
  }

  function EndStatus(op: Op): RequestStatus {
    if op.CompleteWithdraw? then Done else Rejected
  }

  /** What a settlement pays out of TON. */
  function PaidOut(op: Op, q: Request): int {
    if op.CompleteWithdraw? then q.Total() else 0
  }

  lemma PlanOpens(db: DB, rows: map<Uuid, Wallet>, op: Op, p: Plan)
    requires FrozenExact(db.wallets, db.requests) && Admissible(db, op) && KeysFree(db, p)
    requires op.CreateWithdraw? && Decide(rows, db.txs, None, op) == Go(p) && rows.Keys <= db.wallets.Keys
    ensures FrozenExact(UpdateAll(db.wallets, p.deltas), ChangeRequests(db.requests, p.change))
  {
    OneUpdate(db.wallets, p);
    OpenKeepsFrozen(db.wallets, db.requests, p.change.request);
  }

  lemma SettlePlan(rows: map<Uuid, Wallet>, txs: seq<Transaction>, request: Request, q: Request, op: Op, p: Plan)
    requires (op.CompleteWithdraw? || op.RejectWithdraw?) && Decide(rows, txs, Some(request), op) == Go(p)
    requires q.wallet == request.wallet && q.Total() == request.Total()
    ensures p.deltas == [Delta(q.wallet, -PaidOut(op, q), 0, -q.Total())]
    ensures p.change == Settle(op.request, EndStatus(op))
  {
  }

  lemma SettlesFrozen(wallets: map<Uuid, Wallet>, requests: seq<Request>, q: Request, op: Op, p: Plan)
    requires FrozenExact(wallets, requests) && FindRequest(requests, q.id) == Some(q) && q.status == Pending
    requires p.deltas == [Delta(q.wallet, -PaidOut(op, q), 0, -q.Total())] && p.change == Settle(q.id, EndStatus(op))
    ensures FrozenExact(UpdateAll(wallets, p.deltas), ChangeRequests(requests, p.change))
  {
    OneUpdate(wallets, p);
    PendingSettles(wallets, requests, q, EndStatus(op), PaidOut(op, q));
  }

  lemma PlanSettles(db: DB, rows: map<Uuid, Wallet>, request: Option<Request>, op: Op, p: Plan)
    requires FrozenExact(db.wallets, db.requests) && Admissible(db, op) && SameRequest(db.requests, op, request)
    requires (op.CompleteWithdraw? || op.RejectWithdraw?) && Decide(rows, db.txs, request, op) == Go(p)
    ensures FrozenExact(UpdateAll(db.wallets, p.deltas), ChangeRequests(db.requests, p.change))
  {
    var q := FindRequest(db.requests, op.request).value;
    SettlePlan(rows, db.txs, request.value, q, op, p);
    SettlesFrozen(db.wallets, db.requests, q, op, p);
  }

  lemma PlanLeavesFrozen(db: DB, rows: map<Uuid, Wallet>, request: Option<Request>, op: Op, p: Plan)
    requires FrozenExact(db.wallets, db.requests) && Decide(rows, db.txs, request, op) == Go(p)
    requires !op.CreateWithdraw? && !op.CompleteWithdraw? && !op.RejectWithdraw?
    ensures FrozenExact(UpdateAll(db.wallets, p.deltas), ChangeRequests(db.requests, p.change))
  {
    if op.Transfer? {
      TwoUpdates(db.wallets, p);
      RowKeepsFrozen(db.wallets, db.requests, p.deltas[0]);
      RowKeepsFrozen(Update(db.wallets, p.deltas[0]), db.requests, p.deltas[1]);
    } else {
      OneUpdate(db.wallets, p);
      RowKeepsFrozen(db.wallets, db.requests, p.deltas[0]);
    }
  }

  /** An admissible decision keeps `frozen` exact, even one taken on rows that
      have changed since. */
  lemma PlanKeepsFrozen(db: DB, rows: map<Uuid, Wallet>, request: Option<Request>, op: Op, p: Plan)
    requires FrozenExact(db.wallets, db.requests) && Admissible(db, op) && KeysFree(db, p)
    requires Decide(rows, db.txs, request, op) == Go(p)
    requires rows.Keys <= db.wallets.Keys && SameRequest(db.requests, op, request)
    ensures FrozenExact(UpdateAll(db.wallets, p.deltas), ChangeRequests(db.requests, p.change))
  {
    if op.CreateWithdraw? {
      PlanOpens(db, rows, op, p);
    } else if op.CompleteWithdraw? || op.RejectWithdraw? {
      PlanSettles(db, rows, request, op, p);
    } else {
      PlanLeavesFrozen(db, rows, request, op, p);
    }
  }

  lemma TransferKeepsCover(db: DB, op: Op, p: Plan)
    requires Covered(db.wallets) && op.Transfer? && Decide(db.wallets, db.txs, None, op) == Go(p)
    ensures Covered(UpdateAll(db.wallets, p.deltas))
  {
    TwoUpdates(db.wallets, p);
    SpendFacts(db.wallets[op.from], op.amount);
  }

  lemma SettlementKeepsCover(db: DB, op: Op, p: Plan)
    requires HoldsExact(db) && (op.CompleteWithdraw? || op.RejectWithdraw?)
    requires Decide(db.wallets, db.txs, RequestOf(db.requests, op), op) == Go(p)
    ensures Covered(UpdateAll(db.wallets, p.deltas))
  {
    var q := FindRequest(db.requests, op.request).value;
    assert q in db.requests;
    OneUpdate(db.wallets, p);
    SettlePlan(db.wallets, db.txs, q, q, op, p);
    SettleCovered(db.wallets, q, PaidOut(op, q));
  }

  lemma OneRowKeepsCover(db: DB, op: Op, p: Plan)
    requires Covered(db.wallets) && Admissible(db, op)
    requires op.Deposit? || op.Deduct? || op.AddCredit? || op.CreateWithdraw?
    requires Decide(db.wallets, db.txs, None, op) == Go(p)
    ensures Covered(UpdateAll(db.wallets, p.deltas))
  {
    OneUpdate(db.wallets, p);
    if op.Deduct? {
      SpendFacts(db.wallets[op.wallet], op.amount);
    }
  }

  /** The amounts a decision moves leave every row covered. */
  lemma PlanKeepsCover(db: DB, op: Op, p: Plan)
    requires HoldsExact(db) && Admissible(db, op)
    requires Decide(db.wallets, db.txs, RequestOf(db.requests, op), op) == Go(p)
    ensures Covered(UpdateAll(db.wallets, p.deltas))
  {
    if op.Transfer? {
      TransferKeepsCover(db, op, p);
    } else if op.CompleteWithdraw? || op.RejectWithdraw? {
      SettlementKeepsCover(db, op, p);
    } else {
      OneRowKeepsCover(db, op, p);
    }
  }

  lemma EffectHolds(h: Hasher, db: DB, op: Op)
    requires HoldsExact(db) && Admissible(db, op)
    ensures HoldsExact(Effect(h, db, op).0)
  {
    var after := Effect(h, db, op).0;
    if Effect(h, db, op).1.Applied? {
      if op.Register? {
        RegisterKeepsFrozen(db.wallets, db.requests, op.wallet);
      } else {
        var p := Decide(db.wallets, db.txs, RequestOf(db.requests, op), op).plan;
        assert after == Commit(h, db, p);
        PlanKeepsFrozen(db, db.wallets, RequestOf(db.requests, op), op, p);
        PlanKeepsCover(db, op, p);
      }
    }
  }

  lemma RegisterKeepsFrozen(wallets: map<Uuid, Wallet>, requests: seq<Request>, w: Uuid)
    requires FrozenExact(wallets, requests)
    ensures w !in wallets ==> FrozenExact(wallets[w := Wallet(0, 0, 0)], requests)
  {
    if w !in wallets {
      forall id: Uuid
        ensures FrozenOf(wallets[w := Wallet(0, 0, 0)], id) == PendingSum(requests, id)
      {
        assert FrozenOf(wallets, id) == PendingSum(requests, id);
      }
    }
  }

  /** A settlement's change of the rows and the requests. */
  predicate SettledTo(db: DB, after: DB, q: Request, op: Op) {
    && after.wallets == Update(db.wallets, Delta(q.wallet, -PaidOut(op, q), 0, -q.Total()))
    && after.requests == SetStatus(db.requests, q.id, EndStatus(op))
    && (op.RejectWithdraw? ==> after.ledger == db.ledger)
  }

  lemma HoldSettled(h: Hasher, db: DB, op: Op)
    requires (op.CompleteWithdraw? || op.RejectWithdraw?) && Effect(h, db, op).1.Applied?
    ensures FindRequest(db.requests, op.request).Some?
    ensures SettledTo(db, Effect(h, db, op).0, FindRequest(db.requests, op.request).value, op)
  {
    var p := Decide(db.wallets, db.txs, FindRequest(db.requests, op.request), op).plan;
    OneUpdate(db.wallets, p);
  }

  lemma PaidIsHeld(wallets: map<Uuid, Wallet>, requests: seq<Request>, q: Request, op: Op)
    requires SoundRequests(wallets, requests) && q in requests
    ensures 0 <= PaidOut(op, q) <= q.Total()
  {
  }

  lemma SettledExact(db: DB, after: DB, q: Request, op: Op)
    requires HoldsExact(db) && (op.CompleteWithdraw? || op.RejectWithdraw?)
    requires FindRequest(db.requests, op.request) == Some(q)
    requires SettledTo(db, after, q, op) && q.status == Pending
    ensures HoldsExact(after)
  {
    PaidIsHeld(db.wallets, db.requests, q, op);
    PendingSettles(db.wallets, db.requests, q, EndStatus(op), PaidOut(op, q));
    SettleCovered(db.wallets, q, PaidOut(op, q));
  }

  lemma SettledWrong(db: DB, after: DB, q: Request, op: Op)
    requires HoldsExact(db) && (op.CompleteWithdraw? || op.RejectWithdraw?)
    requires FindRequest(db.requests, op.request) == Some(q)
    requires SettledTo(db, after, q, op) && q.status != Pending && q.Total() > 0
    ensures !HoldsExact(after)
  {
    SettlingAgainFails(db.wallets, db.requests, q, EndStatus(op), PaidOut(op, q));
  }

  /** The code does not look at a request's status. For a request of positive
      amount, settling keeps the holds exact if and only if it was pending. */
  lemma SettlementIff(h: Hasher, db: DB, op: Op)
    requires HoldsExact(db) && (op.CompleteWithdraw? || op.RejectWithdraw?)
    requires Effect(h, db, op).1.Applied? && FindRequest(db.requests, op.request).value.Total() > 0
    ensures HoldsExact(Effect(h, db, op).0) <==> FindRequest(db.requests, op.request).value.status == Pending
  {
    HoldSettled(h, db, op);
    var q, after := FindRequest(db.requests, op.request).value, Effect(h, db, op).0;
    if q.status == Pending {
      SettledExact(db, after, q, op);
    } else {
      SettledWrong(db, after, q, op);
    }
  }

  // ---- runs ----

  /** Every call of the run is admissible in the state it meets. */
  ghost predicate AdmissibleRun(h: Hasher, ops: seq<Op>) {
    forall i :: 0 <= i < |ops| ==> Admissible(Run(h, EMPTY, ops[..i]), ops[i])
  }

  lemma AdmissiblePrefix(h: Hasher, ops: seq<Op>)
    requires AdmissibleRun(h, ops) && ops != []
    ensures AdmissibleRun(h, ops[..|ops| - 1])
    ensures Admissible(Run(h, EMPTY, ops[..|ops| - 1]), ops[|ops| - 1])
  {
    var init := ops[..|ops| - 1];
    forall i | 0 <= i < |init|
      ensures Admissible(Run(h, EMPTY, init[..i]), init[i])
    {
      assert init[..i] == ops[..i];
    }
  }

  lemma FrozenNonNegative(wallets: map<Uuid, Wallet>, requests: seq<Request>)
    requires FrozenExact(wallets, requests)
    ensures forall w :: w in wallets ==> wallets[w].frozen >= 0
  {
    forall w | w in wallets
      ensures wallets[w].frozen >= 0
    {
      PendingBounds(requests, w);
      assert FrozenOf(wallets, w) == wallets[w].frozen;
    }
  }

  /** In every state of an admissible run `frozen` is the sum of the pending
      requests, credit is not negative and the total covers the holds. */
  lemma {:induction false} RunHolds(h: Hasher, ops: seq<Op>)
    requires AdmissibleRun(h, ops)
    ensures HoldsExact(Run(h, EMPTY, ops))
    ensures forall w :: w in Run(h, EMPTY, ops).wallets ==> Run(h, EMPTY, ops).wallets[w].frozen >= 0
  {
    if ops != [] {
      AdmissiblePrefix(h, ops);
      RunHolds(h, ops[..|ops| - 1]);
      EffectHolds(h, Run(h, EMPTY, ops[..|ops| - 1]), ops[|ops| - 1]);
    }
    FrozenNonNegative(Run(h, EMPTY, ops).wallets, Run(h, EMPTY, ops).requests);
  }

  // ---- create, then settle ----

  /** The request a new hold is stored under. */
  function HoldOf(op: Op): Request
    requires op.CreateWithdraw?
  {
    Request(op.request, op.wallet, op.amount, op.fee, Pending)
  }

  /** A new hold's change of the rows and the requests. */
  predicate OpenedTo(db: DB, after: DB, q: Request) {
    && q.wallet in db.wallets && after.ledger == db.ledger
    && after.wallets == Update(db.wallets, Delta(q.wallet, 0, 0, q.Total()))
    && FindRequest(after.requests, q.id) == Some(q)
  }

  lemma HoldOpened(h: Hasher, db: DB, after: DB, op: Op)
    requires op.CreateWithdraw? && Effect(h, db, op) == (after, Applied)
    ensures OpenedTo(db, after, HoldOf(op))
  {
    var p := Decide(db.wallets, db.txs, None, op).plan;
    OneUpdate(db.wallets, p);
    FindAppended(db.requests, p.change.request);
  }

  /** Settling a hold that has just been placed. */
  lemma HoldEnds(db: DB, mid: DB, after: DB, q: Request, settle: Op)
    requires OpenedTo(db, mid, q) && SettledTo(mid, after, q, settle)
    requires settle.CompleteWithdraw? || settle.RejectWithdraw?
    ensures var w := db.wallets[q.wallet];
      && (settle.RejectWithdraw? ==> after.wallets == db.wallets && after.ledger == db.ledger)
      && (settle.CompleteWithdraw? ==> after.wallets == db.wallets[q.wallet := w.(ton := w.ton - q.Total())])
  {
    HoldUndone(db.wallets, q.wallet, q.Total(), PaidOut(settle, q));
  }

  lemma SettledRequest(h: Hasher, mid: DB, after: DB, q: Request, settle: Op)
    requires (settle.CompleteWithdraw? || settle.RejectWithdraw?) && Effect(h, mid, settle) == (after, Applied)
    requires FindRequest(mid.requests, settle.request) == Some(q)
    ensures SettledTo(mid, after, q, settle)
  {
    HoldSettled(h, mid, settle);
  }

  /** What a hold that has been settled has changed. */
  predicate HoldClosed(db: DB, after: DB, q: Request, settle: Op) {
    && q.wallet in db.wallets
    && var w := db.wallets[q.wallet];
      && (settle.RejectWithdraw? ==> after.wallets == db.wallets && after.ledger == db.ledger)
      && (settle.CompleteWithdraw? ==> after.wallets == db.wallets[q.wallet := w.(ton := w.ton - (q.amount + q.fee))])
  }

  lemma HoldCloses(h: Hasher, db: DB, mid: DB, after: DB, q: Request, settle: Op)
    requires OpenedTo(db, mid, q) && (settle.CompleteWithdraw? || settle.RejectWithdraw?) && settle.request == q.id
    requires Effect(h, mid, settle) == (after, Applied)
    ensures HoldClosed(db, after, q, settle)
  {
    SettledRequest(h, mid, after, q, settle);
    HoldEnds(db, mid, after, q, settle);
  }

  /** A rejected withdrawal leaves the wallet rows as they were; a completed one
      lowers the TON balance by amount and fee and nothing else. */
  lemma HoldRoundTrip(h: Hasher, db: DB, mid: DB, after: DB, create: Op, settle: Op)
    requires create.CreateWithdraw? && Effect(h, db, create) == (mid, Applied)
    requires (settle.CompleteWithdraw? || settle.RejectWithdraw?) && settle.request == create.request
    requires Effect(h, mid, settle) == (after, Applied)
    ensures HoldClosed(db, after, HoldOf(create), settle)
  {
    HoldOpened(h, db, mid, create);
    HoldCloses(h, db, mid, after, HoldOf(create), settle);
  }

  lemma HoldUndone(wallets: map<Uuid, Wallet>, id: Uuid, held: int, paid: int)
    requires id in wallets
    ensures Update(Update(wallets, Delta(id, 0, 0, held)), Delta(id, -paid, 0, -held)) ==
      wallets[id := wallets[id].(ton := wallets[id].ton - paid)]
  {
  }

  // ---- TON cover ----

  /** Each hold is covered by TON alone. */
  predicate TonCovers(wallets: map<Uuid, Wallet>) {
    forall w :: w in wallets ==> wallets[w].frozen <= wallets[w].ton
  }

  /** A hold no larger than the free TON of its wallet. */
  predicate HoldFitsTon(db: DB, op: Op) {
    op.CreateWithdraw? && op.wallet in db.wallets ==>
      op.amount + op.fee <= db.wallets[op.wallet].ton - db.wallets[op.wallet].frozen
  }

  /** Credit-first spending, settlements and everything else keep holds covered
      by TON; a new hold does if and only if it fits the free TON. */
  lemma CoverIff(h: Hasher, db: DB, op: Op)
    requires HoldsExact(db) && TonCovers(db.wallets) && Admissible(db, op)
    requires Effect(h, db, op).1.Applied?
    ensures TonCovers(Effect(h, db, op).0.wallets) <==> HoldFitsTon(db, op)
  {
    if !op.Register? {
      var p := Decide(db.wallets, db.txs, RequestOf(db.requests, op), op).plan;
      assert Effect(h, db, op).0.wallets == UpdateAll(db.wallets, p.deltas);
      CoverPlan(db, op, p);
    }
  }

  lemma CoverPlan(db: DB, op: Op, p: Plan)
    requires HoldsExact(db) && TonCovers(db.wallets) && Admissible(db, op)
    requires Decide(db.wallets, db.txs, RequestOf(db.requests, op), op) == Go(p)
    ensures TonCovers(UpdateAll(db.wallets, p.deltas)) <==> HoldFitsTon(db, op)
  {
    var after := UpdateAll(db.wallets, p.deltas);
    match op {
      case Deposit(_, _, _, _, _) => OneUpdate(db.wallets, p);
      case Deduct(_, w, amount, _, _) =>
        OneUpdate(db.wallets, p);
        SpendFacts(db.wallets[w], amount);
      case AddCredit(_, _, _, _, _) => OneUpdate(db.wallets, p);
      case Transfer(_, _, from, _, amount) =>
        TwoUpdates(db.wallets, p);
        SpendFacts(db.wallets[from], amount);
      case CreateWithdraw(_, w, _, _) =>
        OneUpdate(db.wallets, p);
        assert after[w].frozen == db.wallets[w].frozen + op.amount + op.fee;
      case CompleteWithdraw(_, _, _) => OneUpdate(db.wallets, p);
      case RejectWithdraw(_, _) => OneUpdate(db.wallets, p);
    }
  }

  ghost predicate HoldsFit(h: Hasher, ops: seq<Op>) {
    forall i :: 0 <= i < |ops| ==> HoldFitsTon(Run(h, EMPTY, ops[..i]), ops[i])
  }

  lemma FittingPrefix(h: Hasher, ops: seq<Op>)
    requires HoldsFit(h, ops) && ops != []
    ensures HoldsFit(h, ops[..|ops| - 1]) && HoldFitsTon(Run(h, EMPTY, ops[..|ops| - 1]), ops[|ops| - 1])
  {
    var init := ops[..|ops| - 1];
    forall i | 0 <= i < |init|
      ensures HoldFitsTon(Run(h, EMPTY, init[..i]), init[i])
    {
      assert init[..i] == ops[..i];
    }
  }

  lemma {:induction false} RunCovers(h: Hasher, ops: seq<Op>)
    requires AdmissibleRun(h, ops) && HoldsFit(h, ops)
    ensures TonCovers(Run(h, EMPTY, ops).wallets)
  {
    if ops != [] {
      var init, op := ops[..|ops| - 1], ops[|ops| - 1];
      AdmissiblePrefix(h, ops);
      FittingPrefix(h, ops);
      RunCovers(h, init);
      RunHolds(h, init);
      CallKeepsCover(h, Run(h, EMPTY, init), op);
    }
  }

  lemma CallKeepsCover(h: Hasher, db: DB, op: Op)
    requires HoldsExact(db) && TonCovers(db.wallets) && Admissible(db, op) && HoldFitsTon(db, op)
    ensures TonCovers(Apply(h, db, op).0.wallets)
  {
    if Effect(h, db, op).1.Applied? {
      CoverIff(h, db, op);
    }
  }

  /** On runs whose holds fit the free TON, no TON balance is ever negative, so
      no completed withdrawal overdraws it. */
  lemma TonNeverNegative(h: Hasher, ops: seq<Op>)
    requires AdmissibleRun(h, ops) && HoldsFit(h, ops)
    ensures var wallets := Run(h, EMPTY, ops).wallets;
      TonCovers(wallets) && forall w :: w in wallets ==> wallets[w].ton >= 0
  {
    RunCovers(h, ops);
    RunHolds(h, ops);
  }

  lemma RunStep(h: Hasher, ops: seq<Op>, op: Op)
    ensures Run(h, EMPTY, ops + [op]) == Apply(h, Run(h, EMPTY, ops), op).0
    ensures AdmissibleRun(h, ops) && Admissible(Run(h, EMPTY, ops), op) ==> AdmissibleRun(h, ops + [op])
  {
    var all := ops + [op];
    assert all[..|all| - 1] == ops;
    forall i | 0 <= i < |ops| && AdmissibleRun(h, ops)
      ensures Admissible(Run(h, EMPTY, all[..i]), all[i])
    {
      assert all[..i] == ops[..i];
    }
  }

  lemma FirstRow(db: DB, p: Plan)
    requires |p.rows| == 1 && !p.change.Open? && FreshId(db.txs, p.rows[0].id)
    ensures KeysFree(db, p)
  {
    assert db.txs + p.rows[..0] == db.txs;
  }

  /** The state in which credit is held for a withdrawal. */
  predicate CreditHeld(db: DB, w: Uuid, a: Uuid, q: Uuid) {
    && db.wallets == map[w := Wallet(0, 100, 100)]
    && (forall t :: t in db.txs ==> t.id == a)
    && db.requests == [Request(q, w, 90, 10, Pending)]
  }

  lemma CreditApplies(h: Hasher, db: DB, op: Op)
    requires op.AddCredit? && op.amount > 0 && op.service != "" && op.ref != ""
    requires db.txs == [] && op.wallet in db.wallets
    ensures var after := Apply(h, db, op).0;
      && after.wallets == Update(db.wallets, Delta(op.wallet, 0, op.amount, 0)) && after.requests == db.requests
      && forall t :: t in after.txs ==> t.id == op.tx
  {
    var p := Decide(db.wallets, db.txs, None, op).plan;
    FirstRow(db, p);
    OneUpdate(db.wallets, p);
  }

  lemma FirstCredit(h: Hasher, op: Op) returns (ops: seq<Op>)
    requires op.AddCredit? && op.amount > 0 && op.service != "" && op.ref != ""
    ensures AdmissibleRun(h, ops)
    ensures var db := Run(h, EMPTY, ops);
      && db.wallets == map[op.wallet := Wallet(0, op.amount, 0)]
      && db.requests == [] && forall t :: t in db.txs ==> t.id == op.tx
  {
    var register := Register(op.wallet);
    RunStep(h, [], register);
    var db := Run(h, EMPTY, [] + [register]);
    assert db == DB(map[op.wallet := Wallet(0, 0, 0)], [], [], []);
    CreditApplies(h, db, op);
    RunStep(h, [] + [register], op);
    ops := [] + [register] + [op];
  }

  lemma OpensCredit(h: Hasher, db: DB, w: Uuid, a: Uuid, q: Uuid)
    requires db.wallets == map[w := Wallet(0, 100, 0)] && db.requests == [] && forall t :: t in db.txs ==> t.id == a
    ensures CreditHeld(Apply(h, db, CreateWithdraw(q, w, 90, 10)).0, w, a, q)
  {
    var p := Decide(db.wallets, db.txs, None, CreateWithdraw(q, w, 90, 10)).plan;
    OneUpdate(db.wallets, p);
  }

  lemma HoldCredit(h: Hasher, w: Uuid, a: Uuid, q: Uuid) returns (ops: seq<Op>)
    ensures AdmissibleRun(h, ops) && CreditHeld(Run(h, EMPTY, ops), w, a, q)
  {
    var before := FirstCredit(h, AddCredit(a, w, 100, "admin", "gift"));
    OpensCredit(h, Run(h, EMPTY, before), w, a, q);
    RunStep(h, before, CreateWithdraw(q, w, 90, 10));
    ops := before + [CreateWithdraw(q, w, 90, 10)];
  }

  lemma HeldPaidOut(h: Hasher, db: DB, w: Uuid, a: Uuid, op: Op)
    requires op.CompleteWithdraw? && CreditHeld(db, w, a, op.request) && a != op.tx
    ensures Admissible(db, op)
    ensures Apply(h, db, op).0.wallets == map[w := Wallet(-100, 100, 0)]
  {
    assert FindRequest(db.requests, op.request) == Some(Request(op.request, w, 90, 10, Pending));
    var p := Decide(db.wallets, db.txs, FindRequest(db.requests, op.request), op).plan;
    FirstRow(db, p);
    OneUpdate(db.wallets, p);
    assert Apply(h, db, op).0 == Commit(h, db, p);
  }

  /** Without that condition it does happen: credit can be held and then paid
      out of TON that was never there. */
  lemma CreditPaidOutAsTon(h: Hasher, w: Uuid, a: Uuid, b: Uuid, q: Uuid)
    requires a != b
    ensures exists ops :: AdmissibleRun(h, ops) && Run(h, EMPTY, ops).wallets == map[w := Wallet(-100, 100, 0)]
  {
    var ops := HoldCredit(h, w, a, q);
    var op := CompleteWithdraw(b, q, "tx");
    HeldPaidOut(h, Run(h, EMPTY, ops), w, a, op);
    RunStep(h, ops, op);
    assert AdmissibleRun(h, ops + [op]);
  }

  // ---- a request settled twice ----

  /** The state in which TON is held for a withdrawal. */
  predicate TonHeld(db: DB, w: Uuid, a: Uuid, q: Uuid) {
    && db.wallets == map[w := Wallet(100, 0, 60)]
    && (forall t :: t in db.txs ==> t.id == a)
    && db.requests == [Request(q, w, 50, 10, Pending)]
  }

  lemma DepositApplies(h: Hasher, db: DB, op: Op)
    requires op.Deposit? && op.wallet in db.wallets && FreshId(db.txs, op.tx)
    ensures Effect(h, db, op).1.Applied?
    ensures var after := Effect(h, db, op).0;
      && after.wallets == Update(db.wallets, Delta(op.wallet, op.amount, 0, 0)) && after.requests == db.requests
      && after.txs == db.txs + [Transaction(op.tx, op.wallet, TxDeposit, op.amount, "", op.ref, OnChain(op.hash))]
  {
    var p := Decide(db.wallets, db.txs, None, op).plan;
    FirstRow(db, p);
    OneUpdate(db.wallets, p);
  }

  lemma FirstDeposit(h: Hasher, op: Op) returns (ops: seq<Op>)
    requires op.Deposit? && op.amount > 0
    ensures AdmissibleRun(h, ops)
    ensures var db := Run(h, EMPTY, ops);
      && op.wallet in db.wallets && db.wallets == map[op.wallet := db.wallets[op.wallet]]
      && db.wallets[op.wallet] == Wallet(op.amount, 0, 0)
      && db.requests == [] && forall t :: t in db.txs ==> t.id == op.tx
  {
    var register := Register(op.wallet);
    RunStep(h, [], register);
    var db := Run(h, EMPTY, [] + [register]);
    assert db == DB(map[op.wallet := Wallet(0, 0, 0)], [], [], []);
    DepositApplies(h, db, op);
    RunStep(h, [] + [register], op);
    ops := [] + [register] + [op];
  }

  lemma OpensTon(h: Hasher, db: DB, w: Uuid, a: Uuid, q: Uuid)
    requires db.wallets == map[w := Wallet(100, 0, 0)] && db.requests == [] && forall t :: t in db.txs ==> t.id == a
    ensures TonHeld(Apply(h, db, CreateWithdraw(q, w, 50, 10)).0, w, a, q)
  {
    var p := Decide(db.wallets, db.txs, None, CreateWithdraw(q, w, 50, 10)).plan;
    OneUpdate(db.wallets, p);
  }

  lemma HoldTon(h: Hasher, w: Uuid, a: Uuid, q: Uuid) returns (ops: seq<Op>)
    ensures AdmissibleRun(h, ops) && TonHeld(Run(h, EMPTY, ops), w, a, q)
  {
    var before := FirstDeposit(h, Deposit(a, w, 100, "", ""));
    OpensTon(h, Run(h, EMPTY, before), w, a, q);
    RunStep(h, before, CreateWithdraw(q, w, 50, 10));
    ops := before + [CreateWithdraw(q, w, 50, 10)];
  }

  /** Completing looks at the request's amounts and never at its status. */
  lemma Completes(h: Hasher, db: DB, op: Op, q: Request)
    requires op.CompleteWithdraw? && db.requests == [q] && q.id == op.request && q.wallet in db.wallets
    requires FreshId(db.txs, op.tx)
    ensures Effect(h, db, op).1.Applied? && Apply(h, db, op) == Effect(h, db, op)
    ensures var after := Effect(h, db, op).0;
      && after.wallets == Update(db.wallets, Delta(q.wallet, -q.Total(), 0, -q.Total()))
      && after.requests == [q.(status := Done)]
      && |after.txs| == |db.txs| + 1 && after.txs[..|db.txs|] == db.txs && after.txs[|db.txs|].id == op.tx
  {
    assert FindRequest(db.requests, op.request) == Some(q);
    var p := Decide(db.wallets, db.txs, Some(q), op).plan;
    FirstRow(db, p);
    OneUpdate(db.wallets, p);
    assert SetStatus([q], q.id, Done) == [q.(status := Done)];
  }

  /** The state in which it has been completed. */
  predicate TonPaid(db: DB, w: Uuid, a: Uuid, b: Uuid, q: Uuid) {
    && db.wallets == map[w := Wallet(40, 0, 0)]
    && (forall t :: t in db.txs ==> t.id == a || t.id == b)
    && db.requests == [Request(q, w, 50, 10, Done)]
  }

  lemma PaysTon(h: Hasher, db: DB, w: Uuid, a: Uuid, b: Uuid, q: Uuid)
    requires TonHeld(db, w, a, q) && a != b
    ensures Admissible(db, CompleteWithdraw(b, q, "x"))
    ensures TonPaid(Apply(h, db, CompleteWithdraw(b, q, "x")).0, w, a, b, q)
  {
    Completes(h, db, CompleteWithdraw(b, q, "x"), Request(q, w, 50, 10, Pending));
    var txs := Apply(h, db, CompleteWithdraw(b, q, "x")).0.txs;
    assert txs == db.txs + [txs[|db.txs|]];
  }

  lemma PayTon(h: Hasher, w: Uuid, a: Uuid, b: Uuid, q: Uuid) returns (ops: seq<Op>)
    requires a != b
    ensures AdmissibleRun(h, ops) && TonPaid(Run(h, EMPTY, ops), w, a, b, q)
  {
    var held := HoldTon(h, w, a, q);
    PaysTon(h, Run(h, EMPTY, held), w, a, b, q);
    RunStep(h, held, CompleteWithdraw(b, q, "x"));
    ops := held + [CompleteWithdraw(b, q, "x")];
  }

  lemma PaysAgain(h: Hasher, db: DB, w: Uuid, a: Uuid, b: Uuid, c: Uuid, q: Uuid)
    requires TonPaid(db, w, a, b, q) && a != c && b != c && HoldsExact(db)
    ensures FindRequest(db.requests, q) == Some(Request(q, w, 50, 10, Done))
    ensures var (after, outcome) := Apply(h, db, CompleteWithdraw(c, q, "y"));
      outcome.Applied? && after.wallets == map[w := Wallet(-20, 0, -60)] && !HoldsExact(after)
  {
    Completes(h, db, CompleteWithdraw(c, q, "y"), Request(q, w, 50, 10, Done));
    assert FindRequest(db.requests, q) == Some(Request(q, w, 50, 10, Done));
    SettlementIff(h, db, CompleteWithdraw(c, q, "y"));
  }

  /** It happens: a completed request is completed again, the second payment
      comes out of TON that is not there, and the hold goes below zero. */
  lemma SettledTwice(h: Hasher, w: Uuid, a: Uuid, b: Uuid, c: Uuid, q: Uuid) returns (ops: seq<Op>, again: Op)
    requires a != b && a != c && b != c
    ensures AdmissibleRun(h, ops) && FindRequest(Run(h, EMPTY, ops).requests, q) == Some(Request(q, w, 50, 10, Done))
    ensures again.CompleteWithdraw? && again.request == q && Apply(h, Run(h, EMPTY, ops), again).1.Applied?
    ensures var after := Apply(h, Run(h, EMPTY, ops), again).0;
      after.wallets == map[w := Wallet(-20, 0, -60)] && !HoldsExact(after)
  {
    ops := PayTon(h, w, a, b, q);
    RunHolds(h, ops);
    PaysAgain(h, Run(h, EMPTY, ops), w, a, b, c, q);
    again := CompleteWithdraw(c, q, "y");
  }
}
