/** From a claimed earning to the wallets: the revenue service's credit requests
    may be delivered any number of times, in any order, among everything else
    the wallet store does. */
module EarningCredits {
  import opened Records
  import opened HashChain
  import opened Operations
  import opened Replay
  import opened Revenue
  import opened RevenueRuns
  import S = Schedules
  import I = Interleaving

  /** The reference a share is credited under. */
  function RefText(id: Uuid, role: Role): string {
    "earning:" + id + if role.ToOwner? then ":owner" else ":platform"
  }

  lemma RefTextInjective(a: Uuid, r: Role, b: Uuid, s: Role)
    requires RefText(a, r) == RefText(b, s)
    ensures a == b && r == s
  {
    assert RefText(a, r)[8..44] == a && RefText(b, s)[8..44] == b;
    assert |RefText(a, r)| == 44 + if r.ToOwner? then 6 else 9;
    assert |RefText(b, s)| == 44 + if s.ToOwner? then 6 else 9;
  }

  /** The call that delivers a request under the service's name. */
  predicate DeliveredBy(op: Op, o: Payout, service: string, walletOf: int -> Uuid) {
    && op.AddCredit? && op.service == service && op.ref == RefText(o.earning, o.role)
    && op.wallet == walletOf(o.to) && op.amount == o.amount
  }

  /** Every credit under the service's name delivers one of the requests. */
  predicate Deliveries(ops: seq<Op>, issued: seq<Payout>, service: string, walletOf: int -> Uuid) {
    forall i :: 0 <= i < |ops| && ops[i].AddCredit? && ops[i].service == service ==>
      exists k :: 0 <= k < |issued| && DeliveredBy(ops[i], issued[k], service, walletOf)
  }

  predicate CreditRow(t: Transaction, service: string, ref: string) {
    t.kind.TxCreditAdd? && t.service == service && t.ref == ref
  }

  function RefSum(txs: seq<Transaction>, service: string, ref: string): int {
    if txs == [] then 0
    else
      var t := txs[|txs| - 1];
      RefSum(txs[..|txs| - 1], service, ref) + if CreditRow(t, service, ref) then t.amount else 0
  }

  /** What the wallets have been credited for one earning. */
  function CreditedFor(txs: seq<Transaction>, service: string, id: Uuid): int {
    RefSum(txs, service, RefText(id, ToOwner)) + RefSum(txs, service, RefText(id, ToPlatform))
  }

  predicate RowOf(t: Transaction, op: Op) {
    op.AddCredit? && t.wallet == op.wallet && t.service == op.service && t.ref == op.ref && t.amount == op.amount
  }

  /** Every credit row comes from one of the calls. */
  ghost predicate RowsHaveCalls(txs: seq<Transaction>, ops: seq<Op>) {
    forall t :: t in txs && t.kind.TxCreditAdd? ==> exists op :: op in ops && RowOf(t, op)
  }

  lemma NewCreditRow(h: Hasher, db: DB, op: Op)
    ensures var after := Effect(h, db, op).0;
      db.txs <= after.txs && forall t :: t in after.txs && t.kind.TxCreditAdd? ==> t in db.txs || RowOf(t, op)
  {
  }

  lemma EffectHasCall(h: Hasher, db: DB, ops: seq<Op>, op: Op)
    requires RowsHaveCalls(db.txs, ops)
    ensures RowsHaveCalls(Effect(h, db, op).0.txs, ops + [op])
  {
    var all := ops + [op];
    NewCreditRow(h, db, op);
    assert all[|ops|] == op;
    forall t | t in Effect(h, db, op).0.txs && t.kind.TxCreditAdd?
      ensures exists o :: o in all && RowOf(t, o)
    {
      if t in db.txs {
        var o :| o in ops && RowOf(t, o);
        assert o in all;
      }
    }
  }

  lemma MoreCalls(txs: seq<Transaction>, ops: seq<Op>, op: Op)
    requires RowsHaveCalls(txs, ops)
    ensures RowsHaveCalls(txs, ops + [op])
  {
    forall t | t in txs && t.kind.TxCreditAdd?
      ensures exists o :: o in ops + [op] && RowOf(t, o)
    {
      var o :| o in ops && RowOf(t, o);
      assert o in ops + [op];
    }
  }

  lemma {:induction false} RunHasCalls(h: Hasher, ops: seq<Op>)
    ensures RowsHaveCalls(Run(h, EMPTY, ops).txs, ops)
  {
    if ops != [] {
      var init, op := ops[..|ops| - 1], ops[|ops| - 1];
      RunHasCalls(h, init);
      EffectHasCall(h, Run(h, EMPTY, init), init, op);
      MoreCalls(Run(h, EMPTY, init).txs, init, op);
      assert ops == init + [op];
    }
  }

  lemma {:induction false} ScheduleHasCalls(h: Hasher, honoured: bool, schedule: seq<I.Step>)
    ensures var s := I.Play(h, honoured, I.START, schedule); RowsHaveCalls(s.db.txs, s.log)
  {
    if schedule != [] {
      var init, step := schedule[..|schedule| - 1], schedule[|schedule| - 1];
      var s := I.Play(h, honoured, I.START, init);
      ScheduleHasCalls(h, honoured, init);
      I.EveryScheduleAgrees(h, honoured, init);
      S.CommitLogged(h, honoured, s, step);
      if S.Commits(s, step).Some? {
        var op := S.Commits(s, step).value;
        if I.LocksOnRead(honoured, op) {
          S.CommitIsEffect(h, honoured, s, step);
          EffectHasCall(h, s.db, s.log, op);
        } else {
          S.LooseHold(h, honoured, s, step);
          MoreCalls(s.db.txs, s.log, op);
        }
      }
    }
  }

  lemma {:induction false} NoRows(txs: seq<Transaction>, service: string, ref: string)
    requires forall i :: 0 <= i < |txs| ==> !CreditRow(txs[i], service, ref)
    ensures RefSum(txs, service, ref) == 0
  {
    if txs != [] {
      NoRows(txs[..|txs| - 1], service, ref);
    }
  }

  lemma {:induction false} OneRowAtMost(txs: seq<Transaction>, service: string, ref: string, wallet: Uuid, amount: int)
    requires amount >= 0 && BookedOnce(txs, ByRef(wallet, service, ref, TxCreditAdd))
    requires forall i :: 0 <= i < |txs| && CreditRow(txs[i], service, ref) ==>
      txs[i].wallet == wallet && txs[i].amount == amount
    ensures 0 <= RefSum(txs, service, ref) <= amount
  {
    if txs != [] {
      var init, t := txs[..|txs| - 1], txs[|txs| - 1];
      if CreditRow(t, service, ref) {
        var key := ByRef(wallet, service, ref, TxCreditAdd);
        assert Books(txs[|init|], key);
        assert forall i :: 0 <= i < |init| ==> !Books(txs[i], key);
        NoRows(init, service, ref);
      } else {
        OneRowAtMost(init, service, ref, wallet, amount);
      }
    }
  }

  /** Each reference of each wallet is credited by at most one row. */
  ghost predicate CreditsBookedOnce(txs: seq<Transaction>) {
    forall wallet: Uuid, service, ref :: ref != "" ==> BookedOnce(txs, ByRef(wallet, service, ref, TxCreditAdd))
  }

  /** What the calls have left: their rows, each reference once. */
  ghost predicate Delivered(txs: seq<Transaction>, ops: seq<Op>, issued: seq<Payout>, service: string,
                            walletOf: int -> Uuid) {
    RowsHaveCalls(txs, ops) && CreditsBookedOnce(txs) && Deliveries(ops, issued, service, walletOf)
  }

  /** The request behind a credit row of the service. */
  lemma RowRequest(txs: seq<Transaction>, ops: seq<Op>, issued: seq<Payout>, service: string, walletOf: int -> Uuid,
                   id: Uuid, role: Role, i: nat)
    returns (k: nat)
    requires Delivered(txs, ops, issued, service, walletOf)
    requires i < |txs| && CreditRow(txs[i], service, RefText(id, role))
    ensures k < |issued| && issued[k].earning == id && issued[k].role == role
    ensures txs[i].wallet == walletOf(issued[k].to) && txs[i].amount == issued[k].amount
  {
    assert txs[i] in txs;
    var op :| op in ops && RowOf(txs[i], op);
    var j :| 0 <= j < |ops| && ops[j] == op;
    k :| 0 <= k < |issued| && DeliveredBy(ops[j], issued[k], service, walletOf);
    RefTextInjective(id, role, issued[k].earning, issued[k].role);
  }

  /** One share is credited at most once, whoever repeats its request. */
  lemma ShareCreditedOnce(txs: seq<Transaction>, ops: seq<Op>, w: World, service: string, walletOf: int -> Uuid,
                          id: Uuid, role: Role)
    requires RevenueRuns.Inv(w) && Delivered(txs, ops, w.issued, service, walletOf) && id in w.shares
    ensures var credited := RefSum(txs, service, RefText(id, role));
      0 <= credited <= if role.ToOwner? then w.shares[id] else w.earnings[id].total - w.shares[id]
  {
    var ref := RefText(id, role);
    assert EarningOk(w, id, w.earnings[id]);
    if n: nat :| n < |txs| && CreditRow(txs[n], service, ref) {
      var k := RowRequest(txs, ops, w.issued, service, walletOf, id, role, n);
      var o := w.issued[k];
      assert PayoutOk(w, o);
      forall i | 0 <= i < |txs| && CreditRow(txs[i], service, ref)
        ensures txs[i].wallet == walletOf(o.to) && txs[i].amount == o.amount
      {
        var j := RowRequest(txs, ops, w.issued, service, walletOf, id, role, i);
        assert j == k;
      }
      assert ref[0] == 'e';
      OneRowAtMost(txs, service, ref, walletOf(o.to), o.amount);
    } else {
      NoRows(txs, service, ref);
    }
  }

  lemma Unclaimed(txs: seq<Transaction>, ops: seq<Op>, w: World, service: string, walletOf: int -> Uuid, id: Uuid,
                  role: Role)
    requires RevenueRuns.Inv(w) && Delivered(txs, ops, w.issued, service, walletOf) && id !in w.shares
    ensures RefSum(txs, service, RefText(id, role)) == 0
  {
    forall k | 0 <= k < |w.issued|
      ensures w.issued[k].earning != id
    {
      assert PayoutOk(w, w.issued[k]);
    }
    forall i | 0 <= i < |txs|
      ensures !CreditRow(txs[i], service, RefText(id, role))
    {
      if CreditRow(txs[i], service, RefText(id, role)) {
        var k := RowRequest(txs, ops, w.issued, service, walletOf, id, role, i);
      }
    }
    NoRows(txs, service, RefText(id, role));
  }

  predicate CreditedRight(w: World, txs: seq<Transaction>, service: string, id: Uuid)
    requires id in w.earnings
  {
    var credited := CreditedFor(txs, service, id);
    if id in w.claims then 0 <= credited <= w.earnings[id].total else credited == 0
  }

  lemma DeliveredRight(w: World, txs: seq<Transaction>, ops: seq<Op>, service: string, walletOf: int -> Uuid, id: Uuid)
    requires RevenueRuns.Inv(w) && Delivered(txs, ops, w.issued, service, walletOf) && id in w.earnings
    ensures CreditedRight(w, txs, service, id)
  {
    assert EarningOk(w, id, w.earnings[id]);
    if id in w.shares {
      ShareCreditedOnce(txs, ops, w, service, walletOf, id, ToOwner);
      ShareCreditedOnce(txs, ops, w, service, walletOf, id, ToPlatform);
    } else {
      Unclaimed(txs, ops, w, service, walletOf, id, ToOwner);
      Unclaimed(txs, ops, w, service, walletOf, id, ToPlatform);
    }
  }

  /** However many processors work on an earning, wherever they stop, however
      often their requests are delivered, and whatever the wallet store's
      operations overlap: the wallets are credited for the earning between
      nothing and its total. */
  lemma CreditedAtMostTotal(h: Hasher, honoured: bool, calls: seq<I.Step>, exclusive: string -> bool,
                            schedule: seq<Step>, service: string, walletOf: int -> Uuid, id: Uuid)
    requires var w, s := Play(exclusive, NOTHING, schedule), I.Play(h, honoured, I.START, calls);
      Deliveries(s.log, w.issued, service, walletOf) && id in w.earnings
    ensures CreditedRight(Play(exclusive, NOTHING, schedule), I.Play(h, honoured, I.START, calls).db.txs, service, id)
  {
    var w, s := Play(exclusive, NOTHING, schedule), I.Play(h, honoured, I.START, calls);
    RevenueRuns.PlayKeepsInv(exclusive, schedule);
    ScheduleHasCalls(h, honoured, calls);
    forall wallet: Uuid, service, ref | ref != ""
      ensures BookedOnce(s.db.txs, ByRef(wallet, service, ref, TxCreditAdd))
    {
      S.EveryScheduleCreditsOnce(h, honoured, calls, ByRef(wallet, service, ref, TxCreditAdd));
    }
    DeliveredRight(w, s.db.txs, s.log, service, walletOf, id);
  }

  /** The same for calls that come one after another, whether or not they are
      applied. */
  lemma CreditedBySerialCalls(h: Hasher, ops: seq<Op>, exclusive: string -> bool, schedule: seq<Step>,
                              service: string, walletOf: int -> Uuid, id: Uuid)
    requires var w := Play(exclusive, NOTHING, schedule);
      Deliveries(ops, w.issued, service, walletOf) && id in w.earnings
    ensures CreditedRight(Play(exclusive, NOTHING, schedule), Run(h, EMPTY, ops).txs, service, id)
  {
    var w, txs := Play(exclusive, NOTHING, schedule), Run(h, EMPTY, ops).txs;
    RevenueRuns.PlayKeepsInv(exclusive, schedule);
    RunHasCalls(h, ops);
    forall wallet: Uuid, service, ref | ref != ""
      ensures BookedOnce(txs, ByRef(wallet, service, ref, TxCreditAdd))
    {
      RunBooksOnce(h, ops, ByRef(wallet, service, ref, TxCreditAdd));
    }
    DeliveredRight(w, txs, ops, service, walletOf, id);
  }
}
