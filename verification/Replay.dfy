/** Re-delivered calls: a keyed call that has been applied once changes nothing
    ever after. */
module Replay {
  import opened Records
  import opened HashChain
  import opened Operations

  lemma {:induction false} FindStays(txs: seq<Transaction>, more: seq<Transaction>, key: Key)
    requires FindTx(txs, key).Some?
    ensures FindTx(txs + more, key) == FindTx(txs, key)
  {
    assert (txs + more)[0] == txs[0] && (txs + more)[1..] == txs[1..] + more;
    if !Matches(txs[0], key) {
      FindStays(txs[1..], more, key);
    }
  }

  /** Transactions are only ever appended. */
  lemma TxsGrow(h: Hasher, db: DB, op: Op)
    ensures db.txs <= Apply(h, db, op).0.txs
  {
  }

  /** The row an applied keyed call writes carries its key. */
  lemma AppliedLeavesKey(h: Hasher, db: DB, op: Op)
    requires Effect(h, db, op).1.Applied? && KeyOf(op).Some?
    ensures FindTx(Effect(h, db, op).0.txs, KeyOf(op).value).Some?
    ensures Apply(h, db, op).1.Applied? ==> FindTx(Apply(h, db, op).0.txs, KeyOf(op).value).Some?
  {
    var p := Decide(db.wallets, db.txs, None, op).plan;
    var txs := Effect(h, db, op).0.txs;
    assert txs == db.txs + p.rows && |p.rows| == 1;
    assert txs[|db.txs|] == p.rows[0] && Matches(p.rows[0], KeyOf(op).value);
    assert txs[|db.txs|] in txs;
  }

  /** A call whose key is on record changes nothing, and is never applied. */
  lemma KnownKeyIsNoOp(h: Hasher, db: DB, op: Op)
    requires KeyOf(op).Some? && FindTx(db.txs, KeyOf(op).value).Some?
    ensures Apply(h, db, op).0 == db && !Apply(h, db, op).1.Applied?
    ensures op.Deposit? || op.Deduct? || op.wallet in db.wallets ==>
      Apply(h, db, op).1 == Duplicate(FindTx(db.txs, KeyOf(op).value).value)
  {
  }

  lemma {:induction false} KeyStays(h: Hasher, ops: seq<Op>, i: nat, key: Key)
    requires i <= |ops| && FindTx(Run(h, EMPTY, ops[..i]).txs, key).Some?
    ensures FindTx(Run(h, EMPTY, ops).txs, key).Some?
    decreases |ops|
  {
    if i < |ops| {
      var init := ops[..|ops| - 1];
      assert init[..i] == ops[..i];
      KeyStays(h, init, i, key);
      var before, after := Run(h, EMPTY, init).txs, Run(h, EMPTY, ops).txs;
      TxsGrow(h, Run(h, EMPTY, init), ops[|ops| - 1]);
      assert after == before + after[|before|..];
      FindStays(before, after[|before|..], key);
    } else {
      assert ops[..i] == ops;
    }
  }

  /** A call in a run, marked when it repeats an earlier one. */
  datatype Call = Call(op: Op, again: bool)

  function Calls(calls: seq<Call>): seq<Op> {
    if calls == [] then [] else Calls(calls[..|calls| - 1]) + [calls[|calls| - 1].op]
  }

  function Originals(calls: seq<Call>): seq<Op> {
    if calls == [] then []
    else
      var c := calls[|calls| - 1];
      Originals(calls[..|calls| - 1]) + if c.again then [] else [c.op]
  }

  /** The call has the key of one of the earlier calls, which was applied. The
      other arguments may differ. */
  ghost predicate Repeats(h: Hasher, earlier: seq<Op>, op: Op) {
    && KeyOf(op).Some?
    && (exists i :: (
          && 0 <= i < |earlier| && KeyOf(earlier[i]) == KeyOf(op)
          && Apply(h, Run(h, EMPTY, earlier[..i]), earlier[i]).1.Applied?))
  }

  ghost predicate MarkedRight(h: Hasher, calls: seq<Call>) {
    calls == [] ||
    var init, c := calls[..|calls| - 1], calls[|calls| - 1];
    MarkedRight(h, init) && (c.again ==> Repeats(h, Originals(init), c.op))
  }

  lemma OneMoreCall(h: Hasher, ops: seq<Op>, i: nat)
    requires i < |ops|
    ensures Run(h, EMPTY, ops[..i + 1]) == Apply(h, Run(h, EMPTY, ops[..i]), ops[i]).0
  {
    assert ops[..i + 1][..i] == ops[..i];
  }

  lemma RepeatIsNoOp(h: Hasher, earlier: seq<Op>, op: Op)
    requires Repeats(h, earlier, op)
    ensures Apply(h, Run(h, EMPTY, earlier), op).0 == Run(h, EMPTY, earlier)
  {
    var i :| 0 <= i < |earlier| && KeyOf(earlier[i]) == KeyOf(op)
      && Apply(h, Run(h, EMPTY, earlier[..i]), earlier[i]).1.Applied?;
    AppliedLeavesKey(h, Run(h, EMPTY, earlier[..i]), earlier[i]);
    OneMoreCall(h, earlier, i);
    KeyStays(h, earlier, i + 1, KeyOf(op).value);
    KnownKeyIsNoOp(h, Run(h, EMPTY, earlier), op);
  }

  /** Re-delivering applied calls any number of times, anywhere later in the
      run, ends in the same wallets, transactions, ledger and requests as the
      run without the repetitions. */
  lemma {:induction false} ReplaysChangeNothing(h: Hasher, calls: seq<Call>)
    requires MarkedRight(h, calls)
    ensures Run(h, EMPTY, Calls(calls)) == Run(h, EMPTY, Originals(calls))
  {
    if calls != [] {
      var init, c := calls[..|calls| - 1], calls[|calls| - 1];
      ReplaysChangeNothing(h, init);
      assert Calls(calls)[..|Calls(calls)| - 1] == Calls(init);
      if c.again {
        RepeatIsNoOp(h, Originals(init), c.op);
        assert Originals(calls) == Originals(init);
      } else {
        assert Originals(calls)[..|Originals(calls)| - 1] == Originals(init);
      }
    }
  }

  // ---- one row per key ----

  /** A row that books the call with the key: a withdrawal may carry the hash
      of a deposit, but books no deposit. */
  predicate Books(t: Transaction, key: Key) {
    Matches(t, key) && (key.ByHash? ==> t.kind == TxDeposit)
  }

  ghost predicate BookedOnce(txs: seq<Transaction>, key: Key) {
    forall i, j :: 0 <= i < j < |txs| ==> !(Books(txs[i], key) && Books(txs[j], key))
  }

  lemma OneMoreRow(txs: seq<Transaction>, rows: seq<Transaction>, key: Key)
    requires BookedOnce(txs, key) && BookedOnce(rows, key)
    requires (forall t :: t in txs ==> !Books(t, key)) || (forall r :: r in rows ==> !Books(r, key))
    ensures BookedOnce(txs + rows, key)
  {
    var all := txs + rows;
    forall i, j | 0 <= i < j < |all|
      ensures !(Books(all[i], key) && Books(all[j], key))
    {
      if i < |txs| <= j {
        assert all[i] in txs && all[j] in rows;
      }
    }
  }

  /** The credit check sits under the row lock, so the effect alone books each
      credit key once; no early check is involved. */
  lemma EffectBooksCreditOnce(h: Hasher, db: DB, op: Op, key: Key)
    requires key.ByRef? && key.kind == TxCreditAdd && BookedOnce(db.txs, key)
    ensures BookedOnce(Effect(h, db, op).0.txs, key)
  {
    if Effect(h, db, op).1.Applied? && !op.Register? {
      var p := Decide(db.wallets, db.txs, RequestOf(db.requests, op), op).plan;
      assert Effect(h, db, op).0.txs == db.txs + p.rows;
      OneMoreRow(db.txs, p.rows, key);
    }
  }

  /** Serial calls book every key once: each on-chain hash one deposit, each
      payment and credit reference one row. */
  lemma CallBooksOnce(h: Hasher, db: DB, op: Op, key: Key)
    requires BookedOnce(db.txs, key)
    requires key.ByRef? ==> key.ref != "" && key.kind in {TxPayment, TxCreditAdd}
    ensures BookedOnce(Apply(h, db, op).0.txs, key)
  {
    if Apply(h, db, op).1.Applied? && !op.Register? {
      var p := Decide(db.wallets, db.txs, RequestOf(db.requests, op), op).plan;
      assert Apply(h, db, op).0.txs == db.txs + p.rows;
      OneMoreRow(db.txs, p.rows, key);
    }
  }

  lemma {:induction false} RunBooksOnce(h: Hasher, ops: seq<Op>, key: Key)
    requires key.ByRef? ==> key.ref != "" && key.kind in {TxPayment, TxCreditAdd}
    ensures BookedOnce(Run(h, EMPTY, ops).txs, key)
  {
    if ops != [] {
      RunBooksOnce(h, ops[..|ops| - 1], key);
      CallBooksOnce(h, Run(h, EMPTY, ops[..|ops| - 1]), ops[|ops| - 1], key);
    }
  }
}
