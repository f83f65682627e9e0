/** The wallet service in front of the store: what its callers may ask for, and
    why the calls that reach the store meet what the balance and hold results
    need. */
module Service {
  import opened Records
  import opened HashChain
  import opened Operations
  import opened WalletStore
  import opened LedgerAgreement
  import opened Holds
  import Consensus

  const MIN_WITHDRAW := 100_000_000
  const NETWORK_FEE := 10_000_000

  predicate Space(c: char) {
    c == ' ' || c == '\t' || c == '\n' || c == '\r' || c == '\U{000B}' || c == '\U{000C}'
  }

  function TrimLeft(s: string): string {
    if s != "" && Space(s[0]) then TrimLeft(s[1..]) else s
  }

  function Trim(s: string): string {
    if s != "" && Space(s[|s| - 1]) then Trim(s[..|s| - 1]) else TrimLeft(s)
  }

  predicate ValidAddress(address: string) {
    var a := Trim(address);
    |a| == 48 && (a[..2] == "UQ" || a[..2] == "EQ")
  }

  /** Only spaces from one place up to another. */
  predicate Blank(s: string, i: nat, j: nat)
    requires i <= j <= |s|
  {
    forall k :: i <= k < j ==> Space(s[k])
  }

  predicate AddressAt(address: string, i: int) {
    && 0 <= i <= |address| - 48 && Blank(address, 0, i) && Blank(address, i + 48, |address|)
    && (address[i] == 'U' || address[i] == 'E') && address[i + 1] == 'Q' && !Space(address[i + 47])
  }

  /** Nothing but spaces around forty-eight characters that start with one of two
      tags and do not end with a space. */
  ghost predicate Addressed(address: string) {
    exists i :: AddressAt(address, i)
  }

  lemma DropAgain(s: string, j: nat)
    requires j < |s|
    ensures s[1..][j..] == s[j + 1..]
  {
  }

  lemma {:induction false} TrimLeftSplits(s: string) returns (i: nat)
    ensures i <= |s| && Blank(s, 0, i) && TrimLeft(s) == s[i..] && (i < |s| ==> !Space(s[i]))
  {
    if s != "" && Space(s[0]) {
      var j := TrimLeftSplits(s[1..]);
      i := j + 1;
      DropAgain(s, j);
      assert forall k :: 1 <= k < i ==> s[k] == s[1..][k - 1];
    } else {
      i := 0;
      assert s[0..] == s;
    }
  }

  /** Trimming cuts off spaces at both ends and nothing else. */
  lemma {:induction false} TrimSplits(s: string) returns (i: nat, j: nat)
    ensures i <= j <= |s| && Blank(s, 0, i) && Blank(s, j, |s|) && Trim(s) == s[i..j]
    ensures i < j ==> !Space(s[i]) && !Space(s[j - 1])
  {
    if s != "" && Space(s[|s| - 1]) {
      var init := s[..|s| - 1];
      i, j := TrimSplits(init);
      assert s[i..j] == init[i..j] && forall k :: 0 <= k < |init| ==> s[k] == init[k];
    } else {
      i := TrimLeftSplits(s);
      j := |s|;
      assert s[i..j] == s[i..];
    }
  }

  /** What spaces surround is found in one way only. */
  lemma OneTrim(s: string, i: nat, j: nat, k: nat, l: nat)
    requires i <= j <= |s| && Blank(s, 0, i) && Blank(s, j, |s|) && (i < j ==> !Space(s[i]) && !Space(s[j - 1]))
    requires k < l <= |s| && Blank(s, 0, k) && Blank(s, l, |s|) && !Space(s[k]) && !Space(s[l - 1])
    ensures i == k && j == l
  {
  }

  lemma TaggedAt(a: string)
    requires |a| == 48
    ensures a[..2] == "UQ" || a[..2] == "EQ" <==> (a[0] == 'U' || a[0] == 'E') && a[1] == 'Q'
  {
    assert a[..2] == [a[0], a[1]];
  }

  /** Which addresses are accepted, without trimming them. */
  lemma ValidIff(address: string)
    ensures ValidAddress(address) <==> Addressed(address)
  {
    var i, j := TrimSplits(address);
    if ValidAddress(address) {
      TaggedAt(address[i..j]);
      assert address[i..j][0] == address[i] && address[i..j][1] == address[i + 1];
      assert AddressAt(address, i);
    }
    if k :| AddressAt(address, k) {
      OneTrim(address, i, j, k, k + 48);
      TaggedAt(address[i..j]);
    }
  }

  /** What a call that reaches the store through the service looks like. */
  predicate Served(op: Op) {
    match op
    case Deposit(_, _, amount, _, _) => amount > 0
    case Transfer(_, _, from, to, _) => from != to
    case CreateWithdraw(_, _, amount, fee) => amount >= MIN_WITHDRAW && fee == NETWORK_FEE
    case _ => true
  }

  datatype Reply = Refused | Asked(outcome: Outcome)

  class WalletService {
    const store: Store
    const guard: Consensus.Guard
    const guarded: bool
    const accounts: map<int, Uuid>

    constructor (store: Store, guard: Consensus.Guard, guarded: bool, accounts: map<int, Uuid>)
      ensures this.store == store && this.guard == guard && this.guarded == guarded && this.accounts == accounts
    {
      this.store, this.guard, this.guarded, this.accounts := store, guard, guarded, accounts;
    }

    /** No two users share a wallet. */
    predicate OneEach() {
      forall a, b :: a in accounts && b in accounts && accounts[a] == accounts[b] ==> a == b
    }

    predicate Known(telegram: int)
      reads store
    {
      telegram in accounts && accounts[telegram] in store.db.wallets
    }

    method RequestWithdraw(telegram: int, address: string, amount: int, request: Uuid)
      returns (r: Reply, ghost op: Option<Op>)
      modifies store
      ensures r.Refused? <==> op.None?
      ensures op.None? ==> store.db == old(store.db)
      ensures op.Some? ==>
        && op.value.CreateWithdraw? && Served(op.value) && op.value.amount == amount && ValidAddress(address)
        && telegram in accounts && op.value.wallet == accounts[telegram]
        && (store.db, r.outcome) == Apply(store.h, old(store.db), op.value)
        && op.value.fee == 10_000_000
        && (FindRequest(old(store.db).requests, request).None? ==> r.outcome.Applied?)
      ensures op.Some? <==>
        && Addressed(address) && amount >= 100_000_000 && old(Known(telegram))
        && var w := old(store.db).wallets[accounts[telegram]]; w.ton + w.credit - w.frozen >= amount + 10_000_000
    {
      op := None;
      ValidIff(address);
      if !ValidAddress(address) || amount < MIN_WITHDRAW {
        return Refused, op;
      }
      if telegram !in accounts || accounts[telegram] !in store.db.wallets {
        return Refused, op;
      }
      var w := accounts[telegram];
      if !store.db.wallets[w].HasEnough(amount + NETWORK_FEE) {
        return Refused, op;
      }
      var outcome := store.CreateWithdraw(request, w, amount, NETWORK_FEE);
      op := Some(Op.CreateWithdraw(request, w, amount, NETWORK_FEE));
      return Asked(outcome), op;
    }

    method Transfer(from: int, to: int, amount: int, tx: Uuid, toTx: Uuid) returns (r: Reply, ghost op: Option<Op>)
      requires OneEach()
      modifies store
      ensures r.Refused? <==> op.None?
      ensures op.None? ==> store.db == old(store.db)
      ensures op.Some? ==>
        && from in accounts && to in accounts
        && op.value == Op.Transfer(tx, toTx, accounts[from], accounts[to], amount) && Served(op.value)
        && (store.db, r.outcome) == Apply(store.h, old(store.db), op.value)
      ensures op.Some? <==>
        && from != to && old(Known(from)) && old(Known(to))
        && var w := old(store.db).wallets[accounts[from]]; w.ton + w.credit - w.frozen >= amount
    {
      op := None;
      if from == to {
        return Refused, op;
      }
      if from !in accounts || accounts[from] !in store.db.wallets || to !in accounts
          || accounts[to] !in store.db.wallets {
        return Refused, op;
      }
      if !store.db.wallets[accounts[from]].HasEnough(amount) {
        return Refused, op;
      }
      var outcome := store.Transfer(tx, toTx, accounts[from], accounts[to], amount);
      op := Some(Op.Transfer(tx, toTx, accounts[from], accounts[to], amount));
      return Asked(outcome), op;
    }

    /** A payment asks for a vote under a fresh identifier before it is made. */
    method Pay(telegram: int, text: string, amount: int, service: string, ref: string, tx: Uuid,
               generated: string, now: int, order: seq<Option<nat>>)
      returns (r: Reply, ghost op: Option<Op>)
      requires guard.Ready(order)
      modifies store, guard.engine`stats, guard.engine.workers
      ensures r.Refused? <==> op.None?
      ensures op.None? ==> store.db == old(store.db)
      ensures op.Some? ==>
        && telegram in accounts
        && op.value == Op.Deduct(tx, accounts[telegram], amount, service, ref) && Served(op.value)
        && (store.db, r.outcome) == Apply(store.h, old(store.db), op.value)
      ensures op.Some? <==>
        && old(Known(telegram))
        && (guarded ==>
              && old(guard.engine.workers) != []
              && |old(guard.Yes(Consensus.Tx(generated, "tg-" + text, service, amount, now), order))| >=
                   guard.engine.threshold)
        && var w := old(store.db).wallets[accounts[telegram]]; w.ton + w.credit - w.frozen >= amount
    {
      op := None;
      if telegram !in accounts || accounts[telegram] !in store.db.wallets
          || !store.db.wallets[accounts[telegram]].HasEnough(amount) {
        return Refused, op;
      }
      if guarded {
        var ok := guard.CheckDeduct(text, amount, service, generated, now, order);
        if !ok {
          return Refused, op;
        }
      }
      var outcome := store.Deduct(tx, accounts[telegram], amount, service, ref);
      op := Some(Op.Deduct(tx, accounts[telegram], amount, service, ref));
      return Asked(outcome), op;
    }
  }

  /** A settlement meets its request while it is pending. */
  predicate SettlesPending(db: DB, op: Op) {
    op.CompleteWithdraw? || op.RejectWithdraw? ==>
      var q := FindRequest(db.requests, op.request);
      q.Some? ==> q.value.status == Pending
  }

  /** In a run of served calls that settles each request at most once, holds
      are exact, every block carries its wallet's running total, and the last
      block of a wallet shows what it has now. */
  lemma ServedRun(h: Hasher, ops: seq<Op>, wallet: Uuid)
    requires forall i :: 0 <= i < |ops| ==> Served(ops[i]) && SettlesPending(Run(h, EMPTY, ops[..i]), ops[i])
    ensures var db := Run(h, EMPTY, ops);
      && HoldsExact(db) && RunningTotals(Moves(db.ledger))
      && (wallet in db.wallets ==>
            (var last := LastBalance(Moves(db.ledger), wallet);
             last.Some? ==> last.value == db.wallets[wallet].Total() >= db.wallets[wallet].frozen))
  {
    assert AdmissibleRun(h, ops);
    RunHolds(h, ops);
    LastBlockGivesTotal(h, ops, wallet);
  }
}
