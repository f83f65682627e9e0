/** The voting workers, the engine that counts their votes and the guard that
    asks it. */
module Consensus {
  import opened Records

  /** A transaction put to the vote; `stamp` is its time in nanoseconds. */
  datatype Tx = Tx(id: string, from: string, toService: string, amount: int, stamp: int)

  datatype Rule = HMAC | Ed25519 | AES256 | Merkle

  function WorkerID(rule: Rule): string {
    match rule
    case HMAC => "worker-hmac"
    case Ed25519 => "worker-ed25519"
    case AES256 => "worker-aes256"
    case Merkle => "worker-merkle"
  }

  datatype Vote = Vote(worker: string, approved: bool, reason: string)

  const SECOND := 1_000_000_000
  const HMAC_LIMIT := 100_000 * 1_000_000_000
  const MAX_SAFE_AMOUNT := 1_000_000 * 1_000_000_000

  /** What a rule has against a transaction that is new to the worker. */
  function Objection(rule: Rule, tx: Tx, now: int): Option<string> {
    match rule
    case HMAC =>
      if tx.amount <= 0 then Some("invalid amount")
      else if tx.amount > HMAC_LIMIT then Some("amount exceeds maximum limit")
      else if now - tx.stamp > 300 * SECOND || now - tx.stamp < -30 * SECOND then Some("timestamp out of range")
      else None
    case Ed25519 =>
      if |tx.from| < 10 then Some("invalid wallet address")
      else if tx.amount <= 0 then Some("non-positive amount")
      else None
    case AES256 => if tx.toService == "" then Some("missing service target") else None
    case Merkle => if tx.amount <= 0 || tx.amount > MAX_SAFE_AMOUNT then Some("amount out of safe range") else None
  }

  // ---- the local table ----

  /** A row is found by its identifier, but the empty one is never looked up. */
  predicate Seen(records: map<string, Vote>, id: string) {
    id != "" && id in records
  }

  /** `INSERT OR IGNORE`: the first vote on an identifier stays. */
  function Remember(records: map<string, Vote>, id: string, vote: Vote): map<string, Vote> {
    if id in records then records else records[id := vote]
  }

  function ReplayText(rule: Rule): string {
    if rule.HMAC? then "replay attack detected" else "replay attack"
  }

  /** The vote of a worker that remembers `records`. */
  function Judge(rule: Rule, records: map<string, Vote>, tx: Tx, now: int): Vote {
    if Seen(records, tx.id) then Vote(WorkerID(rule), false, ReplayText(rule))
    else
      var why := Objection(rule, tx, now);
      if why.Some? then Vote(WorkerID(rule), false, why.value) else Vote(WorkerID(rule), true, "")
  }

  /** Each rule in figures: amounts in nano-TON, ages in nanoseconds. */
  predicate Passes(rule: Rule, tx: Tx, now: int) {
    match rule
    case HMAC => 0 < tx.amount <= 100_000_000_000_000 && -30_000_000_000 <= now - tx.stamp <= 300_000_000_000
    case Ed25519 => |tx.from| >= 10 && tx.amount > 0
    case AES256 => tx.toService != ""
    case Merkle => 0 < tx.amount <= 1_000_000_000_000_000
  }

  /** A worker approves exactly what is new to it and passes its rule. */
  lemma JudgeApprovesIff(rule: Rule, records: map<string, Vote>, tx: Tx, now: int)
    ensures Judge(rule, records, tx, now).approved <==> Passes(rule, tx, now) && (tx.id == "" || tx.id !in records)
    ensures Willing(rule, tx) <==> Passes(rule, tx, tx.stamp)
  {
  }

  function ZeroBytes(n: nat): string {
    if n == 0 then [] else ZeroBytes(n - 1) + ['\0']
  }

  /** One worker with its own table; Merkle workers also chain what they
      approve, by a digest that is left open. */
  class Worker {
    const rule: Rule
    const mix: (string, Tx) -> string
    var records: map<string, Vote>
    var lastHash: string

    /** Opens the table a previous process left; the digest chain starts anew. */
    constructor (rule: Rule, mix: (string, Tx) -> string, stored: map<string, Vote>)
      ensures this.rule == rule && this.mix == mix && records == stored && lastHash == ZeroBytes(64)
    {
      this.rule, this.mix := rule, mix;
      records, lastHash := stored, ZeroBytes(64);
    }

    method HasSeen(id: string) returns (seen: bool)
      ensures seen == Seen(records, id)
    {
      if id == "" {
        return false;
      }
      seen := id in records;
    }

    method SaveTxRecord(id: string, vote: Vote)
      modifies this`records
      ensures records == Remember(old(records), id, vote)
      ensures records == if id in old(records) then old(records) else old(records)[id := vote]
    {
      if id !in records {
        records := records[id := vote];
      }
    }

    method Reject(tx: Tx, reason: string) returns (vote: Vote)
      modifies this`records
      ensures vote == Vote(WorkerID(rule), false, reason)
      ensures records == Remember(old(records), tx.id, vote)
    {
      vote := Vote(WorkerID(rule), false, reason);
      SaveTxRecord(tx.id, vote);
    }

    method Verify(tx: Tx, now: int) returns (vote: Vote)
      modifies this
      ensures vote == old(Judge(rule, records, tx, now)) && vote.worker == WorkerID(rule)
      ensures vote.approved <==> Passes(rule, tx, now) && (tx.id == "" || tx.id !in old(records))
      ensures records == Remember(old(records), tx.id, vote)
      ensures records == if tx.id in old(records) then old(records) else old(records)[tx.id := vote]
      ensures Seen(records, tx.id) || tx.id == ""
      ensures lastHash == if vote.approved && rule.Merkle? then mix(old(lastHash), tx) else old(lastHash)
    {
      var seen := HasSeen(tx.id);
      if seen {
        vote := Reject(tx, ReplayText(rule));
        return;
      }
      if rule.HMAC? {
        if tx.amount <= 0 {
          vote := Reject(tx, "invalid amount");
          return;
        }
        if tx.amount > HMAC_LIMIT {
          vote := Reject(tx, "amount exceeds maximum limit");
          return;
        }
        var age := now - tx.stamp;
        if age > 300 * SECOND || age < -30 * SECOND {
          vote := Reject(tx, "timestamp out of range");
          return;
        }
      } else if rule.Ed25519? {
        if |tx.from| < 10 {
          vote := Reject(tx, "invalid wallet address");
          return;
        }
        if tx.amount <= 0 {
          vote := Reject(tx, "non-positive amount");
          return;
        }
      } else if rule.AES256? {
        if tx.toService == "" {
          vote := Reject(tx, "missing service target");
          return;
        }
      } else {
        if tx.amount <= 0 || tx.amount > MAX_SAFE_AMOUNT {
          vote := Reject(tx, "amount out of safe range");
          return;
        }
        lastHash := mix(lastHash, tx);
      }
      vote := Vote(WorkerID(rule), true, "");
      SaveTxRecord(tx.id, vote);
    }
  }

  // ---- counting ----

  datatype Stats = Stats(verified: int, approved: int, rejected: int)

  datatype ConsensusResult = ConsensusResult(txID: string, approved: bool, votes: seq<Vote>, yes: int, no: int,
      threshold: int)

  /** The votes that reached the collector before its timeouts, in order. */
  function Received(arrivals: seq<Option<Vote>>): seq<Vote> {
    if arrivals == [] then []
    else
      var init, last := Received(arrivals[..|arrivals| - 1]), arrivals[|arrivals| - 1];
      if last.Some? then init + [last.value] else init
  }

  function Approving(votes: seq<Vote>): nat {
    if votes == [] then 0
    else Approving(votes[..|votes| - 1]) + (if votes[|votes| - 1].approved then 1 else 0)
  }

  /** The positions of a worker's approving votes, or of its other ones. */
  function Ballots(votes: seq<Vote>, id: string, approved: bool): set<nat> {
    set i | 0 <= i < |votes| && votes[i].worker == id && votes[i].approved == approved
  }

  /** A worker's figures after more of its votes have been collected. */
  predicate Counted(before: Stats, after: Stats, id: string, votes: seq<Vote>) {
    && after.approved == before.approved + |Ballots(votes, id, true)|
    && after.rejected == before.rejected + |Ballots(votes, id, false)|
    && after.verified == before.verified + |Ballots(votes, id, true)| + |Ballots(votes, id, false)|
  }

  /** Everybody's figures, after more votes have been collected. */
  predicate AllCounted(before: map<string, Stats>, after: map<string, Stats>, votes: seq<Vote>) {
    after.Keys == before.Keys && forall id :: id in after ==> Counted(before[id], after[id], id, votes)
  }

  lemma NoBallots(stats: map<string, Stats>)
    ensures AllCounted(stats, stats, [])
  {
    forall id | id in stats
      ensures Counted(stats[id], stats[id], id, [])
    {
      assert Ballots([], id, true) == {} && Ballots([], id, false) == {};
    }
  }

  lemma OneMoreBallot(votes: seq<Vote>, v: Vote, id: string, approved: bool)
    ensures |Ballots(votes + [v], id, approved)| ==
      |Ballots(votes, id, approved)| + (if v.worker == id && v.approved == approved then 1 else 0)
  {
    var all, own := votes + [v], v.worker == id && v.approved == approved;
    assert forall i :: 0 <= i < |votes| ==> all[i] == votes[i];
    assert all[|votes|] == v;
    forall i | i in Ballots(all, id, approved)
      ensures i in Ballots(votes, id, approved) || (own && i == |votes|)
    {
    }
    forall i | i in Ballots(votes, id, approved)
      ensures i in Ballots(all, id, approved)
    {
    }
    assert Ballots(all, id, approved) == Ballots(votes, id, approved) + if own then {|votes|} else {};
  }

  function ApprovalSum(votes: seq<Vote>, ids: seq<string>): nat {
    if ids == [] then 0 else ApprovalSum(votes, ids[..|ids| - 1]) + |Ballots(votes, ids[|ids| - 1], true)|
  }

  predicate DistinctNames(ids: seq<string>) {
    forall i, j :: 0 <= i < j < |ids| ==> ids[i] != ids[j]
  }

  lemma {:induction false} NoApprovals(votes: seq<Vote>, ids: seq<string>)
    requires votes == []
    ensures ApprovalSum(votes, ids) == 0
  {
    if ids != [] {
      NoApprovals(votes, ids[..|ids| - 1]);
      assert Ballots(votes, ids[|ids| - 1], true) == {};
    }
  }

  lemma {:induction false} OneMoreVote(votes: seq<Vote>, v: Vote, ids: seq<string>)
    requires DistinctNames(ids)
    ensures ApprovalSum(votes + [v], ids) == ApprovalSum(votes, ids) + (if v.approved && v.worker in ids then 1 else 0)
  {
    if ids != [] {
      var rest, id := ids[..|ids| - 1], ids[|ids| - 1];
      OneMoreVote(votes, v, rest);
      OneMoreBallot(votes, v, id, true);
      assert v.worker in ids <==> v.worker in rest || v.worker == id;
    }
  }

  /** The approvals of differently named workers together are all the approving
      votes there are. */
  lemma {:induction false} ApprovalsAddUp(votes: seq<Vote>, ids: seq<string>)
    requires DistinctNames(ids) && forall v :: v in votes ==> v.worker in ids
    ensures ApprovalSum(votes, ids) == Approving(votes)
  {
    if votes == [] {
      NoApprovals(votes, ids);
    } else {
      var init, v := votes[..|votes| - 1], votes[|votes| - 1];
      assert votes == init + [v] && v in votes;
      ApprovalsAddUp(init, ids);
      OneMoreVote(init, v, ids);
    }
  }

  /** What a column of the figures adds up to. */
  function ApprovedTotal(stats: map<string, Stats>, ids: seq<string>): int {
    if ids == [] then 0
    else
      var id := ids[|ids| - 1];
      ApprovedTotal(stats, ids[..|ids| - 1]) + if id in stats then stats[id].approved else 0
  }

  lemma {:induction false} TotalGrows(before: map<string, Stats>, after: map<string, Stats>, votes: seq<Vote>,
                                      ids: seq<string>)
    requires AllCounted(before, after, votes) && forall id :: id in ids ==> id in before
    ensures ApprovedTotal(after, ids) == ApprovedTotal(before, ids) + ApprovalSum(votes, ids)
  {
    if ids != [] {
      TotalGrows(before, after, votes, ids[..|ids| - 1]);
      assert ids[|ids| - 1] in ids;
    }
  }

  /** Each vote that has arrived is kept, in order, and nothing else. */
  lemma {:induction false} ReceivedParts(a: seq<Option<Vote>>, b: seq<Option<Vote>>)
    ensures Received(a + b) == Received(a) + Received(b)
    ensures forall v :: Received([Some(v)]) == [v]
    ensures Received([None]) == []
  {
    forall v
      ensures Received([Some(v)]) == [v]
    {
      assert [Some(v)][..0] == [];
    }
    var gap: seq<Option<Vote>> := [None];
    assert gap[..0] == [];
    if b == [] {
      assert a + b == a;
    } else {
      assert (a + b)[..|a + b| - 1] == a + b[..|b| - 1];
      ReceivedParts(a, b[..|b| - 1]);
    }
  }

  lemma {:induction false} ReceivedFrom(arrivals: seq<Option<Vote>>)
    ensures forall v :: v in Received(arrivals) ==> Some(v) in arrivals
  {
    if arrivals != [] {
      ReceivedFrom(arrivals[..|arrivals| - 1]);
      assert arrivals[|arrivals| - 1] in arrivals;
    }
  }

  /** Which worker's vote each arrival is; no worker votes twice. */
  predicate Arrivals(order: seq<Option<nat>>, n: nat) {
    && |order| == n
    && (forall i :: 0 <= i < |order| && order[i].Some? ==> order[i].value < n)
    && (forall i, j :: 0 <= i < j < |order| && order[i].Some? && order[j].Some? ==> order[i] != order[j])
  }

  function Arriving(votes: seq<Vote>, order: seq<Option<nat>>): (r: seq<Option<Vote>>)
    requires forall i :: 0 <= i < |order| && order[i].Some? ==> order[i].value < |votes|
    ensures |r| == |order|
    ensures forall i :: 0 <= i < |r| ==> r[i] == if order[i].Some? then Some(votes[order[i].value]) else None
  {
    if order == [] then []
    else
      var init, last := Arriving(votes, order[..|order| - 1]), order[|order| - 1];
      init + [if last.Some? then Some(votes[last.value]) else None]
  }

  /** The workers whose approval has arrived. */
  function Approvers(votes: seq<Vote>, order: seq<Option<nat>>): set<nat>
    requires forall i :: 0 <= i < |order| && order[i].Some? ==> order[i].value < |votes|
  {
    set i | 0 <= i < |order| && order[i].Some? && votes[order[i].value].approved :: order[i].value
  }

  lemma LastArrival(votes: seq<Vote>, order: seq<Option<nat>>)
    requires order != [] && forall i :: 0 <= i < |order| && order[i].Some? ==> order[i].value < |votes|
    ensures var init, last := order[..|order| - 1], order[|order| - 1];
      Approving(Received(Arriving(votes, order))) ==
      Approving(Received(Arriving(votes, init))) + (if last.Some? && votes[last.value].approved then 1 else 0)
  {
    var last, r := order[|order| - 1], Arriving(votes, order);
    var before := Received(r[..|order| - 1]);
    assert r[..|order| - 1] == Arriving(votes, order[..|order| - 1]);
    if last.Some? {
      assert (before + [votes[last.value]])[..|before|] == before;
    }
  }

  lemma LastApprover(votes: seq<Vote>, order: seq<Option<nat>>)
    requires order != [] && forall i :: 0 <= i < |order| && order[i].Some? ==> order[i].value < |votes|
    requires forall i, j :: 0 <= i < j < |order| && order[i].Some? && order[j].Some? ==> order[i] != order[j]
    ensures var init, last := order[..|order| - 1], order[|order| - 1];
      |Approvers(votes, order)| ==
          |Approvers(votes, init)| + (if last.Some? && votes[last.value].approved then 1 else 0)
  {
    var n := |order| - 1;
    var init, last := order[..n], order[n];
    forall k | k in Approvers(votes, init)
      ensures k in Approvers(votes, order) && Some(k) != last
    {
      var i :| 0 <= i < n && init[i].Some? && votes[init[i].value].approved && init[i].value == k;
      assert order[i] == init[i];
    }
    forall k | k in Approvers(votes, order)
      ensures k in Approvers(votes, init) || Some(k) == last
    {
      var i :| 0 <= i <= n && order[i].Some? && votes[order[i].value].approved && order[i].value == k;
      if i < n {
        assert init[i] == order[i];
      }
    }
    if last.Some? && votes[last.value].approved {
      assert Approvers(votes, order) == Approvers(votes, init) + {last.value};
    } else {
      assert Approvers(votes, order) == Approvers(votes, init);
    }
  }

  /** Counting approvals counts the workers that approve, in any order of
      arrival and with any timeouts. */
  lemma {:induction false} ApprovingIsApprovers(votes: seq<Vote>, order: seq<Option<nat>>)
    requires forall i :: 0 <= i < |order| && order[i].Some? ==> order[i].value < |votes|
    requires forall i, j :: 0 <= i < j < |order| && order[i].Some? && order[j].Some? ==> order[i] != order[j]
    ensures Approving(Received(Arriving(votes, order))) == |Approvers(votes, order)| <= |order|
  {
    if order != [] {
      ApprovingIsApprovers(votes, order[..|order| - 1]);
      LastArrival(votes, order);
      LastApprover(votes, order);
    }
  }

  /** As many approvals as workers leave nobody out. */
  lemma UnanimousMeansAll(votes: seq<Vote>, order: seq<Option<nat>>)
    requires Arrivals(order, |votes|) && |Approvers(votes, order)| == |votes|
    ensures forall i :: 0 <= i < |votes| ==> votes[i].approved
  {
    var all := Upto(|votes|);
    SubsetOfSameSize(Approvers(votes, order), all);
    forall i | 0 <= i < |votes|
      ensures votes[i].approved
    {
      assert i in Approvers(votes, order);
    }
  }

  function Upto(n: nat): (r: set<nat>)
    ensures |r| == n && forall i :: i in r <==> 0 <= i < n
  {
    if n == 0 then {} else Upto(n - 1) + {n - 1}
  }

  lemma SubsetOfSameSize(a: set<nat>, b: set<nat>)
    requires a <= b
    ensures |a| <= |b| && (|a| == |b| ==> a == b)
  {
    assert b == a + (b - a);
    assert |b| == |a| + |b - a|;
  }

  lemma NextRound(arrivals: seq<Option<Vote>>, k: nat)
    requires k < |arrivals|
    ensures var before, after := Received(arrivals[..k]), Received(arrivals[..k + 1]);
      match arrivals[k]
      case None => after == before
      case Some(v) => after == before + [v] && Approving(after) == Approving(before) + (if v.approved then 1 else 0)
  {
    var before := Received(arrivals[..k]);
    assert arrivals[..k + 1][..k] == arrivals[..k];
    if arrivals[k].Some? {
      assert (before + [arrivals[k].value])[..|before|] == before;
    }
  }

  /** One more vote in the figures. */
  function Updated(stats: map<string, Stats>, vote: Vote): map<string, Stats> {
    if vote.worker in stats then
      var s := stats[vote.worker];
      stats[vote.worker :=
        if vote.approved then Stats(s.verified + 1, s.approved + 1, s.rejected)
        else Stats(s.verified + 1, s.approved, s.rejected + 1)]
    else stats
  }

  lemma CountedNext(start: map<string, Stats>, now: map<string, Stats>, votes: seq<Vote>, vote: Vote)
    requires AllCounted(start, now, votes)
    ensures AllCounted(start, Updated(now, vote), votes + [vote])
  {
    forall id | id in now
      ensures Counted(start[id], Updated(now, vote)[id], id, votes + [vote])
    {
      OneMoreBallot(votes, vote, id, true);
      OneMoreBallot(votes, vote, id, false);
    }
  }

  predicate CastBy(votes: seq<Vote>, ids: seq<string>) {
    |ids| == |votes| && forall i :: 0 <= i < |votes| ==> votes[i].worker == ids[i]
  }

  /** Each name is another one and has figures. */
  predicate NamedIn(ids: seq<string>, stats: map<string, Stats>) {
    DistinctNames(ids) && forall id :: id in ids ==> id in stats
  }

  /** Votes that arrive are votes of the workers asked. */
  lemma VotersNamed(votes: seq<Vote>, order: seq<Option<nat>>, ids: seq<string>)
    requires forall i :: 0 <= i < |order| && order[i].Some? ==> order[i].value < |votes|
    requires CastBy(votes, ids)
    ensures forall v :: v in Received(Arriving(votes, order)) ==> v.worker in ids
  {
    ReceivedFrom(Arriving(votes, order));
  }

  lemma TotalsGrow(before: map<string, Stats>, after: map<string, Stats>, votes: seq<Vote>, order: seq<Option<nat>>,
                   ids: seq<string>)
    requires Arrivals(order, |votes|) && CastBy(votes, ids) && NamedIn(ids, before)
    requires AllCounted(before, after, Received(Arriving(votes, order)))
    ensures ApprovedTotal(after, ids) == ApprovedTotal(before, ids) + |Approvers(votes, order)|
  {
    var received := Received(Arriving(votes, order));
    VotersNamed(votes, order, ids);
    TotalGrows(before, after, received, ids);
    ApprovalsAddUp(received, ids);
    ApprovingIsApprovers(votes, order);
  }

  class Engine {
    const threshold: int
    var workers: seq<Worker>
    var stats: map<string, Stats>

    constructor (threshold: int)
      ensures this.threshold == (if threshold == 0 then 3 else threshold) && workers == [] && stats == map[]
    {
      this.threshold := if threshold == 0 then 3 else threshold;
      workers, stats := [], map[];
    }

    method AddWorker(w: Worker)
      modifies this
      ensures workers == old(workers) + [w] && stats == old(stats)[WorkerID(w.rule) := Stats(0, 0, 0)]
    {
      workers := workers + [w];
      stats := stats[WorkerID(w.rule) := Stats(0, 0, 0)];
    }

    predicate Distinct()
      reads this
    {
      forall i, j :: 0 <= i < j < |workers| ==> workers[i] != workers[j]
    }

    /** The workers' identifiers. */
    function Names(): (ids: seq<string>)
      reads this`workers
      ensures |ids| == |workers| && forall i :: 0 <= i < |ids| ==> ids[i] == WorkerID(workers[i].rule)
    {
      NamesTo(|workers|)
    }

    function NamesTo(n: nat): (ids: seq<string>)
      requires n <= |workers|
      reads this`workers
      ensures |ids| == n && forall i :: 0 <= i < n ==> ids[i] == WorkerID(workers[i].rule)
    {
      if n == 0 then [] else NamesTo(n - 1) + [WorkerID(workers[n - 1].rule)]
    }

    /** Every worker has figures of its own. */
    predicate Named()
      reads this
    {
      NamedIn(Names(), stats)
    }

    /** What every worker would vote if asked now. */
    function Judgements(tx: Tx, now: int, n: nat): (votes: seq<Vote>)
      requires n <= |workers|
      reads this, workers
      ensures |votes| == n
      ensures forall i :: 0 <= i < n ==> votes[i] == Judge(workers[i].rule, workers[i].records, tx, now)
    {
      if n == 0 then [] else Judgements(tx, now, n - 1) + [Judge(workers[n - 1].rule, workers[n - 1].records, tx, now)]
    }

    /** Asks every worker. */
    method Ask(tx: Tx, now: int) returns (votes: seq<Vote>)
      requires Distinct()
      modifies workers
      ensures votes == old(Judgements(tx, now, |workers|))
      ensures forall i :: 0 <= i < |workers| ==>
        workers[i].records == Remember(old(workers[i].records), tx.id, votes[i])
    {
      votes := [];
      for k := 0 to |workers|
        invariant votes == old(Judgements(tx, now, k))
        invariant forall i :: 0 <= i < k ==> workers[i].records == Remember(old(workers[i].records), tx.id, votes[i])
        invariant forall i :: k <= i < |workers| ==> workers[i].records == old(workers[i].records)
      {
        var vote := workers[k].Verify(tx, now);
        votes := votes + [vote];
      }
    }

    /** A worker without figures is not counted. */
    method Count(vote: Vote)
      modifies this`stats
      ensures stats == Updated(old(stats), vote)
    {
      if vote.worker in stats {
        var s := stats[vote.worker];
        s := s.(verified := s.verified + 1);
        s := if vote.approved then s.(approved := s.approved + 1) else s.(rejected := s.rejected + 1);
        stats := stats[vote.worker := s];
      }
    }

    /** The collector: one round per worker, each a vote or a timeout. */
    method Collect(arrivals: seq<Option<Vote>>) returns (votes: seq<Vote>, yes: nat, no: nat)
      modifies this`stats
      ensures votes == Received(arrivals) && yes == Approving(votes) && yes + no == |arrivals|
      ensures AllCounted(old(stats), stats, votes)
    {
      votes, yes, no := [], 0, 0;
      NoBallots(stats);
      for k := 0 to |arrivals|
        invariant votes == Received(arrivals[..k]) && yes == Approving(votes) && yes + no == k
        invariant AllCounted(old(stats), stats, votes)
      {
        NextRound(arrivals, k);
        match arrivals[k] {
          case Some(vote) =>
            CountedNext(old(stats), stats, votes, vote);
            votes := votes + [vote];
            if vote.approved {
              yes := yes + 1;
            } else {
              no := no + 1;
            }
            Count(vote);
          case None =>
            no := no + 1;
        }
      }
      assert arrivals[..|arrivals|] == arrivals;
    }

    /** Collects the votes that were asked for, in the order they arrive. */
    method Gather(asked: seq<Vote>, order: seq<Option<nat>>, ghost ids: seq<string>)
      returns (votes: seq<Vote>, yes: nat, no: nat)
      requires Arrivals(order, |asked|) && CastBy(asked, ids)
      modifies this`stats
      ensures votes == Received(Arriving(asked, order)) && yes == |Approvers(asked, order)| && yes + no == |asked|
      ensures AllCounted(old(stats), stats, votes)
      ensures NamedIn(ids, old(stats)) ==> ApprovedTotal(stats, ids) == ApprovedTotal(old(stats), ids) + yes
    {
      votes, yes, no := Collect(Arriving(asked, order));
      ApprovingIsApprovers(asked, order);
      if NamedIn(ids, old(stats)) {
        TotalsGrow(old(stats), stats, asked, order, ids);
      }
    }

    lemma VotesNamed(tx: Tx, now: int)
      ensures CastBy(Judgements(tx, now, |workers|), Names())
    {
    }

    /** One vote. An empty identifier is replaced by a generated one; `order`
        says which votes arrive, and when the timeouts fall. */
    method Verify(request: Tx, generated: string, now: int, order: seq<Option<nat>>) returns (r: ConsensusResult)
      requires Distinct() && Arrivals(order, |workers|)
      modifies this`stats, workers
      ensures var tx := if request.id == "" then request.(id := generated) else request;
        if workers == [] then r == ConsensusResult(tx.id, false, [], 0, 0, 0)
        else
          var votes := old(Judgements(tx, now, |workers|));
          && r.txID == tx.id && r.threshold == threshold && r.votes == Received(Arriving(votes, order))
          && r.yes == |Approvers(votes, order)| && r.yes + r.no == |workers|
          && (r.approved <==> |Approvers(votes, order)| >= threshold)
          && (forall i :: 0 <= i < |workers| ==>
              workers[i].records == Remember(old(workers[i].records), tx.id, votes[i]))
      ensures AllCounted(old(stats), stats, r.votes)
      ensures old(Named()) ==> ApprovedTotal(stats, Names()) == old(ApprovedTotal(stats, Names())) + r.yes
    {
      var tx := if request.id == "" then request.(id := generated) else request;
      if |workers| == 0 {
        NoBallots(stats);
        return ConsensusResult(tx.id, false, [], 0, 0, 0);
      }
      VotesNamed(tx, now);
      var votes := Ask(tx, now);
      var received, yes, no := Gather(votes, order, Names());
      r := ConsensusResult(tx.id, yes >= threshold, received, yes, no, threshold);
    }
  }

  // ---- the four workers ----

  const FOUR := [HMAC, Ed25519, AES256, Merkle]

  /** The rule has nothing against the transaction but, for one of them, its age. */
  predicate Willing(rule: Rule, tx: Tx) {
    Objection(rule, tx, tx.stamp).None?
  }

  lemma ApprovalMeansWilling(rule: Rule, records: map<string, Vote>, tx: Tx, now: int)
    ensures Judge(rule, records, tx, now).approved ==> Willing(rule, tx) && !Seen(records, tx.id)
  {
  }

  function WillingWorkers(tx: Tx): (r: set<nat>)
    ensures r <= Upto(4)
  {
    set i | 0 <= i < 4 && Willing(FOUR[i], tx)
  }

  /** A recent transaction can find three approvals among the four workers if
      and only if its amount is positive and at most a million TON, and at most
      one of three further objections applies to it. */
  lemma ThreeWillingIff(tx: Tx)
    ensures |WillingWorkers(tx)| >= 3 <==>
      && 0 < tx.amount <= MAX_SAFE_AMOUNT
      && (if tx.amount > HMAC_LIMIT then 1 else 0) + (if |tx.from| < 10 then 1 else 0)
          + (if tx.toService == "" then 1 else 0) <= 1
    ensures |WillingWorkers(tx)| == 4 <==> 0 < tx.amount <= HMAC_LIMIT && |tx.from| >= 10 && tx.toService != ""
  {
    var in0, in1, in2, in3 := Willing(HMAC, tx), Willing(Ed25519, tx), Willing(AES256, tx), Willing(Merkle, tx);
    FourMembers(WillingWorkers(tx), in0, in1, in2, in3);
  }

  lemma Without(s: set<nat>, k: nat)
    ensures |s - {k}| == |s| - if k in s then 1 else 0
  {
    if k in s {
      assert s == (s - {k}) + {k};
    } else {
      assert s == s - {k};
    }
  }

  /** The size of a set of worker numbers, from its membership. */
  lemma FourMembers(s: set<nat>, in0: bool, in1: bool, in2: bool, in3: bool)
    requires s <= Upto(4) && (0 in s <==> in0) && (1 in s <==> in1) && (2 in s <==> in2) && (3 in s <==> in3)
    ensures |s| == (if in0 then 1 else 0) + (if in1 then 1 else 0) + (if in2 then 1 else 0) + (if in3 then 1 else 0)
  {
    var s1 := s - {0};
    var s2 := s1 - {1};
    var s3 := s2 - {2};
    Without(s, 0);
    Without(s1, 1);
    Without(s2, 2);
    Without(s3, 3);
    assert s3 - {3} == {};
  }

  lemma NamesDiffer()
    ensures forall i, j :: 0 <= i < j < 4 ==> WorkerID(FOUR[i]) != WorkerID(FOUR[j])
  {
    forall i, j | 0 <= i < j < 4
      ensures WorkerID(FOUR[i]) != WorkerID(FOUR[j])
    {
      if |WorkerID(FOUR[i])| == |WorkerID(FOUR[j])| {
        assert WorkerID(FOUR[i])[7] != WorkerID(FOUR[j])[7];
      }
    }
  }

  lemma FourNamed(engine: Engine)
    requires |engine.workers| == 4
    requires forall i :: 0 <= i < 4 ==> engine.workers[i].rule == FOUR[i] && WorkerID(FOUR[i]) in engine.stats
    ensures engine.Named()
  {
    NamesDiffer();
    var ids := engine.Names();
    forall i, j | 0 <= i < j < 4
      ensures ids[i] != ids[j]
    {
      assert ids[i] == WorkerID(FOUR[i]) && ids[j] == WorkerID(FOUR[j]);
    }
    forall id | id in ids
      ensures id in engine.stats
    {
      var i :| 0 <= i < 4 && ids[i] == id;
      assert id == WorkerID(FOUR[i]);
    }
  }

  method AddRule(engine: Engine, rule: Rule, mix: (string, Tx) -> string, stored: map<string, Vote>)
    returns (w: Worker)
    modifies engine
    ensures fresh(w) && w.rule == rule && w.records == stored
    ensures engine.workers == old(engine.workers) + [w]
    ensures engine.stats.Keys == old(engine.stats).Keys + {WorkerID(rule)}
    ensures old(engine.Distinct()) ==> engine.Distinct()
  {
    w := new Worker(rule, mix, stored);
    engine.AddWorker(w);
  }

  /** Adds the four workers, each with its stored table. */
  method SetupWorkers(engine: Engine, mix: (string, Tx) -> string, stored: map<Rule, map<string, Vote>>)
    requires forall rule :: rule in FOUR ==> rule in stored
    modifies engine
    ensures |engine.workers| == |old(engine.workers)| + 4
    ensures engine.workers[..|old(engine.workers)|] == old(engine.workers)
    ensures forall i :: 0 <= i < 4 ==>
      (var w := engine.workers[|old(engine.workers)| + i];
          fresh(w) && w.rule == FOUR[i] && w.records == stored[FOUR[i]])
    ensures old(engine.Distinct()) ==> engine.Distinct()
    ensures old(engine.workers) == [] ==> engine.Named()
  {
    ghost var added: seq<Worker> := [];
    for k := 0 to 4
      invariant engine.workers == old(engine.workers) + added && |added| == k
      invariant forall i :: 0 <= i < k ==>
        fresh(added[i]) && added[i].rule == FOUR[i] && added[i].records == stored[FOUR[i]]
      invariant old(engine.Distinct()) ==> engine.Distinct()
      invariant forall i :: 0 <= i < k ==> WorkerID(FOUR[i]) in engine.stats
    {
      assert FOUR[k] in FOUR;
      var w := AddRule(engine, FOUR[k], mix, stored[FOUR[k]]);
      added := added + [w];
    }
    assert forall i :: 0 <= i < 4 ==> engine.workers[|old(engine.workers)| + i] == added[i];
    if old(engine.workers) == [] {
      FourNamed(engine);
    }
  }

  // ---- the guard ----

  /** The identifier under which an on-chain hash is put to the vote. */
  function DepositID(hash: string): (id: string)
    ensures |id| == |hash| + 8 && id[8..] == hash
  {
    "deposit-" + hash
  }

  class Guard {
    const engine: Engine

    constructor (engine: Engine)
      ensures this.engine == engine
    {
      this.engine := engine;
    }

    predicate Ready(order: seq<Option<nat>>)
      reads engine
    {
      engine.Distinct() && Arrivals(order, |engine.workers|)
    }

    /** The workers that would approve now and whose votes arrive in time. */
    function Yes(tx: Tx, order: seq<Option<nat>>): set<nat>
      requires Ready(order)
      reads engine, engine.workers
    {
      Approvers(engine.Judgements(tx, tx.stamp, |engine.workers|), order)
    }

    method CheckDeduct(telegram: string, amount: int, service: string, generated: string, now: int,
                       order: seq<Option<nat>>)
      returns (ok: bool)
      requires Ready(order)
      modifies engine`stats, engine.workers
      ensures ok <==>
        && engine.workers != []
        && |old(Yes(Tx(generated, "tg-" + telegram, service, amount, now), order))| >= engine.threshold
    {
      var r := engine.Verify(Tx("", "tg-" + telegram, service, amount, now), generated, now, order);
      ok := r.approved;
    }

    /** Without a hash there is no vote. */
    method CheckDeposit(telegram: string, amount: int, hash: string, now: int, order: seq<Option<nat>>)
      returns (ok: bool)
      requires Ready(order)
      modifies engine`stats, engine.workers
      ensures hash == "" ==> ok && unchanged(engine) && forall w :: w in engine.workers ==> unchanged(w)
      ensures hash != "" ==>
        (ok <==> engine.workers != [] &&
                 |old(Yes(Tx("deposit-" + hash, hash, "wallet-tg-" + telegram, amount, now), order))| >=
                   engine.threshold)
    {
      if hash == "" {
        return true;
      }
      var r := engine.Verify(Tx(DepositID(hash), hash, "wallet-tg-" + telegram, amount, now), "", now, order);
      ok := r.approved;
    }

    /** If every worker approves, none has an objection. */
    lemma AllWilling(tx: Tx, order: seq<Option<nat>>)
      requires Ready(order) && |Yes(tx, order)| == |engine.workers|
      ensures forall w :: w in engine.workers ==> Willing(w.rule, tx)
      ensures (exists w :: w in engine.workers && w.rule == HMAC) ==> 0 < tx.amount <= HMAC_LIMIT
      ensures (exists w :: w in engine.workers && w.rule == AES256) ==> tx.toService != ""
    {
      var votes := engine.Judgements(tx, tx.stamp, |engine.workers|);
      UnanimousMeansAll(votes, order);
      forall w | w in engine.workers
        ensures Willing(w.rule, tx)
      {
        var i :| 0 <= i < |engine.workers| && engine.workers[i] == w;
        assert votes[i].approved;
        ApprovalMeansWilling(w.rule, w.records, tx, tx.stamp);
      }
    }

    /** A withdrawal needs every worker, and so fits every worker's limits. */
    method CheckWithdraw(telegram: string, amount: int, address: string, generated: string, now: int,
                         order: seq<Option<nat>>)
      returns (ok: bool)
      requires Ready(order)
      modifies engine`stats, engine.workers
      ensures ok <==>
        && engine.workers != [] && |engine.workers| >= engine.threshold
        && |old(Yes(Tx(generated, "tg-" + telegram + "-withdraw", address, amount, now), order))| == |engine.workers|
      ensures ok && (exists w :: w in engine.workers && w.rule == HMAC) ==> 0 < amount <= HMAC_LIMIT
      ensures ok && (exists w :: w in engine.workers && w.rule == AES256) ==> address != ""
    {
      var tx := Tx(generated, "tg-" + telegram + "-withdraw", address, amount, now);
      if |Yes(tx, order)| == |engine.workers| {
        AllWilling(tx, order);
      }
      var r := engine.Verify(tx.(id := ""), generated, now, order);
      ok := r.approved && r.no == 0;
    }
  }
}
