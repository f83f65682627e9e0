/** Overlapping votes. Any number of calls of the engine are under way at once;
    their workers look up and record identifiers, their collectors take votes
    or time out, in any order, and the process may restart at any point. */
module Quorum {
  import opened Consensus

  /** The workers' rules, the approvals needed, and the identifiers for which a
      worker never overlaps two calls: while it is between lookup and record of
      one, no other call makes it look the identifier up. Calls of different
      identifiers always overlap freely. */
  datatype Config = Config(rules: seq<Rule>, threshold: int, exclusive: string -> bool)

  /** One call: the votes decided but not yet recorded, those recorded and sent,
      those the collector has taken and the timeouts it has seen. Workers may
      still be busy when the call has returned. */
  datatype Call = Call(tx: Tx, looked: map<nat, Vote>, cast: map<nat, Vote>, taken: set<nat>, missed: nat, done: bool)

  /** An approving result and the workers that voted for it. */
  datatype Approval = Approval(call: nat, tx: Tx, yes: set<nat>)

  /** The workers' tables survive a restart; the calls do not. */
  datatype Net = Net(tables: seq<map<string, Vote>>, calls: map<nat, Call>, used: set<nat>, approvals: seq<Approval>)

  datatype Step =
    | Start(c: nat, request: Tx, generated: string)
    | Look(c: nat, i: nat, now: int)
    | Record(c: nat, i: nat)
    | Take(c: nat, i: nat)
    | Timeout(c: nat)
    | Conclude(c: nat)
    | Restart

  /** The taken votes that approve. */
  function YesOf(call: Call): set<nat> {
    set i | i in call.taken && i in call.cast && call.cast[i].approved
  }

  predicate Collecting(cfg: Config, call: Call) {
    !call.done && |call.taken| + call.missed < |cfg.rules|
  }

  /** The worker is between its lookup and its record of the same identifier
      for another call. */
  predicate Busy(n: Net, c: nat, i: nat)
    requires c in n.calls
  {
    exists d :: d in n.calls && d != c && n.calls[d].tx.id == n.calls[c].tx.id && i in n.calls[d].looked
  }

  function Put(n: Net, c: nat, call: Call): Net {
    n.(calls := n.calls[c := call])
  }

  function Next(cfg: Config, n: Net, step: Step): Net
    requires |n.tables| == |cfg.rules|
    ensures |Next(cfg, n, step).tables| == |cfg.rules|
  {
    match step
    case Restart => n.(calls := map[])
    case Start(c, request, generated) =>
      if c in n.used then n
      else
        var tx := if request.id == "" then request.(id := "TX-" + generated) else request;
        n.(calls := n.calls[c := Call(tx, map[], map[], {}, 0, false)], used := n.used + {c})
    case _ => if step.c in n.calls then Act(cfg, n, step, n.calls[step.c]) else n
  }

  function Act(cfg: Config, n: Net, step: Step, call: Call): Net
    requires |n.tables| == |cfg.rules| && !step.Restart? && !step.Start? && step.c in n.calls
    ensures |Act(cfg, n, step, call).tables| == |cfg.rules|
  {
    match step
    case Look(c, i, now) =>
      if i >= |cfg.rules| || i in call.looked || i in call.cast then n
      else if cfg.exclusive(n.calls[c].tx.id) && Busy(n, c, i) then n
      else Put(n, c, call.(looked := call.looked[i := Judge(cfg.rules[i], n.tables[i], call.tx, now)]))
    case Record(c, i) =>
      if i >= |cfg.rules| || i !in call.looked then n
      else
        var vote := call.looked[i];
        Put(n.(tables := n.tables[i := Remember(n.tables[i], call.tx.id, vote)]), c,
            call.(looked := call.looked - {i}, cast := call.cast[i := vote]))
    case Take(c, i) =>
      if !Collecting(cfg, call) || i !in call.cast || i in call.taken then n
      else Put(n, c, call.(taken := call.taken + {i}))
    case Timeout(c) =>
      if !Collecting(cfg, call) then n else Put(n, c, call.(missed := call.missed + 1))
    case Conclude(c) =>
      if call.done || |cfg.rules| == 0 || |call.taken| + call.missed != |cfg.rules| then n
      else
        var over := Put(n, c, call.(done := true));
        if |YesOf(call)| >= cfg.threshold then over.(approvals := n.approvals + [Approval(c, call.tx, YesOf(call))])
        else over
  }

  function Play(cfg: Config, n: Net, schedule: seq<Step>): Net
    requires |n.tables| == |cfg.rules|
    ensures |Play(cfg, n, schedule).tables| == |cfg.rules|
  {
    if schedule == [] then n
    else Next(cfg, Play(cfg, n, schedule[..|schedule| - 1]), schedule[|schedule| - 1])
  }

  function EmptyTables(k: nat): (r: seq<map<string, Vote>>)
    ensures |r| == k && forall i :: 0 <= i < k ==> r[i] == map[]
  {
    if k == 0 then [] else EmptyTables(k - 1) + [map[]]
  }

  function Fresh(cfg: Config): (n: Net)
    ensures |n.tables| == |cfg.rules|
  {
    Net(EmptyTables(|cfg.rules|), map[], {}, [])
  }

  // ---- the invariant ----

  predicate CallOk(cfg: Config, n: Net, call: Call)
    requires |n.tables| == |cfg.rules|
  {
    && call.tx.id != ""
    && call.looked.Keys !! call.cast.Keys && call.taken <= call.cast.Keys
    && (forall i :: i in call.looked ==>
          && i < |cfg.rules|
          && (call.looked[i].approved ==> Willing(cfg.rules[i], call.tx))
          && (call.looked[i].approved && cfg.exclusive(call.tx.id) ==> call.tx.id !in n.tables[i]))
    && (forall i :: i in call.cast ==>
          i < |cfg.rules| && call.tx.id in n.tables[i] && (call.cast[i].approved ==> Willing(cfg.rules[i], call.tx)))
  }

  function Approved(call: Call): set<nat> {
    set i | i in call.cast && call.cast[i].approved
  }

  /** None of the workers has approved an exclusive identifier for this call
      too. */
  predicate Exclusive(cfg: Config, id: string, yes: set<nat>, call: Call) {
    cfg.exclusive(id) && call.tx.id == id ==> yes !! Approved(call)
  }

  predicate Apart(cfg: Config, a: Call, b: Call) {
    && (cfg.exclusive(a.tx.id) && a.tx.id == b.tx.id ==> a.looked.Keys !! b.looked.Keys)
    && Exclusive(cfg, a.tx.id, Approved(a), b)
  }

  predicate ApprovalOk(cfg: Config, n: Net, a: Approval)
    requires |n.tables| == |cfg.rules|
  {
    && |a.yes| >= cfg.threshold && a.call in n.used
    && (forall i :: i in a.yes ==> i < |cfg.rules| && a.tx.id in n.tables[i] && Willing(cfg.rules[i], a.tx))
    && (a.call in n.calls ==> n.calls[a.call].done && n.calls[a.call].tx == a.tx)
    && (forall d :: d in n.calls && d != a.call ==> Exclusive(cfg, a.tx.id, a.yes, n.calls[d]))
  }

  predicate Separate(cfg: Config, a: Approval, b: Approval) {
    a.call != b.call && (cfg.exclusive(a.tx.id) && a.tx.id == b.tx.id ==> a.yes !! b.yes)
  }

  predicate Inv(cfg: Config, n: Net) {
    && |n.tables| == |cfg.rules| && n.calls.Keys <= n.used
    && (forall c :: c in n.calls ==> CallOk(cfg, n, n.calls[c]))
    && (forall c, d :: c in n.calls && d in n.calls && c != d ==> Apart(cfg, n.calls[c], n.calls[d]))
    && (forall k :: 0 <= k < |n.approvals| ==> ApprovalOk(cfg, n, n.approvals[k]))
    && (forall j, k :: 0 <= j < k < |n.approvals| ==> Separate(cfg, n.approvals[j], n.approvals[k]))
  }

  lemma ChangeKeepsApproval(cfg: Config, n: Net, m: Net, c: nat, call: Call, a: Approval)
    requires |n.tables| == |m.tables| == |cfg.rules| && c in n.calls && m == Put(n.(tables := m.tables), c, call)
    requires forall k :: 0 <= k < |n.tables| ==> n.tables[k].Keys <= m.tables[k].Keys
    requires a.call != c ==> Exclusive(cfg, a.tx.id, a.yes, call)
    requires (n.calls[c].done ==> call.done) && call.tx == n.calls[c].tx && ApprovalOk(cfg, n, a)
    ensures ApprovalOk(cfg, m, a)
  {
  }

  /** What has been recorded cannot be looked up as new. */
  lemma ApartFrom(cfg: Config, m: Net, a: Call, b: Call)
    requires |m.tables| == |cfg.rules| && CallOk(cfg, m, a) && CallOk(cfg, m, b) && Apart(cfg, a, b)
    ensures Apart(cfg, b, a)
  {
  }

  /** The tables may grow, and one call may change as long as it stays apart
      from the others and from the approvals. */
  lemma ChangeKeepsInv(cfg: Config, n: Net, m: Net, c: nat, call: Call)
    requires Inv(cfg, n) && c in n.calls && |m.tables| == |n.tables| && m == Put(n.(tables := m.tables), c, call)
    requires forall k :: 0 <= k < |n.tables| ==> n.tables[k].Keys <= m.tables[k].Keys
    requires forall d :: d in n.calls ==> CallOk(cfg, m, m.calls[d])
    requires forall d :: d in n.calls && d != c ==> Apart(cfg, call, n.calls[d])
    requires forall k :: 0 <= k < |n.approvals| && n.approvals[k].call != c ==>
      Exclusive(cfg, n.approvals[k].tx.id, n.approvals[k].yes, call)
    requires (n.calls[c].done ==> call.done) && call.tx == n.calls[c].tx
    ensures Inv(cfg, m)
  {
    forall k | 0 <= k < |m.approvals|
      ensures ApprovalOk(cfg, m, m.approvals[k])
    {
      ChangeKeepsApproval(cfg, n, m, c, call, n.approvals[k]);
    }
    forall d | d in n.calls && d != c
      ensures Apart(cfg, n.calls[d], call)
    {
      ApartFrom(cfg, m, call, n.calls[d]);
    }
  }

  lemma ApprovalsStay(cfg: Config, n: Net, m: Net)
    requires Inv(cfg, n) && m.tables == n.tables && m.approvals == n.approvals && n.used <= m.used
    requires forall c :: c in m.calls ==>
      if c in n.calls then m.calls[c] == n.calls[c] else c !in n.used && Approved(m.calls[c]) == {}
    ensures forall k :: 0 <= k < |m.approvals| ==> ApprovalOk(cfg, m, m.approvals[k])
  {
    forall k | 0 <= k < |m.approvals|
      ensures ApprovalOk(cfg, m, m.approvals[k])
    {
      assert ApprovalOk(cfg, n, n.approvals[k]);
    }
  }

  lemma NewCallApart(cfg: Config, call: Call, d: Call)
    requires call.looked == map[] && call.cast == map[]
    ensures Apart(cfg, call, d) && Apart(cfg, d, call)
  {
    assert Approved(call) == {};
  }

  lemma StartKeepsInv(cfg: Config, n: Net, step: Step)
    requires Inv(cfg, n) && (step.Start? || step.Restart?)
    ensures Inv(cfg, Next(cfg, n, step))
  {
    var m := Next(cfg, n, step);
    if m.used != n.used {
      forall d | d in n.calls
        ensures Apart(cfg, m.calls[step.c], n.calls[d]) && Apart(cfg, n.calls[d], m.calls[step.c])
      {
        NewCallApart(cfg, m.calls[step.c], n.calls[d]);
      }
      assert Approved(m.calls[step.c]) == {};
    }
    ApprovalsStay(cfg, n, m);
  }

  lemma LookKeepsInv(cfg: Config, n: Net, c: nat, i: nat, now: int)
    requires Inv(cfg, n) && c in n.calls
    ensures Inv(cfg, Next(cfg, n, Look(c, i, now)))
  {
    var m, call := Next(cfg, n, Look(c, i, now)), n.calls[c];
    if m != n {
      ApprovalMeansWilling(cfg.rules[i], n.tables[i], call.tx, now);
      assert Approved(m.calls[c]) == Approved(call);
      forall k | 0 <= k < |n.approvals| && n.approvals[k].call != c
        ensures Exclusive(cfg, n.approvals[k].tx.id, n.approvals[k].yes, m.calls[c])
      {
        assert ApprovalOk(cfg, n, n.approvals[k]);
      }
      ChangeKeepsInv(cfg, n, m, c, m.calls[c]);
    }
  }

  /** A worker that approves has not recorded the identifier for anyone else. */
  lemma RecordIsExclusive(cfg: Config, n: Net, c: nat, i: nat)
    requires Inv(cfg, n) && c in n.calls && i in n.calls[c].looked
    ensures var call := Next(cfg, n, Record(c, i)).calls[c];
      && (forall d :: d in n.calls && d != c ==> Apart(cfg, call, n.calls[d]))
      && (forall k :: 0 <= k < |n.approvals| && n.approvals[k].call != c ==>
          Exclusive(cfg, n.approvals[k].tx.id, n.approvals[k].yes, call))
  {
    var was, call := n.calls[c], Next(cfg, n, Record(c, i)).calls[c];
    assert Approved(call) == Approved(was) + if was.looked[i].approved then {i} else {};
    forall d | d in n.calls && d != c
      ensures Apart(cfg, call, n.calls[d])
    {
      assert Apart(cfg, was, n.calls[d]) && CallOk(cfg, n, n.calls[d]);
    }
    forall k | 0 <= k < |n.approvals| && n.approvals[k].call != c
      ensures Exclusive(cfg, n.approvals[k].tx.id, n.approvals[k].yes, call)
    {
      assert ApprovalOk(cfg, n, n.approvals[k]);
    }
  }

  lemma RecordedOk(cfg: Config, n: Net, c: nat, i: nat)
    requires Inv(cfg, n) && c in n.calls && i in n.calls[c].looked
    ensures var m := Next(cfg, n, Record(c, i)); CallOk(cfg, m, m.calls[c])
    ensures forall k :: 0 <= k < |n.tables| ==> n.tables[k].Keys <= Next(cfg, n, Record(c, i)).tables[k].Keys
  {
    assert CallOk(cfg, n, n.calls[c]);
  }

  /** A record only adds to one table, where no other call waits to record. */
  lemma OthersOk(cfg: Config, n: Net, c: nat, i: nat, d: nat)
    requires Inv(cfg, n) && c in n.calls && i in n.calls[c].looked && d in n.calls && d != c
    ensures CallOk(cfg, Next(cfg, n, Record(c, i)), n.calls[d])
  {
    assert Apart(cfg, n.calls[c], n.calls[d]) && CallOk(cfg, n, n.calls[c]) && CallOk(cfg, n, n.calls[d]);
  }

  lemma RecordKeepsInv(cfg: Config, n: Net, c: nat, i: nat)
    requires Inv(cfg, n) && c in n.calls
    ensures Inv(cfg, Next(cfg, n, Record(c, i)))
  {
    if i in n.calls[c].looked {
      var m := Next(cfg, n, Record(c, i));
      RecordedOk(cfg, n, c, i);
      forall d | d in n.calls && d != c
        ensures CallOk(cfg, m, n.calls[d])
      {
        OthersOk(cfg, n, c, i, d);
      }
      RecordIsExclusive(cfg, n, c, i);
      ChangeKeepsInv(cfg, n, m, c, m.calls[c]);
    }
  }

  /** What the collector does changes no vote. */
  lemma CollectKeepsInv(cfg: Config, n: Net, c: nat, call: Call)
    requires Inv(cfg, n) && c in n.calls && call.taken <= call.cast.Keys
    requires call == n.calls[c].(taken := call.taken, missed := call.missed, done := call.done)
    requires (n.calls[c].done ==> call.done)
    ensures Inv(cfg, Put(n, c, call))
  {
    assert Approved(call) == Approved(n.calls[c]);
    forall k | 0 <= k < |n.approvals| && n.approvals[k].call != c
      ensures Exclusive(cfg, n.approvals[k].tx.id, n.approvals[k].yes, call)
    {
      assert ApprovalOk(cfg, n, n.approvals[k]);
    }
    assert CallOk(cfg, n, n.calls[c]);
    ChangeKeepsInv(cfg, n, Put(n, c, call), c, call);
  }

  lemma ApproveKeepsInv(cfg: Config, n: Net, a: Approval)
    requires Inv(cfg, n) && a.call in n.calls && n.calls[a.call].done && a.tx == n.calls[a.call].tx
    requires a.yes <= Approved(n.calls[a.call]) && |a.yes| >= cfg.threshold
    requires forall k :: 0 <= k < |n.approvals| ==> n.approvals[k].call != a.call
    ensures Inv(cfg, n.(approvals := n.approvals + [a]))
  {
    var call, m := n.calls[a.call], n.(approvals := n.approvals + [a]);
    assert CallOk(cfg, n, call);
    forall d | d in n.calls && d != a.call
      ensures Exclusive(cfg, a.tx.id, a.yes, n.calls[d])
    {
      assert Apart(cfg, call, n.calls[d]);
    }
    forall k | 0 <= k < |n.approvals|
      ensures ApprovalOk(cfg, m, n.approvals[k]) && Separate(cfg, n.approvals[k], a)
    {
      assert ApprovalOk(cfg, n, n.approvals[k]);
    }
    assert ApprovalOk(cfg, m, a);
  }

  lemma ConcludeKeepsInv(cfg: Config, n: Net, c: nat)
    requires Inv(cfg, n) && c in n.calls
    ensures Inv(cfg, Next(cfg, n, Conclude(c)))
  {
    var call := n.calls[c];
    if !call.done {
      var over := Put(n, c, call.(done := true));
      CollectKeepsInv(cfg, n, c, call.(done := true));
      forall k | 0 <= k < |n.approvals|
        ensures n.approvals[k].call != c
      {
        assert ApprovalOk(cfg, n, n.approvals[k]);
      }
      if |YesOf(call)| >= cfg.threshold {
        ApproveKeepsInv(cfg, over, Approval(c, call.tx, YesOf(call)));
      }
    }
  }

  lemma CountKeepsInv(cfg: Config, n: Net, step: Step)
    requires Inv(cfg, n) && (step.Take? || step.Timeout?) && step.c in n.calls
    ensures Inv(cfg, Next(cfg, n, step))
  {
    var call := n.calls[step.c];
    assert call.taken <= call.cast.Keys by {
      assert CallOk(cfg, n, call);
    }
    var m := Next(cfg, n, step);
    if m != n {
      var now := if step.Timeout? then call.(missed := call.missed + 1) else call.(taken := call.taken + {step.i});
      assert m == Put(n, step.c, now);
      CollectKeepsInv(cfg, n, step.c, now);
    }
  }

  lemma StepKeepsInv(cfg: Config, n: Net, step: Step)
    requires Inv(cfg, n)
    ensures Inv(cfg, Next(cfg, n, step))
  {
    if step.Start? || step.Restart? {
      StartKeepsInv(cfg, n, step);
    } else if step.c in n.calls {
      match step {
        case Look(c, i, now) => LookKeepsInv(cfg, n, c, i, now);
        case Record(c, i) => RecordKeepsInv(cfg, n, c, i);
        case Take(_, _) => CountKeepsInv(cfg, n, step);
        case Timeout(_) => CountKeepsInv(cfg, n, step);
        case Conclude(c) => ConcludeKeepsInv(cfg, n, c);
      }
    }
  }

  /** Whatever overlaps, whoever times out and however often the process
      restarts. */
  lemma {:induction false} EveryScheduleKeepsInv(cfg: Config, schedule: seq<Step>)
    ensures Inv(cfg, Play(cfg, Fresh(cfg), schedule))
  {
    if schedule != [] {
      EveryScheduleKeepsInv(cfg, schedule[..|schedule| - 1]);
      StepKeepsInv(cfg, Play(cfg, Fresh(cfg), schedule[..|schedule| - 1]), schedule[|schedule| - 1]);
    }
  }

  // ---- what an approval guarantees ----

  predicate ApprovedOnce(approvals: seq<Approval>, id: string) {
    forall j, k :: 0 <= j < k < |approvals| ==> approvals[j].tx.id != id || approvals[k].tx.id != id
  }

  lemma DisjointFit(a: set<nat>, b: set<nat>, n: nat)
    requires a !! b && (forall i :: i in a + b ==> i < n)
    ensures |a| + |b| <= n
  {
    SubsetOfSameSize(a + b, Upto(n));
    assert |a + b| == |a| + |b|;
  }

  lemma InvApprovesOnce(cfg: Config, n: Net, id: string)
    requires Inv(cfg, n) && cfg.exclusive(id) && 2 * cfg.threshold > |cfg.rules|
    ensures ApprovedOnce(n.approvals, id)
  {
    forall j, k | 0 <= j < k < |n.approvals| && n.approvals[j].tx.id == id
      ensures n.approvals[k].tx.id != id
    {
      var a, b := n.approvals[j], n.approvals[k];
      assert Separate(cfg, a, b) && ApprovalOk(cfg, n, a) && ApprovalOk(cfg, n, b);
      if b.tx.id == id {
        DisjointFit(a.yes, b.yes, |cfg.rules|);
      }
    }
  }

  /** When two quorums must share a worker, an exclusive identifier is not
      approved twice, whatever else the workers overlap. */
  lemma NoSecondApproval(cfg: Config, schedule: seq<Step>, id: string)
    requires cfg.exclusive(id) && 2 * cfg.threshold > |cfg.rules|
    ensures ApprovedOnce(Play(cfg, Fresh(cfg), schedule).approvals, id)
  {
    EveryScheduleKeepsInv(cfg, schedule);
    InvApprovesOnce(cfg, Play(cfg, Fresh(cfg), schedule), id);
  }

  function WillingFor(cfg: Config, tx: Tx): set<nat> {
    set i | 0 <= i < |cfg.rules| && Willing(cfg.rules[i], tx)
  }

  lemma ApprovalNeedsWilling(cfg: Config, schedule: seq<Step>, a: Approval)
    requires a in Play(cfg, Fresh(cfg), schedule).approvals
    ensures |WillingFor(cfg, a.tx)| >= cfg.threshold
  {
    EveryScheduleKeepsInv(cfg, schedule);
    var n := Play(cfg, Fresh(cfg), schedule);
    var k :| 0 <= k < |n.approvals| && n.approvals[k] == a;
    assert ApprovalOk(cfg, n, a);
    SubsetOfSameSize(a.yes, WillingFor(cfg, a.tx));
  }

  /** With the four workers and a threshold of three, whatever is approved has
      a positive amount of at most a million TON. */
  lemma ApprovedAmount(cfg: Config, schedule: seq<Step>, a: Approval)
    requires cfg.rules == FOUR && cfg.threshold == 3 && a in Play(cfg, Fresh(cfg), schedule).approvals
    ensures 0 < a.tx.amount <= MAX_SAFE_AMOUNT
  {
    ApprovalNeedsWilling(cfg, schedule, a);
    assert WillingFor(cfg, a.tx) == WillingWorkers(a.tx);
    ThreeWillingIff(a.tx);
  }
}
