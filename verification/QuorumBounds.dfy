/** How votes come out: when an approval can be reached, the exact condition
    under which it stays the only one, when it is lost for good, and what a call
    that nothing overlaps does. */
module QuorumBounds {
  import opened Records
  import opened Consensus
  import opened Quorum

  // ---- reaching an approval ----

  /** Steps of calls under way: nothing starts and nothing restarts. */
  predicate Voting(schedule: seq<Step>) {
    forall step :: step in schedule ==> !step.Start? && !step.Restart?
  }

  ghost predicate Reaches(cfg: Config, n: Net, m: Net)
    requires |n.tables| == |cfg.rules|
  {
    exists schedule :: Voting(schedule) && Play(cfg, n, schedule) == m
  }

  lemma ReachHere(cfg: Config, n: Net)
    requires |n.tables| == |cfg.rules|
    ensures Reaches(cfg, n, n)
  {
    assert Play(cfg, n, []) == n;
  }

  lemma ReachStep(cfg: Config, n: Net, m: Net, step: Step)
    requires |n.tables| == |cfg.rules| && Reaches(cfg, n, m) && !step.Start? && !step.Restart?
    ensures |m.tables| == |cfg.rules| && Reaches(cfg, n, Next(cfg, m, step))
  {
    var schedule :| Voting(schedule) && Play(cfg, n, schedule) == m;
    assert (schedule + [step])[..|schedule|] == schedule;
    assert Play(cfg, n, schedule + [step]) == Next(cfg, m, step);
  }

  /** The worker is idle, does not know the identifier and will not object. */
  predicate CanVote(cfg: Config, n: Net, call: Call, i: nat)
    requires |n.tables| == |cfg.rules|
  {
    && i < |cfg.rules| && i !in call.looked && i !in call.cast && i !in call.taken
    && (cfg.exclusive(call.tx.id) ==> forall d :: d in n.calls && n.calls[d].tx.id == call.tx.id ==>
        i !in n.calls[d].looked)
    && call.tx.id !in n.tables[i] && Willing(cfg.rules[i], call.tx)
  }

  /** Only the tables of a group and one call have changed: the group's
      approvals have been taken. */
  predicate Voted(n: Net, m: Net, c: nat, group: set<nat>)
    requires c in n.calls
  {
    && |m.tables| == |n.tables| && (forall k :: 0 <= k < |n.tables| && k !in group ==> m.tables[k] == n.tables[k])
    && c in m.calls && m == Put(n.(tables := m.tables), c, m.calls[c])
    && var call, was := m.calls[c], n.calls[c];
      && call == was.(cast := call.cast, taken := was.taken + group)
      && call.cast.Keys == was.cast.Keys + group && YesOf(call) == YesOf(was) + group
  }

  /** One worker looks up and records. */
  lemma OneRecords(cfg: Config, from: Net, n: Net, c: nat, i: nat) returns (m: Net, vote: Vote)
    requires |from.tables| == |cfg.rules| && Reaches(cfg, from, n)
    requires |n.tables| == |cfg.rules| && c in n.calls && CanVote(cfg, n, n.calls[c], i)
    ensures Reaches(cfg, from, m) && |m.tables| == |n.tables| && vote.approved
    ensures forall k :: 0 <= k < |n.tables| && k != i ==> m.tables[k] == n.tables[k]
    ensures m == Put(n.(tables := m.tables), c, n.calls[c].(cast := n.calls[c].cast[i := vote]))
  {
    var call := n.calls[c];
    vote := Judge(cfg.rules[i], n.tables[i], call.tx, call.tx.stamp);
    var looked := Next(cfg, n, Look(c, i, call.tx.stamp));
    assert looked == Put(n, c, call.(looked := call.looked[i := vote]));
    ReachStep(cfg, from, n, Look(c, i, call.tx.stamp));
    assert call.looked[i := vote] - {i} == call.looked;
    m := Next(cfg, looked, Record(c, i));
    ReachStep(cfg, from, looked, Record(c, i));
  }

  /** Its vote is taken. */
  lemma OneVotes(cfg: Config, from: Net, n: Net, c: nat, i: nat) returns (m: Net)
    requires |from.tables| == |cfg.rules| && Reaches(cfg, from, n)
    requires |n.tables| == |cfg.rules| && c in n.calls && CanVote(cfg, n, n.calls[c], i) && Collecting(cfg, n.calls[c])
    ensures Reaches(cfg, from, m) && Voted(n, m, c, {i})
  {
    var mid, vote := OneRecords(cfg, from, n, c, i);
    m := Next(cfg, mid, Take(c, i));
    ReachStep(cfg, from, mid, Take(c, i));
    NewVote(n.calls[c], m.calls[c], i, vote);
  }

  lemma NewVote(was: Call, call: Call, i: nat, vote: Vote)
    requires call == was.(cast := was.cast[i := vote], taken := was.taken + {i}) && vote.approved && i !in was.cast
    ensures call.cast.Keys == was.cast.Keys + {i} && YesOf(call) == YesOf(was) + {i}
  {
  }

  lemma VotedMore(n: Net, mid: Net, m: Net, c: nat, some: set<nat>, more: set<nat>)
    requires c in n.calls && Voted(n, mid, c, some) && Voted(mid, m, c, more)
    ensures Voted(n, m, c, some + more)
  {
    assert n.calls[c].taken + some + more == n.calls[c].taken + (some + more);
    assert n.calls[c].cast.Keys + some + more == n.calls[c].cast.Keys + (some + more);
    assert YesOf(n.calls[c]) + some + more == YesOf(n.calls[c]) + (some + more);
  }

  lemma StillCanVote(cfg: Config, n: Net, m: Net, c: nat, group: set<nat>, i: nat)
    requires |n.tables| == |cfg.rules| && c in n.calls && Voted(n, m, c, group) && i !in group
    requires CanVote(cfg, n, n.calls[c], i)
    ensures CanVote(cfg, m, m.calls[c], i)
  {
  }

  lemma NobodyVotes(n: Net, c: nat)
    requires c in n.calls
    ensures Voted(n, n, c, {})
  {
    assert n.calls[c].taken + {} == n.calls[c].taken && n.calls[c].cast.Keys + {} == n.calls[c].cast.Keys;
    assert YesOf(n.calls[c]) + {} == YesOf(n.calls[c]);
  }

  lemma NextVotes(cfg: Config, from: Net, n: Net, before: Net, c: nat, rest: set<nat>, i: nat) returns (m: Net)
    requires |from.tables| == |cfg.rules| && Reaches(cfg, from, before)
    requires |n.tables| == |cfg.rules| && c in n.calls && Voted(n, before, c, rest) && i !in rest
    requires CanVote(cfg, n, n.calls[c], i)
    requires !n.calls[c].done && |n.calls[c].taken| + n.calls[c].missed + |rest| < |cfg.rules|
    ensures Reaches(cfg, from, m) && Voted(n, m, c, rest + {i})
  {
    StillCanVote(cfg, n, before, c, rest, i);
    assert |n.calls[c].taken + rest| <= |n.calls[c].taken| + |rest|;
    m := OneVotes(cfg, from, before, c, i);
    VotedMore(n, before, m, c, rest, {i});
  }

  /** A group of such workers votes, one after another. */
  lemma {:induction false} AllVote(cfg: Config, from: Net, n: Net, c: nat, group: set<nat>) returns (m: Net)
    requires |from.tables| == |cfg.rules| && Reaches(cfg, from, n)
    requires |n.tables| == |cfg.rules| && c in n.calls && (forall i :: i in group ==> CanVote(cfg, n, n.calls[c], i))
    requires !n.calls[c].done && |n.calls[c].taken| + n.calls[c].missed + |group| <= |cfg.rules|
    ensures Reaches(cfg, from, m) && Voted(n, m, c, group)
    decreases group
  {
    if group == {} {
      m := n;
      NobodyVotes(n, c);
    } else {
      var i :| i in group;
      var rest := group - {i};
      assert rest + {i} == group;
      var before := AllVote(cfg, from, n, c, rest);
      m := NextVotes(cfg, from, n, before, c, rest, i);
    }
  }

  lemma {:induction false} Timeouts(cfg: Config, from: Net, n: Net, c: nat, k: nat) returns (m: Net)
    requires |from.tables| == |cfg.rules| && Reaches(cfg, from, n) && |n.tables| == |cfg.rules| && c in n.calls
    requires !n.calls[c].done && |n.calls[c].taken| + n.calls[c].missed + k <= |cfg.rules|
    ensures Reaches(cfg, from, m) && m == Put(n, c, n.calls[c].(missed := n.calls[c].missed + k))
  {
    if k == 0 {
      m := n;
    } else {
      var before := Timeouts(cfg, from, n, c, k - 1);
      m := Next(cfg, before, Timeout(c));
      ReachStep(cfg, from, before, Timeout(c));
    }
  }

  lemma Concludes(cfg: Config, from: Net, n: Net, c: nat) returns (m: Net)
    requires |from.tables| == |cfg.rules| && Reaches(cfg, from, n) && |n.tables| == |cfg.rules| > 0
    requires c in n.calls && !n.calls[c].done && |n.calls[c].taken| + n.calls[c].missed == |cfg.rules|
    requires |YesOf(n.calls[c])| >= cfg.threshold
    ensures Reaches(cfg, from, m)
    ensures m ==
      Put(n, c, n.calls[c].(done := true)).(approvals := n.approvals + [Approval(c, n.calls[c].tx, YesOf(n.calls[c]))])
  {
    m := Next(cfg, n, Conclude(c));
    ReachStep(cfg, from, n, Conclude(c));
  }

  /** A group of the threshold's size votes, everyone else times out, and the
      call is approved. */
  lemma GroupApproves(cfg: Config, from: Net, n: Net, c: nat, group: set<nat>) returns (m: Net)
    requires |from.tables| == |cfg.rules| && Reaches(cfg, from, n)
    requires |n.tables| == |cfg.rules| > 0 && c in n.calls
    requires (forall i :: i in group ==> CanVote(cfg, n, n.calls[c], i))
    requires n.calls[c].taken == {} && n.calls[c].missed == 0 && !n.calls[c].done && |group| >= cfg.threshold
    ensures Reaches(cfg, from, m) && |m.tables| == |cfg.rules|
    ensures forall k :: 0 <= k < |n.tables| && k !in group ==> m.tables[k] == n.tables[k]
    ensures m.calls.Keys == n.calls.Keys && m.calls[c].looked == n.calls[c].looked && m.calls[c].done
    ensures forall d :: d in n.calls && d != c ==> m.calls[d] == n.calls[d]
    ensures m.approvals == n.approvals + [Approval(c, n.calls[c].tx, group)]
  {
    SubsetOfSameSize(group, Upto(|cfg.rules|));
    var voted := AllVote(cfg, from, n, c, group);
    AllYes(n.calls[c], voted.calls[c], group);
    m := RestTimeOut(cfg, from, voted, c, group);
  }

  /** Once a group's votes are taken, timeouts for the rest lead to approval. */
  lemma RestTimeOut(cfg: Config, from: Net, n: Net, c: nat, group: set<nat>) returns (m: Net)
    requires |from.tables| == |cfg.rules| > 0 && Reaches(cfg, from, n) && |n.tables| == |cfg.rules| && c in n.calls
    requires n.calls[c].taken == YesOf(n.calls[c]) == group && n.calls[c].missed == 0 && !n.calls[c].done
    requires cfg.threshold <= |group| <= |cfg.rules|
    ensures Reaches(cfg, from, m) && m.tables == n.tables
    ensures m.calls == n.calls[c := n.calls[c].(missed := |cfg.rules| - |group|, done := true)]
    ensures m.approvals == n.approvals + [Approval(c, n.calls[c].tx, group)]
  {
    var late := Timeouts(cfg, from, n, c, |cfg.rules| - |group|);
    assert YesOf(late.calls[c]) == YesOf(n.calls[c]);
    m := Concludes(cfg, from, late, c);
  }

  lemma AllYes(was: Call, call: Call, group: set<nat>)
    requires was.taken == {} && call.taken == was.taken + group && YesOf(call) == YesOf(was) + group
    ensures call.taken == YesOf(call) == group
  {
    assert YesOf(was) == {};
  }

  /** Two calls for one transaction. */
  lemma TwoStarted(cfg: Config, tx: Tx) returns (n: Net, schedule: seq<Step>)
    requires tx.id != ""
    ensures n == Play(cfg, Fresh(cfg), schedule) && n == Fresh(cfg).(calls := n.calls, used := {0, 1})
    ensures Reaches(cfg, n, n)
    ensures n.calls == map[0 := Call(tx, map[], map[], {}, 0, false), 1 := Call(tx, map[], map[], {}, 0, false)]
  {
    var one := Next(cfg, Fresh(cfg), Start(0, tx, ""));
    n := Next(cfg, one, Start(1, tx, ""));
    schedule := [] + [Start(0, tx, "")] + [Start(1, tx, "")];
    PlayStep(cfg, Fresh(cfg), [], Start(0, tx, ""));
    PlayStep(cfg, Fresh(cfg), [] + [Start(0, tx, "")], Start(1, tx, ""));
    ReachHere(cfg, n);
  }

  lemma PlayStep(cfg: Config, n: Net, schedule: seq<Step>, step: Step)
    requires |n.tables| == |cfg.rules|
    ensures Play(cfg, n, schedule + [step]) == Next(cfg, Play(cfg, n, schedule), step)
  {
    assert (schedule + [step])[..|schedule|] == schedule;
  }

  lemma {:induction false} PlayAppend(cfg: Config, n: Net, a: seq<Step>, b: seq<Step>)
    requires |n.tables| == |cfg.rules|
    ensures Play(cfg, n, a + b) == Play(cfg, Play(cfg, n, a), b)
  {
    if b == [] {
      assert a + b == a;
    } else {
      assert (a + b)[..|a + b| - 1] == a + b[..|b| - 1];
      PlayAppend(cfg, n, a, b[..|b| - 1]);
    }
  }

  /** What is reached from a state that a schedule leads to is reached. */
  lemma ReachedFrom(cfg: Config, start: seq<Step>, n: Net, m: Net) returns (schedule: seq<Step>)
    requires n == Play(cfg, Fresh(cfg), start) && Reaches(cfg, n, m)
    ensures Play(cfg, Fresh(cfg), schedule) == m
  {
    var rest :| Voting(rest) && Play(cfg, n, rest) == m;
    PlayAppend(cfg, Fresh(cfg), start, rest);
    schedule := start + rest;
  }

  /** A transaction can be approved if and only if enough rules have nothing
      against it. */
  lemma ApprovableIff(cfg: Config, tx: Tx)
    requires |cfg.rules| > 0 && tx.id != ""
    ensures |WillingFor(cfg, tx)| >= cfg.threshold <==>
      exists schedule, a :: a in Play(cfg, Fresh(cfg), schedule).approvals && a.tx == tx
  {
    if |WillingFor(cfg, tx)| >= cfg.threshold {
      var n, start := TwoStarted(cfg, tx);
      var m := GroupApproves(cfg, n, n, 0, WillingFor(cfg, tx));
      var schedule := ReachedFrom(cfg, start, n, m);
      assert m.approvals[|n.approvals|] in Play(cfg, Fresh(cfg), schedule).approvals;
    }
    if schedule, a :| a in Play(cfg, Fresh(cfg), schedule).approvals && a.tx == tx {
      ApprovalNeedsWilling(cfg, schedule, a);
    }
  }

  /** The bound is exact: two disjoint groups of the threshold's size can each
      approve one of two overlapping calls. */
  lemma SecondApproval(cfg: Config, tx: Tx, a: set<nat>, b: set<nat>)
    requires |cfg.rules| > 0 && tx.id != "" && a !! b && a + b <= WillingFor(cfg, tx)
    requires |a| >= cfg.threshold && |b| >= cfg.threshold
    ensures exists schedule :: !ApprovedOnce(Play(cfg, Fresh(cfg), schedule).approvals, tx.id)
  {
    var n, start := TwoStarted(cfg, tx);
    var m := GroupApproves(cfg, n, n, 0, a);
    var o := GroupApproves(cfg, n, m, 1, b);
    assert o.approvals[0].tx.id == o.approvals[1].tx.id == tx.id;
    var schedule := ReachedFrom(cfg, start, n, o);
    assert !ApprovedOnce(Play(cfg, Fresh(cfg), schedule).approvals, tx.id);
  }

  // ---- workers that overlap two calls of one identifier ----

  lemma OneLooks(cfg: Config, from: Net, n: Net, c: nat, i: nat) returns (m: Net)
    requires |from.tables| == |cfg.rules| && Reaches(cfg, from, n)
    requires |n.tables| == |cfg.rules| && c in n.calls && !cfg.exclusive(n.calls[c].tx.id)
    requires CanVote(cfg, n, n.calls[c], i)
    ensures Reaches(cfg, from, m)
    ensures var call := n.calls[c];
      m == Put(n, c, call.(looked := call.looked[i := Vote(WorkerID(cfg.rules[i]), true, "")]))
  {
    m := Next(cfg, n, Look(c, i, n.calls[c].tx.stamp));
    ReachStep(cfg, from, n, Look(c, i, n.calls[c].tx.stamp));
  }

  /** A group of workers looks the identifier up for a call. */
  lemma {:induction false} AllLook(cfg: Config, from: Net, n: Net, c: nat, group: set<nat>) returns (m: Net)
    requires |from.tables| == |cfg.rules| && Reaches(cfg, from, n) && c in n.calls && !cfg.exclusive(n.calls[c].tx.id)
    requires |n.tables| == |cfg.rules| && (forall i :: i in group ==> CanVote(cfg, n, n.calls[c], i))
    ensures Reaches(cfg, from, m) && c in m.calls && m == Put(n, c, n.calls[c].(looked := m.calls[c].looked))
    ensures m.calls[c].looked.Keys == n.calls[c].looked.Keys + group
    ensures forall i :: i in group ==> m.calls[c].looked[i].approved
    decreases group
  {
    if group == {} {
      m := n;
    } else {
      var i :| i in group;
      var mid := AllLook(cfg, from, n, c, group - {i});
      m := OneLooks(cfg, from, mid, c, i);
    }
  }

  /** The approvals of a group have been recorded and taken. */
  predicate Finished(was: Call, call: Call, group: set<nat>) {
    && call == was.(looked := was.looked - group, cast := call.cast, taken := was.taken + group)
    && call.cast.Keys == was.cast.Keys + group && YesOf(call) == YesOf(was) + group
  }

  lemma RecordsNow(cfg: Config, from: Net, n: Net, c: nat, i: nat) returns (m: Net)
    requires |from.tables| == |cfg.rules| && Reaches(cfg, from, n) && |n.tables| == |cfg.rules| && c in n.calls
    requires i < |cfg.rules| && i in n.calls[c].looked
    ensures Reaches(cfg, from, m) && |m.tables| == |cfg.rules|
    ensures var call := n.calls[c];
      && m.tables == n.tables[i := Remember(n.tables[i], call.tx.id, call.looked[i])]
      && m == Put(n.(tables := m.tables), c, call.(looked := call.looked - {i}, cast := call.cast[i := call.looked[i]]))
  {
    m := Next(cfg, n, Record(c, i));
    ReachStep(cfg, from, n, Record(c, i));
  }

  lemma TakesNow(cfg: Config, from: Net, n: Net, c: nat, i: nat) returns (m: Net)
    requires |from.tables| == |cfg.rules| && Reaches(cfg, from, n) && |n.tables| == |cfg.rules| && c in n.calls
    requires Collecting(cfg, n.calls[c]) && i in n.calls[c].cast && i !in n.calls[c].taken
    ensures Reaches(cfg, from, m) && m == Put(n, c, n.calls[c].(taken := n.calls[c].taken + {i}))
  {
    m := Next(cfg, n, Take(c, i));
    ReachStep(cfg, from, n, Take(c, i));
  }

  lemma OneFinishes(cfg: Config, from: Net, n: Net, c: nat, i: nat) returns (m: Net)
    requires |from.tables| == |cfg.rules| && Reaches(cfg, from, n) && |n.tables| == |cfg.rules| && c in n.calls
    requires CanFinish(cfg, n.calls[c], {i}) && Collecting(cfg, n.calls[c])
    ensures Reaches(cfg, from, m) && |m.tables| == |cfg.rules| && c in m.calls
    ensures m == Put(n.(tables := m.tables), c, m.calls[c]) && Finished(n.calls[c], m.calls[c], {i})
  {
    assert i in {i};
    var recorded := RecordsNow(cfg, from, n, c, i);
    m := TakesNow(cfg, from, recorded, c, i);
    VoteFinished(n.calls[c], m.calls[c], i);
  }

  lemma VoteFinished(was: Call, call: Call, i: nat)
    requires i in was.looked && was.looked[i].approved && i !in was.cast
    requires call == was.(looked := was.looked - {i}, cast := was.cast[i := was.looked[i]], taken := was.taken + {i})
    ensures Finished(was, call, {i})
  {
  }

  lemma FinishedMore(n: Net, mid: Net, m: Net, c: nat, some: set<nat>, more: set<nat>)
    requires c in n.calls && c in mid.calls && c in m.calls
    requires mid == Put(n.(tables := mid.tables), c, mid.calls[c]) && m == Put(mid.(tables := m.tables), c, m.calls[c])
    requires Finished(n.calls[c], mid.calls[c], some) && Finished(mid.calls[c], m.calls[c], more)
    ensures m == Put(n.(tables := m.tables), c, m.calls[c]) && Finished(n.calls[c], m.calls[c], some + more)
  {
    var was := n.calls[c];
    assert was.taken + some + more == was.taken + (some + more);
    assert was.looked - some - more == was.looked - (some + more);
  }

  predicate CanFinish(cfg: Config, call: Call, group: set<nat>) {
    && (forall i :: i in group ==>
          i < |cfg.rules| && i in call.looked && call.looked[i].approved && i !in call.taken && i !in call.cast)
    && !call.done && |call.taken| + call.missed + |group| <= |cfg.rules|
  }

  lemma StillCanFinish(cfg: Config, was: Call, call: Call, group: set<nat>, i: nat)
    requires CanFinish(cfg, was, group) && i in group && Finished(was, call, group - {i})
    ensures CanFinish(cfg, call, {i}) && Collecting(cfg, call)
  {
    var rest := group - {i};
    assert |was.taken + rest| <= |was.taken| + |rest|;
    assert i in call.looked && call.looked[i] == was.looked[i];
  }

  /** Whatever others have recorded since. */
  lemma {:induction false} AllFinish(cfg: Config, from: Net, n: Net, c: nat, group: set<nat>) returns (m: Net)
    requires |from.tables| == |cfg.rules| && Reaches(cfg, from, n) && |n.tables| == |cfg.rules|
    requires c in n.calls && CanFinish(cfg, n.calls[c], group)
    ensures Reaches(cfg, from, m) && |m.tables| == |cfg.rules| && c in m.calls
    ensures m == Put(n.(tables := m.tables), c, m.calls[c])
    ensures Finished(n.calls[c], m.calls[c], group)
    decreases group
  {
    if group == {} {
      m := n;
      var was := n.calls[c];
      assert was.taken + group == was.taken && was.looked - group == was.looked && YesOf(was) + group == YesOf(was);
    } else {
      var i :| i in group;
      var rest := group - {i};
      assert rest + {i} == group;
      var mid := AllFinish(cfg, from, n, c, rest);
      StillCanFinish(cfg, n.calls[c], mid.calls[c], group, i);
      m := OneFinishes(cfg, from, mid, c, i);
      FinishedMore(n, mid, m, c, rest, {i});
    }
  }

  /** A call whose group has all looked up ends in an approval. */
  lemma LookedApproves(cfg: Config, from: Net, n: Net, c: nat, group: set<nat>) returns (m: Net)
    requires |from.tables| == |cfg.rules| > 0 && Reaches(cfg, from, n) && |n.tables| == |cfg.rules| && c in n.calls
    requires var call := n.calls[c];
      && (forall i :: i in group ==> i < |cfg.rules| && i in call.looked && call.looked[i].approved)
      && !call.done && call.taken == {} && call.missed == 0 && call.cast == map[]
    requires |group| >= cfg.threshold
    ensures Reaches(cfg, from, m) && m.approvals == n.approvals + [Approval(c, n.calls[c].tx, group)]
  {
    SubsetOfSameSize(group, Upto(|cfg.rules|));
    var finished := AllFinish(cfg, from, n, c, group);
    AllYes(n.calls[c], finished.calls[c], group);
    m := RestTimeOut(cfg, from, finished, c, group);
  }

  /** If workers may interleave lookup and record of one identifier, no
      threshold prevents a second approval: one group can approve both of two
      overlapping calls. */
  lemma OverlapApprovesTwice(cfg: Config, tx: Tx)
    requires !cfg.exclusive(tx.id) && |cfg.rules| > 0 && tx.id != "" && |WillingFor(cfg, tx)| >= cfg.threshold
    ensures exists schedule :: !ApprovedOnce(Play(cfg, Fresh(cfg), schedule).approvals, tx.id)
  {
    var group := WillingFor(cfg, tx);
    var n, start := TwoStarted(cfg, tx);
    var m := AllLook(cfg, n, n, 0, group);
    var o := GroupApproves(cfg, n, m, 1, group);
    var p := LookedApproves(cfg, n, o, 0, group);
    assert p.approvals[0].tx.id == p.approvals[1].tx.id == tx.id;
    var schedule := ReachedFrom(cfg, start, n, p);
    assert !ApprovedOnce(Play(cfg, Fresh(cfg), schedule).approvals, tx.id);
  }

  // ---- the exact condition ----

  /** A transaction that every rule accepts. */
  function Harmless(id: string): Tx {
    Tx(id, "0123456789", "b", 1, 0)
  }

  lemma AllAccept(cfg: Config, id: string)
    ensures WillingFor(cfg, Harmless(id)) == Upto(|cfg.rules|)
  {
    assert |Harmless(id).from| == 10 && Harmless(id).toService != "";
    assert forall i :: 0 <= i < |cfg.rules| ==> Willing(cfg.rules[i], Harmless(id));
  }

  lemma TwoGroups(k: nat, n: nat) returns (a: set<nat>, b: set<nat>)
    requires 2 * k <= n
    ensures a !! b && a + b <= Upto(n) && |a| == |b| == k
  {
    a, b := Upto(k), Upto(2 * k) - Upto(k);
    assert Upto(2 * k) == a + b;
  }

  /** An identifier is never approved twice if and only if no worker overlaps
      two calls of it and two quorums must share a worker. */
  lemma ApprovedOnceIff(cfg: Config, id: string)
    requires 0 < |cfg.rules| && cfg.threshold <= |cfg.rules| && id != ""
    ensures (forall schedule :: ApprovedOnce(Play(cfg, Fresh(cfg), schedule).approvals, id)) <==>
      cfg.exclusive(id) && 2 * cfg.threshold > |cfg.rules|
  {
    AllAccept(cfg, id);
    if cfg.exclusive(id) && 2 * cfg.threshold > |cfg.rules| {
      forall schedule: seq<Step>
        ensures ApprovedOnce(Play(cfg, Fresh(cfg), schedule).approvals, id)
      {
        NoSecondApproval(cfg, schedule, id);
      }
    } else if !cfg.exclusive(id) {
      OverlapApprovesTwice(cfg, Harmless(id));
    } else {
      var a, b := TwoGroups(if cfg.threshold > 0 then cfg.threshold else 0, |cfg.rules|);
      SecondApproval(cfg, Harmless(id), a, b);
    }
  }

  // ---- an identifier that is lost ----

  /** So many workers have recorded the identifier without approving a call that
      is still open that the rest are no quorum. */
  predicate Spent(cfg: Config, n: Net, id: string, group: set<nat>)
    requires |n.tables| == |cfg.rules|
  {
    && |group| > |cfg.rules| - cfg.threshold
    && (forall i :: i in group ==> i < |cfg.rules| && id in n.tables[i])
    && (forall c :: c in n.calls && n.calls[c].tx.id == id && !n.calls[c].done ==> Unapproved(n.calls[c], group))
  }

  predicate Unapproved(call: Call, group: set<nat>) {
    && (forall i :: i in group && i in call.looked ==> !call.looked[i].approved)
    && (forall i :: i in group && i in call.cast ==> !call.cast[i].approved)
  }

  /** The workers outside the group are too few. */
  lemma TooFew(cfg: Config, n: Net, call: Call, group: set<nat>)
    requires Inv(cfg, n) && CallOk(cfg, n, call) && Unapproved(call, group)
    requires |group| > |cfg.rules| - cfg.threshold && forall i :: i in group ==> i < |cfg.rules|
    ensures |YesOf(call)| < cfg.threshold
  {
    DisjointFit(YesOf(call), group, |cfg.rules|);
  }

  lemma TablesGrow(cfg: Config, n: Net, step: Step, id: string, group: set<nat>)
    requires |n.tables| == |cfg.rules| && forall i :: i in group ==> i < |cfg.rules| && id in n.tables[i]
    ensures forall i :: i in group ==> id in Next(cfg, n, step).tables[i]
  {
  }

  /** A worker that knows the identifier does not approve it. */
  lemma KnownIsUnapproved(rule: Rule, table: map<string, Vote>, tx: Tx, now: int)
    requires tx.id in table && tx.id != ""
    ensures !Judge(rule, table, tx, now).approved
  {
  }

  lemma LookStaysUnapproved(cfg: Config, n: Net, id: string, group: set<nat>, c: nat, i: nat, now: int)
    requires |n.tables| == |cfg.rules| && Spent(cfg, n, id, group) && id != ""
    requires c in n.calls && n.calls[c].tx.id == id && !n.calls[c].done
    ensures var m := Next(cfg, n, Look(c, i, now)); c in m.calls && Unapproved(m.calls[c], group)
  {
    if i in group {
      KnownIsUnapproved(cfg.rules[i], n.tables[i], n.calls[c].tx, now);
    }
  }

  lemma RecordStaysUnapproved(cfg: Config, n: Net, group: set<nat>, c: nat, i: nat)
    requires |n.tables| == |cfg.rules| && c in n.calls && Unapproved(n.calls[c], group)
    ensures var m := Next(cfg, n, Record(c, i)); c in m.calls && Unapproved(m.calls[c], group)
  {
  }

  /** The other steps leave a call's votes alone. */
  lemma VotesUntouched(cfg: Config, n: Net, step: Step, c: nat)
    requires |n.tables| == |cfg.rules| && n.calls.Keys <= n.used && !step.Restart?
    requires c in n.calls && !((step.Look? || step.Record?) && step.c == c)
    ensures var m := Next(cfg, n, step);
      && c in m.calls && m.calls[c].tx == n.calls[c].tx && (n.calls[c].done ==> m.calls[c].done)
      && m.calls[c].looked == n.calls[c].looked && m.calls[c].cast == n.calls[c].cast
  {
  }

  lemma LookingKeepsCall(cfg: Config, n: Net, step: Step)
    requires |n.tables| == |cfg.rules| && (step.Look? || step.Record?) && step.c in n.calls
    ensures var m := Next(cfg, n, step);
      step.c in m.calls && m.calls[step.c].tx == n.calls[step.c].tx && m.calls[step.c].done == n.calls[step.c].done
  {
  }

  lemma NewIsUnapproved(cfg: Config, n: Net, step: Step, group: set<nat>, c: nat)
    requires |n.tables| == |cfg.rules| && c !in n.calls && c in Next(cfg, n, step).calls
    ensures Unapproved(Next(cfg, n, step).calls[c], group)
  {
  }

  lemma CallsStayUnapproved(cfg: Config, n: Net, step: Step, id: string, group: set<nat>, c: nat)
    requires |n.tables| == |cfg.rules| && n.calls.Keys <= n.used && Spent(cfg, n, id, group) && id != ""
    requires var m := Next(cfg, n, step); c in m.calls && m.calls[c].tx.id == id && !m.calls[c].done
    ensures Unapproved(Next(cfg, n, step).calls[c], group)
  {
    if c !in n.calls {
      NewIsUnapproved(cfg, n, step, group, c);
    } else if (step.Look? || step.Record?) && step.c == c {
      LookingKeepsCall(cfg, n, step);
      if step.Look? {
        LookStaysUnapproved(cfg, n, id, group, c, step.i, step.now);
      } else {
        RecordStaysUnapproved(cfg, n, group, c, step.i);
      }
    } else {
      VotesUntouched(cfg, n, step, c);
    }
  }

  lemma NoNewApproval(cfg: Config, n: Net, step: Step, id: string, group: set<nat>)
    requires Inv(cfg, n) && Spent(cfg, n, id, group)
    ensures var m := Next(cfg, n, step);
      && n.approvals <= m.approvals
      && forall k :: |n.approvals| <= k < |m.approvals| ==> m.approvals[k].tx.id != id
  {
    if step.Conclude? && step.c in n.calls && n.calls[step.c].tx.id == id && !n.calls[step.c].done {
      assert CallOk(cfg, n, n.calls[step.c]);
      TooFew(cfg, n, n.calls[step.c], group);
    }
  }

  lemma StepStaysSpent(cfg: Config, n: Net, step: Step, id: string, group: set<nat>)
    requires Inv(cfg, n) && Spent(cfg, n, id, group) && id != ""
    ensures var m := Next(cfg, n, step);
      && Spent(cfg, m, id, group) && n.approvals <= m.approvals
      && forall k :: |n.approvals| <= k < |m.approvals| ==> m.approvals[k].tx.id != id
  {
    var m := Next(cfg, n, step);
    TablesGrow(cfg, n, step, id, group);
    NoNewApproval(cfg, n, step, id, group);
    forall c | c in m.calls && m.calls[c].tx.id == id && !m.calls[c].done
      ensures Unapproved(m.calls[c], group)
    {
      CallsStayUnapproved(cfg, n, step, id, group, c);
    }
  }

  /** An identifier that enough workers have recorded without an approval, for
      instance because the collector timed out, is never approved again. */
  lemma {:induction false} SpentForGood(cfg: Config, n: Net, schedule: seq<Step>, id: string, group: set<nat>)
    requires Inv(cfg, n) && Spent(cfg, n, id, group) && id != ""
    ensures var m := Play(cfg, n, schedule);
      && Inv(cfg, m) && Spent(cfg, m, id, group) && n.approvals <= m.approvals
      && forall k :: |n.approvals| <= k < |m.approvals| ==> m.approvals[k].tx.id != id
  {
    if schedule != [] {
      var init, step := schedule[..|schedule| - 1], schedule[|schedule| - 1];
      SpentForGood(cfg, n, init, id, group);
      StepKeepsInv(cfg, Play(cfg, n, init), step);
      StepStaysSpent(cfg, Play(cfg, n, init), step, id, group);
    }
  }

  // ---- an identifier that can still be approved ----

  /** The workers that have not recorded the identifier. */
  function Unrecorded(n: Net, id: string): set<nat> {
    set i | 0 <= i < |n.tables| && id !in n.tables[i]
  }

  function Recorded(n: Net, id: string): set<nat> {
    set i | 0 <= i < |n.tables| && id in n.tables[i]
  }

  /** No call on the identifier is open. */
  predicate Idle(n: Net, id: string) {
    forall c :: c in n.calls && n.calls[c].tx.id == id ==> n.calls[c].done
  }

  /** Some continuation approves the identifier, whatever has been before. */
  ghost predicate CanApprove(cfg: Config, n: Net, id: string)
    requires |n.tables| == |cfg.rules|
  {
    exists schedule, k ::
      |n.approvals| <= k < |Play(cfg, n, schedule).approvals| && Play(cfg, n, schedule).approvals[k].tx.id == id
  }

  lemma {:induction false} FreshNumber(used: set<nat>) returns (c: nat)
    ensures c !in used && forall d :: d in used ==> d < c
    decreases used
  {
    if used == {} {
      c := 0;
    } else {
      var d :| d in used;
      var rest := FreshNumber(used - {d});
      c := if d < rest then rest else d + 1;
      assert forall e :: e in used ==> e == d || e in used - {d};
    }
  }

  /** A new call after a restart: all workers that do not know the identifier
      can vote. */
  lemma StartedAgain(cfg: Config, n: Net, tx: Tx, c: nat) returns (m: Net)
    requires |n.tables| == |cfg.rules| && c !in n.used && tx.id != ""
    requires forall i :: 0 <= i < |cfg.rules| ==> Willing(cfg.rules[i], tx)
    ensures m == Next(cfg, Next(cfg, n, Restart), Start(c, tx, "")) && |m.tables| == |cfg.rules|
    ensures m.tables == n.tables && m.approvals == n.approvals
    ensures m.calls == map[c := Call(tx, map[], map[], {}, 0, false)]
    ensures forall i :: i in Unrecorded(n, tx.id) ==> CanVote(cfg, m, m.calls[c], i)
  {
    m := Next(cfg, Next(cfg, n, Restart), Start(c, tx, ""));
  }

  lemma PlayTwoAnd(cfg: Config, n: Net, a: Step, b: Step, rest: seq<Step>)
    requires |n.tables| == |cfg.rules|
    ensures Play(cfg, n, ([] + [a] + [b]) + rest) == Play(cfg, Next(cfg, Next(cfg, n, a), b), rest)
  {
    PlayStep(cfg, n, [], a);
    PlayStep(cfg, n, [] + [a], b);
    PlayAppend(cfg, n, [] + [a] + [b], rest);
  }

  /** They do, and the new call is approved. */
  lemma FreshCallApproves(cfg: Config, n: Net, tx: Tx, c: nat) returns (votes: seq<Step>)
    requires |n.tables| == |cfg.rules| > 0 && c !in n.used && tx.id != "" && |Unrecorded(n, tx.id)| >= cfg.threshold
    requires forall i :: 0 <= i < |cfg.rules| ==> Willing(cfg.rules[i], tx)
    ensures Voting(votes)
    ensures var m := Play(cfg, Next(cfg, Next(cfg, n, Restart), Start(c, tx, "")), votes);
      && m.approvals == n.approvals + [Approval(c, tx, Unrecorded(n, tx.id))]
      && c in m.calls && m.calls[c].done
  {
    var m := StartedAgain(cfg, n, tx, c);
    ReachHere(cfg, m);
    var o := GroupApproves(cfg, m, m, c, Unrecorded(n, tx.id));
    votes :| Voting(votes) && Play(cfg, m, votes) == o;
  }

  lemma EnoughApprove(cfg: Config, n: Net, id: string)
    requires |n.tables| == |cfg.rules| > 0 && id != "" && |Unrecorded(n, id)| >= cfg.threshold
    ensures CanApprove(cfg, n, id)
  {
    var tx := Harmless(id);
    AllAccept(cfg, id);
    assert forall i :: 0 <= i < |cfg.rules| ==> i in WillingFor(cfg, tx);
    var c := FreshNumber(n.used);
    var votes := FreshCallApproves(cfg, n, tx, c);
    PlayTwoAnd(cfg, n, Restart, Start(c, tx, ""), votes);
    var schedule := ([] + [Restart] + [Start(c, tx, "")]) + votes;
    assert Play(cfg, n, schedule).approvals[|n.approvals|].tx.id == id;
  }

  lemma FewAreSpent(cfg: Config, n: Net, id: string)
    requires |n.tables| == |cfg.rules| && Idle(n, id) && |Unrecorded(n, id)| < cfg.threshold
    ensures Spent(cfg, n, id, Recorded(n, id))
  {
    assert Recorded(n, id) + Unrecorded(n, id) == Upto(|n.tables|);
  }

  /** An identifier can be approved again if as many workers as the threshold
      have not recorded it; if no call on it is open, only then. */
  lemma ApprovableAgainIff(cfg: Config, n: Net, id: string)
    requires Inv(cfg, n) && id != "" && |cfg.rules| > 0
    ensures |Unrecorded(n, id)| >= cfg.threshold ==> CanApprove(cfg, n, id)
    ensures Idle(n, id) ==> (CanApprove(cfg, n, id) <==> |Unrecorded(n, id)| >= cfg.threshold)
  {
    if |Unrecorded(n, id)| >= cfg.threshold {
      EnoughApprove(cfg, n, id);
    } else if Idle(n, id) {
      FewAreSpent(cfg, n, id);
      forall schedule: seq<Step>, k | |n.approvals| <= k < |Play(cfg, n, schedule).approvals|
        ensures Play(cfg, n, schedule).approvals[k].tx.id != id
      {
        SpentForGood(cfg, n, schedule, id, Recorded(n, id));
      }
    }
  }

  // ---- a call that nothing overlaps ----

  /** The votes of the first k workers have been recorded and sent. */
  ghost predicate CastTo(cfg: Config, n: Net, m: Net, c: nat, now: int, k: nat)
    requires |n.tables| == |cfg.rules| && k <= |cfg.rules| && c in n.calls
  {
    && |m.tables| == |n.tables| && c in m.calls
    && m == Put(n.(tables := m.tables), c, n.calls[c].(cast := m.calls[c].cast))
    && (forall i :: i in m.calls[c].cast <==> 0 <= i < k)
    && (forall i :: 0 <= i < |n.tables| ==>
          var vote := Judge(cfg.rules[i], n.tables[i], n.calls[c].tx, now);
          if i < k then m.calls[c].cast[i] == vote && m.tables[i] == Remember(n.tables[i], n.calls[c].tx.id, vote)
          else m.tables[i] == n.tables[i])
  }

  lemma CastMore(cfg: Config, n: Net, mid: Net, m: Net, c: nat, now: int, k: nat, vote: Vote)
    requires |n.tables| == |cfg.rules| && k < |cfg.rules| && c in n.calls && CastTo(cfg, n, mid, c, now, k)
    requires vote == Judge(cfg.rules[k], n.tables[k], n.calls[c].tx, now)
    requires m == Put(mid.(tables := mid.tables[k := Remember(mid.tables[k], mid.calls[c].tx.id, vote)]), c,
                      mid.calls[c].(cast := mid.calls[c].cast[k := vote]))
    ensures CastTo(cfg, n, m, c, now, k + 1)
  {
  }

  lemma LooksAlone(cfg: Config, from: Net, n: Net, c: nat, now: int, k: nat) returns (m: Net)
    requires |from.tables| == |n.tables| == |cfg.rules| && k < |cfg.rules| && c in n.calls && k !in n.calls[c].cast
    requires forall d :: d in n.calls ==> n.calls[d].looked == map[]
    requires Reaches(cfg, from, n)
    ensures Reaches(cfg, from, m)
    ensures var call := n.calls[c];
      m == Put(n, c, call.(looked := map[k := Judge(cfg.rules[k], n.tables[k], call.tx, now)]))
  {
    assert !Busy(n, c, k);
    var call := n.calls[c];
    assert call.looked[k := Judge(cfg.rules[k], n.tables[k], call.tx, now)] ==
      map[k := Judge(cfg.rules[k], n.tables[k], call.tx, now)];
    m := Next(cfg, n, Look(c, k, now));
    ReachStep(cfg, from, n, Look(c, k, now));
  }

  lemma CastOne(cfg: Config, from: Net, n: Net, mid: Net, c: nat, now: int, k: nat) returns (m: Net)
    requires |n.tables| == |cfg.rules| && k < |cfg.rules| && c in n.calls && n.calls[c].looked == map[]
    requires forall d :: d in n.calls ==> n.calls[d].looked == map[]
    requires |from.tables| == |cfg.rules| && Reaches(cfg, from, mid) && CastTo(cfg, n, mid, c, now, k)
    ensures Reaches(cfg, from, m) && CastTo(cfg, n, m, c, now, k + 1)
  {
    var vote := Judge(cfg.rules[k], n.tables[k], n.calls[c].tx, now);
    assert mid.tables[k] == n.tables[k];
    var looked := LooksAlone(cfg, from, mid, c, now, k);
    m := RecordsNow(cfg, from, looked, c, k);
    assert map[k := vote] - {k} == map[];
    CastMore(cfg, n, mid, m, c, now, k, vote);
  }

  lemma {:induction false} CastAll(cfg: Config, n: Net, c: nat, now: int, k: nat) returns (m: Net)
    requires |n.tables| == |cfg.rules| && k <= |cfg.rules| && c in n.calls && n.calls[c].cast == map[]
    requires forall d :: d in n.calls ==> n.calls[d].looked == map[]
    ensures Reaches(cfg, n, m) && CastTo(cfg, n, m, c, now, k)
  {
    if k == 0 {
      m := n;
      ReachHere(cfg, n);
    } else {
      var mid := CastAll(cfg, n, c, now, k - 1);
      m := CastOne(cfg, n, n, mid, c, now, k - 1);
    }
  }

  /** The workers whose votes have arrived. */
  function Arrived(order: seq<Option<nat>>): (r: set<nat>)
    ensures forall i :: i in r <==> Some(i) in order
  {
    set i | 0 <= i < |order| && order[i].Some? :: order[i].value
  }

  lemma ArrivedMore(order: seq<Option<nat>>)
    requires order != []
    requires forall i, j :: 0 <= i < j < |order| && order[i].Some? && order[j].Some? ==> order[i] != order[j]
    ensures var init, last := order[..|order| - 1], order[|order| - 1];
      && Arrived(order) == Arrived(init) + (if last.Some? then {last.value} else {})
      && (last.Some? ==> last.value !in Arrived(init))
  {
    assert order == order[..|order| - 1] + [order[|order| - 1]];
  }

  /** The collector has been through so many rounds and taken these votes. */
  predicate Collected(n: Net, m: Net, c: nat, arrived: set<nat>, rounds: nat)
    requires c in n.calls
  {
    && c in m.calls && m == Put(n, c, n.calls[c].(taken := arrived, missed := m.calls[c].missed))
    && |arrived| + m.calls[c].missed == rounds
  }

  /** Each arrival is the vote of a different worker. */
  predicate Distinct(order: seq<Option<nat>>, n: nat) {
    && (forall i :: 0 <= i < |order| && order[i].Some? ==> order[i].value < n)
    && (forall i, j :: 0 <= i < j < |order| && order[i].Some? && order[j].Some? ==> order[i] != order[j])
  }

  lemma CollectOne(cfg: Config, from: Net, n: Net, mid: Net, c: nat, before: set<nat>, rounds: nat, last: Option<nat>)
    returns (m: Net)
    requires |from.tables| == |cfg.rules| && Reaches(cfg, from, mid) && |n.tables| == |cfg.rules| && c in n.calls
    requires !n.calls[c].done && rounds < |cfg.rules| && Collected(n, mid, c, before, rounds)
    requires last.Some? ==> last.value in n.calls[c].cast && last.value !in before
    ensures Reaches(cfg, from, m) && Collected(n, m, c, before + if last.Some? then {last.value} else {}, rounds + 1)
  {
    if last.Some? {
      m := TakesNow(cfg, from, mid, c, last.value);
    } else {
      m := Timeouts(cfg, from, mid, c, 1);
      assert before + {} == before;
    }
  }

  lemma {:induction false} CollectAll(cfg: Config, from: Net, n: Net, c: nat, order: seq<Option<nat>>) returns (m: Net)
    requires |from.tables| == |cfg.rules| && Reaches(cfg, from, n) && |n.tables| == |cfg.rules| && c in n.calls
    requires n.calls[c].taken == {} && n.calls[c].missed == 0 && !n.calls[c].done
    requires |order| <= |cfg.rules| && Distinct(order, |cfg.rules|)
    requires forall i :: 0 <= i < |cfg.rules| ==> i in n.calls[c].cast
    ensures Reaches(cfg, from, m) && Collected(n, m, c, Arrived(order), |order|)
  {
    if order == [] {
      m := n;
      assert Arrived(order) == {};
    } else {
      var init, last := order[..|order| - 1], order[|order| - 1];
      var mid := CollectAll(cfg, from, n, c, init);
      ArrivedMore(order);
      m := CollectOne(cfg, from, n, mid, c, Arrived(init), |init|, last);
    }
  }

  lemma ConcludesEither(cfg: Config, from: Net, n: Net, c: nat) returns (m: Net)
    requires |from.tables| == |cfg.rules| && Reaches(cfg, from, n) && |n.tables| == |cfg.rules| > 0
    requires c in n.calls && !n.calls[c].done && |n.calls[c].taken| + n.calls[c].missed == |cfg.rules|
    ensures Reaches(cfg, from, m) && m.tables == n.tables && m.calls == n.calls[c := n.calls[c].(done := true)]
    ensures m.approvals == n.approvals +
      if |YesOf(n.calls[c])| >= cfg.threshold then [Approval(c, n.calls[c].tx, YesOf(n.calls[c]))] else []
  {
    m := Next(cfg, n, Conclude(c));
    ReachStep(cfg, from, n, Conclude(c));
  }

  function Judgements(cfg: Config, n: Net, tx: Tx, now: int): (votes: seq<Vote>)
    requires |n.tables| == |cfg.rules|
    ensures |votes| == |cfg.rules|
    ensures forall i :: 0 <= i < |votes| ==> votes[i] == Judge(cfg.rules[i], n.tables[i], tx, now)
  {
    seq(|cfg.rules|, i requires 0 <= i < |cfg.rules| => Judge(cfg.rules[i], n.tables[i], tx, now))
  }

  /** A call that nothing overlaps ends as `Engine.Verify` says: every worker
      remembers the identifier, and it is approved if and only if enough workers
      approve in time. */
  lemma AloneVerifies(cfg: Config, n: Net, c: nat, now: int, order: seq<Option<nat>>) returns (m: Net)
    requires |n.tables| == |cfg.rules| > 0 && c in n.calls && Arrivals(order, |cfg.rules|)
    requires forall d :: d in n.calls ==> n.calls[d].looked == map[]
    requires var call := n.calls[c]; call.cast == map[] && call.taken == {} && call.missed == 0 && !call.done
    ensures Reaches(cfg, n, m) && |m.tables| == |n.tables| && c in m.calls && m.calls[c].done
    ensures m.calls == n.calls[c := m.calls[c]]
    ensures var tx := n.calls[c].tx; var votes := Judgements(cfg, n, tx, now);
      && (forall i :: 0 <= i < |n.tables| ==> m.tables[i] == Remember(n.tables[i], tx.id, votes[i]))
      && m.approvals == n.approvals +
         if |Approvers(votes, order)| >= cfg.threshold then [Approval(c, tx, Approvers(votes, order))] else []
  {
    var cast := CastAll(cfg, n, c, now, |cfg.rules|);
    var collected := CollectAll(cfg, n, cast, c, order);
    var votes := Judgements(cfg, n, n.calls[c].tx, now);
    assert YesOf(collected.calls[c]) == Approvers(votes, order) by {
      YesAreApprovers(collected.calls[c], votes, order);
    }
    m := ConcludesEither(cfg, n, collected, c);
  }

  lemma YesAreApprovers(call: Call, votes: seq<Vote>, order: seq<Option<nat>>)
    requires forall i :: 0 <= i < |order| && order[i].Some? ==> order[i].value < |votes|
    requires call.taken == Arrived(order) && forall i :: 0 <= i < |votes| ==> i in call.cast && call.cast[i] == votes[i]
    ensures YesOf(call) == Approvers(votes, order)
  {
    forall i | i in YesOf(call)
      ensures i in Approvers(votes, order)
    {
      assert Some(i) in order;
      var k :| 0 <= k < |order| && order[k] == Some(i);
      assert order[k].Some?;
    }
    forall i | i in Approvers(votes, order)
      ensures i in YesOf(call)
    {
      var k :| 0 <= k < |order| && order[k].Some? && votes[order[k].value].approved && order[k].value == i;
      assert Some(i) in order;
    }
  }

  // ---- a vote that is lost although every worker approves ----

  function Never(k: nat): (order: seq<Option<nat>>)
    ensures |order| == k && forall i :: 0 <= i < k ==> order[i].None?
  {
    if k == 0 then [] else Never(k - 1) + [None]
  }

  lemma RecordedEverywhere(cfg: Config, n: Net, id: string)
    requires |n.tables| == |cfg.rules| && cfg.threshold > 0
    requires forall i :: 0 <= i < |n.tables| ==> id in n.tables[i]
    requires forall c :: c in n.calls ==> n.calls[c].done || (n.calls[c].looked == map[] && n.calls[c].cast == map[])
    ensures Spent(cfg, n, id, Upto(|cfg.rules|))
  {
  }

  lemma NobodyArrives(votes: seq<Vote>, k: nat)
    ensures Approvers(votes, Never(k)) == {}
  {
  }

  /** Votes that all arrive too late leave an identifier recorded everywhere,
      approved nowhere, and lost. */
  lemma LateVotesLose(cfg: Config, tx: Tx) returns (schedule: seq<Step>)
    requires |cfg.rules| > 0 && cfg.threshold > 0 && tx.id != ""
    ensures var n := Play(cfg, Fresh(cfg), schedule);
      n.approvals == [] && Spent(cfg, n, tx.id, Upto(|cfg.rules|))
  {
    var n, start := TwoStarted(cfg, tx);
    var m := AloneVerifies(cfg, n, 0, tx.stamp, Never(|cfg.rules|));
    NobodyArrives(Judgements(cfg, n, tx, tx.stamp), |cfg.rules|);
    RecordedEverywhere(cfg, m, tx.id);
    schedule := ReachedFrom(cfg, start, n, m);
  }
}
