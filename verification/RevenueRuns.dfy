/** Any number of processors and creators of earnings side by side, stopping at
    any point. */
module RevenueRuns {
  import opened Records
  import opened Revenue

  // ---- many processors ----

  datatype Phase = Started | Claimed | OwnerSettled | PlatformSettled

  datatype Processor = Processor(id: Uuid, e: Earning, share: int, phase: Phase, ownerTx: string, platformTx: string)

  /** An earning that has passed the reference check and is about to be created. */
  datatype Draft = Draft(total: int, owner: int, ref: string)

  /** `shares` remembers the split of every claimed earning and `claims` every
      claim that succeeded. */
  datatype World = World(
    earnings: map<Uuid, Earning>,
    drafts: map<nat, Draft>,
    processors: map<nat, Processor>,
    claims: seq<Uuid>,
    shares: map<Uuid, int>,
    issued: seq<Payout>)

  datatype Step =
    | Submit(c: nat, total: int, owner: int, ref: string)
    | Insert(c: nat, id: Uuid)
    | Import(id: Uuid, total: int, owner: int)
    | Begin(p: nat, id: Uuid)
    | Refuse(p: nat)
    | Claim(p: nat, share: int)
    | PayOwner(p: nat, reply: Option<string>)
    | PayPlatform(p: nat, wallet: Option<int>, reply: Option<string>)
    | Finish(p: nat)
    | Crash(p: nat)

  predicate Drafted(w: World, ref: string) {
    exists c :: c in w.drafts && w.drafts[c].ref == ref
  }

  predicate OnRecord(w: World, ref: string) {
    exists id :: id in w.earnings && w.earnings[id].ref == ref
  }

  /** The row with its result; `total` is the processed copy's. */
  function Recorded(row: Earning, total: int, share: int, ownerTx: string, platformTx: string): Earning {
    row.(status := EarningDone, ownerTx := ownerTx, platformTx := platformTx,
         ownerNano := share, platformNano := total - share)
  }

  /** `exclusive` says for which references the check and the creation are one
      step: while one creation under the reference is between the two, no other
      under the same reference gets past the check. */
  function Next(exclusive: string -> bool, w: World, step: Step): World {
    match step
    case Submit(c, total, owner, ref) =>
      if c in w.drafts || total <= 0 || (ref != "" && exclusive(ref) && Drafted(w, ref))
          || (ref != "" && OnRecord(w, ref)) then w
      else w.(drafts := w.drafts[c := Draft(total, owner, ref)])
    case Insert(c, id) =>
      if c !in w.drafts || id in w.earnings then w
      else
        var d := w.drafts[c];
        w.(drafts := w.drafts - {c}, earnings := w.earnings[id := NewEarning(d.total, d.owner, d.ref)])
    case Import(id, total, owner) =>
      if id in w.earnings then w else w.(earnings := w.earnings[id := NewEarning(total, owner, "")])
    case Begin(p, id) =>
      if p in w.processors || id !in w.earnings then w
      else w.(processors := w.processors[p := Processor(id, w.earnings[id], 0, Started, "", "")])
    case Crash(p) => w.(processors := w.processors - {p})
    case _ => if step.p in w.processors then Work(w, step, w.processors[step.p]) else w
  }

  function Work(w: World, step: Step, m: Processor): World
    requires step.Refuse? || step.Claim? || step.PayOwner? || step.PayPlatform? || step.Finish?
  {
    var id := m.id;
    if id !in w.earnings then w
    else
      match step
      case Refuse(p) =>
        if !m.phase.Started? || m.e.total > 0 then w
        else w.(earnings := w.earnings[id := Marked(w.earnings[id], EarningFailed)], processors := w.processors - {p})
      case Claim(p, share) =>
        if !m.phase.Started? || m.e.total <= 0 || !(0 <= share <= m.e.total) then w
        else if !w.earnings[id].status.EarningPending? then w.(processors := w.processors - {p})
        else
          w.(earnings := w.earnings[id := Marked(w.earnings[id], EarningProcessing)],
             processors := w.processors[p := m.(share := share, phase := Claimed)],
             claims := w.claims + [id], shares := w.shares[id := share])
      case PayOwner(p, reply) =>
        if !m.phase.Claimed? then w
        else if m.share > 0 && m.e.owner != 0 then
          var sent := w.(issued := w.issued + [Payout(id, ToOwner, m.e.owner, m.share)]);
          if reply.None? then
            sent.(earnings := w.earnings[id := Marked(w.earnings[id], EarningFailed)], processors := w.processors - {p})
          else sent.(processors := w.processors[p := m.(phase := OwnerSettled, ownerTx := reply.value)])
        else w.(processors := w.processors[p := m.(phase := OwnerSettled)])
      case PayPlatform(p, wallet, reply) =>
        if !m.phase.OwnerSettled? then w
        else if m.e.total - m.share > 0 && wallet.Some? then
          w.(issued := w.issued + [Payout(id, ToPlatform, wallet.value, m.e.total - m.share)],
             processors := w.processors[p := m.(phase := PlatformSettled,
                                                platformTx := if reply.Some? then reply.value else "")])
        else w.(processors := w.processors[p := m.(phase := PlatformSettled)])
      case Finish(p) =>
        if !m.phase.PlatformSettled? then w
        else
          w.(earnings := w.earnings[id := Recorded(w.earnings[id], m.e.total, m.share, m.ownerTx, m.platformTx)],
             processors := w.processors - {p})
  }

  function Play(exclusive: string -> bool, w: World, schedule: seq<Step>): World {
    if schedule == [] then w
    else Next(exclusive, Play(exclusive, w, schedule[..|schedule| - 1]), schedule[|schedule| - 1])
  }

  const NOTHING := World(map[], map[], map[], [], map[], [])

  // ---- the invariant ----

  predicate SentOnce(issued: seq<Payout>) {
    forall i, j :: 0 <= i < j < |issued| ==> issued[i].earning != issued[j].earning || issued[i].role != issued[j].role
  }

  predicate Sent(issued: seq<Payout>, id: Uuid, role: Role) {
    exists i :: 0 <= i < |issued| && issued[i].earning == id && issued[i].role == role
  }

  /** Processors work on what was stored, and past the claim they own it. */
  predicate ProcessorOk(w: World, m: Processor) {
    && m.id in w.earnings && m.e.total == w.earnings[m.id].total && m.e.owner == w.earnings[m.id].owner
    && (!m.phase.Started? ==>
          && w.earnings[m.id].status.EarningProcessing? && m.id in w.shares && w.shares[m.id] == m.share
          && (m.phase.Claimed? ==> !Sent(w.issued, m.id, ToOwner))
          && (!m.phase.Claimed? ==> (Sent(w.issued, m.id, ToOwner) <==> m.share > 0 && m.e.owner != 0))
          && (!m.phase.PlatformSettled? ==> !Sent(w.issued, m.id, ToPlatform)))
  }

  predicate SoleOwner(w: World) {
    forall p, q :: p in w.processors && q in w.processors && p != q && w.processors[p].id == w.processors[q].id ==>
      w.processors[p].phase.Started? || w.processors[q].phase.Started?
  }

  predicate EarningOk(w: World, id: Uuid, e: Earning) {
    && (id in w.shares <==> id in w.claims)
    && (e.status.EarningPending? ==> id !in w.shares)
    && (e.status.EarningProcessing? ==> id in w.shares)
    && (id in w.shares ==> 0 <= w.shares[id] <= e.total && e.total > 0)
    && (e.status.EarningDone? ==>
          && id in w.shares && e.ownerNano == w.shares[id] && e.platformNano == e.total - w.shares[id]
          && (Sent(w.issued, id, ToOwner) <==> w.shares[id] > 0 && e.owner != 0))
  }

  predicate PayoutOk(w: World, o: Payout) {
    && o.earning in w.shares && o.earning in w.earnings
    && o.amount == (if o.role == ToOwner then w.shares[o.earning]
        else w.earnings[o.earning].total - w.shares[o.earning])
    && (o.role == ToOwner ==> o.to == w.earnings[o.earning].owner && o.to != 0)
  }

  predicate Inv(w: World) {
    && (forall p :: p in w.processors ==> ProcessorOk(w, w.processors[p]))
    && SoleOwner(w)
    && (forall id :: id in w.earnings ==> EarningOk(w, id, w.earnings[id]))
    && w.shares.Keys <= w.earnings.Keys
    && (forall i, j :: 0 <= i < j < |w.claims| ==> w.claims[i] != w.claims[j])
    && (forall i :: 0 <= i < |w.claims| ==> w.claims[i] in w.shares)
    && SentOnce(w.issued) && (forall i :: 0 <= i < |w.issued| ==> PayoutOk(w, w.issued[i]))
  }

  lemma SentMore(issued: seq<Payout>, o: Payout, id: Uuid, role: Role)
    ensures Sent(issued + [o], id, role) <==> Sent(issued, id, role) || (o.earning == id && o.role == role)
  {
    var all := issued + [o];
    if Sent(issued, id, role) {
      var i :| 0 <= i < |issued| && issued[i].earning == id && issued[i].role == role;
      assert all[i] == issued[i];
    }
    assert all[|issued|] == o;
  }

  /** One processor's work on its earning: at most one payout, the earning's
      status, the processor itself. Nobody else is past a claim on it. */
  predicate OneWork(w: World, t: World, p: nat) {
    && p in w.processors && t == w.(earnings := t.earnings, processors := t.processors, issued := t.issued)
    && var id := w.processors[p].id;
      && id in w.earnings && id in t.earnings && t.earnings == w.earnings[id := t.earnings[id]]
      && t.earnings[id].total == w.earnings[id].total && t.earnings[id].owner == w.earnings[id].owner
      && (forall q :: q in w.processors && q != p && w.processors[q].id == id ==> w.processors[q].phase.Started?)
      && (t.processors == w.processors - {p} ||
          (p in t.processors && t.processors == w.processors[p := t.processors[p]] && t.processors[p].id == id))
      && (t.issued == w.issued ||
          (|t.issued| == |w.issued| + 1 && t.issued == w.issued + [t.issued[|w.issued|]]
              && t.issued[|w.issued|].earning == id))
  }

  lemma OthersUntouched(w: World, t: World, p: nat, id: Uuid, role: Role)
    requires OneWork(w, t, p) && id != w.processors[p].id
    ensures Sent(t.issued, id, role) <==> Sent(w.issued, id, role)
  {
    if t.issued != w.issued {
      SentMore(w.issued, t.issued[|w.issued|], id, role);
    }
  }

  lemma ProcessorsAfterWork(w: World, t: World, p: nat)
    requires Inv(w) && OneWork(w, t, p) && (p in t.processors ==> ProcessorOk(t, t.processors[p]))
    ensures (forall q :: q in t.processors ==> ProcessorOk(t, t.processors[q])) && SoleOwner(t)
  {
    forall q | q in t.processors && q != p
      ensures ProcessorOk(t, t.processors[q])
    {
      var m := w.processors[q];
      assert ProcessorOk(w, m);
      if m.id != w.processors[p].id {
        OthersUntouched(w, t, p, m.id, ToOwner);
        OthersUntouched(w, t, p, m.id, ToPlatform);
      }
    }
  }

  lemma EarningsAfterWork(w: World, t: World, p: nat)
    requires Inv(w) && OneWork(w, t, p) && EarningOk(t, w.processors[p].id, t.earnings[w.processors[p].id])
    ensures forall id :: id in t.earnings ==> EarningOk(t, id, t.earnings[id])
  {
    forall id | id in t.earnings && id != w.processors[p].id
      ensures EarningOk(t, id, t.earnings[id])
    {
      assert EarningOk(w, id, w.earnings[id]);
      OthersUntouched(w, t, p, id, ToOwner);
    }
  }

  lemma PayoutsAfterWork(w: World, t: World, p: nat)
    requires Inv(w) && OneWork(w, t, p)
    requires t.issued != w.issued ==>
      var o := t.issued[|w.issued|]; PayoutOk(w, o) && !Sent(w.issued, o.earning, o.role)
    ensures SentOnce(t.issued) && (forall i :: 0 <= i < |t.issued| ==> PayoutOk(t, t.issued[i]))
  {
    forall i | 0 <= i < |t.issued|
      ensures PayoutOk(t, t.issued[i])
    {
      assert i < |w.issued| ==> PayoutOk(w, w.issued[i]);
    }
  }

  lemma WorkKeepsInv(w: World, t: World, p: nat)
    requires Inv(w) && OneWork(w, t, p) && (p in t.processors ==> ProcessorOk(t, t.processors[p]))
    requires EarningOk(t, w.processors[p].id, t.earnings[w.processors[p].id])
    requires t.issued != w.issued ==>
      var o := t.issued[|w.issued|]; PayoutOk(w, o) && !Sent(w.issued, o.earning, o.role)
    ensures Inv(t)
  {
    ProcessorsAfterWork(w, t, p);
    EarningsAfterWork(w, t, p);
    PayoutsAfterWork(w, t, p);
  }

  lemma RefuseKeepsInv(w: World, p: nat)
    requires Inv(w) && p in w.processors
    ensures Inv(Work(w, Refuse(p), w.processors[p]))
  {
    var m, t := w.processors[p], Work(w, Refuse(p), w.processors[p]);
    assert ProcessorOk(w, m) && EarningOk(w, m.id, w.earnings[m.id]);
    if t != w {
      WorkKeepsInv(w, t, p);
    }
  }

  lemma PayOwnerKeepsInv(w: World, p: nat, reply: Option<string>)
    requires Inv(w) && p in w.processors
    ensures Inv(Work(w, PayOwner(p, reply), w.processors[p]))
  {
    var m, t := w.processors[p], Work(w, PayOwner(p, reply), w.processors[p]);
    assert ProcessorOk(w, m) && EarningOk(w, m.id, w.earnings[m.id]);
    if m.phase.Claimed? {
      if m.share > 0 && m.e.owner != 0 {
        SentMore(w.issued, t.issued[|w.issued|], m.id, ToOwner);
        SentMore(w.issued, t.issued[|w.issued|], m.id, ToPlatform);
      }
      WorkKeepsInv(w, t, p);
    }
  }

  lemma PayPlatformKeepsInv(w: World, p: nat, wallet: Option<int>, reply: Option<string>)
    requires Inv(w) && p in w.processors
    ensures Inv(Work(w, PayPlatform(p, wallet, reply), w.processors[p]))
  {
    var m, t := w.processors[p], Work(w, PayPlatform(p, wallet, reply), w.processors[p]);
    assert ProcessorOk(w, m) && EarningOk(w, m.id, w.earnings[m.id]);
    if m.phase.OwnerSettled? {
      if t.issued != w.issued {
        SentMore(w.issued, t.issued[|w.issued|], m.id, ToOwner);
      }
      WorkKeepsInv(w, t, p);
    }
  }

  lemma FinishKeepsInv(w: World, p: nat)
    requires Inv(w) && p in w.processors
    ensures Inv(Work(w, Finish(p), w.processors[p]))
  {
    var m, t := w.processors[p], Work(w, Finish(p), w.processors[p]);
    assert ProcessorOk(w, m) && EarningOk(w, m.id, w.earnings[m.id]);
    if m.phase.PlatformSettled? {
      WorkKeepsInv(w, t, p);
    }
  }

  /** A pending earning has not been claimed, split or paid. */
  lemma PendingIsUntouched(w: World, id: Uuid)
    requires Inv(w) && id in w.earnings && w.earnings[id].status.EarningPending?
    ensures id !in w.shares && id !in w.claims
    ensures forall i :: 0 <= i < |w.issued| ==> w.issued[i].earning != id
    ensures forall p :: p in w.processors && w.processors[p].id == id ==> w.processors[p].phase.Started?
  {
    assert EarningOk(w, id, w.earnings[id]);
    forall i | 0 <= i < |w.issued|
      ensures w.issued[i].earning != id
    {
      assert PayoutOk(w, w.issued[i]);
    }
    forall p | p in w.processors && w.processors[p].id == id
      ensures w.processors[p].phase.Started?
    {
      assert ProcessorOk(w, w.processors[p]);
    }
  }

  predicate ClaimWins(w: World, p: nat, share: int) {
    && p in w.processors && w.processors[p].id in w.earnings && w.processors[p].phase.Started?
    && 0 <= share <= w.processors[p].e.total && w.processors[p].e.total > 0
    && w.earnings[w.processors[p].id].status.EarningPending?
  }

  lemma ClaimEarnings(w: World, p: nat, share: int)
    requires Inv(w) && ClaimWins(w, p, share)
    ensures var t := Work(w, Claim(p, share), w.processors[p]);
      forall id :: id in t.earnings ==> EarningOk(t, id, t.earnings[id])
  {
    var m, t := w.processors[p], Work(w, Claim(p, share), w.processors[p]);
    PendingIsUntouched(w, m.id);
    assert ProcessorOk(w, m);
    assert t.claims[|w.claims|] == m.id;
    forall id | id in w.earnings
      ensures EarningOk(t, id, t.earnings[id])
    {
      assert EarningOk(w, id, w.earnings[id]);
    }
  }

  lemma ClaimProcessors(w: World, p: nat, share: int)
    requires Inv(w) && ClaimWins(w, p, share)
    ensures var t := Work(w, Claim(p, share), w.processors[p]);
      SoleOwner(t) && forall q :: q in t.processors ==> ProcessorOk(t, t.processors[q])
  {
    var m, t := w.processors[p], Work(w, Claim(p, share), w.processors[p]);
    PendingIsUntouched(w, m.id);
    assert ProcessorOk(w, m);
    forall q | q in w.processors && q != p
      ensures ProcessorOk(t, w.processors[q])
    {
      assert ProcessorOk(w, w.processors[q]);
    }
  }

  /** The compare-and-set lets one processor through. */
  lemma ClaimKeepsInv(w: World, p: nat, share: int)
    requires Inv(w) && p in w.processors
    ensures Inv(Work(w, Claim(p, share), w.processors[p]))
  {
    var m, t := w.processors[p], Work(w, Claim(p, share), w.processors[p]);
    assert ProcessorOk(w, m);
    if ClaimWins(w, p, share) {
      ClaimEarnings(w, p, share);
      ClaimProcessors(w, p, share);
      PendingIsUntouched(w, m.id);
      forall i | 0 <= i < |w.issued|
        ensures PayoutOk(t, w.issued[i])
      {
        assert PayoutOk(w, w.issued[i]);
      }
    } else {
      ProcessorsChange(w, t);
    }
  }

  /** Only processors come or go. */
  lemma ProcessorsChange(w: World, t: World)
    requires Inv(w) && t == w.(processors := t.processors, drafts := t.drafts) && SoleOwner(t)
    requires forall p :: p in t.processors ==> ProcessorOk(w, t.processors[p])
    ensures Inv(t)
  {
    forall id | id in w.earnings
      ensures EarningOk(t, id, w.earnings[id])
    {
      assert EarningOk(w, id, w.earnings[id]);
    }
    forall i | 0 <= i < |w.issued|
      ensures PayoutOk(t, w.issued[i])
    {
      assert PayoutOk(w, w.issued[i]);
    }
  }

  lemma EarningAdded(w: World, t: World, id: Uuid, e: Earning)
    requires Inv(w) && id !in w.earnings && e.status.EarningPending?
    requires t == w.(earnings := w.earnings[id := e], drafts := t.drafts)
    ensures Inv(t)
  {
    forall other | other in t.earnings
      ensures EarningOk(t, other, t.earnings[other])
    {
      if other != id {
        assert EarningOk(w, other, w.earnings[other]);
      }
    }
    forall p | p in w.processors
      ensures ProcessorOk(t, w.processors[p])
    {
      assert ProcessorOk(w, w.processors[p]);
    }
    forall i | 0 <= i < |w.issued|
      ensures PayoutOk(t, w.issued[i])
    {
      assert PayoutOk(w, w.issued[i]);
    }
  }

  lemma CreationKeepsInv(exclusive: string -> bool, w: World, step: Step)
    requires Inv(w) && (step.Insert? || step.Import?)
    ensures Inv(Next(exclusive, w, step))
  {
    var t := Next(exclusive, w, step);
    if t != w {
      EarningAdded(w, t, step.id, t.earnings[step.id]);
    }
  }

  /** Creating, starting and crashing. */
  lemma OutsideKeepsInv(exclusive: string -> bool, w: World, step: Step)
    requires Inv(w) && (step.Submit? || step.Insert? || step.Import? || step.Begin? || step.Crash?)
    ensures Inv(Next(exclusive, w, step))
  {
    if step.Insert? || step.Import? {
      CreationKeepsInv(exclusive, w, step);
    } else {
      ProcessorsChange(w, Next(exclusive, w, step));
    }
  }

  lemma StepKeepsInv(exclusive: string -> bool, w: World, step: Step)
    requires Inv(w)
    ensures Inv(Next(exclusive, w, step))
  {
    match step {
      case Refuse(p) => if p in w.processors { RefuseKeepsInv(w, p); }
      case Claim(p, share) => if p in w.processors { ClaimKeepsInv(w, p, share); }
      case PayOwner(p, reply) => if p in w.processors { PayOwnerKeepsInv(w, p, reply); }
      case PayPlatform(p, wallet, reply) => if p in w.processors { PayPlatformKeepsInv(w, p, wallet, reply); }
      case Finish(p) => if p in w.processors { FinishKeepsInv(w, p); }
      case _ => OutsideKeepsInv(exclusive, w, step);
    }
  }

  lemma {:induction false} PlayKeepsInv(exclusive: string -> bool, schedule: seq<Step>)
    ensures Inv(Play(exclusive, NOTHING, schedule))
  {
    if schedule != [] {
      PlayKeepsInv(exclusive, schedule[..|schedule| - 1]);
      StepKeepsInv(exclusive, Play(exclusive, NOTHING, schedule[..|schedule| - 1]), schedule[|schedule| - 1]);
    }
  }

  // ---- what it comes to ----

  /** The credits requested for one earning. */
  function Requested(issued: seq<Payout>, id: Uuid): int {
    if issued == [] then 0
    else
      var o := issued[|issued| - 1];
      Requested(issued[..|issued| - 1], id) + if o.earning == id then o.amount else 0
  }

  lemma {:induction false} RequestedParts(w: World, n: nat, id: Uuid)
    requires Inv(w) && n <= |w.issued| && id in w.shares
    ensures Requested(w.issued[..n], id) ==
      (if Sent(w.issued[..n], id, ToOwner) then w.shares[id] else 0) +
      (if Sent(w.issued[..n], id, ToPlatform) then w.earnings[id].total - w.shares[id] else 0)
  {
    if n > 0 {
      var some, o := w.issued[..n - 1], w.issued[n - 1];
      RequestedParts(w, n - 1, id);
      assert w.issued[..n][..n - 1] == some && w.issued[..n] == some + [o];
      SentMore(some, o, id, ToOwner);
      SentMore(some, o, id, ToPlatform);
      assert PayoutOk(w, o);
    }
  }

  lemma {:induction false} NothingRequested(issued: seq<Payout>, id: Uuid)
    requires forall i :: 0 <= i < |issued| ==> issued[i].earning != id
    ensures Requested(issued, id) == 0
  {
    if issued != [] {
      NothingRequested(issued[..|issued| - 1], id);
    }
  }

  /** Whatever overlaps and whatever stops: an earning is claimed at most once,
      each share is requested at most once, together never more than the total,
      and a finished earning's recorded shares add up to its total. */
  lemma PaidAtMostOnce(exclusive: string -> bool, schedule: seq<Step>, id: Uuid)
    requires id in Play(exclusive, NOTHING, schedule).earnings
    ensures var w := Play(exclusive, NOTHING, schedule); var e := w.earnings[id];
      && (forall i, j :: 0 <= i < j < |w.claims| ==> w.claims[i] != id || w.claims[j] != id)
      && SentOnce(w.issued)
      && (0 < e.total ==> 0 <= Requested(w.issued, id) <= e.total)
      && (e.total <= 0 ==> Requested(w.issued, id) == 0)
      && (e.status.EarningDone? ==> e.ownerNano + e.platformNano == e.total && 0 <= e.ownerNano <= e.total)
      && (e.status.EarningDone? ==> (Sent(w.issued, id, ToOwner) <==> e.ownerNano > 0 && e.owner != 0))
  {
    PlayKeepsInv(exclusive, schedule);
    var w := Play(exclusive, NOTHING, schedule);
    assert EarningOk(w, id, w.earnings[id]);
    if id in w.shares {
      RequestedParts(w, |w.issued|, id);
      assert w.issued[..|w.issued|] == w.issued;
    } else {
      forall i | 0 <= i < |w.issued|
        ensures w.issued[i].earning != id
      {
        assert PayoutOk(w, w.issued[i]);
      }
      NothingRequested(w.issued, id);
    }
  }

  /** Every request to an owner goes to the owner of its earning, for the amount
      that a finished row records; and an owner with a share of a finished earning
      has been sent one. */
  lemma OwnersAreAsked(exclusive: string -> bool, schedule: seq<Step>, id: Uuid)
    requires id in Play(exclusive, NOTHING, schedule).earnings
    ensures var w := Play(exclusive, NOTHING, schedule); var e := w.earnings[id];
      && (forall i :: 0 <= i < |w.issued| && w.issued[i].earning == id && w.issued[i].role == ToOwner ==>
            w.issued[i].to == e.owner && (e.status.EarningDone? ==> w.issued[i].amount == e.ownerNano))
      && (forall i :: 0 <= i < |w.issued| && w.issued[i].earning == id && w.issued[i].role == ToPlatform ==>
            e.status.EarningDone? ==> w.issued[i].amount == e.platformNano)
      && (e.status.EarningDone? && e.owner != 0 && e.ownerNano > 0 ==>
            Payout(id, ToOwner, e.owner, e.ownerNano) in w.issued)
  {
    PlayKeepsInv(exclusive, schedule);
    var w := Play(exclusive, NOTHING, schedule);
    var e := w.earnings[id];
    assert EarningOk(w, id, e);
    forall i | 0 <= i < |w.issued| && w.issued[i].earning == id
      ensures PayoutOk(w, w.issued[i])
    {
    }
    if e.status.EarningDone? && e.owner != 0 && e.ownerNano > 0 {
      var i :| 0 <= i < |w.issued| && w.issued[i].earning == id && w.issued[i].role == ToOwner;
      assert PayoutOk(w, w.issued[i]);
    }
  }

  // ---- where earnings come from ----

  predicate SubmittedIn(schedule: seq<Step>, c: nat, d: Draft) {
    Submit(c, d.total, d.owner, d.ref) in schedule
  }

  /** An import made it, or an insertion of what a submission had proposed. */
  ghost predicate MadeIn(schedule: seq<Step>, id: Uuid, e: Earning) {
    || (e.ref == "" && Import(id, e.total, e.owner) in schedule)
    || exists c :: Insert(c, id) in schedule && SubmittedIn(schedule, c, Draft(e.total, e.owner, e.ref))
  }

  lemma MadeStays(schedule: seq<Step>, step: Step, id: Uuid, e: Earning)
    requires MadeIn(schedule, id, e)
    ensures MadeIn(schedule + [step], id, e)
  {
    if c :| Insert(c, id) in schedule && SubmittedIn(schedule, c, Draft(e.total, e.owner, e.ref)) {
      assert SubmittedIn(schedule + [step], c, Draft(e.total, e.owner, e.ref));
      assert Insert(c, id) in schedule + [step];
    }
  }

  /** What a step leaves of an earning's origin, or what it gives a new one. */
  lemma StepMakes(exclusive: string -> bool, w: World, step: Step, id: Uuid)
    requires id in Next(exclusive, w, step).earnings
    ensures var e := Next(exclusive, w, step).earnings[id];
      if id in w.earnings then
        e.total == w.earnings[id].total && e.owner == w.earnings[id].owner && e.ref == w.earnings[id].ref
      else if step.Import? then step == Import(id, e.total, e.owner) && e.ref == ""
      else step.Insert? && step.id == id && step.c in w.drafts && w.drafts[step.c] == Draft(e.total, e.owner, e.ref)
  {
  }

  lemma StepDrafts(exclusive: string -> bool, w: World, step: Step, c: nat)
    requires c in Next(exclusive, w, step).drafts
    ensures var d := Next(exclusive, w, step).drafts[c];
      (c in w.drafts && d == w.drafts[c]) || step == Submit(c, d.total, d.owner, d.ref)
  {
  }

  lemma {:induction false} DraftsSubmitted(exclusive: string -> bool, schedule: seq<Step>, c: nat)
    requires c in Play(exclusive, NOTHING, schedule).drafts
    ensures SubmittedIn(schedule, c, Play(exclusive, NOTHING, schedule).drafts[c])
  {
    if schedule != [] {
      var init, step := schedule[..|schedule| - 1], schedule[|schedule| - 1];
      var w := Play(exclusive, NOTHING, init);
      assert step in schedule;
      StepDrafts(exclusive, w, step, c);
      if c in w.drafts {
        DraftsSubmitted(exclusive, init, c);
      }
    }
  }

  /** The total, the owner and the reference of an earning are at every moment
      those of the import or the submission that made it. */
  lemma {:induction false} EarningsAsMade(exclusive: string -> bool, schedule: seq<Step>, id: Uuid)
    requires id in Play(exclusive, NOTHING, schedule).earnings
    ensures MadeIn(schedule, id, Play(exclusive, NOTHING, schedule).earnings[id])
  {
    if schedule != [] {
      var init, step := schedule[..|schedule| - 1], schedule[|schedule| - 1];
      var w := Play(exclusive, NOTHING, init);
      assert schedule == init + [step] && step in schedule;
      StepMakes(exclusive, w, step, id);
      if id in w.earnings {
        EarningsAsMade(exclusive, init, id);
        MadeStays(init, step, id, w.earnings[id]);
      } else if step.Insert? {
        DraftsSubmitted(exclusive, init, step.c);
        assert SubmittedIn(schedule, step.c, w.drafts[step.c]);
      }
    }
  }

  /** Claimed, and nobody is working on it any more. */
  predicate Stranded(w: World, id: Uuid) {
    && id in w.earnings && w.earnings[id].status.EarningProcessing? && w.earnings[id].total > 0
    && forall p :: p in w.processors && w.processors[p].id == id ==>
        w.processors[p].phase.Started? && w.processors[p].e.total > 0
  }

  lemma StepStaysStranded(exclusive: string -> bool, w: World, step: Step, id: Uuid)
    requires Stranded(w, id)
    ensures var t := Next(exclusive, w, step); Stranded(t, id) && Requested(t.issued, id) == Requested(w.issued, id)
  {
    NotRequested(exclusive, w, step, id);
    StatusStays(exclusive, w, step, id);
    NobodyReturns(exclusive, w, step, id);
  }

  lemma NobodyReturns(exclusive: string -> bool, w: World, step: Step, id: Uuid)
    requires Stranded(w, id)
    ensures var t := Next(exclusive, w, step);
      forall p :: p in t.processors && t.processors[p].id == id ==>
          t.processors[p].phase.Started? && t.processors[p].e.total > 0
  {
  }

  lemma StatusStays(exclusive: string -> bool, w: World, step: Step, id: Uuid)
    requires Stranded(w, id)
    ensures var t := Next(exclusive, w, step); id in t.earnings && t.earnings[id] == w.earnings[id]
  {
  }

  /** Only processors past a claim send, and none works on this earning. */
  lemma NotRequested(exclusive: string -> bool, w: World, step: Step, id: Uuid)
    requires Stranded(w, id)
    ensures var t := Next(exclusive, w, step); Requested(t.issued, id) == Requested(w.issued, id)
  {
    var t := Next(exclusive, w, step);
    if t.issued != w.issued {
      assert t.issued[..|w.issued|] == w.issued;
    }
  }

  /** A processor that stops after its claim leaves the earning processing for
      good: no later batch picks it up or pays the rest. */
  lemma {:induction false} StrandedForever(exclusive: string -> bool, w: World, schedule: seq<Step>, id: Uuid)
    requires Stranded(w, id)
    ensures var t := Play(exclusive, w, schedule); Stranded(t, id) && Requested(t.issued, id) == Requested(w.issued, id)
  {
    if schedule != [] {
      StrandedForever(exclusive, w, schedule[..|schedule| - 1], id);
      StepStaysStranded(exclusive, Play(exclusive, w, schedule[..|schedule| - 1]), schedule[|schedule| - 1], id);
    }
  }

  lemma PlayStep(exclusive: string -> bool, w: World, schedule: seq<Step>, step: Step)
    ensures Play(exclusive, w, schedule + [step]) == Next(exclusive, Play(exclusive, w, schedule), step)
  {
    assert (schedule + [step])[..|schedule|] == schedule;
  }

  /** It happens to any earning: one processor stops right after its claim, and
      nothing has been requested for either share. */
  lemma Strands(exclusive: string -> bool, id: Uuid, total: int, owner: int, share: int, p: nat)
    returns (schedule: seq<Step>)
    requires 0 <= share <= total && total > 0
    ensures var w := Play(exclusive, NOTHING, schedule);
      Stranded(w, id) && w.claims == [id] && Requested(w.issued, id) == 0
  {
    var s0, s1, s2, s3 := Import(id, total, owner), Begin(p, id), Claim(p, share), Crash(p);
    schedule := [] + [s0] + [s1] + [s2] + [s3];
    PlayStep(exclusive, NOTHING, [], s0);
    PlayStep(exclusive, NOTHING, [] + [s0], s1);
    PlayStep(exclusive, NOTHING, [] + [s0] + [s1], s2);
    PlayStep(exclusive, NOTHING, [] + [s0] + [s1] + [s2], s3);
  }

  // ---- what can still be settled ----

  predicate Unsettled(w: World, id: Uuid) {
    id in w.earnings && w.earnings[id].status.EarningProcessing?
  }

  /** A processor past its claim on the earning is still there. */
  predicate Held(w: World, id: Uuid) {
    exists p :: p in w.processors && w.processors[p].id == id && !w.processors[p].phase.Started?
  }

  lemma UnheldIsStranded(w: World, id: Uuid)
    requires Inv(w) && Unsettled(w, id)
    ensures Stranded(w, id) <==> !Held(w, id)
  {
    assert EarningOk(w, id, w.earnings[id]);
    forall p | p in w.processors && w.processors[p].id == id
      ensures w.processors[p].e.total > 0
    {
      assert ProcessorOk(w, w.processors[p]);
    }
  }

  function Rest(p: nat): seq<Step> {
    [] + [PayOwner(p, Some(""))] + [PayPlatform(p, None, None)] + [Finish(p)]
  }

  lemma PlayRest(exclusive: string -> bool, w: World, p: nat)
    ensures Play(exclusive, w, Rest(p)) ==
      Next(exclusive, Next(exclusive, Next(exclusive, w, PayOwner(p, Some(""))), PayPlatform(p, None, None)), Finish(p))
  {
    PlayStep(exclusive, w, [], PayOwner(p, Some("")));
    PlayStep(exclusive, w, [] + [PayOwner(p, Some(""))], PayPlatform(p, None, None));
    PlayStep(exclusive, w, [] + [PayOwner(p, Some(""))] + [PayPlatform(p, None, None)], Finish(p));
  }

  lemma OwnerPaid(exclusive: string -> bool, w: World, p: nat)
    requires p in w.processors && !w.processors[p].phase.Started? && w.processors[p].id in w.earnings
    ensures var t := Next(exclusive, w, PayOwner(p, Some("")));
      && t.earnings == w.earnings && p in t.processors && t.processors[p].id == w.processors[p].id
      && !t.processors[p].phase.Started? && !t.processors[p].phase.Claimed?
  {
  }

  lemma PlatformPaid(exclusive: string -> bool, w: World, p: nat)
    requires p in w.processors && w.processors[p].id in w.earnings
    requires !w.processors[p].phase.Started? && !w.processors[p].phase.Claimed?
    ensures var t := Next(exclusive, w, PayPlatform(p, None, None));
      && t.earnings == w.earnings && p in t.processors && t.processors[p].id == w.processors[p].id
      && t.processors[p].phase.PlatformSettled?
  {
  }

  /** From wherever it is past its claim, a processor can finish. */
  lemma HolderFinishes(exclusive: string -> bool, w: World, p: nat)
    requires p in w.processors && !w.processors[p].phase.Started? && w.processors[p].id in w.earnings
    ensures var t, id := Play(exclusive, w, Rest(p)), w.processors[p].id;
      id in t.earnings && t.earnings[id].status.EarningDone?
  {
    var owner := Next(exclusive, w, PayOwner(p, Some("")));
    PlayRest(exclusive, w, p);
    OwnerPaid(exclusive, w, p);
    PlatformPaid(exclusive, owner, p);
  }

  /** A claimed earning can still be settled if and only if a processor past its
      claim is still there; without one it stays processing in every run. */
  lemma SettlableIff(exclusive: string -> bool, w: World, id: Uuid)
    requires Inv(w) && Unsettled(w, id)
    ensures (exists schedule ::
              (var t := Play(exclusive, w, schedule); id in t.earnings && t.earnings[id].status.EarningDone?)) <==>
      Held(w, id)
    ensures (forall schedule :: Unsettled(Play(exclusive, w, schedule), id)) <==> !Held(w, id)
  {
    UnheldIsStranded(w, id);
    if p: nat :| p in w.processors && w.processors[p].id == id && !w.processors[p].phase.Started? {
      HolderFinishes(exclusive, w, p);
      assert !Unsettled(Play(exclusive, w, Rest(p)), id);
    } else {
      forall schedule: seq<Step>
        ensures Unsettled(Play(exclusive, w, schedule), id)
      {
        StrandedForever(exclusive, w, schedule, id);
      }
    }
  }

  /** The step stops a processor past its claim on the earning. */
  predicate Abandons(w: World, step: Step, id: Uuid) {
    step.Crash? && step.p in w.processors && w.processors[step.p].id == id && !w.processors[step.p].phase.Started?
  }

  /** Some step of the run from nothing does. */
  predicate Abandoned(exclusive: string -> bool, schedule: seq<Step>, id: Uuid) {
    schedule != [] &&
    var init := schedule[..|schedule| - 1];
    Abandoned(exclusive, init, id) || Abandons(Play(exclusive, NOTHING, init), schedule[|schedule| - 1], id)
  }

  predicate Working(step: Step) {
    step.Refuse? || step.Claim? || step.PayOwner? || step.PayPlatform? || step.Finish?
  }

  lemma OthersStay(w: World, step: Step, m: Processor, p: nat)
    requires Working(step) && p in w.processors && p != step.p
    ensures p in Work(w, step, m).processors && Work(w, step, m).processors[p] == w.processors[p]
  {
  }

  /** A processor past its claim stays until its earning is settled. */
  lemma HolderStays(w: World, step: Step, m: Processor)
    requires Working(step) && step.p in w.processors && m == w.processors[step.p] && !m.phase.Started?
    ensures var t := Work(w, step, m);
      Unsettled(t, m.id) ==>
        step.p in t.processors && t.processors[step.p].id == m.id && !t.processors[step.p].phase.Started?
  {
  }

  /** Only a claim makes an earning unsettled. */
  lemma ClaimHolds(w: World, step: Step, m: Processor, id: Uuid)
    requires Working(step) && step.p in w.processors && m == w.processors[step.p]
    requires !Unsettled(w, id) && Unsettled(Work(w, step, m), id)
    ensures var t := Work(w, step, m);
      step.p in t.processors && t.processors[step.p].id == id && !t.processors[step.p].phase.Started?
  {
  }

  lemma WorkStaysHeld(w: World, step: Step, m: Processor, id: Uuid)
    requires Working(step) && step.p in w.processors && m == w.processors[step.p]
    requires (Unsettled(w, id) ==> Held(w, id)) && Unsettled(Work(w, step, m), id)
    ensures Held(Work(w, step, m), id)
  {
    if Unsettled(w, id) {
      var p :| p in w.processors && w.processors[p].id == id && !w.processors[p].phase.Started?;
      if p == step.p {
        HolderStays(w, step, m);
      } else {
        OthersStay(w, step, m, p);
      }
    } else {
      ClaimHolds(w, step, m, id);
    }
  }

  lemma OutsideStaysHeld(exclusive: string -> bool, w: World, step: Step, id: Uuid)
    requires step.Submit? || step.Insert? || step.Import? || step.Begin? || step.Crash?
    requires (Unsettled(w, id) ==> Held(w, id)) && !Abandons(w, step, id)
    requires Unsettled(Next(exclusive, w, step), id)
    ensures Held(Next(exclusive, w, step), id)
  {
    var t := Next(exclusive, w, step);
    assert Unsettled(w, id);
    var p :| p in w.processors && w.processors[p].id == id && !w.processors[p].phase.Started?;
    assert p in t.processors && t.processors[p] == w.processors[p];
  }

  lemma StepStaysHeld(exclusive: string -> bool, w: World, step: Step, id: Uuid)
    requires (Unsettled(w, id) ==> Held(w, id)) && !Abandons(w, step, id)
    ensures Unsettled(Next(exclusive, w, step), id) ==> Held(Next(exclusive, w, step), id)
  {
    if Unsettled(Next(exclusive, w, step), id) {
      if step.Submit? || step.Insert? || step.Import? || step.Begin? || step.Crash? {
        OutsideStaysHeld(exclusive, w, step, id);
      } else if step.p in w.processors {
        WorkStaysHeld(w, step, w.processors[step.p], id);
      }
    }
  }

  lemma AbandoningStrands(exclusive: string -> bool, w: World, step: Step, id: Uuid)
    requires Inv(w) && Abandons(w, step, id)
    ensures Stranded(Next(exclusive, w, step), id)
  {
    var t := Next(exclusive, w, step);
    assert ProcessorOk(w, w.processors[step.p]) && EarningOk(w, id, w.earnings[id]);
    forall p | p in t.processors && t.processors[p].id == id
      ensures t.processors[p].phase.Started? && t.processors[p].e.total > 0
    {
      assert ProcessorOk(w, w.processors[p]);
    }
  }

  lemma {:induction false} HeldUnlessAbandoned(exclusive: string -> bool, schedule: seq<Step>, id: Uuid)
    ensures var w := Play(exclusive, NOTHING, schedule);
      if Abandoned(exclusive, schedule, id) then Stranded(w, id) else Unsettled(w, id) ==> Held(w, id)
  {
    if schedule != [] {
      var init, step := schedule[..|schedule| - 1], schedule[|schedule| - 1];
      var w := Play(exclusive, NOTHING, init);
      HeldUnlessAbandoned(exclusive, init, id);
      PlayKeepsInv(exclusive, init);
      if Abandoned(exclusive, init, id) {
        StepStaysStranded(exclusive, w, step, id);
      } else if Abandons(w, step, id) {
        AbandoningStrands(exclusive, w, step, id);
      } else {
        StepStaysHeld(exclusive, w, step, id);
      }
    }
  }

  /** A run strands an earning if and only if one of its steps stops a processor
      past its claim on it. */
  lemma StrandedIff(exclusive: string -> bool, schedule: seq<Step>, id: Uuid)
    ensures Stranded(Play(exclusive, NOTHING, schedule), id) <==> Abandoned(exclusive, schedule, id)
  {
    HeldUnlessAbandoned(exclusive, schedule, id);
    PlayKeepsInv(exclusive, schedule);
    if Unsettled(Play(exclusive, NOTHING, schedule), id) {
      UnheldIsStranded(Play(exclusive, NOTHING, schedule), id);
    }
  }

  // ---- one earning per reference ----

  predicate RefOnce(earnings: map<Uuid, Earning>, ref: string) {
    forall a, b :: a in earnings && b in earnings && a != b ==> earnings[a].ref != ref || earnings[b].ref != ref
  }

  /** At most one creation is under way, and then nothing is on record. */
  predicate DraftNew(w: World, ref: string) {
    && (forall c, d :: c in w.drafts && d in w.drafts && c != d ==> w.drafts[c].ref != ref || w.drafts[d].ref != ref)
    && (Drafted(w, ref) ==> !OnRecord(w, ref))
  }

  lemma WorkKeepsRefs(exclusive: string -> bool, w: World, step: Step)
    requires !step.Submit? && !step.Insert? && !step.Import?
    ensures var t := Next(exclusive, w, step);
      && t.drafts == w.drafts && t.earnings.Keys == w.earnings.Keys
      && forall id :: id in w.earnings ==> t.earnings[id].ref == w.earnings[id].ref
  {
  }

  lemma StepKeepsRef(exclusive: string -> bool, w: World, step: Step, ref: string)
    requires RefOnce(w.earnings, ref) && DraftNew(w, ref) && ref != "" && exclusive(ref)
    ensures RefOnce(Next(exclusive, w, step).earnings, ref) && DraftNew(Next(exclusive, w, step), ref)
  {
    if !step.Submit? && !step.Insert? && !step.Import? {
      WorkKeepsRefs(exclusive, w, step);
    } else if step.Insert? && step.c in w.drafts && w.drafts[step.c].ref == ref {
      assert Drafted(w, ref);
    }
  }

  /** If nothing under the same reference comes between the check and the
      creation, a delivered event creates one earning however often it comes,
      whatever happens under other references meanwhile. */
  lemma {:induction false} OneEarningPerRef(exclusive: string -> bool, schedule: seq<Step>, ref: string)
    requires ref != "" && exclusive(ref)
    ensures var w := Play(exclusive, NOTHING, schedule); RefOnce(w.earnings, ref) && DraftNew(w, ref)
  {
    if schedule != [] {
      OneEarningPerRef(exclusive, schedule[..|schedule| - 1], ref);
      StepKeepsRef(exclusive, Play(exclusive, NOTHING, schedule[..|schedule| - 1]), schedule[|schedule| - 1], ref);
    }
  }

  /** Two deliveries that have both passed the check. */
  lemma BothSubmitted(exclusive: string -> bool, total: int, owner: int, ref: string) returns (schedule: seq<Step>)
    requires total > 0 && (ref == "" || !exclusive(ref))
    ensures var d := Draft(total, owner, ref);
      Play(exclusive, NOTHING, schedule) == NOTHING.(drafts := map[0 := d, 1 := d])
  {
    var s, t := Submit(0, total, owner, ref), Submit(1, total, owner, ref);
    schedule := [] + [s] + [t];
    PlayStep(exclusive, NOTHING, [], s);
    PlayStep(exclusive, NOTHING, [] + [s], t);
  }

  lemma Inserted(exclusive: string -> bool, w: World, schedule: seq<Step>, c: nat, id: Uuid)
    returns (longer: seq<Step>, t: World)
    requires Play(exclusive, NOTHING, schedule) == w && c in w.drafts && id !in w.earnings
    ensures Play(exclusive, NOTHING, longer) == t && t.drafts == w.drafts - {c}
    ensures var d := w.drafts[c];
      t.earnings == w.earnings[id := Earning(d.total, d.owner, d.ref, EarningPending, 0, 0, "", "")]
  {
    longer := schedule + [Insert(c, id)];
    t := Next(exclusive, w, Insert(c, id));
    PlayStep(exclusive, NOTHING, schedule, Insert(c, id));
  }

  /** Otherwise the same event can create two. */
  lemma TwoEarningsPerRef(exclusive: string -> bool, a: Uuid, b: Uuid, total: int, owner: int, ref: string)
    requires a != b && total > 0 && (ref == "" || !exclusive(ref))
    ensures exists schedule :: !RefOnce(Play(exclusive, NOTHING, schedule).earnings, ref)
  {
    var both := BothSubmitted(exclusive, total, owner, ref);
    var one, w := Inserted(exclusive, Play(exclusive, NOTHING, both), both, 0, a);
    var two, end := Inserted(exclusive, w, one, 1, b);
    assert end.earnings[a].ref == end.earnings[b].ref;
  }

  /** A reference has at most one earning in every run if and only if it is not
      empty and its own creations exclude each other. */
  lemma RefOnceIff(exclusive: string -> bool, ref: string, a: Uuid, b: Uuid)
    requires a != b
    ensures (forall schedule :: RefOnce(Play(exclusive, NOTHING, schedule).earnings, ref)) <==>
      ref != "" && exclusive(ref)
  {
    if ref != "" && exclusive(ref) {
      forall schedule: seq<Step>
        ensures RefOnce(Play(exclusive, NOTHING, schedule).earnings, ref)
      {
        OneEarningPerRef(exclusive, schedule, ref);
      }
    } else {
      TwoEarningsPerRef(exclusive, a, b, 1, 0, ref);
    }
  }

  // ---- a processor that nothing overlaps ----

  /** The steps of one `ProcessEarning`. */
  function Turn(p: nat, id: Uuid, a: Answers): seq<Step> {
    var begun := [] + [Begin(p, id)] + [Refuse(p)];
    if a.share.None? then begun + [Crash(p)]
    else
      var paid := begun + [Claim(p, a.share.value)] + [PayOwner(p, a.owner)];
      paid + [PayPlatform(p, a.platform, a.platformTx)] + [Finish(p)]
  }

  /** From the claim on: the owner's request, and after a failed one nothing. */
  lemma OwnerAlone(exclusive: string -> bool, w: World, p: nat, a: Answers)
    requires p in w.processors && w.processors[p].phase.Claimed? && w.processors[p].id in w.earnings
    requires a.share == Some(w.processors[p].share)
    ensures var m, t := w.processors[p], Next(exclusive, w, PayOwner(p, a.owner));
      var paid := m.share > 0 && m.e.owner != 0;
      && t.issued == w.issued + (if paid then [Payout(m.id, ToOwner, m.e.owner, m.share)] else [])
      && if OwnerFails(m.e, a) then
           t.earnings == w.earnings[m.id := Marked(w.earnings[m.id], EarningFailed)]
               && t.processors == w.processors - {p}
         else
           && t.earnings == w.earnings
           && t.processors == w.processors[p :=
               m.(phase := OwnerSettled, ownerTx := if paid then a.owner.value else m.ownerTx)]
  {
  }

  lemma PlatformAlone(exclusive: string -> bool, w: World, p: nat, a: Answers)
    requires p in w.processors && w.processors[p].phase.OwnerSettled? && w.processors[p].id in w.earnings
    ensures var m, mid := w.processors[p], Next(exclusive, w, PayPlatform(p, a.platform, a.platformTx));
      var t, paid := Next(exclusive, mid, Finish(p)), m.e.total - m.share > 0 && a.platform.Some?;
      && t.issued == w.issued + (if paid then [Payout(m.id, ToPlatform, a.platform.value, m.e.total - m.share)] else [])
      && t.earnings == w.earnings[m.id := Recorded(w.earnings[m.id], m.e.total, m.share, m.ownerTx,
           if paid then (if a.platformTx.Some? then a.platformTx.value else "") else m.platformTx)]
      && t.processors == w.processors - {p}
  {
    var m, mid := w.processors[p], Next(exclusive, w, PayPlatform(p, a.platform, a.platformTx));
    assert mid.earnings == w.earnings && p in mid.processors && mid.processors[p].phase.PlatformSettled?;
    assert mid.processors - {p} == w.processors - {p};
  }

  lemma PaysAlone(exclusive: string -> bool, w: World, p: nat, a: Answers)
    requires p in w.processors && w.processors[p].phase.Claimed? && w.processors[p].id in w.earnings
    requires a.share == Some(w.processors[p].share) && w.processors[p].ownerTx == w.processors[p].platformTx == ""
    ensures var m := w.processors[p];
      var t := Next(exclusive, Next(exclusive, Next(exclusive, w, PayOwner(p, a.owner)),
          PayPlatform(p, a.platform, a.platformTx)), Finish(p));
      && t.earnings == w.earnings[m.id := Settled(w.earnings[m.id], m.e, a)]
      && t.issued == w.issued + Sends(m.id, m.e, a) && t.processors == w.processors - {p}
  {
    var m, mid := w.processors[p], Next(exclusive, w, PayOwner(p, a.owner));
    OwnerAlone(exclusive, w, p, a);
    if !OwnerFails(m.e, a) {
      PlatformAlone(exclusive, mid, p, a);
      assert mid.processors - {p} == w.processors - {p};
    }
  }

  /** A processor that has begun on an earning with a total to split. */
  lemma Settles(exclusive: string -> bool, w: World, p: nat, a: Answers)
    requires p in w.processors && w.processors[p].phase.Started? && w.processors[p].id in w.earnings
    requires w.processors[p].e.total > 0 && w.processors[p].ownerTx == w.processors[p].platformTx == ""
    requires a.share.Some? && 0 <= a.share.value <= w.processors[p].e.total
    ensures var m, claimed := w.processors[p], Next(exclusive, w, Claim(p, a.share.value));
      var t := Next(exclusive, Next(exclusive, Next(exclusive, claimed, PayOwner(p, a.owner)),
          PayPlatform(p, a.platform, a.platformTx)), Finish(p));
      && t.earnings == Processed(w.earnings, m.id, m.e, a)
      && t.issued == w.issued + SentBy(w.earnings, m.id, m.e, a) && t.processors == w.processors - {p}
  {
    var m, claimed := w.processors[p], Next(exclusive, w, Claim(p, a.share.value));
    if Claimable(w.earnings, m.id) {
      PaysAlone(exclusive, claimed, p, a);
      assert claimed.processors - {p} == w.processors - {p};
    } else {
      assert claimed == w.(processors := w.processors - {p});
    }
  }

  /** The step that refuses an earning without a total. */
  lemma Refuses(exclusive: string -> bool, w: World, p: nat)
    requires p in w.processors && w.processors[p].phase.Started? && w.processors[p].id in w.earnings
    ensures var m, t := w.processors[p], Next(exclusive, w, Refuse(p));
      if m.e.total > 0 then t == w
      else
        t == w.(earnings := w.earnings[m.id := Marked(w.earnings[m.id], EarningFailed)],
                processors := w.processors - {p})
  {
  }

  /** A processor that is gone does nothing. */
  lemma Idles(exclusive: string -> bool, w: World, p: nat, a: Answers)
    requires p !in w.processors
    ensures Next(exclusive, w, Crash(p)) == w
    ensures a.share.Some? ==> Next(exclusive, w, Claim(p, a.share.value)) == w
    ensures Next(exclusive, w, PayOwner(p, a.owner)) == w
    ensures Next(exclusive, w, PayPlatform(p, a.platform, a.platformTx)) == w
    ensures Next(exclusive, w, Finish(p)) == w
  {
  }

  lemma PlayTurn(exclusive: string -> bool, w: World, p: nat, id: Uuid, a: Answers)
    ensures var refused := Next(exclusive, Next(exclusive, w, Begin(p, id)), Refuse(p));
      Play(exclusive, w, Turn(p, id, a)) ==
        if a.share.None? then Next(exclusive, refused, Crash(p))
        else Next(exclusive, Next(exclusive, Next(exclusive, Next(exclusive, refused,
               Claim(p, a.share.value)), PayOwner(p, a.owner)), PayPlatform(p, a.platform, a.platformTx)), Finish(p))
  {
    var s := [] + [Begin(p, id)] + [Refuse(p)];
    PlayStep(exclusive, w, [], Begin(p, id));
    PlayStep(exclusive, w, [] + [Begin(p, id)], Refuse(p));
    if a.share.None? {
      PlayStep(exclusive, w, s, Crash(p));
    } else {
      var s1 := s + [Claim(p, a.share.value)];
      var s2 := s1 + [PayOwner(p, a.owner)];
      var s3 := s2 + [PayPlatform(p, a.platform, a.platformTx)];
      PlayStep(exclusive, w, s, Claim(p, a.share.value));
      PlayStep(exclusive, w, s1, PayOwner(p, a.owner));
      PlayStep(exclusive, w, s2, PayPlatform(p, a.platform, a.platformTx));
      PlayStep(exclusive, w, s3, Finish(p));
    }
  }

  /** Steps that nothing comes between end as `ProcessEarning` says. */
  lemma AloneProcesses(exclusive: string -> bool, w: World, p: nat, id: Uuid, a: Answers)
    requires id in w.earnings && p !in w.processors
    requires a.share.Some? && w.earnings[id].total > 0 ==> 0 <= a.share.value <= w.earnings[id].total
    ensures var t := Play(exclusive, w, Turn(p, id, a));
      && t.earnings == Processed(w.earnings, id, w.earnings[id], a)
      && t.issued == w.issued + SentBy(w.earnings, id, w.earnings[id], a) && t.processors == w.processors
  {
    PlayTurn(exclusive, w, p, id, a);
    var begun := Next(exclusive, w, Begin(p, id));
    assert begun.processors - {p} == w.processors;
    Refuses(exclusive, begun, p);
    if w.earnings[id].total <= 0 {
      Idles(exclusive, Next(exclusive, begun, Refuse(p)), p, a);
    } else if a.share.Some? {
      Settles(exclusive, begun, p, a);
    }
  }

  lemma {:induction false} PlayMore(exclusive: string -> bool, w: World, a: seq<Step>, b: seq<Step>)
    ensures Play(exclusive, w, a + b) == Play(exclusive, Play(exclusive, w, a), b)
  {
    if b == [] {
      assert a + b == a;
    } else {
      assert (a + b)[..|a + b| - 1] == a + b[..|b| - 1];
      PlayMore(exclusive, w, a, b[..|b| - 1]);
    }
  }

  /** Nothing on record or under way bars the creation. */
  predicate Creatable(exclusive: string -> bool, w: World, c: nat, id: Uuid, total: int, ref: string) {
    && c !in w.drafts && id !in w.earnings && total > 0
    && (ref != "" ==> !OnRecord(w, ref) && !(exclusive(ref) && Drafted(w, ref)))
  }

  lemma PlayTwo(exclusive: string -> bool, w: World, s: Step, t: Step)
    ensures Play(exclusive, w, [s, t]) == Next(exclusive, Next(exclusive, w, s), t)
  {
    PlayStep(exclusive, w, [], s);
    PlayStep(exclusive, w, [] + [s], t);
    assert [] + [s] + [t] == [s, t];
  }

  lemma CreatesPending(exclusive: string -> bool, w: World, c: nat, id: Uuid, total: int, owner: int, ref: string)
    requires Creatable(exclusive, w, c, id, total, ref)
    ensures Play(exclusive, w, [Submit(c, total, owner, ref), Insert(c, id)]) ==
      w.(earnings := w.earnings[id := Earning(total, owner, ref, EarningPending, 0, 0, "", "")])
  {
    var submit, insert := Submit(c, total, owner, ref), Insert(c, id);
    var proposed := w.drafts[c := Draft(total, owner, ref)];
    PlayTwo(exclusive, w, submit, insert);
    assert Next(exclusive, w, submit) == w.(drafts := proposed);
    assert proposed - {c} == w.drafts;
  }

  lemma {:induction false} DraftsStay(exclusive: string -> bool, w: World, schedule: seq<Step>)
    requires forall step :: step in schedule ==> !step.Submit? && !step.Insert? && !step.Import?
    ensures Play(exclusive, w, schedule).drafts == w.drafts
  {
    if schedule != [] {
      var init := schedule[..|schedule| - 1];
      DraftsStay(exclusive, w, init);
      WorkKeepsRefs(exclusive, Play(exclusive, w, init), schedule[|schedule| - 1]);
    }
  }

  lemma CreatesThen(exclusive: string -> bool, w: World, c: nat, id: Uuid, total: int, owner: int, ref: string,
                    later: seq<Step>)
    requires Creatable(exclusive, w, c, id, total, ref)
    ensures Play(exclusive, w, [Submit(c, total, owner, ref), Insert(c, id)] + later) ==
      Play(exclusive, w.(earnings := w.earnings[id := Earning(total, owner, ref, EarningPending, 0, 0, "", "")]), later)
  {
    CreatesPending(exclusive, w, c, id, total, owner, ref);
    PlayMore(exclusive, w, [Submit(c, total, owner, ref), Insert(c, id)], later);
  }

  lemma TurnKeepsDrafts(exclusive: string -> bool, w: World, p: nat, id: Uuid, a: Answers)
    ensures Play(exclusive, w, Turn(p, id, a)).drafts == w.drafts
  {
    forall step | step in Turn(p, id, a)
      ensures !step.Submit? && !step.Insert? && !step.Import?
    {
    }
    DraftsStay(exclusive, w, Turn(p, id, a));
  }

  /** A check, a creation and a processor that nothing overlaps end as
      `CreateAndProcess` says. */
  lemma AloneCreates(exclusive: string -> bool, w: World, c: nat, p: nat, id: Uuid, total: int, owner: int,
                     ref: string, a: Answers)
    requires Creatable(exclusive, w, c, id, total, ref) && p !in w.processors
    requires a.share.Some? ==> 0 <= a.share.value <= total
    ensures var t := Play(exclusive, w, [Submit(c, total, owner, ref), Insert(c, id)] + Turn(p, id, a));
      && w.issued <= t.issued && t.drafts == w.drafts && t.processors == w.processors
      && Creates(w.earnings, t.earnings, id, total, owner, ref, a, t.issued[|w.issued|..])
  {
    var e := Earning(total, owner, ref, EarningPending, 0, 0, "", "");
    CreatesThen(exclusive, w, c, id, total, owner, ref, Turn(p, id, a));
    CreatedTurn(exclusive, w.(earnings := w.earnings[id := e]), w.earnings, p, id, a);
    TurnKeepsDrafts(exclusive, w.(earnings := w.earnings[id := e]), p, id, a);
  }

  /** The processor of an earning that has just been created. */
  lemma CreatedTurn(exclusive: string -> bool, w: World, before: map<Uuid, Earning>, p: nat, id: Uuid, a: Answers)
    requires id in w.earnings && id !in before && w.earnings == before[id := w.earnings[id]] && p !in w.processors
    requires var e := w.earnings[id]; e.total > 0 && e.status == EarningPending
    requires a.share.Some? ==> 0 <= a.share.value <= w.earnings[id].total
    ensures var e, t := w.earnings[id], Play(exclusive, w, Turn(p, id, a));
      && w.issued <= t.issued && t.processors == w.processors
      && Creates(before, t.earnings, id, e.total, e.owner, e.ref, a, t.issued[|w.issued|..])
  {
    var e, t := w.earnings[id], Play(exclusive, w, Turn(p, id, a));
    AloneProcesses(exclusive, w, p, id, a);
    HandlesEarning(w.earnings, id, e, a);
    assert t.issued[|w.issued|..] == SentBy(w.earnings, id, e, a);
    CreationMeans(before, id, e, a, t.earnings, t.issued[|w.issued|..]);
  }
}
