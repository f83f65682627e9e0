/** Earnings and how they are split: an earning is claimed by a compare-and-set
    on its status, its two shares are paid out as credits, and the result is
    recorded. */
module Revenue {
  import opened Records

  datatype EarningStatus = EarningPending | EarningProcessing | EarningDone | EarningFailed

  datatype Earning = Earning(
    total: int, owner: int, ref: string, status: EarningStatus,
    ownerNano: int, platformNano: int, ownerTx: string, platformTx: string)

  datatype Role = ToOwner | ToPlatform

  /** A credit request sent to the wallet service. It may or may not have been
      applied when an error comes back. */
  datatype Payout = Payout(earning: Uuid, role: Role, to: int, amount: int)

  function Marked(e: Earning, status: EarningStatus): Earning {
    e.(status := status)
  }

  // ---- the store ----

  class EarningStore {
    var earnings: map<Uuid, Earning>

    constructor ()
      ensures earnings == map[]
    {
      earnings := map[];
    }

    method FindEarningByRefID(ref: string) returns (r: Option<Uuid>)
      ensures r.Some? ==> ref != "" && r.value in earnings && earnings[r.value].ref == ref
      ensures r.None? ==> ref == "" || forall id :: id in earnings ==> earnings[id].ref != ref
    {
      if ref == "" {
        return None;
      }
      if id :| id in earnings && earnings[id].ref == ref {
        return Some(id);
      }
      return None;
    }

    method CreateEarning(id: Uuid, e: Earning) returns (ok: bool)
      modifies this
      ensures ok == (id !in old(earnings))
      ensures earnings == if ok then old(earnings)[id := e] else old(earnings)
    {
      ok := id !in earnings;
      if ok {
        earnings := earnings[id := e];
      }
    }

    /** Succeeds for whoever finds the earning pending. */
    method MarkProcessing(id: Uuid) returns (claimed: bool)
      modifies this
      ensures claimed == (id in old(earnings) && old(earnings)[id].status.EarningPending?)
      ensures earnings ==
        if claimed then old(earnings)[id := Marked(old(earnings)[id], EarningProcessing)] else old(earnings)
    {
      claimed := id in earnings && earnings[id].status.EarningPending?;
      if claimed {
        earnings := earnings[id := earnings[id].(status := EarningProcessing)];
      }
    }

    method MarkDone(id: Uuid, ownerTx: string, platformTx: string, ownerNano: int, platformNano: int)
      modifies this
      ensures earnings ==
        if id in old(earnings) then
          old(earnings)[id := old(earnings)[id].(status := EarningDone, ownerTx := ownerTx, platformTx := platformTx,
                                                 ownerNano := ownerNano, platformNano := platformNano)]
        else old(earnings)
    {
      if id in earnings {
        var e := earnings[id];
        e := e.(status := EarningDone, ownerTx := ownerTx, platformTx := platformTx);
        e := e.(ownerNano := ownerNano, platformNano := platformNano);
        earnings := earnings[id := e];
      }
    }

    /** Whatever the status was. */
    method MarkFailed(id: Uuid)
      modifies this
      ensures earnings ==
        if id in old(earnings) then old(earnings)[id := Marked(old(earnings)[id], EarningFailed)] else old(earnings)
    {
      if id in earnings {
        earnings := earnings[id := earnings[id].(status := EarningFailed)];
      }
    }
  }

  // ---- one processor ----

  datatype Processing = BadTotal | NoRule | NotClaimed | OwnerUnpaid | Completed

  /** What surrounds one earning's processing: the owner's share under the rule,
      if there is a rule, what the credit requests come back with and the
      default platform wallet. */
  datatype Answers = Answers(share: Option<int>, owner: Option<string>, platform: Option<int>,
      platformTx: Option<string>)

  /** The owner is asked to be credited, and the request fails. */
  predicate OwnerFails(e: Earning, a: Answers) {
    a.share.Some? && a.share.value > 0 && e.owner != 0 && a.owner.None?
  }

  /** What the split sends, in order. */
  function Sends(id: Uuid, e: Earning, a: Answers): seq<Payout>
    requires a.share.Some?
  {
    var share := a.share.value;
    (if share > 0 && e.owner != 0 then [Payout(id, ToOwner, e.owner, share)] else [])
    + (if OwnerFails(e, a) || e.total - share <= 0 || a.platform.None? then []
       else [Payout(id, ToPlatform, a.platform.value, e.total - share)])
  }

  /** The row a claimed earning ends with. */
  function Settled(row: Earning, e: Earning, a: Answers): Earning
    requires a.share.Some?
  {
    var share := a.share.value;
    if OwnerFails(e, a) then Marked(row, EarningFailed)
    else
      row.(status := EarningDone, ownerNano := share, platformNano := e.total - share,
           ownerTx := if share > 0 && e.owner != 0 then a.owner.value else "",
           platformTx :=
             if e.total - share > 0 && a.platform.Some? && a.platformTx.Some? then a.platformTx.value else "")
  }

  /** A share of nobody, or none at all, is not requested. */
  predicate OwnerDue(e: Earning, a: Answers) {
    a.share.Some? && a.share.value > 0 && e.owner != 0
  }

  /** The rest is, unless the owner's request has failed. */
  predicate PlatformDue(e: Earning, a: Answers) {
    && a.share.Some? && a.platform.Some? && e.total - a.share.value > 0
    && !(OwnerDue(e, a) && a.owner.None?)
  }

  /** The requests for one earning: first its owner for exactly the share, then
      the platform for exactly the rest. */
  predicate PaysOut(id: Uuid, e: Earning, a: Answers, sent: seq<Payout>) {
    && |sent| == (if OwnerDue(e, a) then 1 else 0) + (if PlatformDue(e, a) then 1 else 0)
    && (OwnerDue(e, a) ==> sent[0] == Payout(id, ToOwner, e.owner, a.share.value))
    && (PlatformDue(e, a) ==> sent[|sent| - 1] == Payout(id, ToPlatform, a.platform.value, e.total - a.share.value))
  }

  /** What the claimed row ends as. */
  predicate EndsAs(before: Earning, after: Earning, e: Earning, a: Answers) {
    && after.total == before.total && after.owner == before.owner && after.ref == before.ref
    && (OwnerDue(e, a) && a.owner.None? ==> after == before.(status := EarningFailed))
    && (a.share.Some? && !(OwnerDue(e, a) && a.owner.None?) ==>
          && after.status == EarningDone
          && after.ownerNano == a.share.value && after.platformNano == e.total - a.share.value
          && after.ownerTx == (if OwnerDue(e, a) then a.owner.value else "")
          && after.platformTx ==
               (if PlatformDue(e, a) && a.platformTx.Some? then a.platformTx.value else ""))
  }

  predicate Claimable(earnings: map<Uuid, Earning>, id: Uuid) {
    id in earnings && earnings[id].status.EarningPending?
  }

  /** The table after one processor has handled the copy `e` of an earning. */
  function Processed(earnings: map<Uuid, Earning>, id: Uuid, e: Earning, a: Answers): map<Uuid, Earning> {
    if e.total <= 0 then
      if id in earnings then earnings[id := Marked(earnings[id], EarningFailed)] else earnings
    else if a.share.Some? && Claimable(earnings, id) then earnings[id := Settled(earnings[id], e, a)]
    else earnings
  }

  /** The requests it sends. */
  function SentBy(earnings: map<Uuid, Earning>, id: Uuid, e: Earning, a: Answers): seq<Payout> {
    if e.total > 0 && a.share.Some? && Claimable(earnings, id) then Sends(id, e, a) else []
  }

  /** What a processor of the copy `e` does to the table and what it sends. */
  predicate Handles(before: map<Uuid, Earning>, after: map<Uuid, Earning>, id: Uuid, e: Earning, a: Answers,
                    sent: seq<Payout>) {
    if e.total <= 0 then
      && sent == []
      && after == (if id in before then before[id := before[id].(status := EarningFailed)] else before)
    else if a.share.None? || id !in before || before[id].status != EarningPending then sent == [] && after == before
    else
      && id in after && after == before[id := after[id]] && EndsAs(before[id], after[id], e, a)
      && PaysOut(id, e, a, sent)
  }

  lemma HandlesEarning(earnings: map<Uuid, Earning>, id: Uuid, e: Earning, a: Answers)
    ensures Handles(earnings, Processed(earnings, id, e, a), id, e, a, SentBy(earnings, id, e, a))
  {
  }

  /** A created earning carries what it was created with. Its owner, if there is
      one and a share, is sent one request for exactly the share, everything else
      that is sent is the rest for the platform, and a finished row has the two
      amounts. */
  predicate Creates(before: map<Uuid, Earning>, after: map<Uuid, Earning>, id: Uuid, total: int, owner: int,
                    ref: string, a: Answers, sent: seq<Payout>) {
    && id !in before && id in after && after == before[id := after[id]]
    && after[id].total == total && after[id].owner == owner && after[id].ref == ref
    && (a.share.None? ==> after[id].status == EarningPending && sent == [])
    && (a.share.Some? ==>
          var share := a.share.value;
          var asked := share > 0 && owner != 0;
          && (asked <==> exists k :: 0 <= k < |sent| && sent[k].role.ToOwner?)
          && (asked ==> sent[0] == Payout(id, ToOwner, owner, share))
          && (forall k :: 0 <= k < |sent| && (k > 0 || !asked) ==>
                sent[k].role.ToPlatform? && sent[k].earning == id && sent[k].amount == total - share > 0)
          && |sent| <= (if asked then 2 else 1)
          && (asked && a.owner.None? ==> after[id].status == EarningFailed)
          && (!(asked && a.owner.None?) ==>
                && after[id].status == EarningDone
                && after[id].ownerNano == share && after[id].platformNano == total - share))
  }

  lemma CreationMeans(before: map<Uuid, Earning>, id: Uuid, e: Earning, a: Answers, after: map<Uuid, Earning>,
                      sent: seq<Payout>)
    requires id !in before && e.total > 0 && e.status == EarningPending
    requires Handles(before[id := e], after, id, e, a, sent)
    ensures Creates(before, after, id, e.total, e.owner, e.ref, a, sent)
  {
    if a.share.Some? && OwnerDue(e, a) {
      assert sent[0].role.ToOwner?;
    }
  }

  predicate Copied(listed: seq<Uuid>, copies: map<Uuid, Earning>) {
    forall i :: 0 <= i < |listed| ==> listed[i] in copies
  }

  /** A batch: the first n listed earnings in order, each from the copy in the
      list. */
  function BatchTo(earnings: map<Uuid, Earning>, listed: seq<Uuid>, copies: map<Uuid, Earning>,
                   answers: seq<Answers>, n: nat): map<Uuid, Earning>
    requires n <= |listed| == |answers| && Copied(listed, copies)
  {
    if n == 0 then earnings
    else
      var before := BatchTo(earnings, listed, copies, answers, n - 1);
      Processed(before, listed[n - 1], copies[listed[n - 1]], answers[n - 1])
  }

  /** The requests they send. */
  function BatchSent(earnings: map<Uuid, Earning>, listed: seq<Uuid>, copies: map<Uuid, Earning>,
                     answers: seq<Answers>, n: nat): seq<Payout>
    requires n <= |listed| == |answers| && Copied(listed, copies)
  {
    if n == 0 then []
    else
      BatchSent(earnings, listed, copies, answers, n - 1)
      + SentBy(BatchTo(earnings, listed, copies, answers, n - 1), listed[n - 1], copies[listed[n - 1]], answers[n - 1])
  }

  /** An earning that has been claimed once sends nothing however often it is
      processed again, and keeps its row. */
  lemma ClaimedStaysClaimed(earnings: map<Uuid, Earning>, id: Uuid, e: Earning, a: Answers, again: Answers)
    requires id in earnings && e.total > 0 && a.share.Some?
    ensures var after := Processed(earnings, id, e, a);
      SentBy(after, id, e, again) == [] && Processed(after, id, e, again) == after
  {
  }

  lemma {:induction false} BatchLeavesOthers(earnings: map<Uuid, Earning>, listed: seq<Uuid>,
                                             copies: map<Uuid, Earning>, answers: seq<Answers>, n: nat, id: Uuid)
    requires n <= |listed| == |answers| && Copied(listed, copies) && forall i :: 0 <= i < n ==> listed[i] != id
    ensures var after := BatchTo(earnings, listed, copies, answers, n);
      (id in after <==> id in earnings) && (id in earnings ==> after[id] == earnings[id])
  {
    if n > 0 {
      BatchLeavesOthers(earnings, listed, copies, answers, n - 1, id);
    }
  }

  predicate PendingList(earnings: map<Uuid, Earning>, listed: seq<Uuid>) {
    && (forall i, j :: 0 <= i < j < |listed| ==> listed[i] != listed[j])
    && (forall i :: 0 <= i < |listed| ==> listed[i] in earnings && earnings[listed[i]].status.EarningPending?)
  }

  /** In a batch of pending rows each one's turn finds it untouched, so what is
      sent for it is what would be sent if it were alone. */
  lemma BatchSendsEach(earnings: map<Uuid, Earning>, listed: seq<Uuid>, answers: seq<Answers>, k: nat)
    requires |listed| == |answers| && k < |listed| && PendingList(earnings, listed)
    ensures var id, before := listed[k], BatchTo(earnings, listed, earnings, answers, k);
      && id in earnings && id in before && before[id] == earnings[id]
      && SentBy(before, id, earnings[id], answers[k]) == SentBy(earnings, id, earnings[id], answers[k])
  {
    BatchLeavesOthers(earnings, listed, earnings, answers, k, listed[k]);
  }

  /** Its row ends as if it were alone. */
  lemma {:induction false} BatchSettlesEach(earnings: map<Uuid, Earning>, listed: seq<Uuid>, answers: seq<Answers>,
                                            n: nat, k: nat)
    requires k < n <= |listed| == |answers| && PendingList(earnings, listed)
    ensures var id, after := listed[k], BatchTo(earnings, listed, earnings, answers, n);
      id in earnings && id in after && after[id] == Processed(earnings, id, earnings[id], answers[k])[id]
  {
    if k < n - 1 {
      BatchSettlesEach(earnings, listed, answers, n - 1, k);
    } else {
      BatchSendsEach(earnings, listed, answers, k);
    }
  }

  class RevenueEngine {
    const store: EarningStore
    var issued: seq<Payout>

    constructor (store: EarningStore)
      ensures this.store == store && issued == []
    {
      this.store := store;
      issued := [];
    }

    method ProcessEarning(id: Uuid, e: Earning, a: Answers) returns (r: Processing)
      modifies this, store
      ensures store.earnings == Processed(old(store.earnings), id, e, a)
      ensures issued == old(issued) + SentBy(old(store.earnings), id, e, a)
      ensures r.BadTotal? <==> e.total <= 0
      ensures r.NoRule? <==> e.total > 0 && a.share.None?
      ensures r.NotClaimed? <==> e.total > 0 && a.share.Some? && !old(Claimable(store.earnings, id))
      ensures r.OwnerUnpaid? ==> OwnerDue(e, a) && a.owner.None?
      ensures Handles(old(store.earnings), store.earnings, id, e, a, old(SentBy(store.earnings, id, e, a)))
      ensures r.Completed? ==> store.earnings[id].ownerNano + store.earnings[id].platformNano == e.total
    {
      HandlesEarning(store.earnings, id, e, a);
      if e.total <= 0 {
        store.MarkFailed(id);
        return BadTotal;
      }
      if a.share.None? {
        return NoRule;
      }
      var ownerNano := a.share.value;
      var platformNano := e.total - ownerNano;
      var claimed := store.MarkProcessing(id);
      if !claimed {
        return NotClaimed;
      }
      var ownerTx := "";
      if ownerNano > 0 && e.owner != 0 {
        issued := issued + [Payout(id, ToOwner, e.owner, ownerNano)];
        if a.owner.None? {
          store.MarkFailed(id);
          return OwnerUnpaid;
        }
        ownerTx := a.owner.value;
      }
      var platformTx := "";
      if platformNano > 0 && a.platform.Some? {
        issued := issued + [Payout(id, ToPlatform, a.platform.value, platformNano)];
        if a.platformTx.Some? {
          platformTx := a.platformTx.value;
        }
      }
      store.MarkDone(id, ownerTx, platformTx, ownerNano, platformNano);
      return Completed;
    }

    /** The listed rows, at most fifty, are processed from the copies the list
        holds. */
    method ProcessBatch(listed: seq<Uuid>, answers: seq<Answers>)
      requires |listed| == |answers| <= 50 && Copied(listed, store.earnings)
      modifies this, store
      ensures store.earnings == BatchTo(old(store.earnings), listed, old(store.earnings), answers, |listed|)
      ensures issued == old(issued) + BatchSent(old(store.earnings), listed, old(store.earnings), answers, |listed|)
    {
      var copies := store.earnings;
      for k := 0 to |listed|
        invariant store.earnings == BatchTo(copies, listed, copies, answers, k)
        invariant issued == old(issued) + BatchSent(copies, listed, copies, answers, k)
      {
        var r := ProcessEarning(listed[k], copies[listed[k]], answers[k]);
      }
    }

    /** A reference already on record creates nothing; otherwise the earning is
        created pending and processed at once. */
    method CreateAndProcess(id: Uuid, total: int, owner: int, ref: string, a: Answers) returns (created: bool)
      modifies this, store
      ensures created <==>
        total > 0 && id !in old(store.earnings)
        && (ref == "" || forall other :: other in old(store.earnings) ==> old(store.earnings)[other].ref != ref)
      ensures !created ==> store.earnings == old(store.earnings) && issued == old(issued)
      ensures created ==>
        var e := Earning(total, owner, ref, EarningPending, 0, 0, "", "");
        && store.earnings == Processed(old(store.earnings)[id := e], id, e, a)
        && issued == old(issued) + SentBy(old(store.earnings)[id := e], id, e, a)
      ensures created ==>
        && old(issued) <= issued
        && Creates(old(store.earnings), store.earnings, id, total, owner, ref, a, issued[|old(issued)|..])
    {
      if total <= 0 {
        return false;
      }
      if ref != "" {
        var existing := store.FindEarningByRefID(ref);
        if existing.Some? {
          return false;
        }
      }
      var e := NewEarning(total, owner, ref);
      created := store.CreateEarning(id, e);
      if created {
        var r := ProcessEarning(id, e, a);
        ghost var sent := SentBy(old(store.earnings)[id := e], id, e, a);
        assert issued[|old(issued)|..] == sent;
        CreationMeans(old(store.earnings), id, e, a, store.earnings, sent);
      }
    }
  }

  function NewEarning(total: int, owner: int, ref: string): Earning {
    Earning(total, owner, ref, EarningPending, 0, 0, "", "")
  }
}
