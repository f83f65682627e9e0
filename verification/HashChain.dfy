/** The hash-linked ledger: linking, appending and the paged verifier, for any
    function of a block's hashed fields. */
module HashChain {
  import opened Records

  // ---- linking ----

  /** The hash of a block as a function of its hashed fields: number,
      movement and previous hash. */
  type Hasher = (int, Move, string) -> string

  function Zeros(n: nat): (s: string)
    ensures |s| == n && forall i :: 0 <= i < n ==> s[i] == '0'
  {
    if n == 0 then [] else Zeros(n - 1) + ['0']
  }

  /** Previous hash of the first block: sixty-four zeros. */
  const GENESIS: string := Zeros(64)

  function Link(h: Hasher, m: Move, prevSeq: int, prevHash: string): LedgerEntry {
    LedgerEntry(prevSeq + 1, m, prevHash, h(prevSeq + 1, m, prevHash))
  }

  /** The row that `ORDER BY seq DESC` puts first. */
  function Highest(table: seq<LedgerEntry>): LedgerEntry
    requires |table| > 0
  {
    var last := table[|table| - 1];
    if |table| == 1 then last
    else
      var high := Highest(table[..|table| - 1]);
      if last.seqNo > high.seqNo then last else high
  }

  /** Sequence number and hash a new block is linked to. */
  function Tip(table: seq<LedgerEntry>): (int, string) {
    if |table| == 0 then (0, GENESIS) else (Highest(table).seqNo, Highest(table).hash)
  }

  lemma {:induction false} HighestOf(table: seq<LedgerEntry>)
    requires |table| > 0
    ensures Highest(table) in table && forall e :: e in table ==> e.seqNo <= Highest(table).seqNo
  {
    if |table| > 1 {
      var init, last := table[..|table| - 1], table[|table| - 1];
      HighestOf(init);
      assert last in table && forall e :: e in table ==> e in init || e == last;
    }
  }

  /** On any table, valid or not, the tip is a row that no other is numbered
      above; on an empty one it is number zero and sixty-four zeros. */
  lemma TipIsHighest(table: seq<LedgerEntry>)
    ensures table == [] ==> Tip(table).0 == 0 && |Tip(table).1| == 64 && forall c :: c in Tip(table).1 ==> c == '0'
    ensures table != [] ==> exists e :: e in table && Tip(table) == (e.seqNo, e.hash)
    ensures forall e :: e in table ==> e.seqNo <= Tip(table).0
  {
    if table != [] {
      HighestOf(table);
    }
  }

  function TipHash(chain: seq<LedgerEntry>): string {
    if |chain| == 0 then GENESIS else chain[|chain| - 1].hash
  }

  function Append(h: Hasher, table: seq<LedgerEntry>, moves: seq<Move>): seq<LedgerEntry> {
    if moves == [] then table
    else
      var before := Append(h, table, moves[..|moves| - 1]);
      before + [Link(h, moves[|moves| - 1], Tip(before).0, Tip(before).1)]
  }

  /** The movements of a chain, in order. */
  function Moves(chain: seq<LedgerEntry>): (ms: seq<Move>)
    ensures |ms| == |chain|
  {
    if chain == [] then [] else Moves(chain[..|chain| - 1]) + [chain[|chain| - 1].move]
  }

  /** Block k carries number k + 1, points at its predecessor and hashes to
      its stored hash. */
  predicate BlockOk(h: Hasher, chain: seq<LedgerEntry>, k: nat)
    requires k < |chain|
  {
    && chain[k].seqNo == k + 1
    && chain[k].prevHash == TipHash(chain[..k])
    && h(chain[k].seqNo, chain[k].move, chain[k].prevHash) == chain[k].hash
  }

  ghost predicate ChainValid(h: Hasher, chain: seq<LedgerEntry>) {
    forall k :: 0 <= k < |chain| ==> BlockOk(h, chain, k)
  }

  lemma ChainPrefix(h: Hasher, chain: seq<LedgerEntry>, n: nat)
    requires ChainValid(h, chain) && n <= |chain|
    ensures ChainValid(h, chain[..n])
  {
    forall k | 0 <= k < n
      ensures BlockOk(h, chain[..n], k)
    {
      assert BlockOk(h, chain, k);
      assert chain[..n][..k] == chain[..k];
    }
  }

  lemma ChainExtend(h: Hasher, chain: seq<LedgerEntry>, e: LedgerEntry)
    requires ChainValid(h, chain)
    ensures ChainValid(h, chain + [e]) <==> BlockOk(h, chain + [e], |chain|)
  {
    if BlockOk(h, chain + [e], |chain|) {
      forall k | 0 <= k < |chain| + 1
        ensures BlockOk(h, chain + [e], k)
      {
        if k < |chain| {
          assert BlockOk(h, chain, k);
          assert (chain + [e])[..k] == chain[..k];
        }
      }
    }
  }

  lemma {:induction false} HighestIsLast(h: Hasher, chain: seq<LedgerEntry>)
    requires ChainValid(h, chain) && |chain| > 0
    ensures Highest(chain) == chain[|chain| - 1]
  {
    if |chain| > 1 {
      ChainPrefix(h, chain, |chain| - 1);
      HighestIsLast(h, chain[..|chain| - 1]);
      assert BlockOk(h, chain, |chain| - 1) && BlockOk(h, chain, |chain| - 2);
    }
  }

  /** On a valid chain the queried tip is the last block. */
  lemma TipOfValid(h: Hasher, chain: seq<LedgerEntry>)
    requires ChainValid(h, chain)
    ensures Tip(chain) == (|chain|, TipHash(chain))
  {
    if |chain| > 0 {
      HighestIsLast(h, chain);
      assert BlockOk(h, chain, |chain| - 1);
    }
  }

  lemma LinkExtends(h: Hasher, chain: seq<LedgerEntry>, m: Move)
    requires ChainValid(h, chain)
    ensures ChainValid(h, chain + [Link(h, m, |chain|, TipHash(chain))])
  {
    var e := Link(h, m, |chain|, TipHash(chain));
    assert (chain + [e])[..|chain|] == chain;
    ChainExtend(h, chain, e);
  }

  /** Appending keeps the chain valid and keeps every old block. */
  lemma {:induction false} AppendValid(h: Hasher, chain: seq<LedgerEntry>, moves: seq<Move>)
    requires ChainValid(h, chain)
    ensures ChainValid(h, Append(h, chain, moves))
  {
    if moves != [] {
      var before := Append(h, chain, moves[..|moves| - 1]);
      AppendValid(h, chain, moves[..|moves| - 1]);
      TipOfValid(h, before);
      LinkExtends(h, before, moves[|moves| - 1]);
    }
  }

  /** Appending adds exactly the given movements, in order, after the old blocks. */
  lemma {:induction false} AppendMoves(h: Hasher, chain: seq<LedgerEntry>, moves: seq<Move>)
    ensures chain <= Append(h, chain, moves)
    ensures Moves(Append(h, chain, moves)) == Moves(chain) + moves
  {
    if moves != [] {
      var init, m := moves[..|moves| - 1], moves[|moves| - 1];
      AppendMoves(h, chain, init);
      var before, after := Append(h, chain, init), Append(h, chain, moves);
      assert after[..|after| - 1] == before && after[|after| - 1].move == m;
      assert moves == init + [m];
    }
  }

  // ---- the paged verifier ----

  datatype Defect = SeqGap(expected: int, got: int) | PrevMismatch | HashMismatch

  datatype ChainVerifyResult =
    | Intact(totalBlocks: nat)
    | Broken(totalBlocks: nat, brokenAtSeq: int, reason: Defect)

  const BATCH_SIZE := 1000

  /** The table as the k-th query of one scan sees it; `last` is the last query
      before which it changes. */
  function ViewAt(view: nat -> seq<LedgerEntry>, last: nat, k: nat): seq<LedgerEntry> {
    if k < last then view(k) else view(last)
  }

  /** Only appends happen between queries. */
  ghost predicate Growing(view: nat -> seq<LedgerEntry>, last: nat) {
    forall i, j :: 0 <= i <= j <= last ==> view(i) <= view(j)
  }

  function Page(table: seq<LedgerEntry>, offset: nat): seq<LedgerEntry> {
    if offset >= |table| then []
    else if offset + BATCH_SIZE < |table| then table[offset..offset + BATCH_SIZE]
    else table[offset..]
  }

  /** The three comparisons made on each block, in their order. */
  function Inspect(h: Hasher, e: LedgerEntry, prevSeq: int, prevHash: string): Option<Defect> {
    if e.seqNo != prevSeq + 1 then Some(SeqGap(prevSeq + 1, e.seqNo))
    else if e.prevHash != prevHash then Some(PrevMismatch)
    else if h(e.seqNo, e.move, e.prevHash) != e.hash then Some(HashMismatch)
    else None
  }

  /** The verdict of one pass over the whole table: where the longest valid
      prefix ends, if it ends at all. */
  ghost predicate CorrectVerdict(h: Hasher, table: seq<LedgerEntry>, r: ChainVerifyResult) {
    match r
    case Intact(n) => ChainValid(h, table) && n == |table|
    case Broken(n, at, why) =>
      && 1 <= n <= |table|
      && ChainValid(h, table[..n - 1])
      && !BlockOk(h, table, n - 1)
      && at == table[n - 1].seqNo
      && Some(why) == Inspect(h, table[n - 1], n - 1, TipHash(table[..n - 1]))
  }

  /** The verdict is unique, so it is intact exactly on valid chains. */
  lemma VerdictDetermined(h: Hasher, table: seq<LedgerEntry>, r: ChainVerifyResult, q: ChainVerifyResult)
    requires CorrectVerdict(h, table, r) && CorrectVerdict(h, table, q)
    ensures r == q
    ensures r.Intact? <==> ChainValid(h, table)
  {
    if r.Broken? && q.Broken? {
      NotBefore(h, table, r.totalBlocks, q.totalBlocks);
      NotBefore(h, table, q.totalBlocks, r.totalBlocks);
    }
  }

  lemma NotBefore(h: Hasher, table: seq<LedgerEntry>, m: nat, n: nat)
    requires 1 <= m <= |table| && 1 <= n <= |table|
    requires !BlockOk(h, table, m - 1) && ChainValid(h, table[..n - 1])
    ensures n <= m
  {
    forall k | 0 <= k < n - 1
      ensures BlockOk(h, table, k)
    {
      assert BlockOk(h, table[..n - 1], k);
      assert table[..n - 1][..k] == table[..k];
    }
  }

  function TipAt(table: seq<LedgerEntry>, n: nat): string
    requires n <= |table|
  {
    if n == 0 then GENESIS else table[n - 1].hash
  }

  /** The verdict after one more block. */
  function VerdictAfter(h: Hasher, before: ChainVerifyResult, n: nat, e: LedgerEntry,
                        prevHash: string): ChainVerifyResult {
    if before.Broken? then before
    else
      match Inspect(h, e, n, prevHash)
      case None => Intact(n + 1)
      case Some(defect) => Broken(n + 1, e.seqNo, defect)
  }

  /** One pass over the first n blocks of a table, up to the first defect. */
  function PassTo(h: Hasher, table: seq<LedgerEntry>, n: nat): ChainVerifyResult
    requires n <= |table|
  {
    if n == 0 then Intact(0) else VerdictAfter(h, PassTo(h, table, n - 1), n - 1, table[n - 1], TipAt(table, n - 1))
  }

  function SinglePass(h: Hasher, table: seq<LedgerEntry>): ChainVerifyResult {
    PassTo(h, table, |table|)
  }

  /** The comparisons decide whether a block extends a valid prefix. */
  lemma InspectDecides(h: Hasher, prefix: seq<LedgerEntry>, e: LedgerEntry)
    requires ChainValid(h, prefix)
    ensures Inspect(h, e, |prefix|, TipHash(prefix)).None? <==> ChainValid(h, prefix + [e])
    ensures Inspect(h, e, |prefix|, TipHash(prefix)).None? <==> BlockOk(h, prefix + [e], |prefix|)
  {
    assert (prefix + [e])[..|prefix|] == prefix;
    ChainExtend(h, prefix, e);
  }

  lemma DefectVerdict(h: Hasher, prefix: seq<LedgerEntry>, e: LedgerEntry, why: Defect)
    requires ChainValid(h, prefix) && Inspect(h, e, |prefix|, TipHash(prefix)) == Some(why)
    ensures CorrectVerdict(h, prefix + [e], Broken(|prefix| + 1, e.seqNo, why))
  {
    InspectDecides(h, prefix, e);
    assert (prefix + [e])[..|prefix|] == prefix;
  }

  lemma VerdictStep(h: Hasher, init: seq<LedgerEntry>, e: LedgerEntry, before: ChainVerifyResult)
    requires CorrectVerdict(h, init, before)
    ensures CorrectVerdict(h, init + [e], VerdictAfter(h, before, |init|, e, TipHash(init)))
  {
    if before.Broken? {
      BreakStays(h, init, init + [e], before);
    } else {
      var defect := Inspect(h, e, |init|, TipHash(init));
      if defect.Some? {
        DefectVerdict(h, init, e, defect.value);
      } else {
        InspectDecides(h, init, e);
      }
    }
  }

  /** The single pass reaches the correct verdict. */
  lemma {:induction false} PassCorrect(h: Hasher, table: seq<LedgerEntry>, n: nat)
    requires n <= |table|
    ensures CorrectVerdict(h, table[..n], PassTo(h, table, n))
  {
    if n > 0 {
      PassCorrect(h, table, n - 1);
      VerdictStep(h, table[..n - 1], table[n - 1], PassTo(h, table, n - 1));
      OneMoreBlock(h, table, n - 1);
    }
  }

  lemma OneMoreBlock(h: Hasher, table: seq<LedgerEntry>, n: nat)
    requires n < |table|
    ensures table[..n + 1] == table[..n] + [table[n]] && |table[..n]| == n && TipHash(table[..n]) == TipAt(table, n)
    ensures PassTo(h, table, n + 1) == VerdictAfter(h, PassTo(h, table, n), n, table[n], TipAt(table, n))
  {
  }

  lemma SinglePassCorrect(h: Hasher, table: seq<LedgerEntry>)
    ensures CorrectVerdict(h, table, SinglePass(h, table))
  {
    PassCorrect(h, table, |table|);
    assert table[..|table|] == table;
  }

  /** A defect found in a prefix is the defect of the whole table. */
  lemma BreakStays(h: Hasher, seen: seq<LedgerEntry>, table: seq<LedgerEntry>, r: ChainVerifyResult)
    requires CorrectVerdict(h, seen, r) && r.Broken? && seen <= table
    ensures CorrectVerdict(h, table, r) && !ChainValid(h, table)
  {
    var n := r.totalBlocks - 1;
    assert table[..n] == seen[..n] && table[n] == seen[n];
    assert !BlockOk(h, table, n);
  }

  lemma {:induction false} PassOfPrefix(h: Hasher, seen: seq<LedgerEntry>, table: seq<LedgerEntry>, n: nat)
    requires n <= |seen| && seen <= table
    ensures PassTo(h, seen, n) == PassTo(h, table, n) && TipAt(seen, n) == TipAt(table, n)
  {
    if n > 0 {
      PassOfPrefix(h, seen, table, n - 1);
      assert seen[n - 1] == table[n - 1];
    }
  }

  // ---- the paged scan ----

  /** The outcome of the comparisons on the rest of a batch. */
  datatype RowCheck = Clean(prevHash: string) | Halt(totalBlocks: nat, brokenAtSeq: int, reason: Defect)

  function CheckRows(h: Hasher, batch: seq<LedgerEntry>, i: nat, total: nat, prevSeq: int, prevHash: string): RowCheck
    decreases if i < |batch| then |batch| - i else 0
  {
    if i >= |batch| then Clean(prevHash)
    else
      match Inspect(h, batch[i], prevSeq, prevHash)
      case Some(defect) => Halt(total + 1, batch[i].seqNo, defect)
      case None => CheckRows(h, batch, i + 1, total + 1, batch[i].seqNo, batch[i].hash)
  }

  /** How much a scan may still read. */
  function Left(view: nat -> seq<LedgerEntry>, last: nat, k: nat, offset: nat): (nat, nat) {
    (if k < last then last - k else 0, if offset < |view(last)| then |view(last)| - offset else 0)
  }

  /** The scan from its k-th query on. */
  function ScanFrom(h: Hasher, view: nat -> seq<LedgerEntry>, last: nat, k: nat, total: nat,
                    prevHash: string): ChainVerifyResult
    decreases Left(view, last, k, total).0, Left(view, last, k, total).1
  {
    var batch := Page(ViewAt(view, last, k), total);
    if batch == [] then Intact(total)
    else
      match CheckRows(h, batch, 0, total, total, prevHash)
      case Halt(n, at, why) => Broken(n, at, why)
      case Clean(hash) => ScanFrom(h, view, last, k + 1, total + |batch|, hash)
  }

  /** The outcome of a batch that ends the table and starts behind p blocks is
      that of the single pass. */
  predicate Continues(h: Hasher, table: seq<LedgerEntry>, p: nat, check: RowCheck) {
    match check
    case Clean(hash) => SinglePass(h, table) == Intact(|table|) && hash == TipAt(table, |table|)
    case Halt(n, at, why) => p < n <= |table| && PassTo(h, table, n) == Broken(n, at, why)
  }

  lemma {:induction false} RowsContinue(h: Hasher, table: seq<LedgerEntry>, batch: seq<LedgerEntry>, p: nat, i: nat)
    requires p + |batch| == |table| && (forall j :: 0 <= j < |batch| ==> batch[j] == table[p + j])
    requires i <= |batch| && PassTo(h, table, p + i) == Intact(p + i)
    ensures Continues(h, table, p, CheckRows(h, batch, i, p + i, p + i, TipAt(table, p + i)))
    decreases |batch| - i
  {
    if i < |batch| {
      var e, n := batch[i], p + i;
      assert e == table[n];
      assert PassTo(h, table, n + 1) == VerdictAfter(h, Intact(n), n, e, TipAt(table, n));
      if Inspect(h, e, n, TipAt(table, n)).None? {
        assert TipAt(table, n + 1) == e.hash && e.seqNo == n + 1;
        RowsContinue(h, table, batch, p, i + 1);
      }
    }
  }

  /** The k-th page, or its first n rows, on a table that only grows. */
  lemma PageExtends(view: nat -> seq<LedgerEntry>, last: nat, k: nat, before: seq<LedgerEntry>, n: nat)
    requires Growing(view, last) && before <= ViewAt(view, last, k)
    requires |before| <= n <= |before + Page(ViewAt(view, last, k), |before|)|
    ensures (before + Page(ViewAt(view, last, k), |before|))[..n] <= view(last)
    ensures before + Page(ViewAt(view, last, k), |before|) <= ViewAt(view, last, k + 1)
    ensures Page(ViewAt(view, last, k), |before|) == [] ==> before == ViewAt(view, last, k)
  {
    var all := before + Page(ViewAt(view, last, k), |before|);
    assert all <= ViewAt(view, last, k);
    assert ViewAt(view, last, k) <= ViewAt(view, last, k + 1) <= view(last);
  }

  /** A page read behind a clean stretch is clean, or stops at its defect. */
  lemma PageContinues(h: Hasher, before: seq<LedgerEntry>, batch: seq<LedgerEntry>)
    requires SinglePass(h, before) == Intact(|before|)
    ensures Continues(h, before + batch, |before|, CheckRows(h, batch, 0, |before|, |before|, TipAt(before, |before|)))
  {
    var all, p := before + batch, |before|;
    PassOfPrefix(h, before, all, p);
    assert PassTo(h, all, p) == Intact(p) && TipAt(before, p) == TipAt(all, p);
    assert forall j :: 0 <= j < |batch| ==> batch[j] == all[p + j];
    RowsContinue(h, all, batch, p, 0);
  }

  /** What a scan has read, on a table that only grows, when it ends. */
  ghost predicate ReadFrom(view: nat -> seq<LedgerEntry>, last: nat, seen: seq<LedgerEntry>, intact: bool) {
    Growing(view, last) ==> seen <= view(last) && (intact ==> exists j :: 0 <= j <= last && seen == view(j))
  }

  /** A scan may stop at any row of the k-th page, or at its end if it is empty. */
  lemma StopsHere(view: nat -> seq<LedgerEntry>, last: nat, k: nat, before: seq<LedgerEntry>, n: nat)
    requires Growing(view, last) ==> before <= ViewAt(view, last, k)
    requires |before| <= n <= |before + Page(ViewAt(view, last, k), |before|)|
    ensures ReadFrom(view, last, (before + Page(ViewAt(view, last, k), |before|))[..n], false)
    ensures Page(ViewAt(view, last, k), |before|) == [] ==> ReadFrom(view, last, before, true)
    ensures Growing(view, last) ==> before + Page(ViewAt(view, last, k), |before|) <= ViewAt(view, last, k + 1)
  {
    if Growing(view, last) {
      PageExtends(view, last, k, before, n);
      PageExtends(view, last, k, before, |before|);
      assert (before + Page(ViewAt(view, last, k), |before|))[..|before|] == before;
    }
  }

  /** A page that stops the scan stops the single pass at the same row. */
  lemma PassStopped(h: Hasher, table: seq<LedgerEntry>, p: nat, check: RowCheck)
    requires check.Halt? && Continues(h, table, p, check)
    ensures p < check.totalBlocks <= |table|
    ensures SinglePass(h, table[..check.totalBlocks]) == Broken(check.totalBlocks, check.brokenAtSeq, check.reason)
  {
    PassOfPrefix(h, table[..check.totalBlocks], table, check.totalBlocks);
  }

  /** One round of the scan: it ends, or goes on with the page read. */
  lemma ScanRound(h: Hasher, view: nat -> seq<LedgerEntry>, last: nat, k: nat, before: seq<LedgerEntry>)
    returns (halt: Option<nat>)
    requires SinglePass(h, before) == Intact(|before|)
    ensures var batch := Page(ViewAt(view, last, k), |before|);
      var all, r := before + batch, ScanFrom(h, view, last, k, |before|, TipAt(before, |before|));
      match halt
      case Some(n) => |before| < n <= |all| && r.Broken? && r == SinglePass(h, all[..n])
      case None =>
        && SinglePass(h, all) == Intact(|all|)
        && r == if batch == [] then Intact(|before|) else ScanFrom(h, view, last, k + 1, |all|, TipAt(all, |all|))
  {
    var batch := Page(ViewAt(view, last, k), |before|);
    var check := CheckRows(h, batch, 0, |before|, |before|, TipAt(before, |before|));
    PageContinues(h, before, batch);
    if check.Halt? {
      PassStopped(h, before + batch, |before|, check);
      halt := Some(check.totalBlocks);
    } else {
      halt := None;
    }
  }

  /** The scan's result is that of a single pass over what it read; if the table
      only grows, that is a prefix of its last state, and the whole of some
      state when no defect is found. */
  lemma {:induction false} ScanReads(h: Hasher, view: nat -> seq<LedgerEntry>, last: nat, k: nat,
                                     before: seq<LedgerEntry>)
    returns (seen: seq<LedgerEntry>)
    requires SinglePass(h, before) == Intact(|before|)
    requires Growing(view, last) ==> before <= ViewAt(view, last, k)
    ensures ScanFrom(h, view, last, k, |before|, TipAt(before, |before|)) == SinglePass(h, seen)
    ensures ReadFrom(view, last, seen, SinglePass(h, seen).Intact?)
    decreases Left(view, last, k, |before|).0, Left(view, last, k, |before|).1
  {
    var batch := Page(ViewAt(view, last, k), |before|);
    var halt := ScanRound(h, view, last, k, before);
    StopsHere(view, last, k, before, if halt.Some? then halt.value else |before|);
    if halt.Some? {
      seen := (before + batch)[..halt.value];
    } else if batch == [] {
      seen := before;
    } else {
      seen := ScanReads(h, view, last, k + 1, before + batch);
    }
  }

  /** The verdict on a prefix of the last state, or on a table that stood
      still. */
  lemma VerdictFromPrefix(h: Hasher, seen: seq<LedgerEntry>, table: seq<LedgerEntry>)
    requires seen <= table
    ensures SinglePass(h, seen).Broken? ==> SinglePass(h, table) == SinglePass(h, seen) && !ChainValid(h, table)
  {
    var r := SinglePass(h, seen);
    if r.Broken? {
      SinglePassCorrect(h, seen);
      BreakStays(h, seen, table, r);
      SinglePassCorrect(h, table);
      VerdictDetermined(h, table, r, SinglePass(h, table));
    }
  }

  /** The paged scan refines the single pass: on a table that stands still the
      results are equal. */
  lemma ScanIsSinglePass(h: Hasher, view: nat -> seq<LedgerEntry>)
    ensures ScanFrom(h, view, 0, 0, 0, GENESIS) == SinglePass(h, view(0))
  {
    assert Growing(view, 0);
    var seen := ScanReads(h, view, 0, 0, []);
    VerdictFromPrefix(h, seen, view(0));
  }

  /** A valid chain that grows under the scan is never reported broken, and one
      reported intact was valid as a whole at some query. */
  lemma ScanBesideAppends(h: Hasher, view: nat -> seq<LedgerEntry>, last: nat)
    requires Growing(view, last)
    ensures var r := ScanFrom(h, view, last, 0, 0, GENESIS);
      && (ChainValid(h, view(last)) ==> r.Intact?)
      && (r.Intact? ==> exists j :: 0 <= j <= last && ChainValid(h, view(j)) && r.totalBlocks == |view(j)|)
      && (r.Broken? ==> CorrectVerdict(h, view(last), r))
  {
    var seen := ScanReads(h, view, last, 0, []);
    SinglePassCorrect(h, seen);
    VerdictFromPrefix(h, seen, view(last));
    SinglePassCorrect(h, view(last));
  }

  /** The comparisons on each block of one batch. */
  method ScanBatch(h: Hasher, batch: seq<LedgerEntry>, blocks: nat, hash: string) returns (r: RowCheck)
    ensures r == CheckRows(h, batch, 0, blocks, blocks, hash)
  {
    var total, prevSeq: int, prevHash := blocks, blocks, hash;
    var i := 0;
    while i < |batch|
      invariant 0 <= i <= |batch| && total == prevSeq == blocks + i
      invariant CheckRows(h, batch, 0, blocks, blocks, hash) == CheckRows(h, batch, i, total, prevSeq, prevHash)
    {
      var e := batch[i];
      total := total + 1;
      var defect := Inspect(h, e, prevSeq, prevHash);
      if defect.Some? {
        return Halt(total, e.seqNo, defect.value);
      }
      prevHash := e.hash;
      prevSeq := e.seqNo;
      i := i + 1;
    }
    return Clean(prevHash);
  }

  /** Either a later view is next, or more of the last one has been read. */
  lemma PageAdvances(view: nat -> seq<LedgerEntry>, last: nat, k: nat, offset: nat)
    requires Page(ViewAt(view, last, k), offset) != []
    ensures var now, next := Left(view, last, k, offset),
                             Left(view, last, k + 1, offset + |Page(ViewAt(view, last, k), offset)|);
      next.0 < now.0 || (next.0 == now.0 && next.1 < now.1)
  {
  }

  /** The scan in batches by offset, behind any first hash. */
  method ScanBatches(h: Hasher, view: nat -> seq<LedgerEntry>, last: nat, start: string)
    returns (r: ChainVerifyResult)
    ensures r == ScanFrom(h, view, last, 0, 0, start)
  {
    var offset: nat, k: nat, prevHash := 0, 0, start;
    while true
      invariant ScanFrom(h, view, last, 0, 0, start) == ScanFrom(h, view, last, k, offset, prevHash)
      decreases Left(view, last, k, offset).0, Left(view, last, k, offset).1
    {
      var batch := Page(ViewAt(view, last, k), offset);
      if |batch| == 0 {
        return Intact(offset);
      }
      PageAdvances(view, last, k, offset);
      var check := ScanBatch(h, batch, offset, prevHash);
      match check {
        case Halt(total, at, why) => return Broken(total, at, why);
        case Clean(hash) => prevHash := hash;
      }
      offset := offset + |batch|;
      k := k + 1;
    }
  }

  /** Each query may see a longer table; if none does, the result is that of a
      single pass. */
  method VerifyChain(h: Hasher, view: nat -> seq<LedgerEntry>, last: nat) returns (r: ChainVerifyResult)
    ensures r == ScanFrom(h, view, last, 0, 0, GENESIS)
    ensures last == 0 ==> r == SinglePass(h, view(0))
  {
    r := ScanBatches(h, view, last, GENESIS);
    ScanIsSinglePass(h, view);
  }
}
