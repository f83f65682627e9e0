/** The periodic check of the chain, beside operations, and the hand-written
    number text of its alarm. */
module Alarm {
  import opened BaseTen
  import opened HashChain
  import opened Interleaving
  import opened Records
  import opened Schedules

  // ---- the check beside operations ----

  /** The query moments of a scan, in their order. */
  predicate Moments(moment: nat -> nat, last: nat) {
    forall i, j :: 0 <= i <= j <= last ==> moment(i) <= moment(j)
  }

  /** What each query of a scan sees. */
  function Queries(h: Hasher, honoured: bool, schedule: seq<Step>, moment: nat -> nat): nat -> seq<LedgerEntry> {
    (k: nat) => After(h, honoured, schedule, moment(k)).ledger
  }

  /** Every query beside operations sees a valid chain that only grows. */
  lemma ViewsGrow(h: Hasher, honoured: bool, schedule: seq<Step>, moment: nat -> nat, last: nat)
    requires Moments(moment, last)
    ensures Growing(Queries(h, honoured, schedule, moment), last)
    ensures ChainValid(h, Queries(h, honoured, schedule, moment)(last))
  {
    forall i, j | 0 <= i <= j <= last
      ensures After(h, honoured, schedule, moment(i)).ledger <= After(h, honoured, schedule, moment(j)).ledger
    {
      LaterSeesMore(h, honoured, schedule, moment(i), moment(j));
    }
    AfterAgrees(h, honoured, schedule, moment(last));
  }

  /** The periodic check of the chain. */
  class ChainGuard {
    var healthy: bool

    constructor ()
      ensures healthy
    {
      healthy := true;
    }

    /** One check; its k-th query sees the ledger as `view(k)`. */
    method CheckOnce(h: Hasher, view: nat -> seq<LedgerEntry>, last: nat) returns (r: ChainVerifyResult)
      modifies this
      ensures r == ScanFrom(h, view, last, 0, 0, GENESIS) && healthy == r.Intact?
      ensures Growing(view, last) && ChainValid(h, view(last)) ==> healthy
    {
      r := VerifyChain(h, view, last);
      healthy := r.Intact?;
      if Growing(view, last) {
        ScanBesideAppends(h, view, last);
      }
    }

    /** Nothing else running, the check finds out whether the chain is valid. */
    method CheckStill(h: Hasher, table: seq<LedgerEntry>)
      modifies this
      ensures healthy == ChainValid(h, table)
    {
      var view: nat -> seq<LedgerEntry> := _ => table;
      ScanIsSinglePass(h, view);
      SinglePassCorrect(h, table);
      if SinglePass(h, table).Broken? {
        BreakStays(h, table, table, SinglePass(h, table));
      }
      var r := CheckOnce(h, view, 0);
    }

    /** No interleaving of operations with a check raises the alarm. */
    method CheckBesideOperations(h: Hasher, honoured: bool, schedule: seq<Step>, moment: nat -> nat, last: nat)
      requires Moments(moment, last)
      modifies this
      ensures healthy
    {
      ViewsGrow(h, honoured, schedule, moment, last);
      var r := CheckOnce(h, Queries(h, honoured, schedule, moment), last);
    }
  }

  // ---- the number in the alarm ----

  /** Two's-complement negation on 64 bits: the minimum is its own negation. */
  function Negate64(n: int): (r: int)
    requires IsInt64(n)
    ensures IsInt64(r)
    ensures n != MIN_INT64 ==> r + n == 0
  {
    if n == MIN_INT64 then MIN_INT64 else -n
  }

  function Pow10(k: nat): nat {
    if k == 0 then 1 else 10 * Pow10(k - 1)
  }

  lemma PowTenNineteen()
    ensures Pow10(19) == 10_000_000_000_000_000_000
  {
    assert Pow10(5) == 100_000;
    assert Pow10(10) == 10_000_000_000;
    assert Pow10(15) == 1_000_000_000_000_000;
  }

  /** The digits still to be written. */
  function Remaining(m: int): string {
    if m > 0 then Natural(m) else ""
  }

  lemma TakeDigit(m: int, suffix: string)
    requires m > 0
    ensures Remaining(m) + suffix == Remaining(m / 10) + ([Digit(m % 10)] + suffix)
  {
  }

  lemma DropDigit(m: int, k: nat)
    requires 0 < m < Pow10(k)
    ensures k > 0 && m / 10 < Pow10(k - 1)
  {
  }

  /** What the loop leaves in the buffer, with the sign put in front. */
  function Signed(n: int): string
    requires IsInt64(n)
  {
    if n < 0 then "-" + Remaining(Negate64(n)) else Remaining(n)
  }

  lemma SignedIsDecimal(n: int)
    requires IsInt64(n) && n != 0
    ensures Signed(n) == Written(n)
  {
    assert "-" + "" == "-";
  }

  /** The text of every 64-bit integer; the minimum comes out as a bare sign,
      since its wrapped negation never enters the digit loop. */
  function Written(n: int): string
    requires IsInt64(n)
  {
    if n == MIN_INT64 then "-" else Decimal(n)
  }

  /** What is written reads back as the same number for every 64-bit integer
      except the minimum, and for that one it reads back as no number. */
  lemma WrittenReadsBack(n: int)
    requires IsInt64(n)
    ensures Parse(Written(n)) == Some(n) <==> n != MIN_INT64
    ensures n == MIN_INT64 ==> Parse(Written(n)) == None
  {
    DecimalRoundTrip(n);
  }

  /** The digits of n are those of m and what has been written, and m has at
      most k digits. */
  predicate Splits(n: int, m: int, written: string, k: nat) {
    m < Pow10(k) && Remaining(n) == Remaining(m) + written
  }

  lemma OneDigit(n: int, m: int, written: string, k: nat)
    requires m > 0 && Splits(n, m, written, k)
    ensures k > 0 && Splits(n, m / 10, [Digit(m % 10)] + written, k - 1)
  {
    TakeDigit(m, written);
    DropDigit(m, k);
  }

  lemma NothingWritten(n: int, k: nat)
    requires n < Pow10(k)
    ensures Splits(n, n, "", k)
  {
  }

  lemma AllWritten(n: int, m: int, written: string, k: nat)
    requires m <= 0 && Splits(n, m, written, k)
    ensures written == Remaining(n)
  {
  }

  /** Puts a character in front of what has been written. */
  method Prepend(buf: array<char>, i: nat, c: char)
    requires 1 <= i <= buf.Length
    modifies buf
    ensures buf[i - 1..] == [c] + old(buf[i..])
  {
    buf[i - 1] := c;
  }

  /** The digit loop: fills the buffer from the right and never runs out of it. */
  method FillDigits(buf: array<char>, n: int) returns (i: nat)
    requires buf.Length == 20 && n < Pow10(19)
    modifies buf
    ensures 1 <= i <= 20
    ensures buf[i..] == Remaining(n)
  {
    var m := n;
    i := buf.Length;
    ghost var written := "";
    NothingWritten(n, 19);
    while m > 0
      invariant 1 <= i <= 20 && buf[i..] == written
      invariant Splits(n, m, written, i - 1)
    {
      OneDigit(n, m, written, i - 1);
      Prepend(buf, i, Digit(m % 10));
      i := i - 1;
      written := [Digit(m % 10)] + written;
      m := m / 10;
    }
    AllWritten(n, m, written, i - 1);
  }

  /** Writes the sign in front of the digits of a 20-byte buffer. */
  method Itoa(n: int) returns (s: string)
    requires IsInt64(n)
    ensures s == Written(n)
  {
    if n == 0 {
      return "0";
    }
    var neg := n < 0;
    var m := if neg then Negate64(n) else n;
    var buf := new char[20];
    PowTenNineteen();
    var i := FillDigits(buf, m);
    if neg {
      i := i - 1;
      buf[i] := '-';
      assert buf[i..] == "-" + Remaining(m);
    }
    s := buf[i..];
    SignedIsDecimal(n);
  }
}
