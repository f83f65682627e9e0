/** The text a block's hash is computed over, and what a chain tip therefore
    commits to. The digest is a parameter; nothing assumes it is collision free. */
module ChainBinding {
  import opened Records
  import opened BaseTen
  import opened HashChain

  type Byte = b: int | 0 <= b < 256

  /** The digest is a parameter: nothing below depends on how it is computed. */
  type Digest = string -> seq<Byte>

  // ---- hexadecimal and payload text ----

  function HexDigit(d: int): char
    requires 0 <= d < 16
  {
    if d < 10 then (48 + d) as char else (87 + d) as char
  }

  function Hex(bytes: seq<Byte>): (s: string)
    ensures '|' !in s
    ensures |s| == 2 * |bytes|
  {
    if bytes == [] then []
    else [HexDigit(bytes[0] / 16), HexDigit(bytes[0] % 16)] + Hex(bytes[1..])
  }

  lemma {:induction false} HexInjective(a: seq<Byte>, b: seq<Byte>)
    requires Hex(a) == Hex(b)
    ensures a == b
  {
    if a != [] && b != [] {
      assert Hex(a)[0] == HexDigit(a[0] / 16) && Hex(a)[1] == HexDigit(a[0] % 16);
      assert Hex(b)[0] == HexDigit(b[0] / 16) && Hex(b)[1] == HexDigit(b[0] % 16);
      assert a[0] == b[0];
      assert Hex(a)[2..] == Hex(a[1..]) && Hex(b)[2..] == Hex(b[1..]);
      HexInjective(a[1..], b[1..]);
      assert a == [a[0]] + a[1..] && b == [b[0]] + b[1..];
    }
  }

  /** The bar-joined text of the seven hashed fields. */
  function Payload(seqNo: int, m: Move, prevHash: string): string {
    Decimal(seqNo) + "|" + (m.txID + "|" + (m.wallet + "|" + MoveText(m, prevHash)))
  }

  function MoveText(m: Move, prevHash: string): string {
    m.kind + "|" + (Decimal(m.amount) + "|" + (Decimal(m.balanceAfter) + "|" + prevHash))
  }

  lemma SplitFirst(a: string, x: string, b: string, y: string)
    requires a + "|" + x == b + "|" + y
    requires '|' !in a && '|' !in b
    ensures a == b && x == y
  {
    var s, t := a + "|" + x, b + "|" + y;
    assert s[|a|] == '|' && t[|b|] == '|';
    assert forall i :: 0 <= i < |a| ==> s[i] == a[i];
    assert forall i :: 0 <= i < |b| ==> t[i] == b[i];
    assert s[..|a|] == a && t[..|b|] == b;
    assert s[|a| + 1..] == x && t[|b| + 1..] == y;
  }

  lemma SplitLast(x: string, a: string, y: string, b: string)
    requires x + "|" + a == y + "|" + b
    requires '|' !in a && '|' !in b
    ensures a == b && x == y
  {
    var s, t := x + "|" + a, y + "|" + b;
    assert s[|x|] == '|' && t[|y|] == '|';
    assert forall i :: |x| < i < |s| ==> s[i] == a[i - |x| - 1];
    assert forall i :: |y| < i < |t| ==> t[i] == b[i - |y| - 1];
    assert s[..|x|] == x && t[..|y|] == y;
    assert s[|x| + 1..] == a && t[|y| + 1..] == b;
  }

  /** The joined text determines all seven hashed fields, whatever the entry
      type text is, even one that contains bars. */
  lemma PayloadInjective(s: int, m: Move, p: string, s': int, m': Move, p': string)
    requires '|' !in p && '|' !in p'
    requires Payload(s, m, p) == Payload(s', m', p')
    ensures s == s' && m == m' && p == p'
  {
    SplitFirst(Decimal(s), m.txID + "|" + (m.wallet + "|" + MoveText(m, p)),
               Decimal(s'), m'.txID + "|" + (m'.wallet + "|" + MoveText(m', p')));
    SplitFirst(m.txID, m.wallet + "|" + MoveText(m, p), m'.txID, m'.wallet + "|" + MoveText(m', p'));
    SplitFirst(m.wallet, MoveText(m, p), m'.wallet, MoveText(m', p'));
    MoveTextInjective(m, p, m', p');
    DecimalInjective(s, s');
  }

  lemma MoveTextInjective(m: Move, p: string, m': Move, p': string)
    requires '|' !in p && '|' !in p'
    requires MoveText(m, p) == MoveText(m', p')
    ensures m.kind == m'.kind && m.amount == m'.amount && m.balanceAfter == m'.balanceAfter && p == p'
  {
    var k, k' := m.kind + "|" + Decimal(m.amount), m'.kind + "|" + Decimal(m'.amount);
    Regroup(m.kind, Decimal(m.amount), Decimal(m.balanceAfter), p);
    Regroup(m'.kind, Decimal(m'.amount), Decimal(m'.balanceAfter), p');
    SplitLast(k + "|" + Decimal(m.balanceAfter), p, k' + "|" + Decimal(m'.balanceAfter), p');
    SplitLast(k, Decimal(m.balanceAfter), k', Decimal(m'.balanceAfter));
    SplitLast(m.kind, Decimal(m.amount), m'.kind, Decimal(m'.amount));
    DecimalInjective(m.amount, m'.amount);
    DecimalInjective(m.balanceAfter, m'.balanceAfter);
  }

  lemma Regroup(p: string, q: string, r: string, s: string)
    ensures p + "|" + (q + "|" + (r + "|" + s)) == (p + "|" + q + "|" + r) + "|" + s
  {
    Assoc(p + "|", q + "|", r + "|" + s);
    Assoc(p + "|" + (q + "|"), r + "|", s);
    Assoc(p + "|", q, "|");
    Assoc(p + "|" + q + "|", r, "|");
  }

  lemma Assoc(x: string, y: string, z: string)
    ensures x + (y + z) == (x + y) + z
  {
  }

  lemma {:induction false} HexText(bytes: seq<Byte>, i: nat)
    requires i < |bytes|
    ensures Hex(bytes)[2 * i] == "0123456789abcdef"[bytes[i] / 16]
    ensures Hex(bytes)[2 * i + 1] == "0123456789abcdef"[bytes[i] % 16]
  {
    if i == 0 {
      HexDigitText(bytes[0] / 16);
      HexDigitText(bytes[0] % 16);
    } else {
      HexText(bytes[1..], i - 1);
      assert Hex(bytes)[2..] == Hex(bytes[1..]);
    }
  }

  lemma HexDigitText(d: int)
    requires 0 <= d < 16
    ensures HexDigit(d) == "0123456789abcdef"[d]
  {
  }

  lemma Flatten(x: string, a: string, b: string, c: string, d: string)
    ensures x + ((a + "|" + b + "|" + c) + "|" + d) == x + a + "|" + b + "|" + c + "|" + d
  {
    Assoc(x, a + "|" + b + "|" + c + "|", d);
    Assoc(x, a + "|" + b + "|" + c, "|");
    Assoc(x, a + "|" + b + "|", c);
    Assoc(x, a + "|" + b, "|");
    Assoc(x, a + "|", b);
    Assoc(x, a, "|");
  }

  lemma PayloadText(seqNo: int, m: Move, prevHash: string)
    ensures Payload(seqNo, m, prevHash) ==
      Decimal(seqNo) + "|" + m.txID + "|" + m.wallet + "|" + m.kind + "|" + Decimal(m.amount) + "|"
      + Decimal(m.balanceAfter) + "|" + prevHash
  {
    var head := Decimal(seqNo) + "|" + m.txID + "|" + m.wallet;
    var amount, balance := Decimal(m.amount), Decimal(m.balanceAfter);
    Regroup(Decimal(seqNo), m.txID, m.wallet, MoveText(m, prevHash));
    Regroup(m.kind, amount, balance, prevHash);
    Flatten(head + "|", m.kind, amount, balance, prevHash);
  }

  /** The hash the ledger uses: hexadecimal digest of the payload. */
  function ComputeHash(sha: Digest): Hasher {
    (s, m, p) => Hex(sha(Payload(s, m, p)))
  }

  function PayloadOf(e: LedgerEntry): string {
    Payload(e.seqNo, e.move, e.prevHash)
  }

  /** Two different payloads of the chains with one digest, or a block that
      hashes to the all-zero genesis text. */
  ghost predicate DigestBroken(sha: Digest, a: seq<LedgerEntry>, b: seq<LedgerEntry>) {
    || (exists d, e :: d in a && e in b && PayloadOf(d) != PayloadOf(e) && sha(PayloadOf(d)) == sha(PayloadOf(e)))
    || (exists e :: e in a + b && e.hash == GENESIS)
  }

  /** A valid block's previous hash is the genesis text or some digest in
      hexadecimal: never a text with a bar. */
  lemma PrevHasNoBar(sha: Digest, chain: seq<LedgerEntry>, k: nat)
    requires ChainValid(ComputeHash(sha), chain) && k < |chain|
    ensures '|' !in chain[k].prevHash
  {
    assert BlockOk(ComputeHash(sha), chain, k);
    if k > 0 {
      assert BlockOk(ComputeHash(sha), chain, k - 1);
      assert chain[..k][k - 1] == chain[k - 1];
      var digest := sha(PayloadOf(chain[k - 1]));
      assert chain[k].prevHash == Hex(digest);
    }
  }

  lemma PrefixAndLast(a: seq<LedgerEntry>, b: seq<LedgerEntry>)
    requires |a| > 0 && |b| > 0 && a[|a| - 1] == b[|b| - 1]
    ensures a[..|a| - 1] == b[..|b| - 1] ==> a == b
  {
    assert a == a[..|a| - 1] + [a[|a| - 1]] && b == b[..|b| - 1] + [b[|b| - 1]];
  }

  /** Equal tips have equal last blocks with equal predecessors. */
  lemma LastBound(sha: Digest, a: seq<LedgerEntry>, b: seq<LedgerEntry>)
    requires ChainValid(ComputeHash(sha), a) && ChainValid(ComputeHash(sha), b)
    requires |a| > 0 && |b| > 0 && TipHash(a) == TipHash(b)
    ensures
      || DigestBroken(sha, a, b)
      || (a[|a| - 1] == b[|b| - 1] && TipHash(a[..|a| - 1]) == TipHash(b[..|b| - 1]))
  {
    var d, e, m, n := a[|a| - 1], b[|b| - 1], |a| - 1, |b| - 1;
    assert BlockOk(ComputeHash(sha), a, m) && BlockOk(ComputeHash(sha), b, n);
    HexInjective(sha(PayloadOf(d)), sha(PayloadOf(e)));
    if PayloadOf(d) == PayloadOf(e) {
      PrevHasNoBar(sha, a, m);
      PrevHasNoBar(sha, b, n);
      PayloadInjective(d.seqNo, d.move, d.prevHash, e.seqNo, e.move, e.prevHash);
    } else {
      assert d in a + b && e in a + b;
    }
  }

  lemma BrokenBefore(sha: Digest, a: seq<LedgerEntry>, b: seq<LedgerEntry>, m: nat, n: nat)
    requires m <= |a| && n <= |b| && DigestBroken(sha, a[..m], b[..n])
    ensures DigestBroken(sha, a, b)
  {
    assert forall e :: e in a[..m] + b[..n] ==> e in a + b;
  }

  /** A chain is determined by its tip: two chains the verifier accepts whose
      last hashes agree are the same chain, unless the digest itself gives way
      on blocks of these very chains. */
  lemma {:induction false} TipBindsHistory(sha: Digest, a: seq<LedgerEntry>, b: seq<LedgerEntry>)
    requires ChainValid(ComputeHash(sha), a) && ChainValid(ComputeHash(sha), b)
    requires TipHash(a) == TipHash(b)
    ensures a == b || DigestBroken(sha, a, b)
    decreases |a|
  {
    if |a| > 0 && |b| > 0 {
      LastBound(sha, a, b);
      if !DigestBroken(sha, a, b) {
        ChainPrefix(ComputeHash(sha), a, |a| - 1);
        ChainPrefix(ComputeHash(sha), b, |b| - 1);
        TipBindsHistory(sha, a[..|a| - 1], b[..|b| - 1]);
        if a[..|a| - 1] == b[..|b| - 1] {
          PrefixAndLast(a, b);
        } else {
          BrokenBefore(sha, a, b, |a| - 1, |b| - 1);
        }
      }
    } else if |a| > 0 {
      assert a[|a| - 1] in a + b;
    } else if |b| > 0 {
      assert b[|b| - 1] in a + b;
    }
  }

  /** Rewriting any block and recomputing every hash still moves the tip. */
  lemma RewriteMovesTip(sha: Digest, chain: seq<LedgerEntry>, forged: seq<LedgerEntry>)
    requires ChainValid(ComputeHash(sha), chain) && ChainValid(ComputeHash(sha), forged)
    requires forged != chain && !DigestBroken(sha, chain, forged)
    ensures TipHash(forged) != TipHash(chain)
  {
    if TipHash(forged) == TipHash(chain) {
      TipBindsHistory(sha, chain, forged);
    }
  }

  /** What every block of a valid chain carries: its number, counted from one,
      the hash before it, sixty-four zeros at the start, and the digest of the
      seven fields in this order. */
  lemma BlockText(sha: Digest, chain: seq<LedgerEntry>, k: nat)
    requires ChainValid(ComputeHash(sha), chain) && k < |chain|
    ensures var e, m := chain[k], chain[k].move;
      && e.seqNo == k + 1
      && (if k == 0 then |e.prevHash| == 64 && forall i :: 0 <= i < 64 ==> e.prevHash[i] == '0'
          else e.prevHash == chain[k - 1].hash)
      && e.hash == Hex(sha(Decimal(k + 1) + "|" + m.txID + "|" + m.wallet + "|" + m.kind + "|" + Decimal(m.amount) + "|"
           + Decimal(m.balanceAfter) + "|" + e.prevHash))
  {
    assert BlockOk(ComputeHash(sha), chain, k);
    PayloadText(k + 1, chain[k].move, chain[k].prevHash);
  }
}
