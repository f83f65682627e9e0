/** Deposit handlers side by side, with votes, other store operations and
    restarts that forget what has been polled, in any order. */
module DepositRuns {
  import opened Records
  import opened HashChain
  import opened Operations
  import opened Replay
  import opened Consensus
  import opened Deposits
  import Q = Quorum

  // ---- handlers side by side ----

  datatype Stage = Voting | Checking | Crediting | Receipting

  /** One run of `HandleDeposit`; it votes under its own number. */
  datatype Handler = Handler(event: Event, wallet: Uuid, invoice: Option<Uuid>, stage: Stage)

  /** A credited deposit and the row it wrote. */
  datatype Entry = Entry(handler: nat, hash: string, row: nat)

  datatype Receipt = Receipt(handler: nat, hash: string, invoice: Uuid, amount: int)

  /** `polled` holds the hashes that have arrived since the last restart. */
  datatype Site = Site(
    net: Q.Net,
    db: DB,
    invoices: map<Uuid, Invoice>,
    handlers: map<nat, Handler>,
    begun: set<nat>,
    polled: set<string>,
    entries: seq<Entry>,
    receipts: seq<Receipt>,
    paid: seq<Uuid>)

  datatype Step =
    | Consult(step: Q.Step)
    | Arrive(k: nat, event: Event, handle: Option<Uuid>, invoice: Option<Uuid>, service: string, stamp: int)
    | Decided(k: nat)
    | Check(k: nat)
    | Credit(k: nat, tx: Uuid)
    | AddReceipt(k: nat)
    | Other(op: Op)
    | NewInvoice(id: Uuid, wallet: Uuid, code: string, amount: int)
    | Expire(id: Uuid)
    | Restart

  /** The credited wallet: the invoice's, or the one the comment names. */
  function Target(s: Site, code: string, handle: Option<Uuid>, invoice: Option<Uuid>): Option<Uuid> {
    if invoice.Some? && invoice.value in s.invoices then Some(s.invoices[invoice.value].wallet)
    else if code == "" then None
    else handle
  }

  predicate HasApproval(net: Q.Net, k: nat, hash: string) {
    exists i :: 0 <= i < |net.approvals| && net.approvals[i].call == k && net.approvals[i].tx.id == DepositID(hash)
  }

  predicate ApprovedCall(net: Q.Net, k: nat) {
    exists i :: 0 <= i < |net.approvals| && net.approvals[i].call == k
  }

  function Next(cfg: Q.Config, h: Hasher, s: Site, step: Step): Site
    requires |s.net.tables| == |cfg.rules|
    ensures |Next(cfg, h, s, step).net.tables| == |cfg.rules|
  {
    match step
    case Consult(vote) => if vote.Restart? then s else s.(net := Q.Next(cfg, s.net, vote))
    case Arrive(k, event, handle, invoice, service, stamp) =>
      var wallet := Target(s, event.code, handle, invoice);
      if k in s.begun || k in s.net.used || event.amount <= 0 || !FindsInvoice(s.invoices, event.code, invoice)
          || wallet.None? || wallet.value !in s.db.wallets then s
      else if event.hash == "" then
        s.(begun := s.begun + {k}, polled := s.polled + {event.hash},
           handlers := s.handlers[k := Handler(event, wallet.value, invoice, Checking)])
      else
        var tx := Tx(DepositID(event.hash), event.hash, service, event.amount, stamp);
        s.(begun := s.begun + {k}, polled := s.polled + {event.hash},
           handlers := s.handlers[k := Handler(event, wallet.value, invoice, Voting)],
           net := Q.Next(cfg, s.net, Q.Start(k, tx, "")))
    case Other(op) => if op.Deposit? then s else s.(db := Effect(h, s.db, op).0)
    case NewInvoice(id, wallet, code, amount) =>
      if id in s.invoices then s
      else s.(invoices := s.invoices[id := Invoice(wallet, code, amount, 0, InvoicePending, "")])
    case Expire(id) =>
      if id !in s.invoices || !s.invoices[id].status.InvoicePending? then s
      else s.(invoices := s.invoices[id := s.invoices[id].(status := InvoiceExpired)])
    case Restart => s.(net := Q.Next(cfg, s.net, Q.Restart), handlers := map[], polled := {})
    case _ => if step.k in s.handlers then Handle(h, s, step, s.handlers[step.k]) else s
  }

  function Handle(h: Hasher, s: Site, step: Step, f: Handler): Site
    requires step.Decided? || step.Check? || step.Credit? || step.AddReceipt?
    ensures Handle(h, s, step, f).net == s.net
  {
    match step
    case Decided(k) =>
      if !f.stage.Voting? || k !in s.net.calls || !s.net.calls[k].done then s
      else if ApprovedCall(s.net, k) then MoveTo(s, k, f, Checking)
      else s.(handlers := s.handlers - {k})
    case Check(k) =>
      if !f.stage.Checking? then s
      else if FindTx(s.db.txs, ByHash(f.event.hash)).Some? then MoveTo(s, k, f, Receipting)
      else MoveTo(s, k, f, Crediting)
    case Credit(k, tx) =>
      if !f.stage.Crediting? then s
      else
        var (db, outcome) := Effect(h, s.db, Deposit(tx, f.wallet, f.event.amount, f.event.hash, f.event.code));
        if outcome != Applied then s.(handlers := s.handlers - {k})
        else MoveTo(s, k, f, Receipting).(db := db, entries := s.entries + [Entry(k, f.event.hash, |s.db.txs|)])
    case AddReceipt(k) =>
      if !f.stage.Receipting? then s
      else
        var over := s.(handlers := s.handlers - {k});
        if f.invoice.None? || f.invoice.value !in s.invoices then over
        else
          var id := f.invoice.value;
          var (inv, paid) := Receive(s.invoices[id], f.event.amount, f.event.hash);
          over.(invoices := s.invoices[id := inv], paid := if paid then s.paid + [id] else s.paid,
                receipts := s.receipts + [Receipt(k, f.event.hash, id, f.event.amount)])
  }

  function MoveTo(s: Site, k: nat, f: Handler, stage: Stage): Site {
    s.(handlers := s.handlers[k := f.(stage := stage)])
  }

  function Play(cfg: Q.Config, h: Hasher, s: Site, schedule: seq<Step>): Site
    requires |s.net.tables| == |cfg.rules|
    ensures |Play(cfg, h, s, schedule).net.tables| == |cfg.rules|
  {
    if schedule == [] then s
    else Next(cfg, h, Play(cfg, h, s, schedule[..|schedule| - 1]), schedule[|schedule| - 1])
  }

  function Opened(cfg: Q.Config): (s: Site)
    ensures |s.net.tables| == |cfg.rules|
  {
    Site(Q.Fresh(cfg), EMPTY, map[], map[], {}, {}, [], [], [])
  }

  // ---- the invariant ----

  /** A handler that has not come back from its vote owns the vote's call; one
      that has was approved. */
  predicate HandlerOk(s: Site, k: nat, f: Handler) {
    && k in s.begun && f.event.amount > 0
    && (f.event.hash == "" ==> !f.stage.Voting?)
    && (f.event.hash != "" && f.stage.Voting? ==> k in s.net.calls && s.net.calls[k].tx.id == DepositID(f.event.hash))
    && (f.event.hash != "" && !f.stage.Voting? ==> HasApproval(s.net, k, f.event.hash))
    && (f.stage.Receipting? ==> FindTx(s.db.txs, ByHash(f.event.hash)).Some?)
    && (forall i :: 0 <= i < |s.receipts| ==> s.receipts[i].handler != k)
    && (!f.stage.Receipting? ==> forall i :: 0 <= i < |s.entries| ==> s.entries[i].handler != k)
  }

  predicate EntryOk(s: Site, e: Entry) {
    && e.handler in s.begun && (e.hash != "" ==> HasApproval(s.net, e.handler, e.hash))
    && e.row < |s.db.txs| && Books(s.db.txs[e.row], ByHash(e.hash))
  }

  predicate HasEntry(entries: seq<Entry>, row: nat) {
    exists i :: 0 <= i < |entries| && entries[i].row == row
  }

  predicate EntriesOk(s: Site) {
    && (forall i :: 0 <= i < |s.entries| ==> EntryOk(s, s.entries[i]))
    && (forall i, j :: 0 <= i < j < |s.entries| ==> s.entries[i].handler != s.entries[j].handler)
    && (forall r :: 0 <= r < |s.db.txs| && s.db.txs[r].kind.TxDeposit? && s.db.txs[r].hash.OnChain? ==>
        HasEntry(s.entries, r))
  }

  predicate ReceiptOk(s: Site, r: Receipt) {
    && r.handler in s.begun && (r.hash != "" ==> HasApproval(s.net, r.handler, r.hash))
    && FindTx(s.db.txs, ByHash(r.hash)).Some?
  }

  predicate ReceiptsOk(s: Site) {
    && (forall i :: 0 <= i < |s.receipts| ==> ReceiptOk(s, s.receipts[i]))
    && (forall i, j :: 0 <= i < j < |s.receipts| ==> s.receipts[i].handler != s.receipts[j].handler)
  }

  function ReceiptSum(receipts: seq<Receipt>, id: Uuid): int {
    if receipts == [] then 0
    else
      var r := receipts[|receipts| - 1];
      ReceiptSum(receipts[..|receipts| - 1], id) + if r.invoice == id then r.amount else 0
  }

  /** An invoice's total is the sum of its receipts; it is pending only while
      that does not cover its amount; and it is announced as paid once. */
  predicate InvoiceOk(s: Site, id: Uuid) {
    && id in s.invoices
    && var inv := s.invoices[id];
      && inv.received == ReceiptSum(s.receipts, id)
      && (inv.status.InvoicePaid? <==> id in s.paid)
      && (inv.status.InvoicePaid? ==> inv.amount == 0 || inv.received >= inv.amount)
      && (inv.status.InvoicePending? ==> inv.received == 0 || (inv.amount != 0 && inv.received < inv.amount))
  }

  predicate InvoicesOk(s: Site) {
    && (forall id :: id in s.invoices ==> InvoiceOk(s, id))
    && (forall i :: 0 <= i < |s.receipts| ==> s.receipts[i].invoice in s.invoices)
    && (forall i :: 0 <= i < |s.paid| ==> s.paid[i] in s.invoices)
    && (forall i, j :: 0 <= i < j < |s.paid| ==> s.paid[i] != s.paid[j])
  }

  predicate Inv(cfg: Q.Config, s: Site) {
    && Q.Inv(cfg, s.net)
    && (forall k :: k in s.handlers ==> HandlerOk(s, k, s.handlers[k]))
    && EntriesOk(s) && ReceiptsOk(s) && InvoicesOk(s)
  }

  // ---- what each step keeps ----

  predicate Grows(s: Site, t: Site) {
    s.begun <= t.begun && s.net.approvals <= t.net.approvals && s.db.txs <= t.db.txs
  }

  lemma ApprovalStays(s: Site, t: Site, k: nat, hash: string)
    requires Grows(s, t) && HasApproval(s.net, k, hash)
    ensures HasApproval(t.net, k, hash)
  {
    var i :| 0 <= i < |s.net.approvals| && s.net.approvals[i].call == k && s.net.approvals[i].tx.id == DepositID(hash);
    assert t.net.approvals[i] == s.net.approvals[i];
  }

  lemma RowStays(s: Site, t: Site, hash: string)
    requires Grows(s, t) && FindTx(s.db.txs, ByHash(hash)).Some?
    ensures FindTx(t.db.txs, ByHash(hash)).Some?
  {
    assert t.db.txs == s.db.txs + t.db.txs[|s.db.txs|..];
    FindStays(s.db.txs, t.db.txs[|s.db.txs|..], ByHash(hash));
  }

  lemma HandlerStays(s: Site, t: Site, k: nat, f: Handler)
    requires Grows(s, t) && HandlerOk(s, k, f)
    requires f.stage.Voting? && f.event.hash != "" ==> k in t.net.calls && t.net.calls[k].tx == s.net.calls[k].tx
    requires
      || t.entries == s.entries
      || (|t.entries| == |s.entries| + 1 && t.entries[..|s.entries|] == s.entries
          && t.entries[|s.entries|].handler != k)
    requires
      || t.receipts == s.receipts
      || (|t.receipts| == |s.receipts| + 1 && t.receipts[..|s.receipts|] == s.receipts
          && t.receipts[|s.receipts|].handler != k)
    ensures HandlerOk(t, k, f)
  {
    if f.event.hash != "" && !f.stage.Voting? {
      ApprovalStays(s, t, k, f.event.hash);
    }
    if f.stage.Receipting? {
      RowStays(s, t, f.event.hash);
    }
    assert forall i :: 0 <= i < |s.entries| ==> t.entries[i] == s.entries[i];
    assert forall i :: 0 <= i < |s.receipts| ==> t.receipts[i] == s.receipts[i];
  }

  lemma LogsStay(s: Site, t: Site)
    requires Grows(s, t) && t.entries == s.entries && t.receipts == s.receipts && EntriesOk(s) && ReceiptsOk(s)
    requires forall r :: |s.db.txs| <= r < |t.db.txs| ==> !(t.db.txs[r].kind.TxDeposit? && t.db.txs[r].hash.OnChain?)
    ensures EntriesOk(t) && ReceiptsOk(t)
  {
    forall i | 0 <= i < |s.entries|
      ensures EntryOk(t, s.entries[i])
    {
      assert EntryOk(s, s.entries[i]);
      if s.entries[i].hash != "" {
        ApprovalStays(s, t, s.entries[i].handler, s.entries[i].hash);
      }
    }
    forall i | 0 <= i < |s.receipts|
      ensures ReceiptOk(t, s.receipts[i])
    {
      assert ReceiptOk(s, s.receipts[i]);
      RowStays(s, t, s.receipts[i].hash);
      if s.receipts[i].hash != "" {
        ApprovalStays(s, t, s.receipts[i].handler, s.receipts[i].hash);
      }
    }
  }

  lemma VoteKeepsCalls(cfg: Q.Config, n: Q.Net, step: Q.Step)
    requires |n.tables| == |cfg.rules| && n.calls.Keys <= n.used && !step.Restart?
    ensures var m := Q.Next(cfg, n, step);
      && n.approvals <= m.approvals
      && forall k :: k in n.calls ==> k in m.calls && m.calls[k].tx == n.calls[k].tx
  {
  }

  lemma VoteKeepsInv(cfg: Q.Config, h: Hasher, s: Site, step: Q.Step)
    requires Inv(cfg, s) && !step.Restart?
    ensures Inv(cfg, Next(cfg, h, s, Consult(step)))
  {
    var t := Next(cfg, h, s, Consult(step));
    VoteKeepsCalls(cfg, s.net, step);
    Q.StepKeepsInv(cfg, s.net, step);
    HandlersStay(s, t);
    LogsStay(s, t);
    InvoicesStay(s, t);
  }

  lemma InvoicesStay(s: Site, t: Site)
    requires InvoicesOk(s) && t.invoices == s.invoices && t.receipts == s.receipts && t.paid == s.paid
    ensures InvoicesOk(t)
  {
    forall id | id in s.invoices
      ensures InvoiceOk(t, id)
    {
      assert InvoiceOk(s, id);
    }
  }

  /** A number that has not begun appears nowhere. */
  lemma Unused(cfg: Q.Config, s: Site, k: nat)
    requires Inv(cfg, s) && k !in s.begun
    ensures k !in s.handlers
    ensures forall i :: 0 <= i < |s.receipts| ==> s.receipts[i].handler != k
    ensures forall i :: 0 <= i < |s.entries| ==> s.entries[i].handler != k
  {
    forall d | d in s.handlers
      ensures d != k
    {
      assert HandlerOk(s, d, s.handlers[d]);
    }
    forall i | 0 <= i < |s.receipts|
      ensures s.receipts[i].handler != k
    {
      assert ReceiptOk(s, s.receipts[i]);
    }
    forall i | 0 <= i < |s.entries|
      ensures s.entries[i].handler != k
    {
      assert EntryOk(s, s.entries[i]);
    }
  }

  lemma HandlersStay(s: Site, t: Site)
    requires Grows(s, t) && t.entries == s.entries && t.receipts == s.receipts
    requires forall k :: k in s.handlers ==> HandlerOk(s, k, s.handlers[k])
    requires forall k :: k in s.net.calls ==> k in t.net.calls && t.net.calls[k].tx == s.net.calls[k].tx
    ensures forall k :: k in s.handlers ==> HandlerOk(t, k, s.handlers[k])
  {
    forall k | k in s.handlers
      ensures HandlerOk(t, k, s.handlers[k])
    {
      HandlerStays(s, t, k, s.handlers[k]);
    }
  }

  /** An arrival changes the handlers and starts at most one vote. */
  lemma ArriveFrame(cfg: Q.Config, h: Hasher, s: Site, step: Step)
    requires Inv(cfg, s) && step.Arrive?
    ensures var t := Next(cfg, h, s, step);
      && Q.Inv(cfg, t.net) && Grows(s, t)
      && t == s.(net := t.net, begun := t.begun, polled := t.polled, handlers := t.handlers)
      && (forall k :: k in s.net.calls ==> k in t.net.calls && t.net.calls[k].tx == s.net.calls[k].tx)
  {
    var vote := Q.Start(step.k,
        Tx(DepositID(step.event.hash), step.event.hash, step.service, step.event.amount, step.stamp), "");
    VoteKeepsCalls(cfg, s.net, vote);
    Q.StepKeepsInv(cfg, s.net, vote);
  }

  lemma NewcomerOk(cfg: Q.Config, h: Hasher, s: Site, step: Step)
    requires Inv(cfg, s) && step.Arrive? && Next(cfg, h, s, step).begun != s.begun
    ensures var t, k := Next(cfg, h, s, step), step.k;
      k in t.handlers && t.handlers == s.handlers[k := t.handlers[k]] && HandlerOk(t, k, t.handlers[k])
  {
    Unused(cfg, s, step.k);
  }

  lemma ArriveKeepsInv(cfg: Q.Config, h: Hasher, s: Site, step: Step)
    requires Inv(cfg, s) && step.Arrive?
    ensures Inv(cfg, Next(cfg, h, s, step))
  {
    var t := Next(cfg, h, s, step);
    if t.begun != s.begun {
      ArriveFrame(cfg, h, s, step);
      NewcomerOk(cfg, h, s, step);
      ArrivedInv(cfg, s, t, step.k);
    }
  }

  lemma ArrivedInv(cfg: Q.Config, s: Site, t: Site, k: nat)
    requires Inv(cfg, s) && Q.Inv(cfg, t.net) && Grows(s, t)
    requires t == s.(net := t.net, begun := t.begun, polled := t.polled, handlers := t.handlers)
    requires forall c :: c in s.net.calls ==> c in t.net.calls && t.net.calls[c].tx == s.net.calls[c].tx
    requires k in t.handlers && t.handlers == s.handlers[k := t.handlers[k]] && HandlerOk(t, k, t.handlers[k])
    ensures Inv(cfg, t)
  {
    HandlersStay(s, t);
    LogsStay(s, t);
    InvoicesStay(s, t);
  }

  /** The approval of a handler's call is the approval of its hash. */
  lemma ApprovedHash(cfg: Q.Config, s: Site, k: nat)
    requires Inv(cfg, s) && k in s.handlers && s.handlers[k].stage.Voting? && ApprovedCall(s.net, k)
    ensures HasApproval(s.net, k, s.handlers[k].event.hash)
  {
    assert HandlerOk(s, k, s.handlers[k]);
    var i :| 0 <= i < |s.net.approvals| && s.net.approvals[i].call == k;
    assert Q.ApprovalOk(cfg, s.net, s.net.approvals[i]);
  }

  /** Handlers that move on or stop without writing. */
  lemma StageKeepsInv(cfg: Q.Config, s: Site, t: Site)
    requires Inv(cfg, s) && t == s.(handlers := t.handlers)
    requires forall k :: k in t.handlers ==> HandlerOk(s, k, t.handlers[k])
    ensures Inv(cfg, t)
  {
    forall k | k in t.handlers
      ensures HandlerOk(t, k, t.handlers[k])
    {
      HandlerStays(s, t, k, t.handlers[k]);
    }
    LogsStay(s, t);
    InvoicesStay(s, t);
  }

  lemma DecidedKeepsInv(cfg: Q.Config, h: Hasher, s: Site, k: nat)
    requires Inv(cfg, s) && k in s.handlers
    ensures Inv(cfg, Next(cfg, h, s, Decided(k)))
  {
    var t, f := Next(cfg, h, s, Decided(k)), s.handlers[k];
    assert HandlerOk(s, k, f);
    if f.stage.Voting? && ApprovedCall(s.net, k) {
      ApprovedHash(cfg, s, k);
      assert HandlerOk(s, k, f.(stage := Checking));
    }
    StageKeepsInv(cfg, s, t);
  }

  lemma CheckKeepsInv(cfg: Q.Config, h: Hasher, s: Site, k: nat)
    requires Inv(cfg, s) && k in s.handlers
    ensures Inv(cfg, Next(cfg, h, s, Check(k)))
  {
    var t, f := Next(cfg, h, s, Check(k)), s.handlers[k];
    assert HandlerOk(s, k, f);
    if f.stage.Checking? {
      assert HandlerOk(s, k, t.handlers[k]);
    }
    StageKeepsInv(cfg, s, t);
  }

  lemma RestartKeepsInv(cfg: Q.Config, h: Hasher, s: Site)
    requires Inv(cfg, s)
    ensures Inv(cfg, Next(cfg, h, s, Restart))
  {
    var t := Next(cfg, h, s, Restart);
    Q.StepKeepsInv(cfg, s.net, Q.Restart);
    LogsStay(s, t);
    InvoicesStay(s, t);
  }

  lemma OtherRows(h: Hasher, db: DB, op: Op)
    requires !op.Deposit?
    ensures var after := Effect(h, db, op).0;
      && db.txs <= after.txs
      && forall r :: |db.txs| <= r < |after.txs| ==> !(after.txs[r].kind.TxDeposit? && after.txs[r].hash.OnChain?)
  {
  }

  lemma OtherKeepsInv(cfg: Q.Config, h: Hasher, s: Site, op: Op)
    requires Inv(cfg, s)
    ensures Inv(cfg, Next(cfg, h, s, Other(op)))
  {
    if !op.Deposit? {
      var t := Next(cfg, h, s, Other(op));
      OtherRows(h, s.db, op);
      HandlersStay(s, t);
      LogsStay(s, t);
      InvoicesStay(s, t);
    }
  }

  // ---- the writes ----

  lemma CreditedRow(h: Hasher, db: DB, op: Op)
    requires op.Deposit? && Effect(h, db, op).1.Applied?
    ensures Effect(h, db, op).0.txs ==
      db.txs + [Transaction(op.tx, op.wallet, TxDeposit, op.amount, "", op.ref, OnChain(op.hash))]
  {
  }

  lemma EntryAdded(s: Site, t: Site, e: Entry)
    requires EntriesOk(s) && Grows(s, t) && t.entries == s.entries + [e] && EntryOk(t, e)
    requires e.row == |s.db.txs| == |t.db.txs| - 1
    requires forall i :: 0 <= i < |s.entries| ==> s.entries[i].handler != e.handler
    ensures EntriesOk(t)
  {
    forall i | 0 <= i < |s.entries|
      ensures EntryOk(t, s.entries[i])
    {
      assert EntryOk(s, s.entries[i]);
      if s.entries[i].hash != "" {
        ApprovalStays(s, t, s.entries[i].handler, s.entries[i].hash);
      }
    }
    forall r | 0 <= r < |t.db.txs| && t.db.txs[r].kind.TxDeposit? && t.db.txs[r].hash.OnChain?
      ensures HasEntry(t.entries, r)
    {
      if r < |s.db.txs| {
        assert s.db.txs[r] == t.db.txs[r];
        var i :| 0 <= i < |s.entries| && s.entries[i].row == r;
        assert t.entries[i].row == r;
      } else {
        assert t.entries[|s.entries|].row == r;
      }
    }
  }

  lemma ReceiptsStay(s: Site, t: Site)
    requires ReceiptsOk(s) && Grows(s, t) && s.receipts == t.receipts
    ensures ReceiptsOk(t)
  {
    forall i | 0 <= i < |s.receipts|
      ensures ReceiptOk(t, s.receipts[i])
    {
      assert ReceiptOk(s, s.receipts[i]);
      RowStays(s, t, s.receipts[i].hash);
      if s.receipts[i].hash != "" {
        ApprovalStays(s, t, s.receipts[i].handler, s.receipts[i].hash);
      }
    }
  }

  lemma CreditKeepsInv(cfg: Q.Config, h: Hasher, s: Site, k: nat, tx: Uuid)
    requires Inv(cfg, s) && k in s.handlers
    ensures Inv(cfg, Next(cfg, h, s, Credit(k, tx)))
  {
    var t, f := Next(cfg, h, s, Credit(k, tx)), s.handlers[k];
    assert HandlerOk(s, k, f);
    var op := Deposit(tx, f.wallet, f.event.amount, f.event.hash, f.event.code);
    if f.stage.Crediting? && Effect(h, s.db, op).1 == Applied {
      CreditedRow(h, s.db, op);
      var e := Entry(k, f.event.hash, |s.db.txs|);
      assert t.db.txs[e.row] in t.db.txs && Matches(t.db.txs[e.row], ByHash(e.hash));
      assert EntryOk(t, e);
      EntryAdded(s, t, e);
      ReceiptsStay(s, t);
      InvoicesStay(s, t);
      forall d | d in t.handlers
        ensures HandlerOk(t, d, t.handlers[d])
      {
        if d != k {
          HandlerStays(s, t, d, s.handlers[d]);
        }
      }
    } else {
      StageKeepsInv(cfg, s, t);
    }
  }

  lemma ReceiptAdded(s: Site, t: Site, r: Receipt)
    requires ReceiptsOk(s) && t.receipts == s.receipts + [r] && t.begun == s.begun && t.net == s.net && t.db == s.db
    requires ReceiptOk(s, r)
    requires forall i :: 0 <= i < |s.receipts| ==> s.receipts[i].handler != r.handler
    ensures ReceiptsOk(t)
  {
    forall i | 0 <= i < |t.receipts|
      ensures ReceiptOk(t, t.receipts[i])
    {
      assert i < |s.receipts| ==> ReceiptOk(s, s.receipts[i]);
    }
  }

  lemma PaidInvoice(s: Site, t: Site, r: Receipt)
    requires InvoicesOk(s) && r.invoice in s.invoices && r.amount > 0 && t.receipts == s.receipts + [r]
    requires var (inv, paid) := Receive(s.invoices[r.invoice], r.amount, r.hash);
      t.invoices == s.invoices[r.invoice := inv] && t.paid == if paid then s.paid + [r.invoice] else s.paid
    ensures InvoicesOk(t)
  {
    assert t.receipts[..|s.receipts|] == s.receipts;
    forall id | id in t.invoices
      ensures InvoiceOk(t, id)
    {
      assert InvoiceOk(s, id);
    }
    assert InvoiceOk(s, r.invoice);
  }

  lemma ReceivedInv(cfg: Q.Config, s: Site, t: Site, k: nat, r: Receipt)
    requires Inv(cfg, s) && k in s.handlers && r.handler == k && ReceiptOk(s, r) && r.invoice in s.invoices
    requires r.amount > 0
    requires t == s.(handlers := s.handlers - {k}, invoices := t.invoices, receipts := s.receipts + [r], paid := t.paid)
    requires var (inv, paid) := Receive(s.invoices[r.invoice], r.amount, r.hash);
      t.invoices == s.invoices[r.invoice := inv] && t.paid == if paid then s.paid + [r.invoice] else s.paid
    ensures Inv(cfg, t)
  {
    assert HandlerOk(s, k, s.handlers[k]);
    ReceiptAdded(s, t, r);
    PaidInvoice(s, t, r);
    forall d | d in t.handlers
      ensures HandlerOk(t, d, t.handlers[d])
    {
      HandlerStays(s, t, d, s.handlers[d]);
    }
    assert forall i :: 0 <= i < |s.entries| && EntryOk(s, s.entries[i]) ==> EntryOk(t, s.entries[i]);
  }

  lemma ReceiptKeepsInv(cfg: Q.Config, h: Hasher, s: Site, k: nat)
    requires Inv(cfg, s) && k in s.handlers
    ensures Inv(cfg, Next(cfg, h, s, AddReceipt(k)))
  {
    var t, f := Next(cfg, h, s, AddReceipt(k)), s.handlers[k];
    assert HandlerOk(s, k, f);
    if f.stage.Receipting? && f.invoice.Some? && f.invoice.value in s.invoices {
      ReceivedInv(cfg, s, t, k, Receipt(k, f.event.hash, f.invoice.value, f.event.amount));
    } else {
      StageKeepsInv(cfg, s, t);
    }
  }

  lemma {:induction false} NoReceipts(receipts: seq<Receipt>, id: Uuid)
    requires forall i :: 0 <= i < |receipts| ==> receipts[i].invoice != id
    ensures ReceiptSum(receipts, id) == 0
  {
    if receipts != [] {
      NoReceipts(receipts[..|receipts| - 1], id);
    }
  }

  /** One invoice is opened or changes while no receipt is added. */
  lemma InvoiceChanged(s: Site, t: Site, id: Uuid)
    requires InvoicesOk(s) && t.receipts == s.receipts && t.paid == s.paid
    requires id in t.invoices && t.invoices == s.invoices[id := t.invoices[id]] && InvoiceOk(t, id)
    ensures InvoicesOk(t)
  {
    forall other | other in s.invoices && other != id
      ensures InvoiceOk(t, other)
    {
      assert InvoiceOk(s, other);
    }
  }

  lemma InvoiceInv(cfg: Q.Config, s: Site, t: Site, id: Uuid)
    requires Inv(cfg, s) && t == s.(invoices := t.invoices)
    requires id in t.invoices && t.invoices == s.invoices[id := t.invoices[id]] && InvoiceOk(t, id)
    ensures Inv(cfg, t)
  {
    InvoiceChanged(s, t, id);
    HandlersStay(s, t);
    LogsStay(s, t);
  }

  lemma OpenedOk(s: Site, t: Site, id: Uuid)
    requires InvoicesOk(s) && id !in s.invoices && t.receipts == s.receipts && t.paid == s.paid && id in t.invoices
    requires t.invoices[id].received == 0 && t.invoices[id].status.InvoicePending?
    ensures InvoiceOk(t, id)
  {
    NoReceipts(s.receipts, id);
  }

  lemma InvoiceStepKeepsInv(cfg: Q.Config, h: Hasher, s: Site, step: Step)
    requires Inv(cfg, s) && (step.NewInvoice? || step.Expire?)
    ensures Inv(cfg, Next(cfg, h, s, step))
  {
    var t, id := Next(cfg, h, s, step), step.id;
    if t != s {
      if step.NewInvoice? {
        OpenedOk(s, t, id);
      } else {
        assert InvoiceOk(s, id);
      }
      InvoiceInv(cfg, s, t, id);
    }
  }

  lemma StepKeepsInv(cfg: Q.Config, h: Hasher, s: Site, step: Step)
    requires Inv(cfg, s)
    ensures Inv(cfg, Next(cfg, h, s, step))
  {
    match step {
      case Consult(vote) => if !vote.Restart? { VoteKeepsInv(cfg, h, s, vote); }
      case Arrive(_, _, _, _, _, _) => ArriveKeepsInv(cfg, h, s, step);
      case Decided(k) => if k in s.handlers { DecidedKeepsInv(cfg, h, s, k); }
      case Check(k) => if k in s.handlers { CheckKeepsInv(cfg, h, s, k); }
      case Credit(k, tx) => if k in s.handlers { CreditKeepsInv(cfg, h, s, k, tx); }
      case AddReceipt(k) => if k in s.handlers { ReceiptKeepsInv(cfg, h, s, k); }
      case Other(op) => OtherKeepsInv(cfg, h, s, op);
      case NewInvoice(_, _, _, _) => InvoiceStepKeepsInv(cfg, h, s, step);
      case Expire(_) => InvoiceStepKeepsInv(cfg, h, s, step);
      case Restart => RestartKeepsInv(cfg, h, s);
    }
  }

  lemma OpenedInv(cfg: Q.Config)
    ensures Inv(cfg, Opened(cfg))
  {
  }

  lemma {:induction false} PlayKeepsInv(cfg: Q.Config, h: Hasher, s: Site, schedule: seq<Step>)
    requires Inv(cfg, s)
    ensures Inv(cfg, Play(cfg, h, s, schedule))
  {
    if schedule != [] {
      PlayKeepsInv(cfg, h, s, schedule[..|schedule| - 1]);
      StepKeepsInv(cfg, h, Play(cfg, h, s, schedule[..|schedule| - 1]), schedule[|schedule| - 1]);
    }
  }

  // ---- what it comes to ----

  lemma SameHandler(cfg: Q.Config, s: Site, hash: string, k: nat, d: nat)
    requires Inv(cfg, s) && cfg.exclusive(DepositID(hash)) && 2 * cfg.threshold > |cfg.rules|
    requires HasApproval(s.net, k, hash) && HasApproval(s.net, d, hash)
    ensures k == d
  {
    Q.InvApprovesOnce(cfg, s.net, DepositID(hash));
    var i :| 0 <= i < |s.net.approvals| && s.net.approvals[i].call == k && s.net.approvals[i].tx.id == DepositID(hash);
    var j :| 0 <= j < |s.net.approvals| && s.net.approvals[j].call == d && s.net.approvals[j].tx.id == DepositID(hash);
    assert i == j;
  }

  predicate ReceivedOnce(receipts: seq<Receipt>, hash: string) {
    forall i, j :: 0 <= i < j < |receipts| ==> receipts[i].hash != hash || receipts[j].hash != hash
  }

  /** The entry behind a deposit row. */
  lemma RowEntry(cfg: Q.Config, s: Site, r: nat, hash: string) returns (i: nat)
    requires Inv(cfg, s) && r < |s.db.txs| && Books(s.db.txs[r], ByHash(hash)) && hash != ""
    ensures i < |s.entries| && s.entries[i].row == r && HasApproval(s.net, s.entries[i].handler, hash)
  {
    assert HasEntry(s.entries, r);
    i :| 0 <= i < |s.entries| && s.entries[i].row == r;
    assert EntryOk(s, s.entries[i]);
  }

  lemma InvReceivesOnce(cfg: Q.Config, s: Site, hash: string)
    requires Inv(cfg, s) && cfg.exclusive(DepositID(hash)) && 2 * cfg.threshold > |cfg.rules| && hash != ""
    ensures ReceivedOnce(s.receipts, hash)
  {
    forall i, j | 0 <= i < j < |s.receipts| && s.receipts[i].hash == hash
      ensures s.receipts[j].hash != hash
    {
      if s.receipts[j].hash == hash {
        assert ReceiptOk(s, s.receipts[i]) && ReceiptOk(s, s.receipts[j]);
        SameHandler(cfg, s, hash, s.receipts[i].handler, s.receipts[j].handler);
      }
    }
  }

  lemma InvBooksOnce(cfg: Q.Config, s: Site, hash: string)
    requires Inv(cfg, s) && cfg.exclusive(DepositID(hash)) && 2 * cfg.threshold > |cfg.rules| && hash != ""
    ensures BookedOnce(s.db.txs, ByHash(hash))
  {
    forall p, r | 0 <= p < r < |s.db.txs| && Books(s.db.txs[p], ByHash(hash))
      ensures !Books(s.db.txs[r], ByHash(hash))
    {
      if Books(s.db.txs[r], ByHash(hash)) {
        var i := RowEntry(cfg, s, p, hash);
        var j := RowEntry(cfg, s, r, hash);
        SameHandler(cfg, s, hash, s.entries[i].handler, s.entries[j].handler);
      }
    }
  }

  /** An on-chain hash is credited to at most one wallet and added to at most
      one invoice, once, whatever handlers overlap and however often the process
      restarts, although receipts are not checked for duplicates. */
  lemma HashCountsOnce(cfg: Q.Config, h: Hasher, schedule: seq<Step>, hash: string)
    requires cfg.exclusive(DepositID(hash)) && 2 * cfg.threshold > |cfg.rules| && hash != ""
    ensures var s := Play(cfg, h, Opened(cfg), schedule);
      BookedOnce(s.db.txs, ByHash(hash)) && ReceivedOnce(s.receipts, hash)
  {
    OpenedInv(cfg);
    PlayKeepsInv(cfg, h, Opened(cfg), schedule);
    InvReceivesOnce(cfg, Play(cfg, h, Opened(cfg), schedule), hash);
    InvBooksOnce(cfg, Play(cfg, h, Opened(cfg), schedule), hash);
  }

  /** Every receipt is backed by a booked transaction, an invoice's total is
      the sum of its receipts, and it is announced as paid exactly when that
      covers its amount while it is pending, once. */
  lemma InvoicesAddUp(cfg: Q.Config, h: Hasher, schedule: seq<Step>, id: Uuid)
    requires id in Play(cfg, h, Opened(cfg), schedule).invoices
    ensures var s := Play(cfg, h, Opened(cfg), schedule);
      && s.invoices[id].received == ReceiptSum(s.receipts, id)
      && (forall r :: r in s.receipts ==> FindTx(s.db.txs, ByHash(r.hash)).Some?)
      && (id in s.paid <==> s.invoices[id].status.InvoicePaid?)
      && (id in s.paid ==> s.invoices[id].amount == 0 || s.invoices[id].received >= s.invoices[id].amount)
      && (s.invoices[id].status.InvoicePending? ==>
            s.invoices[id].received == 0
                || (s.invoices[id].amount != 0 && s.invoices[id].received < s.invoices[id].amount))
      && (forall i, j :: 0 <= i < j < |s.paid| ==> s.paid[i] != s.paid[j])
  {
    var s := Play(cfg, h, Opened(cfg), schedule);
    OpenedInv(cfg);
    PlayKeepsInv(cfg, h, Opened(cfg), schedule);
    assert InvoiceOk(s, id);
    forall r | r in s.receipts
      ensures FindTx(s.db.txs, ByHash(r.hash)).Some?
    {
      var i :| 0 <= i < |s.receipts| && s.receipts[i] == r;
      assert ReceiptOk(s, s.receipts[i]);
    }
  }

  // ---- the price: an approved hash whose handler stops ----

  /** The handler has stopped without crediting. */
  predicate Stopped(s: Site, k: nat) {
    k in s.begun && k !in s.handlers && forall i :: 0 <= i < |s.entries| ==> s.entries[i].handler != k
  }

  lemma StepStaysStopped(cfg: Q.Config, h: Hasher, s: Site, step: Step, k: nat)
    requires |s.net.tables| == |cfg.rules| && Stopped(s, k)
    ensures Stopped(Next(cfg, h, s, step), k)
    ensures s.net.approvals <= Next(cfg, h, s, step).net.approvals
  {
  }

  lemma {:induction false} StaysStopped(cfg: Q.Config, h: Hasher, s: Site, schedule: seq<Step>, k: nat)
    requires |s.net.tables| == |cfg.rules| && Stopped(s, k)
    ensures Stopped(Play(cfg, h, s, schedule), k)
    ensures s.net.approvals <= Play(cfg, h, s, schedule).net.approvals
  {
    if schedule != [] {
      StaysStopped(cfg, h, s, schedule[..|schedule| - 1], k);
      StepStaysStopped(cfg, h, Play(cfg, h, s, schedule[..|schedule| - 1]), schedule[|schedule| - 1], k);
    }
  }

  lemma StoppedIsUncredited(cfg: Q.Config, s: Site, k: nat, hash: string)
    requires Inv(cfg, s) && cfg.exclusive(DepositID(hash)) && 2 * cfg.threshold > |cfg.rules| && hash != ""
    requires HasApproval(s.net, k, hash) && Stopped(s, k)
    ensures forall row :: row in s.db.txs ==> !Books(row, ByHash(hash))
  {
    forall row | row in s.db.txs
      ensures !Books(row, ByHash(hash))
    {
      if Books(row, ByHash(hash)) {
        var r :| 0 <= r < |s.db.txs| && s.db.txs[r] == row;
        var i := RowEntry(cfg, s, r, hash);
        SameHandler(cfg, s, hash, k, s.entries[i].handler);
      }
    }
  }

  /** Once a hash has been approved and its handler has stopped before the
      credit, no later poll, vote or restart can credit it. */
  lemma NeverCredited(cfg: Q.Config, h: Hasher, schedule: seq<Step>, later: seq<Step>, k: nat, hash: string)
    requires cfg.exclusive(DepositID(hash)) && 2 * cfg.threshold > |cfg.rules| && hash != ""
    requires var s := Play(cfg, h, Opened(cfg), schedule); HasApproval(s.net, k, hash) && Stopped(s, k)
    ensures var t := Play(cfg, h, Play(cfg, h, Opened(cfg), schedule), later);
      forall row :: row in t.db.txs ==> !Books(row, ByHash(hash))
  {
    var s := Play(cfg, h, Opened(cfg), schedule);
    var t := Play(cfg, h, s, later);
    OpenedInv(cfg);
    PlayKeepsInv(cfg, h, Opened(cfg), schedule);
    PlayKeepsInv(cfg, h, s, later);
    StaysStopped(cfg, h, s, later, k);
    var a :| 0 <= a < |s.net.approvals| && s.net.approvals[a].call == k && s.net.approvals[a].tx.id == DepositID(hash);
    assert t.net.approvals[a] == s.net.approvals[a];
    StoppedIsUncredited(cfg, t, k, hash);
  }
}
