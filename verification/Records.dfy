/** Row shapes of the wallet database and the small values they are made of. */
module Records {
  datatype Option<+T> = None | Some(value: T)

  /** The canonical 36-character text form, which never contains a bar. */
  type Uuid = s: string | |s| == 36 && '|' !in s witness "00000000-0000-0000-0000-000000000000"

  /** One wallet row; all amounts are nano-TON. */
  datatype Wallet = Wallet(ton: int, credit: int, frozen: int) {
    function Total(): int {
      ton + credit
    }

    predicate HasEnough(amount: int) {
      ton + credit - frozen >= amount
    }
  }

  datatype TxType = TxDeposit | TxWithdraw | TxCreditAdd | TxPayment | TxRefund

  /** A hash typed in or read from the blockchain, or the generated text that
      marks an internal movement. */
  datatype TxHash = OnChain(text: string) | Internal

  datatype Transaction = Transaction(
    id: Uuid, wallet: Uuid, kind: TxType, amount: int, service: string, ref: string, hash: TxHash)

  const DEBIT := "debit"
  const CREDIT := "credit"

  /** A balance movement before it is placed in the chain. */
  datatype Move = Move(txID: Uuid, wallet: Uuid, kind: string, amount: int, balanceAfter: int)

  /** One block of the chain: its movement, its place and its two hashes. */
  datatype LedgerEntry = LedgerEntry(seqNo: int, move: Move, prevHash: string, hash: string)

  datatype RequestStatus = Pending | Done | Rejected

  datatype Request = Request(id: Uuid, wallet: Uuid, amount: int, fee: int, status: RequestStatus) {
    function Total(): int {
      amount + fee
    }
  }

  datatype DB = DB(
    wallets: map<Uuid, Wallet>,
    txs: seq<Transaction>,
    ledger: seq<LedgerEntry>,
    requests: seq<Request>)
}
