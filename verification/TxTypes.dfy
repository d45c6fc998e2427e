/** The registry of transaction types and the directions in which they move money. */
module TxTypes {
  import opened Prelude
  import opened Decimals

  /** Type codes as stored; the first ten are registered, the ledger knows the next five as well. */
  datatype Code =
    | Deposit | Withdrawal | Buy | Sell | TransferIn | TransferOut | Fee | Income | Loss | Interest
    | Withdraw | Expense | Dividend | Tax | Adjustment
    | Other(text: string)

  datatype Direction = In | Out

  /** `balance` is for the asset itself, `linked` for the funding account, `stat` for statistics. */
  datatype TxType = TxType(code: Code, balance: Direction, linked: Direction, stat: Direction)

  const TX_TYPES: seq<TxType> := [
    TxType(Deposit, In, Out, In),
    TxType(Withdrawal, Out, In, Out),
    TxType(Buy, In, Out, Out),
    TxType(Sell, Out, In, In),
    TxType(TransferIn, In, Out, In),
    TxType(TransferOut, Out, In, Out),
    TxType(Fee, Out, Out, Out),
    TxType(Income, In, In, In),
    TxType(Loss, Out, Out, Out),
    TxType(Interest, In, Out, In)
  ]

  /** The entry with the given code. */
  function Lookup(code: Code): Option<TxType> {
    match code
    case Deposit => Some(TX_TYPES[0])
    case Withdrawal => Some(TX_TYPES[1])
    case Buy => Some(TX_TYPES[2])
    case Sell => Some(TX_TYPES[3])
    case TransferIn => Some(TX_TYPES[4])
    case TransferOut => Some(TX_TYPES[5])
    case Fee => Some(TX_TYPES[6])
    case Income => Some(TX_TYPES[7])
    case Loss => Some(TX_TYPES[8])
    case Interest => Some(TX_TYPES[9])
    case _ => None
  }

  /** `tx_type_lookup`: a scan of the table; which types are registered, and which way each moves money. */
  method FindType(code: Code) returns (t: Option<TxType>)
    ensures t == Lookup(code)
    ensures t.None? <==>
              code.Withdraw? || code.Expense? || code.Dividend? || code.Tax? || code.Adjustment? || code.Other?
    ensures t.Some? ==>
              && t.value.code == code
              && (t.value.balance == In <==> code in {Deposit, Buy, TransferIn, Income, Interest})
              && (t.value.linked == In <==> code in {Withdrawal, Sell, TransferOut, Income})
              && (t.value.stat == In <==> code in {Deposit, Sell, TransferIn, Income, Interest})
  {
    for i := 0 to |TX_TYPES|
      invariant forall j :: 0 <= j < i ==> TX_TYPES[j].code != code
    {
      if TX_TYPES[i].code == code {
        return Some(TX_TYPES[i]);
      }
    }
    t := None;
  }

  function Along(d: Direction, amount: int): int { if d == In then amount else -amount }

  /** `tx_delta_m`: what a transaction adds to its main asset. */
  function TxDelta(code: Code, amount: int): int {
    match Lookup(code)
    case Some(t) => Along(t.balance, amount)
    case None => 0
  }

  /** `tx_effective_ldelta_m`: what it adds to the linked account. */
  function LinkedDelta(code: Code, amount: int, mainDelta: int): int {
    if code == TransferIn || code == TransferOut then -mainDelta
    else
      match Lookup(code)
      case Some(t) => Along(t.linked, amount)
      case None => 0
  }

  /** Both sides together, in favour of the owner. */
  function PairSum(code: Code, amount: int): int {
    TxDelta(code, amount) + LinkedDelta(code, amount, TxDelta(code, amount))
  }

  predicate IsFlow(code: Code) { code == Fee || code == Income || code == Loss }

  /** A posted pair moves money without creating any exactly for the types that are not flows. */
  lemma {:induction false} PairCancels(code: Code, amount: int)
    ensures PairSum(code, amount) == 0 <==> !IsFlow(code) || amount == 0
    ensures PairSum(code, amount) == if code == Income then 2 * amount
                                     else if IsFlow(code) then -2 * amount else 0
  {
    if IsFlow(code) {
      assert Lookup(code).value.balance == Lookup(code).value.linked;
    }
  }
}
