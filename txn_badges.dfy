/** The status and direction badges of a transaction row (txn.tsx). */
module TxnBadges {
  import opened Wrappers

  datatype BadgeVariant = Amber | Lime | Red | Blue
  datatype StatusLabel = Pending | Success | Failed
  datatype StatusGlyph = Hourglass | CircleCheck | CircleX

  /** `TxnStatus` (lines 25-42): `null`/`undefined` is pending, `true`
      success, `false` failed. */
  function TxnStatus(status: Option<bool>): (r: (BadgeVariant, StatusLabel))
    ensures r.1 == Pending <==> status.None?
    ensures r.1 == Success <==> status == Some(true)
    ensures r.1 == Failed <==> status == Some(false)
    ensures r.0 == (match r.1 case Pending => Amber case Success => Lime case Failed => Red)
  {
    match status
    case None => (Amber, Pending)
    case Some(true) => (Lime, Success)
    case Some(false) => (Red, Failed)
  }

  /** `TxnStatusIcon` (lines 44-61): the same three-way split, icon only. */
  function TxnStatusIcon(status: Option<bool>): (r: (BadgeVariant, StatusGlyph))
    ensures r.1 == Hourglass <==> status.None?
    ensures r.1 == CircleCheck <==> status == Some(true)
    ensures r.1 == CircleX <==> status == Some(false)
  {
    match status
    case None => (Amber, Hourglass)
    case Some(true) => (Lime, CircleCheck)
    case Some(false) => (Red, CircleX)
  }

  /** The icon and the labelled badge always agree in colour and meaning. */
  lemma StatusAndIconAgree(status: Option<bool>)
    ensures TxnStatusIcon(status).0 == TxnStatus(status).0
    ensures TxnStatusIcon(status).1 == (match TxnStatus(status).1
                                        case Pending => Hourglass
                                        case Success => CircleCheck
                                        case Failed => CircleX)
  {
  }

  datatype Direction = Self | In | Out

  /** The variant each direction badge is drawn with (lines 63-79). */
  function DirectionVariant(d: Direction): BadgeVariant {
    match d
    case Self => Blue
    case In => Lime
    case Out => Red
  }

  /** `Number(s)`, `None` for NaN. */
  type NumberParser = string -> Option<real>

  /** `TxnDirection` (lines 81-93): a non-empty amount decides by its sign
      (NaN compares false both ways, so it reads as OUT); without one,
      equal ends are SELF, and the address being the sender is OUT. */
  function TxnDirection(toNumber: NumberParser, address: Option<string>, amount: Option<string>,
                        from: Option<string>, to: Option<string>): (d: Direction)
    ensures amount.Some? && amount.value != "" ==>
              d == (match toNumber(amount.value)
                    case None => Out
                    case Some(x) => if x == 0.0 then Self else if x > 0.0 then In else Out)
    ensures !(amount.Some? && amount.value != "") ==>
              (d == Self <==> from == to) &&
              (d == Out <==> from != to && address == from)
  {
    if amount.Some? && amount.value != "" then
      match toNumber(amount.value)
      case None => Out
      case Some(x) => if x == 0.0 then Self else if x > 0.0 then In else Out
    else if from == to then Self
    else if address == from then Out
    else In
  }

  /** Without an amount, swapping the two ends of a transfer between two
      different accounts flips IN and OUT for the account on either end. */
  lemma SwapFlipsDirection(toNumber: NumberParser, a: string, b: string)
    requires a != b
    ensures TxnDirection(toNumber, Some(a), None, Some(a), Some(b)) == Out
    ensures TxnDirection(toNumber, Some(a), None, Some(b), Some(a)) == In
  {
  }
}
