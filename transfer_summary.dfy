/** The one-line summary of a token transfer (transfers/transfer.tsx). */
module TransferSummary {
  import opened Wrappers

  datatype TransferKind = Mint | Burn | Transfer

  /** Lines 23-25: the event cause decides the kind. */
  function KindOf(cause: string): (k: TransferKind)
    ensures k == Mint <==> cause == "MINT"
    ensures k == Burn <==> cause == "BURN"
    ensures k == Transfer <==> cause != "MINT" && cause != "BURN"
  {
    if cause == "MINT" then Mint else if cause == "BURN" then Burn else Transfer
  }

  datatype IconGlyph = Pickaxe | Flame | Send

  /** `TransferIcon` (lines 55-70): the glyph and its caption. */
  function TransferIcon(k: TransferKind): (r: (IconGlyph, string))
    ensures r.1 == (match k case Mint => "Mint" case Burn => "Burn" case Transfer => "Transfer")
    ensures r.0 == Pickaxe <==> k == Mint
    ensures r.0 == Flame <==> k == Burn
  {
    match k
    case Mint => (Pickaxe, "Mint")
    case Burn => (Flame, "Burn")
    case Transfer => (Send, "Transfer")
  }

  /** A labelled account link; `null` when the account is unknown. */
  datatype PartyLink = PartyLink(caption: string, account: Option<string>)

  /** The account links after the amount (lines 31-50): the affected account
      "For" a mint or "From" a burn; for a transfer the involved account
      "From" and the affected one "To". */
  function Parties(affected: string, cause: string, involved: Option<string>): (r: seq<PartyLink>)
    ensures KindOf(cause) != Transfer ==> |r| == 1 && r[0].account == Some(affected)
    ensures KindOf(cause) == Mint ==> r[0].caption == "For"
    ensures KindOf(cause) == Burn ==> r[0].caption == "From"
    ensures KindOf(cause) == Transfer ==> r == [PartyLink("From", involved), PartyLink("To", Some(affected))]
  {
    match KindOf(cause)
    case Mint => [PartyLink("For", Some(affected))]
    case Burn => [PartyLink("From", Some(affected))]
    case Transfer => [PartyLink("From", involved), PartyLink("To", Some(affected))]
  }

  /** The affected account is always linked, and always last. */
  lemma AffectedLinkedLast(affected: string, cause: string, involved: Option<string>)
    ensures var r := Parties(affected, cause, involved);
            |r| > 0 && r[|r| - 1].account == Some(affected)
  {
  }
}
