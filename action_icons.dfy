/** The badge colours and glyphs of actions and of a transaction's action list. */
module ActionIcons {
  import opened Wrappers
  import opened Schema

  datatype Variant = Lime | Blue | Amber | Purple | Red | Gray

  datatype Glyph =
    | Send | Coins | Terminal | Key | Trash2 | Rocket | Globe
    | UserRoundPlus | UserX | Share2 | Link | Info | Layers

  datatype Badge = Badge(glyph: Glyph, variant: Variant)

  /** `variants(action)` */
  function Variants(k: ActionKind): (v: Variant)
    ensures v == Lime <==> k in {AddKey, CreateAccount, DeterministicStateInit}
    ensures v == Blue <==> k == FunctionCall
    ensures v == Amber <==> k in {Stake, Transfer}
    ensures v == Purple <==> k in {DelegateAction, DeployContract, DeployGlobalContract,
                                   DeployGlobalContractByAccountId, UseGlobalContract,
                                   UseGlobalContractByAccountId}
    ensures v == Red <==> k in {DeleteAccount, DeleteKey}
  {
    match k
    case AddKey => Lime
    case CreateAccount => Lime
    case DeterministicStateInit => Lime
    case FunctionCall => Blue
    case Stake => Amber
    case Transfer => Amber
    case DelegateAction => Purple
    case DeployContract => Purple
    case DeployGlobalContract => Purple
    case DeployGlobalContractByAccountId => Purple
    case UseGlobalContract => Purple
    case UseGlobalContractByAccountId => Purple
    case DeleteAccount => Red
    case DeleteKey => Red
    case _ => Gray
  }

  /** `ActionIcon({type})` */
  function ActionGlyph(k: ActionKind): (g: Glyph)
    ensures g == Globe <==> k in {DeployGlobalContract, DeployGlobalContractByAccountId}
    ensures g == Link <==> k in {UseGlobalContract, UseGlobalContractByAccountId}
    ensures g == Info <==> k in {DeterministicStateInit, Unknown} || k.Unlisted?
    ensures g != Layers
  {
    match k
    case Transfer => Send
    case Stake => Coins
    case FunctionCall => Terminal
    case AddKey => Key
    case DeleteKey => Trash2
    case DeployContract => Rocket
    case DeployGlobalContract => Globe
    case DeployGlobalContractByAccountId => Globe
    case CreateAccount => UserRoundPlus
    case DeleteAccount => UserX
    case DelegateAction => Share2
    case UseGlobalContract => Link
    case UseGlobalContractByAccountId => Link
    case _ => Info
  }

  /** Two kinds share a glyph only when both are deploy-global kinds, both
      use-global kinds, or both fall to the default. */
  lemma GlyphsDistinguishKinds(a: ActionKind, b: ActionKind)
    requires a != b && ActionGlyph(a) == ActionGlyph(b)
    ensures ActionGlyph(a) in {Globe, Link, Info}
  {
  }

  /** `Icon({actions})` */
  function Icon(actions: Option<seq<ActionKind>>): (b: Badge)
    ensures actions.None? || actions.value == [] ==> b == Badge(Info, Gray)
    ensures actions.Some? && |actions.value| == 1 ==>
              b == Badge(ActionGlyph(actions.value[0]), Variants(actions.value[0]))
    ensures actions.Some? && |actions.value| > 1 ==>
              b == if actions.value[0] == DelegateAction then Badge(Share2, Purple) else Badge(Layers, Purple)
  {
    if actions.None? || |actions.value| == 0 then Badge(ActionGlyph(Unknown), Gray)
    else
      var variant := Variants(actions.value[0]);
      if |actions.value| == 1 then Badge(ActionGlyph(actions.value[0]), variant)
      else if actions.value[0] == DelegateAction then Badge(ActionGlyph(DelegateAction), variant)
      else Badge(Layers, Purple)
  }

  /** A list of several actions always gets a purple badge; the Layers glyph
      appears exactly for several actions not led by a delegate action. */
  lemma SeveralActionsArePurple(actions: seq<ActionKind>)
    ensures |actions| > 1 ==> Icon(Some(actions)).variant == Purple
    ensures Icon(Some(actions)).glyph == Layers <==> |actions| > 1 && actions[0] != DelegateAction
  {
  }
}
