/** The one-line description of an action (`Action` in the actions list):
    a verb, the values shown with it, and the counterparties named when the
    full form is requested. */
module ActionLabel {
  import opened Wrappers
  import opened Json
  import opened Schema

  /** `argsRecord(args)`: the arguments when they are a record, else `{}`. */
  function ArgsRecord(args: Json): (r: seq<Field>)
    ensures args.JObj? ==> r == args.fields
    ensures !args.JObj? ==> r == []
  {
    if args.JObj? then args.fields else []
  }

  /** A counterparty: a role word ("From", "To", "By", "On", "For", or none)
      and the account linked after it. */
  datatype Party = Party(role: string, account: string)

  /** The public key shown by key actions and the keys page it links to. */
  datatype KeyLink = KeyLink(text: string, href: string)

  datatype Label =
    | Phrase(verb: string, methodBadge: Option<string>, amount: Option<string>,
             key: Option<KeyLink>, parties: seq<Party>)
    | RawKind(kind: ActionKind)

  /** The kinds with a phrase of their own; any other kind prints its tag. */
  predicate Described(k: ActionKind) {
    !(k.Unknown? || k.Unlisted?)
  }

  predicate IsGlobalContractKind(k: ActionKind) {
    k == DeployGlobalContract || k == DeployGlobalContractByAccountId ||
    k == UseGlobalContract || k == UseGlobalContractByAccountId
  }

  /** `String(args[key] ?? fallback)` */
  function ArgOr(args: seq<Field>, key: string, fallback: string): (r: string)
    ensures Get(args, key).None? || Get(args, key) == Some(JNull) ==> r == fallback
    ensures Get(args, key).Some? && Get(args, key) != Some(JNull) ==> r == ToJsString(Get(args, key).value)
  {
    match Get(args, key)
    case None => fallback
    case Some(JNull) => fallback
    case Some(v) => ToJsString(v)
  }

  /** `Action({action, full, receiver, signer})` */
  function Describe(a: ActionReceipt, full: bool, receiver: string, signer: string): (r: Label)
    ensures r.RawKind? <==> !Described(a.action)
    ensures r.RawKind? ==> r.kind == a.action
    ensures r.Phrase? && !full ==> r.parties == []
    ensures r.Phrase? && full ==> |r.parties| > 0 && forall p :: p in r.parties ==> p.account in {receiver, signer}
  {
    var args := ArgsRecord(a.args);
    var parties := (ps: seq<Party>) => if full then ps else [];
    match a.action
    case FunctionCall =>
      var m := if a.methodName.None? || a.methodName.value == "" then "method" else a.methodName.value;
      Phrase("Call", Some(m), None, None, parties([Party("By", signer), Party("On", receiver)]))
    case Transfer =>
      Phrase("Transfer", None, Some(ArgOr(args, "deposit", "0")), None,
             parties([Party("From", receiver), Party("To", signer)]))
    case Stake =>
      Phrase("Stake", None, Some(ArgOr(args, "stake", "0")), None,
             parties([Party("To", receiver), Party("By", signer)]))
    case DeployContract =>
      Phrase("Deploy Contract", None, None, None, parties([Party("To", receiver)]))
    case DeployGlobalContract =>
      Phrase("Deploy Global Contract", None, None, None, parties([Party("To", receiver)]))
    case DeployGlobalContractByAccountId =>
      Phrase("Deploy Global Contract", None, None, None, parties([Party("To", receiver)]))
    case UseGlobalContract =>
      Phrase("Deploy Global Contract", None, None, None, parties([Party("To", receiver)]))
    case UseGlobalContractByAccountId =>
      Phrase("Deploy Global Contract", None, None, None, parties([Party("To", receiver)]))
    case CreateAccount =>
      Phrase("Create Account", None, None, None, parties([Party("", receiver)]))
    case DeterministicStateInit =>
      Phrase("Create Deterministic Account", None, None, None, parties([Party("", receiver)]))
    case DeleteAccount =>
      Phrase("Delete Account", None, None, None, parties([Party("", receiver)]))
    case DelegateAction =>
      Phrase("Delegate", None, None, None, parties([Party("For", receiver)]))
    case AddKey =>
      Phrase("New Key", None, None, Some(KeyLink(ArgOr(args, "public_key", ""), "/address/" + receiver + "/keys")),
             parties([Party("For", receiver)]))
    case DeleteKey =>
      Phrase("Delete Key", None, None, Some(KeyLink(ArgOr(args, "public_key", ""), "/address/" + receiver + "/keys")),
             parties([Party("From", receiver)]))
    case _ => RawKind(a.action)
  }

  /** A function call shows its method name, or "method" when the name is
      null or empty. */
  lemma CallShowsMethod(a: ActionReceipt, full: bool, receiver: string, signer: string)
    requires a.action == FunctionCall
    ensures Describe(a, full, receiver, signer).verb == "Call"
    ensures Describe(a, full, receiver, signer).methodBadge ==
            Some(if a.methodName.Some? && a.methodName.value != "" then a.methodName.value else "method")
  {
  }

  /** A transfer's amount is `args.deposit`, "0" when it is missing or null;
      the full form reads From receiver To signer. A stake's amount is
      `args.stake` with the same default. */
  lemma AmountsDefaultToZero(a: ActionReceipt, receiver: string, signer: string)
    requires a.action == Transfer || a.action == Stake
    ensures var key := if a.action == Transfer then "deposit" else "stake";
            var v := Get(ArgsRecord(a.args), key);
            Describe(a, true, receiver, signer).amount ==
              Some(if v.None? || v == Some(JNull) then "0" else ToJsString(v.value))
    ensures a.action == Transfer ==>
            Describe(a, true, receiver, signer).parties == [Party("From", receiver), Party("To", signer)]
  {
  }

  /** The four global-contract kinds render the same phrase. */
  lemma GlobalKindsAlike(a: ActionReceipt, b: ActionReceipt, full: bool, receiver: string, signer: string)
    requires IsGlobalContractKind(a.action) && IsGlobalContractKind(b.action)
    ensures Describe(a, full, receiver, signer) == Describe(b, full, receiver, signer)
    ensures Describe(a, full, receiver, signer).verb == "Deploy Global Contract"
  {
  }

  /** Key actions show `args.public_key`, or "" when it is missing or null. */
  lemma KeyActionsShowPublicKey(a: ActionReceipt, full: bool, receiver: string, signer: string)
    requires a.action == AddKey || a.action == DeleteKey
    ensures var v := Get(ArgsRecord(a.args), "public_key");
            Describe(a, full, receiver, signer).key.Some? &&
            Describe(a, full, receiver, signer).key.value.text ==
              (if v.None? || v == Some(JNull) then "" else ToJsString(v.value))
  {
  }
}
