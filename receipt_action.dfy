/** An action in the receipt summary (`ReceiptAction` of receipt-action.tsx):
    whether it has arguments, its method name, the Aurora explorer, and the
    raw-argument lookup. The lookup as written indexes the RPC receipt's
    action list by the method name; the lookup the view evidently intends
    uses the action's position, which the receipt block's `actions.map`
    has at hand, as the sibling execution/action.tsx does. `ReceiptBody`
    takes the lookup's result, so both are stated about the same view. */
module ReceiptActionView {
  import opened Wrappers
  import opened Json
  import opened Schema
  import ExecUtils
  import ExecAction

  /** `hasArgs`: a non-null object (array or record) with at least one key;
      `Object.keys` of an array lists its indices. */
  function HasArgs(args: Json): (b: bool)
    ensures !IsObjectLike(args) ==> !b
    ensures args.JObj? ==> (b <==> Keys(args.fields) != [])
    ensures args.JArr? ==> (b <==> args.items != [])
    ensures b ==> Truthy(args)
  {
    (args.JArr? && |args.items| > 0) || (args.JObj? && |args.fields| > 0)
  }

  /** `methodName`: `args.method_name` of a function call whose arguments
      object has that key. */
  function MethodName(a: ActionReceipt): (r: Option<Json>)
    ensures r.Some? <==> a.action == FunctionCall && a.args.JObj? && HasKey(a.args.fields, "method_name")
    ensures r.Some? ==> r == Get(a.args.fields, "method_name")
  {
    if a.action == FunctionCall && a.args.JObj? && HasKey(a.args.fields, "method_name") then
      Get(a.args.fields, "method_name")
    else None
  }

  /** `isAuroraAction(methodName, receiver)`: a function call to "aurora"
      whose `method_name` is the string of one of the three Aurora methods. */
  function IsAurora(a: ActionReceipt, receiver: string): (b: bool)
    ensures b <==> receiver == "aurora" && a.action == FunctionCall &&
                   MethodName(a).Some? && MethodName(a).value.JStr? &&
                   MethodName(a).value.s in ["submit", "submit_with_args", "rlp_execute"]
  {
    ExecUtils.IsAuroraAction(ExecAction.AsString(MethodName(a)), receiver)
  }

  /** `argsBase64`: `args.args_base64 ?? null`, read only for Aurora actions. */
  function ArgsBase64(a: ActionReceipt, receiver: string): (r: Option<Json>)
    ensures !IsAurora(a, receiver) ==> r.None?
    ensures r.Some? ==> a.args.JObj? && Get(a.args.fields, "args_base64") == r && r != Some(JNull)
  {
    if !IsAurora(a, receiver) then None
    else
      match Get(a.args.fields, "args_base64")
      case None => None
      case Some(JNull) => None
      case Some(v) => Some(v)
  }

  /** The Aurora explorer for the configured network. */
  function AuroraExplorerUrl(networkId: string): (url: string)
    ensures networkId == "mainnet" ==> url == "https://explorer.mainnet.aurora.dev"
    ensures networkId != "mainnet" ==> url == "https://explorer.testnet.aurora.dev"
  {
    if networkId == "mainnet" then "https://explorer.mainnet.aurora.dev" else "https://explorer.testnet.aurora.dev"
  }

  // ---------------------------------------------------------------------
  // The raw-argument lookup

  /** The array index a property key denotes: a canonical decimal ("0", or
      digits without a leading zero). */
  function CanonicalIndex(key: string): (r: Option<nat>)
    ensures r.Some? ==> |key| > 0 && (key[0] == '0' ==> key == "0")
  {
    if key == "0" then Some(0)
    else if |key| > 0 && '1' <= key[0] <= '9' && forall i :: 0 <= i < |key| ==> '0' <= key[i] <= '9' then
      Some(DigitsValue(key))
    else None
  }

  function DigitsValue(digits: string): nat
    requires forall i :: 0 <= i < |digits| ==> '0' <= digits[i] <= '9'
  {
    if digits == [] then 0
    else DigitsValue(digits[..|digits| - 1]) * 10 + (digits[|digits| - 1] as int - '0' as int)
  }

  /** `actions?.[key]` with the method name as the key: the key is coerced
      with `String()`, so a value reaches an element only when its string is
      an array index (a non-negative number, or text such as "1" or `["1"]`);
      `undefined` reads the property "undefined". */
  function IndexForKey(key: Option<Json>): Option<nat> {
    match key
    case None => None
    case Some(JNum(n)) => if n >= 0 then Some(n) else None
    case Some(v) => CanonicalIndex(ToJsString(v))
  }

  /** How keys of each kind are coerced: strings, arrays and numbers that
      print as an index reach an element; other strings, booleans, `null`,
      records and negative numbers do not. */
  lemma KeyCoercion()
    ensures IndexForKey(Some(JStr("1"))) == Some(1)
    ensures IndexForKey(Some(JStr("01"))).None? && IndexForKey(Some(JStr("ft_transfer"))).None?
    ensures IndexForKey(Some(JNum(2))) == Some(2) && IndexForKey(Some(JNum(-1))).None?
    ensures IndexForKey(Some(JArr([JStr("0")]))) == Some(0)
    ensures IndexForKey(Some(JArr([JNum(1)]))) == Some(1)
    ensures IndexForKey(Some(JBool(true))).None? && IndexForKey(Some(JNull)).None?
    ensures IndexForKey(Some(JObj([]))).None? && IndexForKey(None).None?
    ensures LengthKey(Some(JStr("length"))) && LengthKey(Some(JArr([JStr("length")])))
    ensures !LengthKey(Some(JStr("ft_transfer"))) && !LengthKey(None)
  {
    assert CanonicalIndex("ft_transfer").None?;
    assert ToJsString(JArr([JNum(1)])) == "1";
  }

  /** `actionReceipt?.actions`: the action list of the first receipt with
      the id, when that receipt has an `Action` variant. */
  function ActionsOf(rpc: Option<ExecUtils.RpcData>, receiptId: string): Option<seq<ExecUtils.RpcAction>> {
    if rpc.None? || rpc.value.receipts.None? then None
    else
      match ExecUtils.FindReceipt(rpc.value.receipts.value, receiptId)
      case None => None
      case Some(receipt) =>
        if receipt.receipt.None? || receipt.receipt.value.action.None? then None
        else receipt.receipt.value.action.value.actions
  }

  /** A key that reads an array's `length`, the number of actions: a
      value other than a number (whose text is digits) printing "length". */
  predicate LengthKey(key: Option<Json>) {
    key.Some? && !key.value.JNum? && ToJsString(key.value) == "length"
  }

  /** What `findRawArgs` does: return a value, or throw. */
  datatype Lookup = Returned(args: Option<string>) | Throws

  /** Line 60 as written: `findRawArgs(rpcData, receiptId, methodName)`.
      A key that prints as an index reads that action; "length" reads the
      number of actions, and a non-zero number reaches `'FunctionCall' in`,
      which throws a TypeError; any other key reads a missing property, a
      function or the prototype, and the lookup gives null. */
  function RawArgsAsWritten(rpc: Option<ExecUtils.RpcData>, receiptId: string, methodName: Option<Json>): (r: Lookup)
    ensures r.Throws? <==> LengthKey(methodName) && ActionsOf(rpc, receiptId).Some? && |ActionsOf(rpc, receiptId).value| > 0
    ensures IndexForKey(methodName).None? && !LengthKey(methodName) ==> r == Returned(None)
    ensures IndexForKey(methodName).Some? ==> r == Returned(ExecUtils.FindRawArgs(rpc, receiptId, IndexForKey(methodName).value))
  {
    if LengthKey(methodName) then
      var actions := ActionsOf(rpc, receiptId);
      assert CanonicalIndex("length").None?;
      if actions.Some? && |actions.value| > 0 then Throws else Returned(None)
    else
      match IndexForKey(methodName)
      case None => Returned(None)
      case Some(i) => Returned(ExecUtils.FindRawArgs(rpc, receiptId, i))
  }

  /** The RPC response holding one receipt "r1" whose actions call
      `ft_transfer` with the given raw arguments, in order. */
  function TransferCalls(args: seq<string>): (rpc: Option<ExecUtils.RpcData>)
    ensures rpc.Some? && rpc.value.receipts.Some? && |rpc.value.receipts.value| == 1
  {
    var calls := seq(|args|, i requires 0 <= i < |args| =>
                       ExecUtils.ActionRecord(Some(ExecUtils.RpcFunctionCall(Some(args[i]), Some("ft_transfer")))));
    var receipt := ExecUtils.RpcReceipt(Some("r1"), Some(ExecUtils.RpcReceiptBody(
                     Some(ExecUtils.RpcActionReceipt(Some(calls))))));
    Some(ExecUtils.RpcData(Some([receipt])))
  }

  /** A receipt whose only action is a call of `ft_transfer` with raw
      arguments "e30=": the lookup as written finds nothing, though the
      lookup by the action's index finds the arguments. */
  lemma RawArgsAsWrittenMisses()
    ensures RawArgsAsWritten(TransferCalls(["e30="]), "r1", Some(JStr("ft_transfer"))) == Returned(None)
    ensures ExecUtils.FindRawArgs(TransferCalls(["e30="]), "r1", 0) == Some("e30=")
  {
    assert CanonicalIndex("ft_transfer").None?;
    var rpc := TransferCalls(["e30="]);
    assert ExecUtils.FindReceipt(rpc.value.receipts.value, "r1") == Some(rpc.value.receipts.value[0]);
  }

  /** Two calls of the same method: the index lookup tells them apart, so
      the second action's raw view shows its own arguments. */
  lemma RepeatedMethodByIndex()
    ensures ExecUtils.FindRawArgs(TransferCalls(["A", "B"]), "r1", 0) == Some("A")
    ensures ExecUtils.FindRawArgs(TransferCalls(["A", "B"]), "r1", 1) == Some("B")
  {
    var rpc := TransferCalls(["A", "B"]);
    assert ExecUtils.FindReceipt(rpc.value.receipts.value, "r1") == Some(rpc.value.receipts.value[0]);
  }

  // ---------------------------------------------------------------------
  // The view

  /** `autoCode`: the pretty-printed un-escaped arguments, or "" without any. */
  function AutoCode(parse: Parser, stringify: Stringifier, a: ActionReceipt): (r: string)
    requires Shrinking(parse)
    ensures !HasArgs(a.args) ==> r == ""
    ensures HasArgs(a.args) ==> r == stringify(ExecUtils.DeepUnescape(parse, a.args))
  {
    if HasArgs(a.args) then stringify(ExecUtils.DeepUnescape(parse, a.args)) else ""
  }

  datatype Body =
    | AuroraArgs(explorerUrl: string, argsBase64: Json, rlpHash: Option<string>)
    | CodeView(code: string)
    | NoBody

  /** The body of lines 78-111, given `rawArgs`, the result of line 60's
      lookup: the Aurora viewer for an Aurora action with a truthy
      `args_base64`, otherwise a code viewer exactly when the action has
      arguments, showing the raw or the auto code by mode. */
  function ReceiptBody(a: ActionReceipt, rawArgs: Option<string>, receiver: string, networkId: string,
                       mode: ExecAction.ViewMode, rpcLoading: bool,
                       parse: Parser, stringify: Stringifier): (b: Body)
    requires Shrinking(parse)
    ensures b.AuroraArgs? <==> IsAurora(a, receiver) && ExecAction.TruthyOpt(ArgsBase64(a, receiver))
    ensures b.AuroraArgs? ==> b.explorerUrl == AuroraExplorerUrl(networkId) && b.rlpHash == a.rlpHash
    ensures b.CodeView? <==> !b.AuroraArgs? && HasArgs(a.args)
    ensures b.CodeView? && mode == ExecAction.Raw ==> b.code == ExecAction.RawCode(rawArgs, rpcLoading)
    ensures b.CodeView? && mode == ExecAction.Auto ==> b.code == AutoCode(parse, stringify, a)
  {
    var argsBase64 := ArgsBase64(a, receiver);
    if IsAurora(a, receiver) && ExecAction.TruthyOpt(argsBase64) then
      AuroraArgs(AuroraExplorerUrl(networkId), argsBase64.value, a.rlpHash)
    else if HasArgs(a.args) then
      CodeView(if mode == ExecAction.Raw then ExecAction.RawCode(rawArgs, rpcLoading) else AutoCode(parse, stringify, a))
    else NoBody
  }

  /** What rendering produces: a body, or the exception a throwing lookup
      propagates out of the component. */
  datatype Render = Rendered(body: Body) | RenderThrows

  /** The component as written: line 60 runs on every render, whatever the
      view mode, so a throwing lookup makes the render throw; otherwise the
      body is built from the lookup's value. */
  function ReceiptViewAsWritten(a: ActionReceipt, receiptId: string, receiver: string, networkId: string,
                                mode: ExecAction.ViewMode, rpc: Option<ExecUtils.RpcData>, rpcLoading: bool,
                                parse: Parser, stringify: Stringifier): (v: Render)
    requires Shrinking(parse)
    ensures v.RenderThrows? <==> RawArgsAsWritten(rpc, receiptId, MethodName(a)).Throws?
    ensures v.Rendered? ==> v.body == ReceiptBody(a, RawArgsAsWritten(rpc, receiptId, MethodName(a)).args,
                                                  receiver, networkId, mode, rpcLoading, parse, stringify)
  {
    match RawArgsAsWritten(rpc, receiptId, MethodName(a))
    case Throws => RenderThrows
    case Returned(rawArgs) => Rendered(ReceiptBody(a, rawArgs, receiver, networkId, mode, rpcLoading, parse, stringify))
  }

  /** As written, a call whose method name is not written like an array
      index never shows arguments in raw mode: only "Loading..." or
      "No data"; and the render throws, in either mode, exactly when the
      name reads `length` of a non-empty action list. */
  lemma AsWrittenRawViewEmpty(a: ActionReceipt, receiptId: string, receiver: string, networkId: string,
                              mode: ExecAction.ViewMode, rpc: Option<ExecUtils.RpcData>, rpcLoading: bool,
                              parse: Parser, stringify: Stringifier)
    requires Shrinking(parse)
    requires IndexForKey(MethodName(a)).None?
    ensures var v := ReceiptViewAsWritten(a, receiptId, receiver, networkId, mode, rpc, rpcLoading, parse, stringify);
            (v.RenderThrows? <==> LengthKey(MethodName(a)) && ActionsOf(rpc, receiptId).Some? &&
                                  |ActionsOf(rpc, receiptId).value| > 0) &&
            (v.Rendered? && v.body.CodeView? && mode == ExecAction.Raw ==>
               v.body.code == (if rpcLoading then "Loading..." else "No data"))
  {
  }

  /** With the lookup by the action's position `i`, the raw view of an
      action shows the raw arguments of the FunctionCall at that position of
      the RPC receipt, when it has any. */
  lemma RawViewAt(a: ActionReceipt, i: nat, receiptId: string, receiver: string, networkId: string,
                  rpc: Option<ExecUtils.RpcData>, rpcLoading: bool, parse: Parser, stringify: Stringifier,
                  fc: ExecUtils.RpcFunctionCall)
    requires Shrinking(parse)
    requires ExecUtils.Locates(rpc, receiptId, i, fc) && fc.args.Some?
    ensures var b := ReceiptBody(a, ExecUtils.FindRawArgs(rpc, receiptId, i), receiver, networkId,
                                 ExecAction.Raw, rpcLoading, parse, stringify);
            b.CodeView? ==> b.code == fc.args.value
  {
  }

  /** A non-Aurora call of `ft_transfer` as the API lists it. */
  function TransferAction(): (a: ActionReceipt)
    ensures MethodName(a) == Some(JStr("ft_transfer")) && HasArgs(a.args)
  {
    var a := ActionReceipt(FunctionCall, JObj([Field("method_name", JStr("ft_transfer"))]), Some("ft_transfer"), None);
    assert a.args.fields[0].key == "method_name";
    a
  }

  /** The counterexample as the reader sees it: that call with raw
      arguments "e30=", in raw mode once the RPC data has loaded. As written
      it shows "No data"; by index it shows "e30=". */
  lemma RawViewMisses(parse: Parser, stringify: Stringifier)
    requires Shrinking(parse)
    ensures ReceiptViewAsWritten(TransferAction(), "r1", "token.near", "mainnet", ExecAction.Raw,
                                 TransferCalls(["e30="]), false, parse, stringify) == Rendered(CodeView("No data"))
    ensures ReceiptBody(TransferAction(), ExecUtils.FindRawArgs(TransferCalls(["e30="]), "r1", 0),
                        "token.near", "mainnet", ExecAction.Raw, false, parse, stringify) == CodeView("e30=")
  {
    var a := TransferAction();
    RawArgsAsWrittenMisses();
    assert !IsAurora(a, "token.near");
  }

  /** A call of a method named "length", as the API lists it. */
  function LengthAction(): (a: ActionReceipt)
    ensures MethodName(a) == Some(JStr("length")) && HasArgs(a.args)
  {
    var a := ActionReceipt(FunctionCall, JObj([Field("method_name", JStr("length"))]), Some("length"), None);
    assert a.args.fields[0].key == "method_name";
    a
  }

  /** The lookup as written with the key "length": it throws on a receipt
      with actions and gives null on one without. */
  lemma LengthLookup()
    ensures RawArgsAsWritten(TransferCalls(["e30="]), "r1", Some(JStr("length"))) == Throws
    ensures RawArgsAsWritten(TransferCalls([]), "r1", Some(JStr("length"))) == Returned(None)
  {
    var full := TransferCalls(["e30="]);
    var empty := TransferCalls([]);
    assert ExecUtils.FindReceipt(full.value.receipts.value, "r1") == Some(full.value.receipts.value[0]);
    assert ExecUtils.FindReceipt(empty.value.receipts.value, "r1") == Some(empty.value.receipts.value[0]);
  }

  /** That call once the RPC data has loaded: with a non-empty action list
      the render throws in either mode; with no actions it renders, and the
      raw view shows "No data". */
  lemma LengthMethodThrows(parse: Parser, stringify: Stringifier, mode: ExecAction.ViewMode)
    requires Shrinking(parse)
    ensures ReceiptViewAsWritten(LengthAction(), "r1", "token.near", "mainnet", mode, TransferCalls(["e30="]),
                                 false, parse, stringify) == RenderThrows
    ensures ReceiptViewAsWritten(LengthAction(), "r1", "token.near", "mainnet", ExecAction.Raw, TransferCalls([]),
                                 false, parse, stringify) == Rendered(CodeView("No data"))
  {
    LengthLookup();
    assert !IsAurora(LengthAction(), "token.near");
  }
}
