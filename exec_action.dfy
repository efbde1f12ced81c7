/** An action in the execution view (`ReceiptAction` of the execution
    tree): which arguments it shows, the auto and raw code panes, and the
    Auto/Raw switch that lazily enables the live-node request. */
module ExecAction {
  import opened Wrappers
  import opened Json
  import opened Schema
  import ActionLabel
  import ExecUtils

  /** The arguments the memo block derives from an action. */
  datatype ShownArgs = ShownArgs(
    args: seq<Field>,
    argsBase64: Option<Json>,
    hasArgs: bool,
    methodValue: Option<Json>)

  /** The memo block of lines 35-54: start from the argument record; for a
      function call with arguments, read `method_name`, `args_base64` and
      the `args_json` record, and let the latter decide `hasArgs`. */
  method ExtractArgs(a: ActionReceipt) returns (shown: ShownArgs)
    ensures var rec := ActionLabel.ArgsRecord(a.args);
      if a.action == FunctionCall && rec != [] then
        shown.methodValue == Get(rec, "method_name") &&
        shown.argsBase64 == Get(rec, "args_base64") &&
        shown.args == ActionLabel.ArgsRecord(Get(rec, "args_json").GetOr(JNull)) &&
        shown.hasArgs == (shown.args != [])
      else
        shown.args == rec && shown.methodValue.None? && shown.argsBase64.None? &&
        shown.hasArgs == (rec != [])
  {
    var args := ActionLabel.ArgsRecord(a.args);
    var methodValue: Option<Json> := None;
    var hasArgs := |args| > 0;
    var argsJson: Option<seq<Field>> := None;
    var argsBase64: Option<Json> := None;
    if a.action == FunctionCall {
      if |args| > 0 {
        methodValue := if HasKey(args, "method_name") then Get(args, "method_name") else None;
        argsBase64 := Get(args, "args_base64");
        argsJson := Some(ActionLabel.ArgsRecord(Get(args, "args_json").GetOr(JNull)));
        hasArgs := |argsJson.value| > 0;
      }
    }
    shown := ShownArgs(argsJson.GetOr(args), argsBase64, hasArgs, methodValue);
  }

  /** A method name compared with `===` against string literals: only a
      string can ever be equal. */
  function AsString(v: Option<Json>): (r: Option<string>)
    ensures r.Some? <==> v.Some? && v.value.JStr?
    ensures r.Some? ==> v == Some(JStr(r.value))
  {
    match v
    case Some(JStr(s)) => Some(s)
    case _ => None
  }

  datatype ViewMode = Auto | Raw

  /** `rawArgs ?? (rpcLoading ? 'Loading...' : 'No data')` */
  function RawCode(rawArgs: Option<string>, rpcLoading: bool): (r: string)
    ensures rawArgs.Some? ==> r == rawArgs.value
    ensures rawArgs.None? ==> r == (if rpcLoading then "Loading..." else "No data")
  {
    rawArgs.GetOr(if rpcLoading then "Loading..." else "No data")
  }

  /** What the action body shows: the Aurora argument viewer, a code viewer
      (with or without the Auto/Raw toolbar), or nothing. */
  datatype Body =
    | AuroraArgs(argsBase64: Json)
    | CodeView(code: Json, toolbar: bool)
    | NoBody

  /** `autoCode`: the pretty-printed un-escaped arguments when there are
      any, else `argsBase64` as it is. */
  function AutoCode(parse: Parser, stringify: Stringifier, shown: ShownArgs): (r: Option<Json>)
    requires Shrinking(parse)
    ensures shown.hasArgs ==> r == Some(JStr(stringify(ExecUtils.DeepUnescape(parse, JObj(shown.args)))))
    ensures !shown.hasArgs ==> r == shown.argsBase64
  {
    if shown.hasArgs then Some(JStr(stringify(ExecUtils.DeepUnescape(parse, JObj(shown.args)))))
    else shown.argsBase64
  }

  predicate TruthyOpt(v: Option<Json>) {
    v.Some? && Truthy(v.value)
  }

  /** `displayCode` (line 62): the raw text in raw mode, the auto code otherwise. */
  function DisplayCode(mode: ViewMode, rawArgs: Option<string>, rpcLoading: bool,
                       parse: Parser, stringify: Stringifier, shown: ShownArgs): (r: Option<Json>)
    requires Shrinking(parse)
    ensures mode == Raw ==> r == Some(JStr(RawCode(rawArgs, rpcLoading)))
    ensures mode == Auto ==> r == AutoCode(parse, stringify, shown)
  {
    if mode == Raw then Some(JStr(RawCode(rawArgs, rpcLoading))) else AutoCode(parse, stringify, shown)
  }

  /** The body of lines 82-113: the Aurora viewer for an Aurora call with
      truthy `argsBase64`; otherwise a code viewer exactly when the display
      code is truthy, holding that code; otherwise nothing. */
  function ActionBody(shown: ShownArgs, receiver: string, mode: ViewMode,
                      rawArgs: Option<string>, rpcLoading: bool,
                      parse: Parser, stringify: Stringifier): (b: Body)
    requires Shrinking(parse)
    ensures b.AuroraArgs? <==>
      ExecUtils.IsAuroraAction(AsString(shown.methodValue), receiver) && TruthyOpt(shown.argsBase64)
    ensures b.AuroraArgs? ==> Some(b.argsBase64) == shown.argsBase64
    ensures b.CodeView? <==> !b.AuroraArgs? && TruthyOpt(DisplayCode(mode, rawArgs, rpcLoading, parse, stringify, shown))
    ensures b.CodeView? ==> Some(b.code) == DisplayCode(mode, rawArgs, rpcLoading, parse, stringify, shown) &&
                            b.toolbar == TruthyOpt(shown.methodValue)
  {
    var isAurora := ExecUtils.IsAuroraAction(AsString(shown.methodValue), receiver);
    var displayCode := DisplayCode(mode, rawArgs, rpcLoading, parse, stringify, shown);
    if isAurora && TruthyOpt(shown.argsBase64) then AuroraArgs(shown.argsBase64.value)
    else if TruthyOpt(displayCode) then CodeView(displayCode.value, TruthyOpt(shown.methodValue))
    else NoBody
  }

  /** In raw mode a code viewer is shown unless the Aurora viewer takes its
      place, provided the raw text is not empty: when no raw args were found
      it is "Loading..." or "No data". */
  lemma RawModeShowsCode(shown: ShownArgs, receiver: string, rawArgs: Option<string>, rpcLoading: bool,
                         parse: Parser, stringify: Stringifier)
    requires Shrinking(parse)
    requires rawArgs.None? || rawArgs.value != ""
    ensures var b := ActionBody(shown, receiver, Raw, rawArgs, rpcLoading, parse, stringify);
            b.AuroraArgs? || b == CodeView(JStr(RawCode(rawArgs, rpcLoading)), TruthyOpt(shown.methodValue))
  {
  }

  /** In auto mode an action with arguments shows their pretty-printed
      un-escaped form in a code viewer, unless the Aurora viewer takes its
      place; without arguments, `argsBase64` is shown when truthy and
      nothing otherwise. */
  lemma AutoModeShowsCode(shown: ShownArgs, receiver: string, rawArgs: Option<string>, rpcLoading: bool,
                          parse: Parser, stringify: Stringifier)
    requires Shrinking(parse) && NeverEmpty(stringify)
    ensures var b := ActionBody(shown, receiver, Auto, rawArgs, rpcLoading, parse, stringify);
            var code := JStr(stringify(ExecUtils.DeepUnescape(parse, JObj(shown.args))));
            (shown.hasArgs ==> b.AuroraArgs? || b == CodeView(code, TruthyOpt(shown.methodValue))) &&
            (!shown.hasArgs ==> (b.NoBody? <==> !TruthyOpt(shown.argsBase64)))
  {
  }

  /** The live-node context: the fetched response, whether it is loading,
      and how many times the fetch has been enabled. */
  class RpcContext {
    var rpcData: Option<ExecUtils.RpcData>
    var rpcLoading: bool
    var enableRequests: nat

    constructor(data: Option<ExecUtils.RpcData>, loading: bool)
      ensures rpcData == data && rpcLoading == loading && enableRequests == 0
    {
      rpcData := data;
      rpcLoading := loading;
      enableRequests := 0;
    }

    /** `enableRpc()`: asks the context to start the fetch. */
    method EnableRpc()
      modifies this
      ensures enableRequests == old(enableRequests) + 1
      ensures rpcData == old(rpcData) && rpcLoading == old(rpcLoading)
    {
      enableRequests := enableRequests + 1;
    }
  }

  /** The component's `viewMode` state. */
  class ArgsViewState {
    var viewMode: ViewMode

    constructor()
      ensures viewMode == Auto
    {
      viewMode := Auto;
    }

    /** The Auto button: switches back and never fetches. */
    method OnAutoClick()
      modifies this
      ensures viewMode == Auto
    {
      viewMode := Auto;
    }

    /** `onRawClick`: switch to raw, and enable the fetch only when no
        response is there yet. */
    method OnRawClick(ctx: RpcContext)
      modifies this, ctx
      ensures viewMode == Raw
      ensures ctx.enableRequests == old(ctx.enableRequests) + (if old(ctx.rpcData).None? then 1 else 0)
      ensures ctx.rpcData == old(ctx.rpcData) && ctx.rpcLoading == old(ctx.rpcLoading)
    {
      viewMode := Raw;
      if ctx.rpcData.None? {
        ctx.EnableRpc();
      }
    }
  }
}
