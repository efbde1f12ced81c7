/** The Aurora argument viewer of the execution tree (aurora.tsx): the raw
    payload, its RLP decoding by method, and the table or code pane. */
module AuroraView {
  import opened Wrappers
  import opened Json
  import opened Base64
  import ExecUtils
  import Evm

  /** The raw payload: the base64 text itself, or the JSON it decodes to. */
  datatype RawData = RawText(text: string) | RawJson(json: Json)

  /** `rawData` (lines 52-61): the base64 text for the submit methods;
      otherwise `JSON.parse(atob(b64))`, falling back to the text when
      either throws. */
  function RawDataOf(methodName: string, b64: string, parse: Parser): (r: RawData)
    ensures methodName == "submit" || methodName == "submit_with_args" ==> r == RawText(b64)
    ensures !(methodName == "submit" || methodName == "submit_with_args") &&
            ForgivingDecode(b64).Some? && parse(BinaryString(ForgivingDecode(b64).value)).Some? ==>
              r == RawJson(parse(BinaryString(ForgivingDecode(b64).value)).value)
    ensures ForgivingDecode(b64).None? ==> r == RawText(b64)
    ensures ForgivingDecode(b64).Some? && parse(BinaryString(ForgivingDecode(b64).value)).None? ==>
              r == RawText(b64)
  {
    if methodName == "submit" || methodName == "submit_with_args" then RawText(b64)
    else
      match ForgivingDecode(b64)
      case None => RawText(b64)
      case Some(bytes) =>
        match parse(BinaryString(bytes))
        case None => RawText(b64)
        case Some(j) => RawJson(j)
  }

  /** The `rlp_execute` branch of `rlpDecoded`: raw data that is truthy
      and of type "object" is decoded, which only a JSON object can pass. */
  function ObjectDecoded(parser: Evm.EvmParser, raw: RawData): (r: Option<seq<Field>>)
    ensures raw.RawJson? && raw.json.JObj? ==> r == ExecUtils.DecodeRlpExecute(parser, raw.json.fields)
    ensures !(raw.RawJson? && raw.json.JObj?) ==> r.None?
  {
    if raw.RawJson? && Truthy(raw.json) && IsObjectLike(raw.json) then
      match raw.json
      case JObj(fields) => ExecUtils.DecodeRlpExecute(parser, fields)
      case _ => None
    else None
  }

  /** `rlpDecoded` (lines 63-74). */
  function RlpDecoded(parser: Evm.EvmParser, methodName: string, b64: string, raw: RawData): (r: Option<seq<Field>>)
    ensures methodName == "rlp_execute" && raw.RawJson? && raw.json.JObj? ==>
              r == ExecUtils.DecodeRlpExecute(parser, raw.json.fields)
    ensures methodName == "rlp_execute" && !(raw.RawJson? && raw.json.JObj?) ==> r.None?
    ensures ExecUtils.AuroraMethodOf(Some(methodName)).None? ==> r.None?
  {
    if methodName == "submit" then ExecUtils.DecodeSubmit(parser, b64)
    else if methodName == "submit_with_args" then ExecUtils.DecodeSubmitWithArgs(parser, b64)
    else if methodName == "rlp_execute" then ObjectDecoded(parser, raw)
    else None
  }

  /** The two submit methods go to their own decoders, whatever the raw
      data. */
  lemma SubmitKindsDecoded(parser: Evm.EvmParser, methodName: string, b64: string, raw: RawData)
    ensures methodName == "submit" ==> RlpDecoded(parser, methodName, b64, raw) == ExecUtils.DecodeSubmit(parser, b64)
    ensures methodName == "submit_with_args" ==>
              RlpDecoded(parser, methodName, b64, raw) == ExecUtils.DecodeSubmitWithArgs(parser, b64)
  {
    ExecUtils.AuroraMethodNames(methodName);
  }

  /** What the code pane shows: the decoded record or the raw payload. */
  datatype Display = Decoded(fields: seq<Field>) | Undecoded(raw: RawData)

  /** `displayData` (line 76): the decoding in "rlp" format when there is
      one, the raw payload otherwise. */
  function DisplayData(format: ExecUtils.AuroraViewFormat, rlp: Option<seq<Field>>, raw: RawData): (d: Display)
    ensures d.Decoded? <==> format == ExecUtils.Rlp && rlp.Some?
    ensures d.Decoded? ==> d.fields == rlp.value
    ensures d.Undecoded? ==> d.raw == raw
  {
    if format == ExecUtils.Rlp && rlp.Some? then Decoded(rlp.value) else Undecoded(raw)
  }

  function DisplayJson(d: Display): Json {
    match d
    case Decoded(fields) => JObj(fields)
    case Undecoded(RawText(s)) => JStr(s)
    case Undecoded(RawJson(j)) => j
  }

  /** `code` (lines 77-79): the serialised display, "" when it is falsy. */
  function Code(stringify: Stringifier, d: Display): (c: string)
    ensures !Truthy(DisplayJson(d)) ==> c == ""
    ensures Truthy(DisplayJson(d)) ==> c == stringify(DisplayJson(d))
  {
    if Truthy(DisplayJson(d)) then stringify(DisplayJson(d)) else ""
  }

  datatype Pane = TablePane(rows: seq<Field>) | CodePane(code: string) | NoPane

  /** Lines 81-88 and 123-125: the table needs "table" format and a decoding;
      otherwise the code viewer shows when the code is non-empty. */
  function PaneOf(format: ExecUtils.AuroraViewFormat, rlp: Option<seq<Field>>, code: string): (p: Pane)
    ensures p.TablePane? <==> format == ExecUtils.Table && rlp.Some?
    ensures p.TablePane? ==> p.rows == rlp.value
    ensures p.CodePane? <==> !(format == ExecUtils.Table && rlp.Some?) && code != ""
    ensures p.CodePane? ==> p.code == code
  {
    if format == ExecUtils.Table && rlp.Some? then TablePane(rlp.value)
    else if code != "" then CodePane(code)
    else NoPane
  }

  /** The whole pane for a payload. */
  function View(parser: Evm.EvmParser, parse: Parser, stringify: Stringifier,
                format: ExecUtils.AuroraViewFormat, methodName: string, b64: string): Pane
  {
    var raw := RawDataOf(methodName, b64, parse);
    var rlp := RlpDecoded(parser, methodName, b64, raw);
    PaneOf(format, rlp, Code(stringify, DisplayData(format, rlp, raw)))
  }

  /** In the "default" format the decoding is never shown: a non-empty
      submit payload is displayed as its own text. */
  lemma DefaultShowsRaw(parser: Evm.EvmParser, parse: Parser, stringify: Stringifier, methodName: string, b64: string)
    requires NeverEmpty(stringify)
    requires methodName == "submit" || methodName == "submit_with_args"
    requires b64 != ""
    ensures View(parser, parse, stringify, ExecUtils.Default, methodName, b64) == CodePane(stringify(JStr(b64)))
  {
    var raw := RawDataOf(methodName, b64, parse);
    assert raw == RawText(b64);
    var rlp := RlpDecoded(parser, methodName, b64, raw);
    TextShown(stringify, ExecUtils.Default, rlp, b64);
    assert View(parser, parse, stringify, ExecUtils.Default, methodName, b64)
        == PaneOf(ExecUtils.Default, rlp, Code(stringify, DisplayData(ExecUtils.Default, rlp, raw)));
  }

  lemma TextShown(stringify: Stringifier, format: ExecUtils.AuroraViewFormat, rlp: Option<seq<Field>>, b64: string)
    requires NeverEmpty(stringify)
    requires format == ExecUtils.Default && b64 != ""
    ensures PaneOf(format, rlp, Code(stringify, DisplayData(format, rlp, RawText(b64)))) == CodePane(stringify(JStr(b64)))
  {
    assert DisplayJson(DisplayData(format, rlp, RawText(b64))) == JStr(b64);
  }

  /** A submit payload that decodes is shown decoded in the initial "rlp"
      format, and as a table of the transaction's fields in "table" format. */
  lemma DecodedSubmitShown(parser: Evm.EvmParser, parse: Parser, stringify: Stringifier, tx: seq<byte>)
    requires NeverEmpty(stringify)
    requires Evm.ParseEvmTransaction(parser, tx).Some?
    ensures var fields := Evm.ParseEvmTransaction(parser, tx).value;
            View(parser, parse, stringify, ExecUtils.Rlp, "submit", Encode(tx)) == CodePane(stringify(JObj(fields))) &&
            View(parser, parse, stringify, ExecUtils.Table, "submit", Encode(tx)) == TablePane(fields)
  {
    var b64 := Encode(tx);
    var fields := Evm.ParseEvmTransaction(parser, tx).value;
    ExecUtils.DecodeSubmitOfEncoding(parser, tx);
    var raw := RawDataOf("submit", b64, parse);
    SubmitKindsDecoded(parser, "submit", b64, raw);
    DecodedShown(stringify, fields, raw);
    assert View(parser, parse, stringify, ExecUtils.Rlp, "submit", b64)
        == PaneOf(ExecUtils.Rlp, Some(fields), Code(stringify, DisplayData(ExecUtils.Rlp, Some(fields), raw)));
    assert View(parser, parse, stringify, ExecUtils.Table, "submit", b64)
        == PaneOf(ExecUtils.Table, Some(fields), Code(stringify, DisplayData(ExecUtils.Table, Some(fields), raw)));
  }

  lemma DecodedShown(stringify: Stringifier, fields: seq<Field>, raw: RawData)
    requires NeverEmpty(stringify)
    ensures PaneOf(ExecUtils.Rlp, Some(fields), Code(stringify, DisplayData(ExecUtils.Rlp, Some(fields), raw)))
              == CodePane(stringify(JObj(fields)))
    ensures PaneOf(ExecUtils.Table, Some(fields), Code(stringify, DisplayData(ExecUtils.Table, Some(fields), raw)))
              == TablePane(fields)
  {
    assert DisplayJson(DisplayData(ExecUtils.Rlp, Some(fields), raw)) == JObj(fields);
  }

  /** The viewer's state: the format (initially "rlp") and the table height. */
  class AuroraViewerState {
    var format: ExecUtils.AuroraViewFormat
    var isFullHeight: bool

    constructor()
      ensures format == ExecUtils.Rlp && !isFullHeight
    {
      format := ExecUtils.Rlp;
      isFullHeight := false;
    }

    method SetFormat(f: ExecUtils.AuroraViewFormat)
      modifies this
      ensures format == f && isFullHeight == old(isFullHeight)
    {
      format := f;
    }

    /** `setIsFullHeight(p => !p)` */
    method ToggleFullHeight()
      modifies this
      ensures isFullHeight == !old(isFullHeight) && format == old(format)
    {
      isFullHeight := !isFullHeight;
    }
  }
}
