/** The Aurora argument viewer of the receipt summary
    (aurora-args-viewer.tsx): the same decoding as `AuroraView`, with the
    submit payloads wrapped under `tx_bytes_b64` and unwrapped again for the
    table. The three decoders it imports are the ones of `ExecUtils`. */
module AuroraArgsView {
  import opened Wrappers
  import opened Json
  import opened Base64
  import ExecUtils
  import Evm

  function Wrap(v: Json): seq<Field> {
    [Field(ExecUtils.TxBytesKey, v)]
  }

  /** `rawData` (lines 35-44): the text wrapped as `{tx_bytes_b64: text}` for
      the submit methods; otherwise the JSON the payload decodes to, with
      the wrapped text as the fallback. */
  function RawDataOf(methodName: string, b64: string, parse: Parser): (r: Json)
    ensures methodName == "submit" || methodName == "submit_with_args" ==> r == JObj(Wrap(JStr(b64)))
    ensures !(methodName == "submit" || methodName == "submit_with_args") &&
            ForgivingDecode(b64).Some? && parse(BinaryString(ForgivingDecode(b64).value)).Some? ==>
              r == parse(BinaryString(ForgivingDecode(b64).value)).value
    ensures ForgivingDecode(b64).None? ==> r == JObj(Wrap(JStr(b64)))
    ensures ForgivingDecode(b64).Some? && parse(BinaryString(ForgivingDecode(b64).value)).None? ==>
              r == JObj(Wrap(JStr(b64)))
  {
    if methodName == "submit" || methodName == "submit_with_args" then JObj(Wrap(JStr(b64)))
    else
      match ForgivingDecode(b64)
      case None => JObj(Wrap(JStr(b64)))
      case Some(bytes) =>
        match parse(BinaryString(bytes))
        case None => JObj(Wrap(JStr(b64)))
        case Some(j) => j
  }

  /** `rlpDecoded` (lines 46-59). */
  /** A decoder's record wrapped as `{tx_bytes_b64: record}`; a failed
      decoding stays null. */
  function Wrapped(d: Option<seq<Field>>): Option<seq<Field>> {
    match d
    case None => None
    case Some(p) => Some(Wrap(JObj(p)))
  }

  function RlpDecoded(parser: Evm.EvmParser, methodName: string, b64: string, raw: Json): (r: Option<seq<Field>>)
    ensures methodName == "submit" ==> r == Wrapped(ExecUtils.DecodeSubmit(parser, b64))
    ensures methodName == "submit_with_args" ==> r == Wrapped(ExecUtils.DecodeSubmitWithArgs(parser, b64))
    ensures methodName == "rlp_execute" ==>
              r == (if raw.JObj? then ExecUtils.DecodeRlpExecute(parser, raw.fields) else None)
    ensures ExecUtils.AuroraMethodOf(Some(methodName)).None? ==> r.None?
  {
    if methodName == "submit" then Wrapped(ExecUtils.DecodeSubmit(parser, b64))
    else if methodName == "submit_with_args" then Wrapped(ExecUtils.DecodeSubmitWithArgs(parser, b64))
    else if methodName == "rlp_execute" && Truthy(raw) then
      match raw
      case JObj(fields) => ExecUtils.DecodeRlpExecute(parser, fields)
      case _ => None
    else None
  }

  /** `displayData` (line 61). */
  function DisplayData(format: ExecUtils.AuroraViewFormat, rlp: Option<seq<Field>>, raw: Json): (d: Json)
    ensures format == ExecUtils.Rlp && rlp.Some? ==> d == JObj(rlp.value)
    ensures !(format == ExecUtils.Rlp && rlp.Some?) ==> d == raw
  {
    if format == ExecUtils.Rlp && rlp.Some? then JObj(rlp.value) else raw
  }

  /** `inner && typeof inner === 'object'` for `inner = decoded.tx_bytes_b64`. */
  predicate InnerObject(decoded: seq<Field>) {
    var inner := Get(decoded, ExecUtils.TxBytesKey);
    inner.Some? && Truthy(inner.value) && IsObjectLike(inner.value)
  }

  /** `tableData` (lines 63-70): the inner `tx_bytes_b64` value when it is an
      object, else the decoded record itself. */
  function TableData(rlp: Option<seq<Field>>): (t: Option<Json>)
    ensures rlp.None? <==> t.None?
    ensures t.Some? ==> IsObjectLike(t.value)
    ensures rlp.Some? && InnerObject(rlp.value) ==> t == Get(rlp.value, ExecUtils.TxBytesKey)
    ensures rlp.Some? && !InnerObject(rlp.value) ==> t == Some(JObj(rlp.value))
  {
    match rlp
    case None => None
    case Some(fields) =>
      match Get(fields, ExecUtils.TxBytesKey)
      case Some(inner) => if Truthy(inner) && IsObjectLike(inner) then Some(inner) else Some(JObj(fields))
      case None => Some(JObj(fields))
  }

  /** `TableData` undoes the `{tx_bytes_b64: ...}` wrapping of a decoded
      transaction. */
  lemma TableUnwraps(tx: seq<Field>)
    ensures TableData(Some(Wrap(JObj(tx)))) == Some(JObj(tx))
  {
    assert Get(Wrap(JObj(tx)), ExecUtils.TxBytesKey) == Some(JObj(tx));
  }

  /** The table of a successfully decoded `submit` payload lists the
      transaction's own fields. */
  lemma TableUnwrapsSubmit(parser: Evm.EvmParser, b64: string, raw: Json)
    requires ExecUtils.DecodeSubmit(parser, b64).Some?
    ensures TableData(RlpDecoded(parser, "submit", b64, raw)) == Some(JObj(ExecUtils.DecodeSubmit(parser, b64).value))
  {
    var parsed := ExecUtils.DecodeSubmit(parser, b64).value;
    assert RlpDecoded(parser, "submit", b64, raw) == Some(Wrap(JObj(parsed)));
    TableUnwraps(parsed);
  }

  /** The same for `submit_with_args`. */
  lemma TableUnwrapsSubmitWithArgs(parser: Evm.EvmParser, b64: string, raw: Json)
    requires ExecUtils.DecodeSubmitWithArgs(parser, b64).Some?
    ensures TableData(RlpDecoded(parser, "submit_with_args", b64, raw))
              == Some(JObj(ExecUtils.DecodeSubmitWithArgs(parser, b64).value))
  {
    var parsed := ExecUtils.DecodeSubmitWithArgs(parser, b64).value;
    assert RlpDecoded(parser, "submit_with_args", b64, raw) == Some(Wrap(JObj(parsed)));
    TableUnwraps(parsed);
  }

  /** The table of a decoded `rlp_execute` payload lists the parsed
      transaction that replaced its `tx_bytes_b64` text. */
  lemma TableUnwrapsRlpExecute(parser: Evm.EvmParser, b64: string, raw: Json)
    requires RlpDecoded(parser, "rlp_execute", b64, raw).Some?
    ensures raw.JObj? && ExecUtils.RlpPayload(raw.fields).Some?
    ensures TableData(RlpDecoded(parser, "rlp_execute", b64, raw)) ==
            Some(JObj(Evm.ParseEvmTransaction(parser, ExecUtils.Base64Bytes(ExecUtils.RlpPayload(raw.fields).value)).value))
  {
    var d := RlpDecoded(parser, "rlp_execute", b64, raw).value;
    assert raw.JObj?;
    assert d == ExecUtils.DecodeRlpExecute(parser, raw.fields).value;
  }

  /** `code` (lines 72-74). */
  function Code(stringify: Stringifier, d: Json): (c: string)
    ensures !Truthy(d) ==> c == ""
    ensures Truthy(d) ==> c == stringify(d)
  {
    if Truthy(d) then stringify(d) else ""
  }

  /** Line 78: the Aurora transaction link, shown when `rlpHash` is truthy. */
  function RlpHashLink(explorerUrl: string, rlpHash: Option<string>): (href: Option<string>)
    ensures href.Some? <==> rlpHash.Some? && rlpHash.value != ""
    ensures href.Some? ==> href.value == explorerUrl + "/tx/" + rlpHash.value
  {
    if rlpHash.Some? && rlpHash.value != "" then Some(explorerUrl + "/tx/" + rlpHash.value) else None
  }

  datatype Pane = TablePane(table: Json) | CodePane(code: string) | NoPane

  function PaneOf(format: ExecUtils.AuroraViewFormat, table: Option<Json>, code: string): (p: Pane)
    ensures p.TablePane? <==> format == ExecUtils.Table && table.Some?
    ensures p.TablePane? ==> p.table == table.value
    ensures p.CodePane? <==> !(format == ExecUtils.Table && table.Some?) && code != ""
    ensures p.CodePane? ==> p.code == code
  {
    if format == ExecUtils.Table && table.Some? then TablePane(table.value)
    else if code != "" then CodePane(code)
    else NoPane
  }

  /** The viewer's `format` state, initially "rlp". */
  class FormatState {
    var format: ExecUtils.AuroraViewFormat

    constructor()
      ensures format == ExecUtils.Rlp
    {
      format := ExecUtils.Rlp;
    }

    method SetFormat(f: ExecUtils.AuroraViewFormat)
      modifies this
      ensures format == f
    {
      format := f;
    }
  }
}
