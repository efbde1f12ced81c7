/** The decoding helpers of the transaction execution view: recursive
    un-escaping of argument strings, the lookup of raw call arguments in an
    RPC response, and the three Aurora EVM-call decoders. */
module ExecUtils {
  import opened Wrappers
  import opened Json
  import opened Base64
  import Strings
  import Borsh
  import Evm

  // ---------------------------------------------------------------------
  // deepUnescape

  /** The number of backslashes `s` starts with. */
  function LeadingBackslashes(s: string): (k: nat)
    ensures k <= |s| && forall i :: 0 <= i < k ==> s[i] == '\\'
    ensures k < |s| ==> s[k] != '\\'
  {
    if s != [] && s[0] == '\\' then 1 + LeadingBackslashes(s[1..]) else 0
  }

  /** `s` holds no backslash at all. */
  predicate NoBackslash(s: string) {
    forall i :: 0 <= i < |s| ==> s[i] != '\\'
  }

  /** `s.replace(/\\{2,}"/g, m => '\\'.repeat(m.length / 2 - 1) + '"')`: a maximal
      run of k >= 2 backslashes followed by a quote becomes floor((k-1)/2)
      backslashes and the quote (`repeat` truncates the fractional count);
      every other character is copied. */
  function CollapseQuoteRuns(s: string): (r: string)
    ensures |r| <= |s|
    ensures NoBackslash(s) ==> r == s
    decreases |s|
  {
    if s == [] then []
    else if s[0] != '\\' then [s[0]] + CollapseQuoteRuns(s[1..])
    else
      var k := LeadingBackslashes(s);
      if k >= 2 && k < |s| && s[k] == '"' then
        Strings.Repeat('\\', (k - 1) / 2) + "\"" + CollapseQuoteRuns(s[k + 1..])
      else s[..k] + CollapseQuoteRuns(s[k..])
  }

  /** `s.replace(/\\c/g, rep)`: every backslash followed by `c`, scanned left
      to right without overlap, becomes `rep`. */
  function ReplaceEscape(s: string, c: char, rep: char): (r: string)
    ensures |r| <= |s|
    ensures NoBackslash(s) ==> r == s
  {
    if s == [] then []
    else if |s| >= 2 && s[0] == '\\' && s[1] == c then [rep] + ReplaceEscape(s[2..], c, rep)
    else [s[0]] + ReplaceEscape(s[1..], c, rep)
  }

  /** The four rewrites of line 19-22, in order; text with no backslash is
      left as it is. */
  function Unescape(s: string): (r: string)
    ensures |r| <= |s|
    ensures NoBackslash(s) ==> r == s
  {
    ReplaceEscape(ReplaceEscape(ReplaceEscape(CollapseQuoteRuns(s), 'n', '\n'), 't', '\t'), '"', '"')
  }

  /** The truncating `repeat`: two and three backslashes before a quote
      leave zero and one. */
  lemma CollapseShortRuns()
    ensures CollapseQuoteRuns("\\\\\"") == "\""
    ensures CollapseQuoteRuns("\\\\\\\"") == "\\\""
  {
    assert LeadingBackslashes("\\\\\"") == 2;
    assert LeadingBackslashes("\\\\\\\"") == 3;
  }

  /** Four and five backslashes before a quote leave one and two. */
  lemma CollapseLongRuns()
    ensures CollapseQuoteRuns("\\\\\\\\\"") == "\\\""
    ensures CollapseQuoteRuns("\\\\\\\\\\\"") == "\\\\\""
  {
    assert LeadingBackslashes("\\\\\\\\\"") == 4;
    assert LeadingBackslashes("\\\\\\\\\\\"") == 5;
  }

  /** `deepUnescape(value)` with `JSON.parse` as the parameter `parse`. A
      string is un-escaped and parsed; only a non-null object or array result
      replaces it (and is itself un-escaped), otherwise the ORIGINAL string
      is kept. Arrays and objects are mapped element by element. */
  function DeepUnescape(parse: Parser, v: Json): (r: Json)
    requires Shrinking(parse)
    ensures !v.JStr? && !IsObjectLike(v) ==> r == v
    ensures v.JArr? ==> r.JArr? && |r.items| == |v.items|
    ensures v.JObj? ==> r.JObj? && Keys(r.fields) == Keys(v.fields)
    ensures v.JStr? ==> r == v || IsObjectLike(r)
    ensures v.JStr? && !ParsesToObject(parse, Unescape(v.s)) ==> r == v
    ensures IsObjectLike(v) ==> IsObjectLike(r)
    decreases Weight(v)
  {
    match v
    case JStr(s) =>
      var u := Unescape(s);
      if ParsesToObject(parse, u) then
        var p := parse(u).value;
        assert Weight(p) <= |u|;
        DeepUnescape(parse, p)
      else v
    case JArr(items) => JArr(UnescapeItems(parse, items))
    case JObj(fields) => JObj(UnescapeFields(parse, fields))
    case _ => v
  }

  /** `typeof parsed === 'object' && parsed !== null` after a parse that did not throw. */
  predicate ParsesToObject(parse: Parser, u: string) {
    parse(u).Some? && IsObjectLike(parse(u).value)
  }

  function UnescapeItems(parse: Parser, items: seq<Json>): (r: seq<Json>)
    requires Shrinking(parse)
    ensures |r| == |items|
    decreases WeightItems(items)
  {
    if items == [] then []
    else [DeepUnescape(parse, items[0])] + UnescapeItems(parse, items[1..])
  }

  function UnescapeFields(parse: Parser, fields: seq<Field>): (r: seq<Field>)
    requires Shrinking(parse)
    ensures Keys(r) == Keys(fields)
    decreases WeightFields(fields)
  {
    if fields == [] then []
    else [Field(fields[0].key, DeepUnescape(parse, fields[0].value))] + UnescapeFields(parse, fields[1..])
  }

  /** What `deepUnescape` puts in place of its input: each array element
      and each record value is itself deep-unescaped (keys kept), and a
      string whose unescaped text parses to an object or array becomes that
      parse, deep-unescaped. */
  lemma DeepUnescapeMaps(parse: Parser, v: Json)
    requires Shrinking(parse)
    ensures v.JArr? ==> var r := DeepUnescape(parse, v);
      r.JArr? && |r.items| == |v.items| &&
      forall i :: 0 <= i < |v.items| ==> r.items[i] == DeepUnescape(parse, v.items[i])
    ensures v.JObj? ==> var r := DeepUnescape(parse, v);
      r.JObj? && |r.fields| == |v.fields| &&
      forall i :: 0 <= i < |v.fields| ==>
        r.fields[i] == Field(v.fields[i].key, DeepUnescape(parse, v.fields[i].value))
    ensures v.JStr? && ParsesToObject(parse, Unescape(v.s)) ==>
      DeepUnescape(parse, v) == DeepUnescape(parse, parse(Unescape(v.s)).value)
  {
    match v
    case JArr(items) => ItemsMapped(parse, items);
    case JObj(fields) => FieldsMapped(parse, fields);
    case _ =>
  }

  lemma {:induction false} ItemsMapped(parse: Parser, items: seq<Json>)
    requires Shrinking(parse)
    ensures forall i :: 0 <= i < |items| ==> UnescapeItems(parse, items)[i] == DeepUnescape(parse, items[i])
    decreases |items|
  {
    if items != [] {
      var tail := items[1..];
      ItemsMapped(parse, tail);
      var r, rest := UnescapeItems(parse, items), UnescapeItems(parse, tail);
      assert r == [DeepUnescape(parse, items[0])] + rest;
      forall i | 0 <= i < |items| ensures r[i] == DeepUnescape(parse, items[i]) {
        if i > 0 {
          assert r[i] == rest[i - 1] && tail[i - 1] == items[i];
        }
      }
    }
  }

  lemma {:induction false} FieldsMapped(parse: Parser, fields: seq<Field>)
    requires Shrinking(parse)
    ensures |UnescapeFields(parse, fields)| == |fields|
    ensures forall i :: 0 <= i < |fields| ==>
      UnescapeFields(parse, fields)[i] == Field(fields[i].key, DeepUnescape(parse, fields[i].value))
    decreases |fields|
  {
    if fields != [] {
      var tail := fields[1..];
      FieldsMapped(parse, tail);
      var r, rest := UnescapeFields(parse, fields), UnescapeFields(parse, tail);
      assert r == [Field(fields[0].key, DeepUnescape(parse, fields[0].value))] + rest;
      forall i | 0 <= i < |fields|
        ensures r[i] == Field(fields[i].key, DeepUnescape(parse, fields[i].value))
      {
        if i > 0 {
          assert r[i] == rest[i - 1] && tail[i - 1] == fields[i];
        }
      }
    }
  }

  /** Un-escaping twice is un-escaping once. */
  lemma {:induction false} DeepUnescapeIdempotent(parse: Parser, v: Json)
    requires Shrinking(parse)
    ensures DeepUnescape(parse, DeepUnescape(parse, v)) == DeepUnescape(parse, v)
    decreases Weight(v)
  {
    match v
    case JStr(s) =>
      var u := Unescape(s);
      if ParsesToObject(parse, u) {
        var p := parse(u).value;
        assert Weight(p) <= |u|;
        DeepUnescapeIdempotent(parse, p);
      }
    case JArr(items) =>
      ItemsIdempotent(parse, items);
    case JObj(fields) =>
      FieldsIdempotent(parse, fields);
    case _ =>
  }

  lemma {:induction false} ItemsIdempotent(parse: Parser, items: seq<Json>)
    requires Shrinking(parse)
    ensures UnescapeItems(parse, UnescapeItems(parse, items)) == UnescapeItems(parse, items)
    decreases WeightItems(items)
  {
    if items != [] {
      var once := UnescapeItems(parse, items);
      assert once[1..] == UnescapeItems(parse, items[1..]);
      DeepUnescapeIdempotent(parse, items[0]);
      ItemsIdempotent(parse, items[1..]);
    }
  }

  lemma {:induction false} FieldsIdempotent(parse: Parser, fields: seq<Field>)
    requires Shrinking(parse)
    ensures UnescapeFields(parse, UnescapeFields(parse, fields)) == UnescapeFields(parse, fields)
    decreases WeightFields(fields)
  {
    if fields != [] {
      var once := UnescapeFields(parse, fields);
      assert once[1..] == UnescapeFields(parse, fields[1..]);
      DeepUnescapeIdempotent(parse, fields[0].value);
      FieldsIdempotent(parse, fields[1..]);
    }
  }

  // ---------------------------------------------------------------------
  // findRawArgs: the live node's response, shaped as the RPC returns it

  datatype RpcFunctionCall = RpcFunctionCall(args: Option<string>, methodName: Option<string>)

  /** An action of an RPC receipt: a bare variant name such as
      `"CreateAccount"`, or an object keyed by its variant. */
  datatype RpcAction = NamedAction(name: string) | ActionRecord(functionCall: Option<RpcFunctionCall>)

  datatype RpcActionReceipt = RpcActionReceipt(actions: Option<seq<RpcAction>>)

  /** `receipt.receipt`: `action` is the `Action` variant when present and non-null. */
  datatype RpcReceiptBody = RpcReceiptBody(action: Option<RpcActionReceipt>)

  datatype RpcReceipt = RpcReceipt(receiptId: Option<string>, receipt: Option<RpcReceiptBody>)

  /** The response; `receipts` is `None` when it is missing or not an array. */
  datatype RpcData = RpcData(receipts: Option<seq<RpcReceipt>>)

  /** `receipts.find(r => r.receiptId === receiptId)` */
  function FindReceipt(receipts: seq<RpcReceipt>, receiptId: string): (r: Option<RpcReceipt>)
    ensures r.None? <==> forall k :: 0 <= k < |receipts| ==> receipts[k].receiptId != Some(receiptId)
    ensures r.Some? ==> exists k :: IsFirstWithId(receipts, receiptId, k) && receipts[k] == r.value
  {
    if receipts == [] then None
    else if receipts[0].receiptId == Some(receiptId) then
      assert IsFirstWithId(receipts, receiptId, 0);
      Some(receipts[0])
    else
      var r := FindReceipt(receipts[1..], receiptId);
      if r.Some? then
        var k :| IsFirstWithId(receipts[1..], receiptId, k) && receipts[1..][k] == r.value;
        assert IsFirstWithId(receipts, receiptId, k + 1);
        r
      else
        assert forall k :: 1 <= k < |receipts| ==> receipts[k] == receipts[1..][k - 1];
        r
  }

  predicate IsFirstWithId(receipts: seq<RpcReceipt>, receiptId: string, k: int) {
    0 <= k < |receipts| && receipts[k].receiptId == Some(receiptId) &&
    forall j :: 0 <= j < k ==> receipts[j].receiptId != Some(receiptId)
  }

  /** The reference reading of the lookup: the response has receipts, the
      first receipt with the id has an `Action` variant with an action list,
      and the action at the index is a FunctionCall `fc`. */
  ghost predicate Locates(rpc: Option<RpcData>, receiptId: string, actionIndex: int, fc: RpcFunctionCall) {
    rpc.Some? && rpc.value.receipts.Some? &&
    exists k :: IsFirstWithId(rpc.value.receipts.value, receiptId, k) &&
      var body := rpc.value.receipts.value[k].receipt;
      body.Some? && body.value.action.Some? && body.value.action.value.actions.Some? &&
      var actions := body.value.action.value.actions.value;
      0 <= actionIndex < |actions| && actions[actionIndex] == ActionRecord(Some(fc))
  }

  /** `findRawArgs(rpcData, receiptId, actionIndex)`: the `args` of the
      FunctionCall at that index of that receipt, `None` (null) in every
      other case. */
  function FindRawArgs(rpc: Option<RpcData>, receiptId: string, actionIndex: int): (r: Option<string>)
    ensures r.Some? ==> exists fc :: Locates(rpc, receiptId, actionIndex, fc) && fc.args == r
    ensures forall fc :: Locates(rpc, receiptId, actionIndex, fc) ==> r == fc.args
  {
    if rpc.None? || rpc.value.receipts.None? then None
    else
      var receipts := rpc.value.receipts.value;
      match FindReceipt(receipts, receiptId)
      case None => None
      case Some(receipt) =>
        if receipt.receipt.None? || receipt.receipt.value.action.None? then None
        else
          var actions := receipt.receipt.value.action.value.actions;
          if actions.None? || !(0 <= actionIndex < |actions.value|) then None
          else
            match actions.value[actionIndex]
            case NamedAction(_) => None
            case ActionRecord(fc) =>
              if fc.None? then None
              else
                assert Locates(rpc, receiptId, actionIndex, fc.value);
                fc.value.args
  }

  // ---------------------------------------------------------------------
  // Aurora

  /** `AuroraViewFormat`: how the Aurora viewers present the arguments. */
  datatype AuroraViewFormat = Default | Rlp | Table

  datatype AuroraMethod = Submit | SubmitWithArgs | RlpExecute

  function AuroraMethodOf(methodName: Option<string>): (r: Option<AuroraMethod>)
    ensures r == Some(Submit) <==> methodName == Some("submit")
    ensures r == Some(SubmitWithArgs) <==> methodName == Some("submit_with_args")
    ensures r == Some(RlpExecute) <==> methodName == Some("rlp_execute")
  {
    if methodName == Some("submit") then Some(Submit)
    else if methodName == Some("submit_with_args") then Some(SubmitWithArgs)
    else if methodName == Some("rlp_execute") then Some(RlpExecute)
    else None
  }

  /** A method name is at most one of the three Aurora methods, and none of
      them when it is not recognised. */
  lemma AuroraMethodNames(methodName: string)
    ensures AuroraMethodOf(Some(methodName)).None? <==>
            methodName != "submit" && methodName != "submit_with_args" && methodName != "rlp_execute"
    ensures methodName == "submit" ==> methodName != "submit_with_args" && methodName != "rlp_execute"
    ensures methodName == "submit_with_args" ==> methodName != "rlp_execute"
  {
    assert "submit"[6..] == [];
    assert "submit_with_args"[6] == '_';
    assert "rlp_execute"[0] != "submit"[0];
  }

  /** `isAuroraAction(methodName, receiver)` */
  function IsAuroraAction(methodName: Option<string>, receiver: string): (r: bool)
    ensures r <==> receiver == "aurora" && AuroraMethodOf(methodName).Some?
    ensures methodName.None? ==> !r
  {
    receiver == "aurora" &&
    (methodName == Some("submit") || methodName == Some("submit_with_args") || methodName == Some("rlp_execute"))
  }

  /** The bytes of a string `isBase64` accepts (`decodeBase64` / `atob`). */
  function Base64Bytes(b64: string): (r: seq<byte>)
    requires IsBase64(b64)
    ensures Encode(r) == b64
  {
    ForgivingDecode(b64).value
  }

  /** `decodeSubmit(b64)`: the whole payload is an RLP-encoded EVM transaction. */
  function DecodeSubmit(parser: Evm.EvmParser, b64: string): (r: Option<seq<Field>>)
    ensures r.Some? ==> IsBase64(b64) && parser(Base64Bytes(b64)).Some?
  {
    if !IsBase64(b64) then None
    else Evm.ParseEvmTransaction(parser, Base64Bytes(b64))
  }

  /** `decodeSubmitWithArgs(b64)`: the payload is Borsh `SubmitArgs`; only its
      `tx_data` reaches the EVM parser. */
  function DecodeSubmitWithArgs(parser: Evm.EvmParser, b64: string): (r: Option<seq<Field>>)
    ensures r.Some? ==> IsBase64(b64) && Borsh.Decode(Base64Bytes(b64)).Some? &&
                        parser(Borsh.Decode(Base64Bytes(b64)).value.txData).Some?
  {
    if !IsBase64(b64) then None
    else
      match Borsh.Decode(Base64Bytes(b64))
      case None => None
      case Some(args) => Evm.ParseEvmTransaction(parser, args.txData)
  }

  /** Encoding a transaction's bytes is exactly what `decodeSubmit` undoes. */
  lemma DecodeSubmitOfEncoding(parser: Evm.EvmParser, tx: seq<byte>)
    ensures DecodeSubmit(parser, Encode(tx)) == Evm.ParseEvmTransaction(parser, tx)
  {
    DecodeEncode(tx);
  }

  /** A well-formed `SubmitArgs`, Borsh-encoded then base64-encoded, decodes to
      the parse of its `tx_data`, whatever the other fields and any trailing
      bytes. */
  lemma DecodeSubmitWithArgsOfEncoding(parser: Evm.EvmParser, a: Borsh.SubmitArgs, trailing: seq<byte>)
    requires Borsh.WellFormed(a)
    ensures DecodeSubmitWithArgs(parser, Encode(Borsh.Encode(a) + trailing)) ==
            Evm.ParseEvmTransaction(parser, a.txData)
  {
    DecodeEncode(Borsh.Encode(a) + trailing);
    Borsh.DecodeEncode(a, trailing);
  }

  const TxBytesKey: string := "tx_bytes_b64"

  /** The base64 payload of an `rlp_execute` argument record, when it is a
      string `isBase64` accepts. */
  function RlpPayload(data: seq<Field>): Option<string> {
    match Get(data, TxBytesKey)
    case Some(JStr(b64)) => if IsBase64(b64) then Some(b64) else None
    case _ => None
  }

  /** `{...rest, [key]: v}` where `rest` is `data` without `key`. */
  function MoveToEnd(data: seq<Field>, key: string, v: Json): (r: seq<Field>)
    requires HasKey(data, key)
    ensures forall k :: HasKey(r, k) <==> HasKey(data, k)
    ensures forall k :: k != key ==> Get(r, k) == Get(data, k)
    ensures Get(r, key) == Some(v)
    ensures |r| > 0 && r[|r| - 1] == Field(key, v)
  {
    var rest := Without(data, key);
    var tail := [Field(key, v)];
    assert Get(tail, key) == Some(v);
    forall k ensures Get(rest + tail, k) == (if k == key then Some(v) else Get(data, k))
                 && (HasKey(rest + tail, k) <==> HasKey(data, k)) {
      GetAppend(rest, tail, k);
    }
    rest + tail
  }

  /** `decodeRlpExecute(data)`: the record with `tx_bytes_b64` replaced by the
      parsed transaction and moved to the end. */
  function DecodeRlpExecute(parser: Evm.EvmParser, data: seq<Field>): (r: Option<seq<Field>>)
    ensures r.None? <==> RlpPayload(data).None? || parser(Base64Bytes(RlpPayload(data).value)).None?
    ensures r.Some? ==>
      (forall k :: HasKey(r.value, k) <==> HasKey(data, k)) &&
      (forall k :: k != TxBytesKey ==> Get(r.value, k) == Get(data, k)) &&
      Get(r.value, TxBytesKey) ==
        Some(JObj(Evm.ParseEvmTransaction(parser, Base64Bytes(RlpPayload(data).value)).value)) &&
      r.value[|r.value| - 1].key == TxBytesKey
  {
    match RlpPayload(data)
    case None => None
    case Some(b64) =>
      match Evm.ParseEvmTransaction(parser, Base64Bytes(b64))
      case None => None
      case Some(parsed) => Some(MoveToEnd(data, TxBytesKey, JObj(parsed)))
  }
}
