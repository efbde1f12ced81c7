# nearblocks transaction view, token helpers and form logic in Dafny

This project models the logic core of the nearblocks explorer frontend, plus
one backend parser. Everything else in the repository is rendering, network
or database plumbing.

- **Transaction execution view.**
  - The receipt tree is flattened into table rows.
  - Action arguments are un-escaped and looked up in the live-node response.
  - Aurora payloads are recognised (base64, Borsh `SubmitArgs`, EVM
    transaction records) and shown.
  - Actions get their one-line labels, icons and colours.
  - Receipt logs are beautified.
  - The status and direction badges are chosen.
- **Token-transfer lists.** The visible rows are filtered, net balance changes
  are grouped by account and contract (and token), and the section badges are
  counted.
- **External-token patterns** of the backend (`nep141:…`, `nep171:…:…`,
  `nep245:…:…`), and the dispatch to the metadata copy routines.
- **Serialisers and validators.**
  - `safeStringify`, with its ancestor set and BigInt narrowing.
  - The zod resolver's path formatter and error folding.
  - The contract-call form checks.
- **Small state and string logic.**
  - Locale routing in the proxy.
  - Token image and NFT media URLs, and amount signs.
  - Social links on the token profile.
  - Merging and sorting of an account's tokens.
  - The settings store.
  - The data table's filters, keys and pagination.

## How the model is organised

Each module follows one source file, or a small group of related files.

Functions are used for pure derivations. Imperative code is modelled
imperatively:

- `flattenReceipts` is a class with a row list and a counter.
- `serializeValue` is a class holding the `seen` map.
- The `netFts`/`netMts` loops are methods over a map plus its insertion order.
- `sortTokens` is an in-place insertion sort on an `array`.
- The form checks push onto a payload's issue list.
- The settings store, the image/media state, the viewer format state and the
  proxy's `nextUrl` are classes whose methods update their fields.

Each method is proved against a specification function, and the properties
of that function are proved as lemmas.

Foreign code is passed in as a function parameter:

- `JSON.parse` is a partial parser.
- `JSON.stringify` is a stringifier that never returns "".
- ethers' `Transaction.from` is a partial EVM parser.
- `Number()` is a map into the reals.
- `toTokenPrice` is a plain function.
- The metadata copy routines are a `run` function.

Supporting modules give the browser or language semantics the core relies on:

- `Base64`: `atob`/`btoa` as WHATWG forgiving-base64 and RFC 4648 section 4.
- `Borsh`: the `SubmitArgs` byte layout (u32 little-endian length, option
  tags, u128 little-endian, 20-byte address).
- `Json`: JSON values with ordered record fields.
- `Strings`: `trim`, `startsWith`, `repeat`, `String(n)`.
- `Schema`: the receipt tree of `packages/nb-schemas/src/txns/response.ts`.

Source paths below are relative to the repository root. The abbreviations
used in file names are spelled out in full in the table.

## Model

| member | source | states |
|---|---|---|
| ExecUtils.CollapseShortRuns | apps/frontend/src/components/txns/txn/execution/utils.ts:19 | a run of k backslashes before a quote keeps floor((k-1)/2) of them: 2→0, 3→1 |
| ExecUtils.CollapseLongRuns | apps/frontend/src/components/txns/txn/execution/utils.ts:19 | 4→1 and 5→2, because `repeat` truncates `k/2-1` |
| ExecUtils.CollapseQuoteRuns | apps/frontend/src/components/txns/txn/execution/utils.ts:19 | never longer; text without a backslash is unchanged |
| ExecUtils.ReplaceEscape | apps/frontend/src/components/txns/txn/execution/utils.ts:20-22 | never longer; text without a backslash is unchanged |
| ExecUtils.Unescape | apps/frontend/src/components/txns/txn/execution/utils.ts:18-22 | never longer; text without a backslash is unchanged by the four rewrites |
| ExecUtils.DeepUnescape | apps/frontend/src/components/txns/txn/execution/utils.ts:16-49 | non-string scalars are unchanged; arrays keep their length; records keep their key list; a string is returned as it is unless its unescaped text parses to an object, and then it becomes an object |
| ExecUtils.DeepUnescapeMaps | apps/frontend/src/components/txns/txn/execution/utils.ts:16-49 | element i of an array is the un-escaping of element i; field i of a record keeps its key and holds its value un-escaped; a string whose unescaped text parses to an object becomes the un-escaping of that object |
| ExecUtils.DeepUnescapeIdempotent | apps/frontend/src/components/txns/txn/execution/utils.ts:16-49 | un-escaping twice gives the same value as un-escaping once |
| ExecUtils.FindReceipt | apps/frontend/src/components/txns/txn/execution/utils.ts:59 | none exactly when no receipt has the id; otherwise the first receipt with that id |
| ExecUtils.FindRawArgs | apps/frontend/src/components/txns/txn/execution/utils.ts:51-70 | a result only for a function call found at (receipt id, action index) in a receipts array under an `Action` variant, and then exactly that call's `args`; null in every other case |
| ExecUtils.AuroraMethodOf | apps/frontend/src/components/txns/txn/execution/utils.ts:77-81 | each of submit, submit_with_args and rlp_execute is recognised exactly when the name is that string |
| ExecUtils.AuroraMethodNames | apps/frontend/src/components/txns/txn/execution/utils.ts:77-81 | a name is not an Aurora method iff it is none of the three names, and the three names are distinct |
| ExecUtils.IsAuroraAction | apps/frontend/src/components/txns/txn/execution/utils.ts:72-82 | true iff the receiver is "aurora" and the method is one of the three; false for an undefined method |
| ExecUtils.Base64Bytes | apps/frontend/src/components/txns/txn/execution/utils.ts:151-163 | the decoded bytes of an accepted string encode back to it |
| ExecUtils.DecodeSubmit | apps/frontend/src/components/txns/txn/execution/utils.ts:148-156 | a record only for a canonical base64 input whose bytes the EVM parser accepts |
| ExecUtils.DecodeSubmitWithArgs | apps/frontend/src/components/txns/txn/execution/utils.ts:158-173 | a record only for canonical base64 whose bytes Borsh-decode, and then it is the parse of `tx_data` alone |
| ExecUtils.DecodeSubmitOfEncoding | apps/frontend/src/components/txns/txn/execution/utils.ts:148-156 | decoding the base64 of a transaction's bytes is parsing those bytes |
| ExecUtils.DecodeSubmitWithArgsOfEncoding | apps/frontend/src/components/txns/txn/execution/utils.ts:158-173 | for the base64 of a Borsh encoding (with any trailing bytes), the result is the parse of its `tx_data` only |
| ExecUtils.MoveToEnd | apps/frontend/src/components/txns/txn/execution/utils.ts:184-185 | `{...rest, key: v}`: the same key set, other keys unchanged, `key` holds `v` and comes last |
| ExecUtils.DecodeRlpExecute | apps/frontend/src/components/txns/txn/execution/utils.ts:175-189 | null iff `tx_bytes_b64` is missing, not a string, not base64 or unparseable; otherwise the input's keys, other values unchanged, `tx_bytes_b64` holding the parsed record |
| Base64.DecodeEncode | apps/frontend/src/components/txns/txn/execution/utils.ts:86 | `atob(btoa(x))` is `x` for every byte string |
| Base64.IsBase64Iff | apps/frontend/src/components/txns/txn/execution/utils.ts:84-90 | `isBase64(s)` iff `s` is the padded RFC 4648 encoding of some byte string |
| Base64.IsBase64Canonical | apps/frontend/src/components/txns/txn/execution/utils.ts:84-90 | an accepted string decodes, re-encodes to itself, has length divisible by 4 and no whitespace |
| Base64.EmptyIsBase64 | apps/frontend/src/components/txns/txn/execution/utils.ts:84-90 | the empty string is accepted |
| Base64.NonCanonicalRejected | apps/frontend/src/components/txns/txn/execution/utils.ts:84-90 | "YQ" decodes but is rejected; "YQ== " is rejected |
| Base64.PaddedAccepted | apps/frontend/src/components/txns/txn/execution/utils.ts:84-90 | "YQ==" is accepted |
| Base64.BinaryString | apps/frontend/src/components/txns/txn/execution/utils.ts:163 | `charCodeAt` of the binary string gives back each byte |
| Borsh.DecodeEncode | apps/frontend/src/components/txns/txn/execution/utils.ts:139-145 | decoding the encoding of well-formed `SubmitArgs`, followed by anything, gives them back |
| Borsh.DecodeIsPrefix | apps/frontend/src/components/txns/txn/execution/utils.ts:139-145 | whatever decodes is well formed and its encoding is a prefix of the input |
| Evm.PlainList | apps/frontend/src/components/txns/txn/execution/utils.ts:98 | arrays are converted element-wise, keeping their length |
| Evm.ToPlainObject | apps/frontend/src/components/txns/txn/execution/utils.ts:92-122 | the record filled field by field in loops equals the plain value of the object |
| Evm.PlainObjectShape | apps/frontend/src/components/txns/txn/execution/utils.ts:100-121 | the record has a key exactly where a getter (or, with no getters, an own field) holds a non-nullish value |
| Evm.PlainRecordNoNulls | apps/frontend/src/components/txns/txn/execution/utils.ts:111-119 | no converted record holds null |
| Evm.BigIntAsDecimal | apps/frontend/src/components/txns/txn/execution/utils.ts:94 | a bigint becomes its decimal string, with a leading '-' iff it is negative |
| Evm.ParseEvmTransaction | apps/frontend/src/components/txns/txn/execution/utils.ts:124-133 | null iff the parser fails; otherwise a record keyed by the non-nullish getters |
| Receipts.OwnRows | apps/frontend/src/components/txns/txn/receipts.tsx:34-50 | one row per shown action: only the first when it is a delegate action, else all of them |
| Receipts.ReceiptWalker.constructor | apps/frontend/src/components/txns/txn/receipts.tsx:30-31 | no rows and index 0 |
| Receipts.ReceiptWalker.PushOwnRows | apps/frontend/src/components/txns/txn/receipts.tsx:39-50 | appends the receipt's own rows numbered from the counter, which advances by their number |
| Receipts.ReceiptWalker.WalkChildren | apps/frontend/src/components/txns/txn/receipts.tsx:52-54 | appends the children's subtrees' rows, left to right, and advances the counter by their number |
| Receipts.ReceiptWalker.Walk | apps/frontend/src/components/txns/txn/receipts.tsx:33-55 | appends exactly the rows of the subtree and advances the counter by their number |
| Receipts.FlattenReceipts | apps/frontend/src/components/txns/txn/receipts.tsx:29-59 | the rows of the whole tree numbered from 0 |
| Receipts.RowsLength | apps/frontend/src/components/txns/txn/receipts.tsx:29-59 | the number of rows is the sum over all receipts of their shown actions |
| Receipts.RowsNumbered | apps/frontend/src/components/txns/txn/receipts.tsx:31-43 | row `i` carries index `start + i`: no gaps, no repeats |
| Receipts.WalkIsPreOrder | apps/frontend/src/components/txns/txn/receipts.tsx:39-54 | the rows are those of the receipts in pre-order, children left to right |
| Receipts.OwnRowsFirst | apps/frontend/src/components/txns/txn/receipts.tsx:39-54 | a receipt's own rows come before all rows of its descendants |
| Receipts.RowProvenance | apps/frontend/src/components/txns/txn/receipts.tsx:40-49 | every row is built from a shown action of some receipt in the tree and copies that receipt's fields |
| Receipts.EmptyReceiptWalksChildren | apps/frontend/src/components/txns/txn/receipts.tsx:34-54 | a receipt with no actions adds no rows of its own but its children are still walked |
| Receipts.ActionDeposit | apps/frontend/src/components/txns/txn/receipts.tsx:61-70 | `args.deposit` exactly when args is a record whose deposit is a string, else undefined |
| Json.ToJsString | apps/frontend/src/components/txns/txn/actions/action.tsx:46 | `String(v)`: strings as they are, "null", "true"/"false", "[object Object]" for records, "" for an empty array and a one-element array as its element |
| Json.ArrayStringExamples | apps/frontend/src/components/txns/txn/actions/action.tsx:46 | `String` of `["1"]` is "1", of `[5,6]` "5,6", of `[null]` "", of `[[1,2],3]` "1,2,3" |
| ActionLabel.ArgsRecord | apps/frontend/src/components/txns/txn/actions/action.tsx:19-22 | the args when they are a non-null non-array object, else `{}` |
| ActionLabel.ArgOr | apps/frontend/src/components/txns/txn/actions/action.tsx:46 | `String(args[key] ?? fallback)`: the fallback for a missing or null value, else `String` of the value (an array comma-joined) |
| ActionLabel.Describe | apps/frontend/src/components/txns/txn/actions/action.tsx:24-218 | unhandled kinds print their tag; `full=false` drops every counterparty; otherwise counterparties are only receiver or signer |
| ActionLabel.CallShowsMethod | apps/frontend/src/components/txns/txn/actions/action.tsx:27-31 | "Call" with the method name, or "method" when it is null or empty |
| ActionLabel.AmountsDefaultToZero | apps/frontend/src/components/txns/txn/actions/action.tsx:42-64 | transfer shows `args.deposit` and stake `args.stake`, "0" when missing; a full transfer reads From receiver To signer |
| ActionLabel.GlobalKindsAlike | apps/frontend/src/components/txns/txn/actions/action.tsx:92-109 | the four global-contract kinds render the same "Deploy Global Contract" label |
| ActionLabel.KeyActionsShowPublicKey | apps/frontend/src/components/txns/txn/actions/action.tsx:167-212 | key actions show `args.public_key`, or "" when it is missing |
| ActionIcons.Variants | apps/frontend/src/components/txns/txn/actions/icon.tsx:31-55 | each colour class exactly: lime, blue, amber, purple and red kinds, gray for the rest |
| ActionIcons.ActionGlyph | apps/frontend/src/components/txns/txn/actions/icon.tsx:93-123 | Globe exactly for the deploy-global kinds, Link for the use-global kinds, Info for the default |
| ActionIcons.GlyphsDistinguishKinds | apps/frontend/src/components/txns/txn/actions/icon.tsx:93-123 | two kinds share a glyph only when it is Globe, Link or Info |
| ActionIcons.Icon | apps/frontend/src/components/txns/txn/actions/icon.tsx:59-91 | no actions: Info on gray; one: its glyph and colour; several: the delegate glyph when a delegate leads, else purple Layers |
| ActionIcons.SeveralActionsArePurple | apps/frontend/src/components/txns/txn/actions/icon.tsx:78-90 | several actions are always purple, and Layers appears iff several actions are not led by a delegate |
| ExecAction.ExtractArgs | apps/frontend/src/components/txns/txn/execution/action.tsx:35-54 | other kinds show the args record and have arguments iff it is non-empty; a call with arguments reads `method_name`, `args_base64` and shows `args_json` |
| ExecAction.AsString | apps/frontend/src/components/txns/txn/execution/action.tsx:43-56 | a method name is a string only when the JSON value is one |
| ExecAction.RawCode | apps/frontend/src/components/txns/txn/execution/action.tsx:61 | raw args, else "Loading..." while loading, else "No data" |
| ExecAction.AutoCode | apps/frontend/src/components/txns/txn/execution/action.tsx:58-60 | the pretty-printed un-escaped arguments when there are any, else `argsBase64` |
| ExecAction.DisplayCode | apps/frontend/src/components/txns/txn/execution/action.tsx:61-62 | raw mode shows the raw code, auto mode the auto code |
| ExecAction.ActionBody | apps/frontend/src/components/txns/txn/execution/action.tsx:82-113 | the Aurora viewer iff Aurora with truthy base64; otherwise a code viewer iff the display code is truthy, holding exactly that code, with the toolbar iff the method is truthy; nothing in every other case |
| ExecAction.RawModeShowsCode | apps/frontend/src/components/txns/txn/execution/action.tsx:61-85 | in raw mode a code viewer shows unless the Aurora viewer does, provided the raw args are absent or non-empty; raw args "" show nothing |
| ExecAction.AutoModeShowsCode | apps/frontend/src/components/txns/txn/execution/action.tsx:56-85 | in auto mode, with arguments: the Aurora viewer or a code viewer of the pretty-printed un-escaped args; without: nothing exactly when `argsBase64` is falsy |
| ExecAction.RpcContext.constructor | apps/frontend/src/components/txns/txn/execution/action.tsx:32 | the context's data and loading flag, no fetch requested |
| ExecAction.RpcContext.EnableRpc | apps/frontend/src/components/txns/txn/execution/action.tsx:67 | one more fetch request, data unchanged |
| ExecAction.ArgsViewState.constructor | apps/frontend/src/components/txns/txn/execution/action.tsx:33 | starts in auto mode |
| ExecAction.ArgsViewState.OnAutoClick | apps/frontend/src/components/txns/txn/execution/action.tsx:93 | auto mode, no fetch |
| ExecAction.ArgsViewState.OnRawClick | apps/frontend/src/components/txns/txn/execution/action.tsx:64-69 | raw mode; a fetch is requested exactly when no data is there |
| ReceiptActionView.HasArgs | apps/frontend/src/components/txns/txn/execution/receipt-action.tsx:34-37 | only a non-null object can have args: a record iff it has a key, an array iff it has an element; such a value is truthy |
| ReceiptActionView.IsAurora | apps/frontend/src/components/txns/txn/execution/receipt-action.tsx:47 | true iff the receiver is "aurora" and the action is a function call whose `method_name` is the string "submit", "submit_with_args" or "rlp_execute" |
| ReceiptActionView.MethodName | apps/frontend/src/components/txns/txn/execution/receipt-action.tsx:39-45 | defined only for a function call whose args record has `method_name`, and then that value |
| ReceiptActionView.ArgsBase64 | apps/frontend/src/components/txns/txn/execution/receipt-action.tsx:54-58 | read only for Aurora actions, null otherwise |
| ReceiptActionView.AuroraExplorerUrl | apps/frontend/src/components/txns/txn/execution/receipt-action.tsx:48-51 | the mainnet explorer iff the network is "mainnet", else the testnet one |
| ReceiptActionView.CanonicalIndex | apps/frontend/src/components/txns/txn/execution/receipt-action.tsx:60 | a property key reaches an array element only when written as a canonical decimal |
| ReceiptActionView.KeyCoercion | apps/frontend/src/components/txns/txn/execution/receipt-action.tsx:60 | the method name is coerced with `String()` as a property key: "1", `2`, `["0"]` and `[1]` reach an element; "01", "ft_transfer", `-1`, `true`, `null`, a record and `undefined` do not; "length" and `["length"]` read the array's length |
| ReceiptActionView.RawArgsAsWritten | apps/frontend/src/components/txns/txn/execution/utils.ts:51-70 | as written, with the method name as the index: throws iff the key prints "length" and the receipt has a non-empty action list (`'FunctionCall' in` a number); the action at a key that prints as an index; null for any other key |
| ReceiptActionView.RawArgsAsWrittenMisses | apps/frontend/src/components/txns/txn/execution/receipt-action.tsx:60 | a receipt calling `ft_transfer` with args "e30=": the lookup as written finds nothing, the lookup by the action's index 0 finds "e30=" |
| ReceiptActionView.RepeatedMethodByIndex | apps/frontend/src/components/txns/txn/execution/receipt-block.tsx:200-207 | two calls of the same method: the lookup by the index `i` of `actions.map` gives each action its own raw args |
| ReceiptActionView.AutoCode | apps/frontend/src/components/txns/txn/execution/receipt-action.tsx:62-64 | the pretty-printed un-escaped args when there are any, else "" |
| ReceiptActionView.ReceiptBody | apps/frontend/src/components/txns/txn/execution/receipt-action.tsx:34-111 | given line 60's lookup result: the Aurora viewer iff Aurora with truthy base64 (with the network's explorer); otherwise a code viewer iff the action has args, whose raw-mode code is `rawArgs ?? (rpcLoading ? "Loading..." : "No data")` and whose auto-mode code is the auto code |
| ReceiptActionView.ReceiptViewAsWritten | apps/frontend/src/components/txns/txn/execution/receipt-action.tsx:60-111 | the component as written: the render throws exactly when line 60's lookup throws, in either mode; otherwise the body built from the lookup's value |
| ReceiptActionView.AsWrittenRawViewEmpty | apps/frontend/src/components/txns/txn/execution/receipt-action.tsx:60-66 | as written, a call whose method name does not print as an index throws in either mode exactly when the name reads `length` of a non-empty action list, and otherwise shows only "Loading..." or "No data" in raw mode |
| ReceiptActionView.RawViewAt | apps/frontend/src/components/txns/txn/execution/receipt-action.tsx:60-66 | corrected: with the lookup by the action's position, raw mode shows the raw args of the FunctionCall at that position of the RPC receipt |
| ReceiptActionView.RawViewMisses | apps/frontend/src/components/txns/txn/execution/receipt-action.tsx:60-66 | the counterexample on the view: "No data" as written, "e30=" by index |
| ReceiptActionView.LengthLookup | apps/frontend/src/components/txns/txn/execution/utils.ts:64-66 | the key "length" throws on a receipt with an action and gives null on one without |
| ReceiptActionView.LengthMethodThrows | apps/frontend/src/components/txns/txn/execution/receipt-action.tsx:60 | a call of a method named "length": the render throws in either mode once the RPC data holds its actions; with no actions, raw mode shows "No data" |
| AuroraView.RawDataOf | apps/frontend/src/components/txns/txn/execution/aurora.tsx:50-61 | the base64 text for the submit methods; otherwise the parsed JSON when the text decodes and parses, and the text when either step throws |
| AuroraView.ObjectDecoded | apps/frontend/src/components/txns/txn/execution/aurora.tsx:70-72 | raw data that is a JSON record is decoded as an `rlp_execute` payload; any other raw data (text, array, scalar) gives null |
| AuroraView.RlpDecoded | apps/frontend/src/components/txns/txn/execution/aurora.tsx:63-74 | rlp_execute decodes record raw data and gives null for any other; a method that is none of the three Aurora names gives null |
| AuroraView.SubmitKindsDecoded | apps/frontend/src/components/txns/txn/execution/aurora.tsx:64-69 | submit and submit_with_args go to their own decoders, whatever the raw data |
| AuroraView.DisplayData | apps/frontend/src/components/txns/txn/execution/aurora.tsx:76 | the decoding in "rlp" format when there is one, else the raw data |
| AuroraView.Code | apps/frontend/src/components/txns/txn/execution/aurora.tsx:77-79 | the serialised display, "" when it is falsy |
| AuroraView.PaneOf | apps/frontend/src/components/txns/txn/execution/aurora.tsx:81-88 | the table iff "table" format and a decoding; else the code pane when the code is non-empty |
| AuroraView.DefaultShowsRaw | apps/frontend/src/components/txns/txn/execution/aurora.tsx:50-88 | in "default" format a submit payload is shown as its raw text |
| AuroraView.TextShown | apps/frontend/src/components/txns/txn/execution/aurora.tsx:76-88 | in "default" format non-empty raw text is what the code pane shows |
| AuroraView.DecodedSubmitShown | apps/frontend/src/components/txns/txn/execution/aurora.tsx:63-88 | a submit payload that decodes is shown decoded in the initial "rlp" format |
| AuroraView.DecodedShown | apps/frontend/src/components/txns/txn/execution/aurora.tsx:76-88 | a decoding is shown as code in "rlp" format and as a table in "table" format |
| AuroraView.AuroraViewerState.constructor | apps/frontend/src/components/txns/txn/execution/aurora.tsx:47-48 | the format starts as "rlp", not full height |
| AuroraView.AuroraViewerState.SetFormat | apps/frontend/src/components/txns/txn/execution/aurora.tsx:47 | sets the format only |
| AuroraView.AuroraViewerState.ToggleFullHeight | apps/frontend/src/components/txns/txn/execution/aurora.tsx:48 | flips the height flag only |
| AuroraArgsView.RawDataOf | apps/frontend/src/components/txns/txn/execution/aurora-args-viewer.tsx:33-44 | `{tx_bytes_b64: text}` for submit kinds; otherwise the parsed JSON when the text decodes and parses, and that wrapper when either step throws |
| AuroraArgsView.RlpDecoded | apps/frontend/src/components/txns/txn/execution/aurora-args-viewer.tsx:46-59 | a submit-kind decoding wrapped as `{tx_bytes_b64: parsed}`, null on failure; rlp_execute decodes the raw data; other methods give null |
| AuroraArgsView.DisplayData | apps/frontend/src/components/txns/txn/execution/aurora-args-viewer.tsx:61 | the decoding in "rlp" format when there is one, else the raw data |
| AuroraArgsView.TableData | apps/frontend/src/components/txns/txn/execution/aurora-args-viewer.tsx:63-70 | null iff nothing decoded; otherwise the inner `tx_bytes_b64` value when it is truthy and object-like, else the decoding itself; never a scalar |
| AuroraArgsView.TableUnwraps | apps/frontend/src/components/txns/txn/execution/aurora-args-viewer.tsx:63-70 | the table undoes the `{tx_bytes_b64: …}` wrapping |
| AuroraArgsView.TableUnwrapsSubmit | apps/frontend/src/components/txns/txn/execution/aurora-args-viewer.tsx:46-70 | a decoded submit payload's table is the transaction record itself |
| AuroraArgsView.TableUnwrapsSubmitWithArgs | apps/frontend/src/components/txns/txn/execution/aurora-args-viewer.tsx:46-70 | the same for submit_with_args |
| AuroraArgsView.TableUnwrapsRlpExecute | apps/frontend/src/components/txns/txn/execution/aurora-args-viewer.tsx:46-70 | a decoded rlp_execute payload's table is the transaction record parsed from its `tx_bytes_b64` |
| AuroraArgsView.Code | apps/frontend/src/components/txns/txn/execution/aurora-args-viewer.tsx:72-74 | the serialised display, "" when it is falsy |
| AuroraArgsView.RlpHashLink | apps/frontend/src/components/txns/txn/execution/aurora-args-viewer.tsx:78 | the Aurora Tx link iff the hash is truthy, pointing at explorer + "/tx/" + hash |
| AuroraArgsView.PaneOf | apps/frontend/src/components/txns/txn/execution/aurora-args-viewer.tsx:96 | the table iff "table" format and table data; else a code pane iff the code is non-empty, holding that code |
| AuroraArgsView.FormatState.constructor | apps/frontend/src/components/txns/txn/execution/aurora-args-viewer.tsx:31 | the format starts as "rlp" |
| AuroraArgsView.FormatState.SetFormat | apps/frontend/src/components/txns/txn/execution/aurora-args-viewer.tsx:31 | sets the format |
| Logs.Rewritten | apps/frontend/src/components/txns/txn/execution/logs.tsx:8-12 | never longer; text without a backslash is unchanged |
| Logs.Unescaped | apps/frontend/src/components/txns/txn/execution/logs.tsx:8-12 | the rewritten text is trimmed: no whitespace at either end, never longer |
| Logs.Beautify | apps/frontend/src/components/txns/txn/execution/logs.tsx:7-19 | the re-serialised JSON when the unescaped text parses, else that text |
| Logs.LogDisplay | apps/frontend/src/components/txns/txn/execution/logs.tsx:27-31 | the "EVENT_JSON:" prefix is removed before beautifying |
| Logs.ReceiptLogs | apps/frontend/src/components/txns/txn/execution/logs.tsx:21-37 | no logs give one empty viewer; otherwise one display per log, in order |
| Logs.EventPayloadShown | apps/frontend/src/components/txns/txn/execution/logs.tsx:27-31 | an event log shows exactly its payload's beautification |
| Logs.PlainTextUnchanged | apps/frontend/src/components/txns/txn/execution/logs.tsx:7-19 | trimmed text without backslashes that is not JSON is shown unchanged |
| Logs.NoEscapeLeft | apps/frontend/src/components/txns/txn/execution/logs.tsx:9-11 | after a rewrite no `\c` pair of that kind remains |
| Logs.DoubleEscapedQuote | apps/frontend/src/components/txns/txn/execution/logs.tsx:11 | `\\"` is shown as `\"` |
| TxnBadges.TxnStatus | apps/frontend/src/components/txn.tsx:25-42 | null is Pending, true Success, false Failed, each with its colour |
| TxnBadges.TxnStatusIcon | apps/frontend/src/components/txn.tsx:44-61 | the same three-way split for the icon |
| TxnBadges.StatusAndIconAgree | apps/frontend/src/components/txn.tsx:25-61 | the badge and the icon agree in colour and meaning |
| TxnBadges.TxnDirection | apps/frontend/src/components/txn.tsx:81-93 | with an amount: zero SELF, positive IN, negative OUT; without: from = to SELF, address = from OUT, else IN |
| TxnBadges.SwapFlipsDirection | apps/frontend/src/components/txn.tsx:88-92 | without an amount, the sender sees OUT and the receiver IN |
| Transfers.Visible | apps/frontend/src/components/txns/txn/transfers/ft.tsx:31 | a row is hidden exactly when its delta is not positive and it has a counterparty |
| Transfers.Keep | apps/frontend/src/components/txns/txn/transfers/ft.tsx:28-34 | a filter keeps only passing elements of the input |
| Transfers.KeepCounts | apps/frontend/src/components/txns/txn/transfers/ft.tsx:28-34 | the filter keeps every passing element as often as it occurs and drops the rest |
| Transfers.AllFts | apps/frontend/src/components/txns/txn/transfers/ft.tsx:28-34 | the "all" list holds exactly the fts with delta > 0 or no counterparty |
| Transfers.MtPartition | apps/frontend/src/components/txns/txn/transfers/mt.tsx:34-52 | `ftLike` and `nftLike` together are exactly the visible MTs, each as often as in the input |
| Transfers.MtPanelsOf | apps/frontend/src/components/txns/txn/transfers/mt.tsx:54-150 | the tabs show iff some MT is fungible-like; the NFT list iff some is NFT-like |
| Transfers.FtKey | apps/frontend/src/components/txns/txn/transfers/ft.tsx:39 | the account, a colon, the contract; for a colon-free account the first colon ends the account |
| Transfers.MtKey | apps/frontend/src/components/txns/txn/transfers/mt.tsx:60 | the account, a colon, then contract ":" token; colon-free account and contract put the first colon of each part right after them |
| Transfers.FtKeyInjective | apps/frontend/src/components/txns/txn/transfers/ft.tsx:39 | distinct (account, contract) pairs get distinct keys |
| Transfers.MtKeyInjective | apps/frontend/src/components/txns/txn/transfers/mt.tsx:60 | distinct (account, contract, token) triples get distinct keys |
| Transfers.AggregateKeys | apps/frontend/src/components/txns/txn/transfers/ft.tsx:36-53 | one net entry per distinct key seen |
| Transfers.AggregateSums | apps/frontend/src/components/txns/txn/transfers/ft.tsx:40-50 | each net delta is the sum of all deltas under its key, hidden rows included |
| Transfers.AggregateTotal | apps/frontend/src/components/txns/txn/transfers/ft.tsx:36-54 | the net deltas add up to the input deltas |
| Transfers.AggregateFirst | apps/frontend/src/components/txns/txn/transfers/ft.tsx:44-50 | apart from its delta, each entry comes from the first transfer under its key |
| Transfers.AggregateOrder | apps/frontend/src/components/txns/txn/transfers/ft.tsx:36-53 | entries follow the first occurrence of their keys |
| Transfers.Put | apps/frontend/src/components/txns/txn/transfers/ft.tsx:40-51 | one loop step keeps the map and its insertion order equal to the fold |
| Transfers.Values | apps/frontend/src/components/txns/txn/transfers/ft.tsx:53 | `Array.from(map.values())` gives the entries in insertion order |
| Transfers.NetFts | apps/frontend/src/components/txns/txn/transfers/ft.tsx:36-54 | the loop's result is the grouped fold over all fts |
| Transfers.NetMts | apps/frontend/src/components/txns/txn/transfers/mt.tsx:56-75 | the loop's result is the grouped fold over the MTs with decimals |
| Transfers.NetLabel | apps/frontend/src/components/txns/txn/transfers/ft.tsx:103 | "received" iff delta ≥ 0, "sent" iff negative |
| Transfers.SectionOf | apps/frontend/src/components/txns/txn/transfers/index.tsx:39-111 | a section shows iff loading or its list is non-empty; its badge shows once loaded |
| Transfers.MtBadgeCountsVisible | apps/frontend/src/components/txns/txn/transfers/index.tsx:23-35 | the MT badge equals the number of visible MTs |
| Transfers.FtBadgeCountsRows | apps/frontend/src/components/txns/txn/transfers/index.tsx:55-60 | the FT badge counts the rows of the "all" tab |
| TransferSummary.KindOf | apps/frontend/src/components/txns/txn/transfers/transfer.tsx:23-25 | "MINT" is mint, "BURN" burn, anything else transfer |
| TransferSummary.TransferIcon | apps/frontend/src/components/txns/txn/transfers/transfer.tsx:55-67 | Mint, Burn and Transfer captions, each with its own glyph |
| TransferSummary.Parties | apps/frontend/src/components/txns/txn/transfers/transfer.tsx:31-50 | mint "For affected", burn "From affected", transfer "From involved To affected" |
| TransferSummary.AffectedLinkedLast | apps/frontend/src/components/txns/txn/transfers/transfer.tsx:31-50 | the affected account is always linked, and last |
| Intents.ParseTokenPattern | apps/backend/src/services/mts/intents.ts:26-40 | every result is well formed: a non-empty colon-free contract, a token exactly for NEP-171/245 |
| Intents.ParseRenders | apps/backend/src/services/mts/intents.ts:26-39 | joining a result's parts with ":" gives the input back |
| Intents.RenderParses | apps/backend/src/services/mts/intents.ts:26-39 | every well-formed pattern parses back from its text |
| Intents.TokenRules | apps/backend/src/services/mts/intents.ts:27-38 | "nep141:a:b", "nep171:a" and "nep171:a:" give null; the token may hold colons |
| Intents.ToStr | apps/backend/src/services/mts/intents.ts:42-43 | null for null and undefined, else `String(val)` |
| Intents.DispatchOf | apps/backend/src/services/mts/intents.ts:347-372 | no call when the pattern is null; NEP-141 to the FT copy, NEP-171 to the NFT copy, NEP-245 to the MT copy |
| Intents.CopyExternalTokenMeta | apps/backend/src/services/mts/intents.ts:343-380 | false without any copy for a null pattern; true iff the chosen copy succeeds |
| SafeJson.CircularMarker | apps/frontend/src/lib/json.ts:53-59 | "[Circular]" without trace, "[Circular *]" for the root, "[Circular *path]" otherwise |
| SafeJson.ChildPath | apps/frontend/src/lib/json.ts:68-76 | the bare key under the root, else parent + "." + key |
| SafeJson.NarrowBigInt | apps/frontend/src/lib/json.ts:35-40 | a number within ±(2^53−1), else the decimal string |
| SafeJson.SerializedItems | apps/frontend/src/lib/json.ts:66-71 | array elements are serialised in order, at their child paths, with the array on the ancestor chain |
| SafeJson.SerializedProps | apps/frontend/src/lib/json.ts:73-83 | record properties are serialised in order under their keys, at their child paths |
| SafeJson.ToJsonFirst | apps/frontend/src/lib/json.ts:31-33 | a value with `toJSON` is replaced by its result before anything else |
| SafeJson.Primitives | apps/frontend/src/lib/json.ts:42-48 | null and undefined become null; booleans, numbers and strings pass through |
| SafeJson.ShapeKept | apps/frontend/src/lib/json.ts:66-84 | arrays keep their length and records their keys, in order |
| SafeJson.PathIrrelevant | apps/frontend/src/lib/json.ts:25-89 | without trace the result does not depend on the paths recorded |
| SafeJson.SelfReference | apps/frontend/src/lib/json.ts:52-59 | a record holding itself gives the marker in place of the inner reference |
| SafeJson.TracedPath | apps/frontend/src/lib/json.ts:57-59 | with trace the marker names the path where the ancestor was entered |
| SafeJson.SharedNotCircular | apps/frontend/src/lib/json.ts:62-86 | a shared object that is not an ancestor is written in full each time |
| SafeJson.Serializer.constructor | apps/frontend/src/lib/json.ts:95 | an empty `seen` map |
| SafeJson.Serializer.SerializeValue | apps/frontend/src/lib/json.ts:25-89 | the result is the specification's, and `seen` is restored on exit |
| SafeJson.Serializer.SerializeItems | apps/frontend/src/lib/json.ts:66-71 | the mapped array, with `seen` unchanged |
| SafeJson.Serializer.SerializeProps | apps/frontend/src/lib/json.ts:73-83 | the filled record, with `seen` unchanged |
| SafeJson.SafeStringifyImpl | apps/frontend/src/lib/json.ts:91-98 | serialises from a fresh `seen` and stringifies the result |
| Zod.Kept | apps/frontend/src/lib/zod.ts:26-29 | symbols are dropped, strings and numbers kept |
| Zod.SymbolDropped | apps/frontend/src/lib/zod.ts:26-29 | a symbol anywhere in a path changes nothing |
| Zod.FormatShape | apps/frontend/src/lib/zod.ts:30-36 | the first kept segment is written bare, later strings as ".key" and numbers as "[n]" |
| Zod.FormatExamples | apps/frontend/src/lib/zod.ts:24-36 | `items[0].name`; `3.a` for a leading number; an empty first key vanishes |
| Zod.Record | apps/frontend/src/lib/zod.ts:39-55 | one issue adds its path and leaves every other path's error unchanged |
| Zod.FirstWins | apps/frontend/src/lib/zod.ts:41-43 | without "all", each path reports its first issue |
| Zod.AllCollects | apps/frontend/src/lib/zod.ts:45-55 | with "all", message and type come from the last issue at the path, and `types` maps each code to its last message |
| Zod.CollectErrors | apps/frontend/src/lib/zod.ts:38-56 | the `forEach` loop computes the fold |
| Zod.Resolve | apps/frontend/src/lib/zod.ts:14-59 | success gives no errors and the data; failure gives empty values and an error for exactly the issues' paths |
| Zod.ErrorPaths | apps/frontend/src/lib/zod.ts:38-56 | the error record's paths are exactly the issues' paths |
| ContractForm.Payload.constructor | apps/frontend/src/lib/schema/contract.ts:3-4 | the payload's value and issues |
| ContractForm.Payload.Push | apps/frontend/src/lib/schema/contract.ts:9-14 | appends one issue |
| ContractForm.Custom | apps/frontend/src/lib/schema/contract.ts:9-25 | a "custom" issue with that message, at the root or the named field |
| ContractForm.JsonIssues | apps/frontend/src/lib/schema/contract.ts:3-16 | no issue iff the text is blank or parses; otherwise "Invalid JSON format" |
| ContractForm.ValidateJson | apps/frontend/src/lib/schema/contract.ts:3-16 | pushes exactly those issues |
| ContractForm.NonEmptyIssues | apps/frontend/src/lib/schema/contract.ts:18-27 | only "" fails, with "Method is required"; spaces pass |
| ContractForm.ValidateNonEmpty | apps/frontend/src/lib/schema/contract.ts:18-27 | pushes exactly those issues |
| ContractForm.IsDecimalNumber | apps/frontend/src/lib/schema/contract.ts:51-67 | `^\d+(\.\d+)?$` accepts exactly the digit strings and the digit strings with one inner dot |
| ContractForm.DecimalNumberChars | apps/frontend/src/lib/schema/contract.ts:51-67 | an accepted number starts and ends with a digit, holds only digits and '.', and at most one dot |
| ContractForm.DecimalNumberExamples | apps/frontend/src/lib/schema/contract.ts:51-67 | "30", "0.25" pass; "", "1.", ".5", "-1", "1e3", " 1", "1.2.3" fail |
| ContractForm.AmountIssues | apps/frontend/src/lib/schema/contract.ts:44-74 | no issue iff the value is a decimal number; else "… is required" when blank, "Must be a valid number" otherwise, at the field |
| ContractForm.DecimalNotBlank | apps/frontend/src/lib/schema/contract.ts:44-58 | an accepted number is never blank |
| ContractForm.BlockIdIssues | apps/frontend/src/lib/schema/contract.ts:77-86 | "Block ID is required" iff view mode by block id with a blank id |
| ContractForm.CheckAmount | apps/frontend/src/lib/schema/contract.ts:44-74 | pushes exactly the amount issues |
| ContractForm.CheckBlockId | apps/frontend/src/lib/schema/contract.ts:77-86 | pushes exactly the block-id issues |
| ContractForm.CheckForm | apps/frontend/src/lib/schema/contract.ts:40-87 | pushes exactly the form issues, in order |
| ContractForm.FormValid | apps/frontend/src/lib/schema/contract.ts:40-87 | the form passes iff change mode has valid gas and deposit, and view mode by block id has a non-blank id |
| ContractForm.ModesSeparate | apps/frontend/src/lib/schema/contract.ts:43-77 | view mode never reports gas or deposit; change mode never reports the block id |
| Proxy.Decide | apps/frontend/src/proxy.ts:6-32 | data requests pass; the default locale's prefix is redirected away (to "/" when bare); other locales pass; anything else is rewritten under the default locale |
| Proxy.NextUrl.constructor | apps/frontend/src/proxy.ts:7 | the request's pathname |
| Proxy.Run | apps/frontend/src/proxy.ts:6-32 | the response and the pathname written match the decision |
| Proxy.OnePrefixStripped | apps/frontend/src/proxy.ts:15-19 | "/{default}/rest" goes to "/rest": exactly one prefix is removed |
| Proxy.RouteExamples | apps/frontend/src/proxy.ts:9-31 | concrete routes; "/english" is rewritten, not taken as "en" |
| TokenView.StripTrailingSlashes | apps/frontend/src/components/token.tsx:43 | removes exactly the trailing slashes |
| TokenView.ResolveUrl | apps/frontend/src/components/token.tsx:35-45 | absolute paths kept; with a base, stripped base + "/" + path; else the IPFS gateway + path |
| TokenView.OneSlash | apps/frontend/src/components/token.tsx:43 | however many slashes end the base, one separates it from the path |
| TokenView.ToUrl | apps/frontend/src/components/token.tsx:145-146 | keeps "https…" and "data:image/…", anything else is the placeholder |
| TokenView.ToUrlIdempotent | apps/frontend/src/components/token.tsx:145-146 | applying twice is applying once |
| TokenView.HttpRejected | apps/frontend/src/components/token.tsx:145-146 | "http://…" is replaced by the placeholder |
| TokenView.TokenImage.constructor | apps/frontend/src/components/token.tsx:149 | the URL starts as `toUrl(src)` |
| TokenView.TokenImage.SrcChanged | apps/frontend/src/components/token.tsx:151-153 | a new source resets the URL |
| TokenView.TokenImage.OnError | apps/frontend/src/components/token.tsx:155-157 | a load error sets the placeholder |
| TokenView.ReferenceMedia | apps/frontend/src/components/token.tsx:59-76 | a URL iff the hash is absent or matches and the media is truthy, resolved against the base |
| TokenView.NftMedia.constructor | apps/frontend/src/components/token.tsx:86-87 | the placeholder, loading |
| TokenView.NftMedia.Resolve | apps/frontend/src/components/token.tsx:89-128 | loading ends; media wins and is resolved; else a resolved reference; else the source is unchanged |
| TokenView.DropMinus | apps/frontend/src/components/token.tsx:173 | removes one leading '-' only |
| TokenView.TokenAmount | apps/frontend/src/components/token.tsx:164-183 | lime iff the amount is positive; "+" only then and without hideSign; hideSign drops one minus |
| TokenView.HideSignDropsOneMinus | apps/frontend/src/components/token.tsx:173 | the text is the formatted amount or it with one '-' removed; "--5" shows "-5" |
| Profile.ToSocialUrl | apps/frontend/src/components/tokens/token/profile.tsx:19-22 | a full URL is kept, anything else goes under the base |
| Profile.SocialUrlStable | apps/frontend/src/components/tokens/token/profile.tsx:19-22 | each network's base is a full URL, so resolving twice changes nothing |
| Profile.SocialLinks | apps/frontend/src/components/tokens/token/profile.tsx:110-167 | a link per network iff its field is truthy, pointing at `toSocialUrl(value, base)`; no other links; in the order X, Facebook, Telegram, Reddit |
| Profile.SocialsShownIffLinks | apps/frontend/src/components/tokens/token/profile.tsx:34-38 | `hasSocials` iff there is at least one link |
| Profile.DecimalsCell | apps/frontend/src/components/tokens/token/profile.tsx:67-71 | "N/A" only for null decimals, else the number |
| Profile.ZeroDecimalsShown | apps/frontend/src/components/tokens/token/profile.tsx:67-71 | zero decimals show "0" |
| Profile.WebsiteCell | apps/frontend/src/components/tokens/token/profile.tsx:86-97 | the website iff it is truthy |
| TokenList.BalanceMap | apps/frontend/src/lib/token.ts:15-17 | the keys are exactly the cached contracts |
| TokenList.LastEntryWins | apps/frontend/src/lib/token.ts:15-17 | with duplicates the last cache entry decides |
| TokenList.MergeTokens | apps/frontend/src/lib/token.ts:7-31 | [] for no tokens; else one output per input in order, with contract, metadata and value from that input |
| TokenList.PriceIgnoresCache | apps/frontend/src/lib/token.ts:20-23 | the value never depends on the cache |
| TokenList.UncachedKeepsAmount | apps/frontend/src/lib/token.ts:27 | an uncached contract keeps its own amount |
| TokenList.CachedAmount | apps/frontend/src/lib/token.ts:15-27 | a contract whose last cache entry has a non-null balance shows that balance, whatever earlier entries say |
| TokenList.CachedNullKeepsAmount | apps/frontend/src/lib/token.ts:15-27 | a contract whose last cache entry has a null balance keeps the row's own amount (the `??` fallback) |
| TokenList.CompareIsOrder | apps/frontend/src/lib/token.ts:36-49 | the comparator says "not after" exactly when higher value comes first, and among valueless tokens the larger amount |
| TokenList.SumPermutation | apps/frontend/src/lib/token.ts:51-55 | reordering does not change the total value |
| TokenList.InsertDown | apps/frontend/src/lib/token.ts:36-49 | one insertion step extends the sorted prefix and permutes the array |
| TokenList.SortTokens | apps/frontend/src/lib/token.ts:33-56 | the same array, sorted by the comparator, a permutation of the input, with the total value returned |
| Settings.FlipTimestamp | apps/frontend/src/stores/settings.ts:44-47 | always the other mode |
| Settings.FlipUtc | apps/frontend/src/stores/settings.ts:48-51 | always the other mode |
| Settings.SettingsStore.constructor | apps/frontend/src/stores/settings.ts:37-41 | not hydrated, the given provider, no providers, "age" and "utc" |
| Settings.SettingsStore.SetHydrated | apps/frontend/src/stores/settings.ts:42 | changes `hydrated` only |
| Settings.SettingsStore.SetProvider | apps/frontend/src/stores/settings.ts:43 | changes `provider` only |
| Settings.SettingsStore.ToggleTimestampMode | apps/frontend/src/stores/settings.ts:44-47 | flips the timestamp mode only |
| Settings.SettingsStore.ToggleUtcMode | apps/frontend/src/stores/settings.ts:48-51 | flips the UTC mode only |
| Settings.SettingsStore.Rehydrated | apps/frontend/src/stores/settings.ts:56-61 | a supplied state becomes hydrated even after an error |
| Settings.SettingsStore.Partialize | apps/frontend/src/stores/settings.ts:62-67 | exactly provider, providers and the two modes |
| Settings.TogglesInvolutive | apps/frontend/src/stores/settings.ts:44-51 | each toggle undoes itself |
| Settings.HydratedNotPersisted | apps/frontend/src/stores/settings.ts:62-67 | the persisted state does not depend on `hydrated` |
| Settings.ToggleTwice | apps/frontend/src/stores/settings.ts:44-51 | two clicks of each toggle restore the whole store |
| DataTable.FilterOf | apps/frontend/src/components/data-table.tsx:96-100 | the caption is the header when it is text, else the filter name; the value is the search parameter |
| DataTable.ActiveFilters | apps/frontend/src/components/data-table.tsx:91-100 | never more chips than columns |
| DataTable.ActiveFiltersExact | apps/frontend/src/components/data-table.tsx:91-100 | the chips are exactly those of the columns with a filter, a name and a truthy parameter |
| DataTable.ActiveFiltersInOrder | apps/frontend/src/components/data-table.tsx:91-100 | chips keep column order: the chips of two column lists in a row are the first list's followed by the second's |
| DataTable.ChipCount | apps/frontend/src/components/data-table.tsx:91-100 | one chip per active column |
| DataTable.HandlerOf | apps/frontend/src/components/data-table.tsx:86-89 | a missing handler becomes a no-op |
| DataTable.ChipClick | apps/frontend/src/components/data-table.tsx:122 | calls `onClear` only when given, with exactly `{name: undefined}` |
| DataTable.RowKey | apps/frontend/src/components/data-table.tsx:177 | `getRowKey(row)` when given, else the row index in decimal |
| DataTable.DefaultKeysDistinct | apps/frontend/src/components/data-table.tsx:177 | default keys of different rows differ |
| DataTable.PageLink | apps/frontend/src/components/data-table.tsx:221-242 | a link needs its cursor and the navigate callback, and targets what the callback returns |
| DataTable.LinksNeedBar | apps/frontend/src/components/data-table.tsx:198-242 | after loading, a link appears only inside a shown pagination bar |
| DataTable.EmptyBoxOnlyLoaded | apps/frontend/src/components/data-table.tsx:195 | the empty box needs loaded data of length 0 |
| DataTable.TopBar | apps/frontend/src/components/data-table.tsx:111-114 | the bar shows with a header or chips; the chips only once loading is over |

## Left out

- The React rendering, styling and layout are not part of this model. So are the network, RPC and database plumbing.
- The live-node fetch (`use-rpc`, execution context) is left out. It is the `rpcData`/`rpcLoading` inputs and an `enableRpc` request counter.
- `verifyReferenceHash`, `fetch` and `crypto.subtle` are I/O. The hash match and the fetched media are parameters of `TokenView.ReferenceMedia` and `TokenView.NftMedia.Resolve`.
- AuroraView.Code, AuroraArgsView.Code: the serialiser is the stringifier parameter, not SafeJson.SafeStringify. The displayed values are JSON trees without cycles, `toJSON` or BigInts; on such a value `safeStringify` writes what `JSON.stringify` writes. The embedding of a Json tree into a heap, and a proof of that, are not part of this model.
- ReceiptActionView.ReceiptBody: takes line 60's lookup result as a parameter. ReceiptViewAsWritten builds the component as written, including the throw; RawViewAt states the view with the lookup by the action's position.
- `JSON.parse`, `JSON.stringify`, ethers' `Transaction.from`, `toTokenPrice`, `nearFormat` and `Number()` are foreign code. They are function parameters; nothing is assumed about them beyond "never empty" for the stringifier and "results are smaller than their text" for the parser.
- The metadata copy routines of the backend are knex transactions. They are the `run` parameter of `Intents.CopyExternalTokenMeta`; a routine that throws gives false.
- `toPlainObject` reflects over prototype getters. `Evm.ToPlainObject` receives that reflection as an explicit list of getter and own fields.
- `aurora-args-viewer.tsx` imports three names from `./utils` (lines 12-16: `decodeRlpExecuteTransaction`, `decodeSubmitTransaction`, `decodeSubmitWithArgsTransaction`) that `utils.ts` does not define; it exports `decodeRlpExecute`, `decodeSubmit` and `decodeSubmitWithArgs` instead. The viewer is modelled with `ExecUtils.DecodeRlpExecute`, `ExecUtils.DecodeSubmit` and `ExecUtils.DecodeSubmitWithArgs` in their place, with the same null-on-failure contract.
- JavaScript numbers are modelled as exact integers or reals: no NaN, rounding or floating point. `TokenList.SortTokens` and `TokenView.TokenAmount` take `Number()`/unary `+` as parameters.
- `ExecUtils.DeepUnescape` does not model object key order changes from `Object.entries`/`Object.fromEntries` for integer-like keys. It keeps the record's own field order.
- `Json.Get`: a record may hold a key twice; `Get` returns the first field with that key, while `JSON.parse` keeps the last. The parser is a parameter and is not constrained to produce distinct keys.
- `Logs.ReceiptLogs` receives each log already coerced by `String(log)`; the coercion of non-string values is not modelled.
- `Transfers`: a `BigInt()` of a malformed `delta_amount` throws in the source; the model takes deltas as integers.
- `SafeJson`: functions, symbols and class instances are not modelled; values are JSON-like, with integer numbers and references into a heap. The `indentation` option is passed to the stringifier and not modelled.
- `Zod.Resolve`: the key order of the `errors` and `types` records is not modelled (they are maps). Neither is a path that names an inherited property such as "constructor".
- `ContractForm.CheckForm`: it is modelled as running after the field checks, which the schema does in zod's own order; zod's abort rules between the two are not modelled.
- `TokenList.SortTokens`: `Array.prototype.sort` is modelled by a stable insertion sort. Only sortedness and permutation are stated, not which of several equal orders results.
- `Settings.SettingsStore.Rehydrated`: the merge of the stored state into the store (zustand's `persist`) is not modelled, only the `hydrated` flag. The `console.error` call is left out, and so is the storage backend.
- `Settings`: the RPC provider is an opaque string.
- `Proxy.OnePrefixStripped` requires a default locale that does not start with "_". Such a locale could spell "_next/data" and turn the redirect target into a data request.
- `Proxy`: the `matcher` configuration and the locale dictionaries are left out; the locales are parameters.
- `TokenView.NftMedia`: the `onLoad` handler that also ends loading is not modelled. A relative media path is resolved synchronously, as the source does before its first `await`.
- `AuroraArgsView.RlpHashLink` uses truthiness, so an empty hash shows no link; the source's `rlpHash &&` does the same.
- `DataTable`: the column header's render call through `FilterHelpers` and the skeleton rows are rendering; only the handlers' defaults are modelled.
- The holder-percentage arithmetic, the wallet store, the configuration files and the remaining token, block and address pages are not part of this model.

## Findings

| source | as written | input that shows it | evidently intended | confidence | as-written member | corrected member |
|---|---|---|---|---|---|---|
| apps/frontend/src/components/txns/txn/execution/receipt-action.tsx:60 | `findRawArgs(rpcData, receiptId, methodName)` passes the method name where `utils.ts:51-55` takes a numeric action index, so `actions?.[methodName]` reads a missing property for every ordinary method name, and for a method named "length" reads the action count, on which `'FunctionCall' in` throws | a receipt "r1" whose only action calls `ft_transfer` with raw args "e30=": the lookup gives null and the raw view shows "No data" | the action's own position, as execution/action.tsx:57 passes it and as the index `i` of receipt-block.tsx:200 supplies it; with it each of two calls of one method shows its own args | not executed | ReceiptActionView.RawArgsAsWritten, ReceiptActionView.RawViewMisses | ReceiptActionView.RawViewAt |
