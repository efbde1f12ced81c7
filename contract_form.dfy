/** The contract-call form checks (apps/frontend/src/lib/schema/contract.ts):
    each check appends its issues to the payload being parsed. */
module ContractForm {
  import opened Wrappers
  import opened Strings
  import opened Json
  import opened Zod

  /** What a check receives (`z.core.ParsePayload`): the value and the
      issues recorded so far. */
  class Payload<T> {
    const value: T
    var issues: seq<Issue>

    constructor(value: T, issues: seq<Issue>)
      ensures this.value == value && this.issues == issues
    {
      this.value := value;
      this.issues := issues;
    }

    method Push(issue: Issue)
      modifies this
      ensures issues == old(issues) + [issue]
    {
      issues := issues + [issue];
    }
  }

  /** An issue with code "custom" at a path of property keys. */
  function Custom(field: Option<string>, message: string): (i: Issue)
    ensures i.code == "custom" && i.message == message
    ensures field.None? ==> i.path == []
    ensures field.Some? ==> i.path == [SStr(field.value)]
  {
    Issue(if field.Some? then [SStr(field.value)] else [], message, "custom")
  }

  /** `validateJSON` (lines 3-16): blank text passes; otherwise the text
      itself must parse. */
  function JsonIssues(parse: Parser, val: string): (r: seq<Issue>)
    ensures r == [] <==> AllWhitespace(val) || parse(val).Some?
    ensures r != [] ==> r == [Custom(None, "Invalid JSON format")]
  {
    if Trim(val) == "" then []
    else if parse(val).None? then [Custom(None, "Invalid JSON format")]
    else []
  }

  method ValidateJson(parse: Parser, input: Payload<string>)
    modifies input
    ensures input.issues == old(input.issues) + JsonIssues(parse, input.value)
  {
    var val := input.value;
    if Trim(val) == "" {
      return;
    }
    if parse(val).None? {
      input.Push(Custom(None, "Invalid JSON format"));
    }
  }

  /** `validateNonEmpty` (lines 18-27): only the empty string fails, so a
      method name of spaces is accepted. */
  function NonEmptyIssues(val: string): (r: seq<Issue>)
    ensures r == [] <==> val != ""
    ensures r != [] ==> r == [Custom(None, "Method is required")]
  {
    if |val| < 1 then [Custom(None, "Method is required")] else []
  }

  method ValidateNonEmpty(input: Payload<string>)
    modifies input
    ensures input.issues == old(input.issues) + NonEmptyIssues(input.value)
  {
    if |input.value| < 1 {
      input.Push(Custom(None, "Method is required"));
    }
  }

  /** JavaScript's `\d`: ASCII digits only. */
  predicate IsDigit(c: char) {
    '0' <= c <= '9'
  }

  /** `\d+` */
  predicate Digits(s: string) {
    |s| > 0 && forall i :: 0 <= i < |s| ==> IsDigit(s[i])
  }

  /** `/^\d+(\.\d+)?$/.test(s)` (lines 51, 67): digits, then optionally one
      dot and more digits, up to the end of the text. */
  function IsDecimalNumber(s: string): (b: bool)
    ensures b <==> DecimalShape(s)
  {
    DotSplitShape(s);
    DotSplit(s)
  }

  /** The test split at the first dot: digits before it, digits after it. */
  predicate DotSplit(s: string) {
    var k := IndexOf(s, '.');
    if k == |s| then Digits(s) else Digits(s[..k]) && Digits(s[k + 1..])
  }

  /** The same language stated by where the dot may be. */
  ghost predicate DecimalShape(s: string) {
    Digits(s) || exists k :: 0 < k < |s| - 1 && s[k] == '.' && Digits(s[..k]) && Digits(s[k + 1..])
  }

  lemma DotSplitShape(s: string)
    ensures DotSplit(s) <==> DecimalShape(s)
  {
    var k := IndexOf(s, '.');
    if DecimalShape(s) && !Digits(s) {
      var j :| 0 < j < |s| - 1 && s[j] == '.' && Digits(s[..j]) && Digits(s[j + 1..]);
      FirstDotAt(s, j);
    }
    if DotSplit(s) && k < |s| {
      assert 0 < k < |s| - 1 && s[k] == '.';
    }
  }

  /** A dot after digits only is the first dot. */
  lemma FirstDotAt(s: string, j: nat)
    requires j < |s| && s[j] == '.' && Digits(s[..j])
    ensures IndexOf(s, '.') == j
  {
    var a := s[..j];
    assert Lacks(a, '.') by {
      forall m | 0 <= m < j ensures a[m] != '.' {
        assert IsDigit(a[m]);
      }
    }
    assert s == a + ['.'] + s[j + 1..];
    IndexOfSeparator(a, '.', s[j + 1..]);
  }

  /** An accepted number starts and ends with a digit and holds nothing but
      digits and at most one dot: no sign, exponent, space or trailing dot. */
  lemma DecimalNumberChars(s: string)
    requires IsDecimalNumber(s)
    ensures |s| > 0 && IsDigit(s[0]) && IsDigit(s[|s| - 1])
    ensures forall i :: 0 <= i < |s| ==> IsDigit(s[i]) || s[i] == '.'
    ensures forall i, j :: 0 <= i < j < |s| && s[i] == '.' ==> s[j] != '.'
  {
    var k := IndexOf(s, '.');
    if k < |s| {
      var a, b := s[..k], s[k + 1..];
      assert s == a + ['.'] + b;
      assert s[0] == a[0] && s[|s| - 1] == b[|b| - 1];
      forall i | 0 <= i < |s| && i != k ensures IsDigit(s[i]) {
        if i < k { assert s[i] == a[i]; } else { assert s[i] == b[i - k - 1]; }
      }
    }
  }

  lemma DecimalNumberExamples()
    ensures IsDecimalNumber("30") && IsDecimalNumber("0.25")
    ensures !IsDecimalNumber("") && !IsDecimalNumber("1.") && !IsDecimalNumber(".5")
    ensures !IsDecimalNumber("-1") && !IsDecimalNumber("1e3") && !IsDecimalNumber(" 1") && !IsDecimalNumber("1.2.3")
  {
    PlainNumbers();
    DotAtEdges();
    OtherCharacters();
    TwoDots();
  }

  /** An integer and a fraction. */
  lemma PlainNumbers()
    ensures IsDecimalNumber("30") && IsDecimalNumber("0.25")
  {
    assert IndexOf("30", '.') == 2;
    assert IndexOf("0.25", '.') == 1 && "0.25"[..1] == "0" && "0.25"[2..] == "25";
  }

  /** No digits at all, a sign, an exponent, a space. */
  lemma OtherCharacters()
    ensures !IsDecimalNumber("") && !IsDecimalNumber("-1") && !IsDecimalNumber("1e3") && !IsDecimalNumber(" 1")
  {
    assert "-1"[0] == '-';
    assert "1e3"[1] == 'e';
    assert " 1"[0] == ' ';
  }

  /** A dot with no digits on one side. */
  lemma DotAtEdges()
    ensures !IsDecimalNumber("1.") && !IsDecimalNumber(".5")
  {
    assert IndexOf("1.", '.') == 1 && "1."[2..] == "";
    assert IndexOf(".5", '.') == 0 && ".5"[..0] == "";
  }

  /** A second dot in the fraction. */
  lemma TwoDots()
    ensures !IsDecimalNumber("1.2.3")
  {
    assert IndexOf("1.2.3", '.') == 1 && "1.2.3"[2..] == "2.3" && "2.3"[1] == '.';
  }

  datatype BlockRef = ByFinality | ByBlockId
  datatype Finality = Final | NearFinal | Optimistic
  datatype Mode = View | Change

  /** The parsed form; the optional fields are `undefined` when absent. */
  datatype FormData = FormData(args: string, blockId: Option<string>, blockRef: BlockRef,
                               deposit: Option<string>, finality: Finality, gas: Option<string>,
                               methodName: string, mode: Mode)

  /** `!v?.trim()` */
  predicate Blank(v: Option<string>) {
    v.None? || Trim(v.value) == ""
  }

  /** The two-step rule for gas and deposit (lines 44-58 and 60-74): blank
      gives `required`, anything else must be a decimal number, which is
      matched against the untrimmed text. */
  function AmountIssues(v: Option<string>, field: string, required: string): (r: seq<Issue>)
    ensures r == [] <==> v.Some? && IsDecimalNumber(v.value)
    ensures r != [] ==> r == [Custom(Some(field), if Blank(v) then required else "Must be a valid number")]
  {
    DecimalNotBlank(v);
    if Blank(v) then [Custom(Some(field), required)]
    else if !IsDecimalNumber(v.value) then [Custom(Some(field), "Must be a valid number")]
    else []
  }

  lemma DecimalNotBlank(v: Option<string>)
    ensures v.Some? && IsDecimalNumber(v.value) ==> !Blank(v)
  {
    if v.Some? && IsDecimalNumber(v.value) {
      DecimalNumberChars(v.value);
      assert !IsJsWhitespace(v.value[0]);
    }
  }

  /** The block-id rule (lines 77-86). */
  function BlockIdIssues(data: FormData): (r: seq<Issue>)
    ensures r == [] <==> !(data.mode == View && data.blockRef == ByBlockId) || !Blank(data.blockId)
    ensures r != [] ==> r == [Custom(Some("blockId"), "Block ID is required")]
  {
    if data.mode == View && data.blockRef == ByBlockId && Blank(data.blockId) then
      [Custom(Some("blockId"), "Block ID is required")]
    else []
  }

  /** All issues of the form-level check, in the order they are pushed. */
  function FormIssues(data: FormData): seq<Issue> {
    (if data.mode == Change then
       AmountIssues(data.gas, "gas", "Gas is required") + AmountIssues(data.deposit, "deposit", "Deposit is required")
     else []) + BlockIdIssues(data)
  }

  /** The gas or deposit half of the form-level check. */
  method CheckAmount(input: Payload<FormData>, v: Option<string>, field: string, required: string)
    modifies input
    ensures input.issues == old(input.issues) + AmountIssues(v, field, required)
  {
    if v.None? || Trim(v.value) == "" {
      input.Push(Custom(Some(field), required));
    } else if !IsDecimalNumber(v.value) {
      input.Push(Custom(Some(field), "Must be a valid number"));
    }
  }

  /** The block-id half of the form-level check. */
  method CheckBlockId(input: Payload<FormData>)
    modifies input
    ensures input.issues == old(input.issues) + BlockIdIssues(input.value)
  {
    var data := input.value;
    if data.mode == View && data.blockRef == ByBlockId {
      if data.blockId.None? || Trim(data.blockId.value) == "" {
        input.Push(Custom(Some("blockId"), "Block ID is required"));
      }
    }
  }

  /** The form-level check (lines 40-87). */
  method CheckForm(input: Payload<FormData>)
    modifies input
    ensures input.issues == old(input.issues) + FormIssues(input.value)
  {
    var data := input.value;
    ghost var before := input.issues;
    ghost var amounts: seq<Issue> := [];
    if data.mode == Change {
      CheckAmount(input, data.gas, "gas", "Gas is required");
      ghost var gas := AmountIssues(data.gas, "gas", "Gas is required");
      CheckAmount(input, data.deposit, "deposit", "Deposit is required");
      amounts := gas + AmountIssues(data.deposit, "deposit", "Deposit is required");
    }
    assert input.issues == before + amounts;
    CheckBlockId(input);
    assert FormIssues(data) == amounts + BlockIdIssues(data);
  }

  /** The form passes exactly when, in change mode, gas and deposit are
      decimal numbers and, in view mode by block id, the id is not blank. */
  lemma FormValid(data: FormData)
    ensures FormIssues(data) == [] <==>
            (data.mode == Change ==> data.gas.Some? && IsDecimalNumber(data.gas.value) &&
                                     data.deposit.Some? && IsDecimalNumber(data.deposit.value)) &&
            (data.mode == View && data.blockRef == ByBlockId ==> !Blank(data.blockId))
  {
  }

  /** View mode never reports gas or deposit; change mode never reports the
      block id (lines 43 and 77). */
  lemma ModesSeparate(data: FormData)
    ensures data.mode == View ==>
              forall i :: 0 <= i < |FormIssues(data)| ==> FormIssues(data)[i].path == [SStr("blockId")]
    ensures data.mode == Change ==>
              forall i :: 0 <= i < |FormIssues(data)| ==> FormIssues(data)[i].path != [SStr("blockId")]
  {
    var issues := FormIssues(data);
    if data.mode == Change {
      var gas := AmountIssues(data.gas, "gas", "Gas is required");
      var deposit := AmountIssues(data.deposit, "deposit", "Deposit is required");
      assert issues == gas + deposit;
      AmountAtField(data.gas, "gas", "Gas is required");
      AmountAtField(data.deposit, "deposit", "Deposit is required");
      forall i | 0 <= i < |issues| ensures issues[i].path != [SStr("blockId")] {
        if i < |gas| {
          assert issues[i] == gas[i];
          assert [SStr("gas")] != [SStr("blockId")] by { assert SStr("gas") != SStr("blockId"); }
        } else {
          assert issues[i] == deposit[i - |gas|];
          assert [SStr("deposit")] != [SStr("blockId")] by { assert SStr("deposit") != SStr("blockId"); }
        }
      }
    } else {
      assert issues == BlockIdIssues(data);
    }
  }

  /** An amount's issues are all at its own field. */
  lemma AmountAtField(v: Option<string>, field: string, required: string)
    ensures var issues := AmountIssues(v, field, required);
            |issues| <= 1 && (|issues| == 1 ==> issues[0].path == [SStr(field)])
  {
  }
}
