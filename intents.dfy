/** The external-token pattern of NEAR Intents multi-tokens
    (apps/backend/src/services/mts/intents.ts): `nep141:<contract>`,
    `nep171:<contract>:<token>` or `nep245:<contract>:<token>`, naming a
    NEP-141 fungible token, a NEP-171 NFT or a NEP-245 multi-token. */
module Intents {
  import opened Wrappers
  import opened Strings

  datatype TokenPattern =
    | Nep141(sourceContract: string)
    | Nep171(sourceContract: string, sourceToken: string)
    | Nep245(sourceContract: string, sourceToken: string)

  /** The characters a regular-expression `.` does not match. */
  predicate IsLineTerminator(c: char) {
    c == '\n' || c == '\r' || c == '\U{2028}' || c == '\U{2029}'
  }

  predicate NoLineTerminator(s: string) {
    forall i :: 0 <= i < |s| ==> !IsLineTerminator(s[i])
  }

  predicate IsTypeTag(t: string) {
    t == "nep141" || t == "nep171" || t == "nep245"
  }

  /** The pattern a well-formed value describes: a non-empty contract with
      no colon and, for NEP-171/245, a non-empty single-line token. */
  predicate ValidPattern(p: TokenPattern) {
    |p.sourceContract| > 0 && Lacks(p.sourceContract, ':') &&
    (!p.Nep141? ==> |p.sourceToken| > 0 && NoLineTerminator(p.sourceToken))
  }

  function TypeTag(p: TokenPattern): string {
    match p
    case Nep141(_) => "nep141"
    case Nep171(_, _) => "nep171"
    case Nep245(_, _) => "nep245"
  }

  /** The text a pattern is written as: the parts joined by ":". */
  function Render(p: TokenPattern): string {
    match p
    case Nep141(c) => "nep141:" + c
    case Nep171(c, t) => "nep171:" + c + ":" + t
    case Nep245(c, t) => "nep245:" + c + ":" + t
  }

  /** `parseTokenPattern` (lines 26-40): the regular expression
      `^(nep141|nep171|nep245):([^:]+)(?::(.+))?$` and the two type/token
      checks. The contract runs to the first colon; the token is the rest,
      colons included, and must be one line since `.` stops at line
      terminators. */
  function ParseTokenPattern(s: string): (r: Option<TokenPattern>)
    ensures r.Some? ==> ValidPattern(r.value)
  {
    if |s| < 7 || !IsTypeTag(s[..6]) || s[6] != ':' then None
    else
      var rest := s[7..];
      var c := IndexOf(rest, ':');
      if c == 0 then None
      else if c == |rest| then
        (if s[..6] == "nep141" then Some(Nep141(rest)) else None)
      else
        var token := rest[c + 1..];
        if token == [] || !NoLineTerminator(token) then None
        else if s[..6] == "nep141" then None
        else if s[..6] == "nep171" then Some(Nep171(rest[..c], token))
        else Some(Nep245(rest[..c], token))
  }

  /** Whatever parses is the rendering of its result. */
  lemma ParseRenders(s: string)
    requires ParseTokenPattern(s).Some?
    ensures Render(ParseTokenPattern(s).value) == s
  {
    var p := ParseTokenPattern(s).value;
    var rest := s[7..];
    var c := IndexOf(rest, ':');
    JoinAtColon(s, 6);
    RenderJoins(p);
    assert TypeTag(p) == s[..6];
    if p.Nep141? {
      assert p.sourceContract == rest;
    } else {
      JoinAtColon(rest, c);
      assert p.sourceContract == rest[..c] && p.sourceToken == rest[c + 1..];
    }
  }

  /** The rendering is the tag and the parts, each after a colon. */
  lemma RenderJoins(p: TokenPattern)
    ensures p.Nep141? ==> Render(p) == TypeTag(p) + ":" + p.sourceContract
    ensures !p.Nep141? ==> Render(p) == TypeTag(p) + ":" + (p.sourceContract + ":" + p.sourceToken)
  {
  }

  /** A text with a colon at `k` is the part before it, the colon and the
      part after it. */
  lemma JoinAtColon(s: string, k: nat)
    requires k < |s| && s[k] == ':'
    ensures s == s[..k] + ":" + s[k + 1..]
  {
  }

  /** Every well-formed pattern parses back from its rendering. */
  lemma RenderParses(p: TokenPattern)
    requires ValidPattern(p)
    ensures ParseTokenPattern(Render(p)) == Some(p)
  {
    if p.Nep141? {
      FungibleParses(p);
    } else {
      TokenPatternParses(p);
    }
  }

  lemma FungibleParses(p: TokenPattern)
    requires ValidPattern(p) && p.Nep141?
    ensures ParseTokenPattern(Render(p)) == Some(p)
  {
    var s := Render(p);
    assert s == "nep141" + ":" + p.sourceContract;
    assert s[..6] == "nep141" && s[7..] == p.sourceContract;
    NoSeparator(p.sourceContract, ':');
  }

  lemma TokenPatternParses(p: TokenPattern)
    requires ValidPattern(p) && !p.Nep141?
    ensures ParseTokenPattern(Render(p)) == Some(p)
  {
    var tag := TypeTag(p);
    var c, tok := p.sourceContract, p.sourceToken;
    var rest := c + ":" + tok;
    RenderJoins(p);
    SplitTagged(tag, rest);
    SplitContract(c, tok);
    assert tag != "nep141";
  }

  /** The contract and the token, as the parser slices them at the first
      colon. */
  lemma SplitContract(c: string, tok: string)
    requires Lacks(c, ':')
    ensures var rest := c + ":" + tok;
            IndexOf(rest, ':') == |c| && rest[..|c|] == c && rest[|c| + 1..] == tok
  {
    IndexOfSeparator(c, ':', tok);
    var rest := c + ":" + tok;
    assert rest[..|c|] == c && rest[|c| + 1..] == tok;
  }

  /** The tag and the text after its colon, as the parser slices them. */
  lemma SplitTagged(tag: string, rest: string)
    requires |tag| == 6
    ensures var s := tag + ":" + rest;
            |s| >= 7 && s[..6] == tag && s[6] == ':' && s[7..] == rest
  {
  }

  lemma {:induction false} NoSeparator(s: string, c: char)
    requires Lacks(s, c)
    ensures IndexOf(s, c) == |s|
  {
    if s != [] {
      NoSeparator(s[1..], c);
    }
  }

  /** A NEP-141 pattern takes no token, the others need a non-empty one,
      and a token may hold colons. */
  lemma TokenRules()
    ensures ParseTokenPattern("nep141:a:b").None?
    ensures ParseTokenPattern("nep171:a").None?
    ensures ParseTokenPattern("nep171:a:").None?
    ensures ParseTokenPattern("nep245:a:b:c") == Some(Nep245("a", "b:c"))
  {
    FungibleTakesNoToken();
    NftNeedsToken();
    EmptyTokenRejected();
    TokenMayHoldColons();
  }

  lemma FungibleTakesNoToken()
    ensures ParseTokenPattern("nep141:a:b").None?
  {
    var s := "nep141:a:b";
    assert s[..6] == "nep141" && s[7..] == "a:b";
    assert IndexOf("a:b", ':') == 1;
  }

  lemma NftNeedsToken()
    ensures ParseTokenPattern("nep171:a").None?
  {
    var s := "nep171:a";
    assert s[..6] == "nep171" && s[7..] == "a";
    assert IndexOf("a", ':') == 1;
    assert "nep171" != "nep141";
  }

  lemma EmptyTokenRejected()
    ensures ParseTokenPattern("nep171:a:").None?
  {
    var s := "nep171:a:";
    assert s[..6] == "nep171" && s[7..] == "a:";
    assert IndexOf("a:", ':') == 1;
  }

  lemma TokenMayHoldColons()
    ensures ParseTokenPattern("nep245:a:b:c") == Some(Nep245("a", "b:c"))
  {
    var s := "nep245:a:b:c";
    assert s[..6] == "nep245" && s[7..] == "a:b:c";
    assert IndexOf("a:b:c", ':') == 1;
    assert "a:b:c"[..1] == "a" && "a:b:c"[2..] == "b:c";
    assert "nep245" != "nep141" && "nep245" != "nep171";
  }

  /** A JavaScript value `toStr` may receive. */
  datatype Primitive = PNull | PUndefined | PNum(n: int) | PStr(s: string)

  /** `toStr` (lines 42-43): `null` for null and undefined, else `String(val)`;
      numbers are modelled as integers. */
  function ToStr(v: Primitive): (r: Option<string>)
    ensures r.None? <==> v == PNull || v == PUndefined
    ensures v.PStr? ==> r == Some(v.s)
    ensures v.PNum? ==> r == Some(Decimal(v.n))
  {
    match v
    case PNull => None
    case PUndefined => None
    case PNum(n) => Some(Decimal(n))
    case PStr(s) => Some(s)
  }

  /** What a metadata copy routine does: reports success or failure, or
      throws. The routines themselves are database work. */
  datatype CopyOutcome = Done(ok: bool) | Threw

  /** The copy routine `copyExternalTokenMeta` calls, if any. */
  datatype CopyCall =
    | NoCall
    | CopyFt(contract: string, token: string, sourceContract: string)
    | CopyNft(contract: string, token: string, sourceContract: string, sourceToken: string)
    | CopyMt(contract: string, token: string, sourceContract: string, sourceToken: string)

  /** Lines 347-372: the routine the pattern selects. */
  function DispatchOf(contract: string, token: string): (call: CopyCall)
    ensures call.NoCall? <==> ParseTokenPattern(token).None?
    ensures call.CopyFt? <==> ParseTokenPattern(token).Some? && ParseTokenPattern(token).value.Nep141?
    ensures call.CopyNft? <==> ParseTokenPattern(token).Some? && ParseTokenPattern(token).value.Nep171?
    ensures call.CopyMt? <==> ParseTokenPattern(token).Some? && ParseTokenPattern(token).value.Nep245?
    ensures !call.NoCall? ==> call.contract == contract && call.token == token &&
                              call.sourceContract == ParseTokenPattern(token).value.sourceContract
  {
    match ParseTokenPattern(token)
    case None => NoCall
    case Some(Nep141(c)) => CopyFt(contract, token, c)
    case Some(Nep171(c, t)) => CopyNft(contract, token, c, t)
    case Some(Nep245(c, t)) => CopyMt(contract, token, c, t)
  }

  /** `copyExternalTokenMeta(contract, token)`: false when the token is no
      pattern, false when the routine throws, else the routine's result. */
  function CopyExternalTokenMeta(run: CopyCall -> CopyOutcome, contract: string, token: string): (ok: bool)
    ensures ParseTokenPattern(token).None? ==> !ok
    ensures ok <==> !DispatchOf(contract, token).NoCall? && run(DispatchOf(contract, token)) == Done(true)
  {
    var call := DispatchOf(contract, token);
    if call.NoCall? then false
    else
      match run(call)
      case Done(ok) => ok
      case Threw => false
  }
}
