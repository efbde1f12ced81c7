/** Token media and amounts (apps/frontend/src/components/token.tsx): how an
    NFT media path becomes a URL, which image URLs are trusted, and how a
    signed amount is shown. */
module TokenView {
  import opened Wrappers
  import opened Strings

  const Placeholder: string := "/images/placeholder.svg"
  const IpfsGateway: string := "https://ipfs.io/ipfs/"

  /** A URL the browser can load as it is. */
  predicate Absolute(path: string) {
    StartsWith(path, "https://") || StartsWith(path, "http://") || StartsWith(path, "data:image")
  }

  /** `base.replace(/\/+$/, '')`: every trailing slash removed. */
  function StripTrailingSlashes(s: string): (r: string)
    ensures |r| <= |s| && r == s[..|r|]
    ensures forall i :: |r| <= i < |s| ==> s[i] == '/'
    ensures r == [] || r[|r| - 1] != '/'
  {
    if s != [] && s[|s| - 1] == '/' then StripTrailingSlashes(s[..|s| - 1]) else s
  }

  /** `resolveUrl(path, base)` (lines 35-45): absolute paths are kept; a
      relative one goes under the base when there is one, else under the
      public IPFS gateway. */
  function ResolveUrl(path: string, base: Option<string>): (url: string)
    ensures Absolute(path) ==> url == path
    ensures !Absolute(path) && base.Some? && base.value != "" ==>
              url == StripTrailingSlashes(base.value) + "/" + path
    ensures !Absolute(path) && (base.None? || base.value == "") ==> url == IpfsGateway + path
  {
    if Absolute(path) then path
    else if base.Some? && base.value != "" then StripTrailingSlashes(base.value) + "/" + path
    else IpfsGateway + path
  }

  /** However many slashes the base ends with, exactly one separates it
      from the path. */
  lemma OneSlash(base: string, k: nat, path: string)
    requires !Absolute(path) && base != "" && base[|base| - 1] != '/'
    ensures ResolveUrl(path, Some(base + Repeat('/', k))) == base + "/" + path
  {
    StripRepeat(base, k);
  }

  /** Stripping a run of slashes from a base that does not end in one
      gives the base back. */
  lemma {:induction false} StripRepeat(base: string, k: nat)
    requires base == [] || base[|base| - 1] != '/'
    ensures StripTrailingSlashes(base + Repeat('/', k)) == base
    decreases k
  {
    var b := base + Repeat('/', k);
    if k == 0 {
      assert b == base;
    } else {
      assert b[|b| - 1] == '/';
      assert b[..|b| - 1] == base + Repeat('/', k - 1);
      StripRepeat(base, k - 1);
    }
  }

  /** `toUrl(src)` (lines 145-146): only "https" and "data:image/" sources
      are used; anything else, plain "http://" included, is the placeholder. */
  function ToUrl(src: string): (url: string)
    ensures StartsWith(src, "https") || StartsWith(src, "data:image/") ==> url == src
    ensures !(StartsWith(src, "https") || StartsWith(src, "data:image/")) ==> url == Placeholder
  {
    if StartsWith(src, "https") || StartsWith(src, "data:image/") then src else Placeholder
  }

  /** A URL that `ToUrl` produces is kept by it: the placeholder maps to
      itself. */
  lemma ToUrlIdempotent(src: string)
    ensures ToUrl(ToUrl(src)) == ToUrl(src)
  {
    assert Placeholder[0] == '/';
    assert !StartsWith(Placeholder, "https") by { assert Placeholder[..5] != "https"; }
    assert !StartsWith(Placeholder, "data:image/") by { assert Placeholder[..11] != "data:image/"; }
  }

  lemma HttpRejected(rest: string)
    ensures ToUrl("http://" + rest) == Placeholder
  {
    var s := "http://" + rest;
    assert s[4] == ':';
    assert !StartsWith(s, "https") by { assert s[..5][4] == ':'; }
    assert !StartsWith(s, "data:image/") by { assert s[0] == 'h'; }
  }

  /** `TokenImage`'s `url` state (lines 148-162). */
  class TokenImage {
    var url: string

    constructor(src: string)
      ensures url == ToUrl(src)
    {
      url := ToUrl(src);
    }

    /** The effect run when `src` changes. */
    method SrcChanged(src: string)
      modifies this
      ensures url == ToUrl(src)
    {
      url := ToUrl(src);
    }

    /** A load error falls back to the placeholder. */
    method OnError()
      modifies this
      ensures url == Placeholder
    {
      url := Placeholder;
    }
  }

  /** `fetchReferenceMedia` after its fetch (lines 59-76): the reference
      document's text, whether its SHA-256 matched, and the `media` field
      it parses to. A mismatching hash or missing media gives nothing. */
  function ReferenceMedia(referenceHash: Option<string>, hashMatches: bool, media: Option<string>,
                          base: Option<string>): (r: Option<string>)
    ensures r.Some? <==> (referenceHash.None? || referenceHash.value == "" || hashMatches) &&
                         media.Some? && media.value != ""
    ensures r.Some? ==> r.value == ResolveUrl(media.value, base)
  {
    if referenceHash.Some? && referenceHash.value != "" && !hashMatches then None
    else if media.None? || media.value == "" then None
    else Some(ResolveUrl(media.value, base))
  }

  /** `NFTMedia`'s `src` and `loading` state (lines 78-143). */
  class NftMedia {
    var src: string
    var loading: bool

    constructor()
      ensures src == Placeholder && loading
    {
      src := Placeholder;
      loading := true;
    }

    /** The effect (lines 89-128). `resolved` is what the reference lookup
        gives when it runs, `None` when it fails or throws. */
    method Resolve(media: Option<string>, reference: Option<string>, base: Option<string>,
                   resolved: Option<string>)
      modifies this
      ensures !loading
      ensures media.Some? && media.value != "" ==> src == ResolveUrl(media.value, base)
      ensures ((media.None? || media.value == "") && reference.Some? && reference.value != "" &&
               resolved.Some? && resolved.value != "") ==> src == resolved.value
      ensures ((media.None? || media.value == "") &&
               !(reference.Some? && reference.value != "" && resolved.Some? && resolved.value != "")) ==>
                src == old(src)
    {
      if media.Some? && media.value != "" && Absolute(media.value) {
        src := media.value;
        loading := false;
        return;
      }
      if media.Some? && media.value != "" {
        src := ResolveUrl(media.value, base);
      } else if reference.Some? && reference.value != "" {
        if resolved.Some? && resolved.value != "" {
          src := resolved.value;
        }
      }
      loading := false;
    }
  }

  datatype Colour = Lime | Red

  /** What `TokenAmount` renders: the text and its colour. */
  datatype AmountView = AmountView(text: string, colour: Colour)

  /** `formatted.replace(/^-/, '')` */
  function DropMinus(s: string): (r: string)
    ensures s != [] && s[0] == '-' ==> r == s[1..]
    ensures !(s != [] && s[0] == '-') ==> r == s
  {
    if s != [] && s[0] == '-' then s[1..] else s
  }

  /** `TokenAmount` (lines 164-183); `formatted` is the formatter's output
      and `value` is `+amount`, `None` when that is NaN. */
  function TokenAmount(formatted: string, value: Option<real>, hideSign: bool): (v: AmountView)
    ensures v.colour == Lime <==> value.Some? && value.value > 0.0
    ensures !hideSign && v.colour == Lime ==> v.text == "+" + formatted
    ensures !hideSign && v.colour == Red ==> v.text == formatted
    ensures hideSign ==> v.text == DropMinus(formatted)
  {
    var display := if hideSign then DropMinus(formatted) else formatted;
    if value.Some? && value.value > 0.0 then AmountView((if hideSign then "" else "+") + display, Lime)
    else AmountView(display, Red)
  }

  /** Hiding the sign removes one leading minus and nothing else. */
  lemma HideSignDropsOneMinus(formatted: string, value: Option<real>)
    ensures var t := TokenAmount(formatted, value, true).text;
            formatted == t || formatted == "-" + t
    ensures TokenAmount("--5", value, true).text == "-5"
  {
    var t := TokenAmount(formatted, value, true).text;
    if formatted != [] && formatted[0] == '-' {
      assert formatted == "-" + formatted[1..];
    }
  }
}
