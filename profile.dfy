/** The token profile card (apps/frontend/src/components/tokens/token/profile.tsx):
    social links, their presence test and the decimals cell. */
module Profile {
  import opened Wrappers
  import opened Strings

  const XBase: string := "https://x.com/"
  const FacebookBase: string := "https://facebook.com/"
  const TelegramBase: string := "https://t.me/"
  const RedditBase: string := "https://reddit.com/r/"

  /** `toSocialUrl(value, base)` (lines 19-22): a full URL is kept, anything
      else is taken as a handle under the network's base. */
  function ToSocialUrl(value: string, base: string): (url: string)
    ensures StartsWith(value, "http://") || StartsWith(value, "https://") ==> url == value
    ensures !(StartsWith(value, "http://") || StartsWith(value, "https://")) ==> url == base + value
  {
    if StartsWith(value, "http://") || StartsWith(value, "https://") then value else base + value
  }

  /** Every base is itself a full URL, so resolving a resolved link again
      changes nothing. */
  lemma SocialUrlStable(value: string)
    ensures ToSocialUrl(ToSocialUrl(value, XBase), XBase) == ToSocialUrl(value, XBase)
    ensures ToSocialUrl(ToSocialUrl(value, FacebookBase), FacebookBase) == ToSocialUrl(value, FacebookBase)
    ensures ToSocialUrl(ToSocialUrl(value, TelegramBase), TelegramBase) == ToSocialUrl(value, TelegramBase)
    ensures ToSocialUrl(ToSocialUrl(value, RedditBase), RedditBase) == ToSocialUrl(value, RedditBase)
  {
    BaseIsFull(XBase, value);
    BaseIsFull(FacebookBase, value);
    BaseIsFull(TelegramBase, value);
    BaseIsFull(RedditBase, value);
  }

  lemma BaseIsFull(base: string, value: string)
    requires StartsWith(base, "https://")
    ensures StartsWith(base + value, "https://")
  {
    assert (base + value)[..8] == base[..8];
  }

  /** The contract record's profile fields; `None` is null or missing. */
  datatype Contract = Contract(decimals: Option<int>, website: Option<string>, twitter: Option<string>,
                               facebook: Option<string>, telegram: Option<string>, reddit: Option<string>)

  predicate Truthy(v: Option<string>) {
    v.Some? && v.value != ""
  }

  /** `hasSocials` (lines 34-38) */
  predicate HasSocials(c: Contract) {
    Truthy(c.twitter) || Truthy(c.facebook) || Truthy(c.telegram) || Truthy(c.reddit)
  }

  datatype SocialLink = SocialLink(title: string, href: string)

  function LinkIf(v: Option<string>, title: string, base: string): seq<SocialLink> {
    if Truthy(v) then [SocialLink(title, ToSocialUrl(v.value, base))] else []
  }

  /** The position of a network in the row; -1 for any other title. */
  function Rank(title: string): int {
    if title == "X" then 0
    else if title == "Facebook" then 1
    else if title == "Telegram" then 2
    else if title == "Reddit" then 3
    else -1
  }

  /** `links` shows a link titled `title` exactly when `v` is truthy, and
      that link points at `toSocialUrl(v, base)`. */
  predicate LinkFor(links: seq<SocialLink>, title: string, v: Option<string>, base: string) {
    ((exists i :: 0 <= i < |links| && links[i].title == title) <==> Truthy(v)) &&
    forall i :: 0 <= i < |links| && links[i].title == title ==>
      Truthy(v) && links[i].href == ToSocialUrl(v.value, base)
  }

  /** The links rendered (lines 110-167): X, Facebook, Telegram and Reddit,
      in that order, each only when its field is truthy. */
  function SocialLinks(c: Contract): (links: seq<SocialLink>)
    ensures LinkFor(links, "X", c.twitter, XBase)
    ensures LinkFor(links, "Facebook", c.facebook, FacebookBase)
    ensures LinkFor(links, "Telegram", c.telegram, TelegramBase)
    ensures LinkFor(links, "Reddit", c.reddit, RedditBase)
    ensures forall i :: 0 <= i < |links| ==> Rank(links[i].title) >= 0
    ensures forall i, j :: 0 <= i < j < |links| ==> Rank(links[i].title) < Rank(links[j].title)
  {
    var x := LinkIf(c.twitter, "X", XBase);
    var f := LinkIf(c.facebook, "Facebook", FacebookBase);
    var t := LinkIf(c.telegram, "Telegram", TelegramBase);
    var r := LinkIf(c.reddit, "Reddit", RedditBase);
    LinksInOrder(c, x, f, t, r);
    x + (f + (t + r))
  }

  /** Each network's link sits in its own piece of the row, and ranks rise
      from piece to piece. */
  lemma LinksInOrder(c: Contract, x: seq<SocialLink>, f: seq<SocialLink>, t: seq<SocialLink>, r: seq<SocialLink>)
    requires x == LinkIf(c.twitter, "X", XBase) && f == LinkIf(c.facebook, "Facebook", FacebookBase)
    requires t == LinkIf(c.telegram, "Telegram", TelegramBase) && r == LinkIf(c.reddit, "Reddit", RedditBase)
    ensures LinkFor(x + (f + (t + r)), "X", c.twitter, XBase)
    ensures LinkFor(x + (f + (t + r)), "Facebook", c.facebook, FacebookBase)
    ensures LinkFor(x + (f + (t + r)), "Telegram", c.telegram, TelegramBase)
    ensures LinkFor(x + (f + (t + r)), "Reddit", c.reddit, RedditBase)
    ensures forall i :: 0 <= i < |x + (f + (t + r))| ==> Rank((x + (f + (t + r)))[i].title) >= 0
    ensures forall i, j :: 0 <= i < j < |x + (f + (t + r))| ==>
              Rank((x + (f + (t + r)))[i].title) < Rank((x + (f + (t + r)))[j].title)
  {
    LinkIfTitles(c.twitter, "X", XBase);
    LinkIfTitles(c.facebook, "Facebook", FacebookBase);
    LinkIfTitles(c.telegram, "Telegram", TelegramBase);
    LinkIfTitles(c.reddit, "Reddit", RedditBase);
    TitlesOf(x, "X");
    TitlesOf(f, "Facebook");
    TitlesOf(t, "Telegram");
    TitlesOf(r, "Reddit");
    var tr := t + r;
    var ftr := f + tr;
    TitlesJoin(t, r, "X");
    TitlesJoin(f, tr, "X");
    TitlesJoin(t, r, "Facebook");
    LinkForFirst(x, ftr, "X", c.twitter, XBase);
    LinkForFirst(f, tr, "Facebook", c.facebook, FacebookBase);
    LinkForSkip(x, ftr, "Facebook", c.facebook, FacebookBase);
    LinkForFirst(t, r, "Telegram", c.telegram, TelegramBase);
    LinkForSkip(f, tr, "Telegram", c.telegram, TelegramBase);
    LinkForSkip(x, ftr, "Telegram", c.telegram, TelegramBase);
    LinkForFirst(r, [], "Reddit", c.reddit, RedditBase);
    assert r + [] == r;
    LinkForSkip(t, r, "Reddit", c.reddit, RedditBase);
    LinkForSkip(f, tr, "Reddit", c.reddit, RedditBase);
    LinkForSkip(x, ftr, "Reddit", c.reddit, RedditBase);
    RanksRise(x, f, t, r);
  }

  lemma LinkIfTitles(v: Option<string>, title: string, base: string)
    ensures |LinkIf(v, title, base)| <= 1
    ensures forall l :: l in LinkIf(v, title, base) ==> l == SocialLink(title, ToSocialUrl(v.value, base)) && Truthy(v)
    ensures AllTitled(LinkIf(v, title, base), title)
    ensures Truthy(v) ==> LinkIf(v, title, base) == [SocialLink(title, ToSocialUrl(v.value, base))]
  {
  }

  /** Every link of `s` carries `title`. */
  ghost predicate AllTitled(s: seq<SocialLink>, title: string) {
    forall l :: l in s ==> l.title == title
  }

  /** No link of `s` carries `title`. */
  ghost predicate NoneTitled(s: seq<SocialLink>, title: string) {
    forall l :: l in s ==> l.title != title
  }

  lemma TitlesOf(s: seq<SocialLink>, title: string)
    requires AllTitled(s, title)
    ensures forall other :: other != title ==> NoneTitled(s, other)
  {
  }

  lemma TitlesJoin(a: seq<SocialLink>, b: seq<SocialLink>, title: string)
    requires NoneTitled(a, title) && NoneTitled(b, title)
    ensures NoneTitled(a + b, title)
  {
  }

  /** A network's piece followed by links of other networks. */
  lemma LinkForFirst(piece: seq<SocialLink>, after: seq<SocialLink>, title: string, v: Option<string>, base: string)
    requires piece == LinkIf(v, title, base) && NoneTitled(after, title)
    ensures LinkFor(piece + after, title, v, base)
  {
    LinkIfTitles(v, title, base);
    var links := piece + after;
    forall i | 0 <= i < |links| && links[i].title == title
      ensures links[i] in piece
    {
      assert links[i] in links;
    }
    if Truthy(v) {
      assert links[0] == piece[0];
    }
  }

  /** Links of other networks in front leave a network's links as they are. */
  lemma LinkForSkip(before: seq<SocialLink>, links: seq<SocialLink>, title: string, v: Option<string>, base: string)
    requires NoneTitled(before, title) && LinkFor(links, title, v, base)
    ensures LinkFor(before + links, title, v, base)
  {
    var all := before + links;
    forall i | 0 <= i < |before|
      ensures all[i].title != title
    {
      assert all[i] == before[i] && before[i] in before;
    }
    forall i | |before| <= i < |all|
      ensures all[i] == links[i - |before|]
    {
    }
    if Truthy(v) {
      var k :| 0 <= k < |links| && links[k].title == title;
      assert all[|before| + k] == links[k];
    }
  }

  /** Pieces of at most one link each, ranked 0 to 3, give rising ranks. */
  lemma RanksRise(x: seq<SocialLink>, f: seq<SocialLink>, t: seq<SocialLink>, r: seq<SocialLink>)
    requires |x| <= 1 && |f| <= 1 && |t| <= 1 && |r| <= 1
    requires AllTitled(x, "X") && AllTitled(f, "Facebook")
    requires AllTitled(t, "Telegram") && AllTitled(r, "Reddit")
    ensures forall i :: 0 <= i < |x + (f + (t + r))| ==> Rank((x + (f + (t + r)))[i].title) >= 0
    ensures forall i, j :: 0 <= i < j < |x + (f + (t + r))| ==>
              Rank((x + (f + (t + r)))[i].title) < Rank((x + (f + (t + r)))[j].title)
  {
    var links := x + (f + (t + r));
    var a, b, d := |x|, |x| + |f|, |x| + |f| + |t|;
    forall i | 0 <= i < |links|
      ensures Rank(links[i].title) == (if i < a then 0 else if i < b then 1 else if i < d then 2 else 3)
    {
      if i < a { assert links[i] == x[i]; }
      else if i < b { assert links[i] == f[i - a]; }
      else if i < d { assert links[i] == t[i - b]; }
      else { assert links[i] == r[i - d]; }
    }
  }

  /** "N/A" is shown instead of the links exactly when there are none. */
  lemma SocialsShownIffLinks(c: Contract)
    ensures HasSocials(c) <==> SocialLinks(c) != []
  {
  }

  /** `contract?.decimals != null ? contract.decimals : 'N/A'` (lines 67-71):
      zero is a value, only null is "N/A". */
  function DecimalsCell(c: Option<Contract>): (cell: string)
    ensures (c.Some? && c.value.decimals.Some?) ==> cell == Decimal(c.value.decimals.value)
    ensures !(c.Some? && c.value.decimals.Some?) ==> cell == "N/A"
  {
    if c.Some? && c.value.decimals.Some? then Decimal(c.value.decimals.value) else "N/A"
  }

  lemma ZeroDecimalsShown(c: Contract)
    requires c.decimals == Some(0)
    ensures DecimalsCell(Some(c)) == "0"
  {
    assert NatToDecimal(0) == "0";
  }

  /** The website cell (lines 86-97): the link text, or "N/A" when falsy. */
  function WebsiteCell(c: Option<Contract>): (cell: Option<string>)
    ensures cell.Some? <==> c.Some? && Truthy(c.value.website)
    ensures cell.Some? ==> cell.value == c.value.website.value
  {
    if c.Some? && Truthy(c.value.website) then c.value.website else None
  }
}
