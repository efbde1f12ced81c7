/** An account's fungible-token inventory (apps/frontend/src/lib/token.ts):
    cached balances merged into the token list, then the list sorted by
    value in place and its total value summed. */
module TokenList {
  import opened Wrappers

  /** The part of a token's metadata the merge reads. */
  datatype TokenMeta = TokenMeta(price: Option<string>, decimals: Option<int>)

  /** An `AccountAssetFT` row: the contract, the raw amount and metadata. */
  datatype AccountAssetFt = AccountAssetFt(contract: string, amount: string, meta: Option<TokenMeta>)

  /** A `TokenCache` row: a cached balance for a contract. */
  datatype CacheEntry = CacheEntry(contractId: string, balance: Option<string>)

  /** An `AssetToken`: the row with its amount possibly replaced and its
      value in the quote currency as a decimal string. */
  datatype AssetToken = AssetToken(contract: string, amount: string, meta: Option<TokenMeta>, price: string)

  /** `toTokenPrice(amount, decimals, price)`, a formatter that is not part
      of this model. */
  type PriceFn = (string, int, string) -> string

  /** `Number(text)`, over exact reals. */
  type NumberFn = string -> real

  /** `new Map(tokensCache.map(...))` (lines 15-17): later entries overwrite
      earlier ones. */
  function BalanceMap(cache: seq<CacheEntry>): (m: map<string, Option<string>>)
    ensures m.Keys == set i | 0 <= i < |cache| :: cache[i].contractId
  {
    if cache == [] then map[]
    else
      var init := cache[..|cache| - 1];
      var last := cache[|cache| - 1];
      assert (set i | 0 <= i < |cache| :: cache[i].contractId)
          == (set i | 0 <= i < |init| :: init[i].contractId) + {last.contractId} by {
        assert forall i :: 0 <= i < |init| ==> init[i] == cache[i];
      }
      BalanceMap(init)[last.contractId := last.balance]
  }

  lemma BalanceMapSnoc(cache: seq<CacheEntry>, last: CacheEntry)
    ensures BalanceMap(cache + [last]) == BalanceMap(cache)[last.contractId := last.balance]
  {
    assert (cache + [last])[..|cache|] == cache;
  }

  /** The last cache entry for a contract decides its balance. */
  lemma {:induction false} LastEntryWins(a: seq<CacheEntry>, e: CacheEntry, rest: seq<CacheEntry>)
    requires forall i :: 0 <= i < |rest| ==> rest[i].contractId != e.contractId
    ensures e.contractId in BalanceMap(a + [e] + rest)
    ensures BalanceMap(a + [e] + rest)[e.contractId] == e.balance
    decreases |rest|
  {
    var all := a + [e] + rest;
    if rest == [] {
      assert all[..|all| - 1] == a && all[|all| - 1] == e;
      BalanceMapSnoc(a, e);
    } else {
      var init := rest[..|rest| - 1];
      var last := rest[|rest| - 1];
      assert all == (a + [e] + init) + [last];
      LastEntryWins(a, e, init);
      BalanceMapSnoc(a + [e] + init, last);
    }
  }

  predicate Truthy(s: Option<string>) {
    s.Some? && s.value != ""
  }

  /** Lines 20-23: a value only when the metadata has a truthy price and
      non-zero decimals, computed from the row's own amount. */
  function PriceOf(item: AccountAssetFt, toTokenPrice: PriceFn): string {
    if item.meta.Some? && Truthy(item.meta.value.price) &&
       item.meta.value.decimals.Some? && item.meta.value.decimals.value != 0
    then toTokenPrice(item.amount, item.meta.value.decimals.value, item.meta.value.price.value)
    else "0"
  }

  /** `balanceMap.get(item.contract) ?? item.amount` */
  function AmountOf(item: AccountAssetFt, balances: map<string, Option<string>>): string {
    if item.contract in balances && balances[item.contract].Some? then balances[item.contract].value
    else item.amount
  }

  /** `mergeTokens(tokens, tokensCache)` (lines 7-31). */
  function MergeTokens(tokens: Option<seq<AccountAssetFt>>, cache: seq<CacheEntry>, toTokenPrice: PriceFn)
    : (r: seq<AssetToken>)
    ensures tokens.None? ==> r == []
    ensures tokens.Some? ==> |r| == |tokens.value|
    ensures tokens.Some? ==> forall i :: 0 <= i < |r| ==>
              r[i].contract == tokens.value[i].contract && r[i].meta == tokens.value[i].meta &&
              r[i].price == PriceOf(tokens.value[i], toTokenPrice)
  {
    if tokens.None? || |tokens.value| == 0 then []
    else
      var balances := BalanceMap(cache);
      seq(|tokens.value|, i requires 0 <= i < |tokens.value| =>
        var item := tokens.value[i];
        AssetToken(item.contract, AmountOf(item, balances), item.meta, PriceOf(item, toTokenPrice)))
  }

  /** The value is computed before the cached balance replaces the amount,
      so it never depends on the cache. */
  lemma PriceIgnoresCache(tokens: seq<AccountAssetFt>, c1: seq<CacheEntry>, c2: seq<CacheEntry>, f: PriceFn)
    ensures forall i :: 0 <= i < |tokens| ==>
              MergeTokens(Some(tokens), c1, f)[i].price == MergeTokens(Some(tokens), c2, f)[i].price
  {
  }

  /** A row keeps its own amount when its contract is not cached. */
  lemma UncachedKeepsAmount(tokens: seq<AccountAssetFt>, cache: seq<CacheEntry>, f: PriceFn, k: nat)
    requires k < |tokens|
    requires forall i :: 0 <= i < |cache| ==> cache[i].contractId != tokens[k].contract
    ensures MergeTokens(Some(tokens), cache, f)[k].amount == tokens[k].amount
  {
    assert tokens[k].contract !in BalanceMap(cache);
  }

  /** A row's amount is the balance of the last cache entry for its
      contract, whatever earlier entries say. */
  lemma CachedAmount(tokens: seq<AccountAssetFt>, a: seq<CacheEntry>, b: string, rest: seq<CacheEntry>,
                     f: PriceFn, k: nat)
    requires k < |tokens|
    requires forall i :: 0 <= i < |rest| ==> rest[i].contractId != tokens[k].contract
    ensures MergeTokens(Some(tokens), a + [CacheEntry(tokens[k].contract, Some(b))] + rest, f)[k].amount == b
  {
    LastEntryWins(a, CacheEntry(tokens[k].contract, Some(b)), rest);
  }

  /** A row keeps its own amount when the last cache entry for its contract
      has a null balance: `??` falls back to the row's amount. */
  lemma CachedNullKeepsAmount(tokens: seq<AccountAssetFt>, a: seq<CacheEntry>, rest: seq<CacheEntry>,
                              f: PriceFn, k: nat)
    requires k < |tokens|
    requires forall i :: 0 <= i < |rest| ==> rest[i].contractId != tokens[k].contract
    ensures MergeTokens(Some(tokens), a + [CacheEntry(tokens[k].contract, None)] + rest, f)[k].amount == tokens[k].amount
  {
    LastEntryWins(a, CacheEntry(tokens[k].contract, None), rest);
  }

  /** The comparator of `sortTokens` (lines 36-49). */
  function Compare(num: NumberFn, a: AssetToken, b: AssetToken): real {
    var priceA := num(a.price);
    var priceB := num(b.price);
    if priceA != priceB then priceB - priceA
    else if priceA == 0.0 then num(b.amount) - num(a.amount)
    else 0.0
  }

  /** `a` may stand before `b`: higher value first and, among tokens with
      no value, the larger amount first. */
  predicate InOrder(num: NumberFn, a: AssetToken, b: AssetToken) {
    num(a.price) > num(b.price) ||
    (num(a.price) == num(b.price) && (num(a.price) != 0.0 || num(a.amount) >= num(b.amount)))
  }

  lemma CompareIsOrder(num: NumberFn, a: AssetToken, b: AssetToken)
    ensures Compare(num, a, b) <= 0.0 <==> InOrder(num, a, b)
  {
  }

  predicate Sorted(num: NumberFn, s: seq<AssetToken>) {
    forall i, j :: 0 <= i < j < |s| ==> InOrder(num, s[i], s[j])
  }

  /** The sum of the tokens' values. */
  function SumPrices(num: NumberFn, s: seq<AssetToken>): real {
    if s == [] then 0.0 else SumPrices(num, s[..|s| - 1]) + num(s[|s| - 1].price)
  }

  lemma {:induction false} SumAppend(num: NumberFn, s: seq<AssetToken>, t: seq<AssetToken>)
    ensures SumPrices(num, s + t) == SumPrices(num, s) + SumPrices(num, t)
    decreases |t|
  {
    if t == [] {
      assert s + t == s;
    } else {
      assert (s + t)[..|s + t| - 1] == s + t[..|t| - 1];
      SumAppend(num, s, t[..|t| - 1]);
    }
  }

  /** Reordering does not change the total. */
  lemma {:induction false} SumPermutation(num: NumberFn, s: seq<AssetToken>, t: seq<AssetToken>)
    requires multiset(s) == multiset(t)
    ensures SumPrices(num, s) == SumPrices(num, t)
    decreases |s|
  {
    if s != [] {
      var x := s[|s| - 1];
      assert x in multiset(t);
      var k :| 0 <= k < |t| && t[k] == x;
      var rest := t[..k] + t[k + 1..];
      assert t == t[..k] + [x] + t[k + 1..];
      assert multiset(s[..|s| - 1]) == multiset(rest) by {
        assert s == s[..|s| - 1] + [x];
        assert multiset(s) == multiset(s[..|s| - 1]) + multiset{x};
        assert multiset(t) == multiset(t[..k]) + multiset{x} + multiset(t[k + 1..]);
        assert multiset(rest) == multiset(t[..k]) + multiset(t[k + 1..]);
        assert multiset(s[..|s| - 1]) == multiset(s) - multiset{x};
        assert multiset(rest) == multiset(t) - multiset{x};
      }
      SumPermutation(num, s[..|s| - 1], rest);
      SumAppend(num, t[..k] + [x], t[k + 1..]);
      SumAppend(num, t[..k], [x]);
      SumAppend(num, t[..k], t[k + 1..]);
      assert SumPrices(num, [x]) == num(x.price) by { assert [x][..0] == []; }
    }
  }

  method Swap(a: array<AssetToken>, i: nat, j: nat)
    requires i < j < a.Length
    modifies a
    ensures a[..] == old(a[..])[i := old(a[j])][j := old(a[i])]
    ensures multiset(a[..]) == multiset(old(a[..]))
  {
    a[i], a[j] := a[j], a[i];
  }

  /** While `s[j]` sinks into `s[..i + 1]`: the other elements are in
      order, `s[j]` must precede everything after it, and its two
      neighbours are in order. */
  ghost predicate Sinking(num: NumberFn, s: seq<AssetToken>, i: nat, j: nat) {
    j <= i < |s| &&
    (forall p, q :: 0 <= p < q <= i && p != j && q != j ==> InOrder(num, s[p], s[q])) &&
    (forall q :: j < q <= i ==> InOrder(num, s[j], s[q]) && !InOrder(num, s[q], s[j])) &&
    (0 < j < i ==> InOrder(num, s[j - 1], s[j + 1]))
  }

  /** Swapping `s[j]` with a predecessor it must precede keeps it sinking. */
  lemma SinkStep(num: NumberFn, s: seq<AssetToken>, i: nat, j: nat)
    requires Sinking(num, s, i, j) && 0 < j && !InOrder(num, s[j - 1], s[j])
    ensures Sinking(num, s[j - 1 := s[j]][j := s[j - 1]], i, j - 1)
  {
  }

  /** Once its predecessor may stand before it, the prefix is sorted. */
  lemma SinkDone(num: NumberFn, s: seq<AssetToken>, i: nat, j: nat)
    requires Sinking(num, s, i, j) && (j == 0 || InOrder(num, s[j - 1], s[j]))
    ensures Sorted(num, s[..i + 1])
  {
  }

  /** Insert `a[i]` into the sorted prefix `a[..i]`, swapping it down past
      every element it must precede (a stable insertion step). */
  method InsertDown(num: NumberFn, a: array<AssetToken>, i: nat)
    requires i < a.Length && Sorted(num, a[..i])
    modifies a
    ensures Sorted(num, a[..i + 1])
    ensures multiset(a[..]) == multiset(old(a[..]))
    ensures a[i + 1..] == old(a[i + 1..])
  {
    var j := i;
    assert forall p :: 0 <= p < i ==> a[..i][p] == a[p];
    while j > 0 && Compare(num, a[j - 1], a[j]) > 0.0
      invariant 0 <= j <= i
      invariant multiset(a[..]) == multiset(old(a[..]))
      invariant a[i + 1..] == old(a[i + 1..])
      invariant Sinking(num, a[..], i, j)
    {
      CompareIsOrder(num, a[j - 1], a[j]);
      SinkStep(num, a[..], i, j);
      Swap(a, j - 1, j);
      j := j - 1;
    }
    if j > 0 {
      CompareIsOrder(num, a[j - 1], a[j]);
    }
    SinkDone(num, a[..], i, j);
  }

  /** `sortTokens(tokens)` (lines 33-56): sorts the array in place by the
      comparator, then sums the values. The array returned is the one
      given. */
  method SortTokens(num: NumberFn, tokens: array<AssetToken>) returns (amount: real, sorted: array<AssetToken>)
    modifies tokens
    ensures sorted == tokens
    ensures Sorted(num, tokens[..])
    ensures multiset(tokens[..]) == multiset(old(tokens[..]))
    ensures amount == SumPrices(num, old(tokens[..]))
  {
    for i := 0 to tokens.Length
      invariant Sorted(num, tokens[..i])
      invariant multiset(tokens[..]) == multiset(old(tokens[..]))
    {
      InsertDown(num, tokens, i);
    }
    assert tokens[..tokens.Length] == tokens[..];
    amount := 0.0;
    for i := 0 to tokens.Length
      invariant amount == SumPrices(num, tokens[..i])
    {
      assert tokens[..i + 1][..i] == tokens[..i];
      amount := amount + num(tokens[i].price);
    }
    assert tokens[..tokens.Length] == tokens[..];
    SumPermutation(num, tokens[..], old(tokens[..]));
    sorted := tokens;
  }
}
