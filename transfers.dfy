/** Token-transfer lists of a transaction (transfers/ft.tsx, mt.tsx and
    index.tsx): the visible "all" list, the per-account "net" list and the
    section badges. */
module Transfers {
  import opened Wrappers
  import opened Strings

  /** Token metadata; `decimals` is `null` for non-fungible multi-tokens. */
  datatype TokenMeta = TokenMeta(decimals: Option<int>, icon: Option<string>, name: Option<string>, symbol: Option<string>)

  /** One fungible-token balance change (`TxnFT`); `delta_amount` as the
      integer `BigInt` reads it. */
  datatype Ft = Ft(affected: string, contract: string, cause: string, delta: int,
                   involved: Option<string>, meta: TokenMeta)

  /** One multi-token balance change (`TxnMT`). */
  datatype Mt = Mt(affected: string, contract: string, tokenId: string, cause: string, delta: int,
                   involved: Option<string>, baseMeta: Option<TokenMeta>)

  /** One NFT balance change (`TxnNFT`), as far as the badge count reads it. */
  datatype Nft = Nft(delta: int, involved: Option<string>)

  /** An entry of a "net" list (`NetTransfer`); `tokenId` only for MTs. */
  datatype NetTransfer = NetTransfer(affected: string, contract: string, tokenId: Option<string>,
                                     delta: int, meta: Option<TokenMeta>)

  /** A net entry together with the `Map` key it is stored under. */
  datatype Entry = Entry(key: string, net: NetTransfer)

  // ---------------------------------------------------------------------
  // Filtering

  /** The subsequence of `s` whose elements satisfy `p`, in order. */
  function Keep<T>(s: seq<T>, p: T -> bool): (r: seq<T>)
    ensures |r| <= |s|
    ensures forall x :: x in r ==> x in s && p(x)
  {
    if s == [] then [] else Keep(s[..|s| - 1], p) + (if p(s[|s| - 1]) then [s[|s| - 1]] else [])
  }

  /** `Keep` drops nothing it should keep: each value occurs as often as in
      the input when it passes, and not at all otherwise. */
  lemma {:induction false} KeepCounts<T>(s: seq<T>, p: T -> bool, x: T)
    ensures multiset(Keep(s, p))[x] == if p(x) then multiset(s)[x] else 0
  {
    if s != [] {
      var init := s[..|s| - 1];
      KeepCounts(init, p, x);
      assert s == init + [s[|s| - 1]];
    }
  }

  /** The visibility test of ft.tsx:31 and mt.tsx:39,49: incoming, or with
      no counterparty. */
  function Visible(delta: int, involved: Option<string>): (b: bool)
    ensures !b <==> delta <= 0 && involved.Some?
  {
    delta > 0 || involved.None?
  }

  predicate FtVisible(ft: Ft) { Visible(ft.delta, ft.involved) }
  predicate MtVisible(mt: Mt) { Visible(mt.delta, mt.involved) }
  predicate NftVisible(nft: Nft) { Visible(nft.delta, nft.involved) }

  /** An MT with `decimals` is shown like a fungible token (mt.tsx:38). */
  predicate Priced(mt: Mt) { mt.baseMeta.Some? && mt.baseMeta.value.decimals.Some? }

  predicate FtLike(mt: Mt) { Priced(mt) && MtVisible(mt) }
  predicate NftLike(mt: Mt) { !Priced(mt) && MtVisible(mt) }

  /** `transfers` (ft.tsx:28-34): the fts shown under "all". */
  function AllFts(fts: seq<Ft>): (r: seq<Ft>)
    ensures forall ft :: ft in r <==> ft in fts && FtVisible(ft)
  {
    var r := Keep(fts, FtVisible);
    assert forall ft :: ft in fts && FtVisible(ft) ==> ft in r by {
      forall ft | ft in fts && FtVisible(ft)
        ensures ft in r
      {
        KeepCounts(fts, FtVisible, ft);
      }
    }
    r
  }

  /** `ftLike` and `nftLike` (mt.tsx:34-52) split the visible MTs: together
      they hold every visible MT exactly as often as the input does. */
  lemma {:induction false} MtPartition(mts: seq<Mt>)
    ensures multiset(Keep(mts, FtLike)) + multiset(Keep(mts, NftLike)) == multiset(Keep(mts, MtVisible))
    ensures |Keep(mts, FtLike)| + |Keep(mts, NftLike)| == |Keep(mts, MtVisible)|
  {
    if mts != [] {
      MtPartition(mts[..|mts| - 1]);
    }
  }

  /** What `MTTransfers` shows (mt.tsx:54,79,150): the All/Net tabs only
      when some MT is fungible-like, the NFT list only when some MT is
      NFT-like. */
  datatype MtPanels = MtPanels(tabs: bool, nftList: bool)

  function MtPanelsOf(mts: seq<Mt>): (r: MtPanels)
    ensures r.tabs <==> exists mt :: mt in mts && FtLike(mt)
    ensures r.nftList <==> exists mt :: mt in mts && NftLike(mt)
  {
    KeepNonEmpty(mts, FtLike);
    KeepNonEmpty(mts, NftLike);
    MtPanels(|Keep(mts, FtLike)| > 0, |Keep(mts, NftLike)| > 0)
  }

  lemma KeepNonEmpty<T>(s: seq<T>, p: T -> bool)
    ensures |Keep(s, p)| > 0 <==> exists x :: x in s && p(x)
  {
    if exists x :: x in s && p(x) {
      var x :| x in s && p(x);
      KeepCounts(s, p, x);
      assert x in multiset(Keep(s, p));
    }
  }

  // ---------------------------------------------------------------------
  // The net lists

  /** `${affected}:${contract}` (ft.tsx:39): for an account without a
      colon, the key's first colon ends the account and the contract
      follows it. */
  function FtKey(ft: Ft): (k: string)
    ensures |k| == |ft.affected| + 1 + |ft.contract|
    ensures k[..|ft.affected|] == ft.affected && k[|ft.affected| + 1..] == ft.contract
    ensures ColonFree(ft.affected) ==> IndexOf(k, ':') == |ft.affected|
  {
    var k := ft.affected + ":" + ft.contract;
    assert k[..|ft.affected|] == ft.affected && k[|ft.affected| + 1..] == ft.contract;
    if ColonFree(ft.affected) then IndexOfSeparator(ft.affected, ':', ft.contract); k else k
  }

  /** `${affected}:${contract}:${token_id}` (mt.tsx:60): the key splits at
      its first colon into the account and `${contract}:${token_id}`, and
      that rest splits at its first colon into the contract and the token. */
  function MtKey(mt: Mt): (k: string)
    ensures |k| == |mt.affected| + 1 + |mt.contract| + 1 + |mt.tokenId|
    ensures k[..|mt.affected|] == mt.affected
    ensures k[|mt.affected| + 1..] == mt.contract + ":" + mt.tokenId
    ensures ColonFree(mt.affected) ==> IndexOf(k, ':') == |mt.affected|
    ensures ColonFree(mt.contract) ==> IndexOf(mt.contract + ":" + mt.tokenId, ':') == |mt.contract|
  {
    var rest := mt.contract + ":" + mt.tokenId;
    var k := mt.affected + ":" + rest;
    assert k == mt.affected + ":" + mt.contract + ":" + mt.tokenId;
    assert k[..|mt.affected|] == mt.affected && k[|mt.affected| + 1..] == rest;
    if ColonFree(mt.affected) then IndexOfSeparator(mt.affected, ':', rest);
      if ColonFree(mt.contract) then IndexOfSeparator(mt.contract, ':', mt.tokenId); k else k
    else if ColonFree(mt.contract) then IndexOfSeparator(mt.contract, ':', mt.tokenId); k else k
  }

  predicate ColonFree(s: string) {
    Lacks(s, ':')
  }

  /** A key splits uniquely at its first colon when the head has none. */
  lemma SplitAtColon(a1: string, r1: string, a2: string, r2: string)
    requires ColonFree(a1) && ColonFree(a2)
    requires a1 + ":" + r1 == a2 + ":" + r2
    ensures a1 == a2 && r1 == r2
  {
    var k1 := a1 + ":" + r1;
    var k2 := a2 + ":" + r2;
    IndexOfSeparator(a1, ':', r1);
    IndexOfSeparator(a2, ':', r2);
    assert a1 == k1[..|a1|] && a2 == k2[..|a2|];
    assert r1 == k1[|a1| + 1..] && r2 == k2[|a2| + 1..];
  }

  /** Account ids cannot hold a colon, so distinct (account, contract)
      pairs get distinct keys. */
  lemma FtKeyInjective(x: Ft, y: Ft)
    requires ColonFree(x.affected) && ColonFree(y.affected)
    requires FtKey(x) == FtKey(y)
    ensures x.affected == y.affected && x.contract == y.contract
  {
    SplitAtColon(x.affected, x.contract, y.affected, y.contract);
  }

  /** The same for (account, contract, token) triples; the token id may
      hold colons. */
  lemma MtKeyInjective(x: Mt, y: Mt)
    requires ColonFree(x.affected) && ColonFree(y.affected)
    requires ColonFree(x.contract) && ColonFree(y.contract)
    requires MtKey(x) == MtKey(y)
    ensures x.affected == y.affected && x.contract == y.contract && x.tokenId == y.tokenId
  {
    assert MtKey(x) == x.affected + ":" + (x.contract + ":" + x.tokenId);
    assert MtKey(y) == y.affected + ":" + (y.contract + ":" + y.tokenId);
    SplitAtColon(x.affected, x.contract + ":" + x.tokenId, y.affected, y.contract + ":" + y.tokenId);
    SplitAtColon(x.contract, x.tokenId, y.contract, y.tokenId);
  }

  /** The fresh entry an ft would create (ft.tsx:45-50). */
  function FtEntry(ft: Ft): Entry {
    Entry(FtKey(ft), NetTransfer(ft.affected, ft.contract, None, ft.delta, Some(ft.meta)))
  }

  /** The fresh entry an mt would create (mt.tsx:65-71). */
  function MtEntry(mt: Mt): Entry {
    Entry(MtKey(mt), NetTransfer(mt.affected, mt.contract, Some(mt.tokenId), mt.delta, mt.baseMeta))
  }

  function FtEntries(fts: seq<Ft>): (r: seq<Entry>)
    ensures |r| == |fts| && forall i :: 0 <= i < |fts| ==> r[i] == FtEntry(fts[i])
  {
    seq(|fts|, i requires 0 <= i < |fts| => FtEntry(fts[i]))
  }

  function MtEntries(mts: seq<Mt>): (r: seq<Entry>)
    ensures |r| == |mts| && forall i :: 0 <= i < |mts| ==> r[i] == MtEntry(mts[i])
  {
    seq(|mts|, i requires 0 <= i < |mts| => MtEntry(mts[i]))
  }

  /** The position of the first entry with `key`. */
  function KeyIndex(s: seq<Entry>, key: string): (r: Option<nat>)
    ensures r.None? <==> forall j :: 0 <= j < |s| ==> s[j].key != key
    ensures r.Some? ==> r.value < |s| && s[r.value].key == key &&
                        forall j :: 0 <= j < r.value ==> s[j].key != key
  {
    if s == [] then None
    else if s[0].key == key then Some(0)
    else
      match KeyIndex(s[1..], key)
      case None => None
      case Some(j) => Some(j + 1)
  }

  /** One loop step: add the delta to the entry already under the key, or
      insert the fresh entry at the end. */
  function Absorb(acc: seq<Entry>, e: Entry): seq<Entry> {
    match KeyIndex(acc, e.key)
    case None => acc + [e]
    case Some(j) => acc[j := Entry(e.key, acc[j].net.(delta := acc[j].net.delta + e.net.delta))]
  }

  /** The map's values after absorbing `entries` in order. */
  function Aggregate(entries: seq<Entry>): seq<Entry> {
    if entries == [] then [] else Absorb(Aggregate(entries[..|entries| - 1]), entries[|entries| - 1])
  }

  function Nets(acc: seq<Entry>): (r: seq<NetTransfer>)
    ensures |r| == |acc| && forall i :: 0 <= i < |acc| ==> r[i] == acc[i].net
  {
    seq(|acc|, i requires 0 <= i < |acc| => acc[i].net)
  }

  /** `netFts` (ft.tsx:36-54). */
  function NetFtsSpec(fts: seq<Ft>): seq<NetTransfer> {
    Nets(Aggregate(FtEntries(fts)))
  }

  /** `netMts` (mt.tsx:56-75): MTs without decimals are skipped. */
  function NetMtsSpec(mts: seq<Mt>): seq<NetTransfer> {
    Nets(Aggregate(MtEntries(Keep(mts, Priced))))
  }

  predicate Distinct(s: seq<Entry>) {
    forall i, j :: 0 <= i < j < |s| ==> s[i].key != s[j].key
  }

  /** The sum of the deltas stored under `key`. */
  function SumFor(s: seq<Entry>, key: string): int {
    if s == [] then 0
    else SumFor(s[..|s| - 1], key) + (if s[|s| - 1].key == key then s[|s| - 1].net.delta else 0)
  }

  function Total(s: seq<Entry>): int {
    if s == [] then 0 else Total(s[..|s| - 1]) + s[|s| - 1].net.delta
  }

  lemma AggregateSnoc(s: seq<Entry>, e: Entry)
    ensures Aggregate(s + [e]) == Absorb(Aggregate(s), e)
  {
    assert (s + [e])[..|s|] == s;
  }

  lemma {:induction false} KeyIndexSnoc(s: seq<Entry>, e: Entry, k: string)
    ensures KeyIndex(s + [e], k) == if KeyIndex(s, k).Some? then KeyIndex(s, k)
                                    else if e.key == k then Some(|s|) else None
  {
    if s != [] && s[0].key != k {
      KeyIndexSnoc(s[1..], e, k);
      assert (s + [e])[1..] == s[1..] + [e];
    }
  }

  lemma SumAbsent(s: seq<Entry>, k: string)
    requires KeyIndex(s, k).None?
    ensures SumFor(s, k) == 0
  {
    if s != [] {
      SumAbsent(s[..|s| - 1], k);
    }
  }

  /** One step keeps the keys distinct and adds exactly the new key. */
  lemma AbsorbKeys(a: seq<Entry>, e: Entry)
    requires Distinct(a)
    ensures Distinct(Absorb(a, e))
    ensures forall k :: KeyIndex(Absorb(a, e), k).Some? <==> KeyIndex(a, k).Some? || k == e.key
  {
    var a' := Absorb(a, e);
    match KeyIndex(a, e.key)
    case None =>
      forall k
        ensures KeyIndex(a', k).Some? <==> KeyIndex(a, k).Some? || k == e.key
      {
        KeyIndexSnoc(a, e, k);
      }
    case Some(i) =>
      assert forall j :: 0 <= j < |a'| ==> a'[j].key == a[j].key;
  }

  /** The keys stored are exactly the keys seen, each once. */
  lemma {:induction false} AggregateKeys(entries: seq<Entry>)
    ensures Distinct(Aggregate(entries))
    ensures forall k :: KeyIndex(Aggregate(entries), k).Some? <==> KeyIndex(entries, k).Some?
  {
    if entries != [] {
      var p := entries[..|entries| - 1];
      var e := entries[|entries| - 1];
      assert entries == p + [e];
      AggregateKeys(p);
      AggregateSnoc(p, e);
      AbsorbKeys(Aggregate(p), e);
      forall k
        ensures KeyIndex(entries, k).Some? <==> KeyIndex(p, k).Some? || k == e.key
      {
        KeyIndexSnoc(p, e, k);
      }
    }
  }

  /** Each net delta is the sum of every delta under its key, hidden
      transfers included (ft.tsx:40-50). */
  lemma {:induction false} AggregateSums(entries: seq<Entry>)
    ensures var a := Aggregate(entries);
            forall j :: 0 <= j < |a| ==> a[j].net.delta == SumFor(entries, a[j].key)
  {
    if entries != [] {
      var p := entries[..|entries| - 1];
      var e := entries[|entries| - 1];
      assert entries == p + [e];
      assert entries[..|entries| - 1] == p;
      AggregateSums(p);
      AggregateKeys(p);
      AggregateSnoc(p, e);
      var a := Aggregate(p);
      var a' := Absorb(a, e);
      match KeyIndex(a, e.key)
      case None =>
        KeyIndexSnoc(p, e, e.key);
        AggregateKeys(p);
        SumAbsent(p, e.key);
        assert a' == a + [e];
      case Some(i) =>
        forall j | 0 <= j < |a'|
          ensures a'[j].net.delta == SumFor(entries, a'[j].key)
        {
          if j != i {
            assert a'[j] == a[j];
          }
        }
    }
  }

  lemma {:induction false} TotalUpdate(acc: seq<Entry>, i: nat, x: Entry)
    requires i < |acc|
    ensures Total(acc[i := x]) == Total(acc) - acc[i].net.delta + x.net.delta
  {
    var n := |acc|;
    if i < n - 1 {
      TotalUpdate(acc[..n - 1], i, x);
      assert acc[i := x][..n - 1] == acc[..n - 1][i := x];
    } else {
      assert acc[i := x][..n - 1] == acc[..n - 1];
    }
  }

  lemma AbsorbTotal(a: seq<Entry>, e: Entry)
    ensures Total(Absorb(a, e)) == Total(a) + e.net.delta
  {
    match KeyIndex(a, e.key)
    case None =>
      assert (a + [e])[..|a|] == a;
    case Some(i) =>
      TotalUpdate(a, i, Entry(e.key, a[i].net.(delta := a[i].net.delta + e.net.delta)));
  }

  /** Netting conserves the total: the net deltas add up to the input
      deltas (ft.tsx:36-54). */
  lemma {:induction false} AggregateTotal(entries: seq<Entry>)
    ensures Total(Aggregate(entries)) == Total(entries)
  {
    if entries != [] {
      var p := entries[..|entries| - 1];
      var e := entries[|entries| - 1];
      AggregateTotal(p);
      AbsorbTotal(Aggregate(p), e);
    }
  }

  /** A net entry with its delta left out. */
  function Undelta(n: NetTransfer): NetTransfer {
    n.(delta := 0)
  }

  /** One step either appends the new entry or changes one delta only. */
  lemma AbsorbShape(a: seq<Entry>, e: Entry)
    ensures KeyIndex(a, e.key).None? ==> Absorb(a, e) == a + [e]
    ensures KeyIndex(a, e.key).Some? ==>
              |Absorb(a, e)| == |a| &&
              forall j :: 0 <= j < |a| ==> (Absorb(a, e)[j].key == a[j].key &&
                                           Undelta(Absorb(a, e)[j].net) == Undelta(a[j].net))
  {
  }

  /** Where a stored key was first seen does not move when an entry is
      appended. */
  lemma FirstSeenStable(p: seq<Entry>, e: Entry, a: seq<Entry>)
    requires forall k :: KeyIndex(a, k).Some? <==> KeyIndex(p, k).Some?
    ensures forall j :: 0 <= j < |a| ==> KeyIndex(p + [e], a[j].key) == KeyIndex(p, a[j].key)
  {
    forall j | 0 <= j < |a|
      ensures KeyIndex(p + [e], a[j].key) == KeyIndex(p, a[j].key)
    {
      assert KeyIndex(a, a[j].key).Some?;
      KeyIndexSnoc(p, e, a[j].key);
    }
  }

  /** Every entry of `a` carries, apart from its delta, what the first
      entry of `entries` under its key carries. */
  ghost predicate FromFirst(entries: seq<Entry>, a: seq<Entry>) {
    forall j :: 0 <= j < |a| ==>
      KeyIndex(entries, a[j].key).Some? &&
      Undelta(a[j].net) == Undelta(entries[KeyIndex(entries, a[j].key).value].net)
  }

  /** Everything but the delta comes from the first transfer under the key
      (ft.tsx:44-50). */
  lemma {:induction false} AggregateFirst(entries: seq<Entry>)
    ensures FromFirst(entries, Aggregate(entries))
  {
    if entries != [] {
      var p := entries[..|entries| - 1];
      var e := entries[|entries| - 1];
      assert entries == p + [e];
      AggregateFirst(p);
      AggregateKeys(p);
      var a := Aggregate(p);
      var a' := Absorb(a, e);
      AbsorbShape(a, e);
      FirstSeenStable(p, e, a);
      forall j | 0 <= j < |a'|
        ensures KeyIndex(entries, a'[j].key).Some? &&
                Undelta(a'[j].net) == Undelta(entries[KeyIndex(entries, a'[j].key).value].net)
      {
        if j < |a| {
          assert a'[j].key == a[j].key && Undelta(a'[j].net) == Undelta(a[j].net) by {
            if KeyIndex(a, e.key).None? {
              assert a'[j] == (a + [e])[j];
            }
          }
          assert KeyIndex(p + [e], a[j].key) == KeyIndex(p, a[j].key);
          var f := KeyIndex(p, a[j].key).value;
          assert Undelta(a[j].net) == Undelta(p[f].net);
          assert entries[f] == p[f];
        } else {
          assert KeyIndex(a, e.key).None?;
          KeyIndexSnoc(p, e, e.key);
          assert a'[j] == e;
        }
      }
    }
  }

  /** The keys of `a` first occur in `entries` in the order of `a`. */
  ghost predicate InFirstOrder(entries: seq<Entry>, a: seq<Entry>) {
    forall i, j :: 0 <= i < j < |a| ==>
      KeyIndex(entries, a[i].key).Some? && KeyIndex(entries, a[j].key).Some? &&
      KeyIndex(entries, a[i].key).value < KeyIndex(entries, a[j].key).value
  }

  /** The entries follow the order in which their keys first occur
      (`Map` iterates in insertion order). */
  lemma {:induction false} AggregateOrder(entries: seq<Entry>)
    ensures InFirstOrder(entries, Aggregate(entries))
  {
    if entries != [] {
      var p := entries[..|entries| - 1];
      var e := entries[|entries| - 1];
      assert entries == p + [e];
      AggregateOrder(p);
      AggregateKeys(p);
      var a := Aggregate(p);
      var a' := Absorb(a, e);
      AbsorbShape(a, e);
      FirstSeenStable(p, e, a);
      if KeyIndex(a, e.key).None? {
        KeyIndexSnoc(p, e, e.key);
      }
      forall i, j | 0 <= i < j < |a'|
        ensures KeyIndex(entries, a'[i].key).Some? && KeyIndex(entries, a'[j].key).Some? &&
                KeyIndex(entries, a'[i].key).value < KeyIndex(entries, a'[j].key).value
      {
        assert a'[i].key == a[i].key;
        if j < |a| {
          assert a'[j].key == a[j].key;
        }
      }
    }
  }

  // ---------------------------------------------------------------------
  // The loops of ft.tsx:36-54 and mt.tsx:56-75

  /** The map and its insertion order hold exactly the entries of `acc`. */
  ghost predicate Mirrors(m: map<string, NetTransfer>, order: seq<string>, acc: seq<Entry>) {
    |order| == |acc| && Distinct(acc) &&
    (forall j :: 0 <= j < |acc| ==> order[j] == acc[j].key && acc[j].key in m && m[acc[j].key] == acc[j].net) &&
    (forall k :: k in m ==> KeyIndex(acc, k).Some?)
  }

  /** The loop body: `map.get(key)`, then add to it or `map.set`. */
  method Put(m: map<string, NetTransfer>, order: seq<string>, e: Entry, ghost acc: seq<Entry>)
    returns (m': map<string, NetTransfer>, order': seq<string>)
    requires Mirrors(m, order, acc)
    ensures Mirrors(m', order', Absorb(acc, e))
  {
    if e.key in m {
      var prev := m[e.key];
      m' := m[e.key := prev.(delta := prev.delta + e.net.delta)];
      order' := order;
      MirrorsAdd(m, order, acc, e);
    } else {
      m' := m[e.key := e.net];
      order' := order + [e.key];
      MirrorsInsert(m, order, acc, e);
    }
  }

  /** A key already in the map: its delta grows, its place stays. */
  lemma MirrorsAdd(m: map<string, NetTransfer>, order: seq<string>, acc: seq<Entry>, e: Entry)
    requires Mirrors(m, order, acc) && e.key in m
    ensures Mirrors(m[e.key := m[e.key].(delta := m[e.key].delta + e.net.delta)], order, Absorb(acc, e))
  {
    var i := KeyIndex(acc, e.key).value;
    var n := acc[i].net.(delta := acc[i].net.delta + e.net.delta);
    assert Absorb(acc, e) == acc[i := Entry(e.key, n)];
    MirrorsUpdate(m, order, acc, i, n);
  }

  /** Replacing the value stored under an existing key. */
  lemma MirrorsUpdate(m: map<string, NetTransfer>, order: seq<string>, acc: seq<Entry>, i: nat, n: NetTransfer)
    requires Mirrors(m, order, acc) && i < |acc|
    ensures Mirrors(m[acc[i].key := n], order, acc[i := Entry(acc[i].key, n)])
  {
    var a := acc[i := Entry(acc[i].key, n)];
    var m' := m[acc[i].key := n];
    forall j | 0 <= j < |a|
      ensures order[j] == a[j].key && a[j].key in m' && m'[a[j].key] == a[j].net
    {
      if j != i {
        assert a[j] == acc[j] && acc[j].key != acc[i].key;
      }
    }
    forall j1, j2 | 0 <= j1 < j2 < |a|
      ensures a[j1].key != a[j2].key
    {
      assert a[j1].key == acc[j1].key && a[j2].key == acc[j2].key;
    }
    forall k | k in m'
      ensures KeyIndex(a, k).Some?
    {
      var j := KeyIndex(acc, k).value;
      assert a[j].key == k;
    }
  }

  /** A new key: `map.set` appends it to the insertion order. */
  lemma MirrorsInsert(m: map<string, NetTransfer>, order: seq<string>, acc: seq<Entry>, e: Entry)
    requires Mirrors(m, order, acc) && e.key !in m
    ensures Mirrors(m[e.key := e.net], order + [e.key], Absorb(acc, e))
  {
    assert KeyIndex(acc, e.key).None?;
    assert Absorb(acc, e) == acc + [e];
    forall k | k in m[e.key := e.net]
      ensures KeyIndex(acc + [e], k).Some?
    {
      KeyIndexSnoc(acc, e, k);
    }
  }

  /** `Array.from(map.values())`: the values in insertion order. */
  method Values(m: map<string, NetTransfer>, order: seq<string>, ghost acc: seq<Entry>)
    returns (nets: seq<NetTransfer>)
    requires Mirrors(m, order, acc)
    ensures nets == Nets(acc)
  {
    nets := [];
    for j := 0 to |order|
      invariant |nets| == j && forall t :: 0 <= t < j ==> nets[t] == acc[t].net
    {
      nets := nets + [m[order[j]]];
    }
  }

  method NetFts(fts: seq<Ft>) returns (nets: seq<NetTransfer>)
    ensures nets == NetFtsSpec(fts)
  {
    var m: map<string, NetTransfer> := map[];
    var order: seq<string> := [];
    for i := 0 to |fts|
      invariant Mirrors(m, order, Aggregate(FtEntries(fts[..i])))
    {
      assert FtEntries(fts[..i + 1]) == FtEntries(fts[..i]) + [FtEntry(fts[i])];
      AggregateSnoc(FtEntries(fts[..i]), FtEntry(fts[i]));
      m, order := Put(m, order, FtEntry(fts[i]), Aggregate(FtEntries(fts[..i])));
    }
    assert fts[..|fts|] == fts;
    nets := Values(m, order, Aggregate(FtEntries(fts)));
  }

  method NetMts(mts: seq<Mt>) returns (nets: seq<NetTransfer>)
    ensures nets == NetMtsSpec(mts)
  {
    var m: map<string, NetTransfer> := map[];
    var order: seq<string> := [];
    for i := 0 to |mts|
      invariant Mirrors(m, order, Aggregate(MtEntries(Keep(mts[..i], Priced))))
    {
      MtStep(mts, i);
      if !Priced(mts[i]) {
        continue;
      }
      m, order := Put(m, order, MtEntry(mts[i]), Aggregate(MtEntries(Keep(mts[..i], Priced))));
    }
    assert mts[..|mts|] == mts;
    nets := Values(m, order, Aggregate(MtEntries(Keep(mts, Priced))));
  }

  /** One turn of the `netMts` loop: a skipped MT leaves the aggregate as
      it is, a priced one is absorbed. */
  lemma MtStep(mts: seq<Mt>, i: nat)
    requires i < |mts|
    ensures var before := Aggregate(MtEntries(Keep(mts[..i], Priced)));
            Aggregate(MtEntries(Keep(mts[..i + 1], Priced))) ==
              if Priced(mts[i]) then Absorb(before, MtEntry(mts[i])) else before
  {
    assert mts[..i + 1][..i] == mts[..i];
    var kept := Keep(mts[..i], Priced);
    if Priced(mts[i]) {
      assert Keep(mts[..i + 1], Priced) == kept + [mts[i]];
      assert MtEntries(kept + [mts[i]]) == MtEntries(kept) + [MtEntry(mts[i])];
      AggregateSnoc(MtEntries(kept), MtEntry(mts[i]));
    } else {
      assert Keep(mts[..i + 1], Priced) == kept;
    }
  }

  /** ft.tsx:103 and mt.tsx:127. */
  function NetLabel(delta: int): (text: string)
    ensures text == "received" <==> delta >= 0
    ensures text == "sent" <==> delta < 0
  {
    if delta >= 0 then "received" else "sent"
  }

  // ---------------------------------------------------------------------
  // The section headers of index.tsx

  /** A section header: whether it shows, and its count badge. */
  datatype Section = Section(shown: bool, badge: Option<nat>)

  function SectionOf<T>(loading: bool, items: Option<seq<T>>, count: nat): (s: Section)
    ensures s.shown <==> loading || (items.Some? && |items.value| > 0)
    ensures s.badge.Some? <==> !loading && items.Some?
    ensures s.badge.Some? ==> s.badge.value == count
  {
    Section(loading || (items.Some? && |items.value| > 0), if !loading && items.Some? then Some(count) else None)
  }

  function FtSection(loading: bool, fts: Option<seq<Ft>>): Section {
    SectionOf(loading, fts, match fts case None => 0 case Some(s) => |Keep(s, FtVisible)|)
  }

  function NftSection(loading: bool, nfts: Option<seq<Nft>>): Section {
    SectionOf(loading, nfts, match nfts case None => 0 case Some(s) => |Keep(s, NftVisible)|)
  }

  /** `mtFtCount + mtNftCount` (index.tsx:23-35,126). */
  function MtSection(loading: bool, mts: Option<seq<Mt>>): Section {
    var ftCount := match mts case None => 0 case Some(s) => |Keep(s, FtLike)|;
    var nftCount := match mts case None => 0 case Some(s) => |Keep(s, NftLike)|;
    SectionOf(loading, mts, ftCount + nftCount)
  }

  /** The MT badge counts exactly the visible MTs. */
  lemma MtBadgeCountsVisible(loading: bool, mts: seq<Mt>)
    requires !loading
    ensures MtSection(loading, Some(mts)).badge == Some(|Keep(mts, MtVisible)|)
  {
    MtPartition(mts);
  }

  /** The FT badge counts the rows of the "all" tab. */
  lemma FtBadgeCountsRows(mts: seq<Ft>)
    ensures FtSection(false, Some(mts)).badge == Some(|AllFts(mts)|)
  {
  }
}
