/** Borsh decoding of the Aurora `submit_with_args` argument struct:
    `tx_data: Vec<u8>` (little-endian u32 length then the bytes),
    `max_gas_price: Option<u128>` and `gas_token_address: Option<[u8; 20]>`
    (each option a tag byte, 0 for none and 1 for some). Bytes after the last
    field are not examined. */
module Borsh {
  import opened Wrappers
  import opened Base64

  datatype SubmitArgs = SubmitArgs(
    txData: seq<byte>,
    maxGasPrice: Option<nat>,
    gasTokenAddress: Option<seq<byte>>)

  function Pow256(k: nat): (r: nat)
    ensures r >= 1
  {
    if k == 0 then 1 else 256 * Pow256(k - 1)
  }

  /** The unsigned integer whose little-endian bytes are `bs`. */
  function LeValue(bs: seq<byte>): (r: nat)
    ensures r < Pow256(|bs|)
  {
    if bs == [] then 0 else bs[0] + 256 * LeValue(bs[1..])
  }

  /** The `k` little-endian bytes of `n` (taken modulo 256^k). */
  function LeBytes(n: nat, k: nat): (r: seq<byte>)
    ensures |r| == k
  {
    if k == 0 then [] else [n % 256] + LeBytes(n / 256, k - 1)
  }

  lemma {:induction false} LeValueOfBytes(n: nat, k: nat)
    requires n < Pow256(k)
    ensures LeValue(LeBytes(n, k)) == n
  {
    if k > 0 {
      LeValueOfBytes(n / 256, k - 1);
      assert LeBytes(n, k)[1..] == LeBytes(n / 256, k - 1);
    }
  }

  lemma {:induction false} LeBytesOfValue(bs: seq<byte>)
    ensures LeBytes(LeValue(bs), |bs|) == bs
  {
    if bs != [] {
      var v := LeValue(bs[1..]);
      assert (bs[0] + 256 * v) % 256 == bs[0];
      assert (bs[0] + 256 * v) / 256 == v;
      LeBytesOfValue(bs[1..]);
      assert bs == [bs[0]] + bs[1..];
    }
  }

  /** What the schema can represent: a length that fits in u32, a price that
      fits in u128, an address of exactly 20 bytes. */
  predicate WellFormed(a: SubmitArgs) {
    |a.txData| < Pow256(4) &&
    (a.maxGasPrice.Some? ==> a.maxGasPrice.value < Pow256(16)) &&
    (a.gasTokenAddress.Some? ==> |a.gasTokenAddress.value| == 20)
  }

  function EncodeU128Option(p: Option<nat>): seq<byte> {
    match p
    case None => [0]
    case Some(v) => [1] + LeBytes(v, 16)
  }

  function EncodeAddressOption(a: Option<seq<byte>>): seq<byte> {
    match a
    case None => [0]
    case Some(v) => [1] + v
  }

  function Encode(a: SubmitArgs): seq<byte> {
    LeBytes(|a.txData|, 4) + a.txData + EncodeU128Option(a.maxGasPrice) + EncodeAddressOption(a.gasTokenAddress)
  }

  /** An option tag, then its payload of `width` bytes when the tag is 1;
      any other tag is a decode error. Returns the payload and the rest. */
  function DecodeOptionBytes(bs: seq<byte>, width: nat): (r: Option<(Option<seq<byte>>, seq<byte>)>)
    ensures r.Some? ==> (r.value.0.Some? ==> |r.value.0.value| == width)
    ensures r.Some? ==> bs == (if r.value.0.None? then [0] else [1] + r.value.0.value) + r.value.1
  {
    if |bs| == 0 then None
    else if bs[0] == 0 then Some((None, bs[1..]))
    else if bs[0] == 1 && |bs| >= 1 + width then Some((Some(bs[1..1 + width]), bs[1 + width..]))
    else None
  }

  /** A `Vec<u8>`: a u32 little-endian length, then that many bytes. */
  function DecodeVec(bs: seq<byte>): (r: Option<(seq<byte>, seq<byte>)>)
    ensures r.Some? ==> |r.value.0| < Pow256(4) && bs == LeBytes(|r.value.0|, 4) + r.value.0 + r.value.1
  {
    if |bs| < 4 then None
    else
      var len := LeValue(bs[..4]);
      LeBytesOfValue(bs[..4]);
      if |bs| < 4 + len then None
      else
        assert bs == bs[..4] + bs[4..4 + len] + bs[4 + len..];
        Some((bs[4..4 + len], bs[4 + len..]))
  }

  /** `borsh.deserialize(submitArgsSchema, bytes)`, `None` where it throws. */
  function Decode(bs: seq<byte>): Option<SubmitArgs> {
    match DecodeVec(bs)
    case None => None
    case Some((txData, rest1)) =>
      match DecodeOptionBytes(rest1, 16)
      case None => None
      case Some((price, rest2)) =>
        match DecodeOptionBytes(rest2, 20)
        case None => None
        case Some((token, _)) =>
          Some(SubmitArgs(txData, if price.None? then None else Some(LeValue(price.value)), token))
  }

  function EncodeOption(o: Option<seq<byte>>): seq<byte> {
    match o
    case None => [0]
    case Some(v) => [1] + v
  }

  lemma DecodeOptionOfEncoding(o: Option<seq<byte>>, width: nat, rest: seq<byte>)
    requires o.Some? ==> |o.value| == width
    ensures DecodeOptionBytes(EncodeOption(o) + rest, width) == Some((o, rest))
  {
    var bs := EncodeOption(o) + rest;
    if o.Some? {
      assert bs[1..1 + width] == o.value;
      assert bs[1 + width..] == rest;
    } else {
      assert bs[1..] == rest;
    }
  }

  lemma DecodeVecOfEncoding(tx: seq<byte>, rest: seq<byte>)
    requires |tx| < Pow256(4)
    ensures DecodeVec(LeBytes(|tx|, 4) + tx + rest) == Some((tx, rest))
  {
    LeValueOfBytes(|tx|, 4);
    SplitThree(LeBytes(|tx|, 4), tx, rest);
  }

  /** The three parts of a concatenation, sliced back out. */
  lemma SplitThree<T>(a: seq<T>, b: seq<T>, c: seq<T>)
    ensures var s := a + b + c;
            s[..|a|] == a && s[|a|..|a| + |b|] == b && s[|a| + |b|..] == c
  {
  }

  /** The price option's payload bytes, as `Encode` writes them. */
  function PriceBytes(a: SubmitArgs): Option<seq<byte>> {
    if a.maxGasPrice.None? then None else Some(LeBytes(a.maxGasPrice.value, 16))
  }

  /** An encoding followed by trailing bytes, split into its three fields. */
  lemma EncodingLayout(a: SubmitArgs, trailing: seq<byte>)
    ensures Encode(a) + trailing ==
            LeBytes(|a.txData|, 4) + a.txData + (EncodeOption(PriceBytes(a)) + (EncodeOption(a.gasTokenAddress) + trailing))
  {
    assert EncodeU128Option(a.maxGasPrice) == EncodeOption(PriceBytes(a));
    assert EncodeAddressOption(a.gasTokenAddress) == EncodeOption(a.gasTokenAddress);
  }

  /** Decoding an encoding, whatever follows it, gives the struct back. */
  lemma DecodeEncode(a: SubmitArgs, trailing: seq<byte>)
    requires WellFormed(a)
    ensures Decode(Encode(a) + trailing) == Some(a)
  {
    var priceBytes := PriceBytes(a);
    var rest2 := EncodeOption(a.gasTokenAddress) + trailing;
    var rest1 := EncodeOption(priceBytes) + rest2;
    EncodingLayout(a, trailing);
    DecodeVecOfEncoding(a.txData, rest1);
    DecodeOptionOfEncoding(priceBytes, 16, rest2);
    DecodeOptionOfEncoding(a.gasTokenAddress, 20, trailing);
    if a.maxGasPrice.Some? {
      LeValueOfBytes(a.maxGasPrice.value, 16);
    }
  }

  /** Conversely, whatever decodes does so from a well-formed encoding that
      is a prefix of the input. */
  lemma DecodeIsPrefix(bs: seq<byte>)
    requires Decode(bs).Some?
    ensures WellFormed(Decode(bs).value)
    ensures exists trailing :: bs == Encode(Decode(bs).value) + trailing
  {
    var a := Decode(bs).value;
    var (tx, rest1) := DecodeVec(bs).value;
    var (price, rest2) := DecodeOptionBytes(rest1, 16).value;
    var (token, trailing) := DecodeOptionBytes(rest2, 20).value;
    assert PriceBytes(a) == price by {
      if price.Some? {
        LeBytesOfValue(price.value);
      }
    }
    assert rest1 == EncodeOption(price) + rest2;
    assert rest2 == EncodeOption(token) + trailing;
    EncodingLayout(a, trailing);
  }
}
