/** Conversion of an EVM transaction object into a plain JSON record
    (`toPlainObject`), and `parseEvmTransaction`, whose EVM parser
    (`Transaction.from(hexlify(bytes))`) is a parameter of the model. */
module Evm {
  import opened Wrappers
  import opened Json
  import opened Base64
  import Strings

  /** A JavaScript value reached through the transaction's getters. An object
      lists the values of the getters its prototype declares, in declaration
      order, and its own enumerable properties. */
  datatype Raw =
    | RUndefined
    | RNull
    | RBool(b: bool)
    | RNum(n: int)
    | RBigInt(big: int)
    | RStr(s: string)
    | RList(elems: seq<Raw>)
    | RObj(getters: seq<RawField>, own: seq<RawField>)

  datatype RawField = RawField(name: string, val: Raw)

  /** `val != null` */
  predicate IsNullish(r: Raw) {
    r.RUndefined? || r.RNull?
  }

  /** The plain value of `r`. A bigint becomes its decimal string; an object
      whose prototype has getters becomes the record of its non-null getter
      values; one without getters becomes the record of its non-null own
      entries, or `String(obj)` when it has none. `undefined` inside an
      array is written as JSON `null`. */
  function Plain(r: Raw): Json
    decreases r
  {
    match r
    case RUndefined => JNull
    case RNull => JNull
    case RBool(b) => JBool(b)
    case RNum(n) => JNum(n)
    case RBigInt(n) => JStr(Strings.Decimal(n))
    case RStr(s) => JStr(s)
    case RList(elems) => JArr(PlainList(elems))
    case RObj(getters, own) =>
      if getters != [] then JObj(PlainRecord(getters))
      else if own == [] then JStr("[object Object]")
      else JObj(PlainRecord(own))
  }

  function PlainList(elems: seq<Raw>): (r: seq<Json>)
    decreases elems
    ensures |r| == |elems|
  {
    if elems == [] then []
    else PlainList(elems[..|elems| - 1]) + [Plain(elems[|elems| - 1])]
  }

  /** The non-null fields, converted, in order. */
  function PlainRecord(fs: seq<RawField>): seq<Field>
    decreases fs
  {
    if fs == [] then []
    else
      var last := fs[|fs| - 1];
      PlainRecord(fs[..|fs| - 1]) + (if IsNullish(last.val) then [] else [Field(last.name, Plain(last.val))])
  }

  /** `toPlainObject(obj)`, filling the result record field by field. */
  method ToPlainObject(r: Raw) returns (j: Json)
    ensures j == Plain(r)
    decreases r
  {
    match r {
      case RUndefined => j := JNull;
      case RNull => j := JNull;
      case RBool(b) => j := JBool(b);
      case RNum(n) => j := JNum(n);
      case RBigInt(n) => j := JStr(Strings.Decimal(n));
      case RStr(s) => j := JStr(s);
      case RList(elems) =>
        var out: seq<Json> := [];
        for i := 0 to |elems|
          invariant out == PlainList(elems[..i])
        {
          var e := ToPlainObject(elems[i]);
          assert elems[..i + 1][..i] == elems[..i];
          out := out + [e];
        }
        assert elems[..|elems|] == elems;
        j := JArr(out);
      case RObj(getters, own) =>
        if getters == [] && own == [] {
          j := JStr("[object Object]");
        } else {
          var entries := if getters != [] then getters else own;
          var plain: seq<Field> := [];
          for i := 0 to |entries|
            invariant plain == PlainRecord(entries[..i])
          {
            var f := entries[i];
            assert entries[..i + 1][..i] == entries[..i];
            if !IsNullish(f.val) {
              var v := ToPlainObject(f.val);
              plain := plain + [Field(f.name, v)];
            }
          }
          assert entries[..|entries|] == entries;
          j := JObj(plain);
        }
    }
  }

  lemma {:induction false} PlainRecordKeys(fs: seq<RawField>, k: string)
    ensures HasKey(PlainRecord(fs), k) <==> exists i :: 0 <= i < |fs| && fs[i].name == k && !IsNullish(fs[i].val)
    decreases |fs|
  {
    if fs != [] {
      var init := fs[..|fs| - 1];
      PlainRecordKeys(init, k);
      var p := PlainRecord(init);
      var last := fs[|fs| - 1];
      var tail: seq<Field> := if IsNullish(last.val) then [] else [Field(last.name, Plain(last.val))];
      assert PlainRecord(fs) == p + tail;
      if HasKey(p + tail, k) {
        var i :| 0 <= i < |p + tail| && (p + tail)[i].key == k;
        if i < |p| {
          assert HasKey(p, k);
          var m :| 0 <= m < |init| && init[m].name == k && !IsNullish(init[m].val);
          assert fs[m] == init[m];
        }
      }
      if exists i :: 0 <= i < |fs| && fs[i].name == k && !IsNullish(fs[i].val) {
        var i :| 0 <= i < |fs| && fs[i].name == k && !IsNullish(fs[i].val);
        if i < |fs| - 1 {
          assert init[i] == fs[i];
          var m :| 0 <= m < |p| && p[m].key == k;
          assert (p + tail)[m] == p[m];
        } else {
          assert (p + tail)[|p|].key == k;
        }
      }
    }
  }

  lemma {:induction false} PlainRecordNoNulls(fs: seq<RawField>)
    ensures forall i :: 0 <= i < |PlainRecord(fs)| ==> PlainRecord(fs)[i].value != JNull
    decreases |fs|
  {
    if fs != [] {
      PlainRecordNoNulls(fs[..|fs| - 1]);
      var last := fs[|fs| - 1];
      if !IsNullish(last.val) {
        assert Plain(last.val) != JNull by {
          match last.val
          case RObj(g, o) =>
          case RList(_) =>
          case _ =>
        }
      }
    }
  }

  /** The record made from an object: it has a key exactly where the
      object's chosen field list (getters when the prototype has any, else
      own entries) has a non-null value, and no value in it is `null`. */
  lemma PlainObjectShape(getters: seq<RawField>, own: seq<RawField>, k: string)
    requires getters != [] || own != []
    ensures var entries := if getters != [] then getters else own;
            Plain(RObj(getters, own)).JObj? &&
            (HasKey(Plain(RObj(getters, own)).fields, k) <==>
              exists i :: 0 <= i < |entries| && entries[i].name == k && !IsNullish(entries[i].val)) &&
            forall i :: 0 <= i < |Plain(RObj(getters, own)).fields| ==> Plain(RObj(getters, own)).fields[i].value != JNull
  {
    var entries := if getters != [] then getters else own;
    PlainRecordKeys(entries, k);
    PlainRecordNoNulls(entries);
  }

  /** Bigints are rendered as decimal strings, never as numbers. */
  lemma BigIntAsDecimal(n: int)
    ensures Plain(RBigInt(n)) == JStr(Strings.Decimal(n))
    ensures (n < 0) <==> Plain(RBigInt(n)).s[0] == '-'
  {
  }

  /** `Transaction.from(hexlify(bytes))`: the getter fields of the parsed
      transaction, `None` where the EVM parser throws. */
  type EvmParser = seq<byte> -> Option<seq<RawField>>

  /** `parseEvmTransaction(input)`: the plain record of the parsed
      transaction, or `None` when parsing fails. */
  function ParseEvmTransaction(parser: EvmParser, input: seq<byte>): (r: Option<seq<Field>>)
    ensures r.None? <==> parser(input).None?
    ensures r.Some? ==> forall k :: HasKey(r.value, k) <==>
              exists i :: 0 <= i < |parser(input).value| && parser(input).value[i].name == k &&
                          !IsNullish(parser(input).value[i].val)
  {
    match parser(input)
    case None => None
    case Some(getters) =>
      forall k ensures HasKey(PlainRecord(getters), k) <==>
          exists i :: 0 <= i < |getters| && getters[i].name == k && !IsNullish(getters[i].val) {
        PlainRecordKeys(getters, k);
      }
      Some(PlainRecord(getters))
  }
}
