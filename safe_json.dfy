/** `safeStringify` (apps/frontend/src/lib/json.ts): a JSON serialiser
    that narrows BigInts, honours `toJSON` and replaces a reference back to
    an ancestor by a cycle marker. JavaScript objects live in an explicit
    heap so that sharing and cycles can be expressed. */
module SafeJson {
  import opened Wrappers
  import opened Strings
  import opened Json

  type Ref = nat

  /** A JavaScript value reaching the serialiser; numbers are integers. */
  datatype Val =
    | VUndefined
    | VNull
    | VBool(b: bool)
    | VNum(n: int)
    | VStr(s: string)
    | VBigInt(big: int)
    | VRef(r: Ref)

  /** An own enumerable property. */
  datatype Prop = Prop(key: string, val: Val)

  /** A heap object; `toJson` is what its `toJSON()` returns, if it has one. */
  datatype Obj =
    | ArrayObj(items: seq<Val>, toJson: Option<Val>)
    | RecordObj(props: seq<Prop>, toJson: Option<Val>)

  type Heap = map<Ref, Obj>

  predicate RefIn(v: Val, heap: Heap) {
    v.VRef? ==> v.r in heap
  }

  predicate ItemsIn(items: seq<Val>, heap: Heap) {
    forall i :: 0 <= i < |items| ==> RefIn(items[i], heap)
  }

  predicate PropsIn(props: seq<Prop>, heap: Heap) {
    forall i :: 0 <= i < |props| ==> RefIn(props[i].val, heap)
  }

  predicate ObjIn(o: Obj, heap: Heap) {
    (o.toJson.Some? ==> RefIn(o.toJson.value, heap)) &&
    match o
    case ArrayObj(items, _) => ItemsIn(items, heap)
    case RecordObj(props, _) => PropsIn(props, heap)
  }

  /** Every reference stored in the heap points into it. */
  ghost predicate Closed(heap: Heap) {
    forall r :: r in heap ==> ObjIn(heap[r], heap)
  }

  /** `Number.MAX_SAFE_INTEGER`, 2^53 - 1. */
  const MaxSafe: int := 9007199254740991

  /** Lines 31-33: a value with `toJSON` is replaced by its result, once. */
  function Replaced(heap: Heap, v: Val): (w: Val)
    requires RefIn(v, heap)
  {
    if v.VRef? && heap[v.r].toJson.Some? then heap[v.r].toJson.value else v
  }

  /** Lines 53-59: the marker for a reference back to an ancestor. */
  function CircularMarker(trace: bool, at: string): (m: string)
    ensures !trace ==> m == "[Circular]"
    ensures trace && at == "" ==> m == "[Circular *]"
    ensures trace && at != "" ==> m == "[Circular *" + at + "]"
  {
    if !trace then "[Circular]" else if at == "" then "[Circular *]" else "[Circular *" + at + "]"
  }

  /** Lines 68-69 and 75-76: a child's path is its bare key under the root,
      else the parent path, ".", and the key. */
  function ChildPath(path: string, key: string): (p: string)
    ensures path == "" ==> p == key
    ensures path != "" ==> p == path + "." + key
  {
    if path == "" then key else path + "." + key
  }

  /** Lines 35-40: a BigInt within the safe range becomes a number, any
      other its decimal text. */
  function NarrowBigInt(n: int): (j: Json)
    ensures -MaxSafe <= n <= MaxSafe ==> j == JNum(n)
    ensures !(-MaxSafe <= n <= MaxSafe) ==> j == JStr(Decimal(n))
  {
    if -MaxSafe <= n && n <= MaxSafe then JNum(n) else JStr(Decimal(n))
  }

  lemma RemoveAdded(outer: map<Ref, string>, r: Ref, path: string)
    requires r !in outer
    ensures outer[r := path] - {r} == outer
  {
  }

  lemma UnseenShrinks(all: set<Ref>, seen: map<Ref, string>, r: Ref, path: string)
    requires seen.Keys <= all && r in all && r !in seen
    ensures seen[r := path].Keys <= all
    ensures |all - seen[r := path].Keys| < |all - seen.Keys|
  {
    assert all - seen[r := path].Keys == (all - seen.Keys) - {r};
  }

  /** `serializeValue(v, seen, trace, path)` (lines 25-89) as a function of
      the ancestors in `seen`, each mapped to its path. */
  function Serialized(heap: Heap, trace: bool, seen: map<Ref, string>, v: Val, path: string): Json
    requires Closed(heap) && seen.Keys <= heap.Keys && RefIn(v, heap)
    decreases |heap.Keys - seen.Keys|, 1
  {
    var w := Replaced(heap, v);
    match w
    case VBigInt(n) => NarrowBigInt(n)
    case VUndefined => JNull
    case VNull => JNull
    case VBool(b) => JBool(b)
    case VNum(n) => JNum(n)
    case VStr(s) => JStr(s)
    case VRef(r) =>
      if r in seen then JStr(CircularMarker(trace, seen[r]))
      else
        match heap[r]
        case ArrayObj(items, _) => JArr(SerializedItems(heap, trace, seen, r, path, items))
        case RecordObj(props, _) => JObj(SerializedProps(heap, trace, seen, r, path, props))
  }

  /** The elements of array `r` at `path`, with `r` added to the ancestors. */
  function SerializedItems(heap: Heap, trace: bool, outer: map<Ref, string>, r: Ref, path: string, items: seq<Val>)
    : (out: seq<Json>)
    requires Closed(heap) && outer.Keys <= heap.Keys && r in heap && r !in outer && ItemsIn(items, heap)
    ensures |out| == |items|
    ensures forall i :: 0 <= i < |items| ==>
              out[i] == Serialized(heap, trace, outer[r := path], items[i], ChildPath(path, NatToDecimal(i)))
    decreases |heap.Keys - outer.Keys|, 0
  {
    var inner := outer[r := path];
    UnseenShrinks(heap.Keys, outer, r, path);
    seq(|items|, i requires 0 <= i < |items| => Serialized(heap, trace, inner, items[i], ChildPath(path, NatToDecimal(i))))
  }

  /** The properties of record `r` at `path`, with `r` added to the
      ancestors. */
  function SerializedProps(heap: Heap, trace: bool, outer: map<Ref, string>, r: Ref, path: string, props: seq<Prop>)
    : (out: seq<Field>)
    requires Closed(heap) && outer.Keys <= heap.Keys && r in heap && r !in outer && PropsIn(props, heap)
    ensures |out| == |props|
    ensures forall i :: 0 <= i < |props| ==>
              out[i] == Field(props[i].key, Serialized(heap, trace, outer[r := path], props[i].val, ChildPath(path, props[i].key)))
    decreases |heap.Keys - outer.Keys|, 0
  {
    var inner := outer[r := path];
    UnseenShrinks(heap.Keys, outer, r, path);
    seq(|props|, i requires 0 <= i < |props| =>
          Field(props[i].key, Serialized(heap, trace, inner, props[i].val, ChildPath(path, props[i].key))))
  }

  /** `safeStringify(value, {indentation, trace})` (lines 91-98). */
  function SafeStringify(stringify: Stringifier, heap: Heap, trace: bool, v: Val): string
    requires Closed(heap) && RefIn(v, heap)
  {
    stringify(Serialized(heap, trace, map[], v, ""))
  }

  /** `toJSON` is applied before anything else (lines 31-33), once. */
  lemma ToJsonFirst(heap: Heap, trace: bool, seen: map<Ref, string>, r: Ref, path: string)
    requires Closed(heap) && seen.Keys <= heap.Keys && r in heap && heap[r].toJson.Some?
    requires var w := heap[r].toJson.value; !(w.VRef? && heap[w.r].toJson.Some?)
    ensures Serialized(heap, trace, seen, VRef(r), path) == Serialized(heap, trace, seen, heap[r].toJson.value, path)
  {
    assert ObjIn(heap[r], heap);
  }

  /** Primitives: `null` and `undefined` become `null`, the others pass
      through (lines 42-48). */
  lemma Primitives(heap: Heap, trace: bool, seen: map<Ref, string>, path: string, b: bool, n: int, s: string)
    requires Closed(heap) && seen.Keys <= heap.Keys
    ensures Serialized(heap, trace, seen, VUndefined, path) == JNull
    ensures Serialized(heap, trace, seen, VNull, path) == JNull
    ensures Serialized(heap, trace, seen, VBool(b), path) == JBool(b)
    ensures Serialized(heap, trace, seen, VNum(n), path) == JNum(n)
    ensures Serialized(heap, trace, seen, VStr(s), path) == JStr(s)
  {
  }

  /** An array keeps its length and a record its keys, in order; each child
      is serialised below its own path (lines 66-84). */
  lemma ShapeKept(heap: Heap, trace: bool, seen: map<Ref, string>, r: Ref, path: string)
    requires Closed(heap) && seen.Keys <= heap.Keys && r in heap && r !in seen && heap[r].toJson.None?
    ensures var j := Serialized(heap, trace, seen, VRef(r), path);
            match heap[r]
            case ArrayObj(items, _) => j.JArr? && |j.items| == |items|
            case RecordObj(props, _) =>
              j.JObj? && |j.fields| == |props| &&
              forall i :: 0 <= i < |props| ==> j.fields[i].key == props[i].key
  {
  }

  /** Without `trace` the paths are never looked at: the result depends
      only on which objects are ancestors. */
  lemma {:induction false} PathIrrelevant(heap: Heap, seen1: map<Ref, string>, seen2: map<Ref, string>,
                                          v: Val, p1: string, p2: string)
    requires Closed(heap) && seen1.Keys <= heap.Keys && seen2.Keys == seen1.Keys && RefIn(v, heap)
    ensures Serialized(heap, false, seen1, v, p1) == Serialized(heap, false, seen2, v, p2)
    decreases |heap.Keys - seen1.Keys|, 1
  {
    var w := Replaced(heap, v);
    assert v.VRef? ==> ObjIn(heap[v.r], heap);
    if w.VRef? && w.r !in seen1 {
      match heap[w.r]
      case ArrayObj(items, _) =>
        assert ObjIn(heap[w.r], heap);
        ItemsPathIrrelevant(heap, seen1, seen2, w.r, p1, p2, items);
      case RecordObj(props, _) =>
        assert ObjIn(heap[w.r], heap);
        PropsPathIrrelevant(heap, seen1, seen2, w.r, p1, p2, props);
    }
  }

  lemma {:induction false} ItemsPathIrrelevant(heap: Heap, seen1: map<Ref, string>, seen2: map<Ref, string>,
                                               r: Ref, p1: string, p2: string, items: seq<Val>)
    requires Closed(heap) && seen1.Keys <= heap.Keys && seen2.Keys == seen1.Keys
    requires r in heap && r !in seen1 && ItemsIn(items, heap)
    ensures SerializedItems(heap, false, seen1, r, p1, items) == SerializedItems(heap, false, seen2, r, p2, items)
    decreases |heap.Keys - seen1.Keys|, 0
  {
    UnseenShrinks(heap.Keys, seen1, r, p1);
    assert seen1[r := p1].Keys == seen2[r := p2].Keys;
    forall i | 0 <= i < |items|
      ensures SerializedItems(heap, false, seen1, r, p1, items)[i] == SerializedItems(heap, false, seen2, r, p2, items)[i]
    {
      PathIrrelevant(heap, seen1[r := p1], seen2[r := p2], items[i],
                     ChildPath(p1, NatToDecimal(i)), ChildPath(p2, NatToDecimal(i)));
    }
  }

  lemma {:induction false} PropsPathIrrelevant(heap: Heap, seen1: map<Ref, string>, seen2: map<Ref, string>,
                                               r: Ref, p1: string, p2: string, props: seq<Prop>)
    requires Closed(heap) && seen1.Keys <= heap.Keys && seen2.Keys == seen1.Keys
    requires r in heap && r !in seen1 && PropsIn(props, heap)
    ensures SerializedProps(heap, false, seen1, r, p1, props) == SerializedProps(heap, false, seen2, r, p2, props)
    decreases |heap.Keys - seen1.Keys|, 0
  {
    UnseenShrinks(heap.Keys, seen1, r, p1);
    assert seen1[r := p1].Keys == seen2[r := p2].Keys;
    forall i | 0 <= i < |props|
      ensures SerializedProps(heap, false, seen1, r, p1, props)[i] == SerializedProps(heap, false, seen2, r, p2, props)[i]
    {
      PathIrrelevant(heap, seen1[r := p1], seen2[r := p2], props[i].val,
                     ChildPath(p1, props[i].key), ChildPath(p2, props[i].key));
    }
  }

  /** A record that holds itself: the inner reference is a marker. */
  lemma SelfReference()
    ensures var heap := map[0 := RecordObj([Prop("self", VRef(0))], None)];
            Closed(heap) &&
            Serialized(heap, false, map[], VRef(0), "") == JObj([Field("self", JStr("[Circular]"))]) &&
            Serialized(heap, true, map[], VRef(0), "") == JObj([Field("self", JStr("[Circular *]"))])
  {
    var heap := map[0 := RecordObj([Prop("self", VRef(0))], None)];
    assert ObjIn(heap[0], heap);
    assert SerializedProps(heap, false, map[], 0, "", heap[0].props)[0]
        == Field("self", Serialized(heap, false, map[0 := ""], VRef(0), "self"));
    assert SerializedProps(heap, true, map[], 0, "", heap[0].props)[0]
        == Field("self", Serialized(heap, true, map[0 := ""], VRef(0), "self"));
  }

  /** With `trace`, a marker names the path where its target was entered. */
  lemma TracedPath()
    ensures var heap := map[0 := RecordObj([Prop("a", VRef(1))], None),
                            1 := RecordObj([Prop("me", VRef(1))], None)];
            Closed(heap) &&
            Serialized(heap, true, map[], VRef(0), "") == JObj([Field("a", JObj([Field("me", JStr("[Circular *a]"))]))])
  {
    var heap := map[0 := RecordObj([Prop("a", VRef(1))], None),
                    1 := RecordObj([Prop("me", VRef(1))], None)];
    assert ObjIn(heap[0], heap) && ObjIn(heap[1], heap);
    var inner := Serialized(heap, true, map[0 := ""], VRef(1), "a");
    var seen := map[0 := ""][1 := "a"];
    assert seen[1] == "a";
    assert Serialized(heap, true, seen, VRef(1), "a.me") == JStr("[Circular *a]");
    assert SerializedProps(heap, true, map[0 := ""], 1, "a", heap[1].props)[0]
        == Field("me", Serialized(heap, true, seen, VRef(1), "a.me"));
    assert inner == JObj([Field("me", JStr("[Circular *a]"))]);
    assert SerializedProps(heap, true, map[], 0, "", heap[0].props)[0] == Field("a", inner);
  }

  /** A shared object that is not an ancestor is written out in full each
      time, since `seen` forgets an object when it is left (line 86). */
  lemma SharedNotCircular()
    ensures var heap := map[0 := RecordObj([Prop("x", VRef(1)), Prop("y", VRef(1))], None),
                            1 := ArrayObj([VNum(7)], None)];
            Closed(heap) &&
            Serialized(heap, false, map[], VRef(0), "") == JObj([Field("x", JArr([JNum(7)])), Field("y", JArr([JNum(7)]))])
  {
    var heap := map[0 := RecordObj([Prop("x", VRef(1)), Prop("y", VRef(1))], None),
                    1 := ArrayObj([VNum(7)], None)];
    assert ObjIn(heap[0], heap) && ObjIn(heap[1], heap);
    SharedChild(heap, "x");
    SharedChild(heap, "y");
    var fields := SerializedProps(heap, false, map[], 0, "", heap[0].props);
    assert fields[0] == Field("x", JArr([JNum(7)])) && fields[1] == Field("y", JArr([JNum(7)]));
  }

  /** Inside object 0, the shared array is written in full at any path. */
  lemma SharedChild(heap: Heap, path: string)
    requires heap == map[0 := RecordObj([Prop("x", VRef(1)), Prop("y", VRef(1))], None),
                         1 := ArrayObj([VNum(7)], None)]
    ensures Closed(heap)
    ensures Serialized(heap, false, map[0 := ""], VRef(1), path) == JArr([JNum(7)])
  {
    assert ObjIn(heap[0], heap) && ObjIn(heap[1], heap);
    assert SerializedItems(heap, false, map[0 := ""], 1, path, [VNum(7)])[0] == JNum(7);
  }

  /** A prefix one longer is the prefix and the next element. */
  lemma PrefixSnoc<T>(s: seq<T>, i: nat)
    requires i < |s|
    ensures s[..i + 1] == s[..i] + [s[i]]
  {
  }

  /** The serialiser with its `seen` WeakMap. */
  class Serializer {
    const heap: Heap
    const trace: bool
    var seen: map<Ref, string>

    constructor(heap: Heap, trace: bool)
      requires Closed(heap)
      ensures this.heap == heap && this.trace == trace && seen == map[]
    {
      this.heap := heap;
      this.trace := trace;
      seen := map[];
    }

    /** `serializeValue`: `seen` gains the object on entry and loses it on
        exit, so it is the same afterwards. */
    method SerializeValue(v: Val, path: string) returns (j: Json)
      requires Closed(heap) && seen.Keys <= heap.Keys && RefIn(v, heap)
      modifies this
      ensures seen == old(seen)
      ensures j == Serialized(heap, trace, old(seen), v, path)
      decreases |heap.Keys - seen.Keys|, 1
    {
      var w := v;
      if w.VRef? && heap[w.r].toJson.Some? {
        w := heap[w.r].toJson.value;
      }
      assert w == Replaced(heap, v);
      match w
      case VBigInt(n) =>
        if -MaxSafe <= n && n <= MaxSafe {
          j := JNum(n);
        } else {
          j := JStr(Decimal(n));
        }
      case VUndefined => j := JNull;
      case VNull => j := JNull;
      case VBool(b) => j := JBool(b);
      case VNum(n) => j := JNum(n);
      case VStr(s) => j := JStr(s);
      case VRef(r) =>
        if r in seen {
          j := JStr(CircularMarker(trace, seen[r]));
        } else {
          ghost var outer := seen;
          seen := seen[r := path];
          match heap[r] {
            case ArrayObj(items, _) =>
              j := SerializeItems(items, path, outer, r);
            case RecordObj(props, _) =>
              j := SerializeProps(props, path, outer, r);
          }
          assert j == Serialized(heap, trace, outer, v, path);
          RemoveAdded(outer, r, path);
          seen := seen - {r};
        }
    }

    /** `objectValue.map(...)` (lines 67-71). */
    method SerializeItems(items: seq<Val>, path: string, ghost outer: map<Ref, string>, ghost r: Ref)
      returns (j: Json)
      requires Closed(heap) && r in heap && r !in outer && outer.Keys <= heap.Keys
      requires seen == outer[r := path]
      requires ItemsIn(items, heap)
      modifies this
      ensures seen == old(seen)
      ensures j == JArr(SerializedItems(heap, trace, outer, r, path, items))
      decreases |heap.Keys - outer.Keys|, 0
    {
      ghost var spec := SerializedItems(heap, trace, outer, r, path, items);
      UnseenShrinks(heap.Keys, outer, r, path);
      var out: seq<Json> := [];
      for i := 0 to |items|
        invariant seen == outer[r := path]
        invariant out == spec[..i]
      {
        var x := SerializeValue(items[i], ChildPath(path, NatToDecimal(i)));
        assert x == spec[i];
        PrefixSnoc(spec, i);
        out := out + [x];
      }
      assert spec[..|items|] == spec;
      j := JArr(out);
    }

    /** The `Object.entries` loop (lines 73-83). */
    method SerializeProps(props: seq<Prop>, path: string, ghost outer: map<Ref, string>, ghost r: Ref)
      returns (j: Json)
      requires Closed(heap) && r in heap && r !in outer && outer.Keys <= heap.Keys
      requires seen == outer[r := path]
      requires PropsIn(props, heap)
      modifies this
      ensures seen == old(seen)
      ensures j == JObj(SerializedProps(heap, trace, outer, r, path, props))
      decreases |heap.Keys - outer.Keys|, 0
    {
      ghost var spec := SerializedProps(heap, trace, outer, r, path, props);
      UnseenShrinks(heap.Keys, outer, r, path);
      var out: seq<Field> := [];
      for i := 0 to |props|
        invariant seen == outer[r := path]
        invariant out == spec[..i]
      {
        var x := SerializeValue(props[i].val, ChildPath(path, props[i].key));
        assert Field(props[i].key, x) == spec[i];
        PrefixSnoc(spec, i);
        out := out + [Field(props[i].key, x)];
      }
      assert spec[..|props|] == spec;
      j := JObj(out);
    }
  }

  /** `safeStringify`: a fresh `seen`, which is empty again at the end. */
  method SafeStringifyImpl(stringify: Stringifier, heap: Heap, trace: bool, v: Val) returns (text: string)
    requires Closed(heap) && RefIn(v, heap)
    ensures text == SafeStringify(stringify, heap, trace, v)
  {
    var s := new Serializer(heap, trace);
    var j := s.SerializeValue(v, "");
    text := stringify(j);
  }
}
