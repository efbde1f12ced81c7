/** The form resolver's error folding (apps/frontend/src/lib/zod.ts): a
    failed schema parse becomes one error per formatted field path. */
module Zod {
  import opened Wrappers
  import opened Strings

  /** A segment of an issue path: an array index, a property key, or a
      symbol (which has no text). */
  datatype Segment = SNum(n: nat) | SStr(s: string) | SSym

  /** A validation issue: where, what went wrong, and its code. */
  datatype Issue = Issue(path: seq<Segment>, message: string, code: string)

  /** The `FieldError` stored for a path; `types` is present only when all
      criteria are collected. */
  datatype FieldErr = FieldErr(message: string, code: string, types: Option<map<string, string>>)

  /** The segments `formatPath` keeps: strings and numbers (lines 26-29). */
  function Kept(path: seq<Segment>): (r: seq<Segment>)
    ensures |r| <= |path|
    ensures forall i :: 0 <= i < |r| ==> !r[i].SSym?
    ensures forall i :: 0 <= i < |path| && !path[i].SSym? ==> path[i] in r
  {
    if path == [] then []
    else if path[0].SSym? then Kept(path[1..])
    else [path[0]] + Kept(path[1..])
  }

  /** `${curr}` */
  function Bare(s: Segment): string {
    match s
    case SNum(n) => NatToDecimal(n)
    case SStr(k) => k
    case SSym => ""
  }

  /** How a segment is appended after a non-empty prefix (line 33). */
  function Suffix(s: Segment): string {
    match s
    case SNum(n) => "[" + NatToDecimal(n) + "]"
    case SStr(k) => "." + k
    case SSym => ""
  }

  /** One step of the `reduce` (lines 31-34): an empty accumulator is
      falsy, so the segment is written bare. */
  function Step(acc: string, s: Segment): string {
    if acc != "" then acc + Suffix(s) else Bare(s)
  }

  function FormatFrom(acc: string, segs: seq<Segment>): string
    decreases segs
  {
    if segs == [] then acc else FormatFrom(Step(acc, segs[0]), segs[1..])
  }

  /** `formatPath` (lines 24-36). */
  function FormatPath(path: seq<Segment>): string {
    FormatFrom("", Kept(path))
  }

  function Suffixes(segs: seq<Segment>): string {
    if segs == [] then "" else Suffix(segs[0]) + Suffixes(segs[1..])
  }

  lemma {:induction false} FormatFromNonEmpty(acc: string, segs: seq<Segment>)
    requires acc != ""
    ensures FormatFrom(acc, segs) == acc + Suffixes(segs)
    decreases |segs|
  {
    if segs != [] {
      var suffix := Suffix(segs[0]);
      var tail := Suffixes(segs[1..]);
      var next := acc + suffix;
      assert Step(acc, segs[0]) == next;
      assert FormatFrom(acc, segs) == FormatFrom(next, segs[1..]);
      FormatFromNonEmpty(next, segs[1..]);
      assert Suffixes(segs) == suffix + tail;
      assert next + tail == acc + (suffix + tail);
    }
  }

  /** Symbols are dropped wherever they occur. */
  lemma {:induction false} SymbolDropped(p: seq<Segment>, q: seq<Segment>)
    ensures FormatPath(p + [SSym] + q) == FormatPath(p + q)
  {
    KeptAppend(p, [SSym] + q);
    KeptAppend(p, q);
    assert p + [SSym] + q == p + ([SSym] + q);
    assert ([SSym] + q)[1..] == q;
  }

  lemma {:induction false} KeptAppend(p: seq<Segment>, q: seq<Segment>)
    ensures Kept(p + q) == Kept(p) + Kept(q)
  {
    if p != [] {
      assert (p + q)[1..] == p[1..] + q;
      KeptAppend(p[1..], q);
    } else {
      assert p + q == q;
    }
  }

  /** The first kept segment is written bare (a number too), every later
      string as ".key" and every later number as "[n]" (lines 30-36), as
      long as the first segment's text is not empty. */
  lemma FormatShape(path: seq<Segment>, first: Segment, rest: seq<Segment>)
    requires Kept(path) == [first] + rest && Bare(first) != ""
    ensures FormatPath(path) == Bare(first) + Suffixes(rest)
  {
    assert ([first] + rest)[1..] == rest;
    FormatFromNonEmpty(Bare(first), rest);
  }

  /** A few concrete paths: `["items", 0, "name"]`, `[0, "a"]`, and the
      quirk that a leading empty key leaves the accumulator falsy, so the
      next segment is written bare too. */
  lemma FormatExamples()
    ensures FormatPath([SStr("items"), SNum(0), SStr("name")]) == "items[0].name"
    ensures FormatPath([SNum(3), SSym, SStr("a")]) == "3.a"
    ensures FormatPath([SStr(""), SStr("a")]) == "a"
  {
    NestedExample();
    SymbolExample();
    var p3 := [SStr(""), SStr("a")];
    assert Kept(p3) == p3;
    assert FormatFrom("", p3) == FormatFrom("", [SStr("a")]);
  }

  lemma NestedExample()
    ensures FormatPath([SStr("items"), SNum(0), SStr("name")]) == "items[0].name"
  {
    var p := [SStr("items"), SNum(0), SStr("name")];
    assert Kept(p) == p;
    FormatShape(p, SStr("items"), [SNum(0), SStr("name")]);
    assert Suffix(SNum(0)) == "[0]" by { assert NatToDecimal(0) == "0"; }
    assert Suffixes([SNum(0), SStr("name")]) == "[0]" + Suffixes([SStr("name")]);
    assert Suffixes([SStr("name")]) == ".name";
  }

  lemma SymbolExample()
    ensures FormatPath([SNum(3), SSym, SStr("a")]) == "3.a"
  {
    var p := [SNum(3), SSym, SStr("a")];
    assert Kept(p) == [SNum(3), SStr("a")];
    assert Bare(SNum(3)) == "3" by { assert NatToDecimal(3) == "3"; }
    FormatShape(p, SNum(3), [SStr("a")]);
    assert Suffixes([SStr("a")]) == ".a";
  }

  function PathOf(issue: Issue): string {
    FormatPath(issue.path)
  }

  function TypesOf(e: FieldErr): map<string, string> {
    if e.types.Some? then e.types.value else map[]
  }

  /** The body of the `forEach` (lines 39-55). */
  function Record(errors: map<string, FieldErr>, issue: Issue, all: bool): (r: map<string, FieldErr>)
    ensures r.Keys == errors.Keys + {PathOf(issue)}
    ensures forall p :: p in errors && p != PathOf(issue) ==> r[p] == errors[p]
  {
    var p := PathOf(issue);
    var first := if p in errors then errors else errors[p := FieldErr(issue.message, issue.code, None)];
    if all then first[p := FieldErr(issue.message, issue.code, Some(TypesOf(first[p])[issue.code := issue.message]))]
    else first
  }

  /** The `errors` record after the given issues, in order. */
  function Errors(issues: seq<Issue>, all: bool): map<string, FieldErr> {
    if issues == [] then map[]
    else Record(Errors(issues[..|issues| - 1], all), issues[|issues| - 1], all)
  }

  /** The first issue at path `p`. */
  function FirstAt(issues: seq<Issue>, p: string): (r: Option<nat>)
    ensures r.None? <==> forall i :: 0 <= i < |issues| ==> PathOf(issues[i]) != p
    ensures r.Some? ==> r.value < |issues| && PathOf(issues[r.value]) == p &&
                        forall i :: 0 <= i < r.value ==> PathOf(issues[i]) != p
  {
    if issues == [] then None
    else
      var init := issues[..|issues| - 1];
      assert forall i :: 0 <= i < |init| ==> init[i] == issues[i];
      var f := FirstAt(init, p);
      if f.Some? then f
      else if PathOf(issues[|issues| - 1]) == p then Some(|issues| - 1)
      else None
  }

  /** The issue is at path `p` and, when `c` is given, has code `c`. */
  predicate At(issue: Issue, p: string, c: Option<string>) {
    PathOf(issue) == p && (c.Some? ==> issue.code == c.value)
  }

  /** The last issue at path `p`, optionally also with code `c`. */
  function LastAt(issues: seq<Issue>, p: string, c: Option<string>): (r: Option<nat>)
    ensures r.None? <==> forall i :: 0 <= i < |issues| ==> !At(issues[i], p, c)
    ensures r.Some? ==> r.value < |issues| && At(issues[r.value], p, c) &&
                        forall i :: r.value < i < |issues| ==> !At(issues[i], p, c)
  {
    if issues == [] then None
    else if At(issues[|issues| - 1], p, c) then Some(|issues| - 1)
    else
      var init := issues[..|issues| - 1];
      var r := LastAt(init, p, c);
      LastAtExtend(issues, p, c, r);
      r
  }

  /** Extending by an issue that does not match keeps the last match, or
      the absence of one. */
  lemma LastAtExtend(issues: seq<Issue>, p: string, c: Option<string>, r: Option<nat>)
    requires issues != [] && !At(issues[|issues| - 1], p, c)
    requires var init := issues[..|issues| - 1];
             (r.None? <==> forall i :: 0 <= i < |init| ==> !At(init[i], p, c)) &&
             (r.Some? ==> r.value < |init| && At(init[r.value], p, c) &&
                          forall i :: r.value < i < |init| ==> !At(init[i], p, c))
    ensures r.None? <==> forall i :: 0 <= i < |issues| ==> !At(issues[i], p, c)
    ensures r.Some? ==> r.value < |issues| && At(issues[r.value], p, c) &&
                        forall i :: r.value < i < |issues| ==> !At(issues[i], p, c)
  {
    var init := issues[..|issues| - 1];
    var n := |init|;
    if r.None? {
      forall i | 0 <= i < |issues| ensures !At(issues[i], p, c) {
        if i < n {
          assert issues[i] == init[i];
        }
      }
    } else {
      var k := r.value;
      assert issues[k] == init[k];
      forall i | k < i < |issues| ensures !At(issues[i], p, c) {
        if i < n {
          assert issues[i] == init[i];
        }
      }
    }
  }

  /** Without "all", the first issue for each path is the one reported,
      without `types` (lines 41-43); every path with an issue has an error. */
  lemma {:induction false} FirstWins(issues: seq<Issue>, p: string)
    ensures var e := Errors(issues, false);
            (p in e <==> FirstAt(issues, p).Some?) &&
            (p in e ==> var i := FirstAt(issues, p).value;
                        e[p] == FieldErr(issues[i].message, issues[i].code, None))
  {
    if issues != [] {
      var init := issues[..|issues| - 1];
      FirstWins(init, p);
      assert forall i :: 0 <= i < |init| ==> init[i] == issues[i];
    }
  }

  /** In "all" mode the error at `p` agrees with the last issue there, and
      its `types` with the last issue per code. */
  ghost predicate Collected(e: map<string, FieldErr>, issues: seq<Issue>, p: string) {
    (p in e <==> LastAt(issues, p, None).Some?) &&
    (p in e ==> var i := LastAt(issues, p, None).value;
                e[p].message == issues[i].message && e[p].code == issues[i].code && e[p].types.Some? &&
                TypesMatch(e[p].types.value, issues, p))
  }

  /** `types` holds exactly the codes seen at `p`, each with the message of
      its last issue there. */
  ghost predicate TypesMatch(types: map<string, string>, issues: seq<Issue>, p: string) {
    forall c :: (c in types <==> LastAt(issues, p, Some(c)).Some?) &&
                (c in types ==> types[c] == issues[LastAt(issues, p, Some(c)).value].message)
  }

  /** With "all", message and type come from the last issue at the path and
      `types` maps every code seen there to the message of its last issue
      (lines 45-55). */
  lemma {:induction false} AllCollects(issues: seq<Issue>, p: string)
    ensures Collected(Errors(issues, true), issues, p)
  {
    if issues != [] {
      var init := issues[..|issues| - 1];
      AllCollects(init, p);
      CollectStep(Errors(init, true), issues, p);
    }
  }

  lemma CollectStep(e0: map<string, FieldErr>, issues: seq<Issue>, p: string)
    requires issues != [] && Collected(e0, issues[..|issues| - 1], p)
    ensures Collected(Record(e0, issues[|issues| - 1], true), issues, p)
  {
    if PathOf(issues[|issues| - 1]) == p {
      CollectHere(e0, issues, p);
    } else {
      CollectElsewhere(e0, issues, p);
    }
  }

  lemma CollectHere(e0: map<string, FieldErr>, issues: seq<Issue>, p: string)
    requires issues != [] && Collected(e0, issues[..|issues| - 1], p)
    requires PathOf(issues[|issues| - 1]) == p
    ensures Collected(Record(e0, issues[|issues| - 1], true), issues, p)
  {
    var init := issues[..|issues| - 1];
    var last := issues[|issues| - 1];
    var e := Record(e0, last, true);
    assert LastAt(issues, p, None) == Some(|issues| - 1);
    var old_types := if p in e0 then TypesOf(e0[p]) else map[];
    var types := e[p].types.value;
    assert types == old_types[last.code := last.message];
    forall c
      ensures (c in types <==> LastAt(issues, p, Some(c)).Some?) &&
              (c in types ==> types[c] == issues[LastAt(issues, p, Some(c)).value].message)
    {
      if c == last.code {
        assert LastAt(issues, p, Some(c)) == Some(|issues| - 1);
      } else {
        CodeElsewhere(e0, issues, p, c);
      }
    }
  }

  lemma CodeElsewhere(e0: map<string, FieldErr>, issues: seq<Issue>, p: string, c: string)
    requires issues != [] && Collected(e0, issues[..|issues| - 1], p)
    requires c != issues[|issues| - 1].code
    ensures var old_types := if p in e0 then TypesOf(e0[p]) else map[];
            (c in old_types <==> LastAt(issues, p, Some(c)).Some?) &&
            (c in old_types ==> old_types[c] == issues[LastAt(issues, p, Some(c)).value].message)
  {
    var init := issues[..|issues| - 1];
    assert LastAt(issues, p, Some(c)) == LastAt(init, p, Some(c));
    if p in e0 {
      var k := LastAt(init, p, Some(c));
      assert c in TypesOf(e0[p]) <==> k.Some?;
      if k.Some? {
        assert init[k.value] == issues[k.value];
      }
    } else {
      assert LastAt(init, p, None).None?;
    }
  }

  lemma CollectElsewhere(e0: map<string, FieldErr>, issues: seq<Issue>, p: string)
    requires issues != [] && Collected(e0, issues[..|issues| - 1], p)
    requires PathOf(issues[|issues| - 1]) != p
    ensures Collected(Record(e0, issues[|issues| - 1], true), issues, p)
  {
    var init := issues[..|issues| - 1];
    var e := Record(e0, issues[|issues| - 1], true);
    LastAtSkip(issues, p, None);
    if p in e0 {
      assert e[p] == e0[p];
      var i := LastAt(init, p, None).value;
      assert issues[i] == init[i];
      TypesMatchSkip(e0[p].types.value, issues, p);
    }
  }

  lemma TypesMatchSkip(types: map<string, string>, issues: seq<Issue>, p: string)
    requires issues != [] && PathOf(issues[|issues| - 1]) != p
    requires TypesMatch(types, issues[..|issues| - 1], p)
    ensures TypesMatch(types, issues, p)
  {
    var init := issues[..|issues| - 1];
    forall c
      ensures (c in types <==> LastAt(issues, p, Some(c)).Some?) &&
              (c in types ==> types[c] == issues[LastAt(issues, p, Some(c)).value].message)
    {
      LastAtSkip(issues, p, Some(c));
      var k := LastAt(init, p, Some(c));
      if k.Some? {
        assert issues[k.value] == init[k.value];
      }
    }
  }

  /** An issue elsewhere does not move the last issue at `p`. */
  lemma LastAtSkip(issues: seq<Issue>, p: string, c: Option<string>)
    requires issues != [] && PathOf(issues[|issues| - 1]) != p
    ensures LastAt(issues, p, c) == LastAt(issues[..|issues| - 1], p, c)
  {
  }

  /** The fold as the source runs it, over a local `errors` record. */
  method CollectErrors(issues: seq<Issue>, all: bool) returns (errors: map<string, FieldErr>)
    ensures errors == Errors(issues, all)
  {
    errors := map[];
    for i := 0 to |issues|
      invariant errors == Errors(issues[..i], all)
    {
      var p := FormatPath(issues[i].path);
      if p !in errors {
        errors := errors[p := FieldErr(issues[i].message, issues[i].code, None)];
      }
      if all {
        var types := TypesOf(errors[p]);
        errors := errors[p := FieldErr(issues[i].message, issues[i].code, Some(types[issues[i].code := issues[i].message]))];
      }
      assert issues[..i + 1][..i] == issues[..i];
    }
    assert issues[..|issues|] == issues;
  }

  /** The outcome of `schema.safeParseAsync`, which the model receives. */
  datatype ParseOutcome<T> = Parsed(data: T) | Failed(issues: seq<Issue>)

  /** What the resolver returns; `values` is `None` for the empty record. */
  datatype Resolved<T> = Resolved(errors: map<string, FieldErr>, values: Option<T>)

  /** `zodResolver(schema)(values, _, options)` (lines 14-59): success gives
      no errors and the parsed data; a failure gives no values and one error
      for each issue path. */
  method Resolve<T>(outcome: ParseOutcome<T>, criteriaAll: bool) returns (r: Resolved<T>)
    ensures outcome.Parsed? ==> r.errors == map[] && r.values == Some(outcome.data)
    ensures outcome.Failed? ==> r.values.None? && r.errors == Errors(outcome.issues, criteriaAll)
    ensures outcome.Failed? ==> forall p :: p in r.errors <==> exists i :: 0 <= i < |outcome.issues| && PathOf(outcome.issues[i]) == p
  {
    match outcome {
      case Parsed(data) =>
        return Resolved(map[], Some(data));
      case Failed(issues) =>
        var errors := CollectErrors(issues, criteriaAll);
        ErrorPaths(issues, criteriaAll);
        return Resolved(errors, None);
    }
  }

  /** The error record's paths are exactly the issues' paths, in both modes. */
  lemma ErrorPaths(issues: seq<Issue>, all: bool)
    ensures forall p :: p in Errors(issues, all) <==> exists i :: 0 <= i < |issues| && PathOf(issues[i]) == p
  {
    forall p ensures p in Errors(issues, all) <==> exists i :: 0 <= i < |issues| && PathOf(issues[i]) == p {
      if all {
        AllCollects(issues, p);
        if p !in Errors(issues, all) {
          assert forall i :: 0 <= i < |issues| ==> !At(issues[i], p, None);
        }
      } else {
        FirstWins(issues, p);
      }
    }
  }
}
