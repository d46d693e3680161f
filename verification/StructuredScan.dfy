// The structured-configuration scan: one finding for each reportable object member.

module StructuredScan {
  import opened Util
  import opened JsonPointer

  /** A JSON value; scalars are kept by their text. */
  datatype Json = Scalar(text: string) | List(items: seq<Json>) | Object(members: seq<Member>)

  datatype Member = Member(key: string, value: Json)

  datatype Finding = Finding(pointer: string, line: nat, category: string, payload: Json)

  /** The category of a key and its values, if any. */
  type Categorise = (string, seq<Json>) -> Option<string>

  predicate ScalarList(v: Json) {
    v.List? && forall i :: 0 <= i < |v.items| ==> v.items[i].Scalar?
  }

  predicate Reportable(v: Json) {
    v.Scalar? || ScalarList(v)
  }

  function ValuesOf(v: Json): seq<Json> {
    if v.List? then v.items else [v]
  }

  /** A document of `json.loads`: no object repeats a key. */
  ghost predicate WellFormed(v: Json) {
    match v
    case Scalar(_) => true
    case List(items) => forall i :: 0 <= i < |items| ==> WellFormed(items[i])
    case Object(members) =>
      && (forall i, j :: 0 <= i < j < |members| ==> members[i].key != members[j].key)
      && (forall i :: 0 <= i < |members| ==> WellFormed(members[i].value))
  }

  // ------------------------------------------------- what there is to be reported

  ghost predicate StepsTo(v: Json, part: Part, child: Json) {
    match part
    case Key(k) => v.Object? && exists i :: 0 <= i < |v.members| && v.members[i] == Member(k, child)
    case Index(n) => v.List? && n < |v.items| && v.items[n] == child
  }

  /** The path leads from the value to the target. */
  ghost predicate LeadsTo(v: Json, path: seq<Part>, target: Json)
    decreases |path|
  {
    if path == [] then v == target
    else exists child :: StepsTo(v, path[0], child) && LeadsTo(child, path[1..], target)
  }

  /** The path names an object member whose value and category call for a finding. */
  ghost predicate Reported(v: Json, path: seq<Part>, categorise: Categorise) {
    path != [] && path[|path| - 1].Key? && exists target ::
      LeadsTo(v, path, target) && Reportable(target)
      && categorise(path[|path| - 1].key, ValuesOf(target)).Some?
  }

  /** A step of a well-formed value leads to one child. */
  lemma StepUnique(v: Json, part: Part, a: Json, b: Json)
    requires WellFormed(v) && StepsTo(v, part, a) && StepsTo(v, part, b)
    ensures a == b && WellFormed(a)
  {
  }

  lemma {:induction false} TargetUnique(v: Json, path: seq<Part>, a: Json, b: Json)
    requires WellFormed(v) && LeadsTo(v, path, a) && LeadsTo(v, path, b)
    ensures a == b
    decreases |path|
  {
    if path != [] {
      var c :| StepsTo(v, path[0], c) && LeadsTo(c, path[1..], a);
      var d :| StepsTo(v, path[0], d) && LeadsTo(d, path[1..], b);
      StepUnique(v, path[0], c, d);
      TargetUnique(c, path[1..], a, b);
    }
  }

  /** In one document, different paths have different texts. */
  lemma {:induction false} PathsDifferInText(v: Json, p: seq<Part>, q: seq<Part>, a: Json, b: Json)
    requires WellFormed(v) && LeadsTo(v, p, a) && LeadsTo(v, q, b) && Texts(p) == Texts(q)
    ensures p == q
    decreases |p|
  {
    assert |p| == |q|;
    if p != [] {
      assert Text(p[0]) == Texts(p)[0] && Text(q[0]) == Texts(q)[0];
      var c :| StepsTo(v, p[0], c) && LeadsTo(c, p[1..], a);
      var d :| StepsTo(v, q[0], d) && LeadsTo(d, q[1..], b);
      if p[0].Index? {
        DecimalInjective(p[0].index, q[0].index);
      }
      StepUnique(v, p[0], c, d);
      assert Texts(p[1..]) == Texts(p)[1..] && Texts(q[1..]) == Texts(q)[1..];
      PathsDifferInText(c, p[1..], q[1..], a, b);
      assert p == [p[0]] + p[1..] && q == [q[0]] + q[1..];
    }
  }

  /** Different members of one document have different pointers. */
  lemma MemberPointersDiffer(v: Json, p: seq<Part>, q: seq<Part>, a: Json, b: Json)
    requires WellFormed(v) && LeadsTo(v, p, a) && LeadsTo(v, q, b)
    requires p != [] && q != [] && Pointer(p) == Pointer(q)
    ensures p == q
  {
    PointerRoundTrip(p);
    PointerRoundTrip(q);
    PathsDifferInText(v, p, q, a, b);
  }

  // ------------------------------------------------------------------ visit order

  function Prefixed(part: Part, paths: seq<seq<Part>>): (r: seq<seq<Part>>)
    ensures |r| == |paths|
  {
    seq(|paths|, i requires 0 <= i < |paths| => [part] + paths[i])
  }

  /** The reported paths below a value, in visit order. */
  function Paths(v: Json, categorise: Categorise): seq<seq<Part>>
    decreases v, 0
  {
    match v
    case Scalar(_) => []
    case List(items) => ListPaths(v, |items|, categorise)
    case Object(members) => ObjectPaths(v, |members|, categorise)
  }

  function ListPaths(v: Json, n: nat, categorise: Categorise): seq<seq<Part>>
    requires v.List? && n <= |v.items|
    decreases v.items, n
  {
    if n == 0 then []
    else ListPaths(v, n - 1, categorise) + Prefixed(Index(n - 1), Paths(v.items[n - 1], categorise))
  }

  function ObjectPaths(v: Json, n: nat, categorise: Categorise): seq<seq<Part>>
    requires v.Object? && n <= |v.members|
    decreases v.members, n
  {
    if n == 0 then []
    else ObjectPaths(v, n - 1, categorise) + OwnPath(v.members[n - 1], categorise)
         + Prefixed(Key(v.members[n - 1].key), Paths(v.members[n - 1].value, categorise))
  }

  function OwnPath(m: Member, categorise: Categorise): seq<seq<Part>> {
    if Reportable(m.value) && categorise(m.key, ValuesOf(m.value)).Some? then [[Key(m.key)]] else []
  }

  // ------------------------------------------------------ exactly the right paths

  /** The rest of a reported path, seen from the child its first part leads to. */
  ghost predicate ReportedBelow(child: Json, path: seq<Part>, categorise: Categorise)
    requires path != []
  {
    if |path| == 1 then
      path[0].Key? && Reportable(child) && categorise(path[0].key, ValuesOf(child)).Some?
    else
      Reported(child, path[1..], categorise)
  }

  lemma ReportedUnfolds(v: Json, path: seq<Part>, categorise: Categorise)
    requires path != []
    ensures Reported(v, path, categorise) <==>
      exists child :: StepsTo(v, path[0], child) && ReportedBelow(child, path, categorise)
  {
    var rest := path[1..];
    if |path| > 1 {
      assert rest[|rest| - 1] == path[|path| - 1];
    }
    if Reported(v, path, categorise) {
      var target :| LeadsTo(v, path, target) && Reportable(target)
        && categorise(path[|path| - 1].key, ValuesOf(target)).Some?;
      var child :| StepsTo(v, path[0], child) && LeadsTo(child, rest, target);
      assert ReportedBelow(child, path, categorise);
    }
    if child :| StepsTo(v, path[0], child) && ReportedBelow(child, path, categorise) {
      if |path| == 1 {
        assert LeadsTo(child, rest, child);
        assert LeadsTo(v, path, child);
      } else {
        var target :| LeadsTo(child, rest, target) && Reportable(target)
          && categorise(rest[|rest| - 1].key, ValuesOf(target)).Some?;
        assert LeadsTo(v, path, target);
      }
    }
  }

  lemma PrefixedMember(part: Part, paths: seq<seq<Part>>, path: seq<Part>)
    ensures path in Prefixed(part, paths) <==> path != [] && path[0] == part && path[1..] in paths
  {
    if path != [] && path[0] == part && path[1..] in paths {
      var i :| 0 <= i < |paths| && paths[i] == path[1..];
      assert path == [part] + path[1..];
      assert Prefixed(part, paths)[i] == path;
    }
    if path in Prefixed(part, paths) {
      var i :| 0 <= i < |paths| && [part] + paths[i] == path;
      assert path[1..] == paths[i];
    }
  }

  /** The path goes through item i, and the rest is listed below it. */
  ghost predicate ViaItem(v: Json, i: int, path: seq<Part>, categorise: Categorise)
    requires v.List? && 0 <= i < |v.items|
  {
    path != [] && path[0] == Index(i) && path[1..] in Paths(v.items[i], categorise)
  }

  lemma {:induction false} ListPathsMember(v: Json, n: nat, path: seq<Part>, categorise: Categorise)
    requires v.List? && n <= |v.items|
    ensures path in ListPaths(v, n, categorise) <==> exists i :: 0 <= i < n && ViaItem(v, i, path, categorise)
  {
    if n > 0 {
      ListPathsMember(v, n - 1, path, categorise);
      PrefixedMember(Index(n - 1), Paths(v.items[n - 1], categorise), path);
      assert ViaItem(v, n - 1, path, categorise) <==> path in Prefixed(Index(n - 1), Paths(v.items[n - 1], categorise));
    }
  }

  ghost predicate ViaMember(v: Json, i: int, path: seq<Part>, categorise: Categorise)
    requires v.Object? && 0 <= i < |v.members|
  {
    var m := v.members[i];
    || path in OwnPath(m, categorise)
    || (path != [] && path[0] == Key(m.key) && path[1..] in Paths(m.value, categorise))
  }

  lemma {:induction false} ObjectPathsMember(v: Json, n: nat, path: seq<Part>, categorise: Categorise)
    requires v.Object? && n <= |v.members|
    ensures path in ObjectPaths(v, n, categorise) <==> exists i :: 0 <= i < n && ViaMember(v, i, path, categorise)
  {
    if n > 0 {
      ObjectPathsMember(v, n - 1, path, categorise);
      var m := v.members[n - 1];
      PrefixedMember(Key(m.key), Paths(m.value, categorise), path);
      var below := Prefixed(Key(m.key), Paths(m.value, categorise));
      assert ViaMember(v, n - 1, path, categorise) <==> path in OwnPath(m, categorise) || path in below;
    }
  }

  lemma NoEmptyPath(v: Json, categorise: Categorise)
    ensures [] !in Paths(v, categorise)
  {
    match v
    case Scalar(_) =>
    case List(items) => ListPathsMember(v, |items|, [], categorise);
    case Object(members) => ObjectPathsMember(v, |members|, [], categorise);
  }

  /** The visit lists a path exactly when its member is to be reported. */
  lemma {:induction false} PathsExact(v: Json, path: seq<Part>, categorise: Categorise)
    ensures path in Paths(v, categorise) <==> Reported(v, path, categorise)
    decreases v
  {
    if path == [] {
      NoEmptyPath(v, categorise);
    } else {
      ReportedUnfolds(v, path, categorise);
      match v
      case Scalar(_) =>
      case List(items) =>
        ListPathsMember(v, |items|, path, categorise);
        forall i | 0 <= i < |items|
          ensures path[1..] in Paths(items[i], categorise) <==> Reported(items[i], path[1..], categorise)
        {
          PathsExact(items[i], path[1..], categorise);
        }
        ListPathsExact(v, path, categorise);
      case Object(members) =>
        ObjectPathsMember(v, |members|, path, categorise);
        forall i | 0 <= i < |members|
          ensures path[1..] in Paths(members[i].value, categorise) <==> Reported(members[i].value, path[1..], categorise)
        {
          PathsExact(members[i].value, path[1..], categorise);
        }
        ObjectPathsExact(v, path, categorise);
    }
  }

  lemma ListPathsExact(v: Json, path: seq<Part>, categorise: Categorise)
    requires v.List? && path != []
    requires forall i :: 0 <= i < |v.items| ==>
      (path[1..] in Paths(v.items[i], categorise) <==> Reported(v.items[i], path[1..], categorise))
    ensures (exists i :: 0 <= i < |v.items| && ViaItem(v, i, path, categorise))
      <==> exists child :: StepsTo(v, path[0], child) && ReportedBelow(child, path, categorise)
  {
    if i :| 0 <= i < |v.items| && ViaItem(v, i, path, categorise) {
      assert StepsTo(v, path[0], v.items[i]) && ReportedBelow(v.items[i], path, categorise);
    }
    if child :| StepsTo(v, path[0], child) && ReportedBelow(child, path, categorise) {
      assert ViaItem(v, path[0].index, path, categorise);
    }
  }

  lemma ObjectPathsExact(v: Json, path: seq<Part>, categorise: Categorise)
    requires v.Object? && path != []
    requires forall i :: 0 <= i < |v.members| ==>
      (path[1..] in Paths(v.members[i].value, categorise) <==> Reported(v.members[i].value, path[1..], categorise))
    ensures (exists i :: 0 <= i < |v.members| && ViaMember(v, i, path, categorise))
      <==> exists child :: StepsTo(v, path[0], child) && ReportedBelow(child, path, categorise)
  {
    if i :| 0 <= i < |v.members| && ViaMember(v, i, path, categorise) {
      var m := v.members[i];
      assert path[0] == Key(m.key) && v.members[i] == Member(m.key, m.value);
      assert StepsTo(v, path[0], m.value) && ReportedBelow(m.value, path, categorise);
    }
    if child :| StepsTo(v, path[0], child) && ReportedBelow(child, path, categorise) {
      var i :| 0 <= i < |v.members| && v.members[i] == Member(path[0].key, child);
      if |path| == 1 {
        assert path == [Key(v.members[i].key)];
      }
      assert ViaMember(v, i, path, categorise);
    }
  }

  // --------------------------------------------------------------- each path once

  lemma PrefixedDistinct(part: Part, paths: seq<seq<Part>>)
    requires NoDuplicates(paths)
    ensures NoDuplicates(Prefixed(part, paths))
  {
    forall i, j | 0 <= i < j < |paths|
      ensures Prefixed(part, paths)[i] != Prefixed(part, paths)[j]
    {
      assert ([part] + paths[i])[1..] == paths[i] && ([part] + paths[j])[1..] == paths[j];
    }
  }

  /** The visit lists no path twice. */
  lemma {:induction false} PathsDistinct(v: Json, categorise: Categorise)
    requires WellFormed(v)
    ensures NoDuplicates(Paths(v, categorise))
    decreases v, 0
  {
    match v
    case Scalar(_) =>
    case List(items) => ListPathsDistinct(v, |items|, categorise);
    case Object(members) => ObjectPathsDistinct(v, |members|, categorise);
  }

  lemma {:induction false} ListPathsDistinct(v: Json, n: nat, categorise: Categorise)
    requires WellFormed(v) && v.List? && n <= |v.items|
    ensures NoDuplicates(ListPaths(v, n, categorise))
    decreases v.items, n
  {
    if n > 0 {
      ListPathsDistinct(v, n - 1, categorise);
      PathsDistinct(v.items[n - 1], categorise);
      var below := Prefixed(Index(n - 1), Paths(v.items[n - 1], categorise));
      PrefixedDistinct(Index(n - 1), Paths(v.items[n - 1], categorise));
      forall p | p in ListPaths(v, n - 1, categorise)
        ensures p !in below
      {
        ListPathsMember(v, n - 1, p, categorise);
        PrefixedMember(Index(n - 1), Paths(v.items[n - 1], categorise), p);
      }
      AppendDistinct(ListPaths(v, n - 1, categorise), below);
    }
  }

  lemma {:induction false} ObjectPathsDistinct(v: Json, n: nat, categorise: Categorise)
    requires WellFormed(v) && v.Object? && n <= |v.members|
    ensures NoDuplicates(ObjectPaths(v, n, categorise))
    decreases v.members, n
  {
    if n > 0 {
      var m := v.members[n - 1];
      ObjectPathsDistinct(v, n - 1, categorise);
      PathsDistinct(m.value, categorise);
      var before, own, below := ObjectPaths(v, n - 1, categorise), OwnPath(m, categorise), Prefixed(Key(m.key), Paths(m.value, categorise));
      PrefixedDistinct(Key(m.key), Paths(m.value, categorise));
      forall p | p in before
        ensures p !in own && p !in below
      {
        EarlierKeysDiffer(v, n, p, categorise);
      }
      forall p | p in own
        ensures p !in below
      {
        OwnPathNotBelow(m, p, categorise);
      }
      assert NoDuplicates(own);
      hide Paths, OwnPath, WellFormed;
      AppendDistinct(before, own);
      AppendDistinct(before + own, below);
    }
  }

  lemma EarlierKeysDiffer(v: Json, n: nat, p: seq<Part>, categorise: Categorise)
    requires WellFormed(v) && v.Object? && 0 < n <= |v.members|
    requires p in ObjectPaths(v, n - 1, categorise)
    ensures p !in OwnPath(v.members[n - 1], categorise)
    ensures p !in Prefixed(Key(v.members[n - 1].key), Paths(v.members[n - 1].value, categorise))
  {
    hide Paths, ObjectPaths;
    var m := v.members[n - 1];
    ObjectPathsMember(v, n - 1, p, categorise);
    var i :| 0 <= i < n - 1 && ViaMember(v, i, p, categorise);
    assert p[0] == Key(v.members[i].key);
    PrefixedMember(Key(m.key), Paths(m.value, categorise), p);
  }

  lemma OwnPathNotBelow(m: Member, p: seq<Part>, categorise: Categorise)
    requires p in OwnPath(m, categorise)
    ensures p !in Prefixed(Key(m.key), Paths(m.value, categorise))
  {
    NoEmptyPath(m.value, categorise);
    PrefixedMember(Key(m.key), Paths(m.value, categorise), p);
  }

  // --------------------------------------------------------------------- the scan

  /** The finding for the member at a path below the given parts. */
  ghost predicate IsFinding(f: Finding, v: Json, parts: seq<Part>, path: seq<Part>,
                            categorise: Categorise, lines: map<string, nat>)
  {
    path != [] && path[|path| - 1].Key? && exists target ::
      LeadsTo(v, path, target) && Makes(f, parts + path, target, categorise, lines)
  }

  ghost predicate Makes(f: Finding, parts: seq<Part>, target: Json, categorise: Categorise, lines: map<string, nat>) {
    && parts != [] && parts[|parts| - 1].Key? && Reportable(target)
    && f.pointer == Pointer(parts) && f.payload == target
    && f.line == (if f.pointer in lines then lines[f.pointer] else 1)
    && categorise(parts[|parts| - 1].key, ValuesOf(target)) == Some(f.category)
  }

  /** The findings and the paths they stand for, one for one. */
  ghost predicate Aligned(fs: seq<Finding>, v: Json, parts: seq<Part>, paths: seq<seq<Part>>,
                          categorise: Categorise, lines: map<string, nat>)
  {
    |fs| == |paths| && forall i :: 0 <= i < |fs| ==> IsFinding(fs[i], v, parts, paths[i], categorise, lines)
  }

  lemma AlignedBelow(fs: seq<Finding>, v: Json, part: Part, child: Json, parts: seq<Part>, paths: seq<seq<Part>>,
                     categorise: Categorise, lines: map<string, nat>)
    requires StepsTo(v, part, child) && Aligned(fs, child, parts + [part], paths, categorise, lines)
    ensures Aligned(fs, v, parts, Prefixed(part, paths), categorise, lines)
  {
    forall i | 0 <= i < |fs|
      ensures IsFinding(fs[i], v, parts, Prefixed(part, paths)[i], categorise, lines)
    {
      var path := paths[i];
      var target :| LeadsTo(child, path, target) && Makes(fs[i], (parts + [part]) + path, target, categorise, lines);
      assert ([part] + path)[1..] == path;
      assert LeadsTo(v, [part] + path, target);
      assert (parts + [part]) + path == parts + ([part] + path);
    }
  }

  lemma AlignedAppend(fs: seq<Finding>, gs: seq<Finding>, v: Json, parts: seq<Part>, ps: seq<seq<Part>>, qs: seq<seq<Part>>,
                      categorise: Categorise, lines: map<string, nat>)
    requires Aligned(fs, v, parts, ps, categorise, lines) && Aligned(gs, v, parts, qs, categorise, lines)
    ensures Aligned(fs + gs, v, parts, ps + qs, categorise, lines)
  {
  }

  lemma NothingAligned(v: Json, parts: seq<Part>, categorise: Categorise, lines: map<string, nat>)
    ensures Aligned([], v, parts, [], categorise, lines)
  {
  }

  class Scanner {
    const categorise: Categorise
    const lines: map<string, nat>

    /** Findings in visit order. */
    var findings: seq<Finding>

    constructor (categorise: Categorise, lines: map<string, nat>)
      ensures this.categorise == categorise && this.lines == lines && findings == []
    {
      this.categorise, this.lines := categorise, lines;
      findings := [];
    }

    /** Report one member if it is reportable and has a category. */
    method VisitOwn(ghost v: Json, parts: seq<Part>, m: Member) returns (ghost added: seq<Finding>)
      requires StepsTo(v, Key(m.key), m.value)
      modifies this`findings
      ensures findings == old(findings) + added && Aligned(added, v, parts, OwnPath(m, categorise), categorise, lines)
    {
      added := [];
      if Reportable(m.value) {
        var category := categorise(m.key, ValuesOf(m.value));
        if category.Some? {
          var pointer := Pointer(parts + [Key(m.key)]);
          var line := if pointer in lines then lines[pointer] else 1;
          var f := Finding(pointer, line, category.value, m.value);
          findings := findings + [f];
          added := [f];
          assert [Key(m.key)][1..] == [];
          assert LeadsTo(m.value, [], m.value);
          assert LeadsTo(v, [Key(m.key)], m.value);
          assert Makes(f, parts + [Key(m.key)], m.value, categorise, lines);
        }
      }
    }

    /** The recursive visitor. */
    method Visit(current: Json, parts: seq<Part>) returns (ghost added: seq<Finding>)
      modifies this`findings
      ensures findings == old(findings) + added
      ensures Aligned(added, current, parts, Paths(current, categorise), categorise, lines)
      decreases current
    {
      added := [];
      NothingAligned(current, parts, categorise, lines);
      hide Aligned, OwnPath;
      match current
      case Scalar(_) =>
      case List(items) =>
        for n := 0 to |items|
          invariant findings == old(findings) + added
          invariant Aligned(added, current, parts, ListPaths(current, n, categorise), categorise, lines)
        {
          ghost var below := Visit(items[n], parts + [Index(n)]);
          AlignedBelow(below, current, Index(n), items[n], parts, Paths(items[n], categorise), categorise, lines);
          AlignedAppend(added, below, current, parts, ListPaths(current, n, categorise),
                        Prefixed(Index(n), Paths(items[n], categorise)), categorise, lines);
          added := added + below;
        }
      case Object(members) =>
        for n := 0 to |members|
          invariant findings == old(findings) + added
          invariant Aligned(added, current, parts, ObjectPaths(current, n, categorise), categorise, lines)
        {
          var m := members[n];
          assert members[n] == Member(m.key, m.value);
          ghost var own := VisitOwn(current, parts, m);
          AlignedAppend(added, own, current, parts, ObjectPaths(current, n, categorise), OwnPath(m, categorise), categorise, lines);
          ghost var below := Visit(m.value, parts + [Key(m.key)]);
          AlignedBelow(below, current, Key(m.key), m.value, parts, Paths(m.value, categorise), categorise, lines);
          AlignedAppend(added + own, below, current, parts, ObjectPaths(current, n, categorise) + OwnPath(m, categorise),
                        Prefixed(Key(m.key), Paths(m.value, categorise)), categorise, lines);
          added := added + own + below;
        }
    }
  }

  /** Findings of different paths of one document differ. */
  lemma AlignedDistinct(fs: seq<Finding>, v: Json, paths: seq<seq<Part>>, categorise: Categorise, lines: map<string, nat>)
    requires WellFormed(v) && Aligned(fs, v, [], paths, categorise, lines) && NoDuplicates(paths)
    ensures NoDuplicates(fs)
  {
    forall i, j | 0 <= i < j < |fs|
      ensures fs[i] != fs[j]
    {
      var p, q := paths[i], paths[j];
      var a :| LeadsTo(v, p, a) && Makes(fs[i], [] + p, a, categorise, lines);
      var b :| LeadsTo(v, q, b) && Makes(fs[j], [] + q, b, categorise, lines);
      assert [] + p == p && [] + q == q;
      if fs[i] == fs[j] {
        MemberPointersDiffer(v, p, q, a, b);
      }
    }
  }

  lemma {:induction false} DistinctSize(fs: seq<Finding>)
    requires NoDuplicates(fs)
    ensures |set f | f in fs| == |fs|
  {
    if fs != [] {
      var front, last := fs[..|fs| - 1], fs[|fs| - 1];
      DistinctSize(front);
      assert last !in front;
      assert (set f | f in fs) == (set f | f in front) + {last};
    }
  }

  /** Every finding belongs to a reportable member with a category. */
  ghost predicate Sound(result: set<Finding>, value: Json, categorise: Categorise, lines: map<string, nat>) {
    forall f :: f in result ==>
      exists path :: Reported(value, path, categorise) && IsFinding(f, value, [], path, categorise, lines)
  }

  /** Every reportable member with a category, at any depth, has its finding. */
  ghost predicate Complete(result: set<Finding>, value: Json, categorise: Categorise, lines: map<string, nat>) {
    forall path :: Reported(value, path, categorise) ==>
      exists f :: f in result && IsFinding(f, value, [], path, categorise, lines)
  }

  /** The structured scan; turning the findings into a set loses none of them. */
  method StructuredFindings(value: Json, categorise: Categorise, lines: map<string, nat>) returns (result: set<Finding>)
    requires WellFormed(value)
    ensures Sound(result, value, categorise, lines) && Complete(result, value, categorise, lines)
    ensures |result| == |Paths(value, categorise)|
  {
    hide *;
    var scanner := new Scanner(categorise, lines);
    ghost var added := scanner.Visit(value, []);
    result := set f | f in scanner.findings;
    AlignedIsExact(added, result, value, categorise, lines);
  }

  lemma AlignedIsExact(fs: seq<Finding>, result: set<Finding>, value: Json, categorise: Categorise, lines: map<string, nat>)
    requires WellFormed(value) && Aligned(fs, value, [], Paths(value, categorise), categorise, lines)
    requires result == set f | f in fs
    ensures Sound(result, value, categorise, lines) && Complete(result, value, categorise, lines)
    ensures |result| == |Paths(value, categorise)|
  {
    PathsDistinct(value, categorise);
    AlignedDistinct(fs, value, Paths(value, categorise), categorise, lines);
    DistinctSize(fs);
    hide WellFormed, Paths, IsFinding, Reported, Sound, Complete;
    AlignedSound(fs, result, value, categorise, lines);
    AlignedComplete(fs, result, value, categorise, lines);
  }

  lemma AlignedSound(fs: seq<Finding>, result: set<Finding>, value: Json, categorise: Categorise, lines: map<string, nat>)
    requires Aligned(fs, value, [], Paths(value, categorise), categorise, lines)
    requires result == set f | f in fs
    ensures Sound(result, value, categorise, lines)
  {
    var paths := Paths(value, categorise);
    forall f | f in result
      ensures exists path :: Reported(value, path, categorise) && IsFinding(f, value, [], path, categorise, lines)
    {
      var i :| 0 <= i < |fs| && fs[i] == f;
      assert paths[i] in paths;
      PathsExact(value, paths[i], categorise);
    }
  }

  lemma AlignedComplete(fs: seq<Finding>, result: set<Finding>, value: Json, categorise: Categorise, lines: map<string, nat>)
    requires Aligned(fs, value, [], Paths(value, categorise), categorise, lines)
    requires result == set f | f in fs
    ensures Complete(result, value, categorise, lines)
  {
    var paths := Paths(value, categorise);
    forall path | Reported(value, path, categorise)
      ensures exists f :: f in result && IsFinding(f, value, [], path, categorise, lines)
    {
      PathsExact(value, path, categorise);
      var i :| 0 <= i < |paths| && paths[i] == path;
      assert fs[i] in result;
    }
  }

  /** The finding of a member is determined by its path. */
  /** What the category of a member is asked for: the scalar itself, or the items of an all-scalar list. */
  ghost predicate CategoryIs(key: string, value: Json, categorise: Categorise, category: string) {
    match value
    case Scalar(_) => categorise(key, [value]) == Some(category)
    case List(items) => (forall i :: 0 <= i < |items| ==> items[i].Scalar?) && categorise(key, items) == Some(category)
    case Object(_) => false
  }

  /** A finding for a member is in the result exactly when its value has that category. */
  lemma FindingsExactly(result: set<Finding>, value: Json, categorise: Categorise, lines: map<string, nat>,
                        path: seq<Part>, key: string, target: Json, category: string)
    requires WellFormed(value) && Sound(result, value, categorise, lines) && Complete(result, value, categorise, lines)
    requires LeadsTo(value, path + [Key(key)], target)
    ensures var pointer := Pointer(path + [Key(key)]);
      Finding(pointer, if pointer in lines then lines[pointer] else 1, category, target) in result
      <==> CategoryIs(key, target, categorise, category)
  {
    hide LeadsTo, WellFormed, Pointer, Sound, Complete, Makes, CategoryIs;
    var p := path + [Key(key)];
    var f := Finding(Pointer(p), if Pointer(p) in lines then lines[Pointer(p)] else 1, category, target);
    MakesMeans(f, p, key, categorise, lines);
    if f in result {
      FindingIsMade(result, value, categorise, lines, p, target, f);
    }
    if Makes(f, p, target, categorise, lines) {
      MadeIsFound(result, value, categorise, lines, p, target, f);
    }
  }

  lemma MakesMeans(f: Finding, p: seq<Part>, key: string, categorise: Categorise, lines: map<string, nat>)
    requires p != [] && p[|p| - 1] == Key(key)
    requires f.pointer == Pointer(p) && f.line == if Pointer(p) in lines then lines[Pointer(p)] else 1
    ensures Makes(f, p, f.payload, categorise, lines) <==> CategoryIs(key, f.payload, categorise, f.category)
  {
    hide Pointer;
  }

  lemma FindingIsMade(result: set<Finding>, value: Json, categorise: Categorise, lines: map<string, nat>,
                      p: seq<Part>, target: Json, f: Finding)
    requires WellFormed(value) && Sound(result, value, categorise, lines) && f in result
    requires p != [] && LeadsTo(value, p, target) && f.pointer == Pointer(p)
    ensures Makes(f, p, target, categorise, lines)
  {
    hide LeadsTo, WellFormed, Pointer, Reported;
    var q :| Reported(value, q, categorise) && IsFinding(f, value, [], q, categorise, lines);
    var t :| LeadsTo(value, q, t) && Makes(f, [] + q, t, categorise, lines);
    assert [] + q == q;
    MemberPointersDiffer(value, p, q, target, t);
    TargetUnique(value, p, target, t);
  }

  lemma MadeIsFound(result: set<Finding>, value: Json, categorise: Categorise, lines: map<string, nat>,
                    p: seq<Part>, target: Json, f: Finding)
    requires WellFormed(value) && Complete(result, value, categorise, lines)
    requires LeadsTo(value, p, target) && Makes(f, p, target, categorise, lines)
    ensures f in result
  {
    hide LeadsTo, WellFormed, Pointer;
    assert [] + p == p;
    assert Reported(value, p, categorise);
    var g :| g in result && IsFinding(g, value, [], p, categorise, lines);
    assert IsFinding(f, value, [], p, categorise, lines);
    FindingUnique(value, p, f, g, categorise, lines);
  }

  lemma FindingUnique(value: Json, path: seq<Part>, f: Finding, g: Finding, categorise: Categorise, lines: map<string, nat>)
    requires WellFormed(value)
    requires IsFinding(f, value, [], path, categorise, lines) && IsFinding(g, value, [], path, categorise, lines)
    ensures f == g
  {
    var a :| LeadsTo(value, path, a) && Makes(f, [] + path, a, categorise, lines);
    var b :| LeadsTo(value, path, b) && Makes(g, [] + path, b, categorise, lines);
    TargetUnique(value, path, a, b);
  }
}
