/** Patch pointers (RFC 8620 section 5.3; RFC 6901 sections 3 and 4), and why the order of a valid
    patch's entries does not matter. */
module Patches {
  import opened Common

  // ---------------------------------------------------------------- segments and pointers

  function Escape(s: string): string {
    if s == "" then ""
    else (if s[0] == '~' then "~0" else if s[0] == '/' then "~1" else [s[0]]) + Escape(s[1..])
  }

  /** One left-to-right pass, so that "~01" reads as "~1" and not as "/". */
  function Unescape(s: string): string {
    if s == "" then ""
    else if "~1" <= s then "/" + Unescape(s[2..])
    else if "~0" <= s then "~" + Unescape(s[2..])
    else [s[0]] + Unescape(s[1..])
  }

  lemma {:induction false} UnescapeUndoesEscape(s: string)
    ensures Unescape(Escape(s)) == s
  {
    if s != "" {
      UnescapeUndoesEscape(s[1..]);
      var head := if s[0] == '~' then "~0" else if s[0] == '/' then "~1" else [s[0]];
      var e := Escape(s);
      assert e == head + Escape(s[1..]) && e[|head|..] == Escape(s[1..]);
      if |head| == 2 {
        assert e[0] == '~' && e[1] == head[1];
        assert ("~0" <= e) == (head == "~0") && ("~1" <= e) == (head == "~1");
      } else {
        assert e[0] == s[0] && !("~0" <= e) && !("~1" <= e);
      }
      assert [s[0]] + s[1..] == s;
    }
  }

  lemma {:induction false} EscapedHasNoSlash(s: string)
    ensures '/' !in Escape(s)
    ensures Escape(s) == "" <==> s == ""
  {
    if s != "" { EscapedHasNoSlash(s[1..]); }
  }

  function EscapedAll(segments: seq<string>): (r: seq<string>)
    ensures |r| == |segments|
    ensures forall i | 0 <= i < |segments| :: r[i] == Escape(segments[i])
  {
    seq(|segments|, i requires 0 <= i < |segments| => Escape(segments[i]))
  }

  /** strings.Join with "/". */
  function Join(parts: seq<string>): string {
    if parts == [] then "" else if |parts| == 1 then parts[0] else parts[0] + "/" + Join(parts[1..])
  }

  /** strings.Split at "/": always at least one segment. */
  function Split(s: string): (parts: seq<string>)
    ensures parts != []
  {
    if s == "" then [""]
    else
      var rest := Split(s[1..]);
      if s[0] == '/' then [""] + rest else [[s[0]] + rest[0]] + rest[1..]
  }

  lemma {:induction false} SplitSlash(a: string, b: string)
    requires '/' !in a
    ensures Split(a + "/" + b) == [a] + Split(b)
    ensures Split(a) == [a]
  {
    if a == "" {
      assert a + "/" + b == "/" + b && ("/" + b)[1..] == b;
    } else {
      SplitSlash(a[1..], b);
      assert (a + "/" + b)[1..] == a[1..] + "/" + b;
      assert [a[0]] + a[1..] == a;
    }
  }

  predicate Slashless(parts: seq<string>) { forall i | 0 <= i < |parts| :: '/' !in parts[i] }

  lemma {:induction false} SplitUndoesJoin(parts: seq<string>)
    requires parts != [] && Slashless(parts)
    ensures Split(Join(parts)) == parts
  {
    if |parts| == 1 {
      SplitSlash(parts[0], "");
    } else {
      forall i | 0 <= i < |parts[1..]| ensures '/' !in parts[1..][i] { assert parts[1..][i] == parts[i + 1]; }
      SplitUndoesJoin(parts[1..]);
      SplitSlash(parts[0], Join(parts[1..]));
    }
  }

  lemma {:induction false} JoinUndoesSplit(s: string)
    ensures Join(Split(s)) == s && Slashless(Split(s))
  {
    if s != "" {
      JoinUndoesSplit(s[1..]);
      var rest := Split(s[1..]);
      if s[0] != '/' { assert (([[s[0]] + rest[0]] + rest[1..]))[1..] == rest[1..]; }
    }
  }

  /** The path a pointer addresses. */
  function Decode(pointer: string): (path: seq<string>)
    ensures |path| == |Split(pointer)|
    ensures forall i | 0 <= i < |path| :: path[i] == Unescape(Split(pointer)[i])
  {
    var parts := Split(pointer);
    seq(|parts|, i requires 0 <= i < |parts| => Unescape(parts[i]))
  }

  /** The pointer that addresses a path. */
  function PointerOf(segments: seq<string>): string { Join(EscapedAll(segments)) }

  method Pointer(segments: seq<string>) returns (pointer: string)
    ensures pointer == PointerOf(segments)
    ensures segments != [] ==> Decode(pointer) == segments
  {
    var escaped := new string[|segments|];
    for i := 0 to |segments|
      invariant forall j | 0 <= j < i :: escaped[j] == Escape(segments[j])
    {
      escaped[i] := Escape(segments[i]);
    }
    assert escaped[..] == EscapedAll(segments);
    pointer := Join(escaped[..]);
    if segments != [] { PointersDecode(segments); }
  }

  /** A pointer built from segments decodes to those segments. */
  lemma PointersDecode(segments: seq<string>)
    requires segments != []
    ensures Split(PointerOf(segments)) == EscapedAll(segments)
    ensures Decode(PointerOf(segments)) == segments
  {
    forall i | 0 <= i < |segments|
      ensures '/' !in EscapedAll(segments)[i] && Unescape(EscapedAll(segments)[i]) == segments[i] {
      EscapedHasNoSlash(segments[i]);
      UnescapeUndoesEscape(segments[i]);
    }
    SplitUndoesJoin(EscapedAll(segments));
  }

  // ---------------------------------------------------------------- validate

  datatype Verdict = Valid | EmptySegment(pointer: string) | Overlap(outer: string, inner: string)

  predicate HasEmpty(pointer: string) { exists i | 0 <= i < |Split(pointer)| :: Split(pointer)[i] == "" }

  predicate Overlaps(outer: string, inner: string) { outer + "/" <= inner }

  /** No pointer has an empty segment, and none is a prefix of another up to a slash. */
  predicate Accepted(pointers: seq<string>) {
    && (forall i | 0 <= i < |pointers| :: !HasEmpty(pointers[i]))
    && (forall i, j | 0 <= i < |pointers| && 0 <= j < |pointers| :: !Overlaps(pointers[i], pointers[j]))
  }

  method Validate(pointers: seq<string>) returns (v: Verdict)
    ensures v.Valid? <==> Accepted(pointers)
    ensures v.EmptySegment? ==> v.pointer in pointers && HasEmpty(v.pointer)
    ensures v.Overlap? ==> v.outer in pointers && v.inner in pointers && Overlaps(v.outer, v.inner)
                           && forall i | 0 <= i < |pointers| :: !HasEmpty(pointers[i])
  {
    for i := 0 to |pointers|
      invariant forall k | 0 <= k < i :: !HasEmpty(pointers[k])
    {
      var parts := Split(pointers[i]);
      for s := 0 to |parts|
        invariant forall k | 0 <= k < s :: parts[k] != ""
      {
        if parts[s] == "" { return EmptySegment(pointers[i]); }
      }
    }
    for i := 0 to |pointers|
      invariant forall a, j | 0 <= a < i && 0 <= j < |pointers| :: !Overlaps(pointers[a], pointers[j])
    {
      for j := 0 to |pointers|
        invariant forall b | 0 <= b < j :: !Overlaps(pointers[i], pointers[b])
      {
        if pointers[i] + "/" <= pointers[j] { return Overlap(pointers[i], pointers[j]); }
      }
    }
    return Valid;
  }

  /** One pointer is the prefix of another exactly when its segments are the first of the other's. */
  lemma {:induction false} OverlapIsAPathPrefix(outer: string, inner: string)
    ensures Overlaps(outer, inner) <==> Split(outer) < Split(inner)
  {
    JoinUndoesSplit(outer);
    JoinUndoesSplit(inner);
    if Overlaps(outer, inner) {
      var rest := inner[|outer| + 1..];
      assert inner == outer + "/" + rest;
      SplitAppends(outer, rest);
    }
    if Split(outer) < Split(inner) {
      var rest := Split(inner)[|Split(outer)|..];
      assert Split(inner) == Split(outer) + rest;
      JoinAppends(Split(outer), rest);
    }
  }

  lemma SplitCons(c: char, s: string)
    ensures Split([c] + s) == if c == '/' then [""] + Split(s) else [[c] + Split(s)[0]] + Split(s)[1..]
  {
    assert ([c] + s)[1..] == s;
  }

  lemma HeadJoins(head: seq<string>, rest: seq<string>, more: seq<string>)
    requires rest != []
    ensures head + (rest + more) == (head + rest) + more
    ensures (rest + more)[0] == rest[0] && head + (rest + more)[1..] == (head + rest[1..]) + more
  {
    assert (rest + more)[1..] == rest[1..] + more;
  }

  lemma FirstOff(a: string, m: string, b: string)
    requires a != ""
    ensures a + m + b == [a[0]] + (a[1..] + m + b) && a == [a[0]] + a[1..]
  {
  }

  lemma {:induction false} SplitAppends(a: string, b: string)
    ensures Split(a + "/" + b) == Split(a) + Split(b)
  {
    if a == "" {
      assert a + "/" + b == ['/'] + b;
      SplitCons('/', b);
    } else {
      SplitAppends(a[1..], b);
      SplitCons(a[0], a[1..]);
      SplitCons(a[0], a[1..] + "/" + b);
      hide Split;
      FirstOff(a, "/", b);
      HeadJoins(if a[0] == '/' then [""] else [[a[0]] + Split(a[1..])[0]], Split(a[1..]), Split(b));
    }
  }

  lemma {:induction false} JoinAppends(a: seq<string>, b: seq<string>)
    requires a != [] && b != []
    ensures Join(a + b) == Join(a) + "/" + Join(b)
  {
    if |a| == 1 {
      assert (a + b)[1..] == b;
    } else {
      assert (a + b)[1..] == a[1..] + b;
      JoinAppends(a[1..], b);
    }
  }

  lemma EscapeIsInjective(a: string, b: string)
    requires Escape(a) == Escape(b)
    ensures a == b
  {
    UnescapeUndoesEscape(a);
    UnescapeUndoesEscape(b);
  }

  /** No path is another, or reaches through another. */
  predicate PrefixFree(paths: seq<seq<string>>) {
    forall i, j | 0 <= i < |paths| && 0 <= j < |paths| && i != j :: !(paths[i] <= paths[j])
  }

  predicate Named(paths: seq<seq<string>>) {
    forall i, k | 0 <= i < |paths| && 0 <= k < |paths[i]| :: paths[i][k] != ""
  }

  lemma EscapedPrefix(a: seq<string>, b: seq<string>)
    ensures EscapedAll(a) <= EscapedAll(b) <==> a <= b
  {
    if EscapedAll(a) <= EscapedAll(b) {
      forall i | 0 <= i < |a| ensures a[i] == b[i] { EscapeIsInjective(a[i], b[i]); }
    }
  }

  function Pointers(paths: seq<seq<string>>): (r: seq<string>)
    ensures |r| == |paths| && forall i | 0 <= i < |paths| :: r[i] == PointerOf(paths[i])
  {
    seq(|paths|, i requires 0 <= i < |paths| => PointerOf(paths[i]))
  }

  lemma PointerFacts(a: seq<string>, b: seq<string>)
    requires a != [] && b != []
    ensures HasEmpty(PointerOf(a)) <==> exists k | 0 <= k < |a| :: a[k] == ""
    ensures Overlaps(PointerOf(a), PointerOf(b)) <==> a < b
  {
    PointersDecode(a);
    PointersDecode(b);
    OverlapIsAPathPrefix(PointerOf(a), PointerOf(b));
    EscapedPrefix(a, b);
    forall k | 0 <= k < |a| ensures EscapedAll(a)[k] == "" <==> a[k] == "" { EscapedHasNoSlash(a[k]); }
  }

  /** Of distinct paths, validate accepts the pointers exactly when every segment is named and no
      path reaches through another. */
  lemma AcceptedIffPrefixFree(paths: seq<seq<string>>)
    requires forall i | 0 <= i < |paths| :: paths[i] != []
    requires forall i, j | 0 <= i < j < |paths| :: paths[i] != paths[j]
    ensures Accepted(Pointers(paths)) <==> Named(paths) && PrefixFree(paths)
  {
    var ps := Pointers(paths);
    forall i, j | 0 <= i < |ps| && 0 <= j < |ps|
      ensures Overlaps(ps[i], ps[j]) <==> paths[i] < paths[j]
      ensures HasEmpty(ps[i]) <==> exists k | 0 <= k < |paths[i]| :: paths[i][k] == ""
    {
      PointerFacts(paths[i], paths[j]);
    }
    if Named(paths) && PrefixFree(paths) {
      forall i | 0 <= i < |ps| ensures !HasEmpty(ps[i]) { PointerFacts(paths[i], paths[i]); }
    }
    if forall i | 0 <= i < |ps| :: !HasEmpty(ps[i]) {
      forall i, k | 0 <= i < |paths| && 0 <= k < |paths[i]| ensures paths[i][k] != "" {
        PointerFacts(paths[i], paths[i]);
        assert !HasEmpty(ps[i]);
      }
    }
  }

  // ---------------------------------------------------------------- applying a patch

  /** A record: leaves, and objects holding properties. */
  datatype Tree = Leaf(value: string) | Obj(fields: map<string, Tree>)

  /** One entry of a patch: the path it addresses, and its value, None where the patch holds null. */
  datatype Entry = Entry(path: seq<string>, value: Option<Tree>)

  /** t holds the object path's last segment is a property of. */
  predicate HoldsParent(t: Tree, path: seq<string>)
    decreases |path|
  {
    && path != [] && t.Obj?
    && (|path| > 1 ==> path[0] in t.fields && HoldsParent(t.fields[path[0]], path[1..]))
  }

  /** The record with one entry applied (section 5.3): set, or removed for null. */
  function Apply(t: Tree, path: seq<string>, value: Option<Tree>): Tree
    requires HoldsParent(t, path)
    decreases |path|
  {
    if |path| > 1 then Obj(t.fields[path[0] := Apply(t.fields[path[0]], path[1..], value)])
    else match value
      case Some(v) => Obj(t.fields[path[0] := v])
      case None => Obj(t.fields - {path[0]})
  }

  /** What the record holds at a path: None where nothing is. */
  function At(t: Tree, path: seq<string>): Option<Tree>
    decreases |path|
  {
    if path == [] then Some(t)
    else if t.Obj? && path[0] in t.fields then At(t.fields[path[0]], path[1..])
    else None
  }

  /** An entry leaves its value, or nothing for null, at its own path, and every path apart from it alone. */
  lemma {:induction false} AppliedReads(t: Tree, path: seq<string>, value: Option<Tree>, other: seq<string>)
    requires HoldsParent(t, path)
    ensures At(Apply(t, path, value), path) == value
    ensures Apart(path, other) ==> At(Apply(t, path, value), other) == At(t, other)
    decreases |path|
  {
    var after := Apply(t, path, value);
    if |path| > 1 {
      AppliedReads(t.fields[path[0]], path[1..], value, if other == [] then [] else other[1..]);
      if Apart(path, other) && path[0] == other[0] { TailsApart(path, other); }
    } else {
      assert path[1..] == [];
      if Apart(path, other) { HeadsApart(path, other); }
    }
  }

  predicate Apart(p: seq<string>, q: seq<string>) { !(p <= q) && !(q <= p) }

  lemma {:induction false} ParentStays(t: Tree, p: seq<string>, q: seq<string>, v: Option<Tree>)
    requires HoldsParent(t, p) && HoldsParent(t, q) && Apart(p, q)
    ensures HoldsParent(Apply(t, p, v), q)
    decreases |p|
  {
    if |p| > 1 && |q| > 1 && p[0] == q[0] {
      TailsApart(p, q);
      ParentStays(t.fields[p[0]], p[1..], q[1..], v);
    } else if p[0] == q[0] {
      HeadsApart(p, q);
    }
  }

  lemma TailsApart(p: seq<string>, q: seq<string>)
    requires p != [] && q != [] && p[0] == q[0] && Apart(p, q)
    ensures Apart(p[1..], q[1..])
  {
    assert p == [p[0]] + p[1..] && q == [q[0]] + q[1..];
  }

  lemma HeadsApart(p: seq<string>, q: seq<string>)
    requires p != [] && q != [] && Apart(p, q) && (|p| == 1 || |q| == 1)
    ensures p[0] != q[0]
  {
    assert p[..1] == [p[0]] && q[..1] == [q[0]];
  }

  /** Two entries neither of which reaches through the other may be applied in either order. */
  lemma {:induction false} ApartCommute(t: Tree, p: seq<string>, q: seq<string>, u: Option<Tree>, v: Option<Tree>)
    requires HoldsParent(t, p) && HoldsParent(t, q) && Apart(p, q)
    ensures HoldsParent(Apply(t, p, u), q) && HoldsParent(Apply(t, q, v), p)
    ensures Apply(Apply(t, p, u), q, v) == Apply(Apply(t, q, v), p, u)
    decreases |p|
  {
    ParentStays(t, p, q, u);
    ParentStays(t, q, p, v);
    var a, b := Apply(Apply(t, p, u), q, v), Apply(Apply(t, q, v), p, u);
    if |p| > 1 && |q| > 1 && p[0] == q[0] {
      TailsApart(p, q);
      ApartCommute(t.fields[p[0]], p[1..], q[1..], u, v);
    } else if p[0] == q[0] {
      HeadsApart(p, q);
    }
    forall k: string ensures SameField(a.fields, b.fields, k) {}
    SameFields(a.fields, b.fields);
  }

  predicate SameField(a: map<string, Tree>, b: map<string, Tree>, k: string) {
    (k in a <==> k in b) && (k in a ==> a[k] == b[k])
  }

  lemma SameFields(a: map<string, Tree>, b: map<string, Tree>)
    requires forall k :: SameField(a, b, k)
    ensures a == b
  {
    forall k: string ensures k in a <==> k in b { assert SameField(a, b, k); }
    forall k: string | k in b ensures a[k] == b[k] { assert SameField(a, b, k); }
  }

  /** t holds every entry's parent, and no entry reaches through another. */
  predicate Applicable(t: Tree, es: seq<Entry>) {
    && (forall i | 0 <= i < |es| :: HoldsParent(t, es[i].path))
    && (forall i, j | 0 <= i < |es| && 0 <= j < |es| && i != j :: Apart(es[i].path, es[j].path))
  }

  lemma StaysApplicable(t: Tree, es: seq<Entry>)
    requires es != [] && Applicable(t, es)
    ensures Applicable(Apply(t, es[0].path, es[0].value), es[1..])
  {
    var rest := es[1..];
    forall i | 0 <= i < |rest| ensures HoldsParent(Apply(t, es[0].path, es[0].value), rest[i].path) {
      assert rest[i] == es[i + 1];
      ParentStays(t, es[0].path, es[i + 1].path, es[0].value);
    }
    forall i, j | 0 <= i < |rest| && 0 <= j < |rest| && i != j ensures Apart(rest[i].path, rest[j].path) {
      assert rest[i] == es[i + 1] && rest[j] == es[j + 1];
    }
  }

  function ApplyAll(t: Tree, es: seq<Entry>): Tree
    requires Applicable(t, es)
    decreases |es|
  {
    if es == [] then t
    else
      StaysApplicable(t, es);
      ApplyAll(Apply(t, es[0].path, es[0].value), es[1..])
  }

  function Without(es: seq<Entry>, k: nat): seq<Entry>
    requires k < |es|
  {
    es[..k] + es[k + 1..]
  }

  lemma WithoutRest(es: seq<Entry>, k: nat)
    requires k < |es|
    ensures k == 0 ==> [es[k]] + Without(es, k) == es
    ensures k > 0 ==> es[1..][k - 1] == es[k] && [es[k]] + Without(es, k) == [es[k], es[0]] + Without(es[1..], k - 1)
  {
    if k > 0 { assert Without(es, k) == [es[0]] + Without(es[1..], k - 1); }
  }

  lemma ParentOf(t: Tree, es: seq<Entry>)
    requires Applicable(t, es) && es != []
    ensures HoldsParent(t, es[0].path)
  {
  }

  lemma FrontApplicable(t: Tree, es: seq<Entry>, k: nat)
    requires k < |es| && Applicable(t, es)
    ensures Applicable(t, [es[k]] + Without(es, k))
  {
    var f := [es[k]] + Without(es, k);
    forall i | 0 <= i < |f| ensures f[i] == es[if i == 0 then k else if i <= k then i - 1 else i] {}
  }

  /** The first two entries of a patch may change places. */
  lemma SwapFirst(t: Tree, x: Entry, y: Entry, rest: seq<Entry>)
    requires Applicable(t, [y, x] + rest) && HoldsParent(t, x.path)
    requires Applicable(Apply(t, x.path, x.value), [y] + rest)
    ensures ApplyAll(t, [y, x] + rest) == ApplyAll(Apply(t, x.path, x.value), [y] + rest)
  {
    var both, one := [y, x] + rest, [y] + rest;
    assert both[0] == y && both[1] == x && both[1..] == [x] + rest && ([x] + rest)[1..] == rest && one[1..] == rest;
    StaysApplicable(t, both);
    StaysApplicable(Apply(t, x.path, x.value), one);
    ApartCommute(t, x.path, y.path, x.value, y.value);
    StaysApplicable(Apply(t, y.path, y.value), [x] + rest);
  }

  /** Any entry may go first. */
  lemma {:induction false} AnyMayGoFirst(t: Tree, es: seq<Entry>, k: nat)
    requires k < |es| && Applicable(t, es)
    ensures Applicable(t, [es[k]] + Without(es, k))
    ensures ApplyAll(t, es) == ApplyAll(t, [es[k]] + Without(es, k))
    decreases k
  {
    FrontApplicable(t, es, k);
    WithoutRest(es, k);
    ParentOf(t, es);
    hide Applicable, Apply, HoldsParent, Without;
    if k > 0 {
      StaysApplicable(t, es);
      AnyMayGoFirst(Apply(t, es[0].path, es[0].value), es[1..], k - 1);
      SwapFirst(t, es[0], es[k], Without(es[1..], k - 1));
    }
  }

  lemma RestPermutes(a: seq<Entry>, b: seq<Entry>, k: nat)
    requires a != [] && k < |b| && b[k] == a[0] && multiset(a) == multiset(b)
    ensures multiset(a[1..]) == multiset(Without(b, k))
  {
    assert a == [a[0]] + a[1..];
    assert b == b[..k] + ([b[k]] + b[k + 1..]);
    assert multiset(a[1..]) == multiset(a) - multiset{a[0]};
    assert multiset(Without(b, k)) == multiset(b) - multiset{b[k]};
  }

  lemma Somewhere(a: seq<Entry>, b: seq<Entry>, i: nat) returns (k: nat)
    requires multiset(a) == multiset(b) && i < |b|
    ensures k < |a| && a[k] == b[i]
  {
    assert b[i] in multiset(b) && b[i] in multiset(a);
    k :| 0 <= k < |a| && a[k] == b[i];
  }

  /** Applying the entries of a patch gives the same record in every order. */
  lemma {:induction false} OrderIsIrrelevant(t: Tree, a: seq<Entry>, b: seq<Entry>)
    requires Applicable(t, a) && Applicable(t, b) && multiset(a) == multiset(b)
    ensures ApplyAll(t, a) == ApplyAll(t, b)
    decreases |a|
  {
    assert |a| == |multiset(a)| && |b| == |multiset(b)|;
    if a != [] {
      var k := Somewhere(b, a, 0);
      AnyMayGoFirst(t, b, k);
      var f := [b[k]] + Without(b, k);
      RestPermutes(a, b, k);
      assert f[1..] == Without(b, k);
      StaysApplicable(t, a);
      StaysApplicable(t, f);
      OrderIsIrrelevant(Apply(t, a[0].path, a[0].value), a[1..], f[1..]);
    }
  }

  function Paths(es: seq<Entry>): (r: seq<seq<string>>)
    ensures |r| == |es| && forall i | 0 <= i < |es| :: r[i] == es[i].path
  {
    seq(|es|, i requires 0 <= i < |es| => es[i].path)
  }

  predicate DistinctPaths(es: seq<Entry>) { forall i, j | 0 <= i < j < |es| :: es[i].path != es[j].path }

  /** Being apart is nothing to the order of the entries. */
  lemma SameEntriesApart(a: seq<Entry>, b: seq<Entry>)
    requires multiset(a) == multiset(b) && DistinctPaths(b)
    requires forall i, j | 0 <= i < |a| && 0 <= j < |a| && i != j :: Apart(a[i].path, a[j].path)
    ensures forall i, j | 0 <= i < |b| && 0 <= j < |b| && i != j :: Apart(b[i].path, b[j].path)
  {
    forall i, j | 0 <= i < |b| && 0 <= j < |b| && i != j ensures Apart(b[i].path, b[j].path) {
      var k := Somewhere(a, b, i);
      var l := Somewhere(a, b, j);
      assert if i < j then b[i].path != b[j].path else b[j].path != b[i].path;
    }
  }

  /** A patch validate accepts, its keys built by Pointer: what its keys decode to is applicable to
      every record that holds each key's parent, and to the same effect in every order. */
  lemma AcceptedPatchesAreOrderFree(t: Tree, a: seq<Entry>, b: seq<Entry>)
    requires forall i | 0 <= i < |a| :: HoldsParent(t, a[i].path)
    requires DistinctPaths(a) && DistinctPaths(b)
    requires Accepted(Pointers(Paths(a))) && multiset(a) == multiset(b)
    ensures forall i | 0 <= i < |a| :: Decode(Pointers(Paths(a))[i]) == a[i].path
    ensures Applicable(t, a) && Applicable(t, b) && ApplyAll(t, a) == ApplyAll(t, b)
  {
    hide Accepted, Decode, ApplyAll, PointerOf;
    forall i | 0 <= i < |a| ensures Decode(Pointers(Paths(a))[i]) == a[i].path { PointersDecode(a[i].path); }
    AcceptedIffPrefixFree(Paths(a));
    forall i, j | 0 <= i < |a| && 0 <= j < |a| && i != j ensures Apart(a[i].path, a[j].path) {
      assert Paths(a)[i] == a[i].path && Paths(a)[j] == a[j].path;
    }
    SameEntriesApart(a, b);
    forall i | 0 <= i < |b| ensures HoldsParent(t, b[i].path) {
      var k := Somewhere(a, b, i);
    }
    OrderIsIrrelevant(t, a, b);
  }
}
