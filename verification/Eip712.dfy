/** The type encoding of eip712/eip712.go: the struct types a type reaches, and the
    text they are hashed as. */
module Eip712 {
  import opened Wrappers

  datatype Field = Field(name: string, typ: string)

  type Types = map<string, seq<Field>>

  // -------------------------------------------------------------- the type graph

  /** One trailing pair of brackets is dropped, and only one. */
  function Base(typ: string): string {
    if |typ| >= 2 && typ[|typ| - 2..] == "[]" then typ[..|typ| - 2] else typ
  }

  /** A field of a is of struct b, or a list of it. */
  ghost predicate Edge(types: Types, a: string, b: string) {
    a in types && b in types && exists i :: 0 <= i < |types[a]| && Base(types[a][i].typ) == b
  }

  ghost predicate Path(types: Types, p: seq<string>, a: string, b: string) {
    && p != [] && p[0] == a && p[|p| - 1] == b && a in types
    && forall i :: 0 <= i < |p| - 1 ==> Edge(types, p[i], p[i + 1])
  }

  ghost predicate Reaches(types: Types, a: string, b: string) {
    exists p :: Path(types, p, a, b)
  }

  ghost function Reach(types: Types, a: string): set<string> {
    set b | b in types && Reaches(types, a, b)
  }

  lemma Itself(types: Types, a: string)
    requires a in types
    ensures Reaches(types, a, a)
  {
    assert Path(types, [a], a, a);
  }

  lemma Onward(types: Types, a: string, b: string, c: string)
    requires Edge(types, a, b) && Reaches(types, b, c)
    ensures Reaches(types, a, c)
  {
    var p :| Path(types, p, b, c);
    assert Path(types, [a] + p, a, c);
  }

  ghost predicate Closed(types: Types, from: set<string>, into: set<string>) {
    forall t, u :: t in from && Edge(types, t, u) ==> u in into
  }

  /** A set closed under fields holds whatever a member reaches. */
  lemma {:induction false} ClosedHolds(types: Types, s: set<string>, p: seq<string>, a: string, b: string)
    requires Closed(types, s, s) && a in s && Path(types, p, a, b)
    ensures b in s
  {
    if |p| > 1 {
      assert Edge(types, p[0], p[1]);
      assert Path(types, p[1..], p[1], b);
      ClosedHolds(types, s, p[1..], p[1], b);
    }
  }

  // ------------------------------------------------------------------ collectDeps

  /** The map a Go caller shares with the calls it makes. */
  class Seen {
    var names: set<string>

    constructor ()
      ensures names == {}
    {
      names := {};
    }
  }

  /** What collecting from `a` adds: only what `a` reaches, and all its fields need. */
  ghost predicate Collected(types: Types, a: string, before: set<string>, after: set<string>) {
    && before <= after && (a in types ==> a in after)
    && (forall t :: t in after - before ==> t in types && Reaches(types, a, t))
    && Closed(types, after - before, after)
  }

  method CollectDeps(types: Types, typeName: string, seen: Seen)
    modifies seen
    ensures Collected(types, typeName, old(seen.names), seen.names)
    decreases types.Keys - seen.names
  {
    if typeName in seen.names { return; }
    if typeName !in types { return; }
    ghost var before := seen.names;
    seen.names := seen.names + {typeName};
    Itself(types, typeName);
    var fields := types[typeName];
    for i := 0 to |fields|
      invariant before + {typeName} <= seen.names
      invariant forall t :: t in seen.names - before ==> t in types && Reaches(types, typeName, t)
      invariant Closed(types, seen.names - before - {typeName}, seen.names)
      invariant forall k :: 0 <= k < i && Base(fields[k].typ) in types ==> Base(fields[k].typ) in seen.names
    {
      var base := Base(fields[i].typ);
      if base in types {
        ghost var was := seen.names;
        CollectDeps(types, base, seen);
        CollectedMore(types, typeName, base, before, was, seen.names);
      }
    }
  }

  lemma CollectedMore(
    types: Types, a: string, b: string, before: set<string>, was: set<string>, now: set<string>)
    requires Edge(types, a, b) && before + {a} <= was && Collected(types, b, was, now)
    requires forall t :: t in was - before ==> t in types && Reaches(types, a, t)
    requires Closed(types, was - before - {a}, was)
    ensures forall t :: t in now - before ==> t in types && Reaches(types, a, t)
    ensures Closed(types, now - before - {a}, now)
  {
    hide Edge, Reaches;
    forall t | t in now - was
      ensures Reaches(types, a, t)
    {
      Onward(types, a, b, t);
    }
  }

  /** Started empty, the collection is exactly what the type reaches, on any graph. */
  lemma {:induction false} CollectedIsReach(types: Types, a: string, after: set<string>)
    requires a in types && Collected(types, a, {}, after)
    ensures after == Reach(types, a)
  {
    assert after - {} == after;
    forall b | b in types && Reaches(types, a, b)
      ensures b in after
    {
      var p :| Path(types, p, a, b);
      ClosedHolds(types, after, p, a, b);
    }
  }

  // ----------------------------------------------------------------- name order

  /** The byte order of Go strings, which on UTF-8 is the order of code points. */
  predicate Less(a: string, b: string) {
    b != [] && (a == [] || a[0] < b[0] || (a[0] == b[0] && Less(a[1..], b[1..])))
  }

  lemma {:induction false} LessTotal(a: string, b: string)
    ensures a == b || Less(a, b) || Less(b, a)
    ensures !(Less(a, b) && Less(b, a)) && !Less(a, a)
  {
    if a != [] && b != [] && a[0] == b[0] {
      LessTotal(a[1..], b[1..]);
      assert a == [a[0]] + a[1..] && b == [b[0]] + b[1..];
    }
    if a != [] { LessTotal(a[1..], a[1..]); }
  }

  lemma {:induction false} LessTransitive(a: string, b: string, c: string)
    requires Less(a, b) && Less(b, c)
    ensures Less(a, c)
  {
    if a != [] && a[0] == b[0] == c[0] { LessTransitive(a[1..], b[1..], c[1..]); }
  }

  predicate Sorted(s: seq<string>) {
    forall i, j :: 0 <= i < j < |s| ==> Less(s[i], s[j])
  }

  /** The names of a set, strictly in order. */
  ghost predicate Lists(s: seq<string>, names: set<string>) {
    Sorted(s) && forall n :: n in names <==> n in s
  }

  /** There is only one such list, whatever order the names were met in. */
  lemma {:induction false} ListUnique(s: seq<string>, t: seq<string>, names: set<string>)
    requires Lists(s, names) && Lists(t, names)
    ensures s == t
  {
    NoneListed(s, names);
    NoneListed(t, names);
    if names != {} {
      SameFirst(s, t, names);
      RestLists(s, names);
      RestLists(t, names);
      ListUnique(s[1..], t[1..], names - {s[0]});
      assert s == [s[0]] + s[1..] && t == [t[0]] + t[1..];
    }
  }

  lemma NoneListed(s: seq<string>, names: set<string>)
    requires Lists(s, names)
    ensures s == [] <==> names == {}
  {
    if s != [] { assert s[0] in names; }
  }

  lemma SameFirst(s: seq<string>, t: seq<string>, names: set<string>)
    requires Lists(s, names) && Lists(t, names) && s != [] && t != []
    ensures s[0] == t[0]
  {
    hide Less;
    assert s[0] in t && t[0] in s;
    var i :| 0 <= i < |t| && t[i] == s[0];
    var j :| 0 <= j < |s| && s[j] == t[0];
    LessTotal(s[0], t[0]);
  }

  lemma RestLists(s: seq<string>, names: set<string>)
    requires Lists(s, names) && s != []
    ensures Lists(s[1..], names - {s[0]})
  {
    hide Less;
    LessTotal(s[0], s[0]);
    forall n | n in s[1..]
      ensures n in names && n != s[0]
    {
      var i :| 1 <= i < |s| && s[i] == n;
    }
    forall n | n in names && n != s[0]
      ensures n in s[1..]
    {
      var i :| 0 <= i < |s| && s[i] == n;
      assert s[1..][i - 1] == n;
    }
  }

  /** The set in order, as a function of the set. */
  ghost function Listing(names: set<string>): (s: seq<string>)
    ensures Lists(s, names)
  {
    if names == {} then []
    else
      var n :| n in names;
      var rest := Listing(names - {n});
      InsertLists(rest, names - {n}, n);
      Insert(rest, n)
  }

  function Insert(s: seq<string>, n: string): seq<string> {
    if s == [] || Less(n, s[0]) then [n] + s else [s[0]] + Insert(s[1..], n)
  }

  lemma {:induction false} InsertHolds(s: seq<string>, n: string)
    ensures forall x :: x in Insert(s, n) <==> x == n || x in s
  {
    if !(s == [] || Less(n, s[0])) {
      InsertHolds(s[1..], n);
      assert s == [s[0]] + s[1..];
    }
  }

  lemma {:induction false} InsertSorts(s: seq<string>, n: string)
    requires Sorted(s) && n !in s
    ensures Sorted(Insert(s, n))
  {
    if s == [] {
    } else if Less(n, s[0]) {
      hide Less;
      forall i | 0 < i < |s|
        ensures Less(n, s[i])
      {
        LessTransitive(n, s[0], s[i]);
      }
    } else {
      hide Less;
      LessTotal(n, s[0]);
      assert s[0] in s;
      InsertSorts(s[1..], n);
      InsertHolds(s[1..], n);
      var rest := Insert(s[1..], n);
      forall i | 0 <= i < |rest|
        ensures Less(s[0], rest[i])
      {
        assert rest[i] in rest;
        if rest[i] != n {
          var k :| 0 <= k < |s[1..]| && s[1..][k] == rest[i];
          assert Less(s[0], s[k + 1]);
        }
      }
    }
  }

  lemma InsertLists(s: seq<string>, names: set<string>, n: string)
    requires Lists(s, names) && n !in names
    ensures Lists(Insert(s, n), names + {n})
  {
    InsertHolds(s, n);
    InsertSorts(s, n);
  }

  function SetOf(names: seq<string>): set<string> {
    set n | n in names
  }

  /** The result of `sort.Strings` on distinct names. */
  method SortStrings(names: seq<string>) returns (sorted: seq<string>)
    requires forall i, j :: 0 <= i < j < |names| ==> names[i] != names[j]
    ensures sorted == Listing(SetOf(names))
  {
    sorted := [];
    for i := 0 to |names|
      invariant Lists(sorted, SetOf(names[..i]))
    {
      InsertLists(sorted, SetOf(names[..i]), names[i]);
      assert SetOf(names[..i + 1]) == SetOf(names[..i]) + {names[i]};
      sorted := Insert(sorted, names[i]);
    }
    assert names[..|names|] == names;
    ListUnique(sorted, Listing(SetOf(names)), SetOf(names));
  }

  // -------------------------------------------------------------------- the text

  function Item(f: Field): string {
    f.typ + " " + f.name
  }

  function FieldsText(fields: seq<Field>): string {
    if fields == [] then ""
    else
      var n := |fields| - 1;
      FieldsText(fields[..n]) + (if n > 0 then "," else "") + Item(fields[n])
  }

  function StructText(types: Types, n: string): string {
    n + "(" + FieldsText(if n in types then types[n] else []) + ")"
  }

  function Text(types: Types, names: seq<string>): string {
    if names == [] then "" else var n := |names| - 1; Text(types, names[..n]) + StructText(types, names[n])
  }

  /** The standard's encoding: the type, then all it reaches in order of name. */
  ghost function Encoding(types: Types, a: string): string {
    Text(types, [a] + Listing(Reach(types, a) - {a}))
  }

  /** `EncodeType`; an unknown type is an error. */
  method EncodeType(types: Types, typeName: string) returns (r: Option<string>)
    ensures r == if typeName in types then Some(Encoding(types, typeName)) else None
  {
    if typeName !in types { return None; }
    var seen := new Seen();
    CollectDeps(types, typeName, seen);
    CollectedIsReach(types, typeName, seen.names);
    var deps := seen.names - {typeName};
    var names := Range(deps);
    var sorted := SortStrings(names);
    assert SetOf(names) == deps;
    var text := WriteAll(types, [typeName] + sorted);
    return Some(text);
  }

  method WriteAll(types: Types, all: seq<string>) returns (text: string)
    ensures text == Text(types, all)
  {
    hide StructText;
    text := "";
    for i := 0 to |all|
      invariant text == Text(types, all[..i])
    {
      var st := WriteStruct(types, all[i]);
      assert all[..i + 1][..i] == all[..i];
      text := text + st;
    }
    assert all[..|all|] == all;
  }

  /** A map's keys in whatever order the map gives them. */
  method Range(deps: set<string>) returns (names: seq<string>)
    ensures forall i, j :: 0 <= i < j < |names| ==> names[i] != names[j]
    ensures forall n :: n in names <==> n in deps
  {
    names := [];
    var left := deps;
    while left != {}
      invariant left <= deps
      invariant forall i, j :: 0 <= i < j < |names| ==> names[i] != names[j]
      invariant forall n :: n in names <==> n in deps - left
    {
      var n :| n in left;
      assert forall i :: 0 <= i < |names| ==> names[i] in names;
      names, left := names + [n], left - {n};
    }
  }

  method WriteStruct(types: Types, n: string) returns (text: string)
    ensures text == StructText(types, n)
  {
    text := n + "(";
    var fields := if n in types then types[n] else [];
    for i := 0 to |fields|
      invariant text == n + "(" + FieldsText(fields[..i])
    {
      assert fields[..i + 1][..i] == fields[..i];
      if i > 0 { text := text + ","; }
      text := text + fields[i].typ + " " + fields[i].name;
    }
    assert fields[..|fields|] == fields;
    text := text + ")";
  }

  // ------------------------------------------------------- the text says it all

  /** Free of the punctuation the text is built with. */
  predicate Clean(s: string) {
    '(' !in s && ')' !in s && ',' !in s && ' ' !in s
  }

  predicate CleanFields(fields: seq<Field>) {
    forall i :: 0 <= i < |fields| ==> Clean(fields[i].name) && Clean(fields[i].typ)
  }

  predicate CleanTypes(types: Types) {
    forall n :: n in types ==> Clean(n) && CleanFields(types[n])
  }

  /** Two ways to cut a text at the first of a mark are the same way. */
  lemma {:induction false} CutFirst(a: string, x: string, b: string, y: string, mark: char)
    requires a + [mark] + x == b + [mark] + y && mark !in a && mark !in b
    ensures a == b && x == y
  {
    var s := a + [mark] + x;
    assert forall i :: 0 <= i < |a| ==> s[i] == a[i] && s[i] in a;
    assert forall i :: 0 <= i < |b| ==> s[i] == b[i] && s[i] in b;
    assert s[|a|] == mark == s[|b|];
    assert a == s[..|a|] && b == s[..|b|] && x == s[|a| + 1..] && y == s[|b| + 1..];
  }

  /** And at the last. */
  lemma {:induction false} CutLast(x: string, a: string, y: string, b: string, mark: char)
    requires x + [mark] + a == y + [mark] + b && mark !in a && mark !in b
    ensures a == b && x == y
  {
    var s := x + [mark] + a;
    assert forall i :: |x| < i < |s| ==> s[i] == a[i - |x| - 1] && s[i] in a;
    assert forall i :: |y| < i < |s| ==> s[i] == b[i - |y| - 1] && s[i] in b;
    assert s[|x|] == mark == s[|y|];
    assert x == s[..|x|] && y == s[..|y|] && a == s[|x| + 1..] && b == s[|y| + 1..];
  }

  lemma ItemSays(f: Field, g: Field)
    requires Item(f) == Item(g) && ' ' !in f.typ && ' ' !in g.typ
    ensures f == g
  {
    CutFirst(f.typ, f.name, g.typ, g.name, ' ');
  }

  lemma {:induction false} FieldsClean(fields: seq<Field>)
    requires CleanFields(fields)
    ensures '(' !in FieldsText(fields) && ')' !in FieldsText(fields)
    ensures |fields| <= 1 ==> ',' !in FieldsText(fields)
    ensures fields == [] <==> FieldsText(fields) == ""
  {
    if fields != [] { FieldsClean(fields[..|fields| - 1]); }
  }

  /** The text of clean fields gives the fields back. */
  lemma {:induction false} FieldsSay(f: seq<Field>, g: seq<Field>)
    requires CleanFields(f) && CleanFields(g) && FieldsText(f) == FieldsText(g)
    ensures f == g
  {
    FieldsClean(f);
    FieldsClean(g);
    if f != [] {
      var n, m := |f| - 1, |g| - 1;
      if n == 0 || m == 0 {
        OneField(f, g);
        ItemSays(f[0], g[0]);
      } else {
        CutLast(FieldsText(f[..n]), Item(f[n]), FieldsText(g[..m]), Item(g[m]), ',');
        FieldsSay(f[..n], g[..m]);
        ItemSays(f[n], g[m]);
      }
    }
  }

  lemma SingleText(f: seq<Field>)
    requires |f| == 1
    ensures FieldsText(f) == Item(f[0])
  {
    assert FieldsText(f[..0]) == "";
    assert FieldsText(f) == "" + "" + Item(f[0]);
  }

  /** A comma tells two fields or more from one. */
  lemma OneField(f: seq<Field>, g: seq<Field>)
    requires CleanFields(f) && CleanFields(g) && FieldsText(f) == FieldsText(g)
    requires f != [] && g != [] && (|f| == 1 || |g| == 1)
    ensures |f| == |g| == 1 && Item(f[0]) == Item(g[0])
  {
    hide FieldsText, CleanFields;
    FieldsClean(f);
    FieldsClean(g);
    if |f| > 1 { HasComma(f); } else { SingleText(f); }
    if |g| > 1 { HasComma(g); } else { SingleText(g); }
  }

  lemma HasComma(f: seq<Field>)
    requires |f| > 1
    ensures ',' in FieldsText(f)
  {
    var front := FieldsText(f[..|f| - 1]);
    assert FieldsText(f)[|front|] == ',';
  }

  /** A listing's text gives back the names and each one's fields. */
  lemma {:induction false} TextSays(s: Types, t: Types, a: seq<string>, b: seq<string>)
    requires CleanTypes(s) && CleanTypes(t)
    requires (forall n :: n in a ==> n in s) && (forall n :: n in b ==> n in t)
    requires Text(s, a) == Text(t, b)
    ensures a == b && forall n :: n in a ==> s[n] == t[n]
  {
    hide Clean, CleanTypes, StructText, Text;
    TextEnds(s, a);
    TextEnds(t, b);
    if a != [] {
      var n, m := |a| - 1, |b| - 1;
      LastSays(s, t, a, b);
      TextSays(s, t, a[..n], b[..m]);
      assert a == a[..n] + [a[n]] && b == b[..m] + [b[m]];
    }
  }

  lemma LastSays(s: Types, t: Types, a: seq<string>, b: seq<string>)
    requires CleanTypes(s) && CleanTypes(t) && a != [] && b != []
    requires a[|a| - 1] in s && b[|b| - 1] in t && Text(s, a) == Text(t, b)
    ensures var n, m := |a| - 1, |b| - 1;
            Text(s, a[..n]) == Text(t, b[..m]) && a[n] == b[m] && s[a[n]] == t[b[m]]
  {
    hide Clean, StructText, Text;
    var n, m := |a| - 1, |b| - 1;
    var x, y := Text(s, a[..n]), Text(t, b[..m]);
    TextLast(s, a);
    TextLast(t, b);
    TextEnds(s, a[..n]);
    TextEnds(t, b[..m]);
    StructSays(s, t, x, y, a[n], b[m]);
    NameSays(x, a[n], y, b[m]);
  }

  lemma TextLast(types: Types, names: seq<string>)
    requires names != []
    ensures var n := |names| - 1; Text(types, names) == Text(types, names[..n]) + StructText(types, names[n])
  {
  }

  lemma StructSays(s: Types, t: Types, x: string, y: string, a: string, b: string)
    requires CleanTypes(s) && CleanTypes(t) && a in s && b in t
    requires x + StructText(s, a) == y + StructText(t, b)
    ensures x + a == y + b && s[a] == t[b]
  {
    FieldsClean(s[a]);
    FieldsClean(t[b]);
    hide FieldsText, Clean;
    var f, g := FieldsText(s[a]), FieldsText(t[b]);
    StructParts(x, a, f);
    StructParts(y, b, g);
    hide StructText;
    CutLast(x + a + "(" + f, "", y + b + "(" + g, "", ')');
    CutLast(x + a, f, y + b, g, '(');
    FieldsSay(s[a], t[b]);
  }

  lemma StructParts(x: string, a: string, f: string)
    ensures x + (a + "(" + f + ")") == (x + a + "(" + f) + [')'] + ""
  {
    assert x + (a + "(" + f + ")") == x + a + "(" + f + ")";
  }

  lemma TextEnds(types: Types, names: seq<string>)
    ensures var x := Text(types, names); x == "" || x[|x| - 1] == ')'
    ensures names == [] <==> Text(types, names) == ""
  {
  }

  lemma NameSays(x: string, a: string, y: string, b: string)
    requires Clean(a) && Clean(b) && x + a == y + b
    requires x == "" || x[|x| - 1] == ')'
    requires y == "" || y[|y| - 1] == ')'
    ensures x == y && a == b
  {
    assert x == "" ==> x + a == a;
    assert y == "" ==> y + b == b;
    assert x != "" ==> (x + a)[|x| - 1] == ')';
    assert y != "" ==> (y + b)[|y| - 1] == ')';
    if x != "" && y != "" {
      var u, v := x[..|x| - 1], y[..|y| - 1];
      assert x + a == u + [')'] + a && y + b == v + [')'] + b;
      CutLast(u, a, v, b, ')');
    }
  }

  /** Two documents define a type alike, with all the types it reaches. */
  ghost predicate SameType(s: Types, t: Types, a: string, b: string) {
    a == b && a in s && a in t && Reach(s, a) == Reach(t, b) && forall n :: n in Reach(s, a) ==> s[n] == t[n]
  }

  /** For clean documents the encoding commits to the whole definition: two types
      encode alike exactly when they are the same type, reach the same types, and
      every type reached has the same fields. */
  lemma {:induction false} EncodingCommits(s: Types, t: Types, a: string, b: string)
    requires CleanTypes(s) && CleanTypes(t) && a in s && b in t
    ensures Encoding(s, a) == Encoding(t, b) <==> SameType(s, t, a, b)
  {
    hide Reach, Listing, CleanTypes, Text;
    var f, g := [a] + Listing(Reach(s, a) - {a}), [b] + Listing(Reach(t, b) - {b});
    ListsReach(s, a);
    ListsReach(t, b);
    if Encoding(s, a) == Encoding(t, b) {
      TextSays(s, t, f, g);
      assert a == f[0] == g[0] == b;
      assert forall n :: n in Reach(s, a) <==> n in Reach(t, b);
    }
    if SameType(s, t, a, b) { SameText(s, t, f); }
  }

  /** The names an encoding goes through are the types reached. */
  lemma ListsReach(types: Types, a: string)
    requires a in types
    ensures forall n :: n in [a] + Listing(Reach(types, a) - {a}) <==> n in Reach(types, a)
    ensures forall n :: n in Reach(types, a) ==> n in types
  {
    Itself(types, a);
    hide Reaches;
  }

  lemma {:induction false} SameText(s: Types, t: Types, names: seq<string>)
    requires forall n :: n in names ==> n in s && n in t && s[n] == t[n]
    ensures Text(s, names) == Text(t, names)
  {
    if names != [] { SameText(s, t, names[..|names| - 1]); }
  }

  // ------------------------------------------- one clean document among all others

  /** How often a mark occurs. */
  function Marks(s: string, mark: char): nat {
    if s == "" then 0 else Marks(s[..|s| - 1], mark) + if s[|s| - 1] == mark then 1 else 0
  }

  lemma {:induction false} MarksConcat(a: string, b: string, mark: char)
    ensures Marks(a + b, mark) == Marks(a, mark) + Marks(b, mark)
  {
    if b == "" {
      assert a + b == a;
    } else {
      MarksConcat(a, b[..|b| - 1], mark);
      assert (a + b)[..|a + b| - 1] == a + b[..|b| - 1];
    }
  }

  lemma {:induction false} NoMarks(s: string, mark: char)
    ensures Marks(s, mark) == 0 <==> mark !in s
  {
    if s != "" {
      NoMarks(s[..|s| - 1], mark);
      assert s == s[..|s| - 1] + [s[|s| - 1]];
    }
  }

  lemma OneMark(mark: char)
    ensures Marks([mark], mark) == 1
  {
    assert [mark][..0] == "";
  }

  lemma {:induction false} StructMarks(types: Types, n: string)
    requires n in types
    ensures Marks(StructText(types, n), '(') == Marks(n, '(') + 1 + Marks(FieldsText(types[n]), '(')
  {
    var f := FieldsText(types[n]);
    hide FieldsText, Marks;
    assert StructText(types, n) == n + (['('] + (f + ")"));
    MarksConcat(n, ['('] + (f + ")"), '(');
    MarksConcat(['('], f + ")", '(');
    MarksConcat(f, ")", '(');
    OneMark('(');
    NoMarks(")", '(');
  }

  /** A text has a bracket for every name, and fields have a space each. */
  lemma {:induction false} TextMarks(types: Types, names: seq<string>)
    requires forall n :: n in names ==> n in types
    ensures Marks(Text(types, names), '(') >= |names|
  {
    if names != [] {
      var n := |names| - 1;
      hide StructText, Marks;
      TextMarks(types, names[..n]);
      StructMarks(types, names[n]);
      MarksConcat(Text(types, names[..n]), StructText(types, names[n]), '(');
    }
  }

  lemma {:induction false} FieldsMarks(fields: seq<Field>)
    ensures Marks(FieldsText(fields), ' ') >= |fields|
  {
    hide Marks, Item;
    if fields != [] {
      var n := |fields| - 1;
      FieldsMarks(fields[..n]);
      var lead := FieldsText(fields[..n]) + if n > 0 then "," else "";
      MarksConcat(FieldsText(fields[..n]), if n > 0 then "," else "", ' ');
      MarksConcat(lead, Item(fields[n]), ' ');
      ItemMarks(fields[n]);
    }
  }

  lemma ItemMarks(f: Field)
    ensures Marks(Item(f), ' ') == Marks(f.typ, ' ') + 1 + Marks(f.name, ' ')
  {
    hide Marks;
    assert Item(f) == f.typ + ([' '] + f.name);
    MarksConcat(f.typ, [' '] + f.name, ' ');
    MarksConcat([' '], f.name, ' ');
    OneMark(' ');
  }

  /** What an encoding lists first and how much. */
  lemma AloneIff(types: Types, a: string)
    requires a in types
    ensures Reach(types, a) == {a} <==> Listing(Reach(types, a) - {a}) == []
    ensures Listing(Reach(types, a) - {a}) == [] ==> Encoding(types, a) == StructText(types, a)
  {
    Itself(types, a);
    NoneListed(Listing(Reach(types, a) - {a}), Reach(types, a) - {a});
    assert [a] + [] == [a] && Text(types, []) == "" && "" + StructText(types, a) == StructText(types, a);
    TextLast(types, [a]);
  }

  /** At most one field whose parts hold no space is read back from its text by anyone. */
  lemma {:induction false} FewFieldsSay(f: seq<Field>, g: seq<Field>)
    requires CleanFields(f) && |f| <= 1 && FieldsText(f) == FieldsText(g)
    ensures f == g
  {
    hide FieldsText, Marks, Item;
    FieldsMarks(g);
    NoMarks("", ' ');
    EmptyText();
    if f != [] {
      SingleText(f);
      ItemMarks(f[0]);
      NoMarks(f[0].typ, ' ');
      NoMarks(f[0].name, ' ');
      if g != [] {
        SingleText(g);
        ItemMarks(g[0]);
        NoMarks(g[0].typ, ' ');
        ItemSays(f[0], g[0]);
      }
    }
  }

  lemma EmptyText()
    ensures FieldsText([]) == ""
  {
  }

  /** A type that reaches no other and has at most one field is told apart from every
      definition whatever. */
  lemma {:induction false} PinnedAlone(s: Types, a: string, t: Types, b: string)
    requires CleanTypes(s) && a in s && b in t && Reach(s, a) == {a} && |s[a]| <= 1
    requires Encoding(t, b) == Encoding(s, a)
    ensures SameType(s, t, a, b)
  {
    hide Reach, Listing, FieldsText, Text, StructText, Marks;
    var names := [b] + Listing(Reach(t, b) - {b});
    AloneIff(s, a);
    AloneIff(t, b);
    ListsReach(t, b);
    TextMarks(t, names);
    StructMarks(s, a);
    FieldsClean(s[a]);
    NoMarks(a, '(');
    NoMarks(FieldsText(s[a]), '(');
    assert |names| == 1;
    StructMarks(t, b);
    NoMarks(b, '(');
    StructCut(s, t, a, b);
    FewFieldsSay(s[a], t[b]);
  }

  lemma StructCut(s: Types, t: Types, a: string, b: string)
    requires a in s && b in t && StructText(s, a) == StructText(t, b) && '(' !in a && '(' !in b
    ensures a == b && FieldsText(s[a]) == FieldsText(t[b])
  {
    hide FieldsText;
    var f, g := FieldsText(s[a]), FieldsText(t[b]);
    assert StructText(s, a) == a + ['('] + (f + ")") && StructText(t, b) == b + ['('] + (g + ")");
    hide StructText;
    CutFirst(a, f + ")", b, g + ")", '(');
    assert f == (f + ")")[..|f|] && g == (g + ")")[..|g|];
  }

  lemma OnlyType(types: Types, x: string, f: seq<Field>)
    requires types == map[x := f]
    ensures Encoding(types, x) == x + "(" + FieldsText(f) + ")"
  {
    Itself(types, x);
    assert Reach(types, x) == {x};
    AloneIff(types, x);
  }

  /** A type that reaches another shares its encoding with a single type, named by all
      of the text before the last list of fields. */
  lemma {:induction false} ReachingTwin(s: Types, a: string) returns (t: Types, b: string)
    requires CleanTypes(s) && a in s && Reach(s, a) != {a}
    ensures b in t && Encoding(t, b) == Encoding(s, a) && b != a
  {
    hide Reach, Listing, FieldsText, Text, Marks;
    AloneIff(s, a);
    ListsReach(s, a);
    var names := [a] + Listing(Reach(s, a) - {a});
    var n := |names| - 1;
    var last, front := names[n], Text(s, names[..n]);
    assert last in names && forall x :: x in names[..n] ==> x in names;
    TextMarks(s, names[..n]);
    TextLast(s, names);
    b := front + last;
    t := map[b := s[last]];
    OnlyType(t, b, s[last]);
    assert front + (last + "(" + FieldsText(s[last]) + ")") == b + "(" + FieldsText(s[last]) + ")";
    MarksConcat(front, last, '(');
    NoMarks(a, '(');
  }

  lemma {:induction false} TypeLeads(f: seq<Field>)
    requires f != []
    ensures f[0].typ + " " <= FieldsText(f)
  {
    if |f| > 1 {
      TypeLeads(f[..|f| - 1]);
    } else {
      SingleText(f);
    }
  }

  /** A type with two fields or more shares its encoding with one of a single field,
      whose name is all of the text after the first type. */
  lemma {:induction false} FieldsTwin(s: Types, a: string) returns (t: Types)
    requires CleanTypes(s) && a in s && Reach(s, a) == {a} && |s[a]| >= 2
    ensures a in t && Encoding(t, a) == Encoding(s, a) && t[a] != s[a]
  {
    AloneIff(s, a);
    TypeLeads(s[a]);
    var typ, text := s[a][0].typ, FieldsText(s[a]);
    var one := [Field(text[|typ| + 1..], typ)];
    SingleText(one);
    t := map[a := one];
    OnlyType(t, a, one);
    hide FieldsText, Reach, Listing;
    assert text == typ + " " + text[|typ| + 1..];
  }

  /** A clean definition is told apart from every other, clean or not, if and only if
      its type reaches no other type and has at most one field. */
  lemma {:induction false} EncodingPinsIff(s: Types, a: string)
    requires CleanTypes(s) && a in s
    ensures (forall t, b :: b in t && Encoding(t, b) == Encoding(s, a) ==> SameType(s, t, a, b))
            <==> Reach(s, a) == {a} && |s[a]| <= 1
  {
    hide Encoding, CleanTypes;
    if Reach(s, a) == {a} && |s[a]| <= 1 {
      forall t, b | b in t && Encoding(t, b) == Encoding(s, a)
        ensures SameType(s, t, a, b)
      {
        PinnedAlone(s, a, t, b);
      }
    } else if Reach(s, a) != {a} {
      var t, b := ReachingTwin(s, a);
      assert !SameType(s, t, a, b);
    } else {
      var t := FieldsTwin(s, a);
      Itself(s, a);
      assert !SameType(s, t, a, a);
    }
  }

  lemma {:induction false} FieldsTextTail(a: seq<Field>, b: seq<Field>, post: seq<Field>)
    requires a != [] && b != [] && FieldsText(a) == FieldsText(b)
    ensures FieldsText(a + post) == FieldsText(b + post)
  {
    if post == [] {
      assert a + post == a && b + post == b;
    } else {
      var n := |post| - 1;
      FieldsTextTail(a, b, post[..n]);
      assert (a + post)[..|a| + n] == a + post[..n] && (b + post)[..|b| + n] == b + post[..n];
    }
  }

  /** A field whose name holds a comma and then a space reads as two fields, and one
      whose name holds a space as a field of another type, wherever it stands. */
  lemma {:induction false} NamesRunTogether(pre: seq<Field>, x: string, t: string, y: string, u: string, post: seq<Field>)
    ensures FieldsText(pre + [Field(x + "," + t + " " + y, u)] + post)
         == FieldsText(pre + [Field(x, u), Field(y, t)] + post)
    ensures FieldsText(pre + [Field(x + " " + y, u)] + post) == FieldsText(pre + [Field(y, u + " " + x)] + post)
  {
    OneMore(pre, Field(x + "," + t + " " + y, u));
    OneMore(pre, Field(x, u));
    OneMore(pre + [Field(x, u)], Field(y, t));
    assert pre + [Field(x, u)] + [Field(y, t)] == pre + [Field(x, u), Field(y, t)];
    OneMore(pre, Field(x + " " + y, u));
    OneMore(pre, Field(y, u + " " + x));
    hide FieldsText, Item;
    ItemsRunTogether(FieldsText(pre) + (if pre != [] then "," else ""), x, t, y, u);
    FieldsTextTail(pre + [Field(x + "," + t + " " + y, u)], pre + [Field(x, u), Field(y, t)], post);
    FieldsTextTail(pre + [Field(x + " " + y, u)], pre + [Field(y, u + " " + x)], post);
  }

  lemma ItemsRunTogether(lead: string, x: string, t: string, y: string, u: string)
    ensures lead + Item(Field(x + "," + t + " " + y, u)) == lead + Item(Field(x, u)) + "," + Item(Field(y, t))
    ensures Item(Field(x + " " + y, u)) == Item(Field(y, u + " " + x))
  {
  }

  lemma OneMore(pre: seq<Field>, f: Field)
    ensures FieldsText(pre + [f]) == FieldsText(pre) + (if pre != [] then "," else "") + Item(f)
  {
    assert (pre + [f])[..|pre|] == pre;
  }

  /** A comma inside a field's name lets two definitions share an encoding. */
  lemma UncleanNamesCollide()
    ensures var one, two := map["A" := [Field("x,uint8 y", "bool")]],
                            map["A" := [Field("x", "bool"), Field("y", "uint8")]];
            one != two && Encoding(one, "A") == Encoding(two, "A")
  {
    var one, two := map["A" := [Field("x,uint8 y", "bool")]],
                    map["A" := [Field("x", "bool"), Field("y", "uint8")]];
    assert Reach(one, "A") - {"A"} == {} == Reach(two, "A") - {"A"};
    assert ["A"] + Listing({}) == ["A"];
    hide Listing, Reach;
    assert |one["A"]| == 1 && |two["A"]| == 2;
    TextsRunTogether();
    hide FieldsText, StructText;
    TextLast(one, ["A"]);
    TextLast(two, ["A"]);
    assert ["A"][..0] == [] && Text(one, []) == "" == Text(two, []);
    hide Text;
  }

  lemma TextsRunTogether()
    ensures FieldsText([Field("x,uint8 y", "bool")]) == FieldsText([Field("x", "bool"), Field("y", "uint8")])
  {
    NamesRunTogether([], "x", "uint8", "y", "bool", []);
    hide FieldsText;
    assert "x" + "," + "uint8" + " " + "y" == "x,uint8 y";
    assert [Field("x,uint8 y", "bool")] == [] + [Field("x" + "," + "uint8" + " " + "y", "bool")] + [];
    assert [Field("x", "bool"), Field("y", "uint8")] == [] + [Field("x", "bool"), Field("y", "uint8")] + [];
  }

  // ------------------------------------------------------- the standard's own terms

  lemma {:induction false} LessAt(a: string, b: string) returns (k: nat)
    requires Less(a, b)
    ensures k <= |a| && k < |b| && a[..k] == b[..k] && (k == |a| || a[k] < b[k])
  {
    if a == [] || a[0] < b[0] {
      k := 0;
    } else {
      var rest := LessAt(a[1..], b[1..]);
      k := rest + 1;
      assert a[..k] == [a[0]] + a[1..][..rest] && b[..k] == [b[0]] + b[1..][..rest];
    }
  }

  lemma {:induction false} LessFrom(a: string, b: string, k: nat)
    requires k <= |a| && k < |b| && a[..k] == b[..k] && (k == |a| || a[k] < b[k])
    ensures Less(a, b)
  {
    if k > 0 {
      assert a[0] == a[..k][0] && b[0] == b[..k][0];
      assert a[1..][..k - 1] == a[..k][1..] && b[1..][..k - 1] == b[..k][1..];
      LessFrom(a[1..], b[1..], k - 1);
    }
  }

  /** The order is that of the first character that differs; a prefix comes first. */
  lemma {:induction false} LessMeans(a: string, b: string)
    ensures Less(a, b) <==> exists k :: 0 <= k <= |a| && k < |b| && a[..k] == b[..k] && (k == |a| || a[k] < b[k])
  {
    if Less(a, b) { var k := LessAt(a, b); }
    if k :| 0 <= k <= |a| && k < |b| && a[..k] == b[..k] && (k == |a| || a[k] < b[k]) { LessFrom(a, b, k); }
  }

  /** A list's base is its type without the one empty pair of brackets; any other type
      is its own. */
  lemma {:induction false} BaseMeans(typ: string, base: string)
    ensures Base(typ) == base <==> typ == base + "[]" || (typ == base && !exists b: string :: typ == b + "[]")
  {
    if |typ| >= 2 && typ[|typ| - 2..] == "[]" {
      assert typ == typ[..|typ| - 2] + "[]";
    }
    assert |base + "[]"| == |base| + 2 && (base + "[]")[|base|..] == "[]" && (base + "[]")[..|base|] == base;
    if b: string :| typ == b + "[]" {
      assert (b + "[]")[|b|..] == "[]";
    }
  }

  /** A struct with a field of another and a list of it. */
  const PAIR: Types := map["B" := [Field("z", "bool")], "P" := [Field("x", "B"), Field("y", "B[]")]]

  lemma PairReach()
    ensures Reach(PAIR, "P") == {"P", "B"}
  {
    Itself(PAIR, "P");
    Itself(PAIR, "B");
    assert Base(PAIR["P"][0].typ) == "B";
    assert Edge(PAIR, "P", "B");
    Onward(PAIR, "P", "B", "B");
  }

  lemma PairText()
    ensures StructText(PAIR, "P") == "P(B x,B[] y)"
  {
    var f := PAIR["P"];
    SingleText(f[..1]);
    assert FieldsText(f) == FieldsText(f[..1]) + "," + Item(f[1]);
    hide FieldsText;
    assert Item(f[0]) == "B x" && Item(f[1]) == "B[] y";
    hide Item;
    assert StructText(PAIR, "P") == "P(" + FieldsText(f) + ")";
  }

  lemma PartText()
    ensures StructText(PAIR, "B") == "B(bool z)"
  {
    var g := PAIR["B"];
    SingleText(g);
    hide FieldsText;
    assert Item(g[0]) == "bool z";
    hide Item;
    assert StructText(PAIR, "B") == "B(" + FieldsText(g) + ")";
  }

  lemma PairListed()
    ensures Listing({"P", "B"} - {"P"}) == ["B"]
  {
    hide Listing;
    ListUnique(Listing({"B"}), ["B"], {"B"});
    assert {"P", "B"} - {"P"} == {"B"};
  }

  /** Its encoding, letter by letter. */
  lemma PairEncodes()
    ensures Encoding(PAIR, "P") == "P(B x,B[] y)B(bool z)"
  {
    hide Listing, Reach, StructText;
    PairReach();
    PairListed();
    PairText();
    PartText();
    TextLast(PAIR, ["P", "B"]);
    TextLast(PAIR, ["P"]);
    assert ["P", "B"][..1] == ["P"] && ["P"][..0] == [] && ["P"] + ["B"] == ["P", "B"];
    assert Text(PAIR, []) == "";
    hide Text;
    assert Encoding(PAIR, "P") == "" + "P(B x,B[] y)" + "B(bool z)";
  }
}
