/**
 * personasToString (helper.cpp): persona lists printed in sorted order, separated by ", ". The
 * network manager uses the text as the key of its connection table.
 */
module Personas {
  import opened Wrappers

  // ----- sorting names -----

  /** The order of std::string: by the first character that differs, a prefix first. */
  predicate Leq(a: string, b: string) {
    a == "" || (b != "" && (a[0] < b[0] || (a[0] == b[0] && Leq(a[1..], b[1..]))))
  }

  lemma {:induction false} LeqOrder(a: string, b: string, c: string)
    ensures Leq(a, b) || Leq(b, a)
    ensures Leq(a, b) && Leq(b, a) ==> a == b
    ensures Leq(a, b) && Leq(b, c) ==> Leq(a, c)
    decreases |a| + |b|
  {
    if a != "" && b != "" {
      LeqOrder(a[1..], b[1..], if c != "" then c[1..] else "");
      assert a == [a[0]] + a[1..] && b == [b[0]] + b[1..];
    }
  }

  predicate Ascending(s: seq<string>) {
    forall i, j :: 0 <= i < j < |s| ==> Leq(s[i], s[j])
  }

  function InsertName(s: seq<string>, x: string): seq<string> {
    if s == [] then [x] else if Leq(x, s[0]) then [x] + s else [s[0]] + InsertName(s[1..], x)
  }

  /** std::sort on the names. */
  function SortNames(s: seq<string>): seq<string> {
    if s == [] then [] else InsertName(SortNames(s[1..]), s[0])
  }

  lemma {:induction false} InsertNameSorts(s: seq<string>, x: string)
    requires Ascending(s)
    ensures Ascending(InsertName(s, x)) && multiset(InsertName(s, x)) == multiset(s) + multiset{x}
  {
    if s != [] {
      assert s == [s[0]] + s[1..];
      LeqOrder(x, s[0], "");
      if Leq(x, s[0]) {
        forall j | 0 <= j < |s| ensures Leq(x, s[j]) {
          LeqOrder(x, s[0], s[j]);
        }
      } else {
        var r := InsertName(s[1..], x);
        InsertNameSorts(s[1..], x);
        forall j | 0 <= j < |r| ensures Leq(s[0], r[j]) {
          assert r[j] in multiset(r);
          assert r[j] == x || r[j] in s[1..];
        }
      }
    }
  }

  lemma {:induction false} SortNamesSorts(s: seq<string>)
    ensures Ascending(SortNames(s)) && multiset(SortNames(s)) == multiset(s)
  {
    if s != [] {
      assert s == [s[0]] + s[1..];
      SortNamesSorts(s[1..]);
      InsertNameSorts(SortNames(s[1..]), s[0]);
    }
  }

  lemma SameLeast(a: seq<string>, b: seq<string>)
    requires Ascending(a) && Ascending(b) && multiset(a) == multiset(b) && a != []
    ensures b != [] && a[0] == b[0]
  {
    assert a[0] in multiset(b);
    assert b[0] in multiset(a);
    var i :| 0 <= i < |b| && b[i] == a[0];
    var j :| 0 <= j < |a| && a[j] == b[0];
    LeqOrder(a[0], b[0], "");
  }

  /** There is only one way to sort, so the algorithm does not matter. */
  lemma {:induction false} AscendingUnique(a: seq<string>, b: seq<string>)
    requires Ascending(a) && Ascending(b) && multiset(a) == multiset(b)
    ensures a == b
    decreases |a|
  {
    if a == [] {
      assert |multiset(b)| == 0;
    } else {
      SameLeast(a, b);
      TakeOut(a, 0);
      TakeOut(b, 0);
      assert RemoveAt(a, 0) == a[1..] && RemoveAt(b, 0) == b[1..];
      AscendingUnique(a[1..], b[1..]);
    }
  }

  // ----- printing -----

  const SEPARATOR: string := ", "

  function JoinNames(s: seq<string>): string {
    if s == [] then "" else if |s| == 1 then s[0] else s[0] + SEPARATOR + JoinNames(s[1..])
  }

  function Key(personas: seq<string>): string { JoinNames(SortNames(personas)) }

  lemma {:induction false} JoinNamesAppend(s: seq<string>, x: string)
    requires s != []
    ensures JoinNames(s + [x]) == JoinNames(s) + SEPARATOR + x
  {
    if |s| > 1 {
      JoinNamesAppend(s[1..], x);
      assert (s + [x])[1..] == s[1..] + [x];
    }
  }

  method PersonasToString(personas: seq<string>) returns (ss: string)
    ensures ss == Key(personas)
  {
    var sorted := SortNames(personas);
    ss := "";
    var first := true;
    var i := 0;
    while i < |sorted|
      invariant 0 <= i <= |sorted|
      invariant first <==> i == 0
      invariant ss == JoinNames(sorted[..i])
    {
      if !first {
        JoinNamesAppend(sorted[..i], sorted[i]);
        ss := ss + SEPARATOR;
      }
      assert sorted[..i + 1] == sorted[..i] + [sorted[i]];
      ss := ss + sorted[i];
      first := false;
      i := i + 1;
    }
    assert sorted[..i] == sorted;
  }

  // ----- the key identifies the personas -----

  predicate SeparatorAt(s: string, i: int) {
    0 <= i && i + 2 <= |s| && s[i] == ',' && s[i + 1] == ' '
  }

  /** A name that does not itself look like a list. */
  predicate Plain(name: string) {
    forall i :: 0 <= i < |name| ==> !SeparatorAt(name, i)
  }

  predicate AllPlain(names: seq<string>) {
    forall k :: 0 <= k < |names| ==> Plain(names[k])
  }

  /** In a list of plain names the first separator ends the first name. */
  lemma FirstSeparator(s: seq<string>)
    requires AllPlain(s) && |s| > 1
    ensures SeparatorAt(JoinNames(s), |s[0]|)
    ensures forall i :: SeparatorAt(JoinNames(s), i) ==> i >= |s[0]|
    ensures JoinNames(s)[..|s[0]|] == s[0] && JoinNames(s)[|s[0]| + 2..] == JoinNames(s[1..])
  {
    var t := JoinNames(s);
    assert t == s[0] + SEPARATOR + JoinNames(s[1..]);
    forall i | 0 <= i < |s[0]| ensures !SeparatorAt(t, i) {
      assert !SeparatorAt(s[0], i);
    }
  }

  lemma {:induction false} JoinNamesInjective(a: seq<string>, b: seq<string>)
    requires AllPlain(a) && AllPlain(b) && a != [] && b != []
    requires JoinNames(a) == JoinNames(b)
    ensures a == b
  {
    if |a| > 1 {
      FirstSeparator(a);
    }
    if |b| > 1 {
      FirstSeparator(b);
    }
    if |a| > 1 && |b| > 1 {
      JoinNamesInjective(a[1..], b[1..]);
      assert a == [a[0]] + a[1..] && b == [b[0]] + b[1..];
    }
  }

  lemma PlainAfterSort(s: seq<string>)
    requires AllPlain(s)
    ensures AllPlain(SortNames(s))
  {
    SortNamesSorts(s);
    forall k | 0 <= k < |SortNames(s)| ensures Plain(SortNames(s)[k]) {
      assert SortNames(s)[k] in multiset(s);
      var i :| 0 <= i < |s| && s[i] == SortNames(s)[k];
    }
  }

  /** Non-empty lists of plain names get the same key exactly when one is a permutation of the other. */
  lemma KeyIdentifies(a: seq<string>, b: seq<string>)
    requires AllPlain(a) && AllPlain(b) && a != [] && b != []
    ensures Key(a) == Key(b) <==> multiset(a) == multiset(b)
  {
    SortNamesSorts(a);
    SortNamesSorts(b);
    if Key(a) == Key(b) {
      PlainAfterSort(a);
      PlainAfterSort(b);
      assert |SortNames(a)| == |multiset(a)| > 0 && |SortNames(b)| == |multiset(b)| > 0;
      JoinNamesInjective(SortNames(a), SortNames(b));
    } else if multiset(a) == multiset(b) {
      AscendingUnique(SortNames(a), SortNames(b));
    }
  }

  /** The order in which personas are listed never matters, whatever their names. */
  lemma KeyIgnoresOrder(a: seq<string>, b: seq<string>)
    requires multiset(a) == multiset(b)
    ensures Key(a) == Key(b)
  {
    SortNamesSorts(a);
    SortNamesSorts(b);
    AscendingUnique(SortNames(a), SortNames(b));
  }

  /** Both assumptions are needed: a name that looks like a list, and the empty list, have a double. */
  lemma KeyConfused()
    ensures Key(["a, b"]) == Key(["a", "b"]) && multiset(["a, b"]) != multiset(["a", "b"])
    ensures Key([]) == Key([""]) && |multiset([""])| == 1
  {
    var two := ["a", "b"];
    assert two[1..] == ["b"] && two[1..][1..] == [];
    assert SortNames(["b"]) == ["b"] && SortNames(two) == InsertName(["b"], "a") == two;
    assert JoinNames(two) == "a" + SEPARATOR + "b" == "a, b";
    assert SortNames(["a, b"]) == ["a, b"] && SortNames([""]) == [""];
    assert |multiset(["a, b"])| == 1 && |multiset(two)| == 2;
    assert |multiset([""])| == 1;
  }
}
