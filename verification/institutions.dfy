/** The institution lookup tool (src/components/tools/InstitutionLookup.tsx): the list of
    banks narrowed first by kind, then by a search term matched against the lower-cased name
    or the decimal code. */
module Institutions {
  import opened Text

  datatype Kind = Production | Beta

  datatype Institution = Institution(code: nat, name: string, kind: Kind)

  /** The kind selector: every institution, or one kind (production is the initial choice). */
  datatype TypeFilter = AllKinds | OnlyKind(kind: Kind)

  const InitialFilter := OnlyKind(Production)

  // ---------------------------------------------------------------------------
  // Keeping the elements that pass a test
  // ---------------------------------------------------------------------------

  /** `xs.filter(p)`: the elements that pass, in their order. */
  function Keep<T>(xs: seq<T>, p: T -> bool): (r: seq<T>)
    ensures |r| <= |xs|
    ensures forall i :: 0 <= i < |r| ==> p(r[i])
    ensures forall x :: x in r ==> x in xs
    ensures forall i :: 0 <= i < |xs| && p(xs[i]) ==> xs[i] in r
  {
    if xs == [] then []
    else
      var init, last := xs[..|xs| - 1], xs[|xs| - 1];
      assert xs == init + [last];
      Keep(init, p) + (if p(last) then [last] else [])
  }

  /** `a` is `b` with some elements left out, the rest in the same order. */
  predicate IsSubsequence<T(==)>(a: seq<T>, b: seq<T>)
    decreases |b|
  {
    if a == [] then true
    else if b == [] then false
    else if a[|a| - 1] == b[|b| - 1] then IsSubsequence(a[..|a| - 1], b[..|b| - 1])
    else IsSubsequence(a, b[..|b| - 1])
  }

  lemma {:induction false} KeepIsSubsequence<T>(xs: seq<T>, p: T -> bool)
    ensures IsSubsequence(Keep(xs, p), xs)
  {
    if xs != [] {
      var init, last := xs[..|xs| - 1], xs[|xs| - 1];
      KeepIsSubsequence(init, p);
      assert init + [last] == xs;
      if p(last) {
        var r := Keep(xs, p);
        assert r[..|r| - 1] == Keep(init, p);
      } else {
        assert Keep(xs, p) == Keep(init, p);
        SubsequenceExtend(Keep(init, p), init, last);
      }
    }
  }

  /** A subsequence of `b` is one of `b` with an element added at the end. */
  lemma {:induction false} SubsequenceExtend<T>(a: seq<T>, b: seq<T>, x: T)
    requires IsSubsequence(a, b)
    ensures IsSubsequence(a, b + [x])
    decreases |b|, 1
  {
    var b' := b + [x];
    assert b'[..|b'| - 1] == b;
    if a != [] && a[|a| - 1] == x {
      SubsequenceDropLast(a, b);
    }
  }

  /** Dropping the last element of a subsequence keeps it a subsequence. */
  lemma {:induction false} SubsequenceDropLast<T>(a: seq<T>, b: seq<T>)
    requires a != [] && IsSubsequence(a, b)
    ensures IsSubsequence(a[..|a| - 1], b)
    decreases |b|, 0
  {
    var a', b' := a[..|a| - 1], b[..|b| - 1];
    assert b' + [b[|b| - 1]] == b;
    if a[|a| - 1] == b[|b| - 1] {
      SubsequenceExtend(a', b', b[|b| - 1]);
    } else {
      SubsequenceDropLast(a, b');
      SubsequenceExtend(a', b', b[|b| - 1]);
    }
  }

  /** Filtering twice is filtering once by both tests. */
  lemma {:induction false} KeepTwice<T>(xs: seq<T>, p: T -> bool, q: T -> bool, pq: T -> bool)
    requires forall x :: pq(x) == (p(x) && q(x))
    ensures Keep(Keep(xs, p), q) == Keep(xs, pq)
  {
    if xs != [] {
      var init, last := xs[..|xs| - 1], xs[|xs| - 1];
      KeepTwice(init, p, q, pq);
      var k := Keep(init, p);
      assert init + [last] == xs;
      if p(last) {
        var kx := k + [last];
        assert Keep(xs, p) == kx;
        assert kx[..|kx| - 1] == k;
      } else {
        assert Keep(xs, p) == k;
      }
    }
  }

  /** Filtering by an always-true test changes nothing. */
  lemma {:induction false} KeepAll<T>(xs: seq<T>, p: T -> bool)
    requires forall x :: p(x)
    ensures Keep(xs, p) == xs
  {
    if xs != [] {
      KeepAll(xs[..|xs| - 1], p);
      assert xs[..|xs| - 1] + [xs[|xs| - 1]] == xs;
    }
  }

  /** Splitting by a test and its negation accounts for every element once. */
  lemma {:induction false} KeepPartition<T>(xs: seq<T>, p: T -> bool, q: T -> bool)
    requires forall x :: q(x) == !p(x)
    ensures |Keep(xs, p)| + |Keep(xs, q)| == |xs|
  {
    if xs != [] {
      KeepPartition(xs[..|xs| - 1], p, q);
    }
  }

  // ---------------------------------------------------------------------------
  // The lookup
  // ---------------------------------------------------------------------------

  predicate PassesType(f: TypeFilter, inst: Institution) {
    f.AllKinds? || inst.kind == f.kind
  }

  /** The lower-cased term occurs in the lower-cased name or in the decimal code. */
  predicate MatchesSearch(term: string, inst: Institution) {
    var search := Lower(term);
    Includes(Lower(inst.name), search) || Includes(NatToString(inst.code), search)
  }

  /** The term's case does not matter: searching for its lower-cased form finds the same
      institutions. */
  lemma SearchIgnoresTermCase(term: string, inst: Institution)
    ensures MatchesSearch(Lower(term), inst) <==> MatchesSearch(term, inst)
  {
    LowerIdempotent(term);
  }

  function TypeTest(f: TypeFilter): Institution -> bool {
    inst => PassesType(f, inst)
  }

  function SearchTest(term: string): Institution -> bool {
    inst => MatchesSearch(term, inst)
  }

  /** `filteredInstitutions`, as the component computes it: the kind filter unless "all",
      then the search filter unless the term is empty. */
  function Filtered(insts: seq<Institution>, term: string, f: TypeFilter): seq<Institution> {
    var byType := if f.AllKinds? then insts else Keep(insts, TypeTest(f));
    if term != "" then Keep(byType, SearchTest(term)) else byType
  }

  /** An institution is listed exactly when it is of the chosen kind and, for a non-empty
      term, matches it. */
  predicate Selected(term: string, f: TypeFilter, inst: Institution) {
    PassesType(f, inst) && (term == "" || MatchesSearch(term, inst))
  }

  function SelectTest(term: string, f: TypeFilter): Institution -> bool {
    inst => Selected(term, f, inst)
  }

  /** The two-stage filter is one filter by the combined test. */
  lemma FilteredIsSelection(insts: seq<Institution>, term: string, f: TypeFilter)
    ensures Filtered(insts, term, f) == Keep(insts, SelectTest(term, f))
  {
    var byType := if f.AllKinds? then insts else Keep(insts, TypeTest(f));
    assert byType == Keep(insts, TypeTest(f)) by {
      if f.AllKinds? {
        KeepAll(insts, TypeTest(f));
      }
    }
    if term != "" {
      KeepTwice(insts, TypeTest(f), SearchTest(term), SelectTest(term, f));
    } else {
      assert forall x :: TypeTest(f)(x) == SelectTest(term, f)(x);
      KeepSameTest(insts, TypeTest(f), SelectTest(term, f));
    }
  }

  lemma {:induction false} KeepSameTest<T>(xs: seq<T>, p: T -> bool, q: T -> bool)
    requires forall x :: p(x) == q(x)
    ensures Keep(xs, p) == Keep(xs, q)
  {
    if xs != [] {
      KeepSameTest(xs[..|xs| - 1], p, q);
    }
  }

  /** What the lookup shows: an order-preserving part of the list, every entry of the chosen
      kind and matching the term, and every such institution present. */
  lemma FilteredSoundComplete(insts: seq<Institution>, term: string, f: TypeFilter)
    ensures IsSubsequence(Filtered(insts, term, f), insts)
    ensures forall x :: x in Filtered(insts, term, f) ==> x in insts && Selected(term, f, x)
    ensures forall i :: 0 <= i < |insts| && Selected(term, f, insts[i]) ==> insts[i] in Filtered(insts, term, f)
  {
    FilteredIsSelection(insts, term, f);
    KeepIsSubsequence(insts, SelectTest(term, f));
  }

  /** With no term the kind filter alone decides. */
  lemma EmptyTermKeepsTypeFilter(insts: seq<Institution>, f: TypeFilter)
    ensures Filtered(insts, "", f) == (if f.AllKinds? then insts else Keep(insts, TypeTest(f)))
    ensures Filtered(insts, "", AllKinds) == insts
  {
  }

  /** The counts in the kind selector: production plus beta is the total. */
  lemma KindCountsAddUp(insts: seq<Institution>)
    ensures |Keep(insts, TypeTest(OnlyKind(Production)))| + |Keep(insts, TypeTest(OnlyKind(Beta)))| == |insts|
  {
    KeepPartition(insts, TypeTest(OnlyKind(Production)), TypeTest(OnlyKind(Beta)));
  }

  /** The lookup as a single pass over the list. */
  method Search(insts: seq<Institution>, term: string, f: TypeFilter) returns (r: seq<Institution>)
    ensures r == Filtered(insts, term, f)
  {
    r := [];
    var selected := SelectTest(term, f);
    for i := 0 to |insts|
      invariant r == Keep(insts[..i], selected)
    {
      assert insts[..i + 1][..i] == insts[..i];
      if selected(insts[i]) {
        r := r + [insts[i]];
      }
    }
    assert insts[..|insts|] == insts;
    FilteredIsSelection(insts, term, f);
  }

  /** "institución" or "instituciones" after the count. */
  function ResultsNoun(n: nat): (s: string)
    ensures s == "institución" <==> n == 1
  {
    "institución" + (if n != 1 then "es" else "")
  }
}
