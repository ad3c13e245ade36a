/** Episode references and their merge: a left-biased union, listed in one order. */
module EpisodeRefs {
  import opened Sorting

  datatype Ref = Ref(slug: string, path: string, number: int, display: string)

  // ---------------------------------------------------------------- the order

  /** Go's < on strings. */
  predicate StringLess(a: string, b: string) {
    if b == [] then false
    else if a == [] then true
    else if a[0] != b[0] then a[0] < b[0]
    else StringLess(a[1..], b[1..])
  }

  lemma {:induction false} StringLessTotal(a: string, b: string)
    ensures !(StringLess(a, b) && StringLess(b, a))
    ensures !StringLess(a, b) && !StringLess(b, a) <==> a == b
  {
    if a != [] && b != [] && a[0] == b[0] {
      StringLessTotal(a[1..], b[1..]);
      assert a == [a[0]] + a[1..] && b == [b[0]] + b[1..];
    }
  }

  lemma {:induction false} StringLessTransitive(a: string, b: string, c: string)
    requires StringLess(a, b) && StringLess(b, c)
    ensures StringLess(a, c)
  {
    if a != [] && a[0] == b[0] == c[0] {
      StringLessTransitive(a[1..], b[1..], c[1..]);
    }
  }

  /** The texts are equal before this place, and there the first one ends or has the smaller character. */
  ghost predicate LessAt(a: string, b: string, k: int) {
    && 0 <= k <= |a| && k < |b|
    && (forall i :: 0 <= i < k ==> a[i] == b[i])
    && (k == |a| || a[k] < b[k])
  }

  /** It is the dictionary order. */
  lemma {:induction false} StringLessIs(a: string, b: string)
    ensures StringLess(a, b) <==> exists k :: LessAt(a, b, k)
  {
    if a != [] && b != [] && a[0] == b[0] {
      StringLessIs(a[1..], b[1..]);
      if k :| LessAt(a[1..], b[1..], k) {
        assert forall i :: 0 < i < k + 1 ==> a[i] == a[1..][i - 1] && b[i] == b[1..][i - 1];
        assert LessAt(a, b, k + 1);
      }
      if k :| LessAt(a, b, k) {
        assert LessAt(a[1..], b[1..], k - 1);
      }
    } else if b != [] && (a == [] || a[0] < b[0]) {
      assert LessAt(a, b, 0);
    }
  }

  /** The less function of sortedEpisodeRefs. */
  predicate RefLess(a: Ref, b: Ref) {
    if a.number == b.number then StringLess(a.slug, b.slug) else a.number < b.number
  }

  lemma RefLessTransitive(a: Ref, b: Ref, c: Ref)
    requires RefLess(a, b) && RefLess(b, c)
    ensures RefLess(a, c)
  {
    if a.number == b.number == c.number {
      StringLessTransitive(a.slug, b.slug, c.slug);
    }
  }

  /** References are totally ordered by number and slug. */
  lemma RefLessStrictWeak()
    ensures StrictWeak(RefLess)
    ensures forall a, b :: !RefLess(a, b) && !RefLess(b, a) ==> a.slug == b.slug && a.number == b.number
  {
    forall a, b ensures !(RefLess(a, b) && RefLess(b, a)) && !RefLess(a, a)
      ensures !RefLess(a, b) && !RefLess(b, a) ==> a.slug == b.slug && a.number == b.number
    {
      StringLessTotal(a.slug, b.slug);
      StringLessTotal(a.slug, a.slug);
    }
    forall a, b, c | RefLess(a, b) && RefLess(b, c) ensures RefLess(a, c) {
      RefLessTransitive(a, b, c);
    }
    forall a, b, c | RefLess(a, c) ensures RefLess(a, b) || RefLess(b, c) {
      StringLessTotal(a.slug, b.slug);
      StringLessTotal(b.slug, c.slug);
      if a.number == b.number && !RefLess(a, b) {
        if b.slug != a.slug {
          RefLessTransitive(b, a, c);
        }
      }
    }
  }

  // ---------------------------------------------------------------- lists and maps of references

  predicate DistinctSlugs(s: seq<Ref>) {
    forall i, j :: 0 <= i < j < |s| ==> s[i].slug != s[j].slug
  }

  predicate Keyed(m: map<string, Ref>) {
    forall slug :: slug in m ==> m[slug].slug == slug
  }

  function SlugsOf(s: seq<Ref>): set<string> {
    set r | r in s :: r.slug
  }

  /** The list holds each reference of the map once, and nothing else. */
  ghost predicate Lists(s: seq<Ref>, m: map<string, Ref>) {
    && DistinctSlugs(s)
    && (forall r :: r in s ==> r.slug in m && m[r.slug] == r)
    && (forall slug :: slug in m ==> m[slug] in s)
  }

  /** The map of a list in which a later reference replaces an earlier one. */
  function LastMap(s: seq<Ref>): map<string, Ref> {
    if s == [] then map[] else LastMap(s[..|s| - 1])[s[|s| - 1].slug := s[|s| - 1]]
  }

  /** The map of a list in which the first reference of a slug stays. */
  function FirstMap(s: seq<Ref>): map<string, Ref> {
    if s == [] then map[]
    else
      var front, last := FirstMap(s[..|s| - 1]), s[|s| - 1];
      if last.slug in front then front else front[last.slug := last]
  }

  /** What mergeEpisodeRefs collects before sorting. */
  function MergeMap(base: seq<Ref>, extra: seq<Ref>): map<string, Ref> {
    FirstMap(extra) + LastMap(base)
  }

  /** The result of mergeEpisodeRefs. */
  ghost predicate IsMerge(refs: seq<Ref>, base: seq<Ref>, extra: seq<Ref>) {
    Sorted(RefLess, refs) && Lists(refs, MergeMap(base, extra))
  }

  lemma {:induction false} MapsKeyed(s: seq<Ref>)
    ensures Keyed(LastMap(s)) && Keyed(FirstMap(s))
    ensures LastMap(s).Keys == SlugsOf(s) && FirstMap(s).Keys == SlugsOf(s)
    ensures forall slug :: slug in LastMap(s) ==> LastMap(s)[slug] in s
    ensures forall slug :: slug in FirstMap(s) ==> FirstMap(s)[slug] in s
  {
    if s != [] {
      var front, last := s[..|s| - 1], s[|s| - 1];
      MapsKeyed(front);
      assert s == front + [last];
      assert last in s;
      assert SlugsOf(s) == SlugsOf(front) + {last.slug};
    }
  }

  /** A list with distinct slugs is listed by both of its maps. */
  lemma {:induction false} DistinctMaps(s: seq<Ref>)
    requires DistinctSlugs(s)
    ensures LastMap(s) == FirstMap(s)
    ensures Lists(s, FirstMap(s))
  {
    if s != [] {
      var front, last := s[..|s| - 1], s[|s| - 1];
      DistinctMaps(front);
      MapsKeyed(front);
      MapsKeyed(s);
      assert s == front + [last];
      assert last.slug !in SlugsOf(front);
    }
  }

  // ---------------------------------------------------------------- the code

  /** sortedEpisodeRefs: the map is visited in any order. */
  method SortedEpisodeRefs(items: map<string, Ref>) returns (refs: seq<Ref>)
    requires Keyed(items)
    ensures Sorted(RefLess, refs) && Lists(refs, items)
  {
    refs := [];
    var todo := items.Keys;
    while todo != {}
      invariant todo <= items.Keys
      invariant DistinctSlugs(refs)
      invariant forall r :: r in refs ==> r.slug in items && r.slug !in todo && items[r.slug] == r
      invariant forall slug :: slug in items && slug !in todo ==> items[slug] in refs
      decreases |todo|
    {
      var slug :| slug in todo;
      todo := todo - {slug};
      refs := refs + [items[slug]];
    }
    RefLessStrictWeak();
    StableSortSorts(RefLess, refs);
    PermutedList(refs, StableSort(RefLess, refs), items);
    refs := StableSort(RefLess, refs);
  }

  lemma LastMapNext(s: seq<Ref>, i: nat)
    requires i < |s|
    ensures LastMap(s[..i + 1]) == LastMap(s[..i])[s[i].slug := s[i]]
  {
    assert s[..i + 1][..i] == s[..i];
  }

  lemma FirstMapNext(s: seq<Ref>, i: nat)
    requires i < |s|
    ensures FirstMap(s[..i + 1]) == if s[i].slug in FirstMap(s[..i]) then FirstMap(s[..i]) else FirstMap(s[..i])[s[i].slug := s[i]]
  {
    assert s[..i + 1][..i] == s[..i];
  }

  /** mergeEpisodeRefs. */
  method MergeEpisodeRefs(base: seq<Ref>, extra: seq<Ref>) returns (refs: seq<Ref>)
    ensures IsMerge(refs, base, extra)
  {
    var seen: map<string, Ref> := map[];
    for i := 0 to |base|
      invariant seen == LastMap(base[..i])
    {
      LastMapNext(base, i);
      seen := seen[base[i].slug := base[i]];
    }
    assert base[..|base|] == base;
    for i := 0 to |extra|
      invariant seen == FirstMap(extra[..i]) + LastMap(base)
    {
      FirstMapNext(extra, i);
      if extra[i].slug !in seen {
        seen := seen[extra[i].slug := extra[i]];
      }
    }
    assert extra[..|extra|] == extra;
    MapsKeyed(base);
    MapsKeyed(extra);
    refs := SortedEpisodeRefs(seen);
  }

  // ---------------------------------------------------------------- one list per map

  lemma {:induction false} DistinctMultiset(s: seq<Ref>)
    requires DistinctSlugs(s)
    ensures forall r :: multiset(s)[r] == if r in s then 1 else 0
  {
    if s != [] {
      var front, last := s[..|s| - 1], s[|s| - 1];
      DistinctMultiset(front);
      assert s == front + [last];
      assert last !in front;
    }
  }

  lemma PermutedList(s: seq<Ref>, t: seq<Ref>, m: map<string, Ref>)
    requires multiset(s) == multiset(t) && Lists(s, m)
    ensures Lists(t, m)
  {
    DistinctMultiset(s);
    forall r | r in t ensures r in s { assert r in multiset(t); }
    forall r | r in s ensures r in t { assert r in multiset(s); }
    forall i, j | 0 <= i < j < |t| ensures t[i].slug != t[j].slug {
      if t[i].slug == t[j].slug {
        assert t[i] == t[j] == m[t[i].slug];
        TwiceInMultiset(t, i, j);
        assert false;
      }
    }
  }

  lemma TwiceInMultiset(t: seq<Ref>, i: nat, j: nat)
    requires i < j < |t| && t[i] == t[j]
    ensures multiset(t)[t[i]] >= 2
  {
    assert t == t[..j] + [t[j]] + t[j + 1..];
    assert t[i] in t[..j];
  }

  /** Two sorted lists of one map are equal: the result does not depend on the order in which the
      map was visited, nor on the sorting algorithm. */
  lemma ListingUnique(s: seq<Ref>, t: seq<Ref>, m: map<string, Ref>)
    requires Sorted(RefLess, s) && Lists(s, m) && Sorted(RefLess, t) && Lists(t, m)
    ensures s == t
  {
    DistinctMultiset(s);
    DistinctMultiset(t);
    forall r ensures r in s <==> r in t {
      if r in s { assert m[r.slug] in t; }
      if r in t { assert m[r.slug] in s; }
    }
    assert multiset(s) == multiset(t);
    RefLessStrictWeak();
    SortUnique(RefLess, s, t);
  }

  /** A listed map comes back out of its list. */
  lemma ListedMap(s: seq<Ref>, m: map<string, Ref>)
    requires Lists(s, m) && Keyed(m)
    ensures LastMap(s) == m && FirstMap(s) == m
  {
    DistinctMaps(s);
    MapsKeyed(s);
    forall slug | slug in m ensures slug in FirstMap(s) && FirstMap(s)[slug] == m[slug] {
      assert m[slug] in s && m[slug].slug == slug;
      assert slug in SlugsOf(s);
    }
    forall slug | slug in FirstMap(s) ensures slug in m {
      assert FirstMap(s)[slug] in s;
    }
  }

  lemma MergeKeyed(base: seq<Ref>, extra: seq<Ref>)
    ensures Keyed(MergeMap(base, extra))
  {
    MapsKeyed(base);
    MapsKeyed(extra);
  }

  /** A merge is listed by number, and by slug where numbers are equal, without repetition. */
  lemma MergeIsOrdered(refs: seq<Ref>, base: seq<Ref>, extra: seq<Ref>, i: nat, j: nat)
    requires IsMerge(refs, base, extra) && i < j < |refs|
    ensures refs[i].number < refs[j].number || (refs[i].number == refs[j].number && StringLess(refs[i].slug, refs[j].slug))
  {
    assert !RefLess(refs[j], refs[i]);
    StringLessTotal(refs[i].slug, refs[j].slug);
  }

  /** On a base with distinct slugs, the merge holds the base and whatever the other list adds. */
  lemma MergeIsLeftBiasedUnion(refs: seq<Ref>, base: seq<Ref>, extra: seq<Ref>, r: Ref)
    requires IsMerge(refs, base, extra) && DistinctSlugs(base) && DistinctSlugs(extra)
    ensures r in refs <==> r in base || (r in extra && r.slug !in SlugsOf(base))
  {
    DistinctMaps(base);
    DistinctMaps(extra);
    MapsKeyed(base);
    MapsKeyed(extra);
    var m := MergeMap(base, extra);
    if r in base { assert m[r.slug] == r && m[r.slug] in refs; }
    if r in extra && r.slug !in SlugsOf(base) { assert m[r.slug] == r && m[r.slug] in refs; }
    if r in refs { assert m[r.slug] == r; }
  }

  lemma OverlayAssociative(x: map<string, Ref>, y: map<string, Ref>, z: map<string, Ref>)
    ensures x + (y + z) == (x + y) + z
  {
  }

  /** Merging is associative when the middle list has distinct slugs. */
  lemma MergeAssociative(a: seq<Ref>, b: seq<Ref>, c: seq<Ref>,
                         ab: seq<Ref>, bc: seq<Ref>, left: seq<Ref>, right: seq<Ref>)
    requires DistinctSlugs(b)
    requires IsMerge(ab, a, b) && IsMerge(left, ab, c)
    requires IsMerge(bc, b, c) && IsMerge(right, a, bc)
    ensures left == right
  {
    MergeKeyed(a, b);
    MergeKeyed(b, c);
    ListedMap(ab, MergeMap(a, b));
    ListedMap(bc, MergeMap(b, c));
    DistinctMaps(b);
    OverlayAssociative(FirstMap(c), FirstMap(b), LastMap(a));
    ListingUnique(left, right, MergeMap(ab, c));
  }

  /** Merging a merged list with itself changes nothing. */
  lemma MergeIdempotent(refs: seq<Ref>, base: seq<Ref>, extra: seq<Ref>, again: seq<Ref>)
    requires IsMerge(refs, base, extra) && IsMerge(again, refs, refs)
    ensures again == refs
  {
    MergeKeyed(base, extra);
    ListedMap(refs, MergeMap(base, extra));
    ListingUnique(again, refs, MergeMap(base, extra));
  }
}
