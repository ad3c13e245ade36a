/** The stream candidate pipeline: stable sort, dedupe, filters, unstable re-sort, selection. */
module StreamCandidates {
  import opened Basics
  import opened Domain
  import opened GoText
  import opened Sorting

  /** The less function of both sorts: higher priority first. */
  predicate Ranks(a: Candidate, b: Candidate) {
    a.priority > b.priority
  }

  /** The dedupe key: container and quality, or the URL when both are blank. */
  function DedupeKey(c: Candidate): string {
    var key := ToLower(TrimSpace(c.container) + "|" + TrimSpace(c.quality));
    if key == "|" then ToLower(c.url) else key
  }

  /** Dedupe works for any key function; the pipeline uses DedupeKey. */
  type Key = Candidate -> string

  function KeysOf(key: Key, s: seq<Candidate>): set<string> {
    set c | c in s :: key(c)
  }

  /** The first candidate of each key. */
  function Dedupe(key: Key, s: seq<Candidate>): seq<Candidate> {
    if s == [] then []
    else
      var kept, last := Dedupe(key, s[..|s| - 1]), s[|s| - 1];
      if key(last) in KeysOf(key, kept) then kept else kept + [last]
  }

  predicate DirectPlayable(c: Candidate) {
    c.isDirect && c.playable
  }

  predicate Mp4(c: Candidate) {
    EqualFold(c.container, "mp4")
  }

  predicate DirectMp4(c: Candidate) {
    DirectPlayable(c) && Mp4(c)
  }

  predicate DirectMp4At720(c: Candidate) {
    DirectMp4(c) && EqualFold(c.quality, "720p")
  }

  /** The two filters of normalizeCandidates, on deduped candidates. */
  function Narrowed(deduped: seq<Candidate>): seq<Candidate> {
    var direct := Filter(DirectPlayable, deduped);
    if direct == [] then deduped
    else
      var mp4 := Filter(Mp4, direct);
      if mp4 != [] then mp4 else direct
  }

  /** The sorted and deduped candidates. */
  function Deduped(candidates: seq<Candidate>): seq<Candidate> {
    Dedupe(DedupeKey, StableSort(Ranks, candidates))
  }

  /** normalizeCandidates. */
  function Normalized(candidates: seq<Candidate>): seq<Candidate> {
    Narrowed(Deduped(candidates))
  }

  /** The dedupe loop of normalizeCandidates. */
  method DedupeLoop(key: Key, sorted: seq<Candidate>) returns (deduped: seq<Candidate>)
    ensures deduped == Dedupe(key, sorted)
  {
    var seen: set<string> := {};
    deduped := [];
    for i := 0 to |sorted|
      invariant deduped == Dedupe(key, sorted[..i]) && seen == KeysOf(key, deduped)
    {
      assert sorted[..i + 1][..i] == sorted[..i];
      if key(sorted[i]) !in seen {
        KeysOfAppend(key, deduped, sorted[i]);
        seen := seen + {key(sorted[i])};
        deduped := deduped + [sorted[i]];
      }
    }
    assert sorted[..|sorted|] == sorted;
  }

  /** A filter loop of normalizeCandidates. */
  method FilterLoop(p: Candidate -> bool, s: seq<Candidate>) returns (kept: seq<Candidate>)
    ensures kept == Filter(p, s)
  {
    kept := [];
    for i := 0 to |s|
      invariant kept == Filter(p, s[..i])
    {
      FilterAppend(p, s[..i], s[i]);
      assert s[..i + 1] == s[..i] + [s[i]];
      if p(s[i]) { kept := kept + [s[i]]; }
    }
    assert s[..|s|] == s;
  }

  /** normalizeCandidates with its loops. */
  method Normalize(candidates: seq<Candidate>) returns (result: seq<Candidate>)
    ensures result == Normalized(candidates)
  {
    if candidates == [] { return candidates; }
    var deduped := DedupeLoop(DedupeKey, StableSort(Ranks, candidates));
    var direct := FilterLoop(DirectPlayable, deduped);
    if direct == [] { return deduped; }
    var mp4 := FilterLoop(Mp4, direct);
    if mp4 != [] { return mp4; }
    return direct;
  }

  lemma KeysOfAppend(key: Key, s: seq<Candidate>, last: Candidate)
    ensures KeysOf(key, s + [last]) == KeysOf(key, s) + {key(last)}
  {
    assert last in s + [last];
    forall c | c in s ensures c in s + [last] {}
  }

  // ---------------------------------------------------------------- dedupe

  ghost predicate DistinctKeys(key: Key, s: seq<Candidate>) {
    forall i, j :: 0 <= i < j < |s| ==> key(s[i]) != key(s[j])
  }

  /** Dedupe keeps inputs only, one per key, in order. */
  lemma {:induction false} DedupeShape(key: Key, s: seq<Candidate>)
    ensures forall c :: c in Dedupe(key, s) ==> c in s
    ensures DistinctKeys(key, Dedupe(key, s))
  {
    if s != [] {
      var front, last := s[..|s| - 1], s[|s| - 1];
      DedupeShape(key, front);
      assert s == front + [last];
    }
  }

  lemma {:induction false} DedupeSorted(key: Key, s: seq<Candidate>)
    requires Sorted(Ranks, s)
    ensures Sorted(Ranks, Dedupe(key, s))
  {
    if s != [] {
      var front, last := s[..|s| - 1], s[|s| - 1];
      DedupeSorted(key, front);
      DedupeShape(key, front);
      forall c | c in Dedupe(key, front) ensures !Ranks(last, c) {
        var i :| 0 <= i < |front| && front[i] == c;
        assert s[i] == c;
      }
    }
  }

  /** Every input shares its key with a kept candidate that comes no later. */
  lemma {:induction false} DedupeRepresents(key: Key, s: seq<Candidate>, i: nat) returns (kept: Candidate, j: nat)
    requires i < |s|
    ensures j <= i && s[j] == kept && kept in Dedupe(key, s) && key(kept) == key(s[i])
  {
    var front, last := s[..|s| - 1], s[|s| - 1];
    if i < |front| {
      kept, j := DedupeRepresents(key, front, i);
    } else if key(last) in KeysOf(key, Dedupe(key, front)) {
      kept :| kept in Dedupe(key, front) && key(kept) == key(last);
      DedupeShape(key, front);
      j :| 0 <= j < |front| && front[j] == kept;
    } else {
      kept, j := last, i;
      assert kept in Dedupe(key, front) + [last];
    }
  }

  lemma {:induction false} DedupeIdentity(key: Key, s: seq<Candidate>)
    requires DistinctKeys(key, s)
    ensures Dedupe(key, s) == s
  {
    if s != [] {
      var front, last := s[..|s| - 1], s[|s| - 1];
      DedupeIdentity(key, front);
      assert s == front + [last];
    }
  }

  lemma {:induction false} FilterDistinct(key: Key, p: Candidate -> bool, s: seq<Candidate>)
    requires DistinctKeys(key, s)
    ensures DistinctKeys(key, Filter(p, s))
  {
    if s != [] {
      FilterDistinct(key, p, s[1..]);
      FilterMembers(p, s[1..]);
      forall c | c in Filter(p, s[1..]) ensures key(c) != key(s[0]) {
        assert c in s[1..];
        var k :| 0 <= k < |s[1..]| && s[1..][k] == c;
        assert s[k + 1] == c;
      }
    }
  }

  /** The candidate at a position is the first of its key. */
  ghost predicate FirstOfKey(key: Key, s: seq<Candidate>, i: nat)
    requires i < |s|
  {
    forall j :: 0 <= j < i ==> key(s[j]) != key(s[i])
  }

  lemma {:induction false} FirstOfKeyKept(key: Key, s: seq<Candidate>, i: nat)
    requires i < |s| && FirstOfKey(key, s, i)
    ensures s[i] in Dedupe(key, s)
  {
    var front, last := s[..|s| - 1], s[|s| - 1];
    if i < |front| {
      assert forall j :: 0 <= j <= i ==> front[j] == s[j];
      FirstOfKeyKept(key, front, i);
    } else {
      DedupeShape(key, front);
      forall c | c in Dedupe(key, front) ensures key(c) != key(last) {
        var j :| 0 <= j < |front| && front[j] == c;
        assert s[j] == c;
      }
    }
  }

  lemma {:induction false} KeptIsFirstOfKey(key: Key, s: seq<Candidate>, c: Candidate) returns (i: nat)
    requires c in Dedupe(key, s)
    ensures i < |s| && s[i] == c && FirstOfKey(key, s, i)
  {
    var front, last := s[..|s| - 1], s[|s| - 1];
    if c in Dedupe(key, front) {
      i := KeptIsFirstOfKey(key, front, c);
    } else {
      i := |front|;
      forall j | 0 <= j < i ensures key(s[j]) != key(s[i]) {
        var kept, k := DedupeRepresents(key, front, j);
      }
    }
  }

  // ---------------------------------------------------------------- normalizeCandidates

  /** The output is sorted by descending priority, its keys are distinct, and it holds inputs only. */
  lemma NormalizedShape(candidates: seq<Candidate>)
    ensures Sorted(Ranks, Normalized(candidates))
    ensures DistinctKeys(DedupeKey, Normalized(candidates))
    ensures forall c :: c in Normalized(candidates) ==> c in candidates
  {
    var sorted := StableSort(Ranks, candidates);
    StableSortSorts(Ranks, candidates);
    DedupeShape(DedupeKey, sorted);
    DedupeSorted(DedupeKey, sorted);
    NarrowedShape(Deduped(candidates));
    forall c | c in sorted ensures c in candidates {
      assert c in multiset(sorted);
    }
  }

  lemma NarrowedShape(deduped: seq<Candidate>)
    requires Sorted(Ranks, deduped) && DistinctKeys(DedupeKey, deduped)
    ensures Sorted(Ranks, Narrowed(deduped)) && DistinctKeys(DedupeKey, Narrowed(deduped))
    ensures forall c :: c in Narrowed(deduped) ==> c in deduped
  {
    var direct := Filter(DirectPlayable, deduped);
    FilterSorted(Ranks, DirectPlayable, deduped);
    FilterDistinct(DedupeKey, DirectPlayable, deduped);
    FilterMembers(DirectPlayable, deduped);
    FilterSorted(Ranks, Mp4, direct);
    FilterDistinct(DedupeKey, Mp4, direct);
    FilterMembers(Mp4, direct);
  }

  lemma NarrowedIdempotent(deduped: seq<Candidate>)
    ensures Narrowed(Narrowed(deduped)) == Narrowed(deduped)
  {
    var direct := Filter(DirectPlayable, deduped);
    var mp4 := Filter(Mp4, direct);
    FilterMembers(DirectPlayable, deduped);
    FilterMembers(Mp4, direct);
    if direct != [] {
      FilterAll(DirectPlayable, direct);
      FilterAll(DirectPlayable, mp4);
      FilterAll(Mp4, mp4);
    }
  }

  /** Normalising twice is normalising once. */
  lemma NormalizedIdempotent(candidates: seq<Candidate>)
    ensures Normalized(Normalized(candidates)) == Normalized(candidates)
  {
    var once := Normalized(candidates);
    NormalizedShape(candidates);
    StableSortIdentity(Ranks, once);
    DedupeIdentity(DedupeKey, once);
    NarrowedIdempotent(Deduped(candidates));
  }

  lemma RepresentedBy(key: Key, candidates: seq<Candidate>, sorted: seq<Candidate>, c: Candidate) returns (kept: Candidate)
    requires SortOf(Ranks, sorted, candidates) && c in candidates
    ensures kept in candidates && kept in Dedupe(key, sorted)
    ensures key(kept) == key(c) && kept.priority >= c.priority
  {
    assert c in multiset(sorted);
    var i :| 0 <= i < |sorted| && sorted[i] == c;
    var j;
    kept, j := DedupeRepresents(key, sorted, i);
    assert kept in multiset(candidates);
    assert j < i ==> !Ranks(sorted[i], sorted[j]);
  }

  /** A candidate that dedupe drops shares its key with a kept one of at least its priority. */
  lemma Represented(candidates: seq<Candidate>, c: Candidate) returns (kept: Candidate)
    requires c in candidates
    ensures kept in candidates && kept in Deduped(candidates)
    ensures DedupeKey(kept) == DedupeKey(c) && kept.priority >= c.priority
  {
    StableSortSorts(Ranks, candidates);
    kept := RepresentedBy(DedupeKey, candidates, StableSort(Ranks, candidates), c);
  }

  /** A direct mp4 that is not in the output lost to a candidate with its key and at least its
      priority: it is never dropped by the filters. */
  lemma DroppedMp4(candidates: seq<Candidate>, c: Candidate) returns (kept: Candidate)
    requires c in candidates && DirectMp4(c) && c !in Normalized(candidates)
    ensures kept != c && kept in candidates && DedupeKey(kept) == DedupeKey(c) && kept.priority >= c.priority
  {
    kept := Represented(candidates, c);
    SurvivingMp4(Deduped(candidates), c);
  }

  /** The filters keep every direct mp4, and nothing else when there is one. */
  lemma SurvivingMp4(deduped: seq<Candidate>, c: Candidate)
    requires DirectMp4(c)
    ensures c in deduped ==> c in Narrowed(deduped) && forall d :: d in Narrowed(deduped) ==> DirectMp4(d)
  {
    var direct := Filter(DirectPlayable, deduped);
    FilterMembers(DirectPlayable, deduped);
    FilterMembers(Mp4, direct);
  }

  ghost predicate SomeMp4IsFirst(sorted: seq<Candidate>) {
    exists i :: 0 <= i < |sorted| && DirectMp4(sorted[i]) && FirstOfKey(DedupeKey, sorted, i)
  }

  lemma AllMp4NeedsFirst(sorted: seq<Candidate>)
    requires var output := Narrowed(Dedupe(DedupeKey, sorted)); output != [] && DirectMp4(output[0])
    ensures SomeMp4IsFirst(sorted)
  {
    var c := Narrowed(Dedupe(DedupeKey, sorted))[0];
    NarrowedSubset(Dedupe(DedupeKey, sorted), c);
    var i := KeptIsFirstOfKey(DedupeKey, sorted, c);
  }

  lemma FirstGivesAllMp4(sorted: seq<Candidate>)
    requires SomeMp4IsFirst(sorted)
    ensures var output := Narrowed(Dedupe(DedupeKey, sorted)); output != [] && forall c :: c in output ==> DirectMp4(c)
  {
    var i :| 0 <= i < |sorted| && DirectMp4(sorted[i]) && FirstOfKey(DedupeKey, sorted, i);
    FirstOfKeyKept(DedupeKey, sorted, i);
    SurvivingMp4(Dedupe(DedupeKey, sorted), sorted[i]);
  }

  /** Same dedupe key and same priority: what neither sort tells apart. */
  predicate SameClass(a: Candidate, b: Candidate) {
    DedupeKey(a) == DedupeKey(b) && a.priority == b.priority
  }

  function ClassOf(c: Candidate): Candidate -> bool {
    (d: Candidate) => SameClass(d, c)
  }

  /** Every other candidate of its key has a lower priority, or the same one and a later place. */
  ghost predicate Wins(candidates: seq<Candidate>, i: nat)
    requires i < |candidates|
  {
    forall j :: 0 <= j < |candidates| && j != i && DedupeKey(candidates[j]) == DedupeKey(candidates[i]) ==>
      candidates[j].priority < candidates[i].priority || (candidates[j].priority == candidates[i].priority && j > i)
  }

  ghost predicate SomeMp4Wins(candidates: seq<Candidate>) {
    exists i :: 0 <= i < |candidates| && DirectMp4(candidates[i]) && Wins(candidates, i)
  }

  /** A candidate that wins its key is the first of its key once the input is stably sorted. */
  lemma WinnerIsFirst(candidates: seq<Candidate>, i: nat) returns (k: nat)
    requires i < |candidates| && Wins(candidates, i)
    ensures var sorted := StableSort(Ranks, candidates);
      k < |sorted| && sorted[k] == candidates[i] && FirstOfKey(DedupeKey, sorted, k)
  {
    var c, sorted := candidates[i], StableSort(Ranks, candidates);
    var before;
    before, k := FirstOfClass(Ranks, ClassOf(c), candidates, c);
    assert before == i by { assert SameClass(candidates[i], c); }
    StableSortSorts(Ranks, candidates);
    forall j | 0 <= j < k ensures DedupeKey(sorted[j]) != DedupeKey(c) {
      assert !Ranks(sorted[k], sorted[j]) && !SameClass(sorted[j], c);
      assert sorted[j] in multiset(candidates);
      var m :| 0 <= m < |candidates| && candidates[m] == sorted[j];
      assert m != i;
    }
  }

  lemma FirstIsHighest(candidates: seq<Candidate>, sorted: seq<Candidate>, k: nat, d: Candidate)
    requires SortOf(Ranks, sorted, candidates) && k < |sorted| && FirstOfKey(DedupeKey, sorted, k)
    requires d in candidates && DedupeKey(d) == DedupeKey(sorted[k])
    ensures d.priority <= sorted[k].priority
  {
    assert d in multiset(sorted);
    var m :| 0 <= m < |sorted| && sorted[m] == d;
    assert m >= k && (m > k ==> !Ranks(sorted[m], sorted[k]));
  }

  /** Conversely, the first of its key in the stably sorted input won its key in the input. */
  lemma FirstIsWinner(candidates: seq<Candidate>, k: nat) returns (i: nat)
    requires k < |StableSort(Ranks, candidates)| && FirstOfKey(DedupeKey, StableSort(Ranks, candidates), k)
    ensures i < |candidates| && candidates[i] == StableSort(Ranks, candidates)[k] && Wins(candidates, i)
  {
    var sorted := StableSort(Ranks, candidates);
    var c := sorted[k];
    StableSortSorts(Ranks, candidates);
    assert c in multiset(candidates) && SameClass(c, c);
    var after;
    i, after := FirstOfClass(Ranks, ClassOf(c), candidates, c);
    assert after == k by { assert SameClass(sorted[k], c) && DedupeKey(sorted[after]) == DedupeKey(c); }
    forall j | 0 <= j < |candidates| && j != i && DedupeKey(candidates[j]) == DedupeKey(c)
      ensures candidates[j].priority < c.priority || (candidates[j].priority == c.priority && j > i)
    {
      FirstIsHighest(candidates, sorted, k, candidates[j]);
      assert j < i ==> !SameClass(candidates[j], c);
    }
  }

  lemma Mp4WinsIff(candidates: seq<Candidate>)
    ensures SomeMp4Wins(candidates) <==> SomeMp4IsFirst(StableSort(Ranks, candidates))
  {
    var sorted := StableSort(Ranks, candidates);
    if SomeMp4Wins(candidates) {
      var i :| 0 <= i < |candidates| && DirectMp4(candidates[i]) && Wins(candidates, i);
      var k := WinnerIsFirst(candidates, i);
    }
    if SomeMp4IsFirst(sorted) {
      var k :| 0 <= k < |sorted| && DirectMp4(sorted[k]) && FirstOfKey(DedupeKey, sorted, k);
      var i := FirstIsWinner(candidates, k);
    }
  }

  /** The output is made of direct mp4s exactly when some direct mp4 of the input wins its key:
      one that does not is lost, for dedupe runs before the filters. */
  lemma AllDirectMp4Iff(candidates: seq<Candidate>)
    ensures (Normalized(candidates) != [] && forall c :: c in Normalized(candidates) ==> DirectMp4(c))
      <==> SomeMp4Wins(candidates)
  {
    Mp4WinsIff(candidates);
    if Normalized(candidates) != [] && DirectMp4(Normalized(candidates)[0]) {
      AllMp4NeedsFirst(StableSort(Ranks, candidates));
    }
    if SomeMp4IsFirst(StableSort(Ranks, candidates)) {
      FirstGivesAllMp4(StableSort(Ranks, candidates));
    }
  }

  /** An indirect candidate of the same key loses the only direct mp4, by a higher priority or, at
      equal priority, by coming first. */
  lemma DirectMp4CanBeLost(direct: Candidate, indirect: Candidate)
    requires DirectMp4(direct) && !indirect.isDirect && DedupeKey(direct) == DedupeKey(indirect)
    ensures indirect.priority > direct.priority ==> !SomeMp4Wins([direct, indirect]) && Normalized([direct, indirect]) == [indirect]
    ensures indirect.priority >= direct.priority ==> !SomeMp4Wins([indirect, direct]) && Normalized([indirect, direct]) == [indirect]
  {
    if indirect.priority > direct.priority { LostToFirst(direct, indirect, [direct, indirect]); }
    if indirect.priority >= direct.priority { LostToFirst(direct, indirect, [indirect, direct]); }
  }

  lemma SortPair(a: Candidate, b: Candidate)
    ensures StableSort(Ranks, [a, b]) == if Ranks(b, a) then [b, a] else [a, b]
  {
    assert [a, b][1..] == [b] && [b][1..] == [];
    assert StableSort(Ranks, [b]) == [b];
    assert Insert(Ranks, a, []) == [a];
  }

  lemma LostToFirst(direct: Candidate, indirect: Candidate, input: seq<Candidate>)
    requires DirectMp4(direct) && !indirect.isDirect && DedupeKey(direct) == DedupeKey(indirect)
    requires input == [indirect, direct] || input == [direct, indirect]
    requires indirect.priority > direct.priority || (indirect.priority == direct.priority && input[0] == indirect)
    ensures !SomeMp4Wins(input) && Normalized(input) == [indirect]
  {
    var sorted := StableSort(Ranks, input);
    SortPair(input[0], input[1]);
    assert input == [input[0], input[1]];
    assert sorted == [indirect, direct];
    assert sorted[..1] == [indirect] && [indirect][..0] == [];
    assert Dedupe(DedupeKey, [indirect]) == [indirect];
    assert indirect in [indirect] && DedupeKey(direct) in KeysOf(DedupeKey, [indirect]);
    assert Dedupe(DedupeKey, sorted) == [indirect];
    assert Filter(DirectPlayable, [indirect]) == [] by { assert [indirect][1..] == []; }
    AllDirectMp4Iff(input);
    assert indirect in Normalized(input);
  }

  /** The candidate wins its key somewhere in the input. */
  ghost predicate Winner(candidates: seq<Candidate>, c: Candidate) {
    exists i :: 0 <= i < |candidates| && candidates[i] == c && Wins(candidates, i)
  }

  lemma DedupedAreWinners(candidates: seq<Candidate>, c: Candidate)
    ensures c in Deduped(candidates) <==> Winner(candidates, c)
  {
    var sorted := StableSort(Ranks, candidates);
    if Winner(candidates, c) {
      var i :| 0 <= i < |candidates| && candidates[i] == c && Wins(candidates, i);
      var k := WinnerIsFirst(candidates, i);
      FirstOfKeyKept(DedupeKey, sorted, k);
    }
    if c in Deduped(candidates) {
      var k := KeptIsFirstOfKey(DedupeKey, sorted, c);
      var i := FirstIsWinner(candidates, k);
    }
  }

  lemma NarrowedMembers(deduped: seq<Candidate>, c: Candidate)
    ensures c in Narrowed(deduped) <==>
      && c in deduped
      && ((exists d :: d in deduped && DirectMp4(d)) ==> DirectMp4(c))
      && ((exists d :: d in deduped && DirectPlayable(d)) ==> DirectPlayable(c))
  {
    var direct := Filter(DirectPlayable, deduped);
    FilterMembers(DirectPlayable, deduped);
    FilterMembers(Mp4, direct);
    assert direct != [] ==> direct[0] in direct;
    assert Filter(Mp4, direct) != [] ==> Filter(Mp4, direct)[0] in Filter(Mp4, direct);
  }

  /** Which candidates come out: those that win their key, of these the direct playable ones if there
      are any, and of these the mp4s if there are any. */
  lemma NormalizedMembers(candidates: seq<Candidate>, c: Candidate)
    ensures c in Normalized(candidates) <==>
      && Winner(candidates, c)
      && ((exists d :: Winner(candidates, d) && d.isDirect && d.playable) ==> c.isDirect && c.playable)
      && ((exists d :: Winner(candidates, d) && d.isDirect && d.playable && ToLower(d.container) == "mp4") ==>
        c.isDirect && c.playable && ToLower(c.container) == "mp4")
  {
    FoldsOfNames();
    NarrowedMembers(Deduped(candidates), c);
    forall d ensures d in Deduped(candidates) <==> Winner(candidates, d) { DedupedAreWinners(candidates, d); }
    forall d ensures DirectPlayable(d) <==> d.isDirect && d.playable {}
    forall d: Candidate ensures DirectMp4(d) <==> d.isDirect && d.playable && ToLower(d.container) == "mp4" {}
  }

  /** Only an empty offer leaves nothing. */
  lemma NormalizedEmpty(candidates: seq<Candidate>)
    ensures Normalized(candidates) == [] <==> candidates == []
  {
    if candidates != [] {
      var kept := Represented(candidates, candidates[0]);
      var deduped := Deduped(candidates);
      FilterMembers(DirectPlayable, deduped);
      assert deduped != [];
    }
  }

  /** Two labelled candidates share a dedupe key exactly when their trimmed containers and qualities
      agree but for case; two without any label, when their URLs do. */
  lemma DedupeKeyIs(c: Candidate, d: Candidate)
    requires '|' !in c.container && '|' !in d.container
    ensures !(Blank(c.container) && Blank(c.quality)) && !(Blank(d.container) && Blank(d.quality)) ==>
      (DedupeKey(c) == DedupeKey(d) <==>
        && ToLower(TrimSpace(c.container)) == ToLower(TrimSpace(d.container))
        && ToLower(TrimSpace(c.quality)) == ToLower(TrimSpace(d.quality)))
    ensures Blank(c.container) && Blank(c.quality) && Blank(d.container) && Blank(d.quality) ==>
      (DedupeKey(c) == DedupeKey(d) <==> ToLower(c.url) == ToLower(d.url))
  {
    LabelKey(c);
    LabelKey(d);
    var x, y := ToLower(TrimSpace(c.container)), ToLower(TrimSpace(d.container));
    var p, q := ToLower(TrimSpace(c.quality)), ToLower(TrimSpace(d.quality));
    if x + "|" + p == y + "|" + q {
      CutOf(x, '|', p);
      CutOf(y, '|', q);
    }
  }

  lemma LabelKey(c: Candidate)
    requires '|' !in c.container
    ensures var x, p := ToLower(TrimSpace(c.container)), ToLower(TrimSpace(c.quality));
      && '|' !in x
      && DedupeKey(c) == if Blank(c.container) && Blank(c.quality) then ToLower(c.url) else x + "|" + p
  {
    var container, quality := TrimSpace(c.container), TrimSpace(c.quality);
    TrimSpaceTrims(c.container);
    ToLowerConcat(container + "|", quality);
    ToLowerConcat(container, "|");
    assert ToLower("|") == "|";
    forall i | 0 <= i < |container| ensures ToLower(container)[i] != '|' {
      assert container[i] in container;
      assert ToLower(container)[i] == LowerRune(container[i]);
    }
    var key := ToLower(container) + "|" + ToLower(quality);
    if key == "|" {
      assert |ToLower(container)| + 1 + |ToLower(quality)| == 1;
    }
  }

  // ---------------------------------------------------------------- selection

  function First(p: Candidate -> bool, s: seq<Candidate>): Option<Candidate> {
    if s == [] then None else if p(s[0]) then Some(s[0]) else First(p, s[1..])
  }

  /** pickPreferredStream. */
  function PickPreferred(s: seq<Candidate>): Option<(Candidate, string)> {
    match First(DirectMp4At720, s)
    case Some(c) => Some((c, "preferred_720p_direct_mp4"))
    case None =>
      match First(DirectMp4, s)
      case Some(c) => Some((c, "preferred_direct_mp4"))
      case None => None
  }

  /** The preferred stream of a result and the reason recorded for it. */
  function Select(s: seq<Candidate>): (Option<Candidate>, string) {
    match PickPreferred(s)
    case Some((c, reason)) => (Some(c), reason)
    case None =>
      match First((c: Candidate) => c.isDirect, s)
      case Some(c) => (Some(c), "preferred_direct_fallback")
      case None => if s != [] then (Some(s[0]), "highest_ranked_candidate") else (None, "preferred_direct_mp4")
  }

  lemma {:induction false} FirstFinds(p: Candidate -> bool, s: seq<Candidate>)
    ensures First(p, s).Some? <==> exists c :: c in s && p(c)
    ensures First(p, s).Some? ==> First(p, s).value in s && p(First(p, s).value)
  {
    if s != [] {
      FirstFinds(p, s[1..]);
      assert s == [s[0]] + s[1..];
    }
  }

  lemma {:induction false} FirstIsFirst(p: Candidate -> bool, s: seq<Candidate>)
    ensures First(p, s).Some? ==> exists i :: FirstWith(p, s, i) && First(p, s) == Some(s[i])
    ensures First(p, s).None? ==> forall i :: 0 <= i < |s| ==> !p(s[i])
  {
    if s != [] && !p(s[0]) {
      FirstIsFirst(p, s[1..]);
      if First(p, s[1..]).Some? {
        var i :| FirstWith(p, s[1..], i) && First(p, s[1..]) == Some(s[1..][i]);
        assert s[i + 1] == s[1..][i];
        assert FirstWith(p, s, i + 1);
      }
    } else if s != [] {
      assert FirstWith(p, s, 0);
    }
  }

  /** The first place at which the predicate holds. */
  ghost predicate FirstWith(p: Candidate -> bool, s: seq<Candidate>, i: int) {
    0 <= i < |s| && p(s[i]) && forall j :: 0 <= j < i ==> !p(s[j])
  }

  ghost predicate Has(p: Candidate -> bool, s: seq<Candidate>) {
    exists i :: 0 <= i < |s| && p(s[i])
  }

  ghost predicate IsFirst(p: Candidate -> bool, s: seq<Candidate>, preferred: Option<Candidate>) {
    exists i :: FirstWith(p, s, i) && preferred == Some(s[i])
  }

  const DIRECT_720P_MP4: Candidate -> bool :=
    (c: Candidate) => c.isDirect && c.playable && ToLower(c.container) == "mp4" && ToLower(c.quality) == "720p"

  const DIRECT_MP4: Candidate -> bool := (c: Candidate) => c.isDirect && c.playable && ToLower(c.container) == "mp4"

  const DIRECT: Candidate -> bool := (c: Candidate) => c.isDirect

  /** The rules of selection: the first direct playable mp4 at 720p; else the first direct playable
      mp4; else the first direct one; else the first; and the reason that goes with the rule. */
  ghost predicate Ruled(s: seq<Candidate>, preferred: Option<Candidate>, reason: string) {
    if Has(DIRECT_720P_MP4, s) then IsFirst(DIRECT_720P_MP4, s, preferred) && reason == "preferred_720p_direct_mp4"
    else if Has(DIRECT_MP4, s) then IsFirst(DIRECT_MP4, s, preferred) && reason == "preferred_direct_mp4"
    else if Has(DIRECT, s) then IsFirst(DIRECT, s, preferred) && reason == "preferred_direct_fallback"
    else if s != [] then preferred == Some(s[0]) && reason == "highest_ranked_candidate"
    else preferred.None? && reason == "preferred_direct_mp4"
  }

  lemma FirstOfEither(p: Candidate -> bool, q: Candidate -> bool, s: seq<Candidate>)
    requires forall c :: p(c) == q(c)
    ensures First(p, s).Some? ==> Has(q, s) && IsFirst(q, s, First(p, s))
    ensures First(p, s).None? ==> !Has(q, s)
  {
    FirstIsFirst(p, s);
    if First(p, s).Some? {
      var i :| FirstWith(p, s, i) && First(p, s) == Some(s[i]);
      assert FirstWith(q, s, i);
    }
  }

  lemma FoldsOfNames()
    ensures ToLower("mp4") == "mp4" && ToLower("720p") == "720p"
  {
  }

  /** The selection follows the rules. */
  lemma SelectIsRuled(s: seq<Candidate>)
    ensures Ruled(s, Select(s).0, Select(s).1)
  {
    FoldsOfNames();
    FirstOfEither(DirectMp4At720, DIRECT_720P_MP4, s);
    FirstOfEither(DirectMp4, DIRECT_MP4, s);
    FirstOfEither((c: Candidate) => c.isDirect, DIRECT, s);
  }

  /** A preferred stream is one of the candidates, and there is one whenever there are any. */
  lemma SelectedIsCandidate(s: seq<Candidate>)
    ensures Select(s).0.Some? <==> s != []
    ensures Select(s).0.Some? ==> Select(s).0.value in s
  {
    FirstFinds(DirectMp4At720, s);
    FirstFinds(DirectMp4, s);
    FirstFinds((c: Candidate) => c.isDirect, s);
  }

  lemma TrimmedConstant(s: string, constant: string)
    requires EqualFold(s, constant) && constant != ""
    requires IsDigit(constant[0]) || 'a' <= constant[0] <= 'z'
    requires IsDigit(constant[|constant| - 1]) || 'a' <= constant[|constant| - 1] <= 'z'
    ensures TrimSpace(s) == s
  {
    assert |s| == |ToLower(s)| == |ToLower(constant)| == |constant|;
    assert LowerRune(s[0]) == ToLower(s)[0] == LowerRune(constant[0]);
    assert LowerRune(s[|s| - 1]) == ToLower(s)[|s| - 1] == LowerRune(constant[|s| - 1]);
    TrimmedFixed(s);
  }

  /** All direct 720p mp4 candidates have one dedupe key. */
  lemma KeyOf720(c: Candidate)
    requires DirectMp4At720(c)
    ensures DedupeKey(c) == ToLower("mp4") + "|" + ToLower("720p")
  {
    TrimmedConstant(c.container, "mp4");
    TrimmedConstant(c.quality, "720p");
    ToLowerConcat(c.container + "|", c.quality);
    ToLowerConcat(c.container, "|");
    assert ToLower("|") == "|";
    assert DedupeKey(c)[0] == ToLower("mp4")[0] == 'm';
  }

  /** When a direct 720p mp4 survives normalising, every sort of the result selects that one. */
  lemma TiesDoNotMatterAt720(candidates: seq<Candidate>, resorted: seq<Candidate>, c: Candidate)
    requires SortOf(Ranks, resorted, Normalized(candidates))
    requires c in Normalized(candidates) && DirectMp4At720(c)
    ensures Select(resorted) == (Some(c), "preferred_720p_direct_mp4")
  {
    var normal := Normalized(candidates);
    NormalizedShape(candidates);
    assert c in multiset(resorted);
    FirstFinds(DirectMp4At720, resorted);
    var found := First(DirectMp4At720, resorted).value;
    assert found in multiset(normal);
    KeyOf720(c);
    KeyOf720(found);
  }

  /** When any direct mp4 survives, every sort selects a direct mp4, of the highest priority
      unless there is one at 720p. */
  lemma SelectsDirectMp4(candidates: seq<Candidate>, resorted: seq<Candidate>, c: Candidate)
    requires SortOf(Ranks, resorted, Normalized(candidates))
    requires c in Normalized(candidates) && DirectMp4(c)
    ensures Select(resorted).0.Some? && DirectMp4(Select(resorted).0.value)
    ensures DirectMp4At720(Select(resorted).0.value) || forall d :: d in resorted ==> d.priority <= Select(resorted).0.value.priority
  {
    var deduped := Deduped(candidates);
    var normal := Normalized(candidates);
    assert c in multiset(resorted);
    NarrowedSubset(deduped, c);
    SurvivingMp4(deduped, c);
    forall d | d in resorted ensures DirectMp4(d) {
      assert d in multiset(normal);
    }
    FirstFinds(DirectMp4At720, resorted);
    FirstFinds(DirectMp4, resorted);
    assert First(DirectMp4, resorted) == Some(resorted[0]);
  }

  lemma NarrowedSubset(deduped: seq<Candidate>, c: Candidate)
    requires c in Narrowed(deduped)
    ensures c in deduped
  {
    FilterMembers(DirectPlayable, deduped);
    FilterMembers(Mp4, Filter(DirectPlayable, deduped));
  }
}
