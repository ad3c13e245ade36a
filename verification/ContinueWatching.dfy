/** Continue watching: catalog details are fetched only for the history rows that seem to need
    them, and the list is built from history, watchlist and those details. */
module ContinueWatching {
  import opened Basics
  import opened GoText
  import opened Sorting
  import opened WatchHistory

  datatype Saved = Saved(catalog: string, title: string, cover: string)

  datatype Detail = Detail(title: string, cover: string)

  datatype Item = Item(catalog: string, episode: string, title: string, cover: string, position: int)

  /** The watchlist by catalog; a later row replaces an earlier one. */
  function Lookup(watchlist: seq<Saved>): map<string, Saved> {
    if watchlist == [] then map[]
    else Lookup(watchlist[..|watchlist| - 1])[watchlist[|watchlist| - 1].catalog := watchlist[|watchlist| - 1]]
  }

  predicate Complete(title: string, cover: string) {
    !Blank(title) && !Blank(cover)
  }

  /** The test collectMissingContinueWatchingMeta makes on the first row of a catalog. */
  predicate SeemsMissing(row: Row, lookup: map<string, Saved>) {
    && !Complete(row.title, row.cover)
    && !(row.catalog in lookup && Complete(lookup[row.catalog].title, lookup[row.catalog].cover))
  }

  function CatalogsOf(history: seq<Row>): set<string> {
    set row | row in history :: row.catalog
  }

  function Missing(history: seq<Row>, lookup: map<string, Saved>): seq<string> {
    if history == [] then []
    else
      var front, last := history[..|history| - 1], history[|history| - 1];
      if last.catalog in CatalogsOf(front) || !SeemsMissing(last, lookup) then Missing(front, lookup)
      else Missing(front, lookup) + [last.catalog]
  }

  function Pick(first: string, second: string): string {
    if TrimSpace(first) == "" then TrimSpace(second) else TrimSpace(first)
  }

  function BuildItem(row: Row, lookup: map<string, Saved>, details: map<string, Detail>): Item {
    var saved := if row.catalog in lookup then lookup[row.catalog] else Saved("", "", "");
    var title := Pick(row.title, saved.title);
    var cover := Pick(row.cover, saved.cover);
    var title' := if row.catalog in details then Pick(title, details[row.catalog].title) else title;
    var cover' := if row.catalog in details then Pick(cover, details[row.catalog].cover) else cover;
    Item(row.catalog, row.episode, title', cover', row.position)
  }

  function Items(history: seq<Row>, lookup: map<string, Saved>, details: map<string, Detail>): seq<Item> {
    seq(|history|, i requires 0 <= i < |history| => BuildItem(history[i], lookup, details))
  }

  method BuildLookup(watchlist: seq<Saved>) returns (lookup: map<string, Saved>)
    ensures lookup == Lookup(watchlist)
  {
    lookup := map[];
    for i := 0 to |watchlist|
      invariant lookup == Lookup(watchlist[..i])
    {
      assert watchlist[..i + 1][..i] == watchlist[..i];
      lookup := lookup[watchlist[i].catalog := watchlist[i]];
    }
    assert watchlist[..|watchlist|] == watchlist;
  }

  /** collectMissingContinueWatchingMeta. */
  method CollectMissing(history: seq<Row>, watchlist: seq<Saved>) returns (missing: seq<string>)
    ensures missing == Missing(history, Lookup(watchlist))
  {
    var lookup := BuildLookup(watchlist);
    var seen: set<string> := {};
    missing := [];
    for i := 0 to |history|
      invariant seen == CatalogsOf(history[..i]) && missing == Missing(history[..i], lookup)
    {
      var row := history[i];
      assert history[..i + 1][..i] == history[..i] && history[..i + 1] == history[..i] + [row];
      CatalogsAppend(history[..i], row);
      if row.catalog !in seen {
        seen := seen + {row.catalog};
        if SeemsMissing(row, lookup) { missing := missing + [row.catalog]; }
      }
    }
    assert history[..|history|] == history;
  }

  /** The body of the loop of buildContinueWatchingItems. */
  method BuildOne(row: Row, lookup: map<string, Saved>, details: map<string, Detail>) returns (item: Item)
    ensures item == BuildItem(row, lookup, details)
  {
    var saved := if row.catalog in lookup then lookup[row.catalog] else Saved("", "", "");
    var title, cover := TrimSpace(row.title), TrimSpace(row.cover);
    if title == "" { title := TrimSpace(saved.title); }
    if cover == "" { cover := TrimSpace(saved.cover); }
    PickIsTrimmed(row.title, saved.title);
    PickIsTrimmed(row.cover, saved.cover);
    if row.catalog in details {
      if title == "" { title := TrimSpace(details[row.catalog].title); }
      if cover == "" { cover := TrimSpace(details[row.catalog].cover); }
    }
    return Item(row.catalog, row.episode, title, cover, row.position);
  }

  lemma PickIsTrimmed(first: string, second: string)
    ensures TrimSpace(Pick(first, second)) == Pick(first, second)
  {
    TrimSpaceTrims(first);
    TrimSpaceTrims(second);
  }

  /** The last watchlist row of a catalog. */
  ghost predicate LastSaved(watchlist: seq<Saved>, catalog: string, k: int) {
    && 0 <= k < |watchlist| && watchlist[k].catalog == catalog
    && forall j :: k < j < |watchlist| ==> watchlist[j].catalog != catalog
  }

  ghost predicate NotSaved(watchlist: seq<Saved>, catalog: string) {
    forall j :: 0 <= j < |watchlist| ==> watchlist[j].catalog != catalog
  }

  /** What is shown is the history's own text, trimmed, if there is any; else the watchlist's; else
      that of the details; else nothing. None stands for a row or details that do not exist. */
  predicate Shows(shown: string, own: string, saved: Option<string>, detail: Option<string>) {
    if TrimSpace(own) != "" then shown == TrimSpace(own)
    else if saved.Some? && TrimSpace(saved.value) != "" then shown == TrimSpace(saved.value)
    else if detail.Some? then shown == TrimSpace(detail.value)
    else shown == ""
  }

  /** The item of a history row: its catalog, episode and position, and a title and a cover from
      wherever there is one. */
  ghost predicate ItemFor(item: Item, row: Row, watchlist: seq<Saved>, details: map<string, Detail>) {
    var title := if row.catalog in details then Some(details[row.catalog].title) else None;
    var cover := if row.catalog in details then Some(details[row.catalog].cover) else None;
    && item.catalog == row.catalog && item.episode == row.episode && item.position == row.position
    && (forall k :: LastSaved(watchlist, row.catalog, k) ==>
      && Shows(item.title, row.title, Some(watchlist[k].title), title)
      && Shows(item.cover, row.cover, Some(watchlist[k].cover), cover))
    && (NotSaved(watchlist, row.catalog) ==>
      Shows(item.title, row.title, None, title) && Shows(item.cover, row.cover, None, cover))
  }

  /** The watchlist look-up finds the last row of a catalog. */
  lemma {:induction false} LookupIsLast(watchlist: seq<Saved>, catalog: string)
    ensures catalog in Lookup(watchlist) <==> !NotSaved(watchlist, catalog)
    ensures forall k :: LastSaved(watchlist, catalog, k) ==> catalog in Lookup(watchlist) && Lookup(watchlist)[catalog] == watchlist[k]
    ensures catalog in Lookup(watchlist) ==> exists k :: LastSaved(watchlist, catalog, k)
  {
    if watchlist != [] {
      var front, last := watchlist[..|watchlist| - 1], watchlist[|watchlist| - 1];
      LookupIsLast(front, catalog);
      if last.catalog == catalog {
        assert LastSaved(watchlist, catalog, |watchlist| - 1);
      } else if catalog in Lookup(front) {
        var k :| LastSaved(front, catalog, k);
        assert LastSaved(watchlist, catalog, k);
      }
      forall k | LastSaved(watchlist, catalog, k) && k < |front| ensures LastSaved(front, catalog, k) {}
    }
  }

  lemma BuiltItemFor(row: Row, watchlist: seq<Saved>, details: map<string, Detail>)
    ensures ItemFor(BuildItem(row, Lookup(watchlist), details), row, watchlist, details)
  {
    LookupIsLast(watchlist, row.catalog);
    var saved := if row.catalog in Lookup(watchlist) then Lookup(watchlist)[row.catalog] else Saved("", "", "");
    PickIsTrimmed(row.title, saved.title);
    PickIsTrimmed(row.cover, saved.cover);
  }

  /** buildContinueWatchingItems: one item for each history row, in order. */
  method BuildItems(history: seq<Row>, watchlist: seq<Saved>, details: map<string, Detail>) returns (items: seq<Item>)
    ensures items == Items(history, Lookup(watchlist), details)
    ensures |items| == |history|
    ensures forall i :: 0 <= i < |history| ==> ItemFor(items[i], history[i], watchlist, details)
  {
    forall i | 0 <= i < |history| ensures ItemFor(BuildItem(history[i], Lookup(watchlist), details), history[i], watchlist, details) {
      BuiltItemFor(history[i], watchlist, details);
    }
    var lookup := BuildLookup(watchlist);
    items := [];
    for i := 0 to |history|
      invariant |items| == i && forall j :: 0 <= j < i ==> items[j] == BuildItem(history[j], lookup, details)
    {
      var item := BuildOne(history[i], lookup, details);
      items := items + [item];
    }
  }

  lemma CatalogsAppend(history: seq<Row>, last: Row)
    ensures CatalogsOf(history + [last]) == CatalogsOf(history) + {last.catalog}
  {
    assert last in history + [last];
    forall row | row in history ensures row in history + [last] {}
  }

  // ---------------------------------------------------------------- fetching only what is missing

  /** The details fetched when only the missing catalogs are asked for. */
  function Restricted(details: map<string, Detail>, catalogs: seq<string>): map<string, Detail> {
    map c | c in details && c in catalogs :: details[c]
  }

  /** The row's item shows something from the catalog's details, if there are any. */
  predicate UsesDetails(row: Row, lookup: map<string, Saved>) {
    var saved := if row.catalog in lookup then lookup[row.catalog] else Saved("", "", "");
    (Blank(row.title) && Blank(saved.title)) || (Blank(row.cover) && Blank(saved.cover))
  }

  function FirstRow(history: seq<Row>, catalog: string): Option<Row> {
    if history == [] then None
    else match FirstRow(history[..|history| - 1], catalog)
      case Some(row) => Some(row)
      case None => if history[|history| - 1].catalog == catalog then Some(history[|history| - 1]) else None
  }

  lemma {:induction false} FirstRowIs(history: seq<Row>, catalog: string)
    ensures FirstRow(history, catalog).Some? <==> catalog in CatalogsOf(history)
    ensures FirstRow(history, catalog).Some? ==>
      FirstRow(history, catalog).value in history && FirstRow(history, catalog).value.catalog == catalog
  {
    if history != [] {
      var front, last := history[..|history| - 1], history[|history| - 1];
      FirstRowIs(front, catalog);
      CatalogsAppend(front, last);
      assert history == front + [last];
    }
  }

  /** The first history row of a catalog. */
  ghost predicate FirstSeen(history: seq<Row>, catalog: string, i: int) {
    && 0 <= i < |history| && history[i].catalog == catalog
    && forall j :: 0 <= j < i ==> history[j].catalog != catalog
  }

  /** A catalog is collected, once, exactly when its first history row lacks a title or a cover and
      so does its last watchlist row, if it has one. */
  lemma CollectedCatalogs(history: seq<Row>, watchlist: seq<Saved>, catalog: string)
    ensures catalog in Missing(history, Lookup(watchlist)) <==>
      exists i :: FirstSeen(history, catalog, i)
        && (TrimSpace(history[i].title) == "" || TrimSpace(history[i].cover) == "")
        && forall k :: LastSaved(watchlist, catalog, k) ==> TrimSpace(watchlist[k].title) == "" || TrimSpace(watchlist[k].cover) == ""
    ensures multiset(Missing(history, Lookup(watchlist)))[catalog] <= 1
  {
    var lookup := Lookup(watchlist);
    MissingIs(history, lookup, catalog);
    FirstRowPlace(history, catalog);
    LookupIsLast(watchlist, catalog);
    MissingOnce(history, lookup, catalog);
    if FirstRow(history, catalog).Some? {
      var i :| FirstSeen(history, catalog, i) && history[i] == FirstRow(history, catalog).value;
      assert SeemsMissing(history[i], lookup) <==>
        (TrimSpace(history[i].title) == "" || TrimSpace(history[i].cover) == "")
        && forall k :: LastSaved(watchlist, catalog, k) ==> TrimSpace(watchlist[k].title) == "" || TrimSpace(watchlist[k].cover) == "";
    }
  }

  lemma {:induction false} FirstRowPlace(history: seq<Row>, catalog: string)
    ensures FirstRow(history, catalog).Some? ==> exists i :: FirstSeen(history, catalog, i) && history[i] == FirstRow(history, catalog).value
    ensures forall i :: FirstSeen(history, catalog, i) ==> FirstRow(history, catalog) == Some(history[i])
  {
    if history != [] {
      var front, last := history[..|history| - 1], history[|history| - 1];
      FirstRowPlace(front, catalog);
      FirstRowIs(front, catalog);
      if FirstRow(front, catalog).Some? {
        var i :| FirstSeen(front, catalog, i) && front[i] == FirstRow(front, catalog).value;
        assert FirstSeen(history, catalog, i) && history[i] == front[i];
      } else if last.catalog == catalog {
        forall j | 0 <= j < |front| ensures history[j].catalog != catalog { assert front[j] in front; }
        assert FirstSeen(history, catalog, |front|);
      }
      forall i | FirstSeen(history, catalog, i) && i < |front| ensures FirstSeen(front, catalog, i) {}
      forall i | FirstSeen(history, catalog, i) ensures FirstRow(history, catalog) == Some(history[i]) {
        if i == |front| {
          forall row | row in front ensures row.catalog != catalog {
            var j :| 0 <= j < |front| && front[j] == row;
            assert history[j] == row;
          }
        } else {
          assert FirstSeen(front, catalog, i) && front[i] == history[i];
        }
      }
    }
  }

  lemma {:induction false} MissingOnce(history: seq<Row>, lookup: map<string, Saved>, catalog: string)
    ensures multiset(Missing(history, lookup))[catalog] <= 1
  {
    if history != [] {
      var front, last := history[..|history| - 1], history[|history| - 1];
      MissingOnce(front, lookup, catalog);
      MissingIs(front, lookup, catalog);
      FirstRowIs(front, catalog);
    }
  }

  /** A catalog is collected exactly when its first history row seems to miss something. */
  lemma {:induction false} MissingIs(history: seq<Row>, lookup: map<string, Saved>, catalog: string)
    ensures catalog in Missing(history, lookup)
      <==> FirstRow(history, catalog).Some? && SeemsMissing(FirstRow(history, catalog).value, lookup)
  {
    if history != [] {
      var front, last := history[..|history| - 1], history[|history| - 1];
      MissingIs(front, lookup, catalog);
      FirstRowIs(front, catalog);
      assert catalog in CatalogsOf(front) <==> FirstRow(front, catalog).Some?;
    }
  }

  /** Details matter to an item exactly when the row uses them. */
  lemma ItemWithout(row: Row, lookup: map<string, Saved>, details: map<string, Detail>, fewer: map<string, Detail>)
    requires row.catalog in fewer ==> row.catalog in details && fewer[row.catalog] == details[row.catalog]
    requires row.catalog in details && row.catalog !in fewer ==> !UsesDetails(row, lookup)
    ensures BuildItem(row, lookup, details) == BuildItem(row, lookup, fewer)
  {
    var saved := if row.catalog in lookup then lookup[row.catalog] else Saved("", "", "");
    TrimSpaceTrims(row.title);
    TrimSpaceTrims(row.cover);
    TrimSpaceTrims(saved.title);
    TrimSpaceTrims(saved.cover);
  }

  lemma ItemNeeds(row: Row, lookup: map<string, Saved>)
    requires UsesDetails(row, lookup)
    ensures BuildItem(row, lookup, map[row.catalog := Detail("x", "x")]) != BuildItem(row, lookup, map[])
  {
    TrimmedFixed("x");
    TrimSpaceTrims(row.title);
    TrimSpaceTrims(row.cover);
  }

  /** No row that uses details is preceded by a complete row of its catalog. */
  ghost predicate FirstRowsDecide(history: seq<Row>, lookup: map<string, Saved>) {
    forall row :: row in history && UsesDetails(row, lookup) && FirstRow(history, row.catalog).Some? ==>
      var first := FirstRow(history, row.catalog).value; !Complete(first.title, first.cover)
  }

  /** Fetching only the missing catalogs gives the list that fetching all of them would give, for
      all details, exactly when no row that uses details hides behind a complete first row. */
  lemma RestrictionIsEnoughIff(history: seq<Row>, lookup: map<string, Saved>)
    ensures (forall details :: Items(history, lookup, Restricted(details, Missing(history, lookup))) == Items(history, lookup, details))
      <==> FirstRowsDecide(history, lookup)
  {
    if FirstRowsDecide(history, lookup) {
      forall details ensures Items(history, lookup, Restricted(details, Missing(history, lookup))) == Items(history, lookup, details) {
        RestrictionIsEnough(history, lookup, details);
      }
    } else {
      var row :| row in history && UsesDetails(row, lookup) && FirstRow(history, row.catalog).Some?
        && Complete(FirstRow(history, row.catalog).value.title, FirstRow(history, row.catalog).value.cover);
      HiddenRowDiffers(history, lookup, row);
    }
  }

  /** A row that uses details behind a complete first row misses them. */
  lemma HiddenRowDiffers(history: seq<Row>, lookup: map<string, Saved>, row: Row)
    requires row in history && UsesDetails(row, lookup) && FirstRow(history, row.catalog).Some?
    requires Complete(FirstRow(history, row.catalog).value.title, FirstRow(history, row.catalog).value.cover)
    ensures var details := map[row.catalog := Detail("x", "x")];
      Items(history, lookup, Restricted(details, Missing(history, lookup))) != Items(history, lookup, details)
  {
    var details := map[row.catalog := Detail("x", "x")];
    var i :| 0 <= i < |history| && history[i] == row;
    MissingIs(history, lookup, row.catalog);
    assert Restricted(details, Missing(history, lookup)) == map[];
    ItemNeeds(row, lookup);
    assert Items(history, lookup, details)[i] != Items(history, lookup, map[])[i];
  }

  lemma RestrictionIsEnough(history: seq<Row>, lookup: map<string, Saved>, details: map<string, Detail>)
    requires FirstRowsDecide(history, lookup)
    ensures Items(history, lookup, Restricted(details, Missing(history, lookup))) == Items(history, lookup, details)
  {
    var missing := Missing(history, lookup);
    forall i | 0 <= i < |history|
      ensures BuildItem(history[i], lookup, Restricted(details, missing)) == BuildItem(history[i], lookup, details)
    {
      var row := history[i];
      FirstRowIs(history, row.catalog);
      assert row.catalog in CatalogsOf(history);
      MissingIs(history, lookup, row.catalog);
      ItemWithout(row, lookup, details, Restricted(details, missing));
    }
  }

  function OwnedBy(client: nat): Row -> bool {
    (row: Row) => row.client == client
  }

  /** A client's rows, as ListHistory returns them in some order. */
  ghost predicate ListsClient(history: seq<Row>, rows: seq<Row>, client: nat) {
    multiset(history) == multiset(Filter(OwnedBy(client), rows))
  }

  /** Where a client has at most one row for each catalog, in any order, fetching only the missing
      catalogs gives the list that fetching all of them would give. */
  lemma OneRowIsEnough(rows: seq<Row>, client: nat, history: seq<Row>, watchlist: seq<Saved>, details: map<string, Detail>)
    requires OneRowEach(rows) && ListsClient(history, rows, client)
    ensures var lookup := Lookup(watchlist);
      Items(history, lookup, Restricted(details, Missing(history, lookup))) == Items(history, lookup, details)
  {
    var p := OwnedBy(client);
    var owned := Filter(p, rows);
    FilterOneRowEach(p, rows);
    FilterMembers(p, rows);
    forall row, first | row in history && first in history && row.catalog == first.catalog ensures row == first {
      assert row in multiset(owned) && first in multiset(owned);
      var i :| 0 <= i < |owned| && owned[i] == row;
      var j :| 0 <= j < |owned| && owned[j] == first;
      assert p(owned[i]) && p(owned[j]);
      assert i == j;
    }
    forall row | row in history && UsesDetails(row, Lookup(watchlist)) && FirstRow(history, row.catalog).Some?
      ensures var first := FirstRow(history, row.catalog).value; !Complete(first.title, first.cover)
    {
      FirstRowIs(history, row.catalog);
    }
    RestrictionIsEnough(history, Lookup(watchlist), details);
  }

  /** So it is on the history of any run of saves and deletes that come one after another. */
  lemma ContinueWatchingAfterRun(ops: seq<Op>, client: nat, history: seq<Row>, watchlist: seq<Saved>, details: map<string, Detail>)
    requires ListsClient(history, Run(ops), client)
    ensures var lookup := Lookup(watchlist);
      Items(history, lookup, Restricted(details, Missing(history, lookup))) == Items(history, lookup, details)
  {
    RunRows(ops, EMPTY_ROW);
    OneRowIsEnough(Run(ops), client, history, watchlist, details);
  }
}
