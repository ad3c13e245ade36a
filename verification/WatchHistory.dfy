/** The watch history table, and the continue-watching list built from it. */
module WatchHistory {
  import opened Basics
  import opened GoText
  import opened Sorting

  datatype Row = Row(client: nat, catalog: string, episode: string, title: string, cover: string, provider: string, position: int)

  datatype Op =
    | Save(client: nat, catalog: string, episode: string, position: int, title: string, cover: string, provider: string)
    | Delete(client: nat, catalog: string)

  predicate Matches(row: Row, client: nat, catalog: string) {
    row.client == client && row.catalog == catalog
  }

  /** The first row of a client and a catalog. */
  function IndexOf(rows: seq<Row>, client: nat, catalog: string): (r: Option<nat>)
    ensures r.Some? ==> r.value < |rows| && Matches(rows[r.value], client, catalog)
    ensures r.None? ==> forall row :: row in rows ==> !Matches(row, client, catalog)
  {
    if rows == [] then None
    else if Matches(rows[0], client, catalog) then Some(0)
    else match IndexOf(rows[1..], client, catalog)
      case None => None
      case Some(i) => Some(i + 1)
  }

  /** A blank new value replaces only an empty old one. */
  function Overwrite(old': string, new': string): string {
    if old' == "" || !Blank(new') then new' else old'
  }

  /** The row after the field assignments of UpsertHistory; a new row starts with empty fields. */
  function SavedRow(before: Row, op: Op): Row
    requires op.Save?
  {
    Row(op.client, op.catalog, op.episode, Overwrite(before.title, op.title), Overwrite(before.cover, op.cover),
        Overwrite(before.provider, op.provider), op.position)
  }

  const EMPTY_ROW: Row := Row(0, "", "", "", "", "", 0)

  function Do(rows: seq<Row>, op: Op): seq<Row> {
    match op
    case Save(client, catalog, _, _, _, _, _) =>
      (match IndexOf(rows, client, catalog)
       case Some(i) => rows[i := SavedRow(rows[i], op)]
       case None => rows + [SavedRow(EMPTY_ROW, op)])
    case Delete(client, catalog) => Filter((row: Row) => !Matches(row, client, catalog), rows)
  }

  class Store {
    var rows: seq<Row>

    constructor ()
      ensures rows == []
    {
      rows := [];
    }

    /** UpsertHistory: find the row, assign its fields, save it. */
    method UpsertHistory(client: nat, catalog: string, episode: string, position: int,
                         title: string, cover: string, provider: string)
      modifies this
      ensures rows == Do(old(rows), Save(client, catalog, episode, position, title, cover, provider))
    {
      var found := IndexOf(rows, client, catalog);
      var row := if found.Some? then rows[found.value] else EMPTY_ROW;
      row := row.(client := client, catalog := catalog, episode := episode);
      if row.title == "" || !Blank(title) { row := row.(title := title); }
      if row.cover == "" || !Blank(cover) { row := row.(cover := cover); }
      if row.provider == "" || !Blank(provider) { row := row.(provider := provider); }
      row := row.(position := position);
      if found.Some? {
        rows := rows[found.value := row];
      } else {
        rows := rows + [row];
      }
    }

    /** DeleteHistory: the rows of the client and catalog go, every copy of any other row stays,
        and so does their order. */
    method DeleteHistory(client: nat, catalog: string)
      modifies this
      ensures rows == Do(old(rows), Delete(client, catalog))
      ensures forall row :: row in rows <==> row in old(rows) && !Matches(row, client, catalog)
      ensures forall row :: !Matches(row, client, catalog) ==> multiset(rows)[row] == multiset(old(rows))[row]
      ensures forall p: Row -> bool :: (forall row :: p(row) ==> !Matches(row, client, catalog)) ==>
        Filter(p, rows) == Filter(p, old(rows))
    {
      FilterMembers((row: Row) => !Matches(row, client, catalog), rows);
      FilterCounts((row: Row) => !Matches(row, client, catalog), rows);
      forall p: Row -> bool | forall row :: p(row) ==> !Matches(row, client, catalog)
        ensures Filter(p, Filter((row: Row) => !Matches(row, client, catalog), rows)) == Filter(p, rows)
      {
        FilterTwice(p, (row: Row) => !Matches(row, client, catalog), rows);
      }
      rows := Filter((row: Row) => !Matches(row, client, catalog), rows);
    }
  }

  // ---------------------------------------------------------------- runs of saves and deletes

  function Run(ops: seq<Op>): seq<Row> {
    if ops == [] then [] else Do(Run(ops[..|ops| - 1]), ops[|ops| - 1])
  }

  ghost predicate OneRowEach(rows: seq<Row>) {
    forall i, j :: 0 <= i < j < |rows| ==> !Matches(rows[i], rows[j].client, rows[j].catalog)
  }

  /** The saves of a client and a catalog since the last delete. */
  function SavesOf(ops: seq<Op>, client: nat, catalog: string): seq<Op> {
    if ops == [] then []
    else
      var before, last := SavesOf(ops[..|ops| - 1], client, catalog), ops[|ops| - 1];
      if last.client != client || last.catalog != catalog then before
      else if last.Delete? then []
      else before + [last]
  }

  /** The row that a history of saves leaves. */
  function RowOf(saves: seq<Op>): Row
    requires forall i :: 0 <= i < |saves| ==> saves[i].Save?
  {
    if saves == [] then EMPTY_ROW else SavedRow(RowOf(saves[..|saves| - 1]), saves[|saves| - 1])
  }

  lemma {:induction false} SavesAreSaves(ops: seq<Op>, client: nat, catalog: string)
    ensures forall i :: 0 <= i < |SavesOf(ops, client, catalog)| ==>
      var op := SavesOf(ops, client, catalog)[i]; op.Save? && op.client == client && op.catalog == catalog
  {
    if ops != [] {
      SavesAreSaves(ops[..|ops| - 1], client, catalog);
    }
  }

  lemma {:induction false} FilterOneRowEach(p: Row -> bool, rows: seq<Row>)
    requires OneRowEach(rows)
    ensures OneRowEach(Filter(p, rows))
  {
    if rows != [] {
      FilterOneRowEach(p, rows[1..]);
      FilterMembers(p, rows[1..]);
      forall row | row in Filter(p, rows[1..]) ensures !Matches(rows[0], row.client, row.catalog) {
        assert row in rows[1..];
        var k :| 0 <= k < |rows[1..]| && rows[1..][k] == row;
        assert rows[k + 1] == row;
      }
    }
  }

  lemma DoOneRowEach(rows: seq<Row>, op: Op)
    requires OneRowEach(rows)
    ensures OneRowEach(Do(rows, op))
  {
    match op
    case Save(_, _, _, _, _, _, _) =>
    case Delete(client, catalog) => FilterOneRowEach((row: Row) => !Matches(row, client, catalog), rows);
  }

  /** What one operation does to the rows of a client and a catalog. */
  lemma DoRowsOf(rows: seq<Row>, op: Op, row: Row)
    requires OneRowEach(rows)
    ensures var same := Matches(row, op.client, op.catalog);
      row in Do(rows, op) <==>
        if !same then row in rows
        else op.Save? && row == SavedRow(
          if IndexOf(rows, op.client, op.catalog).Some? then rows[IndexOf(rows, op.client, op.catalog).value] else EMPTY_ROW, op)
  {
    match op
    case Save(client, catalog, _, _, _, _, _) =>
      var found := IndexOf(rows, client, catalog);
      if found.Some? {
        var i := found.value;
        var rows' := rows[i := SavedRow(rows[i], op)];
        assert rows'[i] == SavedRow(rows[i], op);
        if row in rows {
          var j :| 0 <= j < |rows| && rows[j] == row;
          if j != i { assert rows'[j] == row; assert !Matches(rows[j], client, catalog); }
        }
      }
    case Delete(client, catalog) =>
      FilterMembers((row: Row) => !Matches(row, client, catalog), rows);
  }

  /** After any run, a client and a catalog have at most one row; there is one exactly when they
      were saved since their last delete, and it is the one those saves build up. */
  lemma {:induction false} RunRows(ops: seq<Op>, row: Row)
    ensures OneRowEach(Run(ops))
    ensures var saves := SavesOf(ops, row.client, row.catalog);
      (forall i :: 0 <= i < |saves| ==> saves[i].Save?)
      && (row in Run(ops) <==> saves != [] && row == RowOf(saves))
    decreases |ops|, 0
  {
    SavesAreSaves(ops, row.client, row.catalog);
    if ops != [] {
      var front, last := ops[..|ops| - 1], ops[|ops| - 1];
      RunRows(front, row);
      DoOneRowEach(Run(front), last);
      DoRowsOf(Run(front), last, row);
      if Matches(row, last.client, last.catalog) && last.Save? {
        var saves := SavesOf(front, row.client, row.catalog);
        assert SavesOf(ops, row.client, row.catalog) == saves + [last];
        assert (saves + [last])[..|saves|] == saves;
        ExistingRow(front, row.client, row.catalog);
      }
    }
  }

  lemma {:induction false} RowOfKey(saves: seq<Op>, client: nat, catalog: string)
    requires forall i :: 0 <= i < |saves| ==> saves[i].Save? && saves[i].client == client && saves[i].catalog == catalog
    ensures saves != [] ==> Matches(RowOf(saves), client, catalog)
  {
  }

  /** The row found before an operation. */
  lemma ExistingRow(ops: seq<Op>, client: nat, catalog: string)
    ensures var saves := SavesOf(ops, client, catalog);
      var found := IndexOf(Run(ops), client, catalog);
      && (forall i :: 0 <= i < |saves| ==> saves[i].Save?)
      && (if found.Some? then Run(ops)[found.value] else EMPTY_ROW) == RowOf(saves)
    decreases |ops|, 1
  {
    var saves := SavesOf(ops, client, catalog);
    var found := IndexOf(Run(ops), client, catalog);
    SavesAreSaves(ops, client, catalog);
    RowOfKey(saves, client, catalog);
    if found.Some? {
      RunRows(ops, Run(ops)[found.value]);
    } else if saves != [] {
      RunRows(ops, RowOf(saves));
    }
  }

  /** The titles, or covers, or providers of some saves. */
  function Values(saves: seq<Op>, field: Op -> string): seq<string> {
    seq(|saves|, i requires 0 <= i < |saves| => field(saves[i]))
  }

  function Kept(values: seq<string>): string {
    if values == [] then "" else Overwrite(Kept(values[..|values| - 1]), values[|values| - 1])
  }

  predicate LastNonBlank(values: seq<string>, i: int) {
    0 <= i < |values| && !Blank(values[i]) && forall j :: i < j < |values| ==> Blank(values[j])
  }

  /** The value kept is the last one that is not blank, if there is one. */
  lemma {:induction false} KeptIsLastNonBlank(values: seq<string>, i: nat)
    requires LastNonBlank(values, i)
    ensures Kept(values) == values[i]
  {
    var front := values[..|values| - 1];
    if i < |front| {
      assert forall j :: 0 <= j < |front| ==> front[j] == values[j];
      KeptIsLastNonBlank(front, i);
      assert values[i] != "" && Blank(values[|values| - 1]);
    }
  }

  lemma {:induction false} KeptIsBlank(values: seq<string>)
    requires forall i :: 0 <= i < |values| ==> Blank(values[i])
    ensures Blank(Kept(values))
  {
    if values != [] {
      var front := values[..|values| - 1];
      assert forall j :: 0 <= j < |front| ==> front[j] == values[j];
      KeptIsBlank(front);
    }
  }

  lemma KeptShape(values: seq<string>)
    ensures forall i :: LastNonBlank(values, i) ==> Kept(values) == values[i]
    ensures (forall i :: 0 <= i < |values| ==> Blank(values[i])) ==> Blank(Kept(values))
  {
    forall i | LastNonBlank(values, i) ensures Kept(values) == values[i] {
      KeptIsLastNonBlank(values, i);
    }
    if forall i :: 0 <= i < |values| ==> Blank(values[i]) {
      KeptIsBlank(values);
    }
  }

  function TitleOf(op: Op): string { if op.Save? then op.title else "" }

  function CoverOf(op: Op): string { if op.Save? then op.cover else "" }

  function ProviderOf(op: Op): string { if op.Save? then op.provider else "" }

  /** Title, cover and provider of the row that saves build up are the kept ones; episode and
      position are those of the last save. */
  lemma {:induction false} RowOfKeeps(saves: seq<Op>)
    requires forall i :: 0 <= i < |saves| ==> saves[i].Save?
    ensures RowOf(saves).title == Kept(Values(saves, TitleOf))
    ensures RowOf(saves).cover == Kept(Values(saves, CoverOf))
    ensures RowOf(saves).provider == Kept(Values(saves, ProviderOf))
    ensures saves != [] ==>
      RowOf(saves).episode == saves[|saves| - 1].episode && RowOf(saves).position == saves[|saves| - 1].position
  {
    if saves != [] {
      RowOfKeeps(saves[..|saves| - 1]);
      KeptAppend(saves, TitleOf);
      KeptAppend(saves, CoverOf);
      KeptAppend(saves, ProviderOf);
    }
  }

  lemma KeptAppend(saves: seq<Op>, field: Op -> string)
    requires saves != []
    ensures Kept(Values(saves, field)) ==
      Overwrite(Kept(Values(saves[..|saves| - 1], field)), field(saves[|saves| - 1]))
  {
    assert Values(saves, field)[..|saves| - 1] == Values(saves[..|saves| - 1], field);
  }

  /** After any run, the title of a stored row is the last non-blank title saved for it since its
      last delete, and blank when there was none; likewise the cover. */
  lemma StoredIsLastNonBlank(ops: seq<Op>, row: Row)
    requires row in Run(ops)
    ensures var saves := SavesOf(ops, row.client, row.catalog);
      var titles, covers := Values(saves, TitleOf), Values(saves, CoverOf);
      && (forall i :: LastNonBlank(titles, i) ==> row.title == titles[i])
      && ((forall i :: 0 <= i < |titles| ==> Blank(titles[i])) ==> Blank(row.title))
      && (forall i :: LastNonBlank(covers, i) ==> row.cover == covers[i])
      && ((forall i :: 0 <= i < |covers| ==> Blank(covers[i])) ==> Blank(row.cover))
  {
    var saves := SavesOf(ops, row.client, row.catalog);
    RunRows(ops, row);
    RowOfKeeps(saves);
    KeptShape(Values(saves, TitleOf));
    KeptShape(Values(saves, CoverOf));
  }

  /** Its provider is the last non-blank one too, and its episode and position are those of the last
      save. */
  lemma StoredIsLastSave(ops: seq<Op>, row: Row)
    requires row in Run(ops)
    ensures var saves := SavesOf(ops, row.client, row.catalog);
      && saves != [] && saves[|saves| - 1].Save?
      && row.episode == saves[|saves| - 1].episode && row.position == saves[|saves| - 1].position
      && (forall i :: LastNonBlank(Values(saves, ProviderOf), i) ==> row.provider == Values(saves, ProviderOf)[i])
  {
    var saves := SavesOf(ops, row.client, row.catalog);
    RunRows(ops, row);
    RowOfKeeps(saves);
    KeptShape(Values(saves, ProviderOf));
  }
}
