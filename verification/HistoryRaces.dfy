/** Callers that save and delete watch history at the same time. UpsertHistory finds a row and then
    saves it, with neither a transaction nor a unique index to keep the two together. */
module HistoryRaces {
  import opened Basics
  import opened GoText
  import opened Sorting
  import opened WatchHistory
  import opened ContinueWatching

  /** A row under its primary key. */
  datatype Stored = Stored(id: nat, row: Row)

  /** A save looks for its row, then saves: over the row it found, or as a new one. */
  datatype Pc = Finding | Saving(id: Option<nat>, before: Row) | Finished

  datatype Caller = Caller(save: Op, pc: Pc)

  /** The table lists the row saved last first. */
  datatype World = World(table: seq<Stored>, nextId: nat, callers: seq<Caller>)

  /** A save starts, or makes its next database access, which may fail; or rows are deleted. */
  datatype Step =
    | StartSave(save: Op)
    | Advance(caller: nat, ok: bool)
    | DeleteRows(client: nat, catalog: string)

  predicate KeyedBy(row: Row, op: Op) {
    Matches(row, op.client, op.catalog)
  }

  predicate SameKey(a: Op, b: Op) {
    a.client == b.client && a.catalog == b.catalog
  }

  /** First: the row with the lowest primary key. */
  function FindFirst(table: seq<Stored>, op: Op): (r: Option<Stored>)
    ensures r.Some? ==> r.value in table && KeyedBy(r.value.row, op)
    ensures forall s :: s in table && KeyedBy(s.row, op) ==> r.Some? && r.value.id <= s.id
  {
    if table == [] then None
    else
      var rest := FindFirst(table[1..], op);
      if KeyedBy(table[0].row, op) && (rest.None? || table[0].id < rest.value.id) then Some(table[0]) else rest
  }

  predicate Enabled(w: World, step: Step) {
    match step
    case StartSave(save) => save.Save?
    case Advance(c, _) => c < |w.callers| && w.callers[c].save.Save? && !w.callers[c].pc.Finished?
    case DeleteRows(_, _) => true
  }

  function Without(table: seq<Stored>, id: nat): seq<Stored> {
    Filter((s: Stored) => s.id != id, table)
  }

  /** A new row gets the next primary key. */
  function KeyFor(w: World, id: Option<nat>): nat {
    if id.Some? then id.value else w.nextId
  }

  /** Save: the row replaces the one with its primary key, or is inserted when there is none. */
  function WithSaved(w: World, id: Option<nat>, row: Row): World {
    var key := KeyFor(w, id);
    w.(table := [Stored(key, row)] + Without(w.table, key), nextId := if id.Some? then w.nextId else w.nextId + 1)
  }

  function SetPc(w: World, c: nat, pc: Pc): World
    requires c < |w.callers|
  {
    w.(callers := w.callers[c := w.callers[c].(pc := pc)])
  }

  function FindStep(w: World, c: nat): World
    requires c < |w.callers|
  {
    match FindFirst(w.table, w.callers[c].save)
    case Some(found) => SetPc(w, c, Saving(Some(found.id), found.row))
    case None => SetPc(w, c, Saving(None, EMPTY_ROW))
  }

  function Apply(w: World, step: Step): World
    requires Enabled(w, step)
  {
    match step
    case StartSave(save) => w.(callers := w.callers + [Caller(save, Finding)])
    case Advance(c, ok) =>
      (match w.callers[c].pc
       case Finding => if ok then FindStep(w, c) else SetPc(w, c, Finished)
       case Saving(id, before) =>
         SetPc(if ok then WithSaved(w, id, SavedRow(before, w.callers[c].save)) else w, c, Finished)
       case Finished => w)
    case DeleteRows(client, catalog) =>
      w.(table := Filter((s: Stored) => !Matches(s.row, client, catalog), w.table))
  }

  function Run(w: World, steps: seq<Step>): Option<World> {
    if steps == [] then Some(w)
    else match Run(w, steps[..|steps| - 1])
      case None => None
      case Some(before) =>
        if Enabled(before, steps[|steps| - 1]) then Some(Apply(before, steps[|steps| - 1])) else None
  }

  const EMPTY: World := World([], 0, [])

  function Rows(table: seq<Stored>): seq<Row> {
    seq(|table|, i requires 0 <= i < |table| => table[i].row)
  }

  /** ListHistory, the row saved last first. */
  function ListHistory(w: World, client: nat): seq<Row> {
    Filter(OwnedBy(client), Rows(w.table))
  }

  // ---------------------------------------------------------------- two racing first saves

  /** Two first saves that overlap leave two rows; when the complete one is saved last, the other
      hides behind it, and fetching only the missing catalogs loses its title and cover. */
  lemma RacingSavesHideARow(full: Op, bare: Op)
    requires full.Save? && bare.Save? && SameKey(full, bare)
    requires Complete(full.title, full.cover) && Blank(bare.title) && Blank(bare.cover)
    ensures var steps := [StartSave(full), StartSave(bare), Advance(0, true), Advance(1, true), Advance(1, true), Advance(0, true)];
      && Run(EMPTY, steps).Some?
      && var history := ListHistory(Run(EMPTY, steps).value, full.client);
      && history == [SavedRow(EMPTY_ROW, full), SavedRow(EMPTY_ROW, bare)]
      && !OneRowEach(history) && !FirstRowsDecide(history, map[])
      && var details := map[full.catalog := Detail("x", "x")];
      Items(history, map[], Restricted(details, Missing(history, map[]))) != Items(history, map[], details)
  {
    var steps := [StartSave(full), StartSave(bare), Advance(0, true), Advance(1, true), Advance(1, true), Advance(0, true)];
    var first, second := SavedRow(EMPTY_ROW, full), SavedRow(EMPTY_ROW, bare);
    RacingRun(full, bare, steps);
    var w := Run(EMPTY, steps).value;
    var history := [first, second];
    FilterAll(OwnedBy(full.client), history);
    assert Rows(w.table) == history;
    assert !Matches(history[0], history[1].client, history[1].catalog) ==> false;
    assert history[..1] == [first] && [first][..0] == [] && history[0] == first && history[1] == second;
    assert FirstRow([first], full.catalog) == Some(first);
    assert FirstRow(history, full.catalog) == Some(first);
    assert second in history && UsesDetails(second, map[]);
    HiddenRowDiffers(history, map[], second);
  }

  lemma RunMore(w: World, steps: seq<Step>, last: Step, before: World, after: World)
    requires Run(w, steps) == Some(before) && Enabled(before, last) && Apply(before, last) == after
    ensures Run(w, steps + [last]) == Some(after)
  {
    assert (steps + [last])[..|steps|] == steps;
  }

  lemma NotThere(table: seq<Stored>, id: nat)
    requires forall s :: s in table ==> s.id != id
    ensures Without(table, id) == table
  {
    FilterAll((s: Stored) => s.id != id, table);
  }

  /** The run, step by step. */
  lemma RacingRun(full: Op, bare: Op, steps: seq<Step>)
    requires full.Save? && bare.Save? && SameKey(full, bare)
    requires steps == [StartSave(full), StartSave(bare), Advance(0, true), Advance(1, true), Advance(1, true), Advance(0, true)]
    ensures Run(EMPTY, steps).Some?
    ensures Run(EMPTY, steps).value.table == [Stored(1, SavedRow(EMPTY_ROW, full)), Stored(0, SavedRow(EMPTY_ROW, bare))]
  {
    var s := steps;
    var one, two := Caller(full, Finding), Caller(bare, Finding);
    var none := Saving(None, EMPTY_ROW);
    var second := Stored(0, SavedRow(EMPTY_ROW, bare));
    var w1, w2 := World([], 0, [one]), World([], 0, [one, two]);
    var w3, w4 := World([], 0, [one.(pc := none), two]), World([], 0, [one.(pc := none), two.(pc := none)]);
    var w5 := World([second], 1, [one.(pc := none), two.(pc := Finished)]);
    assert s[..1] == [s[0]] && s[..2] == s[..1] + [s[1]] && s[..3] == s[..2] + [s[2]];
    assert s[..4] == s[..3] + [s[3]] && s[..5] == s[..4] + [s[4]] && s == s[..5] + [s[5]];
    RunMore(EMPTY, [], s[0], EMPTY, w1);
    RunMore(EMPTY, s[..1], s[1], w1, w2);
    RunMore(EMPTY, s[..2], s[2], w2, w3);
    RunMore(EMPTY, s[..3], s[3], w3, w4);
    RunMore(EMPTY, s[..4], s[4], w4, w5);
    NotThere([second], 1);
    RunMore(EMPTY, s[..5], s[5], w5, Apply(w5, s[5]));
  }

  // ---------------------------------------------------------------- one row each

  /** The primary key a caller is going to save to. */
  function SavesTo(caller: Caller): Option<nat> {
    if caller.pc.Saving? then caller.pc.id else None
  }

  /** Callers save; primary keys are distinct and used up, and a primary key belongs to one client and catalog. */
  ghost predicate Ids(w: World) {
    && (forall i, j :: 0 <= i < j < |w.table| ==> w.table[i].id != w.table[j].id)
    && (forall s :: s in w.table ==> s.id < w.nextId)
    && (forall c :: 0 <= c < |w.callers| ==> w.callers[c].save.Save?)
    && (forall c :: 0 <= c < |w.callers| && SavesTo(w.callers[c]).Some? ==>
      && SavesTo(w.callers[c]).value < w.nextId
      && forall s :: s in w.table && s.id == SavesTo(w.callers[c]).value ==> KeyedBy(s.row, w.callers[c].save))
    && (forall c, d :: 0 <= c < |w.callers| && 0 <= d < |w.callers| && SavesTo(w.callers[c]).Some? && SavesTo(w.callers[c]) == SavesTo(w.callers[d]) ==>
      SameKey(w.callers[c].save, w.callers[d].save))
  }

  ghost predicate Single(table: seq<Stored>) {
    forall s, t :: s in table && t in table && Matches(s.row, t.row.client, t.row.catalog) ==> s == t
  }

  /** Another save of the same client and catalog is between its find and its save. */
  predicate UnderWay(w: World, op: Op, d: nat) {
    d < |w.callers| && w.callers[d].pc.Saving? && SameKey(w.callers[d].save, op)
  }

  ghost predicate SomeUnderWay(w: World, op: Op) {
    exists d :: UnderWay(w, op, d)
  }

  /** Two saves of one client and catalog, both between their find and their save. */
  predicate Rivals(a: Caller, b: Caller) {
    a.pc.Saving? && b.pc.Saving? && SameKey(a.save, b.save)
  }

  /** Saves under way agree with the table and with each other on the row they save to. */
  ghost predicate Agreed(w: World) {
    && (forall c :: 0 <= c < |w.callers| && w.callers[c].pc.Saving? ==>
      forall s :: s in w.table && KeyedBy(s.row, w.callers[c].save) ==> w.callers[c].pc.id == Some(s.id))
    && (forall c, d :: 0 <= c < |w.callers| && 0 <= d < |w.callers| && c != d && Rivals(w.callers[c], w.callers[d]) ==>
      SavesTo(w.callers[c]).Some? && SavesTo(w.callers[c]) == SavesTo(w.callers[d]))
  }

  ghost predicate Settled(w: World) {
    Ids(w) && Single(w.table) && Agreed(w)
  }

  /** A find that finds nothing while another save of its client and catalog is under way. */
  ghost predicate Overlaps(w: World, step: Step) {
    && step.Advance? && step.ok && step.caller < |w.callers| && w.callers[step.caller].pc.Finding?
    && FindFirst(w.table, w.callers[step.caller].save).None?
    && SomeUnderWay(w, w.callers[step.caller].save)
  }

  lemma {:induction false} FilterIds(p: Stored -> bool, table: seq<Stored>)
    requires forall i, j :: 0 <= i < j < |table| ==> table[i].id != table[j].id
    ensures var kept := Filter(p, table); forall i, j :: 0 <= i < j < |kept| ==> kept[i].id != kept[j].id
  {
    if table != [] {
      FilterIds(p, table[1..]);
      FilterMembers(p, table[1..]);
      forall s | s in Filter(p, table[1..]) ensures s.id != table[0].id {
        assert s in table[1..];
        var k :| 0 <= k < |table[1..]| && table[1..][k] == s;
        assert table[k + 1] == s;
      }
    }
  }

  lemma WithSavedTable(w: World, id: Option<nat>, row: Row)
    requires Ids(w) && (id.Some? ==> id.value < w.nextId)
    ensures var table := WithSaved(w, id, row).table;
      forall i, j :: 0 <= i < j < |table| ==> table[i].id != table[j].id
    ensures forall s :: s in WithSaved(w, id, row).table <==>
      s == Stored(KeyFor(w, id), row) || (s in w.table && s.id != KeyFor(w, id))
  {
    var key := KeyFor(w, id);
    var kept := Without(w.table, key);
    FilterIds((s: Stored) => s.id != key, w.table);
    FilterMembers((s: Stored) => s.id != key, w.table);
    assert WithSaved(w, id, row).table == [Stored(key, row)] + kept;
    forall j | 0 <= j < |kept| ensures kept[j].id != key {
      assert kept[j] in kept;
    }
  }

  lemma DeleteSettled(w: World, client: nat, catalog: string)
    requires Settled(w)
    ensures Settled(Apply(w, DeleteRows(client, catalog)))
  {
    FilterIds((s: Stored) => !Matches(s.row, client, catalog), w.table);
    FilterMembers((s: Stored) => !Matches(s.row, client, catalog), w.table);
  }

  lemma FindIds(w: World, c: nat)
    requires Settled(w) && c < |w.callers| && w.callers[c].pc.Finding?
    ensures Ids(FindStep(w, c))
  {
  }

  lemma FindAgreed(w: World, c: nat)
    requires Settled(w) && c < |w.callers| && w.callers[c].pc.Finding? && !Overlaps(w, Advance(c, true))
    ensures Agreed(FindStep(w, c))
  {
    var save := w.callers[c].save;
    if FindFirst(w.table, save).None? {
      forall d | 0 <= d < |w.callers| && w.callers[d].pc.Saving? ensures !SameKey(w.callers[d].save, save) {
        assert !UnderWay(w, save, d);
      }
    }
  }

  lemma FindSettled(w: World, c: nat)
    requires Settled(w) && c < |w.callers| && w.callers[c].pc.Finding? && !Overlaps(w, Advance(c, true))
    ensures Settled(FindStep(w, c))
  {
    FindIds(w, c);
    FindAgreed(w, c);
  }

  lemma SaveIds(w: World, c: nat)
    requires Settled(w) && c < |w.callers| && w.callers[c].pc.Saving?
    ensures Ids(Apply(w, Advance(c, true)))
  {
    var caller := w.callers[c];
    WithSavedTable(w, caller.pc.id, SavedRow(caller.pc.before, caller.save));
  }

  lemma SaveAgreed(w: World, c: nat)
    requires Settled(w) && c < |w.callers| && w.callers[c].pc.Saving?
    ensures Single(Apply(w, Advance(c, true)).table) && Agreed(Apply(w, Advance(c, true)))
  {
    var caller := w.callers[c];
    WithSavedTable(w, caller.pc.id, SavedRow(caller.pc.before, caller.save));
  }

  lemma SaveSettled(w: World, c: nat)
    requires Settled(w) && c < |w.callers| && w.callers[c].pc.Saving?
    ensures Settled(Apply(w, Advance(c, true)))
  {
    SaveIds(w, c);
    SaveAgreed(w, c);
  }

  lemma StartSettled(w: World, save: Op)
    requires Settled(w) && save.Save?
    ensures Settled(w.(callers := w.callers + [Caller(save, Finding)]))
  {
  }

  lemma FailSettled(w: World, c: nat)
    requires Settled(w) && c < |w.callers|
    ensures Settled(SetPc(w, c, Finished))
  {
  }

  lemma StepSettled(w: World, step: Step)
    requires Settled(w) && Enabled(w, step) && !Overlaps(w, step)
    ensures Settled(Apply(w, step))
  {
    match step
    case StartSave(save) => StartSettled(w, save);
    case DeleteRows(client, catalog) => DeleteSettled(w, client, catalog);
    case Advance(c, ok) =>
      if !ok { FailSettled(w, c); } else if w.callers[c].pc.Finding? { FindSettled(w, c); } else { SaveSettled(w, c); }
  }

  /** A run in which no first save overlaps another save of its client and catalog. */
  ghost predicate Orderly(w: World, steps: seq<Step>) {
    steps != [] ==>
      var front, last := steps[..|steps| - 1], steps[|steps| - 1];
      && Orderly(w, front) && Run(w, front).Some?
      && Enabled(Run(w, front).value, last) && !Overlaps(Run(w, front).value, last)
  }

  lemma {:induction false} OrderlySettled(w: World, steps: seq<Step>)
    requires Settled(w) && Orderly(w, steps)
    ensures Run(w, steps).Some? && Settled(Run(w, steps).value)
  {
    if steps != [] {
      OrderlySettled(w, steps[..|steps| - 1]);
      StepSettled(Run(w, steps[..|steps| - 1]).value, steps[|steps| - 1]);
    }
  }

  lemma SettledIsOneRowEach(w: World)
    requires Settled(w)
    ensures OneRowEach(Rows(w.table))
  {
    forall i, j | 0 <= i < j < |w.table| ensures !Matches(w.table[i].row, w.table[j].row.client, w.table[j].row.catalog) {
      assert w.table[i] in w.table && w.table[j] in w.table;
    }
  }

  /** With no such overlap, a client and a catalog never have more than one row, whatever else
      interleaves and fails. */
  lemma OrderlyRunsHaveOneRow(steps: seq<Step>)
    requires Orderly(EMPTY, steps)
    ensures Run(EMPTY, steps).Some? && OneRowEach(Rows(Run(EMPTY, steps).value.table))
  {
    OrderlySettled(EMPTY, steps);
    SettledIsOneRowEach(Run(EMPTY, steps).value);
  }

  /** The two saves after an overlapping find. */
  lemma OverlapMakesTwo(w: World, c: nat, d: nat)
    requires Ids(w) && Enabled(w, Advance(c, true)) && w.callers[c].pc.Finding?
    requires FindFirst(w.table, w.callers[c].save).None? && UnderWay(w, w.callers[c].save, d)
    ensures var w' := FindStep(w, c);
      var saves := [Advance(c, true), Advance(d, true)];
      Orderly(w', saves) && Run(w', saves).Some? && !Single(Run(w', saves).value.table)
  {
    var w' := FindStep(w, c);
    var saves := [Advance(c, true), Advance(d, true)];
    var x, y := w'.callers[c], w'.callers[d];
    var w1 := Apply(w', saves[0]);
    assert Stored(w'.nextId, SavedRow(EMPTY_ROW, x.save)) in w1.table by {
      assert w1.table[0] in w1.table;
    }
    assert w1.callers[d] == y && w1.callers[c].pc.Finished?;
    SavedBeside(w1, d, Stored(w'.nextId, SavedRow(EMPTY_ROW, x.save)));
    TwoMoves(w', saves[0], saves[1], w1, Apply(w1, saves[1]));
  }

  lemma TwoMoves(w: World, first: Step, second: Step, w1: World, w2: World)
    requires Enabled(w, first) && !Overlaps(w, first) && Apply(w, first) == w1
    requires Enabled(w1, second) && !Overlaps(w1, second) && Apply(w1, second) == w2
    ensures Orderly(w, [first, second]) && Run(w, [first, second]) == Some(w2)
  {
    var one, two := [first], [first, second];
    assert [] + [first] == one && one + [second] == two;
    assert Orderly(w, one) && Run(w, one) == Some(w1) by { OrderlyMore(w, [], first, w, w1); }
    assert Orderly(w, two) && Run(w, two) == Some(w2) by { OrderlyMore(w, one, second, w1, w2); }
  }

  lemma OrderlyMore(w: World, steps: seq<Step>, last: Step, before: World, after: World)
    requires Orderly(w, steps) && Run(w, steps) == Some(before)
    requires Enabled(before, last) && !Overlaps(before, last) && Apply(before, last) == after
    ensures Orderly(w, steps + [last]) && Run(w, steps + [last]) == Some(after)
  {
    assert (steps + [last])[..|steps|] == steps;
  }

  /** A save beside a row of its own client and catalog that it does not replace. */
  lemma SavedBeside(w: World, d: nat, other: Stored)
    requires d < |w.callers| && w.callers[d].save.Save? && w.callers[d].pc.Saving?
    requires other in w.table && KeyedBy(other.row, w.callers[d].save)
    requires other.id != KeyFor(w, w.callers[d].pc.id)
    ensures !Single(Apply(w, Advance(d, true)).table)
  {
    var key := KeyFor(w, w.callers[d].pc.id);
    var table := Apply(w, Advance(d, true)).table;
    FilterMembers((s: Stored) => s.id != key, w.table);
    assert table[0] in table && other in table;
  }

  /** However an orderly run goes on from here, each client and catalog keeps to one row. */
  ghost predicate StaysSingle(w: World) {
    forall more :: Orderly(w, more) ==> Run(w, more).Some? && Single(Run(w, more).value.table)
  }

  lemma SettledStaysSingle(w: World)
    requires Settled(w)
    ensures StaysSingle(w)
  {
    forall more | Orderly(w, more) ensures Run(w, more).Some? && Single(Run(w, more).value.table) {
      OrderlySettled(w, more);
    }
  }

  lemma FindIsSafeIff(w: World, c: nat)
    requires Settled(w) && Enabled(w, Advance(c, true)) && w.callers[c].pc.Finding?
    requires FindFirst(w.table, w.callers[c].save).None?
    ensures StaysSingle(FindStep(w, c)) <==> !SomeUnderWay(w, w.callers[c].save)
  {
    if d :| UnderWay(w, w.callers[c].save, d) {
      OverlapMakesTwo(w, c, d);
    } else {
      FindSettled(w, c);
      SettledStaysSingle(FindStep(w, c));
    }
  }

  /** After any orderly run, a find that finds nothing is safe, whatever orderly steps follow,
      exactly when no other save of its client and catalog is under way: else two further saves
      leave two rows. */
  lemma FirstSaveIsSafeIff(steps: seq<Step>, w: World, c: nat)
    requires Orderly(EMPTY, steps) && Run(EMPTY, steps) == Some(w)
    requires Enabled(w, Advance(c, true)) && w.callers[c].pc.Finding?
    requires FindFirst(w.table, w.callers[c].save).None?
    ensures StaysSingle(FindStep(w, c)) <==> !SomeUnderWay(w, w.callers[c].save)
  {
    OrderlySettled(EMPTY, steps);
    FindIsSafeIff(w, c);
  }

  /** On the history of any orderly run, in any order, fetching only the missing catalogs is enough. */
  lemma ContinueWatchingAfterOrderlyRun(steps: seq<Step>, client: nat, history: seq<Row>, watchlist: seq<Saved>, details: map<string, Detail>)
    requires Orderly(EMPTY, steps) && Run(EMPTY, steps).Some?
    requires ListsClient(history, Rows(Run(EMPTY, steps).value.table), client)
    ensures var lookup := Lookup(watchlist);
      Items(history, lookup, Restricted(details, Missing(history, lookup))) == Items(history, lookup, details)
  {
    OrderlyRunsHaveOneRow(steps);
    OneRowIsEnough(Rows(Run(EMPTY, steps).value.table), client, history, watchlist, details);
  }

  // ---------------------------------------------------------------- alone

  /** A save that nobody interrupts does to the rows what UpsertHistory does. */
  lemma AloneIsUpsert(w: World, c: nat, row: Row)
    requires Settled(w) && Enabled(w, Advance(c, true)) && w.callers[c].pc.Finding?
    ensures var w' := Apply(FindStep(w, c), Advance(c, true));
      row in Rows(w'.table) <==> row in Do(Rows(w.table), w.callers[c].save)
  {
    var save := w.callers[c].save;
    var w1 := FindStep(w, c);
    var Saving(id, before) := w1.callers[c].pc;
    FindsTheRow(w, save);
    SettledIsOneRowEach(w);
    DoRowsOf(Rows(w.table), save, row);
    SavedRows(w, w1, id, SavedRow(before, save), save, row);
  }

  function BeforeOf(found: Option<Stored>): Row {
    if found.Some? then found.value.row else EMPTY_ROW
  }

  /** With one row each, it does not matter which look-up finds it. */
  lemma FindsTheRow(w: World, save: Op)
    requires Settled(w)
    ensures var index := IndexOf(Rows(w.table), save.client, save.catalog);
      BeforeOf(FindFirst(w.table, save)) == if index.Some? then Rows(w.table)[index.value] else EMPTY_ROW
  {
    var index := IndexOf(Rows(w.table), save.client, save.catalog);
    RowsMembers(w.table);
    if index.Some? {
      assert w.table[index.value] in w.table;
    }
  }

  /** A save over the only row of its client and catalog, or as the first. */
  lemma SavedRows(w: World, w1: World, id: Option<nat>, saved: Row, save: Op, row: Row)
    requires Settled(w) && w1.table == w.table && w1.nextId == w.nextId && KeyedBy(saved, save)
    requires id == match FindFirst(w.table, save) case Some(s) => Some(s.id) case None => None
    ensures row in Rows(WithSaved(w1, id, saved).table) <==> if KeyedBy(row, save) then row == saved else row in Rows(w.table)
  {
    var w0 := w.(callers := []);
    WithSavedTable(w0, id, saved);
    RowsMembers(w.table);
    RowsMembers(WithSaved(w1, id, saved).table);
    assert WithSaved(w1, id, saved).table == WithSaved(w0, id, saved).table;
    forall s | s in w.table ensures s.id == KeyFor(w, id) <==> KeyedBy(s.row, save) {
    }
  }

  lemma RowsMembers(table: seq<Stored>)
    ensures forall s :: s in table ==> s.row in Rows(table)
    ensures forall row :: row in Rows(table) ==> exists s :: s in table && s.row == row
  {
    forall s | s in table ensures s.row in Rows(table) {
      var i :| 0 <= i < |table| && table[i] == s;
      assert Rows(table)[i] == s.row;
    }
    forall row | row in Rows(table) ensures exists s :: s in table && s.row == row {
      var i :| 0 <= i < |table| && Rows(table)[i] == row;
      assert table[i] in table;
    }
  }
}
