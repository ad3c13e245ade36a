/** Public identifiers: the alias table, callers racing to fill it, and the two directions of
    the identifier service. */
module Aliases {
  import opened Basics
  import opened GoText
  import opened Identifiers

  // ---------------------------------------------------------------- newUUID

  function HexDigit(d: bv8): char
    requires d < 16
  {
    if d < 10 then ('0' as int + d as int) as char else ('a' as int + (d as int - 10)) as char
  }

  function Hex(bytes: seq<bv8>): string {
    if bytes == [] then "" else [HexDigit(bytes[0] >> 4), HexDigit(bytes[0] & 0x0f)] + Hex(bytes[1..])
  }

  /** Version 4 and variant 10 take the place of six random bits. */
  function Masked(random: seq<bv8>): seq<bv8>
    requires |random| == 16
  {
    random[6 := (random[6] & 0x0f) | 0x40][8 := (random[8] & 0x3f) | 0x80]
  }

  /** Five groups of hexadecimal digits. */
  function Grouped(bytes: seq<bv8>): string
    requires |bytes| == 16
  {
    Hex(bytes[0..4]) + "-" + Hex(bytes[4..6]) + "-" + Hex(bytes[6..8]) + "-" + Hex(bytes[8..10]) + "-" + Hex(bytes[10..16])
  }

  /** newUUID, from 16 random bytes: section 5.4 of RFC 9562. */
  function NewUuid(random: seq<bv8>): string
    requires |random| == 16
  {
    Grouped(Masked(random))
  }

  predicate HexChar(c: char) {
    IsDigit(c) || 'a' <= c <= 'f'
  }

  lemma HexDigitIsHex(d: bv8)
    requires d < 16
    ensures HexChar(HexDigit(d))
  {
  }

  lemma {:induction false} HexText(bytes: seq<bv8>)
    ensures |Hex(bytes)| == 2 * |bytes|
    ensures forall c :: c in Hex(bytes) ==> HexChar(c)
  {
    if bytes != [] {
      HexText(bytes[1..]);
      HexDigitIsHex(bytes[0] >> 4);
      HexDigitIsHex(bytes[0] & 0x0f);
    }
  }

  /** What the alias table needs of a public identifier: 36 hexadecimal digits and dashes. */
  predicate UuidText(s: string) {
    |s| == 36 && forall c :: c in s ==> HexChar(c) || c == '-'
  }

  lemma UuidShape(random: seq<bv8>)
    requires |random| == 16
    ensures UuidText(NewUuid(random))
  {
    var bytes := Masked(random);
    HexText(bytes[0..4]);
    HexText(bytes[4..6]);
    HexText(bytes[6..8]);
    HexText(bytes[8..10]);
    HexText(bytes[10..16]);
  }

  /** A UUID is trimmed and never parses as a qualified identifier. */
  lemma UuidIsNotQualified(s: string)
    requires UuidText(s)
    ensures TrimSpace(s) == s && s != "" && ParseQualified(s).Err?
  {
    assert s[0] in s && s[|s| - 1] in s;
    TrimmedFixed(s);
    assert ':' !in s;
  }

  /** The version digit is 4 and the variant digit is 8, 9, a or b. */
  lemma UuidVersionAndVariant(random: seq<bv8>)
    requires |random| == 16
    ensures |NewUuid(random)| == 36
    ensures NewUuid(random)[8] == NewUuid(random)[13] == NewUuid(random)[18] == NewUuid(random)[23] == '-'
    ensures NewUuid(random)[14] == '4' && NewUuid(random)[19] in {'8', '9', 'a', 'b'}
  {
    var b6, b8 := (random[6] & 0x0f) | 0x40, (random[8] & 0x3f) | 0x80;
    var bytes := Masked(random);
    Group(bytes);
    assert bytes[6..8][0] == b6 && bytes[8..10][0] == b8;
    VersionNibbles(random[6], random[8]);
    assert NewUuid(random)[14] == Hex(bytes[6..8])[0] == HexDigit(b6 >> 4);
    assert NewUuid(random)[19] == Hex(bytes[8..10])[0] == HexDigit(b8 >> 4);
  }

  lemma VersionNibbles(x: bv8, y: bv8)
    ensures ((x & 0x0f) | 0x40) >> 4 == 4
    ensures var n := ((y & 0x3f) | 0x80) >> 4; n == 8 || n == 9 || n == 10 || n == 11
  {
  }

  lemma {:induction false} HexInjective(a: seq<bv8>, b: seq<bv8>)
    requires |a| == |b| && Hex(a) == Hex(b)
    ensures a == b
  {
    if a != [] {
      assert Hex(a)[0] == HexDigit(a[0] >> 4) && Hex(a)[1] == HexDigit(a[0] & 0x0f);
      assert Hex(b)[0] == HexDigit(b[0] >> 4) && Hex(b)[1] == HexDigit(b[0] & 0x0f);
      HexDigitInjective(a[0] >> 4, b[0] >> 4);
      HexDigitInjective(a[0] & 0x0f, b[0] & 0x0f);
      SameNibbles(a[0], b[0]);
      assert Hex(a)[2..] == Hex(a[1..]) && Hex(b)[2..] == Hex(b[1..]);
      HexInjective(a[1..], b[1..]);
      assert a == [a[0]] + a[1..] && b == [b[0]] + b[1..];
    }
  }

  lemma HexDigitInjective(d: bv8, e: bv8)
    requires d < 16 && e < 16 && HexDigit(d) == HexDigit(e)
    ensures d == e
  {
    assert d as int == e as int;
  }

  lemma SameNibbles(x: bv8, y: bv8)
    requires x >> 4 == y >> 4 && x & 0x0f == y & 0x0f
    ensures x == y
  {
  }

  lemma MaskedIs(b: bv8, c: bv8)
    ensures (b & 0x0f) | 0x40 == (c & 0x0f) | 0x40 <==> b & 0x0f == c & 0x0f
    ensures (b & 0x3f) | 0x80 == (c & 0x3f) | 0x80 <==> b & 0x3f == c & 0x3f
  {
  }

  /** Two UUIDs are equal exactly when all random bits are, but for the six that give way to version
      and variant. */
  lemma UuidKeepsRandomness(r: seq<bv8>, q: seq<bv8>)
    requires |r| == 16 && |q| == 16
    ensures NewUuid(r) == NewUuid(q) <==>
      && (forall i :: 0 <= i < 16 && i != 6 && i != 8 ==> r[i] == q[i])
      && r[6] & 0x0f == q[6] & 0x0f && r[8] & 0x3f == q[8] & 0x3f
  {
    SameMasked(r, q);
    if NewUuid(r) == NewUuid(q) { GroupsOf(Masked(r), Masked(q)); }
  }

  lemma SameMasked(r: seq<bv8>, q: seq<bv8>)
    requires |r| == 16 && |q| == 16
    ensures Masked(r) == Masked(q) <==>
      && (forall i :: 0 <= i < 16 && i != 6 && i != 8 ==> r[i] == q[i])
      && r[6] & 0x0f == q[6] & 0x0f && r[8] & 0x3f == q[8] & 0x3f
  {
    var x, y := Masked(r), Masked(q);
    MaskedIs(r[6], q[6]);
    MaskedIs(r[8], q[8]);
    assert forall i :: 0 <= i < 16 && i != 6 && i != 8 ==> x[i] == r[i] && y[i] == q[i];
    assert x[6] == (r[6] & 0x0f) | 0x40 && y[6] == (q[6] & 0x0f) | 0x40;
    assert x[8] == (r[8] & 0x3f) | 0x80 && y[8] == (q[8] & 0x3f) | 0x80;
  }

  lemma GroupsOf(x: seq<bv8>, y: seq<bv8>)
    requires |x| == 16 && |y| == 16 && Grouped(x) == Grouped(y)
    ensures x == y
  {
    Group(x);
    Group(y);
    HexInjective(x[0..4], y[0..4]);
    HexInjective(x[4..6], y[4..6]);
    HexInjective(x[6..8], y[6..8]);
    HexInjective(x[8..10], y[8..10]);
    HexInjective(x[10..16], y[10..16]);
    assert x == x[0..4] + x[4..6] + x[6..8] + x[8..10] + x[10..16];
    assert y == y[0..4] + y[4..6] + y[6..8] + y[8..10] + y[10..16];
  }

  lemma Group(x: seq<bv8>)
    requires |x| == 16
    ensures var s := Grouped(x);
      && |s| == 36 && s[0..8] == Hex(x[0..4]) && s[9..13] == Hex(x[4..6]) && s[14..18] == Hex(x[6..8])
      && s[19..23] == Hex(x[8..10]) && s[24..36] == Hex(x[10..16])
      && s[8] == s[13] == s[18] == s[23] == '-'
  {
    HexText(x[0..4]);
    HexText(x[4..6]);
    HexText(x[6..8]);
    HexText(x[8..10]);
    HexText(x[10..16]);
    Joined(Hex(x[0..4]), Hex(x[4..6]), Hex(x[6..8]), Hex(x[8..10]), Hex(x[10..16]));
  }

  lemma Joined(a: string, b: string, c: string, d: string, e: string)
    requires |a| == 8 && |b| == |c| == |d| == 4 && |e| == 12
    ensures var s := a + "-" + b + "-" + c + "-" + d + "-" + e;
      && |s| == 36 && s[0..8] == a && s[9..13] == b && s[14..18] == c && s[19..23] == d && s[24..36] == e
      && s[8] == s[13] == s[18] == s[23] == '-'
  {
    var ab := a + "-" + b;
    var abc := ab + "-" + c;
    var abcd := abc + "-" + d;
    var s := abcd + "-" + e;
    assert ab[0..8] == a && ab[9..13] == b && ab[8] == '-';
    assert abc[..13] == ab && abc[14..18] == c && abc[13] == '-';
    assert abcd[..18] == abc && abcd[19..23] == d && abcd[18] == '-';
    assert s[..23] == abcd && s[24..36] == e && s[23] == '-';
    assert s[0..8] == ab[0..8] && s[9..13] == ab[9..13] && s[14..18] == abc[14..18] && s[19..23] == abcd[19..23];
  }

  // ---------------------------------------------------------------- the table

  datatype Row = Row(kind: string, internal: string, public: string)

  function FindInternal(rows: seq<Row>, kind: string, internal: string): Option<Row> {
    if rows == [] then None
    else if rows[0].kind == kind && rows[0].internal == internal then Some(rows[0])
    else FindInternal(rows[1..], kind, internal)
  }

  function FindPublic(rows: seq<Row>, kind: string, public: string): Option<Row> {
    if rows == [] then None
    else if rows[0].kind == kind && rows[0].public == public then Some(rows[0])
    else FindPublic(rows[1..], kind, public)
  }

  /** Creating a row would violate one of the two unique indexes. */
  predicate Conflicts(rows: seq<Row>, row: Row) {
    exists r :: r in rows && (r.public == row.public || (r.kind == row.kind && r.internal == row.internal))
  }

  ghost predicate Unique(rows: seq<Row>) {
    forall r, q :: r in rows && q in rows && (r.public == q.public || (r.kind == q.kind && r.internal == q.internal)) ==> r == q
  }

  ghost predicate AllUuids(rows: seq<Row>) {
    forall r :: r in rows ==> UuidText(r.public)
  }

  lemma {:induction false} FindInternalIs(rows: seq<Row>, kind: string, internal: string)
    ensures FindInternal(rows, kind, internal).Some? ==>
      var r := FindInternal(rows, kind, internal).value; r in rows && r.kind == kind && r.internal == internal
    ensures FindInternal(rows, kind, internal).None? ==>
      forall r :: r in rows ==> !(r.kind == kind && r.internal == internal)
  {
    if rows != [] {
      FindInternalIs(rows[1..], kind, internal);
      assert rows == [rows[0]] + rows[1..];
    }
  }

  lemma {:induction false} FindPublicIs(rows: seq<Row>, kind: string, public: string)
    ensures FindPublic(rows, kind, public).Some? ==>
      var r := FindPublic(rows, kind, public).value; r in rows && r.kind == kind && r.public == public
    ensures FindPublic(rows, kind, public).None? ==>
      forall r :: r in rows ==> !(r.kind == kind && r.public == public)
  {
    if rows != [] {
      FindPublicIs(rows[1..], kind, public);
      assert rows == [rows[0]] + rows[1..];
    }
  }

  /** What EnsureAlias makes of the rows it finds, those that are inserted meanwhile, and the row it
      would insert: a known alias is returned, else the new row is inserted, unless it cannot be,
      and then a row inserted meanwhile is returned, if there is one. */
  predicate Ensured(rows: seq<Row>, raced: seq<Row>, row: Row, readOk: bool, writeOk: bool, rereadOk: bool,
                    public: Option<string>, after: seq<Row>) {
    var known := FindInternal(rows, row.kind, row.internal);
    var later := rows + raced;
    if !readOk then public == None && after == rows
    else if known.Some? then public == Some(known.value.public) && after == rows
    else if writeOk && !Conflicts(later, row) then public == Some(row.public) && after == later + [row]
    else
      && after == later
      && var reread := FindInternal(later, row.kind, row.internal);
      public == if rereadOk && reread.Some? then Some(reread.value.public) else None
  }

  class Store {
    var rows: seq<Row>

    constructor ()
      ensures rows == []
    {
      rows := [];
    }

    /** EnsureAlias. raced are the rows other callers insert between its look-up and its insert. */
    method EnsureAlias(kind: string, internal: string, readOk: bool, random: seq<bv8>, raced: seq<Row>,
                       writeOk: bool, rereadOk: bool) returns (public: Option<string>)
      requires |random| == 16
      requires Unique(rows + raced) && AllUuids(rows + raced) && Unique(rows)
      modifies this
      ensures Unique(rows) && AllUuids(rows)
      ensures public.Some? ==> Row(kind, internal, public.value) in rows
      ensures Ensured(old(rows), raced, Row(kind, internal, NewUuid(random)), readOk, writeOk, rereadOk, public, rows)
    {
      FindInternalIs(rows, kind, internal);
      assert forall r :: r in rows ==> r in rows + raced;
      if !readOk { return None; }
      var found := FindInternal(rows, kind, internal);
      if found.Some? { return Some(found.value.public); }

      rows := rows + raced;
      var row := Row(kind, internal, NewUuid(random));
      UuidShape(random);
      FindInternalIs(rows, kind, internal);
      if !writeOk || Conflicts(rows, row) {
        var retried := FindInternal(rows, kind, internal);
        if rereadOk && retried.Some? { return Some(retried.value.public); }
        return None;
      }
      FindInternalIs(rows + [row], kind, internal);
      rows := rows + [row];
      return Some(row.public);
    }
  }

  // ---------------------------------------------------------------- racing callers

  datatype Pc = Finding | Creating | Rereading | Done(public: Option<string>)

  datatype Caller = Caller(kind: string, internal: string, pc: Pc)

  datatype World = World(rows: seq<Row>, callers: seq<Caller>)

  /** A caller starts, or makes its next database access, which may fail. */
  datatype Step =
    | Start(kind: string, internal: string)
    | Advance(caller: nat, ok: bool, random: seq<bv8>)

  predicate Enabled(w: World, step: Step) {
    match step
    case Start(_, _) => true
    case Advance(c, _, random) => c < |w.callers| && !w.callers[c].pc.Done? && |random| == 16
  }

  function Apply(w: World, step: Step): World
    requires Enabled(w, step)
  {
    match step
    case Start(kind, internal) => w.(callers := w.callers + [Caller(kind, internal, Finding)])
    case Advance(c, ok, random) =>
      var caller := w.callers[c];
      var found := FindInternal(w.rows, caller.kind, caller.internal);
      var row := Row(caller.kind, caller.internal, NewUuid(random));
      var created := caller.pc.Creating? && ok && !Conflicts(w.rows, row);
      var pc' :=
        match caller.pc
        case Finding => if !ok then Done(None) else if found.Some? then Done(Some(found.value.public)) else Creating
        case Creating => if created then Done(Some(row.public)) else Rereading
        case Rereading => if ok && found.Some? then Done(Some(found.value.public)) else Done(None)
        case Done(_) => caller.pc;
      World(if created then w.rows + [row] else w.rows, w.callers[c := caller.(pc := pc')])
  }

  function Run(w: World, steps: seq<Step>): Option<World> {
    if steps == [] then Some(w)
    else match Run(w, steps[..|steps| - 1])
      case None => None
      case Some(before) =>
        if Enabled(before, steps[|steps| - 1]) then Some(Apply(before, steps[|steps| - 1])) else None
  }

  /** One caller's accesses, with rows that others insert between its look-up and its insert. */
  function OneCaller(w: World, c: nat, raced: seq<Row>, random: seq<bv8>, readOk: bool, writeOk: bool, rereadOk: bool): World
    requires c < |w.callers| && w.callers[c].pc.Finding? && |random| == 16
  {
    var w1 := Apply(w, Advance(c, readOk, random));
    if w1.callers[c].pc.Done? then w1
    else
      var w2 := Apply(w1.(rows := w1.rows + raced), Advance(c, writeOk, random));
      if w2.callers[c].pc.Done? then w2 else Apply(w2, Advance(c, rereadOk, random))
  }

  /** They do what EnsureAlias does. */
  lemma CallerIsEnsureAlias(w: World, c: nat, raced: seq<Row>, random: seq<bv8>, readOk: bool, writeOk: bool, rereadOk: bool)
    requires c < |w.callers| && w.callers[c].pc.Finding? && |random| == 16
    ensures var w' := OneCaller(w, c, raced, random, readOk, writeOk, rereadOk);
      && c < |w'.callers| && w'.callers[c].pc.Done?
      && Ensured(w.rows, raced, Row(w.callers[c].kind, w.callers[c].internal, NewUuid(random)), readOk, writeOk, rereadOk,
                 w'.callers[c].pc.public, w'.rows)
  {
  }

  ghost predicate Valid(w: World) {
    && Unique(w.rows) && AllUuids(w.rows)
    && forall c :: 0 <= c < |w.callers| && w.callers[c].pc.Done? && w.callers[c].pc.public.Some? ==>
      Row(w.callers[c].kind, w.callers[c].internal, w.callers[c].pc.public.value) in w.rows
  }

  lemma StepValid(w: World, step: Step)
    requires Valid(w) && Enabled(w, step)
    ensures Valid(Apply(w, step)) && w.rows <= Apply(w, step).rows
  {
    if step.Advance? {
      var caller := w.callers[step.caller];
      FindInternalIs(w.rows, caller.kind, caller.internal);
      UuidShape(step.random);
    }
  }

  lemma {:induction false} RunValid(w: World, steps: seq<Step>)
    requires Valid(w) && Run(w, steps).Some?
    ensures Valid(Run(w, steps).value) && w.rows <= Run(w, steps).value.rows
  {
    if steps != [] {
      var front, last := steps[..|steps| - 1], steps[|steps| - 1];
      RunValid(w, front);
      StepValid(Run(w, front).value, last);
    }
  }

  const EMPTY: World := World([], [])

  /** In every interleaving, callers that succeed get one public identifier per internal one, and
      never one for two different internal ones. */
  lemma AliasesAgree(steps: seq<Step>, c: nat, d: nat)
    requires Run(EMPTY, steps).Some?
    requires var callers := Run(EMPTY, steps).value.callers;
      && c < |callers| && callers[c].pc.Done? && callers[c].pc.public.Some?
      && d < |callers| && callers[d].pc.Done? && callers[d].pc.public.Some?
    ensures var x, y := Run(EMPTY, steps).value.callers[c], Run(EMPTY, steps).value.callers[d];
      x.pc.public == y.pc.public <==> x.kind == y.kind && x.internal == y.internal
  {
    RunValid(EMPTY, steps);
  }

  /** No access fails, and a new UUID is nobody's public identifier. */
  predicate Lucky(w: World, step: Step) {
    step.Advance? ==> step.ok && |step.random| == 16 && forall r :: r in w.rows ==> r.public != NewUuid(step.random)
  }

  ghost predicate LuckyRun(w: World, steps: seq<Step>) {
    steps != [] ==>
      var front, last := steps[..|steps| - 1], steps[|steps| - 1];
      LuckyRun(w, front) && Run(w, front).Some? && Enabled(Run(w, front).value, last) && Lucky(Run(w, front).value, last)
  }

  /** Who has lost a race will find the winner's row. */
  ghost predicate Succeeding(w: World) {
    forall c :: 0 <= c < |w.callers| ==>
      && w.callers[c].pc != Done(None)
      && (w.callers[c].pc.Rereading? ==> FindInternal(w.rows, w.callers[c].kind, w.callers[c].internal).Some?)
  }

  lemma StepSucceeds(w: World, step: Step)
    requires Succeeding(w) && Enabled(w, step) && Lucky(w, step)
    ensures Succeeding(Apply(w, step))
  {
    var w' := Apply(w, step);
    forall c | 0 <= c < |w'.callers| && w'.callers[c].pc.Rereading?
      ensures FindInternal(w'.rows, w'.callers[c].kind, w'.callers[c].internal).Some?
    {
      var kind, internal := w'.callers[c].kind, w'.callers[c].internal;
      FindInternalIs(w.rows, kind, internal);
      FindInternalIs(w'.rows, kind, internal);
    }
  }

  /** When no access fails and no UUID repeats, every caller that finishes gets an identifier, however
      the callers race. */
  lemma {:induction false} LuckyCallersSucceed(steps: seq<Step>)
    requires LuckyRun(EMPTY, steps)
    ensures Run(EMPTY, steps).Some? && Succeeding(Run(EMPTY, steps).value)
  {
    if steps != [] {
      LuckyCallersSucceed(steps[..|steps| - 1]);
      StepSucceeds(Run(EMPTY, steps[..|steps| - 1]).value, steps[|steps| - 1]);
    }
  }

  // ---------------------------------------------------------------- the identifier service

  /** public: ensured is what EnsureAlias returned for the trimmed identifier, if it was called. */
  function Public(internal: string, ensured: Option<string>): string {
    var trimmed := TrimSpace(internal);
    if trimmed == "" then "" else if ensured.None? then trimmed else ensured.value
  }

  /** resolve. readOk says whether the table can be read. */
  function Resolve(rows: seq<Row>, kind: string, value: string, readOk: bool): Result<string> {
    var trimmed := TrimSpace(value);
    if trimmed == "" then Err
    else if ParseQualified(trimmed).Ok? then Ok(trimmed)
    else if !readOk then Err
    else match FindPublic(rows, kind, trimmed)
      case None => Err
      case Some(row) => Ok(row.internal)
  }

  lemma ResolvePublicIn(rows: seq<Row>, kind: string, internal: string, ensured: Option<string>, readOk: bool)
    requires Unique(rows) && AllUuids(rows)
    requires ensured.Some? ==> Row(kind, TrimSpace(internal), ensured.value) in rows
    ensures var trimmed := TrimSpace(internal);
      Resolve(rows, kind, Public(internal, ensured), readOk) == Ok(trimmed)
      <==> trimmed != "" && if ensured.Some? then readOk
        else ParseQualified(trimmed).Ok? || (readOk && Row(kind, trimmed, trimmed) in rows)
  {
    var trimmed := TrimSpace(internal);
    TrimSpaceTrims(internal);
    FindPublicIs(rows, kind, trimmed);
    if ensured.Some? {
      UuidIsNotQualified(ensured.value);
      FindPublicIs(rows, kind, ensured.value);
    }
  }

  /** A caller of EnsureAlias has finished; the table went on changing; then its public identifier
      is resolved. The trimmed internal identifier, unless blank, comes back exactly when its alias
      was ensured and the table can be read; or, where EnsureAlias failed, when it is qualified (or
      happens to be its own alias). */
  lemma ResolveInvertsPublic(steps: seq<Step>, later: seq<Step>, c: nat, internal: string, readOk: bool)
    requires Run(EMPTY, steps).Some? && Run(Run(EMPTY, steps).value, later).Some?
    requires var callers := Run(EMPTY, steps).value.callers;
      c < |callers| && callers[c].internal == TrimSpace(internal) && callers[c].pc.Done?
    ensures var caller := Run(EMPTY, steps).value.callers[c];
      var rows := Run(Run(EMPTY, steps).value, later).value.rows;
      var trimmed := TrimSpace(internal);
      Resolve(rows, caller.kind, Public(internal, caller.pc.public), readOk) == Ok(trimmed)
      <==>
      trimmed != "" && if caller.pc.public.Some? then readOk
        else ParseQualified(trimmed).Ok? || (readOk && Row(caller.kind, trimmed, trimmed) in rows)
  {
    RunValid(EMPTY, steps);
    var w := Run(EMPTY, steps).value;
    RunValid(w, later);
    var caller := w.callers[c];
    ResolvePublicIn(Run(w, later).value.rows, caller.kind, internal, caller.pc.public, readOk);
  }
}
