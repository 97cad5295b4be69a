/**
 Migration 024: its schema changes and updates as ordered steps over tables whose rows, column
 definitions and constraints all change. A step that PostgreSQL would refuse gives None.
 */
module CampaignMigration {
  import opened Wrappers
  import opened Text

  // ---- Tables ----

  /** The texts that status, mode and state columns may hold. */
  datatype Word =
    | Ready | Running | Paused | Cancelling | Succeeded | Partial | Failed | Cancelled
    | LegacyUpfront | LazyAdmissionV1
    | Pending | Admitted | Materialized | Active

  datatype Cell = Null | Word(word: Word) | Text(text: string) | Number(number: int) | Time(time: int) | Id(id: Uuid)

  datatype Column =
    | Status | OrchestrationMode | PlanChecksumVersion | MaxConcurrentMissions
    | StartedAt | PausedAt | CompletedAt | CancelledAt | LastAdmittedAt | ArchivedAt
    | CampaignId | SelectionRunId
    | ItemKey | AdmissionState | MaterializationAttempts | MaterializationErrorCode
    | SanitizedMaterializationError | NextMaterializationAttemptAt | AdmittedAt | MaterializedAt
    | MaterializationCompletedAt
    | Kept(n: nat)

  datatype ColumnDef = ColumnDef(nullable: bool, width: Option<nat>)

  datatype Constraint =
    | OneOf(column: Column, allowed: seq<Word>)
    | AtLeast(column: Column, least: int)
    | Unique(columns: seq<Column>)

  datatype Name =
    | CkStatus | CkOrchestrationMode | CkMaxConcurrency
    | CkAdmissionState | CkAttempts | UqItemKey | UqSelectionRun
    | KeptName(n: nat)

  type Row = map<Column, Cell>
  type Rows = map<nat, Row>

  datatype Table = Table(columns: map<Column, ColumnDef>, constraints: map<Name, Constraint>, rows: Rows)

  predicate CellFits(cell: Cell, def: ColumnDef) {
    match cell
    case Null => def.nullable
    case Text(s) => def.width.Some? ==> |s| <= def.width.value
    case _ => true
  }

  predicate RowFits(row: Row, columns: map<Column, ColumnDef>) {
    row.Keys == columns.Keys && forall c <- row :: CellFits(row[c], columns[c])
  }

  function CellOf(row: Row, c: Column): Cell {
    if c in row then row[c] else Null
  }

  predicate Clash(r: Row, q: Row, cs: seq<Column>) {
    forall c <- cs :: CellOf(r, c) != Null && CellOf(r, c) == CellOf(q, c)
  }

  /** A check is passed by NULL, and a row with a NULL in a unique key clashes with none. */
  predicate Passes(k: Constraint, row: Row)
    requires !k.Unique?
  {
    var cell := CellOf(row, k.column);
    match k
    case OneOf(_, allowed) => cell == Null || (cell.Word? && cell.word in allowed)
    case AtLeast(_, least) => cell == Null || (cell.Number? && cell.number >= least)
  }

  predicate Holds(k: Constraint, rows: Rows) {
    if k.Unique? then forall i <- rows, j <- rows | i != j :: !Clash(rows[i], rows[j], k.columns)
    else forall i <- rows :: Passes(k, rows[i])
  }

  predicate Mentions(k: Constraint, c: Column) {
    if k.Unique? then c in k.columns else c == k.column
  }

  predicate Over(k: Constraint, columns: map<Column, ColumnDef>) {
    if k.Unique? then forall c <- k.columns :: c in columns else k.column in columns
  }

  predicate RowsFit(rows: Rows, columns: map<Column, ColumnDef>) {
    forall i <- rows :: RowFits(rows[i], columns)
  }

  predicate AllOver(constraints: map<Name, Constraint>, columns: map<Column, ColumnDef>) {
    forall n <- constraints :: Over(constraints[n], columns)
  }

  predicate AllHold(constraints: map<Name, Constraint>, rows: Rows) {
    forall n <- constraints :: Holds(constraints[n], rows)
  }

  predicate Ok(t: Table) {
    RowsFit(t.rows, t.columns) && AllOver(t.constraints, t.columns) && AllHold(t.constraints, t.rows)
  }

  // ---- Steps ----

  /** A row of content_campaign_item_executions: the item it refers to, unique there, and its time. */
  datatype ItemExecution = ItemExecution(item: nat, createdAt: int)

  datatype Step =
    | AddColumn(column: Column, def: ColumnDef, default: Cell)
    | DropColumn(column: Column)
    | SetNotNull(column: Column)
    | AddConstraint(name: Name, constraint: Constraint)
    | DropConstraint(name: Name)
    | FillItemKeys(keyOf: Uuid -> string)
    | GuardItemKeys
    | MarkMaterialized(executions: seq<ItemExecution>, now: int)
    | ResetStatus(word: Word)

  /** The key written for a row; a key of NULL is NULL. */
  function KeyText(row: Row, keyOf: Uuid -> string): Cell {
    match CellOf(row, SelectionRunId)
    case Id(u) => Text(keyOf(u))
    case _ => Null
  }

  /** 'selection-run:' || selection_run_id::text */
  function SelectionKey(u: Uuid): string {
    if u.Valid() then "selection-run:" + u.Text() else ""
  }

  predicate SameGroup(r: Row, q: Row, cs: seq<Column>) {
    forall c <- cs :: CellOf(r, c) == CellOf(q, c)
  }

  /** The subquery on the executions of an item. */
  function TimesOf(ex: seq<ItemExecution>, item: nat): seq<int> {
    if ex == [] then []
    else (if ex[0].item == item then [ex[0].createdAt] else []) + TimesOf(ex[1..], item)
  }

  function Marked(row: Row, times: seq<int>, now: int): Row {
    if times == [] then row
    else row[AdmissionState := Word(Materialized)][MaterializedAt := Time(if |times| == 1 then times[0] else now)]
  }

  function Reset(row: Row, word: Word): Row {
    if CellOf(row, Status) == Null then row else row[Status := Word(word)]
  }

  function WithKey(row: Row, keyOf: Uuid -> string): Row {
    row[ItemKey := KeyText(row, keyOf)]
  }

  function Keyed(rows: Rows, keyOf: Uuid -> string): Rows {
    map i <- rows :: WithKey(rows[i], keyOf)
  }

  function MarkedAll(rows: Rows, ex: seq<ItemExecution>, now: int): Rows {
    map i <- rows :: Marked(rows[i], TimesOf(ex, i), now)
  }

  function ResetAll(rows: Rows, word: Word): Rows {
    map i <- rows :: Reset(rows[i], word)
  }

  /** An update: refused when a new row breaks a column definition or a constraint. */
  function Rewritten(t: Table, rows: Rows): Option<Table> {
    var r := t.(rows := rows);
    if Ok(r) then Some(r) else None
  }

  function Do(t: Table, step: Step): Option<Table> {
    match step
    case AddColumn(c, def, default) =>
      if c in t.columns || (t.rows != map[] && !CellFits(default, def)) then None
      else Some(Table(t.columns[c := def], t.constraints, map i <- t.rows :: t.rows[i][c := default]))
    case DropColumn(c) =>
      if c !in t.columns then None
      else Some(Table(t.columns - {c}, map n <- t.constraints | !Mentions(t.constraints[n], c) :: t.constraints[n],
                      map i <- t.rows :: t.rows[i] - {c}))
    case SetNotNull(c) =>
      if c !in t.columns || exists i <- t.rows :: CellOf(t.rows[i], c) == Null then None
      else Some(t.(columns := t.columns[c := t.columns[c].(nullable := false)]))
    case AddConstraint(n, k) =>
      if n in t.constraints || !Over(k, t.columns) || !Holds(k, t.rows) then None
      else Some(t.(constraints := t.constraints[n := k]))
    case DropConstraint(n) =>
      if n !in t.constraints then None else Some(t.(constraints := t.constraints - {n}))
    case FillItemKeys(keyOf) =>
      Rewritten(t, Keyed(t.rows, keyOf))
    case GuardItemKeys =>
      if || (exists i <- t.rows :: CellOf(t.rows[i], ItemKey) == Null)
         || (exists i <- t.rows, j <- t.rows | i != j :: SameGroup(t.rows[i], t.rows[j], [CampaignId, ItemKey]))
      then None else Some(t)
    case MarkMaterialized(ex, now) =>
      if exists i <- t.rows :: |TimesOf(ex, i)| > 1 then None
      else Rewritten(t, MarkedAll(t.rows, ex, now))
    case ResetStatus(word) =>
      Rewritten(t, ResetAll(t.rows, word))
  }

  function Run(t: Table, script: seq<Step>): Option<Table>
    decreases |script|
  {
    if |script| == 0 then Some(t)
    else match Do(t, script[0])
         case None => None
         case Some(next) => Run(next, script[1..])
  }

  // ---- Any script keeps rows, columns and constraints consistent ----

  lemma DropColumnKeepsOk(t: Table, c: Column)
    requires Ok(t) && c in t.columns
    ensures Ok(Do(t, DropColumn(c)).value)
  {
    var r := Do(t, DropColumn(c)).value;
    forall n <- r.constraints ensures Over(r.constraints[n], r.columns) && Holds(r.constraints[n], r.rows) {
      var k := r.constraints[n];
      assert Over(k, t.columns) && Holds(k, t.rows) && !Mentions(k, c);
      if k.Unique? {
        forall i <- r.rows, j <- r.rows | i != j ensures !Clash(r.rows[i], r.rows[j], k.columns) {
          assert !Clash(t.rows[i], t.rows[j], k.columns);
        }
      } else {
        forall i <- r.rows ensures Passes(k, r.rows[i]) {
          assert Passes(k, t.rows[i]);
        }
      }
    }
  }

  lemma WiderRowsHold(k: Constraint, columns: map<Column, ColumnDef>, rows: Rows, wide: Rows, c: Column)
    requires Over(k, columns) && Holds(k, rows) && c !in columns && wide.Keys == rows.Keys
    requires forall i <- rows :: forall d <- columns :: CellOf(wide[i], d) == CellOf(rows[i], d)
    ensures Holds(k, wide)
  {
    if k.Unique? {
      forall i <- wide, j <- wide | i != j ensures !Clash(wide[i], wide[j], k.columns) {
        assert !Clash(rows[i], rows[j], k.columns);
      }
    } else {
      forall i <- wide ensures Passes(k, wide[i]) {
        assert Passes(k, rows[i]);
      }
    }
  }

  lemma AddColumnKeepsOk(t: Table, c: Column, def: ColumnDef, default: Cell)
    requires Ok(t) && Do(t, AddColumn(c, def, default)).Some?
    ensures Ok(Do(t, AddColumn(c, def, default)).value)
  {
    var r := Do(t, AddColumn(c, def, default)).value;
    forall n <- r.constraints ensures Over(r.constraints[n], r.columns) && Holds(r.constraints[n], r.rows) {
      WiderRowsHold(t.constraints[n], t.columns, t.rows, r.rows, c);
    }
  }

  lemma DoKeepsOk(t: Table, step: Step)
    requires Ok(t) && Do(t, step).Some?
    ensures Ok(Do(t, step).value)
  {
    match step
    case AddColumn(c, def, default) => AddColumnKeepsOk(t, c, def, default);
    case DropColumn(c) => DropColumnKeepsOk(t, c);
    case SetNotNull(c) =>
      var r := Do(t, step).value;
      forall i <- r.rows ensures RowFits(r.rows[i], r.columns) {
        assert RowFits(t.rows[i], t.columns) && CellOf(t.rows[i], c) != Null;
      }
      forall n <- r.constraints ensures Over(r.constraints[n], r.columns) {
        assert Over(t.constraints[n], t.columns);
      }
    case AddConstraint(n, k) =>
    case DropConstraint(n) =>
    case _ =>
  }

  /** Whatever the script, a step that is accepted leaves a table whose rows fit their columns and
      meet every constraint then in force. */
  lemma {:induction false} RunKeepsOk(t: Table, script: seq<Step>)
    requires Ok(t) && Run(t, script).Some?
    ensures Ok(Run(t, script).value)
    decreases |script|
  {
    if script != [] {
      DoKeepsOk(t, script[0]);
      RunKeepsOk(Do(t, script[0]).value, script[1..]);
    }
  }

  lemma {:induction false} RunAppend(t: Table, a: seq<Step>, b: seq<Step>)
    ensures Run(t, a + b) == match Run(t, a) case None => None case Some(r) => Run(r, b)
    decreases |a|
  {
    if a == [] {
      assert a + b == b;
    } else {
      assert (a + b)[0] == a[0] && (a + b)[1..] == a[1..] + b;
      if Do(t, a[0]).Some? {
        RunAppend(Do(t, a[0]).value, a[1..], b);
      }
    }
  }

  // ---- Groups of steps ----

  datatype Added = Added(column: Column, def: ColumnDef, default: Cell)

  function Adds(list: seq<Added>): (r: seq<Step>)
    ensures |r| == |list|
  {
    seq(|list|, i requires 0 <= i < |list| => AddColumn(list[i].column, list[i].def, list[i].default))
  }

  function Drops(cs: seq<Column>): (r: seq<Step>)
    ensures |r| == |cs|
  {
    seq(|cs|, i requires 0 <= i < |cs| => DropColumn(cs[i]))
  }

  datatype Named = Named(name: Name, constraint: Constraint)

  function Checks(list: seq<Named>): (r: seq<Step>)
    ensures |r| == |list|
  {
    seq(|list|, i requires 0 <= i < |list| => AddConstraint(list[i].name, list[i].constraint))
  }

  function Unchecks(names: seq<Name>): (r: seq<Step>)
    ensures |r| == |names|
  {
    seq(|names|, i requires 0 <= i < |names| => DropConstraint(names[i]))
  }

  function Defs(list: seq<Added>): map<Column, ColumnDef> {
    if list == [] then map[] else Defs(list[1..])[list[0].column := list[0].def]
  }

  function Defaults(list: seq<Added>): Row {
    if list == [] then map[] else Defaults(list[1..])[list[0].column := list[0].default]
  }

  function Extended(rows: Rows, cells: Row): Rows {
    map i <- rows :: rows[i] + cells
  }

  function Without(rows: Rows, cs: set<Column>): Rows {
    map i <- rows :: rows[i] - cs
  }

  function Constraints(list: seq<Named>): map<Name, Constraint> {
    if list == [] then map[] else Constraints(list[1..])[list[0].name := list[0].constraint]
  }

  function Columns(list: seq<Added>): set<Column> {
    set a <- list :: a.column
  }

  function ColumnSet(cs: seq<Column>): set<Column> {
    set c <- cs
  }

  function NameSet(names: seq<Name>): set<Name> {
    set n <- names
  }

  function CheckNames(list: seq<Named>): set<Name> {
    set k <- list :: k.name
  }

  predicate DistinctColumns(list: seq<Added>) {
    forall i, j | 0 <= i < j < |list| :: list[i].column != list[j].column
  }

  predicate DistinctNames(list: seq<Named>) {
    forall i, j | 0 <= i < j < |list| :: list[i].name != list[j].name
  }

  lemma {:induction false} DefsHave(list: seq<Added>)
    ensures Defs(list).Keys == Columns(list) == Defaults(list).Keys
  {
    if list != [] {
      DefsHave(list[1..]);
      assert list == [list[0]] + list[1..];
    }
  }

  lemma RunFirst(t: Table, script: seq<Step>, next: Table)
    requires script != [] && Do(t, script[0]) == Some(next)
    ensures Run(t, script) == Run(next, script[1..])
  {
  }

  lemma RunPair(t: Table, a: seq<Step>, b: seq<Step>, t1: Table, t2: Table)
    requires Run(t, a) == Some(t1) && Run(t1, b) == Some(t2)
    ensures Run(t, a + b) == Some(t2)
  {
    RunAppend(t, a, b);
  }

  ghost function Widened(t: Table, list: seq<Added>): Table {
    Table(t.columns + Defs(list), t.constraints, Extended(t.rows, Defaults(list)))
  }

  lemma OneAdded(a: Added)
    ensures Defs([a]) == map[a.column := a.def] && Defaults([a]) == map[a.column := a.default]
  {
    var rest := [a][1..];
    assert rest == [];
    assert Defs(rest) == map[] && Defaults(rest) == map[];
  }

  lemma MergeOne<V>(m: map<Column, V>, one: map<Column, V>, rest: map<Column, V>, c: Column, v: V)
    requires one == map[c := v] && c !in rest
    ensures (m + one) + rest == m + rest[c := v]
  {
  }

  lemma ExtendedStep(rows: Rows, one: Row, rest: Row, c: Column, cell: Cell)
    requires one == map[c := cell] && c !in rest
    ensures Extended(Extended(rows, one), rest) == Extended(rows, rest[c := cell])
  {
    forall i <- rows ensures (rows[i] + one) + rest == rows[i] + rest[c := cell] {
      MergeOne(rows[i], one, rest, c, cell);
    }
  }

  lemma WidenedStep(t: Table, list: seq<Added>)
    requires list != [] && DistinctColumns(list)
    ensures Widened(Widened(t, [list[0]]), list[1..]) == Widened(t, list)
  {
    var a, rest := list[0], list[1..];
    DefsHave(rest);
    OneAdded(a);
    assert a.column !in Columns(rest) by {
      forall b <- rest ensures b.column != a.column {
      }
    }
    MergeOne(t.columns, Defs([a]), Defs(rest), a.column, a.def);
    ExtendedStep(t.rows, Defaults([a]), Defaults(rest), a.column, a.default);
  }

  lemma DoAdd(t: Table, a: Added)
    requires a.column !in t.columns && CellFits(a.default, a.def)
    ensures Do(t, AddColumn(a.column, a.def, a.default)) == Some(Widened(t, [a]))
  {
    OneAdded(a);
    forall i <- t.rows ensures t.rows[i][a.column := a.default] == t.rows[i] + Defaults([a]) {
    }
    var r := Do(t, AddColumn(a.column, a.def, a.default)).value;
    assert r.columns == t.columns + Defs([a]);
    assert r.rows == Extended(t.rows, Defaults([a]));
  }

  lemma {:induction false} AddsRun(t: Table, list: seq<Added>)
    requires DistinctColumns(list) && forall a <- list :: a.column !in t.columns && CellFits(a.default, a.def)
    ensures Run(t, Adds(list)) == Some(Widened(t, list))
    decreases |list|
  {
    if list == [] {
      forall i <- t.rows ensures t.rows[i] + Defaults(list) == t.rows[i] {
      }
      assert t.columns + Defs(list) == t.columns && Extended(t.rows, Defaults(list)) == t.rows;
    } else {
      var a := list[0];
      var next := Widened(t, [a]);
      assert a in list;
      DoAdd(t, a);
      RunFirst(t, Adds(list), next);
      forall b <- list[1..] ensures b.column !in next.columns && CellFits(b.default, b.def) {
        OneAdded(a);
        assert b in list;
      }
      AddsRun(next, list[1..]);
      assert Adds(list)[1..] == Adds(list[1..]);
      WidenedStep(t, list);
    }
  }

  predicate NoneMention(constraints: map<Name, Constraint>, cs: set<Column>) {
    forall n <- constraints, c <- cs :: !Mentions(constraints[n], c)
  }

  lemma NothingDropped(t: Table)
    ensures t.columns - {} == t.columns && Without(t.rows, {}) == t.rows
  {
    forall i <- t.rows ensures t.rows[i] - {} == t.rows[i] {
    }
  }

  lemma DroppedInTurn(t: Table, c: Column, rest: set<Column>)
    ensures (t.columns - {c}) - rest == t.columns - ({c} + rest)
    ensures Without(Without(t.rows, {c}), rest) == Without(t.rows, {c} + rest)
  {
    forall i <- t.rows ensures (t.rows[i] - {c}) - rest == t.rows[i] - ({c} + rest) {
    }
  }

  lemma {:induction false} DropsRun(t: Table, cs: seq<Column>)
    requires forall i, j | 0 <= i < j < |cs| :: cs[i] != cs[j]
    requires forall c <- cs :: c in t.columns
    requires NoneMention(t.constraints, ColumnSet(cs))
    ensures Run(t, Drops(cs)) == Some(Table(t.columns - ColumnSet(cs), t.constraints, Without(t.rows, ColumnSet(cs))))
    decreases |cs|
  {
    if cs == [] {
      assert ColumnSet(cs) == {};
      NothingDropped(t);
    } else {
      var rest := ColumnSet(cs[1..]);
      assert cs[0] in ColumnSet(cs) && ColumnSet(cs) == {cs[0]} + rest by {
        assert cs == [cs[0]] + cs[1..];
      }
      var next := Do(t, DropColumn(cs[0])).value;
      assert next == Table(t.columns - {cs[0]}, t.constraints, Without(t.rows, {cs[0]}));
      DropsRun(next, cs[1..]);
      RunFirst(t, Drops(cs), next);
      assert Drops(cs)[1..] == Drops(cs[1..]);
      DroppedInTurn(t, cs[0], rest);
    }
  }

  lemma {:induction false} ConstraintsHave(list: seq<Named>)
    requires DistinctNames(list)
    ensures forall k <- list :: k.name in Constraints(list) && Constraints(list)[k.name] == k.constraint
    ensures Constraints(list).Keys == CheckNames(list)
  {
    if list != [] {
      ConstraintsHave(list[1..]);
      assert list == [list[0]] + list[1..];
      forall k <- list ensures k.name in Constraints(list) && Constraints(list)[k.name] == k.constraint {
        var i :| 0 <= i < |list| && list[i] == k;
        if i > 0 {
          assert list[1..][i - 1] == k;
        }
      }
    }
  }

  lemma DoCheck(t: Table, k: Named)
    requires k.name !in t.constraints && Over(k.constraint, t.columns) && Holds(k.constraint, t.rows)
    ensures Do(t, AddConstraint(k.name, k.constraint)) == Some(t.(constraints := t.constraints[k.name := k.constraint]))
  {
  }

  lemma ConstraintsStep(constraints: map<Name, Constraint>, list: seq<Named>)
    requires list != [] && DistinctNames(list)
    ensures constraints[list[0].name := list[0].constraint] + Constraints(list[1..]) == constraints + Constraints(list)
  {
    ConstraintsHave(list[1..]);
    assert list[0].name !in Constraints(list[1..]);
  }

  lemma {:induction false} ChecksRun(t: Table, list: seq<Named>)
    requires DistinctNames(list)
    requires forall k <- list :: k.name !in t.constraints && Over(k.constraint, t.columns) && Holds(k.constraint, t.rows)
    ensures Run(t, Checks(list)) == Some(t.(constraints := t.constraints + Constraints(list)))
    decreases |list|
  {
    if list == [] {
      assert t.constraints + Constraints(list) == t.constraints;
    } else {
      var k := list[0];
      assert k in list;
      var next := t.(constraints := t.constraints[k.name := k.constraint]);
      DoCheck(t, k);
      RunFirst(t, Checks(list), next);
      forall b <- list[1..]
        ensures b.name !in next.constraints && Over(b.constraint, next.columns) && Holds(b.constraint, next.rows)
      {
        assert b in list;
      }
      ChecksRun(next, list[1..]);
      assert Checks(list)[1..] == Checks(list[1..]);
      ConstraintsStep(t.constraints, list);
    }
  }

  lemma {:induction false} UnchecksRun(t: Table, names: seq<Name>)
    requires forall i, j | 0 <= i < j < |names| :: names[i] != names[j]
    requires forall n <- names :: n in t.constraints
    ensures Run(t, Unchecks(names)) == Some(t.(constraints := t.constraints - NameSet(names)))
    decreases |names|
  {
    var all := NameSet(names);
    if names == [] {
      assert t.constraints - all == t.constraints;
    } else {
      var rest := NameSet(names[1..]);
      assert names[0] in all && all == {names[0]} + rest by {
        assert names == [names[0]] + names[1..];
      }
      var next := Do(t, DropConstraint(names[0])).value;
      UnchecksRun(next, names[1..]);
      assert Unchecks(names)[1..] == Unchecks(names[1..]);
      assert next.constraints - rest == t.constraints - all;
    }
  }

  // ---- Campaigns and executions: a status that gets more values, and new columns ----

  /** home is the one status before; words are the statuses after, and checks those besides it. */
  datatype Plan = Plan(home: Word, words: seq<Word>, added: seq<Added>, dropped: seq<Column>,
                       checks: seq<Named>, unchecks: seq<Name>)

  function Up(p: Plan): seq<Step> {
    [DropConstraint(CkStatus)] + Adds(p.added) + [AddConstraint(CkStatus, OneOf(Status, p.words))] + Checks(p.checks)
  }

  function Down(p: Plan): seq<Step> {
    [ResetStatus(p.home)] + Unchecks(p.unchecks) + Drops(p.dropped) + [AddConstraint(CkStatus, OneOf(Status, [p.home]))]
  }

  function CampaignAdded(): seq<Added> {
    var time := ColumnDef(true, None);
    [ Added(OrchestrationMode, ColumnDef(false, Some(32)), Word(LegacyUpfront)),
      Added(PlanChecksumVersion, ColumnDef(false, None), Number(1)),
      Added(MaxConcurrentMissions, ColumnDef(true, None), Null),
      Added(StartedAt, time, Null), Added(PausedAt, time, Null), Added(CompletedAt, time, Null),
      Added(CancelledAt, time, Null), Added(LastAdmittedAt, time, Null), Added(ArchivedAt, time, Null)]
  }

  function CampaignDropped(): seq<Column> {
    [ ArchivedAt, LastAdmittedAt, CancelledAt, CompletedAt, PausedAt, StartedAt,
      MaxConcurrentMissions, PlanChecksumVersion, OrchestrationMode]
  }

  function CampaignPlan(): Plan {
    Plan(
      Ready, [Ready, Running, Paused, Cancelling, Succeeded, Partial, Failed, Cancelled],
      CampaignAdded(), CampaignDropped(),
      [ Named(CkOrchestrationMode, OneOf(OrchestrationMode, [LegacyUpfront, LazyAdmissionV1])),
        Named(CkMaxConcurrency, AtLeast(MaxConcurrentMissions, 1))],
      [CkMaxConcurrency, CkOrchestrationMode, CkStatus])
  }

  function ExecutionPlan(): Plan {
    Plan(Materialized, [Active, Materialized, Cancelled],
         [Added(MaterializationCompletedAt, ColumnDef(true, None), Null)], [MaterializationCompletedAt],
         [], [CkStatus])
  }

  ghost predicate AddedOk(added: seq<Added>, dropped: seq<Column>) {
    && DistinctColumns(added)
    && (forall a <- added :: CellFits(a.default, a.def) && a.column != Status)
    && (forall i, j | 0 <= i < j < |dropped| :: dropped[i] != dropped[j])
    && ColumnSet(dropped) == Columns(added)
  }

  ghost predicate CheckOk(added: seq<Added>, k: Named) {
    && k.name != CkStatus && !k.constraint.Unique? && k.constraint.column != Status
    && exists a <- added :: a.column == k.constraint.column && Passes(k.constraint, map[a.column := a.default])
  }

  ghost predicate NamesOk(checks: seq<Named>, unchecks: seq<Name>) {
    && DistinctNames(checks)
    && (forall i, j | 0 <= i < j < |unchecks| :: unchecks[i] != unchecks[j])
    && NameSet(unchecks) == {CkStatus} + CheckNames(checks)
  }

  /** What a plan has to be like for the theorems below; both plans of the migration are. */
  ghost predicate PlanOk(p: Plan) {
    && p.home in p.words
    && AddedOk(p.added, p.dropped)
    && NamesOk(p.checks, p.unchecks)
    && forall k <- p.checks :: CheckOk(p.added, k)
  }

  lemma ExecutionPlanOk()
    ensures PlanOk(ExecutionPlan())
  {
    var p := ExecutionPlan();
    assert p.words[1] == Materialized;
    assert ColumnSet(p.dropped) == Columns(p.added);
  }

  lemma CampaignColumns(added: seq<Added>, dropped: seq<Column>)
    requires added == CampaignAdded() && dropped == CampaignDropped()
    ensures ColumnSet(dropped) == Columns(added)
  {
    assert forall i | 0 <= i < 9 :: added[8 - i].column == dropped[i];
    forall c ensures c in ColumnSet(dropped) <==> c in Columns(added) {
      if c in dropped {
        var i :| 0 <= i < 9 && dropped[i] == c;
        assert added[8 - i] in added;
      }
      if c in Columns(added) {
        var a :| a in added && a.column == c;
        var i :| 0 <= i < 9 && added[i] == a;
        assert dropped[8 - i] == c;
      }
    }
  }

  lemma CampaignNames(checks: seq<Named>, unchecks: seq<Name>)
    requires |checks| == 2 && checks[0].name == CkOrchestrationMode && checks[1].name == CkMaxConcurrency
    requires unchecks == [CkMaxConcurrency, CkOrchestrationMode, CkStatus]
    ensures NamesOk(checks, unchecks)
  {
    assert unchecks[0] == checks[1].name && unchecks[1] == checks[0].name && unchecks[2] == CkStatus;
    assert checks[0] in checks && checks[1] in checks;
  }

  lemma CampaignChecks(added: seq<Added>, checks: seq<Named>, words: seq<Word>)
    requires |added| > 2 && added[0].column == OrchestrationMode && added[0].default == Word(LegacyUpfront)
    requires added[2].column == MaxConcurrentMissions && added[2].default == Null
    requires |checks| == 2 && words == [LegacyUpfront, LazyAdmissionV1]
    requires checks[0] == Named(CkOrchestrationMode, OneOf(OrchestrationMode, words))
    requires checks[1] == Named(CkMaxConcurrency, AtLeast(MaxConcurrentMissions, 1))
    ensures forall k <- checks :: CheckOk(added, k)
  {
    var mode, most := added[0], added[2];
    assert mode in added && most in added && words[0] == LegacyUpfront;
    assert Passes(checks[0].constraint, map[mode.column := mode.default]);
    assert Passes(checks[1].constraint, map[most.column := most.default]);
  }

  lemma {:induction false} DefaultsGive(list: seq<Added>, a: Added)
    requires a in list && DistinctColumns(list)
    ensures a.column in Defaults(list) && Defaults(list)[a.column] == a.default
  {
    if a != list[0] {
      var i :| 0 < i < |list| && list[i] == a;
      assert list[1..][i - 1] == a;
      DefaultsGive(list[1..], a);
    }
  }

  lemma CampaignDroppedDistinct(dropped: seq<Column>)
    requires dropped == CampaignDropped()
    ensures forall i, j | 0 <= i < j < |dropped| :: dropped[i] != dropped[j]
  {
  }

  lemma CampaignAddedFits(added: seq<Added>)
    requires added == CampaignAdded()
    ensures forall a <- added :: CellFits(a.default, a.def) && a.column != Status
  {
  }

  lemma AddedDistinct(added: seq<Added>, dropped: seq<Column>)
    requires |added| == |dropped| == 9 && forall i | 0 <= i < 9 :: added[8 - i].column == dropped[i]
    requires forall i, j | 0 <= i < j < |dropped| :: dropped[i] != dropped[j]
    ensures DistinctColumns(added)
  {
    forall i, j | 0 <= i < j < 9 ensures added[i].column != added[j].column {
      assert added[8 - (8 - i)].column == dropped[8 - i] && added[8 - (8 - j)].column == dropped[8 - j];
    }
  }

  lemma MakeAddedOk(added: seq<Added>, dropped: seq<Column>)
    requires DistinctColumns(added) && forall a <- added :: CellFits(a.default, a.def) && a.column != Status
    requires forall i, j | 0 <= i < j < |dropped| :: dropped[i] != dropped[j]
    requires ColumnSet(dropped) == Columns(added)
    ensures AddedOk(added, dropped)
  {
  }

  lemma CampaignAddedOk(p: Plan)
    requires p.added == CampaignAdded() && p.dropped == CampaignDropped()
    ensures AddedOk(p.added, p.dropped)
  {
    CampaignColumns(p.added, p.dropped);
    CampaignAddedFits(p.added);
    CampaignDroppedDistinct(p.dropped);
    AddedDistinct(p.added, p.dropped);
    MakeAddedOk(p.added, p.dropped);
  }

  lemma CampaignChecksOk(p: Plan)
    requires p == CampaignPlan()
    ensures NamesOk(p.checks, p.unchecks) && forall k <- p.checks :: CheckOk(p.added, k)
  {
    CampaignNames(p.checks, p.unchecks);
    CampaignChecks(p.added, p.checks, [LegacyUpfront, LazyAdmissionV1]);
  }

  lemma CampaignPlanOk(p: Plan)
    requires p == CampaignPlan()
    ensures PlanOk(p)
  {
    CampaignAddedOk(p);
    CampaignChecksOk(p);
    assert p.words[0] == Ready;
  }

  /** A table as migrations 020 and 021 leave it. */
  ghost predicate Before(t: Table, p: Plan) {
    && Ok(t)
    && Status in t.columns && !t.columns[Status].nullable
    && CkStatus in t.constraints && t.constraints[CkStatus] == OneOf(Status, [p.home])
    && NoneMention(t.constraints - {CkStatus}, {Status})
    && t.columns.Keys !! Columns(p.added)
    && t.constraints.Keys !! CheckNames(p.checks)
  }

  /** A table as this migration leaves it, with whatever rows were written since. */
  ghost predicate After(t: Table, p: Plan) {
    && Ok(t)
    && Status in t.columns && !t.columns[Status].nullable
    && Columns(p.added) <= t.columns.Keys
    && CkStatus in t.constraints && t.constraints[CkStatus] == OneOf(Status, p.words)
    && (forall k <- p.checks :: k.name in t.constraints && t.constraints[k.name] == k.constraint)
    && NoneMention(t.constraints - NameSet(p.unchecks), {Status} + Columns(p.added))
  }

  ghost function UpOf(t: Table, p: Plan): Table {
    Table(t.columns + Defs(p.added),
          t.constraints[CkStatus := OneOf(Status, p.words)] + Constraints(p.checks),
          Extended(t.rows, Defaults(p.added)))
  }

  ghost function DownOf(t: Table, p: Plan): Table {
    Table(t.columns - Columns(p.added),
          (t.constraints - NameSet(p.unchecks))[CkStatus := OneOf(Status, [p.home])],
          map i <- t.rows :: Reset(t.rows[i], p.home) - Columns(p.added))
  }

  lemma HomeEverywhere(t: Table, p: Plan, i: nat)
    requires Before(t, p) && i in t.rows
    ensures Status in t.rows[i] && t.rows[i][Status] == Word(p.home)
  {
    assert Holds(t.constraints[CkStatus], t.rows);
    assert Passes(t.constraints[CkStatus], t.rows[i]) && RowFits(t.rows[i], t.columns);
  }

  lemma StatusIsListed(t: Table, p: Plan)
    requires PlanOk(p) && Before(t, p)
    ensures Holds(OneOf(Status, p.words), Extended(t.rows, Defaults(p.added)))
  {
    DefsHave(p.added);
    forall i <- t.rows ensures Passes(OneOf(Status, p.words), t.rows[i] + Defaults(p.added)) {
      HomeEverywhere(t, p, i);
    }
  }

  lemma DefaultsPass(t: Table, p: Plan, k: Named)
    requires PlanOk(p) && k in p.checks
    ensures Holds(k.constraint, Extended(t.rows, Defaults(p.added)))
  {
    var a :| a in p.added && a.column == k.constraint.column && Passes(k.constraint, map[a.column := a.default]);
    DefaultsGive(p.added, a);
    forall i <- t.rows ensures Passes(k.constraint, t.rows[i] + Defaults(p.added)) {
      assert CellOf(t.rows[i] + Defaults(p.added), k.constraint.column) == a.default;
    }
  }

  lemma StatusStep(t: Table, p: Plan, t1: Table, t2: Table)
    requires PlanOk(p) && Before(t, p)
    requires t1 == t.(constraints := t.constraints - {CkStatus}) && t2 == Widened(t1, p.added)
    ensures Do(t2, AddConstraint(CkStatus, OneOf(Status, p.words))) ==
            Some(t2.(constraints := t.constraints[CkStatus := OneOf(Status, p.words)]))
  {
    var k := OneOf(Status, p.words);
    StatusIsListed(t, p);
    DoCheck(t2, Named(CkStatus, k));
    assert t1.constraints[CkStatus := k] == t.constraints[CkStatus := k];
  }

  lemma CheckSteps(t: Table, p: Plan, t3: Table)
    requires PlanOk(p) && Before(t, p)
    requires t3 == Table(t.columns + Defs(p.added), t.constraints[CkStatus := OneOf(Status, p.words)],
                         Extended(t.rows, Defaults(p.added)))
    ensures Run(t3, Checks(p.checks)) == Some(UpOf(t, p))
  {
    DefsHave(p.added);
    forall c <- p.checks ensures c.name !in t3.constraints && Over(c.constraint, t3.columns) && Holds(c.constraint, t3.rows) {
      DefaultsPass(t, p, c);
    }
    ChecksRun(t3, p.checks);
  }

  /** From every table valid before, the upgrade gets through all its steps: each constraint holds
      of all rows when it is created. */
  lemma UpgradeSucceeds(t: Table, p: Plan)
    requires PlanOk(p) && Before(t, p)
    ensures Run(t, Up(p)) == Some(UpOf(t, p)) && After(UpOf(t, p), p)
  {
    var k := OneOf(Status, p.words);
    var t1 := t.(constraints := t.constraints - {CkStatus});
    var t2 := Widened(t1, p.added);
    var t3 := t2.(constraints := t.constraints[CkStatus := k]);
    RunOne(t, DropConstraint(CkStatus), t1);
    AddsRun(t1, p.added);
    StatusStep(t, p, t1, t2);
    RunOne(t2, AddConstraint(CkStatus, k), t3);
    CheckSteps(t, p, t3);
    RunsInTurn(t, Up(p), [DropConstraint(CkStatus)], Adds(p.added), [AddConstraint(CkStatus, k)], Checks(p.checks),
               t1, t2, t3, UpOf(t, p));
    RunKeepsOk(t, Up(p));
    UpgradedIsAfter(t, p);
  }

  lemma RunOne(t: Table, step: Step, next: Table)
    requires Do(t, step) == Some(next)
    ensures Run(t, [step]) == Some(next)
  {
    RunFirst(t, [step], next);
  }

  lemma RunTriple(t: Table, a: seq<Step>, b: seq<Step>, c: seq<Step>, t1: Table, t2: Table, t3: Table)
    requires Run(t, a) == Some(t1) && Run(t1, b) == Some(t2) && Run(t2, c) == Some(t3)
    ensures Run(t, a + b + c) == Some(t3)
  {
    RunPair(t, a, b, t1, t2);
    RunPair(t, a + b, c, t2, t3);
  }

  /** Four groups of steps in a row. */
  lemma RunsInTurn(t: Table, script: seq<Step>, a: seq<Step>, b: seq<Step>, c: seq<Step>, d: seq<Step>,
                   t1: Table, t2: Table, t3: Table, t4: Table)
    requires script == a + b + c + d
    requires Run(t, a) == Some(t1) && Run(t1, b) == Some(t2) && Run(t2, c) == Some(t3) && Run(t3, d) == Some(t4)
    ensures Run(t, script) == Some(t4)
  {
    RunTriple(t, a, b, c, t1, t2, t3);
    RunPair(t, a + b + c, d, t3, t4);
  }

  lemma OthersFree(before: map<Name, Constraint>, columns: map<Column, ColumnDef>, p: Plan, r: map<Name, Constraint>)
    requires NamesOk(p.checks, p.unchecks) && r == before[CkStatus := OneOf(Status, p.words)] + Constraints(p.checks)
    requires AllOver(before, columns) && NoneMention(before - {CkStatus}, {Status}) && columns.Keys !! Columns(p.added)
    ensures NoneMention(r - NameSet(p.unchecks), {Status} + Columns(p.added))
  {
    forall n <- r - NameSet(p.unchecks), c <- {Status} + Columns(p.added) ensures !Mentions(r[n], c) {
      NotAChecked(p, n);
      assert n in before - {CkStatus};
      assert r[n] == before[n] && Over(before[n], columns) && !Mentions((before - {CkStatus})[n], Status);
    }
  }

  lemma NotAChecked(p: Plan, n: Name)
    requires NamesOk(p.checks, p.unchecks) && n !in NameSet(p.unchecks)
    ensures n != CkStatus && n !in Constraints(p.checks)
  {
    ConstraintsHave(p.checks);
    assert n !in {CkStatus} + CheckNames(p.checks);
  }

  lemma UpgradedIsAfter(t: Table, p: Plan)
    requires PlanOk(p) && Before(t, p) && Ok(UpOf(t, p))
    ensures After(UpOf(t, p), p)
  {
    DefsHave(p.added);
    ConstraintsHave(p.checks);
    OthersFree(t.constraints, t.columns, p, UpOf(t, p).constraints);
  }

  // ---- Downgrade ----

  predicate ResetFriendly(k: Constraint, word: Word) {
    Mentions(k, Status) ==> k.OneOf? && word in k.allowed
  }

  lemma ResetKeepsUnique(columns: seq<Column>, rows: Rows, word: Word)
    requires Holds(Unique(columns), rows) && Status !in columns
    ensures Holds(Unique(columns), ResetAll(rows, word))
  {
    forall i <- rows, j <- rows | i != j ensures !Clash(Reset(rows[i], word), Reset(rows[j], word), columns) {
      assert !Clash(rows[i], rows[j], columns);
      forall c <- columns ensures CellOf(Reset(rows[i], word), c) == CellOf(rows[i], c) {
      }
      forall c <- columns ensures CellOf(Reset(rows[j], word), c) == CellOf(rows[j], c) {
      }
    }
  }

  /** Only status constraints can notice the reset, and those allow the value it writes. */
  lemma ResetKeeps(k: Constraint, rows: Rows, word: Word)
    requires Holds(k, rows) && ResetFriendly(k, word)
    ensures Holds(k, ResetAll(rows, word))
  {
    if k.Unique? {
      ResetKeepsUnique(k.columns, rows, word);
    } else {
      forall i <- rows ensures Passes(k, Reset(rows[i], word)) {
        assert Passes(k, rows[i]);
      }
    }
  }

  lemma ConstraintUnderReset(t: Table, p: Plan, n: Name)
    requires PlanOk(p) && After(t, p) && n in t.constraints
    ensures ResetFriendly(t.constraints[n], p.home)
  {
    if n != CkStatus {
      if n in NameSet(p.unchecks) {
        assert n in CheckNames(p.checks);
        var k :| k in p.checks && k.name == n;
        assert CheckOk(p.added, k);
      } else {
        assert n in t.constraints - NameSet(p.unchecks);
        assert !Mentions((t.constraints - NameSet(p.unchecks))[n], Status);
      }
    }
  }

  lemma AllHoldAfterReset(constraints: map<Name, Constraint>, rows: Rows, word: Word)
    requires AllHold(constraints, rows) && forall n <- constraints :: ResetFriendly(constraints[n], word)
    ensures AllHold(constraints, ResetAll(rows, word))
  {
    forall n <- constraints ensures Holds(constraints[n], ResetAll(rows, word)) {
      ResetKeeps(constraints[n], rows, word);
    }
  }

  lemma ResetSucceeds(t: Table, p: Plan)
    requires PlanOk(p) && After(t, p)
    ensures Do(t, ResetStatus(p.home)) == Some(t.(rows := ResetAll(t.rows, p.home)))
  {
    forall n <- t.constraints ensures ResetFriendly(t.constraints[n], p.home) {
      ConstraintUnderReset(t, p, n);
    }
    DoReset(t, p.home);
  }

  lemma RewriteOk(t: Table, rows: Rows)
    requires RowsFit(rows, t.columns) && AllOver(t.constraints, t.columns) && AllHold(t.constraints, rows)
    ensures Rewritten(t, rows) == Some(t.(rows := rows))
  {
  }

  lemma ResetFits(rows: Rows, columns: map<Column, ColumnDef>, word: Word)
    requires RowsFit(rows, columns)
    ensures RowsFit(ResetAll(rows, word), columns)
  {
    forall i <- rows ensures RowFits(Reset(rows[i], word), columns) {
      assert RowFits(rows[i], columns);
    }
  }

  lemma DoReset(t: Table, word: Word)
    requires Ok(t) && forall n <- t.constraints :: ResetFriendly(t.constraints[n], word)
    ensures Do(t, ResetStatus(word)) == Some(t.(rows := ResetAll(t.rows, word)))
  {
    AllHoldAfterReset(t.constraints, t.rows, word);
    ResetFits(t.rows, t.columns, word);
    RewriteOk(t, ResetAll(t.rows, word));
  }

  lemma StatusReset(row: Row, columns: map<Column, ColumnDef>, home: Word, gone: set<Column>)
    requires RowFits(row, columns) && Status in columns && !columns[Status].nullable && Status !in gone
    ensures var r := Reset(row, home) - gone; Status in r && r[Status] == Word(home)
  {
  }

  lemma StatusIsHome(t: Table, p: Plan, rows: Rows)
    requires After(t, p) && rows == Without(ResetAll(t.rows, p.home), Columns(p.added)) && Status !in Columns(p.added)
    ensures forall i <- rows :: Status in rows[i] && rows[i][Status] == Word(p.home)
    ensures Holds(OneOf(Status, [p.home]), rows)
  {
    forall i <- rows ensures Status in rows[i] && rows[i][Status] == Word(p.home) {
      StatusReset(t.rows[i], t.columns, p.home, Columns(p.added));
    }
    HoldsAtHome(rows, p.home);
  }

  lemma HoldsAtHome(rows: Rows, home: Word)
    requires forall i <- rows :: Status in rows[i] && rows[i][Status] == Word(home)
    ensures Holds(OneOf(Status, [home]), rows)
  {
  }

  lemma DropStep(t: Table, p: Plan, t2: Table)
    requires PlanOk(p) && After(t, p)
    requires t2 == Table(t.columns, t.constraints - NameSet(p.unchecks), ResetAll(t.rows, p.home))
    ensures Run(t2, Drops(p.dropped)) ==
            Some(Table(t.columns - Columns(p.added), t2.constraints, Without(t2.rows, Columns(p.added))))
  {
    forall c <- p.dropped ensures c in t2.columns {
      assert c in ColumnSet(p.dropped);
    }
    DropsRun(t2, p.dropped);
  }

  lemma RestoreStep(t: Table, p: Plan, t3: Table)
    requires PlanOk(p) && After(t, p)
    requires t3 == Table(t.columns - Columns(p.added), t.constraints - NameSet(p.unchecks),
                         Without(ResetAll(t.rows, p.home), Columns(p.added)))
    ensures Do(t3, AddConstraint(CkStatus, OneOf(Status, [p.home]))) == Some(DownOf(t, p))
  {
    assert Status !in Columns(p.added);
    StatusIsHome(t, p, t3.rows);
    assert CkStatus in NameSet(p.unchecks);
    DoCheck(t3, Named(CkStatus, OneOf(Status, [p.home])));
    RestoredRows(t, p);
  }

  lemma RestoredRows(t: Table, p: Plan)
    ensures Without(ResetAll(t.rows, p.home), Columns(p.added)) == DownOf(t, p).rows
  {
  }

  /** From every table valid after, however it was written to since, the downgrade gets through and
      meets the restored constraints. */
  lemma DowngradeSucceeds(t: Table, p: Plan)
    requires PlanOk(p) && After(t, p)
    ensures Run(t, Down(p)) == Some(DownOf(t, p)) && Before(DownOf(t, p), p)
  {
    var k := OneOf(Status, [p.home]);
    var t1 := t.(rows := ResetAll(t.rows, p.home));
    var t2 := t1.(constraints := t.constraints - NameSet(p.unchecks));
    var t3 := Table(t.columns - Columns(p.added), t2.constraints, Without(t2.rows, Columns(p.added)));
    ResetSucceeds(t, p);
    RunOne(t, ResetStatus(p.home), t1);
    AllUnchecksThere(t, p);
    UnchecksRun(t1, p.unchecks);
    DropStep(t, p, t2);
    RestoreStep(t, p, t3);
    RunOne(t3, AddConstraint(CkStatus, k), DownOf(t, p));
    RunsInTurn(t, Down(p), [ResetStatus(p.home)], Unchecks(p.unchecks), Drops(p.dropped), [AddConstraint(CkStatus, k)],
               t1, t2, t3, DownOf(t, p));
    DowngradedIsBefore(t, p);
  }

  /** Nothing but the status and the added columns changes in any row. */
  lemma DowngradeKeepsRows(t: Table, p: Plan)
    ensures DownOf(t, p).rows.Keys == t.rows.Keys
    ensures forall i <- t.rows, c: Column | c != Status && c !in Columns(p.added) ::
              CellOf(DownOf(t, p).rows[i], c) == CellOf(t.rows[i], c)
  {
  }

  lemma AllUnchecksThere(t: Table, p: Plan)
    requires PlanOk(p) && After(t, p)
    ensures forall n <- p.unchecks :: n in t.constraints
  {
    forall n <- p.unchecks ensures n in t.constraints {
      assert n in NameSet(p.unchecks);
    }
  }

  lemma DowngradedIsBefore(t: Table, p: Plan)
    requires PlanOk(p) && After(t, p) && Run(t, Down(p)) == Some(DownOf(t, p))
    ensures Before(DownOf(t, p), p)
  {
    RunKeepsOk(t, Down(p));
    var r := DownOf(t, p);
    var un := NameSet(p.unchecks);
    assert Status !in Columns(p.added);
    forall n <- r.constraints - {CkStatus} ensures !Mentions(r.constraints[n], Status) {
      assert n in t.constraints - un && !Mentions((t.constraints - un)[n], Status);
    }
    forall k <- p.checks ensures k.name !in r.constraints {
      assert k.name in CheckNames(p.checks);
      assert k.name in un;
    }
  }

  /** Upgrade then downgrade gives back the table: columns, constraints and rows. */
  lemma RoundTrip(t: Table, p: Plan)
    requires PlanOk(p) && Before(t, p)
    ensures Run(t, Up(p) + Down(p)) == Some(t)
  {
    UpgradeSucceeds(t, p);
    DowngradeSucceeds(UpOf(t, p), p);
    RunPair(t, Up(p), Down(p), UpOf(t, p), DownOf(UpOf(t, p), p));
    DownUndoesUp(t, p);
  }

  lemma DownUndoesUp(t: Table, p: Plan)
    requires PlanOk(p) && Before(t, p)
    ensures DownOf(UpOf(t, p), p) == t
  {
    ColumnsReturn(t, p);
    RowsReturn(t, p);
    UncheckedConstraints(t, p);
  }

  lemma ColumnsReturn(t: Table, p: Plan)
    requires PlanOk(p) && Before(t, p)
    ensures DownOf(UpOf(t, p), p).columns == t.columns
  {
    DefsHave(p.added);
  }

  lemma RowReturns(row: Row, cells: Row, word: Word)
    requires row.Keys !! cells.Keys && Status in row && row[Status] == Word(word)
    ensures Reset(row + cells, word) - cells.Keys == row
  {
  }

  lemma RowsReturn(t: Table, p: Plan)
    requires PlanOk(p) && Before(t, p)
    ensures DownOf(UpOf(t, p), p).rows == t.rows
  {
    DefsHave(p.added);
    forall i <- t.rows ensures DownOf(UpOf(t, p), p).rows[i] == t.rows[i] {
      HomeEverywhere(t, p, i);
      assert RowFits(t.rows[i], t.columns);
      RowReturns(t.rows[i], Defaults(p.added), p.home);
    }
  }

  lemma UncheckedConstraints(t: Table, p: Plan)
    requires PlanOk(p) && Before(t, p)
    ensures DownOf(UpOf(t, p), p).constraints == t.constraints
  {
    ConstraintsHave(p.checks);
    var un := NameSet(p.unchecks);
    var r := DownOf(UpOf(t, p), p).constraints;
    forall n: Name ensures n in r <==> n in t.constraints {
      if n in un && n != CkStatus {
        assert n in CheckNames(p.checks);
      }
    }
    forall n <- r ensures r[n] == t.constraints[n] {
      if n != CkStatus {
        assert n !in un;
        forall k <- p.checks ensures k.name != n {
          assert k.name in CheckNames(p.checks);
        }
      }
    }
  }

  // ---- Campaign items: a key for every item, and its admission state ----

  function ItemAdded(): seq<Added> {
    var time := ColumnDef(true, None);
    [ Added(AdmissionState, ColumnDef(false, Some(32)), Word(Pending)),
      Added(MaterializationAttempts, ColumnDef(false, None), Number(0)),
      Added(MaterializationErrorCode, ColumnDef(true, Some(64)), Null),
      Added(SanitizedMaterializationError, ColumnDef(true, Some(500)), Null),
      Added(NextMaterializationAttemptAt, time, Null), Added(AdmittedAt, time, Null), Added(MaterializedAt, time, Null)]
  }

  function KeyAdded(): Added {
    Added(ItemKey, ColumnDef(true, Some(128)), Null)
  }

  function ItemDropped(): seq<Column> {
    [ MaterializedAt, AdmittedAt, NextMaterializationAttemptAt, SanitizedMaterializationError,
      MaterializationErrorCode, MaterializationAttempts, AdmissionState, ItemKey]
  }

  function ItemChecks(): seq<Named> {
    [ Named(CkAdmissionState, OneOf(AdmissionState, [Pending, Admitted, Materialized, Failed, Cancelled])),
      Named(CkAttempts, AtLeast(MaterializationAttempts, 0)),
      Named(UqItemKey, Unique([CampaignId, ItemKey]))]
  }

  function ItemUnchecks(): seq<Name> {
    [UqItemKey, CkAttempts, CkAdmissionState]
  }

  function ItemsUp(keyOf: Uuid -> string, ex: seq<ItemExecution>, now: int): seq<Step> {
    [AddColumn(ItemKey, ColumnDef(true, Some(128)), Null)] + [FillItemKeys(keyOf), GuardItemKeys, SetNotNull(ItemKey)]
    + (Adds(ItemAdded()) + [MarkMaterialized(ex, now)]) + Checks(ItemChecks())
  }

  function ItemsDown(): seq<Step> {
    Unchecks(ItemUnchecks()) + Drops(ItemDropped())
  }

  /** content_campaign_items as migration 020 leaves it: uuid runs, each used once. */
  ghost predicate RunsOnce(t: Table) {
    && Ok(t)
    && SelectionRunId in t.columns && CampaignId in t.columns
    && RunIds(t.rows)
    && UqSelectionRun in t.constraints && t.constraints[UqSelectionRun] == Unique([SelectionRunId])
  }

  ghost predicate RunIds(rows: Rows) {
    forall i <- rows :: var c := CellOf(rows[i], SelectionRunId); c.Id? && c.id.Valid()
  }

  /** The columns and constraints of the upgrade are not there yet. */
  ghost predicate ItemsBefore(t: Table) {
    && RunsOnce(t)
    && t.columns.Keys !! ColumnSet(ItemDropped()) && t.constraints.Keys !! NameSet(ItemUnchecks())
  }

  /** uq_content_campaign_item_executions_item_id of migration 021. */
  ghost predicate OnePerItem(ex: seq<ItemExecution>) {
    forall i, j | 0 <= i < j < |ex| :: ex[i].item != ex[j].item
  }

  lemma {:induction false} TimesExact(ex: seq<ItemExecution>, item: nat)
    requires OnePerItem(ex)
    ensures |TimesOf(ex, item)| <= 1
    ensures TimesOf(ex, item) == [] <==> forall e <- ex :: e.item != item
    ensures forall e <- ex | e.item == item :: TimesOf(ex, item) == [e.createdAt]
  {
    if ex != [] {
      TimesExact(ex[1..], item);
      assert ex == [ex[0]] + ex[1..];
      if ex[0].item == item {
        forall e <- ex[1..] ensures e.item != item {
          var j :| 0 <= j < |ex[1..]| && ex[1..][j] == e;
          assert ex[j + 1].item != ex[0].item;
        }
      }
    }
  }

  ghost predicate SameOutside(r: Row, q: Row, free: set<Column>) {
    forall c: Column | c !in free :: CellOf(r, c) == CellOf(q, c)
  }

  lemma FreeConstraint(k: Constraint, before: Rows, rows: Rows, free: set<Column>)
    requires Holds(k, before) && rows.Keys == before.Keys && forall c <- free :: !Mentions(k, c)
    requires forall i <- rows :: SameOutside(rows[i], before[i], free)
    ensures Holds(k, rows)
  {
    if k.Unique? {
      forall i <- rows, j <- rows | i != j ensures !Clash(rows[i], rows[j], k.columns) {
        assert !Clash(before[i], before[j], k.columns);
        var c :| c in k.columns && !(CellOf(before[i], c) != Null && CellOf(before[i], c) == CellOf(before[j], c));
        assert Mentions(k, c);
        assert SameOutside(rows[i], before[i], free) && SameOutside(rows[j], before[j], free);
      }
    } else {
      assert Mentions(k, k.column);
      forall i <- rows ensures Passes(k, rows[i]) {
        assert Passes(k, before[i]) && SameOutside(rows[i], before[i], free);
      }
    }
  }

  /** An update that touches only columns no constraint mentions. */
  lemma FreeUpdate(t: Table, rows: Rows, free: set<Column>)
    requires AllOver(t.constraints, t.columns) && AllHold(t.constraints, t.rows)
    requires rows.Keys == t.rows.Keys && NoneMention(t.constraints, free) && RowsFit(rows, t.columns)
    requires forall i <- rows :: SameOutside(rows[i], t.rows[i], free)
    ensures Rewritten(t, rows) == Some(t.(rows := rows))
  {
    forall n <- t.constraints ensures Holds(t.constraints[n], rows) {
      FreeConstraint(t.constraints[n], t.rows, rows, free);
    }
    RewriteOk(t, rows);
  }

  lemma NewColumnsFree(constraints: map<Name, Constraint>, columns: map<Column, ColumnDef>, free: set<Column>)
    requires AllOver(constraints, columns) && columns.Keys !! free
    ensures NoneMention(constraints, free)
  {
    forall n <- constraints, c <- free ensures !Mentions(constraints[n], c) {
      assert Over(constraints[n], columns);
    }
  }

  ghost predicate KeysOk(keyOf: Uuid -> string) {
    forall u: Uuid, v: Uuid | u.Valid() && v.Valid() :: |keyOf(u)| <= 128 && (keyOf(u) == keyOf(v) ==> u == v)
  }

  lemma SelectionKeysOk()
    ensures KeysOk(SelectionKey)
  {
    forall u: Uuid, v: Uuid | u.Valid() && v.Valid()
      ensures |SelectionKey(u)| <= 128 && (SelectionKey(u) == SelectionKey(v) ==> u == v)
    {
      var prefix := "selection-run:";
      var s, t := prefix + u.Text(), prefix + v.Text();
      assert |prefix| == 14 && s[14..] == u.Text() && t[14..] == v.Text();
      if s == t {
        UuidTextInjective(u, v);
      }
    }
  }

  /** The keys of two items differ, whatever their campaigns. */
  lemma KeysDiffer(keyOf: Uuid -> string, t: Table, i: nat, j: nat)
    requires KeysOk(keyOf) && RunsOnce(t) && i in t.rows && j in t.rows && i != j
    ensures KeyText(t.rows[i], keyOf) != KeyText(t.rows[j], keyOf)
  {
    assert Holds(t.constraints[UqSelectionRun], t.rows);
    assert !Clash(t.rows[i], t.rows[j], [SelectionRunId]);
    assert CellOf(t.rows[i], SelectionRunId) != CellOf(t.rows[j], SelectionRunId);
  }

  lemma KeyIsText(keyOf: Uuid -> string, row: Row)
    requires KeysOk(keyOf) && var c := CellOf(row, SelectionRunId); c.Id? && c.id.Valid()
    ensures KeyText(row, keyOf).Text? && |KeyText(row, keyOf).text| <= 128
  {
  }

  lemma ItemColumns(cs: seq<Column>, added: seq<Added>)
    requires |cs| == 8 && |added| == 7 && cs[7] == ItemKey && forall i | 0 <= i < 7 :: added[6 - i].column == cs[i]
    ensures ColumnSet(cs) == {ItemKey} + Columns(added)
  {
    forall c ensures c in ColumnSet(cs) <==> c in {ItemKey} + Columns(added) {
      if c in cs {
        var i :| 0 <= i < 8 && cs[i] == c;
        assert i < 7 ==> added[6 - i] in added;
      }
      if c in Columns(added) {
        var a :| a in added && a.column == c;
        var i :| 0 <= i < 7 && added[i] == a;
        assert cs[6 - i] == c;
      }
    }
  }

  ghost predicate ItemAddedOk(added: seq<Added>) {
    && |added| == 7 && DistinctColumns(added)
    && added[0] == Added(AdmissionState, ColumnDef(false, Some(32)), Word(Pending))
    && added[1] == Added(MaterializationAttempts, ColumnDef(false, None), Number(0))
    && added[6] == Added(MaterializedAt, ColumnDef(true, None), Null)
    && forall a <- added ::
         CellFits(a.default, a.def) && a.column != ItemKey && a.column != CampaignId && a.column != SelectionRunId
  }

  lemma ItemAddedFits(added: seq<Added>)
    requires added == ItemAdded()
    ensures forall a <- added ::
              CellFits(a.default, a.def) && a.column != ItemKey && a.column != CampaignId && a.column != SelectionRunId
  {
  }

  lemma ItemAddedDistinct(added: seq<Added>)
    requires added == ItemAdded()
    ensures DistinctColumns(added)
  {
  }

  lemma ItemAddedShape(added: seq<Added>)
    requires added == ItemAdded()
    ensures ItemAddedOk(added)
  {
    ItemAddedFits(added);
    ItemAddedDistinct(added);
  }

  lemma ItemDroppedOk(cs: seq<Column>)
    requires cs == ItemDropped()
    ensures forall i, j | 0 <= i < j < |cs| :: cs[i] != cs[j]
  {
  }

  ghost function KeyedTable(t: Table, keyOf: Uuid -> string): Table {
    Table(t.columns[ItemKey := ColumnDef(false, Some(128))], t.constraints, Keyed(t.rows, keyOf))
  }

  lemma KeyedRow(keyOf: Uuid -> string, row: Row, wide: Row, columns: map<Column, ColumnDef>)
    requires KeysOk(keyOf)
    requires RowFits(row, columns) && ItemKey !in columns && wide == row + map[ItemKey := Null]
    requires var c := CellOf(row, SelectionRunId); c.Id? && c.id.Valid()
    ensures WithKey(wide, keyOf) == WithKey(row, keyOf) && SameOutside(WithKey(row, keyOf), wide, {ItemKey})
    ensures RowFits(WithKey(row, keyOf), columns[ItemKey := ColumnDef(true, Some(128))])
  {
    KeyIsText(keyOf, row);
    assert CellOf(wide, SelectionRunId) == CellOf(row, SelectionRunId);
  }

  lemma FillRows(keyOf: Uuid -> string, rows: Rows, wide: Rows, columns: map<Column, ColumnDef>)
    requires KeysOk(keyOf) && RowsFit(rows, columns)
    requires RunIds(rows) && ItemKey !in columns && wide == Extended(rows, map[ItemKey := Null])
    ensures forall i <- rows ::
              && WithKey(wide[i], keyOf) == WithKey(rows[i], keyOf)
              && RowFits(WithKey(rows[i], keyOf), columns[ItemKey := ColumnDef(true, Some(128))])
              && SameOutside(WithKey(rows[i], keyOf), wide[i], {ItemKey})
  {
    forall i <- rows
      ensures && WithKey(wide[i], keyOf) == WithKey(rows[i], keyOf)
              && RowFits(WithKey(rows[i], keyOf), columns[ItemKey := ColumnDef(true, Some(128))])
              && SameOutside(WithKey(rows[i], keyOf), wide[i], {ItemKey})
    {
      assert RowFits(rows[i], columns);
      KeyedRow(keyOf, rows[i], wide[i], columns);
    }
  }

  /** Keying the widened rows is keying the old ones; the results fit and differ in the key alone. */
  lemma FillMaps(keyOf: Uuid -> string, rows: Rows, wide: Rows, columns: map<Column, ColumnDef>)
    requires wide.Keys == rows.Keys
    requires forall i <- rows ::
               && WithKey(wide[i], keyOf) == WithKey(rows[i], keyOf)
               && RowFits(WithKey(rows[i], keyOf), columns)
               && SameOutside(WithKey(rows[i], keyOf), wide[i], {ItemKey})
    ensures Keyed(wide, keyOf) == Keyed(rows, keyOf) && RowsFit(Keyed(wide, keyOf), columns)
    ensures forall i <- rows :: SameOutside(Keyed(wide, keyOf)[i], wide[i], {ItemKey})
  {
    var r := Keyed(wide, keyOf);
    forall i <- r ensures r[i] == WithKey(rows[i], keyOf) && RowFits(r[i], columns) {
    }
  }

  lemma FillAll(keyOf: Uuid -> string, rows: Rows, wide: Rows, columns: map<Column, ColumnDef>, widened: map<Column, ColumnDef>)
    requires KeysOk(keyOf) && RowsFit(rows, columns) && RunIds(rows) && ItemKey !in columns
    requires wide == Extended(rows, map[ItemKey := Null]) && widened == columns[ItemKey := ColumnDef(true, Some(128))]
    ensures Keyed(wide, keyOf) == Keyed(rows, keyOf) && RowsFit(Keyed(wide, keyOf), widened)
    ensures forall i <- rows :: SameOutside(Keyed(wide, keyOf)[i], wide[i], {ItemKey})
  {
    FillRows(keyOf, rows, wide, columns);
    FillMaps(keyOf, rows, wide, widened);
  }

  lemma FillStep(keyOf: Uuid -> string, t: Table, t1: Table)
    requires KeysOk(keyOf) && RunIds(t.rows) && RowsFit(t.rows, t.columns) && AllOver(t.constraints, t.columns)
    requires ItemKey !in t.columns && AllOver(t1.constraints, t1.columns) && AllHold(t1.constraints, t1.rows)
    requires t1 == Table(t.columns[ItemKey := ColumnDef(true, Some(128))], t.constraints, Extended(t.rows, map[ItemKey := Null]))
    ensures Rewritten(t1, Keyed(t1.rows, keyOf)) == Some(t1.(rows := Keyed(t.rows, keyOf)))
  {
    NewColumnsFree(t.constraints, t.columns, {ItemKey});
    FillAll(keyOf, t.rows, t1.rows, t.columns, t1.columns);
    FreeUpdate(t1, Keyed(t1.rows, keyOf), {ItemKey});
  }

  lemma DoFill(keyOf: Uuid -> string, t: Table, next: Table)
    requires Rewritten(t, Keyed(t.rows, keyOf)) == Some(next)
    ensures Do(t, FillItemKeys(keyOf)) == Some(next)
  {
  }

  /** The guard block never raises. */
  lemma GuardStep(keyOf: Uuid -> string, t: Table, t2: Table)
    requires KeysOk(keyOf)
    requires RunsOnce(t) && t2.rows == Keyed(t.rows, keyOf)
    ensures Do(t2, GuardItemKeys) == Some(t2)
  {
    forall i <- t2.rows ensures CellOf(t2.rows[i], ItemKey) != Null {
      KeyIsText(keyOf, t.rows[i]);
    }
    forall i <- t2.rows, j <- t2.rows | i != j ensures !SameGroup(t2.rows[i], t2.rows[j], [CampaignId, ItemKey]) {
      KeysDiffer(keyOf, t, i, j);
      assert ItemKey in [CampaignId, ItemKey];
      assert CellOf(t2.rows[i], ItemKey) == KeyText(t.rows[i], keyOf) && CellOf(t2.rows[j], ItemKey) == KeyText(t.rows[j], keyOf);
    }
  }

  lemma KeysSucceed(keyOf: Uuid -> string, t: Table)
    requires KeysOk(keyOf) && RunsOnce(t) && ItemKey !in t.columns
    ensures Run(t, [AddColumn(ItemKey, ColumnDef(true, Some(128)), Null)]
                   + [FillItemKeys(keyOf), GuardItemKeys, SetNotNull(ItemKey)])
            == Some(KeyedTable(t, keyOf))
  {
    var add := AddColumn(ItemKey, ColumnDef(true, Some(128)), Null);
    var rest := [FillItemKeys(keyOf), GuardItemKeys, SetNotNull(ItemKey)];
    var t1 := Widened(t, [KeyAdded()]);
    var t2 := t1.(rows := Keyed(t.rows, keyOf));
    DoAdd(t, KeyAdded());
    DoKeepsOk(t, add);
    OneAdded(KeyAdded());
    RunOne(t, add, t1);
    FillStep(keyOf, t, t1);
    DoFill(keyOf, t1, t2);
    GuardStep(keyOf, t, t2);
    NotNullStep(keyOf, t, t2);
    RunThree(t1, rest, t2, t2, KeyedTable(t, keyOf));
    RunPair(t, [add], rest, t1, KeyedTable(t, keyOf));
  }

  lemma RunThree(t: Table, script: seq<Step>, t1: Table, t2: Table, t3: Table)
    requires |script| == 3 && Do(t, script[0]) == Some(t1) && Do(t1, script[1]) == Some(t2) && Do(t2, script[2]) == Some(t3)
    ensures Run(t, script) == Some(t3)
  {
    RunFirst(t, script, t1);
    RunFirst(t1, script[1..], t2);
    RunOne(t2, script[2], t3);
    assert script[1..][1..] == [script[2]];
  }

  lemma NotNullStep(keyOf: Uuid -> string, t: Table, t2: Table)
    requires KeysOk(keyOf)
    requires RunsOnce(t) && t2 == Table(t.columns[ItemKey := ColumnDef(true, Some(128))], t.constraints, Keyed(t.rows, keyOf))
    ensures Do(t2, SetNotNull(ItemKey)) == Some(KeyedTable(t, keyOf))
  {
    forall i <- t2.rows ensures CellOf(t2.rows[i], ItemKey) != Null {
      KeyIsText(keyOf, t.rows[i]);
    }
    NotNull(t2, ItemKey, ColumnDef(true, Some(128)));
    assert t2.columns[ItemKey := ColumnDef(false, Some(128))] == KeyedTable(t, keyOf).columns;
  }

  lemma NotNull(t: Table, c: Column, def: ColumnDef)
    requires c in t.columns && t.columns[c] == def && forall i <- t.rows :: CellOf(t.rows[i], c) != Null
    ensures Do(t, SetNotNull(c)) == Some(t.(columns := t.columns[c := def.(nullable := false)]))
  {
  }

  // ---- Admission state ----

  function UpRows(rows: Rows, keyOf: Uuid -> string, cells: Row, ex: seq<ItemExecution>, now: int): Rows {
    MarkedAll(Extended(Keyed(rows, keyOf), cells), ex, now)
  }

  ghost function ItemsUpOf(t: Table, keyOf: Uuid -> string, added: seq<Added>, checks: seq<Named>,
                           ex: seq<ItemExecution>, now: int): Table {
    Table(t.columns[ItemKey := ColumnDef(false, Some(128))] + Defs(added),
          t.constraints + Constraints(checks), UpRows(t.rows, keyOf, Defaults(added), ex, now))
  }

  lemma ItemDefaults(added: seq<Added>)
    requires ItemAddedOk(added)
    ensures var d := Defaults(added);
            && AdmissionState in d && d[AdmissionState] == Word(Pending)
            && MaterializationAttempts in d && d[MaterializationAttempts] == Number(0)
            && MaterializedAt in d && d[MaterializedAt] == Null
            && ItemKey !in d && CampaignId !in d && SelectionRunId !in d
    ensures var d := Defs(added);
            && AdmissionState in d && d[AdmissionState] == ColumnDef(false, Some(32))
            && MaterializedAt in d && d[MaterializedAt] == ColumnDef(true, None)
  {
    assert added[0] in added && added[1] in added && added[6] in added;
    DefaultsGive(added, added[0]);
    DefaultsGive(added, added[1]);
    DefaultsGive(added, added[6]);
    DefsGive(added, added[0]);
    DefsGive(added, added[6]);
    DefsHave(added);
  }

  lemma {:induction false} DefsGive(list: seq<Added>, a: Added)
    requires a in list && DistinctColumns(list)
    ensures a.column in Defs(list) && Defs(list)[a.column] == a.def
  {
    if a != list[0] {
      var i :| 0 < i < |list| && list[i] == a;
      assert list[1..][i - 1] == a;
      DefsGive(list[1..], a);
    }
  }

  lemma UpRowCells(keyOf: Uuid -> string, row: Row, cells: Row, times: seq<int>, now: int)
    requires |times| <= 1 && ItemKey !in cells
    requires AdmissionState in cells && cells[AdmissionState] == Word(Pending)
    requires MaterializationAttempts in cells && cells[MaterializationAttempts] == Number(0)
    requires MaterializedAt in cells && cells[MaterializedAt] == Null
    ensures var r := Marked(WithKey(row, keyOf) + cells, times, now);
            && CellOf(r, AdmissionState) == Word(if times == [] then Pending else Materialized)
            && CellOf(r, MaterializationAttempts) == Number(0)
            && CellOf(r, MaterializedAt) == (if times == [] then Null else Time(times[0]))
            && CellOf(r, ItemKey) == KeyText(row, keyOf)
  {
  }

  /** After the upgrade an item is MATERIALIZED exactly when an execution refers to it, and then at
      the creation time of that execution; every other item is PENDING. */
  lemma MaterializedIff(keyOf: Uuid -> string, rows: Rows, added: seq<Added>, ex: seq<ItemExecution>, now: int, i: nat)
    requires i in rows && OnePerItem(ex) && added == ItemAdded()
    ensures var row := UpRows(rows, keyOf, Defaults(added), ex, now)[i];
            && (CellOf(row, AdmissionState) == Word(Materialized) <==> exists e <- ex :: e.item == i)
            && (forall e <- ex | e.item == i :: CellOf(row, MaterializedAt) == Time(e.createdAt))
            && ((forall e <- ex :: e.item != i) ==>
                  CellOf(row, AdmissionState) == Word(Pending) && CellOf(row, MaterializedAt) == Null)
            && CellOf(row, ItemKey) == KeyText(rows[i], keyOf)
  {
    ItemAddedShape(added);
    UpRowMeaning(keyOf, rows, added, ex, now, i);
    TimesExact(ex, i);
  }

  lemma UpRowMeaning(keyOf: Uuid -> string, rows: Rows, added: seq<Added>, ex: seq<ItemExecution>, now: int, i: nat)
    requires i in rows && OnePerItem(ex) && ItemAddedOk(added)
    ensures var row, times := UpRows(rows, keyOf, Defaults(added), ex, now)[i], TimesOf(ex, i);
            && CellOf(row, AdmissionState) == Word(if times == [] then Pending else Materialized)
            && CellOf(row, MaterializationAttempts) == Number(0)
            && CellOf(row, MaterializedAt) == (if times == [] then Null else Time(times[0]))
            && CellOf(row, ItemKey) == KeyText(rows[i], keyOf)
  {
    TimesExact(ex, i);
    ItemDefaults(added);
    UpRowCells(keyOf, rows[i], Defaults(added), TimesOf(ex, i), now);
  }

  // ---- The item upgrade gets through ----

  lemma MarkedRow(row: Row, times: seq<int>, now: int, columns: map<Column, ColumnDef>)
    requires RowFits(row, columns)
    requires AdmissionState in columns && MaterializedAt in columns
    ensures RowFits(Marked(row, times, now), columns)
    ensures SameOutside(Marked(row, times, now), row, {AdmissionState, MaterializedAt})
  {
  }

  lemma MarkStep(t: Table, ex: seq<ItemExecution>, now: int)
    requires Ok(t) && OnePerItem(ex) && AdmissionState in t.columns && MaterializedAt in t.columns
    requires NoneMention(t.constraints, {AdmissionState, MaterializedAt})
    ensures Do(t, MarkMaterialized(ex, now)) == Some(t.(rows := MarkedAll(t.rows, ex, now)))
  {
    var rows := MarkedAll(t.rows, ex, now);
    forall i <- t.rows ensures |TimesOf(ex, i)| <= 1 {
      TimesExact(ex, i);
    }
    forall i <- t.rows
      ensures RowFits(rows[i], t.columns) && SameOutside(rows[i], t.rows[i], {AdmissionState, MaterializedAt})
    {
      assert RowFits(t.rows[i], t.columns);
      MarkedRow(t.rows[i], TimesOf(ex, i), now, t.columns);
    }
    FreeUpdate(t, rows, {AdmissionState, MaterializedAt});
  }

  ghost predicate ItemChecksOk(checks: seq<Named>, words: seq<Word>) {
    && checks == [Named(CkAdmissionState, OneOf(AdmissionState, words)),
                  Named(CkAttempts, AtLeast(MaterializationAttempts, 0)),
                  Named(UqItemKey, Unique([CampaignId, ItemKey]))]
    && Pending in words && Materialized in words
  }

  lemma ItemCheckHolds(keyOf: Uuid -> string, t: Table, added: seq<Added>, ex: seq<ItemExecution>, now: int,
                       words: seq<Word>, rows: Rows)
    requires KeysOk(keyOf) && RunsOnce(t) && OnePerItem(ex) && ItemAddedOk(added)
    requires Pending in words && Materialized in words && rows == UpRows(t.rows, keyOf, Defaults(added), ex, now)
    ensures Holds(OneOf(AdmissionState, words), rows) && Holds(AtLeast(MaterializationAttempts, 0), rows)
    ensures Holds(Unique([CampaignId, ItemKey]), rows)
  {
    forall i <- rows
      ensures Passes(OneOf(AdmissionState, words), rows[i]) && Passes(AtLeast(MaterializationAttempts, 0), rows[i])
      ensures CellOf(rows[i], ItemKey) == KeyText(t.rows[i], keyOf)
    {
      UpRowMeaning(keyOf, t.rows, added, ex, now, i);
    }
    forall i <- rows, j <- rows | i != j ensures !Clash(rows[i], rows[j], [CampaignId, ItemKey]) {
      KeysDiffer(keyOf, t, i, j);
      assert ItemKey in [CampaignId, ItemKey];
    }
  }

  lemma ItemChecksRun(t: Table, checks: seq<Named>, words: seq<Word>)
    requires ItemChecksOk(checks, words)
    requires CkAdmissionState !in t.constraints && CkAttempts !in t.constraints && UqItemKey !in t.constraints
    requires AdmissionState in t.columns && MaterializationAttempts in t.columns
    requires CampaignId in t.columns && ItemKey in t.columns
    requires Holds(OneOf(AdmissionState, words), t.rows) && Holds(AtLeast(MaterializationAttempts, 0), t.rows)
    requires Holds(Unique([CampaignId, ItemKey]), t.rows)
    ensures Run(t, Checks(checks)) == Some(t.(constraints := t.constraints + Constraints(checks)))
  {
    ChecksRun(t, checks);
  }

  lemma MarkWidened(t: Table, added: seq<Added>, ex: seq<ItemExecution>, now: int, wide: Table)
    requires Ok(t) && OnePerItem(ex) && ItemAddedOk(added) && t.columns.Keys !! Columns(added)
    requires wide == Widened(t, added) && Ok(wide)
    ensures Do(wide, MarkMaterialized(ex, now)) == Some(wide.(rows := MarkedAll(wide.rows, ex, now)))
  {
    assert {AdmissionState, MaterializedAt} <= wide.columns.Keys && {AdmissionState, MaterializedAt} <= Columns(added) by {
      ItemDefaults(added);
      DefsHave(added);
    }
    assert NoneMention(wide.constraints, {AdmissionState, MaterializedAt}) by {
      NewColumnsFree(t.constraints, t.columns, Columns(added));
    }
    MarkStep(wide, ex, now);
  }

  lemma AddsAndMark(t: Table, added: seq<Added>, ex: seq<ItemExecution>, now: int)
    requires Ok(t) && OnePerItem(ex) && ItemAddedOk(added) && t.columns.Keys !! Columns(added)
    ensures Run(t, Adds(added) + [MarkMaterialized(ex, now)]) ==
            Some(Table(t.columns + Defs(added), t.constraints, MarkedAll(Extended(t.rows, Defaults(added)), ex, now)))
  {
    var wide := Widened(t, added);
    var marked := wide.(rows := MarkedAll(wide.rows, ex, now));
    AddsRun(t, added);
    RunKeepsOk(t, Adds(added));
    MarkWidened(t, added, ex, now, wide);
    RunOne(wide, MarkMaterialized(ex, now), marked);
    RunPair(t, Adds(added), [MarkMaterialized(ex, now)], wide, marked);
  }

  /** From every table valid before, with the executions unique per item, the upgrade of the items
      gets through: the guard does not raise, the subquery has one row, and every constraint holds
      when it is created. */
  lemma ItemUpgradeSucceeds(keyOf: Uuid -> string, t: Table, added: seq<Added>, checks: seq<Named>, words: seq<Word>,
                            ex: seq<ItemExecution>, now: int, script: seq<Step>)
    requires KeysOk(keyOf) && RunsOnce(t) && OnePerItem(ex) && ItemAddedOk(added) && ItemChecksOk(checks, words)
    requires t.columns.Keys !! {ItemKey} + Columns(added)
    requires CkAdmissionState !in t.constraints && CkAttempts !in t.constraints && UqItemKey !in t.constraints
    requires script == [AddColumn(ItemKey, ColumnDef(true, Some(128)), Null)]
                       + [FillItemKeys(keyOf), GuardItemKeys, SetNotNull(ItemKey)]
                       + (Adds(added) + [MarkMaterialized(ex, now)]) + Checks(checks)
    ensures Run(t, script) == Some(ItemsUpOf(t, keyOf, added, checks, ex, now))
  {
    var a := [AddColumn(ItemKey, ColumnDef(true, Some(128)), Null)] + [FillItemKeys(keyOf), GuardItemKeys, SetNotNull(ItemKey)];
    var b := Adds(added) + [MarkMaterialized(ex, now)];
    var t1 := KeyedTable(t, keyOf);
    var r := ItemsUpOf(t, keyOf, added, checks, ex, now);
    var t2 := r.(constraints := t.constraints);
    KeysSucceed(keyOf, t);
    RunKeepsOk(t, a);
    AddsAndMark(t1, added, ex, now);
    assert Run(t1, b) == Some(t2);
    ItemDefaults(added);
    DefsHave(added);
    assert added[0] in added && added[1] in added;
    ItemCheckHolds(keyOf, t, added, ex, now, words, t2.rows);
    ItemChecksRun(t2, checks, words);
    RunPair(t, a, b, t1, t2);
    RunPair(t, a + b, Checks(checks), t2, r);
    assert script == a + b + Checks(checks);
  }

  // ---- The whole migration ----

  lemma NoLists(t: Table, dropped: seq<Column>, unchecks: seq<Name>)
    requires t.columns.Keys !! ColumnSet(dropped) && t.constraints.Keys !! NameSet(unchecks)
    ensures forall c <- dropped :: c !in t.columns
    ensures forall n <- unchecks :: n !in t.constraints
  {
    forall c <- dropped ensures c !in t.columns {
      assert c in ColumnSet(dropped);
    }
    forall n <- unchecks ensures n !in t.constraints {
      assert n in NameSet(unchecks);
    }
  }

  lemma ItemLists(added: seq<Added>, dropped: seq<Column>, unchecks: seq<Name>, checks: seq<Named>, words: seq<Word>)
    requires added == ItemAdded() && dropped == ItemDropped() && unchecks == ItemUnchecks() && checks == ItemChecks()
    requires words == [Pending, Admitted, Materialized, Failed, Cancelled]
    ensures ColumnSet(dropped) == {ItemKey} + Columns(added) && ItemChecksOk(checks, words)
    ensures unchecks[0] == UqItemKey && unchecks[1] == CkAttempts && unchecks[2] == CkAdmissionState
  {
    ItemColumns(dropped, added);
    assert words[0] == Pending && words[2] == Materialized;
  }

  lemma ItemsUpgrade(t: Table, ex: seq<ItemExecution>, now: int, added: seq<Added>, checks: seq<Named>)
    requires ItemsBefore(t) && OnePerItem(ex) && added == ItemAdded() && checks == ItemChecks()
    ensures Run(t, ItemsUp(SelectionKey, ex, now)) == Some(ItemsUpOf(t, SelectionKey, added, checks, ex, now))
  {
    SelectionKeysOk();
    ItemAddedShape(added);
    ItemLists(added, ItemDropped(), ItemUnchecks(), checks, [Pending, Admitted, Materialized, Failed, Cancelled]);
    NoLists(t, ItemDropped(), ItemUnchecks());
    assert ItemUnchecks()[0] in ItemUnchecks() && ItemUnchecks()[1] in ItemUnchecks() && ItemUnchecks()[2] in ItemUnchecks();
    ItemUpgradeSucceeds(SelectionKey, t, added, checks, [Pending, Admitted, Materialized, Failed, Cancelled], ex, now,
                        ItemsUp(SelectionKey, ex, now));
  }

  /** The items as the upgrade leaves them, with whatever rows were written since. */
  ghost predicate ItemsAfter(t: Table, dropped: seq<Column>, unchecks: seq<Name>) {
    && Ok(t)
    && ColumnSet(dropped) <= t.columns.Keys && NameSet(unchecks) <= t.constraints.Keys
    && NoneMention(t.constraints - NameSet(unchecks), ColumnSet(dropped))
  }

  ghost function ItemsDownOf(t: Table, dropped: seq<Column>, unchecks: seq<Name>): Table {
    Table(t.columns - ColumnSet(dropped), t.constraints - NameSet(unchecks), Without(t.rows, ColumnSet(dropped)))
  }

  lemma ItemDowngradeSucceeds(t: Table, dropped: seq<Column>, unchecks: seq<Name>)
    requires ItemsAfter(t, dropped, unchecks)
    requires forall i, j | 0 <= i < j < |dropped| :: dropped[i] != dropped[j]
    requires forall i, j | 0 <= i < j < |unchecks| :: unchecks[i] != unchecks[j]
    ensures Run(t, Unchecks(unchecks) + Drops(dropped)) == Some(ItemsDownOf(t, dropped, unchecks))
    ensures Ok(ItemsDownOf(t, dropped, unchecks))
  {
    forall n <- unchecks ensures n in t.constraints {
      assert n in NameSet(unchecks);
    }
    forall c <- dropped ensures c in t.columns {
      assert c in ColumnSet(dropped);
    }
    var t1 := t.(constraints := t.constraints - NameSet(unchecks));
    UnchecksRun(t, unchecks);
    DropsRun(t1, dropped);
    RunPair(t, Unchecks(unchecks), Drops(dropped), t1, ItemsDownOf(t, dropped, unchecks));
    RunKeepsOk(t, Unchecks(unchecks) + Drops(dropped));
  }

  lemma ItemsDowngrade(t: Table)
    requires ItemsAfter(t, ItemDropped(), ItemUnchecks())
    ensures Run(t, ItemsDown()) == Some(ItemsDownOf(t, ItemDropped(), ItemUnchecks()))
    ensures Ok(ItemsDownOf(t, ItemDropped(), ItemUnchecks()))
  {
    ItemDroppedOk(ItemDropped());
    ItemDowngradeSucceeds(t, ItemDropped(), ItemUnchecks());
  }

  lemma UpRowsReturn(keyOf: Uuid -> string, row: Row, cells: Row, times: seq<int>, now: int, gone: set<Column>)
    requires row.Keys !! gone && gone == {ItemKey} + cells.Keys && AdmissionState in gone && MaterializedAt in gone
    ensures Marked(WithKey(row, keyOf) + cells, times, now) - gone == row
  {
  }

  lemma ItemRowsReturn(rows: Rows, columns: map<Column, ColumnDef>, ex: seq<ItemExecution>, now: int, cells: Row,
                       gone: set<Column>)
    requires RowsFit(rows, columns) && columns.Keys !! gone
    requires gone == {ItemKey} + cells.Keys && AdmissionState in gone && MaterializedAt in gone
    ensures Without(UpRows(rows, SelectionKey, cells, ex, now), gone) == rows
  {
    forall i <- rows ensures Marked(WithKey(rows[i], SelectionKey) + cells, TimesOf(ex, i), now) - gone == rows[i] {
      assert RowFits(rows[i], columns);
      UpRowsReturn(SelectionKey, rows[i], cells, TimesOf(ex, i), now, gone);
    }
  }

  lemma ItemColumnsReturn(columns: map<Column, ColumnDef>, key: ColumnDef, defs: map<Column, ColumnDef>, gone: set<Column>)
    requires columns.Keys !! gone && gone == {ItemKey} + defs.Keys
    ensures (columns[ItemKey := key] + defs) - gone == columns
  {
  }

  lemma MapsReturn<K, V>(m: map<K, V>, more: map<K, V>, gone: set<K>)
    requires m.Keys !! gone && more.Keys <= gone
    ensures (m + more) - gone == m
  {
  }

  /** What the four lists of the item migration have to do with each other. */
  ghost predicate ItemListsOk(added: seq<Added>, checks: seq<Named>, dropped: seq<Column>, unchecks: seq<Name>) {
    && DistinctNames(checks) && NameSet(unchecks) == CheckNames(checks)
    && ColumnSet(dropped) == {ItemKey} + Columns(added)
    && AdmissionState in Columns(added) && MaterializedAt in Columns(added)
  }

  /** Downgrading the upgraded items gives them back. */
  lemma ItemsRoundTrip(t: Table, ex: seq<ItemExecution>, now: int, added: seq<Added>, checks: seq<Named>,
                       dropped: seq<Column>, unchecks: seq<Name>)
    requires RowsFit(t.rows, t.columns) && ItemListsOk(added, checks, dropped, unchecks)
    requires t.columns.Keys !! ColumnSet(dropped) && t.constraints.Keys !! NameSet(unchecks)
    ensures ItemsDownOf(ItemsUpOf(t, SelectionKey, added, checks, ex, now), dropped, unchecks) == t
  {
    DefsHave(added);
    ConstraintsHave(checks);
    ItemColumnsReturn(t.columns, ColumnDef(false, Some(128)), Defs(added), ColumnSet(dropped));
    MapsReturn(t.constraints, Constraints(checks), NameSet(unchecks));
    ItemRowsReturn(t.rows, t.columns, ex, now, Defaults(added), ColumnSet(dropped));
  }

  ghost predicate DatabaseBefore(c: Table, i: Table, e: Table, ex: seq<ItemExecution>) {
    Before(c, CampaignPlan()) && ItemsBefore(i) && Before(e, ExecutionPlan()) && OnePerItem(ex)
  }

  ghost predicate DatabaseAfter(c: Table, i: Table, e: Table) {
    After(c, CampaignPlan()) && ItemsAfter(i, ItemDropped(), ItemUnchecks()) && After(e, ExecutionPlan())
  }

  /** No script of the upgrade fails on a database that 020 and 021 allow. */
  lemma ScriptsUpgrade(c: Table, i: Table, e: Table, ex: seq<ItemExecution>, now: int)
    requires DatabaseBefore(c, i, e, ex)
    ensures Run(c, Up(CampaignPlan())) == Some(UpOf(c, CampaignPlan()))
    ensures Run(i, ItemsUp(SelectionKey, ex, now)) == Some(ItemsUpOf(i, SelectionKey, ItemAdded(), ItemChecks(), ex, now))
    ensures Run(e, Up(ExecutionPlan())) == Some(UpOf(e, ExecutionPlan()))
  {
    CampaignPlanOk(CampaignPlan());
    UpgradeSucceeds(c, CampaignPlan());
    ItemsUpgrade(i, ex, now, ItemAdded(), ItemChecks());
    ExecutionPlanOk();
    UpgradeSucceeds(e, ExecutionPlan());
  }

  /** No script of the downgrade fails on a database as the upgrade leaves it. */
  lemma ScriptsDowngrade(c: Table, i: Table, e: Table)
    requires DatabaseAfter(c, i, e)
    ensures Run(c, Down(CampaignPlan())) == Some(DownOf(c, CampaignPlan()))
    ensures Run(i, ItemsDown()) == Some(ItemsDownOf(i, ItemDropped(), ItemUnchecks()))
    ensures Run(e, Down(ExecutionPlan())) == Some(DownOf(e, ExecutionPlan()))
  {
    CampaignPlanOk(CampaignPlan());
    DowngradeSucceeds(c, CampaignPlan());
    ItemsDowngrade(i);
    ExecutionPlanOk();
    DowngradeSucceeds(e, ExecutionPlan());
  }

  /** One connection to the database: the three altered tables, and the executions the backfill reads. */
  class Database {
    var campaigns: Table
    var items: Table
    var executions: Table
    const itemExecutions: seq<ItemExecution>

    constructor (campaigns: Table, items: Table, executions: Table, itemExecutions: seq<ItemExecution>)
      ensures this.campaigns == campaigns && this.items == items && this.executions == executions
      ensures this.itemExecutions == itemExecutions
    {
      this.campaigns, this.items, this.executions, this.itemExecutions := campaigns, items, executions, itemExecutions;
    }

    /** Issue the statements on one table in order, up to the first that fails. */
    method Issue(t: Table, script: seq<Step>) returns (r: Option<Table>)
      ensures r == Run(t, script)
    {
      var now := t;
      for i := 0 to |script|
        invariant Run(t, script) == Run(now, script[i..])
      {
        var next := Do(now, script[i]);
        if next.None? {
          return None;
        }
        assert script[i..][1..] == script[i + 1..];
        now := next.value;
      }
      r := Some(now);
    }

    /** A failing statement rolls all three tables back. */
    method Upgrade(now: int) returns (ok: bool)
      modifies this
      ensures var c, i, e := Run(old(campaigns), Up(CampaignPlan())),
                             Run(old(items), ItemsUp(SelectionKey, itemExecutions, now)),
                             Run(old(executions), Up(ExecutionPlan()));
              if c.Some? && i.Some? && e.Some?
              then ok && campaigns == c.value && items == i.value && executions == e.value
              else !ok && unchanged(this)
      ensures old(DatabaseBefore(campaigns, items, executions, itemExecutions)) ==> ok
    {
      if DatabaseBefore(campaigns, items, executions, itemExecutions) {
        ScriptsUpgrade(campaigns, items, executions, itemExecutions, now);
      }
      var c := Issue(campaigns, Up(CampaignPlan()));
      if c.None? {
        return false;
      }
      var i := Issue(items, ItemsUp(SelectionKey, itemExecutions, now));
      if i.None? {
        return false;
      }
      var e := Issue(executions, Up(ExecutionPlan()));
      if e.None? {
        return false;
      }
      campaigns, items, executions := c.value, i.value, e.value;
      ok := true;
    }

    method Downgrade() returns (ok: bool)
      modifies this
      ensures var c, i, e := Run(old(campaigns), Down(CampaignPlan())), Run(old(items), ItemsDown()),
                             Run(old(executions), Down(ExecutionPlan()));
              if c.Some? && i.Some? && e.Some?
              then ok && campaigns == c.value && items == i.value && executions == e.value
              else !ok && unchanged(this)
      ensures old(DatabaseAfter(campaigns, items, executions)) ==> ok
    {
      if DatabaseAfter(campaigns, items, executions) {
        ScriptsDowngrade(campaigns, items, executions);
      }
      var e := Issue(executions, Down(ExecutionPlan()));
      if e.None? {
        return false;
      }
      var i := Issue(items, ItemsDown());
      if i.None? {
        return false;
      }
      var c := Issue(campaigns, Down(CampaignPlan()));
      if c.None? {
        return false;
      }
      campaigns, items, executions := c.value, i.value, e.value;
      ok := true;
    }
  }

  /** On every database that migrations 020 and 021 allow, the upgrade runs through, and the
      downgrade after it gives the same three tables back. */
  lemma MigrationRoundTrip(c: Table, i: Table, e: Table, ex: seq<ItemExecution>, now: int)
    requires DatabaseBefore(c, i, e, ex)
    ensures Run(c, Up(CampaignPlan()) + Down(CampaignPlan())) == Some(c)
    ensures Run(i, ItemsUp(SelectionKey, ex, now) + ItemsDown()) == Some(i)
    ensures Run(e, Up(ExecutionPlan()) + Down(ExecutionPlan())) == Some(e)
  {
    CampaignPlanOk(CampaignPlan());
    RoundTrip(c, CampaignPlan());
    ExecutionPlanOk();
    RoundTrip(e, ExecutionPlan());
    ItemsThereAndBack(i, ex, now, ItemAdded(), ItemChecks());
  }

  lemma ItemsThereAndBack(t: Table, ex: seq<ItemExecution>, now: int, added: seq<Added>, checks: seq<Named>)
    requires ItemsBefore(t) && OnePerItem(ex) && added == ItemAdded() && checks == ItemChecks()
    ensures Run(t, ItemsUp(SelectionKey, ex, now) + ItemsDown()) == Some(t)
    ensures ItemsAfter(ItemsUpOf(t, SelectionKey, added, checks, ex, now), ItemDropped(), ItemUnchecks())
  {
    var up := ItemsUpOf(t, SelectionKey, added, checks, ex, now);
    ItemsUpgrade(t, ex, now, added, checks);
    RunKeepsOk(t, ItemsUp(SelectionKey, ex, now));
    ItemFacts(added, checks, ItemDropped(), ItemUnchecks());
    ItemsUpgradedAfter(t, ex, now, added, checks, ItemDropped(), ItemUnchecks());
    ItemsRoundTrip(t, ex, now, added, checks, ItemDropped(), ItemUnchecks());
    ItemsDowngrade(up);
    RunPair(t, ItemsUp(SelectionKey, ex, now), ItemsDown(), up, t);
  }

  lemma ItemNames(checks: seq<Named>, unchecks: seq<Name>)
    requires |checks| == 3 && unchecks == [checks[2].name, checks[1].name, checks[0].name]
    ensures NameSet(unchecks) == CheckNames(checks)
  {
    assert checks[0] in checks && checks[1] in checks && checks[2] in checks;
    assert unchecks[0] in unchecks && unchecks[1] in unchecks && unchecks[2] in unchecks;
  }

  lemma ItemFacts(added: seq<Added>, checks: seq<Named>, dropped: seq<Column>, unchecks: seq<Name>)
    requires added == ItemAdded() && checks == ItemChecks() && dropped == ItemDropped() && unchecks == ItemUnchecks()
    ensures ItemListsOk(added, checks, dropped, unchecks)
  {
    ItemColumns(dropped, added);
    ItemNames(checks, unchecks);
    assert added[0] in added && added[6] in added;
  }

  lemma ItemsUpgradedAfter(t: Table, ex: seq<ItemExecution>, now: int, added: seq<Added>, checks: seq<Named>,
                           dropped: seq<Column>, unchecks: seq<Name>)
    requires Ok(ItemsUpOf(t, SelectionKey, added, checks, ex, now)) && ItemListsOk(added, checks, dropped, unchecks)
    requires AllOver(t.constraints, t.columns)
    requires t.columns.Keys !! ColumnSet(dropped) && t.constraints.Keys !! NameSet(unchecks)
    ensures ItemsAfter(ItemsUpOf(t, SelectionKey, added, checks, ex, now), dropped, unchecks)
  {
    DefsHave(added);
    ConstraintsHave(checks);
    MapsReturn(t.constraints, Constraints(checks), NameSet(unchecks));
    NewColumnsFree(t.constraints, t.columns, ColumnSet(dropped));
  }

  // ---- What the scripts write, cell by cell ----

  lemma ListStarts(a: Added, rest: seq<Added>)
    ensures Defs([a] + rest) == Defs(rest)[a.column := a.def]
    ensures Defaults([a] + rest) == Defaults(rest)[a.column := a.default]
  {
    assert ([a] + rest)[1..] == rest;
  }

  /** List by list: the first three columns, then times that may be NULL. */
  lemma {:induction false} TimesAdded(cs: seq<Column>, list: seq<Added>)
    requires |list| == |cs| && forall i | 0 <= i < |cs| :: list[i] == Added(cs[i], ColumnDef(true, None), Null)
    ensures Defs(list) == Nullable(cs) && Defaults(list) == Nulls(cs)
    decreases |cs|
  {
    if cs == [] {
      assert list == [];
    } else {
      TimesAdded(cs[1..], list[1..]);
      assert cs == [cs[0]] + cs[1..];
    }
  }

  function Nullable(cs: seq<Column>): map<Column, ColumnDef> {
    map c <- cs :: ColumnDef(true, None)
  }

  function Nulls(cs: seq<Column>): Row {
    map c <- cs :: Null
  }

  lemma CampaignColumnsWritten(list: seq<Added>, rest: seq<Column>)
    requires list == CampaignAdded()
    requires rest == [MaxConcurrentMissions, StartedAt, PausedAt, CompletedAt, CancelledAt, LastAdmittedAt, ArchivedAt]
    ensures Defs(list) ==
            Nullable(rest)[PlanChecksumVersion := ColumnDef(false, None)][OrchestrationMode := ColumnDef(false, Some(32))]
    ensures Defaults(list) == Nulls(rest)[PlanChecksumVersion := Number(1)][OrchestrationMode := Word(LegacyUpfront)]
  {
    TimesAdded(rest, list[2..]);
    ListStarts(list[1], list[2..]);
    ListStarts(list[0], [list[1]] + list[2..]);
    assert list == [list[0]] + ([list[1]] + list[2..]);
  }

  const CAMPAIGN_NULLABLE: seq<Column> :=
    [MaxConcurrentMissions, StartedAt, PausedAt, CompletedAt, CancelledAt, LastAdmittedAt, ArchivedAt]
  const ITEM_TIMES: seq<Column> := [NextMaterializationAttemptAt, AdmittedAt, MaterializedAt]

  lemma TwoChecks(j: Named, k: Named)
    requires j.name != k.name
    ensures Constraints([j, k]) == map[j.name := j.constraint, k.name := k.constraint]
  {
    assert [j, k][1..] == [k] && [k][1..] == [];
    assert Constraints([k]) == map[k.name := k.constraint];
  }

  lemma NoChecks(list: seq<Named>)
    requires list == []
    ensures Constraints(list) == map[]
  {
  }

  /** The campaigns after the upgrade: nine columns with these widths and defaults, three checks, and
      in each row nothing else changed. */
  lemma CampaignsUpgraded(t: Table, p: Plan)
    requires p == CampaignPlan() && Before(t, p)
    ensures Run(t, Up(p)) == Some(Table(
      t.columns + Nullable(CAMPAIGN_NULLABLE)
        [PlanChecksumVersion := ColumnDef(false, None)][OrchestrationMode := ColumnDef(false, Some(32))],
      t.constraints[CkStatus := OneOf(Status, [Ready, Running, Paused, Cancelling, Succeeded, Partial, Failed, Cancelled])]
        + map[CkOrchestrationMode := OneOf(OrchestrationMode, [LegacyUpfront, LazyAdmissionV1]),
              CkMaxConcurrency := AtLeast(MaxConcurrentMissions, 1)],
      Extended(t.rows, Nulls(CAMPAIGN_NULLABLE)[PlanChecksumVersion := Number(1)][OrchestrationMode := Word(LegacyUpfront)])))
  {
    CampaignPlanOk(p);
    CampaignColumnsWritten(p.added, CAMPAIGN_NULLABLE);
    TwoChecks(p.checks[0], p.checks[1]);
    UpWrites(t, p, Defs(p.added), Defaults(p.added), Constraints(p.checks));
  }

  lemma CampaignColumnNames(list: seq<Added>)
    requires list == CampaignAdded()
    ensures Columns(list) == (set c <- CAMPAIGN_NULLABLE) + {PlanChecksumVersion, OrchestrationMode}
  {
    CampaignColumnsWritten(list, CAMPAIGN_NULLABLE);
    DefsHave(list);
  }

  lemma StatusWordReset(t: Table, p: Plan, word: Word, gone: set<Column>)
    requires After(t, p)
    ensures (map i <- t.rows :: Reset(t.rows[i], word) - gone) == map i <- t.rows :: t.rows[i][Status := Word(word)] - gone
  {
    forall i <- t.rows ensures Reset(t.rows[i], word) == t.rows[i][Status := Word(word)] {
      assert RowFits(t.rows[i], t.columns) && Status in t.rows[i] && CellFits(t.rows[i][Status], t.columns[Status]);
    }
  }

  lemma UpWrites(t: Table, p: Plan, defs: map<Column, ColumnDef>, cells: Row, more: map<Name, Constraint>)
    requires PlanOk(p) && Before(t, p)
    requires Defs(p.added) == defs && Defaults(p.added) == cells && Constraints(p.checks) == more
    ensures Run(t, Up(p)) == Some(Table(t.columns + defs, t.constraints[CkStatus := OneOf(Status, p.words)] + more,
                                        Extended(t.rows, cells)))
  {
    UpgradeSucceeds(t, p);
  }

  lemma DownWrites(t: Table, p: Plan, gone: set<Column>, names: set<Name>)
    requires PlanOk(p) && After(t, p) && Columns(p.added) == gone && NameSet(p.unchecks) == names + {CkStatus}
    ensures Run(t, Down(p)) == Some(Table(t.columns - gone, (t.constraints - names)[CkStatus := OneOf(Status, [p.home])],
                                          map i <- t.rows :: t.rows[i][Status := Word(p.home)] - gone))
  {
    DowngradeSucceeds(t, p);
    StatusWordReset(t, p, p.home, gone);
    assert (t.constraints - NameSet(p.unchecks))[CkStatus := OneOf(Status, [p.home])] ==
           (t.constraints - names)[CkStatus := OneOf(Status, [p.home])];
  }

  lemma CampaignNamesWritten(p: Plan)
    requires p == CampaignPlan()
    ensures NameSet(p.unchecks) == {CkMaxConcurrency, CkOrchestrationMode} + {CkStatus}
  {
    assert p.unchecks == [CkMaxConcurrency, CkOrchestrationMode, CkStatus];
    assert p.unchecks[0] in p.unchecks && p.unchecks[1] in p.unchecks && p.unchecks[2] in p.unchecks;
  }

  /** The campaigns after the downgrade, from whatever was written since: READY, without those columns
      and their checks, and nothing else lost. */
  lemma CampaignsDowngraded(t: Table, p: Plan, gone: set<Column>)
    requires p == CampaignPlan() && After(t, p)
    requires gone == (set c <- CAMPAIGN_NULLABLE) + {PlanChecksumVersion, OrchestrationMode}
    ensures Run(t, Down(p)) == Some(Table(
      t.columns - gone,
      (t.constraints - {CkMaxConcurrency, CkOrchestrationMode})[CkStatus := OneOf(Status, [Ready])],
      map i <- t.rows :: t.rows[i][Status := Word(Ready)] - gone))
  {
    CampaignPlanOk(p);
    CampaignColumnNames(p.added);
    CampaignNamesWritten(p);
    DownWrites(t, p, gone, {CkMaxConcurrency, CkOrchestrationMode});
  }

  lemma ExecutionLists(p: Plan)
    requires p == ExecutionPlan()
    ensures PlanOk(p) && Columns(p.added) == {MaterializationCompletedAt} && NameSet(p.unchecks) == {} + {CkStatus}
    ensures Defs(p.added) == map[MaterializationCompletedAt := ColumnDef(true, None)]
    ensures Defaults(p.added) == map[MaterializationCompletedAt := Null] && Constraints(p.checks) == map[]
  {
    ExecutionPlanOk();
    OneAdded(p.added[0]);
    DefsHave(p.added);
    NoChecks(p.checks);
    assert p.unchecks == [CkStatus];
  }

  /** The executions after the upgrade. */
  lemma ExecutionsUpgraded(t: Table, p: Plan)
    requires p == ExecutionPlan() && Before(t, p)
    ensures Run(t, Up(p)) == Some(Table(
      t.columns + map[MaterializationCompletedAt := ColumnDef(true, None)],
      t.constraints[CkStatus := OneOf(Status, [Active, Materialized, Cancelled])] + map[],
      Extended(t.rows, map[MaterializationCompletedAt := Null])))
  {
    ExecutionLists(p);
    UpWrites(t, p, map[MaterializationCompletedAt := ColumnDef(true, None)], map[MaterializationCompletedAt := Null], map[]);
  }

  /** And after the downgrade. */
  lemma ExecutionsDowngraded(t: Table, p: Plan)
    requires p == ExecutionPlan() && After(t, p)
    ensures Run(t, Down(p)) == Some(Table(
      t.columns - {MaterializationCompletedAt},
      (t.constraints - {})[CkStatus := OneOf(Status, [Materialized])],
      map i <- t.rows :: t.rows[i][Status := Word(Materialized)] - {MaterializationCompletedAt}))
  {
    ExecutionLists(p);
    DownWrites(t, p, {MaterializationCompletedAt}, {});
  }

  lemma ItemColumnsWritten(list: seq<Added>)
    requires list == ItemAdded()
    ensures Defs(list) ==
            Nullable(ITEM_TIMES)[SanitizedMaterializationError := ColumnDef(true, Some(500))]
              [MaterializationErrorCode := ColumnDef(true, Some(64))][MaterializationAttempts := ColumnDef(false, None)]
              [AdmissionState := ColumnDef(false, Some(32))]
    ensures Defaults(list) ==
            Nulls(ITEM_TIMES)[SanitizedMaterializationError := Null][MaterializationErrorCode := Null]
              [MaterializationAttempts := Number(0)][AdmissionState := Word(Pending)]
  {
    TimesAdded(ITEM_TIMES, list[4..]);
    ListStarts(list[3], list[4..]);
    ListStarts(list[2], [list[3]] + list[4..]);
    ListStarts(list[1], [list[2]] + ([list[3]] + list[4..]));
    ListStarts(list[0], [list[1]] + ([list[2]] + ([list[3]] + list[4..])));
    assert list == [list[0]] + ([list[1]] + ([list[2]] + ([list[3]] + list[4..])));
  }

  const ITEM_COLUMNS: set<Column> :=
    {ItemKey, AdmissionState, MaterializationAttempts, MaterializationErrorCode, SanitizedMaterializationError,
     NextMaterializationAttemptAt, AdmittedAt, MaterializedAt}

  /** An item after the upgrade: the key of its run, no attempt yet, and materialized when an execution
      refers to it. */
  ghost predicate ItemUpgraded(before: Row, after: Row, i: nat, ex: seq<ItemExecution>) {
    && SelectionRunId in before && before[SelectionRunId].Id? && before[SelectionRunId].id.Valid()
    && CellOf(after, ItemKey) == Text("selection-run:" + before[SelectionRunId].id.Text())
    && CellOf(after, MaterializationAttempts) == Number(0)
    && CellOf(after, MaterializationErrorCode) == CellOf(after, SanitizedMaterializationError) == Null
    && CellOf(after, NextMaterializationAttemptAt) == CellOf(after, AdmittedAt) == Null
    && (forall e <- ex | e.item == i ::
          CellOf(after, AdmissionState) == Word(Materialized) && CellOf(after, MaterializedAt) == Time(e.createdAt))
    && ((forall e <- ex :: e.item != i) ==>
          CellOf(after, AdmissionState) == Word(Pending) && CellOf(after, MaterializedAt) == Null)
    && SameOutside(before, after, ITEM_COLUMNS)
  }

  lemma ItemCellsWritten(row: Row, cells: Row, times: seq<int>, now: int, after: Row)
    requires SelectionRunId in row && row[SelectionRunId].Id? && row[SelectionRunId].id.Valid()
    requires cells == Nulls(ITEM_TIMES)[SanitizedMaterializationError := Null][MaterializationErrorCode := Null]
                        [MaterializationAttempts := Number(0)][AdmissionState := Word(Pending)]
    requires after == Marked(WithKey(row, SelectionKey) + cells, times, now)
    ensures CellOf(after, ItemKey) == Text("selection-run:" + row[SelectionRunId].id.Text())
    ensures CellOf(after, MaterializationAttempts) == Number(0)
    ensures CellOf(after, MaterializationErrorCode) == CellOf(after, SanitizedMaterializationError) == Null
    ensures CellOf(after, NextMaterializationAttemptAt) == CellOf(after, AdmittedAt) == Null
    ensures SameOutside(row, after, ITEM_COLUMNS)
  {
    assert NextMaterializationAttemptAt in ITEM_TIMES && AdmittedAt in ITEM_TIMES by {
      assert ITEM_TIMES[0] == NextMaterializationAttemptAt && ITEM_TIMES[1] == AdmittedAt;
    }
  }

  lemma ItemRowUpgraded(t: Table, ex: seq<ItemExecution>, now: int, i: nat, added: seq<Added>, after: Row)
    requires ItemsBefore(t) && OnePerItem(ex) && i in t.rows && added == ItemAdded()
    requires after == UpRows(t.rows, SelectionKey, Defaults(added), ex, now)[i]
    ensures ItemUpgraded(t.rows[i], after, i, ex)
  {
    MaterializedIff(SelectionKey, t.rows, added, ex, now, i);
    ItemColumnsWritten(added);
    assert CellOf(t.rows[i], SelectionRunId).Id? && CellOf(t.rows[i], SelectionRunId).id.Valid();
    ItemCellsWritten(t.rows[i], Defaults(added), TimesOf(ex, i), now, after);
  }

  lemma ThreeChecks(list: seq<Named>)
    requires list == ItemChecks()
    ensures Constraints(list) ==
            map[CkAdmissionState := OneOf(AdmissionState, [Pending, Admitted, Materialized, Failed, Cancelled]),
                CkAttempts := AtLeast(MaterializationAttempts, 0), UqItemKey := Unique([CampaignId, ItemKey])]
  {
    TwoChecks(list[1], list[2]);
    assert list[1..] == [list[1], list[2]];
  }

  lemma ItemsRun(t: Table, ex: seq<ItemExecution>, now: int, added: seq<Added>, checks: seq<Named>, u: Table)
    requires ItemsBefore(t) && OnePerItem(ex) && added == ItemAdded() && checks == ItemChecks()
    requires Run(t, ItemsUp(SelectionKey, ex, now)) == Some(u)
    ensures u.columns == t.columns[ItemKey := ColumnDef(false, Some(128))] + Defs(added)
    ensures u.constraints == t.constraints + Constraints(checks)
    ensures u.rows == UpRows(t.rows, SelectionKey, Defaults(added), ex, now)
  {
    ItemsUpgrade(t, ex, now, added, checks);
  }

  /** The items after the upgrade have eight more columns and three more constraints. */
  lemma ItemsUpgraded(t: Table, ex: seq<ItemExecution>, now: int, u: Table)
    requires ItemsBefore(t) && OnePerItem(ex) && Run(t, ItemsUp(SelectionKey, ex, now)) == Some(u)
    ensures u.columns == t.columns[ItemKey := ColumnDef(false, Some(128))] + Nullable(ITEM_TIMES)
      [SanitizedMaterializationError := ColumnDef(true, Some(500))]
      [MaterializationErrorCode := ColumnDef(true, Some(64))][MaterializationAttempts := ColumnDef(false, None)]
      [AdmissionState := ColumnDef(false, Some(32))]
    ensures u.constraints == t.constraints +
      map[CkAdmissionState := OneOf(AdmissionState, [Pending, Admitted, Materialized, Failed, Cancelled]),
          CkAttempts := AtLeast(MaterializationAttempts, 0), UqItemKey := Unique([CampaignId, ItemKey])]
    ensures u.rows.Keys == t.rows.Keys
  {
    ItemsRun(t, ex, now, ItemAdded(), ItemChecks(), u);
    ItemColumnsWritten(ItemAdded());
    ThreeChecks(ItemChecks());
  }

  /** Each item has the key of its run and the state of its execution, and nothing else changed. */
  lemma ItemRowsUpgraded(t: Table, ex: seq<ItemExecution>, now: int, u: Table, i: nat)
    requires ItemsBefore(t) && OnePerItem(ex) && Run(t, ItemsUp(SelectionKey, ex, now)) == Some(u)
    requires i in t.rows && i in u.rows
    ensures ItemUpgraded(t.rows[i], u.rows[i], i, ex)
  {
    ItemsRun(t, ex, now, ItemAdded(), ItemChecks(), u);
    ItemRowUpgraded(t, ex, now, i, ItemAdded(), u.rows[i]);
  }

  lemma ItemColumnNames(cs: seq<Column>)
    requires cs == ItemDropped()
    ensures ColumnSet(cs) == ITEM_COLUMNS
  {
    assert cs[0] in cs && cs[1] in cs && cs[2] in cs && cs[3] in cs && cs[4] in cs && cs[5] in cs && cs[6] in cs && cs[7] in cs;
  }

  lemma ItemConstraintNames(ns: seq<Name>)
    requires ns == ItemUnchecks()
    ensures NameSet(ns) == {UqItemKey, CkAttempts, CkAdmissionState}
  {
    assert ns[0] in ns && ns[1] in ns && ns[2] in ns;
  }

  /** And after the downgrade. */
  lemma ItemsDowngraded(t: Table)
    requires ItemsAfter(t, ItemDropped(), ItemUnchecks())
    ensures Run(t, ItemsDown()) == Some(Table(
      t.columns - ITEM_COLUMNS, t.constraints - {UqItemKey, CkAttempts, CkAdmissionState}, Without(t.rows, ITEM_COLUMNS)))
  {
    ItemsDowngrade(t);
    ItemColumnNames(ItemDropped());
    ItemConstraintNames(ItemUnchecks());
  }

  /** The guard raises exactly for an item without a key or two items of one campaign with one key. */
  lemma GuardRaisesIff(t: Table)
    requires forall i <- t.rows :: CampaignId in t.rows[i] && ItemKey in t.rows[i]
    ensures Do(t, GuardItemKeys) ==
            if || (exists i <- t.rows :: t.rows[i][ItemKey] == Null)
               || (exists i <- t.rows, j <- t.rows | i != j ::
                     t.rows[i][CampaignId] == t.rows[j][CampaignId] && t.rows[i][ItemKey] == t.rows[j][ItemKey])
            then None else Some(t)
  {
    var cs := [CampaignId, ItemKey];
    assert cs[0] in cs && cs[1] in cs;
    forall i <- t.rows, j <- t.rows
      ensures SameGroup(t.rows[i], t.rows[j], cs) <==>
              t.rows[i][CampaignId] == t.rows[j][CampaignId] && t.rows[i][ItemKey] == t.rows[j][ItemKey]
    {
    }
  }

  lemma {:induction false} TwoTimes(ex: seq<ItemExecution>, j: nat, k: nat)
    requires j < k < |ex| && ex[j].item == ex[k].item
    ensures |TimesOf(ex, ex[j].item)| >= 2
    decreases |ex|
  {
    if j > 0 {
      TwoTimes(ex[1..], j - 1, k - 1);
    } else {
      OneTime(ex[1..], k - 1);
    }
  }

  lemma {:induction false} OneTime(ex: seq<ItemExecution>, k: nat)
    requires k < |ex|
    ensures |TimesOf(ex, ex[k].item)| >= 1
    decreases |ex|
  {
    if k > 0 {
      OneTime(ex[1..], k - 1);
    }
  }

  /** Without the unique key of migration 021 the scalar subquery may fail: two executions of one item
      stop the backfill. */
  lemma TwoExecutionsStop(t: Table, ex: seq<ItemExecution>, now: int, j: nat, k: nat)
    requires j < k < |ex| && ex[j].item == ex[k].item && ex[j].item in t.rows
    ensures Do(t, MarkMaterialized(ex, now)) == None
  {
    TwoTimes(ex, j, k);
  }
}
