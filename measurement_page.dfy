/**
 * The page of one run: its loader, the grid of step records with the `updateStep` write and
 * the `processRowUpdate` accept/revert choice, and the status editor and display.
 */
module MeasurementPage {
  import opened Wrappers
  import opened Relational
  import opened Schema
  import opened Store
  import opened ZodSchemas
  import opened Responses

  /** A step record with its program step and that step's unit embedded. */
  datatype StepView = StepView(id: int, step: MeasurementStep, programStep: Keyed<MeasurementProgramStep>, unit: MeasurementUnit)

  /** What `measurmentLoader` returns: the run's key, its program's name and its step records. */
  datatype RunView = RunView(id: int, programName: string, steps: seq<StepView>)

  function StepIds(vs: seq<StepView>): (r: seq<int>)
    ensures |r| == |vs| && forall i :: 0 <= i < |vs| ==> r[i] == vs[i].id
  {
    seq(|vs|, i requires 0 <= i < |vs| => vs[i].id)
  }

  /** The embedding of `MeasurementProgramStep ( *, MeasurementUnit ( * ) )` into each step record. */
  function ViewSteps(t: Tables, s: seq<Keyed<MeasurementStep>>): (vs: seq<StepView>)
    requires Intact(t)
    requires forall x :: x in s ==> x.id in t.step.rows && x.row == t.step.rows[x.id]
    ensures StepIds(vs) == Ids(s)
    ensures forall v :: v in vs ==>
      && v.id in t.step.rows && v.step == t.step.rows[v.id]
      && v.programStep.id == v.step.measurementProgramStepId
      && v.programStep.id in t.programStep.rows && v.programStep.row == t.programStep.rows[v.programStep.id]
      && v.programStep.row.measurementUnitId in t.unit.rows
      && v.unit == t.unit.rows[v.programStep.row.measurementUnitId]
  {
    seq(|s|, i requires 0 <= i < |s| =>
      var psId := s[i].row.measurementProgramStepId;
      var ps := t.programStep.rows[psId];
      StepView(s[i].id, s[i].row, Keyed(psId, ps), t.unit.rows[ps.measurementUnitId]))
  }

  /**
   * `measurmentLoader`: a parameter that is not a number, a failed request or a run that does
   * not exist all give 404; otherwise every step record of the run once, with its program
   * step and unit.
   */
  method MeasurementLoader(db: Database, num: NumberParser, param: string, link: Link) returns (r: Loaded<RunView>)
    requires db.Valid()
    ensures num(param).None? ==> r == Rejected(404)
    ensures r.Rejected? ==> r.status == 404
    ensures r.Loaded? <==> link.Up? && num(param).Some? && KeyOf(num(param).value).Some?
                           && KeyOf(num(param).value).value in db.measurements.rows
    ensures r.Loaded? ==>
      var k := KeyOf(num(param).value).value;
      && r.value.id == k
      && r.value.programName == db.programs.rows[db.measurements.rows[k].programId].name
      && multiset(StepIds(r.value.steps)) == multiset(Matching(db.steps.rows, OfRun(k)))
      && (forall v :: v in r.value.steps ==>
            && v.id in db.steps.rows && v.step == db.steps.rows[v.id] && v.step.measurmentId == k
            && v.programStep.id == v.step.measurementProgramStepId
            && v.programStep.row == db.programSteps.rows[v.programStep.id]
            && v.unit == db.units.rows[v.programStep.row.measurementUnitId])
  {
    var id := num(param);
    if id.None? {
      return Rejected(404);
    }
    var run := SelectById(db.measurements.rows, link, id.value);
    if run.Err? {
      return Rejected(404);
    }
    var k := run.value.id;
    var s := SelectSorted(db.steps.rows, OfRun(k), NoOrder);
    var views := ViewSteps(db.Contents(), s);
    r := Loaded(RunView(k, db.programs.rows[run.value.row.programId].name, views));
  }

  /** A program step with its unit, as the grid row carries it. */
  datatype Template = Template(programStep: Keyed<MeasurementProgramStep>, unit: MeasurementUnit)

  /**
   * One row object of the data grid.  The grid hands `processRowUpdate` a new object for the
   * edited row; `updateStep` removes the embedded program step from that very object.  The
   * model takes the object `processRowUpdate` returns to be the row the grid renders next; a
   * grid that merges it over its stored row would keep the join.
   */
  class GridRow {
    const id: int
    var step: MeasurementStep
    var template: Option<Template>

    constructor (id: int, step: MeasurementStep, template: Option<Template>)
      ensures this.id == id && this.step == step && this.template == template
    {
      this.id := id;
      this.step := step;
      this.template := template;
    }
  }

  /** A grid row for a loaded step record. */
  method RowOf(v: StepView) returns (row: GridRow)
    ensures fresh(row)
    ensures row.id == v.id && row.step == v.step && row.template == Some(Template(v.programStep, v.unit))
  {
    row := new GridRow(v.id, v.step, Some(Template(v.programStep, v.unit)));
  }

  /**
   * The "№" column's value getter, `row.MeasurementProgramStep.order`: `None` is the
   * `TypeError` it throws when the embedded program step is gone.
   */
  function OrderCell(row: GridRow): (cell: Option<int>)
    reads row
    ensures cell.Some? <==> row.template.Some?
    ensures cell.Some? ==> cell.value == row.template.value.programStep.row.order
  {
    match row.template
    case None => None
    case Some(t) => Some(t.programStep.row.order)
  }

  /**
   * `updateStep`: drop the embedded program step from `row` itself, then write every column of
   * the record to the row with the same key.  The answer is whether the store reported no error.
   */
  method UpdateStep(db: Database, row: GridRow, link: Link) returns (ok: bool)
    requires db.Valid()
    modifies db, row
    ensures db.Valid()
    ensures row.template.None? && row.step == old(row.step)
    ensures link.Down? ==> !ok && db.Contents() == old(db.Contents())
    ensures link.Up? && row.id !in old(db.steps.rows) ==> ok && db.Contents() == old(db.Contents())
    ensures link.Up? && row.id in old(db.steps.rows) ==>
      && (db.steps, if ok then None else Some(ForeignKeyViolation))
         == Overwrite(old(db.steps), row.id, row.step, StepResolves(old(db.Contents()), row.step))
      && db.Contents() == old(db.Contents()).(step := db.steps)
  {
    row.template := None;
    var err := db.UpdateStep(link, row.id, FullStepUpdate(row.step));
    ok := err.None?;
  }

  /**
   * `processRowUpdate` as written: keep the edited row when the write succeeds, the old one
   * otherwise.  The returned edited row has lost its embedded program step; if the grid
   * renders that object as it is, its value getters (the "№" column among them) fail on it.
   */
  method ProcessRowUpdate(db: Database, newRow: GridRow, oldRow: GridRow, link: Link) returns (kept: GridRow)
    requires db.Valid()
    requires newRow != oldRow
    modifies db, newRow
    ensures db.Valid()
    ensures kept == newRow || kept == oldRow
    ensures kept == newRow <==> link.Up? && (newRow.id !in old(db.steps.rows) || StepResolves(old(db.Contents()), newRow.step))
    ensures kept == newRow ==> OrderCell(kept).None?
    ensures newRow.step == old(newRow.step)
    ensures kept == oldRow || newRow.id !in old(db.steps.rows) ==> db.Contents() == old(db.Contents())
    ensures kept == newRow && newRow.id in old(db.steps.rows) ==>
      && db.steps == old(db.steps).(rows := old(db.steps.rows)[newRow.id := newRow.step])
      && db.Contents() == old(db.Contents()).(step := db.steps)
  {
    var ok := UpdateStep(db, newRow, link);
    kept := if ok then newRow else oldRow;
  }

  /** `updateStep` as evidently intended: the write leaves out the embedded program step without touching the row. */
  method UpdateStepFixed(db: Database, row: GridRow, link: Link) returns (ok: bool)
    requires db.Valid()
    modifies db
    ensures db.Valid()
    ensures link.Down? ==> !ok && db.Contents() == old(db.Contents())
    ensures link.Up? && row.id !in old(db.steps.rows) ==> ok && db.Contents() == old(db.Contents())
    ensures link.Up? && row.id in old(db.steps.rows) ==>
      && (db.steps, if ok then None else Some(ForeignKeyViolation))
         == Overwrite(old(db.steps), row.id, row.step, StepResolves(old(db.Contents()), row.step))
      && db.Contents() == old(db.Contents()).(step := db.steps)
  {
    var err := db.UpdateStep(link, row.id, FullStepUpdate(row.step));
    ok := err.None?;
  }

  /** `processRowUpdate` over the corrected write: the returned edited row still holds its "№" value. */
  method ProcessRowUpdateFixed(db: Database, newRow: GridRow, oldRow: GridRow, link: Link) returns (kept: GridRow)
    requires db.Valid()
    requires newRow != oldRow
    modifies db
    ensures db.Valid()
    ensures kept == newRow || kept == oldRow
    ensures kept == newRow <==> link.Up? && (newRow.id !in old(db.steps.rows) || StepResolves(old(db.Contents()), newRow.step))
    ensures OrderCell(kept) == if kept == newRow then OrderCell(newRow) else OrderCell(oldRow)
    ensures newRow.template.Some? && oldRow.template.Some? ==> OrderCell(kept).Some?
    ensures kept == oldRow || newRow.id !in old(db.steps.rows) ==> db.Contents() == old(db.Contents())
    ensures kept == newRow && newRow.id in old(db.steps.rows) ==>
      && db.steps == old(db.steps).(rows := old(db.steps.rows)[newRow.id := newRow.step])
      && db.Contents() == old(db.Contents()).(step := db.steps)
  {
    var ok := UpdateStepFixed(db, newRow, link);
    kept := if ok then newRow else oldRow;
  }

  /** The options of the status editor: both statuses, whatever the current one is. */
  function StatusChoices(current: Status): (options: seq<Status>)
    ensures Done in options && InProgress in options
    ensures |options| == 2
    ensures forall i :: 0 <= i < |options| ==> ParseStatus(StatusText(options[i])) == Some(options[i])
  {
    [Done, InProgress]
  }

  /** The status cell shows the "complete" mark exactly for `"Done"`. */
  function ShowsComplete(status: Status): (complete: bool)
    ensures complete <==> status == Done
  {
    StatusText(status) == "Done"
  }
}
