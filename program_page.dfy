/**
 * The page of one program: saving it (`upsert`), deleting it, its loader, and the `order` a
 * newly added step is given.
 */
module ProgramPage {
  import opened Wrappers
  import opened Relational
  import opened Schema
  import opened Store
  import opened ZodSchemas
  import opened Responses

  /**
   * `typeof programId === "undefined" ? undefined : +programId`, as the request body carries
   * it: no key, or the number, where `NaN` travels as null.
   */
  function UpsertKey(num: NumberParser, param: Option<string>): (id: IdArg)
    ensures param.None? <==> id.Omitted?
    ensures param.Some? && num(param.value).None? <==> id.NullId?
    ensures id.NumId? ==> param.Some? && num(param.value) == Some(id.v)
  {
    match param
    case None => Omitted
    case Some(text) => if num(text).Some? then NumId(num(text).value) else NullId
  }

  /**
   * `updateProgramAction`: upsert the program with the form's `name` and `description` and a
   * fresh `updatedAt`; a store error is thrown as a `Response` without a status (200);
   * otherwise back to the list.
   */
  method UpdateProgramAction(db: Database, num: NumberParser, param: Option<string>, form: FormBag, now: string, link: Link)
    returns (reply: Reply)
    requires db.Valid()
    modifies db
    ensures db.Valid()
    ensures link.Down? ==> reply == Thrown(DefaultStatus) && db.Contents() == old(db.Contents())
    ensures link.Up? ==>
      var p := UpsertProgramRow(old(db.programs), UpsertKey(num, param), Field(form, "name"), Field(form, "description"), now, now);
      && db.programs == p.0
      && db.Contents() == old(db.Contents()).(program := db.programs)
      && reply == if p.1.None? then Redirect("/programs") else Thrown(DefaultStatus)
  {
    var err := db.UpsertProgram(link, UpsertKey(num, param), Field(form, "name"), Field(form, "description"), now, now);
    reply := if err.None? then Redirect("/programs") else Thrown(DefaultStatus);
  }

  /** Saving an existing program changes that program only: its name, its description when sent, and `updatedAt`. */
  lemma SaveChangesOnlyThatProgram(t: Table<MeasurementProgram>, num: NumberParser, text: string, form: FormBag, now: string)
    requires num(text).Some? && KeyOf(num(text).value).Some? && KeyOf(num(text).value).value in t.rows
    requires "name" in form
    ensures var k := KeyOf(num(text).value).value;
      var p := UpsertProgramRow(t, UpsertKey(num, Some(text)), Field(form, "name"), Field(form, "description"), now, now);
      && p.1.None?
      && p.0.rows.Keys == t.rows.Keys
      && (forall j :: j in t.rows && j != k ==> p.0.rows[j] == t.rows[j])
      && p.0.rows[k].name == form["name"] && p.0.rows[k].updatedAt == now
      && p.0.rows[k].createdAt == t.rows[k].createdAt
      && p.0.rows[k].description == if "description" in form then Some(form["description"]) else t.rows[k].description
  {
  }

  /**
   * `deleteProgramAction`: a key that is not a number gives 404; a store error (a program that
   * still has steps or runs) is returned as 400, not thrown; otherwise back to the list.
   */
  method DeleteProgramAction(db: Database, num: NumberParser, param: string, link: Link) returns (reply: Reply)
    requires db.Valid()
    modifies db
    ensures db.Valid()
    ensures num(param).None? ==> reply == Thrown(404) && db.Contents() == old(db.Contents())
    ensures num(param).Some? ==>
      var p := DeleteRequest(old(db.programs), link, num(param).value, ProgramsInUse(old(db.Contents())));
      && db.programs == p.0
      && db.Contents() == old(db.Contents()).(program := db.programs)
      && reply == if p.1.None? then Redirect("/programs") else Returned(400)
  {
    var id := num(param);
    if id.None? {
      return Thrown(404);
    }
    var err := db.DeleteProgram(link, id.value);
    reply := if err.None? then Redirect("/programs") else Returned(400);
  }

  /** What `programLoader` returns. */
  datatype ProgramData = ProgramData(
    id: int,
    program: MeasurementProgram,
    steps: seq<Keyed<MeasurementProgramStep>>,
    units: seq<Keyed<MeasurementUnit>>,
    instruments: seq<Keyed<Instrument>>)

  /**
   * `programLoader`: the program with its steps (any order), every unit sorted by name, and
   * every instrument.  A key that is not a number or a program that cannot be read gives 404;
   * units or instruments that cannot be read give 500.
   */
  method ProgramLoader(db: Database, num: NumberParser, param: string, programLink: Link, unitsLink: Link,
                       instrumentsLink: Link) returns (r: Loaded<ProgramData>)
    requires db.Valid()
    ensures num(param).None? ==> r == Rejected(404)
    ensures num(param).Some? ==>
      var found := programLink.Up? && KeyOf(num(param).value).Some? && KeyOf(num(param).value).value in db.programs.rows;
      && (!found ==> r == Rejected(404))
      && (found && unitsLink.Down? ==> r == Rejected(500))
      && (found && unitsLink.Up? && instrumentsLink.Down? ==> r == Rejected(500))
      && (r.Loaded? <==> found && unitsLink.Up? && instrumentsLink.Up?)
    ensures r.Loaded? ==>
      var d := r.value;
      && KeyOf(num(param).value) == Some(d.id)
      && d.id in db.programs.rows && d.program == db.programs.rows[d.id]
      && multiset(Ids(d.steps)) == multiset(Matching(db.programSteps.rows, OfProgram(d.id)))
      && (forall x :: x in d.steps ==> x.id in db.programSteps.rows && x.row == db.programSteps.rows[x.id])
      && SortedBy(d.units, UnitName)
      && multiset(Ids(d.units)) == multiset(db.units.rows.Keys)
      && (forall x :: x in d.units ==> x.id in db.units.rows && x.row == db.units.rows[x.id])
      && multiset(Ids(d.instruments)) == multiset(db.instruments.rows.Keys)
      && (forall x :: x in d.instruments ==> x.id in db.instruments.rows && x.row == db.instruments.rows[x.id])
  {
    var id := num(param);
    if id.None? {
      return Rejected(404);
    }
    var program := SelectById(db.programs.rows, programLink, id.value);
    if program.Err? {
      return Rejected(404);
    }
    var steps := SelectSorted(db.programSteps.rows, OfProgram(program.value.id), NoOrder);
    if unitsLink.Down? {
      return Rejected(500);
    }
    var units := SelectSorted(db.units.rows, Anything, UnitName);
    assert Matching(db.units.rows, Anything) == db.units.rows.Keys;
    var instruments := SelectAll(db.instruments.rows, instrumentsLink);
    if instruments.Err? {
      return Rejected(500);
    }
    r := Loaded(ProgramData(program.value.id, program.value.row, steps, units, instruments.value));
  }

  /** The `order` the add-step form proposes, as written: one more than the number of steps. */
  function NextOrder(steps: seq<Keyed<MeasurementProgramStep>>): (order: int)
    ensures order == |steps| + 1
  {
    |steps| + 1
  }

  /**
   * Once a step has been deleted the count no longer tracks the orders: a program whose steps
   * have orders 1 and 3 is offered order 3 again.
   */
  lemma NextOrderRepeatsAfterDelete(a: Keyed<MeasurementProgramStep>, b: Keyed<MeasurementProgramStep>)
    requires a.row.order == 1 && b.row.order == 3
    ensures NextOrder([a, b]) == b.row.order
  {
  }

  /** The largest `order` among the steps, 0 when there are none. */
  function MaxOrder(steps: seq<Keyed<MeasurementProgramStep>>): (m: int)
    ensures forall x :: x in steps ==> x.row.order <= m
    ensures steps == [] ==> m == 0
    ensures m >= 0
    ensures steps != [] ==> m == 0 || exists x :: x in steps && x.row.order == m
    decreases |steps|
  {
    if steps == [] then 0
    else
      var rest := MaxOrder(steps[..|steps| - 1]);
      assert steps == steps[..|steps| - 1] + [steps[|steps| - 1]];
      var last := steps[|steps| - 1].row.order;
      if last > rest then last else rest
  }

  /** The `order` for a new step as evidently intended: after every existing one. */
  function NextOrderFixed(steps: seq<Keyed<MeasurementProgramStep>>): (order: int)
    ensures order >= 1
    ensures forall x :: x in steps ==> x.row.order < order
  {
    MaxOrder(steps) + 1
  }

  /** While the orders are exactly 1, 2, ..., n (no step deleted), the count rule gives the same order. */
  lemma {:induction false} NextOrderAgrees(steps: seq<Keyed<MeasurementProgramStep>>)
    requires forall i :: 0 <= i < |steps| ==> steps[i].row.order == i + 1
    ensures NextOrderFixed(steps) == NextOrder(steps)
    decreases |steps|
  {
    if steps != [] {
      NextOrderAgrees(steps[..|steps| - 1]);
    }
  }
}
