/**
 * The hosted database as one object: seven tables that requests change in place.  Every
 * method is one request of the client library (`from(table)` followed by `insert`, `update`,
 * `upsert` or `delete` and their filters); reads change nothing and work on the rows directly.
 * Every request keeps referential integrity, `Valid()`.
 */
module Store {
  import opened Wrappers
  import opened Relational
  import opened Schema

  /** How `upsert` receives the key: left out, an explicit null, or a number. */
  datatype IdArg = Omitted | NullId | NumId(v: real)

  /** An upsert that meets an existing row sets the columns it supplies and keeps the rest. */
  function EditProgram(r: MeasurementProgram, name: string, description: Option<string>, updatedAt: string): (r': MeasurementProgram)
    ensures r'.createdAt == r.createdAt && r'.name == name && r'.updatedAt == updatedAt
    ensures r'.description == if description.Some? then description else r.description
  {
    r.(name := name, description := if description.Some? then description else r.description, updatedAt := updatedAt)
  }

  /**
   * `upsert({ id, name, description, updatedAt })` on `MeasurementProgram`.  A missing `name`
   * is a null in a NOT NULL column, which fails even when the key already exists; a missing
   * `description` is the column default (null) on insert and is left alone on update.
   */
  function UpsertProgramRow(t: Table<MeasurementProgram>, id: IdArg, name: Option<string>, description: Option<string>,
                            updatedAt: string, now: string): (p: (Table<MeasurementProgram>, Option<StoreError>))
    ensures id.Omitted? ==> p.0.next == t.next + 1
    ensures !id.Omitted? ==> p.0.next == t.next
    ensures p.1.Some? ==> p.0.rows == t.rows
    ensures id.NullId? || name.None? ==> p.1.Some?
    ensures id.NullId? ==> p.1 == Some(NotNullViolation)
    ensures id.NumId? && KeyOf(id.v).None? ==> p.1 == Some(InvalidNumber)
    ensures id.Omitted? && name.Some? ==>
      && (p.1.None? <==> t.next !in t.rows)
      && (p.1.None? ==> p.0.rows == t.rows[t.next := MeasurementProgram(now, description, name.value, updatedAt)])
    ensures id.NumId? && KeyOf(id.v).Some? && name.Some? ==>
      var k := KeyOf(id.v).value;
      && p.1.None?
      && p.0.rows == t.rows[k := if k in t.rows then EditProgram(t.rows[k], name.value, description, updatedAt)
                                 else MeasurementProgram(now, description, name.value, updatedAt)]
  {
    match id
    case NullId => (t, Some(NotNullViolation))
    case Omitted =>
      if name.None? then (t.(next := t.next + 1), Some(NotNullViolation))
      else
        var (t', r) := Insert(t, MeasurementProgram(now, description, name.value, updatedAt), true);
        (t', if r.Ok? then None else Some(r.error))
    case NumId(v) =>
      match KeyOf(v)
      case None => (t, Some(InvalidNumber))
      case Some(k) =>
        if name.None? then (t, Some(NotNullViolation))
        else if k in t.rows then (t.(rows := t.rows[k := EditProgram(t.rows[k], name.value, description, updatedAt)]), None)
        else (t.(rows := t.rows[k := MeasurementProgram(now, description, name.value, updatedAt)]), None)
  }

  /** An upsert with an existing key changes only that row; sent twice it leaves what sending it once leaves. */
  lemma UpsertExistingIdempotent(t: Table<MeasurementProgram>, v: real, name: string, description: Option<string>,
                                 updatedAt: string, now: string)
    requires KeyOf(v).Some? && KeyOf(v).value in t.rows
    ensures var once := UpsertProgramRow(t, NumId(v), Some(name), description, updatedAt, now).0;
      && once.rows.Keys == t.rows.Keys
      && (forall j :: j in t.rows && j != KeyOf(v).value ==> once.rows[j] == t.rows[j])
      && UpsertProgramRow(once, NumId(v), Some(name), description, updatedAt, now).0 == once
  {
    var k := KeyOf(v).value;
    var once := UpsertProgramRow(t, NumId(v), Some(name), description, updatedAt, now).0;
    var r := EditProgram(t.rows[k], name, description, updatedAt);
    assert once.rows == t.rows[k := r];
    assert EditProgram(r, name, description, updatedAt) == r;
    assert once.rows[k := r] == once.rows;
  }

  /** The rows a batch of step drafts becomes, given the column defaults. */
  function Defaulted(ds: seq<MeasurementStepInsert>, realValueDefault: real, statusDefault: Status): (rs: seq<MeasurementStep>)
    ensures |rs| == |ds|
    ensures forall i :: 0 <= i < |ds| ==> rs[i] == WithDefaults(ds[i], realValueDefault, statusDefault)
  {
    seq(|ds|, i requires 0 <= i < |ds| => WithDefaults(ds[i], realValueDefault, statusDefault))
  }

  predicate AllResolve(t: Tables, rs: seq<MeasurementStep>)
  {
    forall i :: 0 <= i < |rs| ==> StepResolves(t, rs[i])
  }

  /** A batch insert whose rows all resolve keeps referential integrity. */
  lemma InsertStepsKeepsIntact(t: Tables, rs: seq<MeasurementStep>)
    requires Intact(t) && AllResolve(t, rs)
    ensures Intact(t.(step := InsertAll(t.step, rs, true).0))
  {
    var t' := t.(step := InsertAll(t.step, rs, true).0);
    if IdsFree(t.step, |rs|) {
      var placed := Placed(t.step.next, rs);
      assert t'.step.rows == t.step.rows + placed;
      forall k | k in t'.step.rows
        ensures StepResolves(t', t'.step.rows[k])
      {
        if k in placed {
          var i := k - t.step.next;
          assert placed[t.step.next + i] == rs[i];
        }
      }
    }
  }

  class Database {
    var instruments: Table<Instrument>
    var measurements: Table<Measurement>
    var programs: Table<MeasurementProgram>
    var programSteps: Table<MeasurementProgramStep>
    var steps: Table<MeasurementStep>
    var units: Table<MeasurementUnit>
    var operators: Table<Operator>
    /** The column defaults of `MeasurementStep.realValue` and `MeasurementStep.status`. */
    const realValueDefault: real
    const statusDefault: Status

    function Contents(): Tables
      reads this
    {
      Tables(instruments, measurements, programs, programSteps, steps, units, operators)
    }

    ghost predicate Valid()
      reads this
    {
      Intact(Contents())
    }

    constructor (init: Tables, realValueDefault: real, statusDefault: Status)
      requires Intact(init)
      ensures Valid() && Contents() == init
      ensures this.realValueDefault == realValueDefault && this.statusDefault == statusDefault
    {
      instruments := init.instrument;
      measurements := init.measurement;
      programs := init.program;
      programSteps := init.programStep;
      steps := init.step;
      units := init.unit;
      operators := init.operator;
      this.realValueDefault := realValueDefault;
      this.statusDefault := statusDefault;
    }

    // --- Measurement ---------------------------------------------------------------------

    /** `insert({ programId, startedAt }).select().single()`: a new run with `finishedAt` unset. */
    method InsertMeasurement(link: Link, programId: real, startedAt: string) returns (r: Result<int>)
      requires Valid()
      modifies this
      ensures Valid()
      ensures link.Down? ==> r == Err(Unreachable) && Contents() == old(Contents())
      ensures link.Up? && KeyOf(programId).None? ==> r == Err(InvalidNumber) && Contents() == old(Contents())
      ensures link.Up? && KeyOf(programId).Some? ==>
        var pid := KeyOf(programId).value;
        && (measurements, r) == Insert(old(measurements), Measurement(None, pid, startedAt), pid in old(programs.rows))
        && Contents() == old(Contents()).(measurement := measurements)
    {
      if link.Down? {
        return Err(Unreachable);
      }
      match KeyOf(programId)
      case None =>
        r := Err(InvalidNumber);
      case Some(pid) =>
        measurements, r := Insert(measurements, Measurement(None, pid, startedAt), pid in programs.rows).0,
                           Insert(measurements, Measurement(None, pid, startedAt), pid in programs.rows).1;
    }

    /** `delete().eq("id", id)` on `Measurement`; a run that has step records is kept. */
    method DeleteMeasurement(link: Link, id: real) returns (err: Option<StoreError>)
      requires Valid()
      modifies this
      ensures Valid()
      ensures (measurements, err) == DeleteRequest(old(measurements), link, id, MeasurementsInUse(old(Contents())))
      ensures Contents() == old(Contents()).(measurement := measurements)
    {
      var p := DeleteRequest(measurements, link, id, MeasurementsInUse(Contents()));
      measurements, err := p.0, p.1;
    }

    // --- MeasurementProgram --------------------------------------------------------------

    /** `insert({ name, updatedAt }).select().single()`; `createdAt` takes its default, the time of the request. */
    method InsertProgram(link: Link, name: string, updatedAt: string, now: string) returns (r: Result<int>)
      requires Valid()
      modifies this
      ensures Valid()
      ensures link.Down? ==> r == Err(Unreachable) && Contents() == old(Contents())
      ensures link.Up? ==>
        && (programs, r) == Insert(old(programs), MeasurementProgram(now, None, name, updatedAt), true)
        && Contents() == old(Contents()).(program := programs)
    {
      if link.Down? {
        return Err(Unreachable);
      }
      var p := Insert(programs, MeasurementProgram(now, None, name, updatedAt), true);
      programs, r := p.0, p.1;
    }

    /** `upsert({ id, name, description, updatedAt })`. */
    method UpsertProgram(link: Link, id: IdArg, name: Option<string>, description: Option<string>,
                         updatedAt: string, now: string) returns (err: Option<StoreError>)
      requires Valid()
      modifies this
      ensures Valid()
      ensures link.Down? ==> err == Some(Unreachable) && Contents() == old(Contents())
      ensures link.Up? ==>
        && (programs, err) == UpsertProgramRow(old(programs), id, name, description, updatedAt, now)
        && Contents() == old(Contents()).(program := programs)
    {
      if link.Down? {
        return Some(Unreachable);
      }
      var p := UpsertProgramRow(programs, id, name, description, updatedAt, now);
      programs, err := p.0, p.1;
    }

    /** `delete().eq("id", id)` on `MeasurementProgram`; a program with steps or runs is kept. */
    method DeleteProgram(link: Link, id: real) returns (err: Option<StoreError>)
      requires Valid()
      modifies this
      ensures Valid()
      ensures (programs, err) == DeleteRequest(old(programs), link, id, ProgramsInUse(old(Contents())))
      ensures Contents() == old(Contents()).(program := programs)
    {
      var p := DeleteRequest(programs, link, id, ProgramsInUse(Contents()));
      programs, err := p.0, p.1;
    }

    // --- MeasurementProgramStep ----------------------------------------------------------

    /** `insert(step).select().single()`; the step's instrument, unit and program must exist. */
    method InsertProgramStep(link: Link, s: MeasurementProgramStep) returns (r: Result<int>)
      requires Valid()
      modifies this
      ensures Valid()
      ensures link.Down? ==> r == Err(Unreachable) && Contents() == old(Contents())
      ensures link.Up? ==>
        && (programSteps, r) == Insert(old(programSteps), s, ProgramStepResolves(old(Contents()), s))
        && Contents() == old(Contents()).(programStep := programSteps)
    {
      if link.Down? {
        return Err(Unreachable);
      }
      var p := Insert(programSteps, s, ProgramStepResolves(Contents(), s));
      programSteps, r := p.0, p.1;
    }

    /** `delete().eq("id", id)` on `MeasurementProgramStep`; a step with step records is kept. */
    method DeleteProgramStep(link: Link, id: real) returns (err: Option<StoreError>)
      requires Valid()
      modifies this
      ensures Valid()
      ensures (programSteps, err) == DeleteRequest(old(programSteps), link, id, ProgramStepsInUse(old(Contents())))
      ensures Contents() == old(Contents()).(programStep := programSteps)
    {
      var p := DeleteRequest(programSteps, link, id, ProgramStepsInUse(Contents()));
      programSteps, err := p.0, p.1;
    }

    // --- MeasurementStep -----------------------------------------------------------------

    /** `insert(drafts).select()`: one statement, so every draft is stored or none is. */
    method InsertSteps(link: Link, drafts: seq<MeasurementStepInsert>) returns (r: Result<seq<int>>)
      requires Valid()
      modifies this
      ensures Valid()
      ensures link.Down? ==> r == Err(Unreachable) && Contents() == old(Contents())
      ensures link.Up? ==>
        var rows := Defaulted(drafts, realValueDefault, statusDefault);
        && (steps, r) == InsertAll(old(steps), rows, AllResolve(old(Contents()), rows))
        && Contents() == old(Contents()).(step := steps)
    {
      if link.Down? {
        return Err(Unreachable);
      }
      var rows := Defaulted(drafts, realValueDefault, statusDefault);
      if AllResolve(Contents(), rows) {
        InsertStepsKeepsIntact(Contents(), rows);
      }
      var p := InsertAll(steps, rows, AllResolve(Contents(), rows));
      steps, r := p.0, p.1;
    }

    /** `update(u).eq("id", id)`: only the row with key `id` changes, in the columns `u` supplies. */
    method UpdateStep(link: Link, id: int, u: MeasurementStepUpdate) returns (err: Option<StoreError>)
      requires Valid()
      modifies this
      ensures Valid()
      ensures link.Down? ==> err == Some(Unreachable) && Contents() == old(Contents())
      ensures link.Up? && id !in old(steps.rows) ==> err.None? && Contents() == old(Contents())
      ensures link.Up? && id in old(steps.rows) ==>
        var row := ApplyStepUpdate(old(steps.rows[id]), u);
        && (steps, err) == Overwrite(old(steps), id, row, StepResolves(old(Contents()), row))
        && Contents() == old(Contents()).(step := steps)
    {
      if link.Down? {
        return Some(Unreachable);
      }
      if id !in steps.rows {
        return None;
      }
      var row := ApplyStepUpdate(steps.rows[id], u);
      var p := Overwrite(steps, id, row, StepResolves(Contents(), row));
      steps, err := p.0, p.1;
    }

    // --- MeasurementUnit -----------------------------------------------------------------

    /** `insert({ name, symbol }).select().single()`. */
    method InsertUnit(link: Link, name: string, symbol: string) returns (r: Result<int>)
      requires Valid()
      modifies this
      ensures Valid()
      ensures link.Down? ==> r == Err(Unreachable) && Contents() == old(Contents())
      ensures link.Up? ==>
        && (units, r) == Insert(old(units), MeasurementUnit(name, symbol), true)
        && Contents() == old(Contents()).(unit := units)
    {
      if link.Down? {
        return Err(Unreachable);
      }
      var p := Insert(units, MeasurementUnit(name, symbol), true);
      units, r := p.0, p.1;
    }

    /** `update(patch).eq("id", id).select().single()`: no row with that key is an error. */
    method UpdateUnit(link: Link, id: real, patch: MeasurementUnitUpdate) returns (r: Result<Keyed<MeasurementUnit>>)
      requires Valid()
      modifies this
      ensures Valid()
      ensures link.Down? ==> r == Err(Unreachable)
      ensures link.Up? && KeyOf(id).None? ==> r == Err(InvalidNumber)
      ensures link.Up? && KeyOf(id).Some? && KeyOf(id).value !in old(units.rows) ==> r == Err(NotSingle)
      ensures r.Err? ==> Contents() == old(Contents())
      ensures r.Ok? <==> link.Up? && KeyOf(id).Some? && KeyOf(id).value in old(units.rows)
      ensures r.Ok? ==>
        var k := KeyOf(id).value;
        && r.value == Keyed(k, ApplyUnitUpdate(old(units.rows[k]), patch))
        && units == old(units).(rows := old(units.rows)[k := r.value.row])
        && Contents() == old(Contents()).(unit := units)
    {
      if link.Down? {
        return Err(Unreachable);
      }
      match KeyOf(id)
      case None =>
        r := Err(InvalidNumber);
      case Some(k) =>
        if k !in units.rows {
          r := Err(NotSingle);
        } else {
          var row := ApplyUnitUpdate(units.rows[k], patch);
          units := units.(rows := units.rows[k := row]);
          r := Ok(Keyed(k, row));
        }
    }

    /** `delete().eq("id", id)` on `MeasurementUnit`; a unit that instruments or steps use is kept. */
    method DeleteUnit(link: Link, id: real) returns (err: Option<StoreError>)
      requires Valid()
      modifies this
      ensures Valid()
      ensures (units, err) == DeleteRequest(old(units), link, id, UnitsInUse(old(Contents())))
      ensures Contents() == old(Contents()).(unit := units)
    {
      var p := DeleteRequest(units, link, id, UnitsInUse(Contents()));
      units, err := p.0, p.1;
    }

    // --- Instrument ----------------------------------------------------------------------

    /** `insert(instrument).select().single()`; the instrument's unit must exist. */
    method InsertInstrument(link: Link, i: Instrument) returns (r: Result<int>)
      requires Valid()
      modifies this
      ensures Valid()
      ensures link.Down? ==> r == Err(Unreachable) && Contents() == old(Contents())
      ensures link.Up? ==>
        && (instruments, r) == Insert(old(instruments), i, i.measurementUnitId in old(units.rows))
        && Contents() == old(Contents()).(instrument := instruments)
    {
      if link.Down? {
        return Err(Unreachable);
      }
      var p := Insert(instruments, i, i.measurementUnitId in units.rows);
      instruments, r := p.0, p.1;
    }

    /**
     * `update({ ...i, id }).eq("id", id).select().single()`: every column of the row with key
     * `id` is set, the key itself stays.
     */
    method UpdateInstrument(link: Link, id: real, i: Instrument) returns (r: Result<Keyed<Instrument>>)
      requires Valid()
      modifies this
      ensures Valid()
      ensures link.Down? ==> r == Err(Unreachable)
      ensures link.Up? && KeyOf(id).None? ==> r == Err(InvalidNumber)
      ensures link.Up? && KeyOf(id).Some? && KeyOf(id).value !in old(instruments.rows) ==> r == Err(NotSingle)
      ensures link.Up? && KeyOf(id).Some? && KeyOf(id).value in old(instruments.rows) && i.measurementUnitId !in units.rows
              ==> r == Err(ForeignKeyViolation)
      ensures r.Err? ==> Contents() == old(Contents())
      ensures r.Ok? <==> link.Up? && KeyOf(id).Some? && KeyOf(id).value in old(instruments.rows)
                         && i.measurementUnitId in units.rows
      ensures r.Ok? ==>
        && r.value == Keyed(KeyOf(id).value, i)
        && (instruments, None) == Overwrite(old(instruments), KeyOf(id).value, i, true)
        && Contents() == old(Contents()).(instrument := instruments)
    {
      if link.Down? {
        return Err(Unreachable);
      }
      match KeyOf(id)
      case None =>
        r := Err(InvalidNumber);
      case Some(k) =>
        if k !in instruments.rows {
          r := Err(NotSingle);
        } else if i.measurementUnitId !in units.rows {
          r := Err(ForeignKeyViolation);
        } else {
          instruments := Overwrite(instruments, k, i, true).0;
          r := Ok(Keyed(k, i));
        }
    }

    /** `delete().eq("id", id)` on `Instrument`; an instrument that steps use is kept. */
    method DeleteInstrument(link: Link, id: real) returns (err: Option<StoreError>)
      requires Valid()
      modifies this
      ensures Valid()
      ensures (instruments, err) == DeleteRequest(old(instruments), link, id, InstrumentsInUse(old(Contents())))
      ensures Contents() == old(Contents()).(instrument := instruments)
    {
      var p := DeleteRequest(instruments, link, id, InstrumentsInUse(Contents()));
      instruments, err := p.0, p.1;
    }
  }
}
