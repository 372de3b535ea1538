/**
 * The runs page: starting a run of a program (`newMeasurment`), deleting a run, and the list
 * of runs with the description line of each card.
 */
module MeasurementsPage {
  import opened Wrappers
  import opened Relational
  import opened Schema
  import opened Store
  import opened ZodSchemas
  import opened Responses
  import opened Helpers

  /** The draft of the step record for one program step of a new run. */
  function Draft(ps: Keyed<MeasurementProgramStep>, runId: int, operatorId: int): MeasurementStepInsert
  {
    MeasurementStepInsert(ps.row.instrumentId, ps.id, runId, operatorId, None, None)
  }

  /**
   * `programSteps.map(...)`: one draft per program step, in the same order.  Each draft points
   * at its program step, copies the step's instrument, belongs to the new run and its operator,
   * and leaves `realValue` and `status` to the column defaults.
   */
  function Drafts(pss: seq<Keyed<MeasurementProgramStep>>, runId: int, operatorId: int): (ds: seq<MeasurementStepInsert>)
    ensures |ds| == |pss|
    ensures forall i :: 0 <= i < |pss| ==>
      && ds[i].measurementProgramStepId == pss[i].id
      && ds[i].instrumentId == pss[i].row.instrumentId
      && ds[i].measurmentId == runId
      && ds[i].operatorId == operatorId
      && ds[i].realValue.None?
      && ds[i].status.None?
    decreases |pss|
  {
    if pss == [] then [] else [Draft(pss[0], runId, operatorId)] + Drafts(pss[1..], runId, operatorId)
  }

  /** Drafting a list in two parts gives the two parts' drafts one after the other. */
  lemma {:induction false} DraftsAppend(a: seq<Keyed<MeasurementProgramStep>>, b: seq<Keyed<MeasurementProgramStep>>, runId: int, operatorId: int)
    ensures Drafts(a + b, runId, operatorId) == Drafts(a, runId, operatorId) + Drafts(b, runId, operatorId)
    decreases |a|
  {
    if a != [] {
      assert (a + b)[1..] == a[1..] + b;
      DraftsAppend(a[1..], b, runId, operatorId);
    }
  }

  /** The program steps a draft list was made from can be read back from it, in order. */
  lemma DraftsRecoverSteps(pss: seq<Keyed<MeasurementProgramStep>>, runId: int, operatorId: int)
    ensures var ds := Drafts(pss, runId, operatorId);
      forall i :: 0 <= i < |ds| ==> ds[i].measurementProgramStepId == Ids(pss)[i]
  {
  }

  /**
   * `Number(new URLSearchParams(body).get("programId"))`: a missing key reads as null, and
   * `Number(null)` is 0.
   */
  function RequestedProgram(num: NumberParser, body: FormBag): (v: Option<real>)
    ensures "programId" !in body ==> v == Some(0.0)
    ensures "programId" in body ==> v == num(body["programId"])
  {
    if "programId" in body then num(body["programId"]) else Some(0.0)
  }

  /** `!programId || Number.isNaN(programId)` fails: the id is a number other than 0. */
  predicate GuardPasses(v: Option<real>)
  {
    v.Some? && v.value != 0.0
  }

  /** A missing `programId` never gets past the guard. */
  lemma MissingProgramRejected(num: NumberParser, body: FormBag)
    requires "programId" !in body
    ensures !GuardPasses(RequestedProgram(num, body))
  {
  }

  /**
   * What a successful instantiation of run `mid` of program `pid` for user `uid` leaves:
   * `plan` is exactly the program's steps, in ascending `order`; `operator` is the one
   * operator of the user; and the step table gained one row per planned step, in plan order,
   * at the keys drawn from the counter.
   */
  ghost predicate Instantiated(before: Tables, after: Tables, mid: int, pid: int, uid: string,
                               plan: seq<Keyed<MeasurementProgramStep>>, operator: Keyed<Operator>,
                               realValueDefault: real, statusDefault: Status)
  {
    && SortedBy(plan, StepOrder)
    && multiset(Ids(plan)) == multiset(Matching(before.programStep.rows, OfProgram(pid)))
    && (forall x :: x in plan ==> x.id in before.programStep.rows && x.row == before.programStep.rows[x.id])
    && SingleOutcome(before.operator.rows, Matching(before.operator.rows, OfUser(uid)), Ok(operator))
    && DraftsStored(before.step, after.step, mid, plan, operator.id, realValueDefault, statusDefault)
  }

  /** The step table gained the defaulted drafts of `plan`, in order, at the keys drawn from the counter. */
  ghost predicate DraftsStored(before: Table<MeasurementStep>, after: Table<MeasurementStep>, mid: int,
                               plan: seq<Keyed<MeasurementProgramStep>>, operatorId: int,
                               realValueDefault: real, statusDefault: Status)
  {
    after.rows == before.rows + Placed(before.next, Defaulted(Drafts(plan, mid, operatorId), realValueDefault, statusDefault))
  }

  /** The step rows a batch of drafts for `plan` adds, key by key. */
  lemma PlacedDrafts(lo: int, plan: seq<Keyed<MeasurementProgramStep>>, mid: int, operatorId: int,
                     realValueDefault: real, statusDefault: Status, i: int)
    requires 0 <= i < |plan|
    ensures var placed := Placed(lo, Defaulted(Drafts(plan, mid, operatorId), realValueDefault, statusDefault));
      && lo + i in placed
      && placed[lo + i] == MeasurementStep(plan[i].row.instrumentId, plan[i].id, mid, operatorId, realValueDefault, statusDefault)
  {
    var ds := Drafts(plan, mid, operatorId);
    var rows := Defaulted(ds, realValueDefault, statusDefault);
    assert rows[i] == WithDefaults(ds[i], realValueDefault, statusDefault);
  }

  /**
   * After a successful instantiation the new step records sit at consecutive keys, one per
   * program step and in the steps' order: the `i`-th points at the `i`-th program step, that
   * step's instrument, the run and the operator, with the default value and status.
   */
  lemma InstantiatedRows(before: Table<MeasurementStep>, after: Table<MeasurementStep>, mid: int,
                         plan: seq<Keyed<MeasurementProgramStep>>, operatorId: int,
                         realValueDefault: real, statusDefault: Status, i: int)
    requires DraftsStored(before, after, mid, plan, operatorId, realValueDefault, statusDefault)
    requires 0 <= i < |plan|
    ensures before.next + i in after.rows
    ensures after.rows[before.next + i]
            == MeasurementStep(plan[i].row.instrumentId, plan[i].id, mid, operatorId, realValueDefault, statusDefault)
  {
    var placed := Placed(before.next, Defaulted(Drafts(plan, mid, operatorId), realValueDefault, statusDefault));
    PlacedDrafts(before.next, plan, mid, operatorId, realValueDefault, statusDefault, i);
    assert after.rows == before.rows + placed;
  }

  /** Every planned step belongs to the program, and the operator to the user. */
  lemma InstantiatedFor(before: Tables, after: Tables, mid: int, pid: int, uid: string,
                        plan: seq<Keyed<MeasurementProgramStep>>, operator: Keyed<Operator>,
                        realValueDefault: real, statusDefault: Status)
    requires Instantiated(before, after, mid, pid, uid, plan, operator, realValueDefault, statusDefault)
    ensures forall x :: x in plan ==> x.row.programId == pid
    ensures operator.row.userId == uid
  {
    forall x | x in plan
      ensures x.row.programId == pid
    {
      var m :| 0 <= m < |plan| && plan[m] == x;
      assert Ids(plan)[m] == x.id;
      assert x.id in multiset(Ids(plan));
      assert x.id in Matching(before.programStep.rows, OfProgram(pid));
    }
    assert operator.id in Matching(before.operator.rows, OfUser(uid));
  }

  /**
   * Whether `single()` finds the operator of the signed-in user: someone is signed in, the
   * lookup reaches the database, and exactly one operator row carries that user id.
   */
  predicate OperatorFound(t: Tables, user: Option<string>, operatorLink: Link)
  {
    operatorLink.Up? && user.Some? && user.value != "" && |Matching(t.operator.rows, OfUser(user.value))| == 1
  }

  /**
   * The drafts for stored program steps and a stored operator pass every foreign-key check
   * exactly when the run they point at exists (or there are none).
   */
  lemma DraftsResolve(t: Tables, plan: seq<Keyed<MeasurementProgramStep>>, mid: int, operatorId: int,
                      realValueDefault: real, statusDefault: Status)
    requires Intact(t)
    requires forall x :: x in plan ==> x.id in t.programStep.rows && x.row == t.programStep.rows[x.id]
    requires operatorId in t.operator.rows
    ensures AllResolve(t, Defaulted(Drafts(plan, mid, operatorId), realValueDefault, statusDefault))
            <==> plan == [] || mid in t.measurement.rows
  {
    var rs := Defaulted(Drafts(plan, mid, operatorId), realValueDefault, statusDefault);
    if plan != [] && AllResolve(t, rs) {
      assert StepResolves(t, rs[0]);
    }
    if mid in t.measurement.rows {
      forall i | 0 <= i < |rs|
        ensures StepResolves(t, rs[i])
      {
        assert plan[i] in plan;
        assert ProgramStepResolves(t, t.programStep.rows[plan[i].id]);
      }
    }
  }

  /**
   * The part of `newMeasurment` after the run insert: read the program's steps, find the
   * operator of the signed-in user (`user`, `None` when nobody is signed in) and insert one
   * step record per program step.  Only the step table can change.  `plan` and `operator` are
   * the program steps and the operator that were read.
   */
  method InstantiateSteps(db: Database, mid: int, pid: int, user: Option<string>,
                          stepsLink: Link, operatorLink: Link, batchLink: Link)
    returns (reply: Reply, ghost plan: seq<Keyed<MeasurementProgramStep>>, ghost operator: Option<Keyed<Operator>>)
    requires db.Valid()
    modifies db
    ensures db.Valid()
    ensures db.Contents() == old(db.Contents()).(step := db.steps)
    ensures reply.Redirect? || reply.Thrown?
    // the failure points, in the order the code meets them
    ensures stepsLink.Down? ==> reply == Thrown(500)
    ensures stepsLink.Up? && (user.None? || user == Some("")) ==> reply == Thrown(400)
    ensures stepsLink.Up? && user.Some? && user != Some("") && !OperatorFound(old(db.Contents()), user, operatorLink)
            ==> reply == Thrown(500)
    // what was read: the program's steps in `order`, and the one operator of the user
    ensures stepsLink.Up? ==>
      && SortedBy(plan, StepOrder)
      && multiset(Ids(plan)) == multiset(Matching(old(db.programSteps.rows), OfProgram(pid)))
      && (forall x :: x in plan ==> x.id in old(db.programSteps.rows) && x.row == old(db.programSteps.rows)[x.id])
    ensures operator.Some? <==> stepsLink.Up? && OperatorFound(old(db.Contents()), user, operatorLink)
    ensures operator.Some? ==> Matching(old(db.operators.rows), OfUser(user.value)) == {operator.value.id}
    // the batch is sent once the operator is found; it lands iff its keys are free and the run exists
    ensures reply.Redirect? <==>
      && stepsLink.Up? && OperatorFound(old(db.Contents()), user, operatorLink) && batchLink.Up?
      && IdsFree(old(db.steps), |Matching(old(db.programSteps.rows), OfProgram(pid))|)
      && (Matching(old(db.programSteps.rows), OfProgram(pid)) == {} || mid in old(db.measurements.rows))
    ensures db.steps.next == old(db.steps.next)
      + if stepsLink.Up? && OperatorFound(old(db.Contents()), user, operatorLink) && batchLink.Up?
        then |Matching(old(db.programSteps.rows), OfProgram(pid))| else 0
    ensures !reply.Redirect? ==> db.steps.rows == old(db.steps.rows)
    ensures reply.Redirect? ==>
      && reply.path == PathTo("/measurments/", mid)
      && user.Some? && operator.Some?
      && Instantiated(old(db.Contents()), db.Contents(), mid, pid, user.value, plan, operator.value,
                      db.realValueDefault, db.statusDefault)
  {
    plan, operator := [], None;
    if stepsLink.Down? {
      return Thrown(500), plan, operator;
    }
    var pss := SelectSorted(db.programSteps.rows, OfProgram(pid), StepOrder);
    plan := pss;
    SelectionSize(pss, Matching(db.programSteps.rows, OfProgram(pid)));
    if user.None? || user.value == "" {
      return Thrown(400), plan, operator;
    }
    var found := SelectSingleWhere(db.operators.rows, operatorLink, OfUser(user.value));
    if found.Err? {
      return Thrown(500), plan, operator;
    }
    operator := Some(found.value);
    DraftsResolve(db.Contents(), pss, mid, found.value.id, db.realValueDefault, db.statusDefault);
    var stored := db.InsertSteps(batchLink, Drafts(pss, mid, found.value.id));
    if stored.Err? {
      return Thrown(500), plan, operator;
    }
    reply := Redirect(PathTo("/measurments/", mid));
  }

  /**
   * `newMeasurment`: check the requested program, insert a run, then instantiate its steps.
   * There is no rollback: once the run is inserted (`run`), it stays, whichever later step
   * fails.  `plan` and `operator` are the program steps and the operator that were read.
   */
  method NewMeasurement(db: Database, num: NumberParser, body: FormBag, now: string, user: Option<string>,
                        runLink: Link, stepsLink: Link, operatorLink: Link, batchLink: Link)
    returns (reply: Reply, ghost run: Option<int>, ghost plan: seq<Keyed<MeasurementProgramStep>>,
             ghost operator: Option<Keyed<Operator>>)
    requires db.Valid()
    modifies db
    ensures db.Valid()
    ensures reply.Redirect? || reply.Thrown?
    ensures SameTemplates(old(db.Contents()), db.Contents())
    // a rejected `programId` writes nothing
    ensures !GuardPasses(RequestedProgram(num, body)) ==>
      reply == Thrown(400) && run.None? && db.Contents() == old(db.Contents())
    // the run is inserted iff the request reaches the database, names an existing program and
    // the drawn key is free; an integral id draws a key even when the insert then fails
    ensures GuardPasses(RequestedProgram(num, body)) ==>
      var key := KeyOf(RequestedProgram(num, body).value);
      && (run.Some? <==> runLink.Up? && key.Some? && key.value in old(db.programs.rows)
                         && old(db.measurements.next) !in old(db.measurements.rows))
      && db.measurements.next == old(db.measurements.next) + (if runLink.Up? && key.Some? then 1 else 0)
    // no run inserted: no row written
    ensures run.None? ==> reply.Thrown? && db.measurements.rows == old(db.measurements.rows) && db.steps == old(db.steps)
    ensures GuardPasses(RequestedProgram(num, body)) && run.None? ==> reply == Thrown(500)
    // exactly one run row is added, for the requested program, and it stays whatever happens next
    ensures run.Some? ==>
      && GuardPasses(RequestedProgram(num, body))
      && KeyOf(RequestedProgram(num, body).value).Some?
      && run.value == old(db.measurements.next)
      && run.value !in old(db.measurements.rows)
      && db.measurements.rows
         == old(db.measurements.rows)[run.value := Measurement(None, KeyOf(RequestedProgram(num, body).value).value, now)]
    // the failure points after the run insert
    ensures run.Some? && stepsLink.Down? ==> reply == Thrown(500)
    ensures run.Some? && stepsLink.Up? && (user.None? || user == Some("")) ==> reply == Thrown(400)
    ensures run.Some? && stepsLink.Up? && user.Some? && user != Some("") && !OperatorFound(old(db.Contents()), user, operatorLink)
            ==> reply == Thrown(500)
    // once the run exists, success needs only the step read, the operator and a batch with free keys
    ensures run.Some? ==>
      var pid := KeyOf(RequestedProgram(num, body).value).value;
      && (reply.Redirect? <==>
            stepsLink.Up? && OperatorFound(old(db.Contents()), user, operatorLink) && batchLink.Up?
            && IdsFree(old(db.steps), |Matching(old(db.programSteps.rows), OfProgram(pid))|))
      && db.steps.next == old(db.steps.next)
           + if stepsLink.Up? && OperatorFound(old(db.Contents()), user, operatorLink) && batchLink.Up?
             then |Matching(old(db.programSteps.rows), OfProgram(pid))| else 0
    ensures !reply.Redirect? ==> db.steps.rows == old(db.steps.rows)
    // success
    ensures reply.Redirect? ==>
      && run.Some? && user.Some? && operator.Some?
      && reply.path == PathTo("/measurments/", run.value)
      && Instantiated(old(db.Contents()), db.Contents(), run.value, KeyOf(RequestedProgram(num, body).value).value,
                      user.value, plan, operator.value, db.realValueDefault, db.statusDefault)
  {
    run, plan, operator := None, [], None;
    var requested := RequestedProgram(num, body);
    if !GuardPasses(requested) {
      return Thrown(400), run, plan, operator;
    }
    var inserted := db.InsertMeasurement(runLink, requested.value, now);
    if inserted.Err? {
      return Thrown(500), run, plan, operator;
    }
    run := Some(inserted.value);
    reply, plan, operator := InstantiateSteps(db, inserted.value, KeyOf(requested.value).value, user,
                                              stepsLink, operatorLink, batchLink);
  }

  /**
   * `deleteMeasurementAction` as written: `Zod.coerce.number().parse` throws on a
   * non-numeric id, so the `isNaN` check after it never fires and the router sees a thrown
   * validation error instead of a 400.
   */
  method DeleteMeasurementAction(db: Database, num: NumberParser, param: string, link: Link) returns (reply: Reply)
    requires db.Valid()
    modifies db
    ensures db.Valid()
    ensures num(param).None? ==> reply == Crashed && db.Contents() == old(db.Contents())
    ensures num(param).Some? ==>
      var p := DeleteRequest(old(db.measurements), link, num(param).value, MeasurementsInUse(old(db.Contents())));
      && db.measurements == p.0
      && db.Contents() == old(db.Contents()).(measurement := db.measurements)
      && reply == if p.1.None? then Redirect("/measurments") else Thrown(500)
  {
    var parsed := num(param);
    if parsed.None? {
      return Crashed;
    }
    var err := db.DeleteMeasurement(link, parsed.value);
    reply := if err.None? then Redirect("/measurments") else Thrown(500);
  }

  /** `deleteMeasurementAction` with `safeParse`, so that the `isNaN` branch answers 400 as intended. */
  method DeleteMeasurementActionFixed(db: Database, num: NumberParser, param: string, link: Link) returns (reply: Reply)
    requires db.Valid()
    modifies db
    ensures db.Valid()
    ensures num(param).None? ==> reply == Thrown(400) && db.Contents() == old(db.Contents())
    ensures num(param).Some? ==>
      var p := DeleteRequest(old(db.measurements), link, num(param).value, MeasurementsInUse(old(db.Contents())));
      && db.measurements == p.0
      && db.Contents() == old(db.Contents()).(measurement := db.measurements)
      && reply == if p.1.None? then Redirect("/measurments") else Thrown(500)
  {
    var parsed := num(param);
    if parsed.None? {
      return Thrown(400);
    }
    var err := db.DeleteMeasurement(link, parsed.value);
    reply := if err.None? then Redirect("/measurments") else Thrown(500);
  }

  /** A run with its program embedded (`select("*, MeasurementProgram ( * )")`). */
  datatype RunListing = RunListing(run: Keyed<Measurement>, program: MeasurementProgram)

  function Runs(ls: seq<RunListing>): (s: seq<Keyed<Measurement>>)
    ensures |s| == |ls| && forall i :: 0 <= i < |ls| ==> s[i] == ls[i].run
  {
    seq(|ls|, i requires 0 <= i < |ls| => ls[i].run)
  }

  function ListRuns(programs: map<int, MeasurementProgram>, s: seq<Keyed<Measurement>>): (r: seq<RunListing>)
    requires forall x :: x in s ==> x.row.programId in programs
    ensures Runs(r) == s
    ensures forall l :: l in r ==> l.run.row.programId in programs && l.program == programs[l.run.row.programId]
  {
    seq(|s|, i requires 0 <= i < |s| => RunListing(s[i], programs[s[i].row.programId]))
  }

  /** `measurmentsLoader`: every run once, each with its own program. */
  method MeasurementsLoader(db: Database, link: Link) returns (r: Loaded<seq<RunListing>>)
    requires db.Valid()
    ensures link.Down? ==> r == Rejected(500)
    ensures link.Up? ==> r.Loaded?
    ensures r.Loaded? ==> multiset(Ids(Runs(r.value))) == multiset(db.measurements.rows.Keys)
    ensures r.Loaded? ==> forall l :: l in r.value ==>
      && l.run.id in db.measurements.rows && l.run.row == db.measurements.rows[l.run.id]
      && l.program == db.programs.rows[l.run.row.programId]
  {
    var runs := SelectAll(db.measurements.rows, link);
    if runs.Err? {
      return Rejected(500);
    }
    r := Loaded(ListRuns(db.programs.rows, runs.value));
  }

  /**
   * The description line of a run's card as written: `new OString(description)` turns a
   * null description into the text "null", which is then shown.
   */
  function DescriptionLine(description: Option<string>): (line: string)
    ensures description.Some? ==> line == TruncateTo(description.value, 50)
    ensures description.None? ==> line == "null"
  {
    TruncateTo(if description.Some? then description.value else "null", 50)
  }

  /** The line as evidently intended: a run whose program has no description shows nothing. */
  function DescriptionLineFixed(description: Option<string>): (line: string)
    ensures description.None? ==> line == ""
    ensures description.Some? ==> line == TruncateTo(description.value, 50)
    ensures |line| <= 51
  {
    if description.Some? then TruncateTo(description.value, 50) else ""
  }
}
