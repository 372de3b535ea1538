/** The two actions on the steps of a program: add a step, delete a step. */
module ProgramSteps {
  import opened Wrappers
  import opened Relational
  import opened Schema
  import opened Store
  import opened ZodSchemas
  import opened Responses

  /**
   * `newProgramStepAction`: a form that does not validate gives 400 and writes nothing; a
   * valid one inserts exactly the parsed step and leads back to the step's program; a store
   * refusal (a missing instrument, unit or program among them) gives 500.
   */
  method NewProgramStepAction(db: Database, num: NumberParser, body: FormBag, link: Link) returns (reply: Reply)
    requires db.Valid()
    modifies db
    ensures db.Valid()
    ensures ParseProgramStep(num, body).None? ==> reply == Thrown(400) && db.Contents() == old(db.Contents())
    ensures ParseProgramStep(num, body).Some? && link.Down? ==> reply == Thrown(500) && db.Contents() == old(db.Contents())
    ensures ParseProgramStep(num, body).Some? && link.Up? ==>
      var s := ParseProgramStep(num, body).value;
      var p := Insert(old(db.programSteps), s, ProgramStepResolves(old(db.Contents()), s));
      && db.programSteps == p.0
      && db.Contents() == old(db.Contents()).(programStep := db.programSteps)
      && reply == if p.1.Ok? then Redirect(PathTo("/programs/", s.programId)) else Thrown(500)
    ensures reply.Redirect? ==>
      var s := ParseProgramStep(num, body).value;
      && ProgramStepResolves(old(db.Contents()), s)
      && db.programSteps.rows == old(db.programSteps.rows)[old(db.programSteps.next) := s]
  {
    var parsed := ParseProgramStep(num, body);
    if parsed.None? {
      return Thrown(400);
    }
    var r := db.InsertProgramStep(link, parsed.value);
    reply := if r.Ok? then Redirect(PathTo("/programs/", parsed.value.programId)) else Thrown(500);
  }

  /**
   * `deleteProgramStepAction`: a key that is not a number gives 400 before any write; the
   * delete removes at most the row with that key (a step with step records stays, 500); the
   * redirect takes the form's `programId` as it is, "undefined" when it is missing.
   */
  method DeleteProgramStepAction(db: Database, num: NumberParser, param: string, body: FormBag, link: Link)
    returns (reply: Reply)
    requires db.Valid()
    modifies db
    ensures db.Valid()
    ensures num(param).None? ==> reply == Thrown(400) && db.Contents() == old(db.Contents())
    ensures num(param).Some? ==>
      var p := DeleteRequest(old(db.programSteps), link, num(param).value, ProgramStepsInUse(old(db.Contents())));
      && db.programSteps == p.0
      && db.Contents() == old(db.Contents()).(programStep := db.programSteps)
      && reply == if p.1.None? then Redirect("/programs/" + CoerceString(Field(body, "programId"))) else Thrown(500)
  {
    var id := num(param);
    if id.None? {
      return Thrown(400);
    }
    var err := db.DeleteProgramStep(link, id.value);
    reply := if err.None? then Redirect("/programs/" + CoerceString(Field(body, "programId"))) else Thrown(500);
  }
}
