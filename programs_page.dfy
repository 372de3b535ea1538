/** The list of programs: creating a program, the loader, and the description preview on each card. */
module ProgramsPage {
  import opened Wrappers
  import opened Relational
  import opened Schema
  import opened Store
  import opened Responses

  /**
   * `newProgramAction`: insert one program with an empty name and a current `updatedAt`; a
   * failure is returned as 400; otherwise on to the new program's page.
   */
  method NewProgramAction(db: Database, now: string, link: Link) returns (reply: Reply)
    requires db.Valid()
    modifies db
    ensures db.Valid()
    ensures link.Down? ==> reply == Returned(400) && db.Contents() == old(db.Contents())
    ensures link.Up? ==>
      var p := Insert(old(db.programs), MeasurementProgram(now, None, "", now), true);
      && db.programs == p.0
      && db.Contents() == old(db.Contents()).(program := db.programs)
      && reply == if p.1.Ok? then Redirect(PathTo("/programs/", p.1.value)) else Returned(400)
    ensures reply.Redirect? ==>
      db.programs.rows == old(db.programs.rows)[old(db.programs.next) := MeasurementProgram(now, None, "", now)]
      && reply.path == PathTo("/programs/", old(db.programs.next))
  {
    var r := db.InsertProgram(link, "", now, now);
    reply := if r.Ok? then Redirect(PathTo("/programs/", r.value)) else Returned(400);
  }

  /** `programsLoader`: every program; an error is thrown as a `Response` without a status (200). */
  method ProgramsLoader(db: Database, link: Link) returns (r: Loaded<seq<Keyed<MeasurementProgram>>>)
    ensures link.Down? <==> r.Rejected?
    ensures r.Rejected? ==> r.status == DefaultStatus
    ensures r.Loaded? ==> multiset(Ids(r.value)) == multiset(db.programs.rows.Keys)
    ensures r.Loaded? ==> forall x :: x in r.value ==> x.id in db.programs.rows && x.row == db.programs.rows[x.id]
  {
    var programs := SelectAll(db.programs.rows, link);
    r := if programs.Ok? then Loaded(programs.value) else Rejected(DefaultStatus);
  }

  /**
   * The description preview of a program card as written: nothing for a null or empty
   * description, else its first 50 characters followed by "..." when it is longer than 49.
   */
  function Preview(description: Option<string>): (p: Option<string>)
    ensures p.Some? <==> description.Some? && description.value != ""
    ensures p.Some? ==>
      var d := description.value;
      var kept := if |d| < 50 then |d| else 50;
      && |p.value| <= 53
      && kept <= |p.value| && p.value[..kept] == d[..kept]
      && (|d| > 49 ==> p.value == d[..50] + "...")
      && (|d| <= 49 ==> p.value == d)
  {
    match description
    case None => None
    case Some(d) =>
      if d == "" then None
      else Some((if |d| < 50 then d else d[..50]) + (if |d| > 49 then "..." else ""))
  }

  /** A description of exactly 50 characters is shown whole and still gets "...". */
  lemma PreviewMarksUncutText(d: string)
    requires |d| == 50
    ensures Preview(Some(d)) == Some(d + "...")
  {
    assert d[..50] == d;
  }

  /** The preview as evidently intended: "..." exactly when something was cut off. */
  function PreviewFixed(description: Option<string>): (p: Option<string>)
    ensures p.Some? <==> description.Some? && description.value != ""
    ensures p.Some? ==>
      var d := description.value;
      && |p.value| <= 53
      && (|d| > 50 ==> p.value == d[..50] + "...")
      && (|d| <= 50 ==> p.value == d)
  {
    match description
    case None => None
    case Some(d) =>
      if d == "" then None
      else if |d| > 50 then Some(d[..50] + "...")
      else Some(d)
  }

  /** The two previews differ only on a 50-character description. */
  lemma PreviewsAgreeElsewhere(description: Option<string>)
    requires description.Some? ==> |description.value| != 50
    ensures PreviewFixed(description) == Preview(description)
  {
  }
}
