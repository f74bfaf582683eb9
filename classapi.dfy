/** The class endpoints of backend/app.py that sit on top of the generator:
    the level check of `generate_classes_endpoint`, the hand edit of one
    class (`update_class`) and the weekly agenda (`agenda_endpoint`).
    HTTP errors are values; the response models are the rows themselves. */
module ClassApi {
  import opened Common
  import opened ClassGenerator

  /** The HTTP errors the endpoints raise. `EmptyUpdate` is the 400 that
      `ClassUpdate.ensure_any_field` reports; its message text is not part
      of this model. */
  datatype HttpError = BadRequest(detail: string) | EmptyUpdate | NotFound(detail: string)

  // ---------------------------------------------------------------------
  // POST /levels/{level_id}/generate-classes
  // ---------------------------------------------------------------------

  /** `generate_classes_endpoint`: a body whose level differs from the path
      is refused before anything is generated; a generator error becomes a
      400; otherwise the number of generated rows is returned. */
  method GenerateClassesEndpoint(levelId: int, plan: Plan, db: Calendar) returns (r: Result<int, HttpError>)
    requires db.Valid()
    modifies db
    ensures db.Valid()
    ensures db.levels == old(db.levels) && db.groups == old(db.groups)
    ensures db.schedules == old(db.schedules) && db.noClassDays == old(db.noClassDays)
    ensures plan.levelId != levelId ==>
      r == Err(BadRequest("level_id does not match path"))
      && db.classes == old(db.classes) && db.nextId == old(db.nextId)
    ensures plan.levelId == levelId && FindLevel(old(db.levels), levelId).None? ==>
      r == Err(BadRequest("Level " + IntToString(levelId) + " not found"))
      && db.classes == old(db.classes) && db.nextId == old(db.nextId)
    ensures plan.levelId == levelId && FindLevel(old(db.levels), levelId).Some? ==>
      var ctx := PlanContext(plan, FindLevel(old(db.levels), levelId).value, old(db.groups), old(db.schedules), old(db.noClassDays));
      var t := Run(ctx, Tables(old(db.classes), old(db.nextId), []), Entries(plan.weeks));
      r == Ok(|t.generated|) && db.classes == t.classes && db.nextId == t.nextId
  {
    if plan.levelId != levelId {
      return Err(BadRequest("level_id does not match path"));
    }
    var generated := GenerateClasses(plan, db);
    match generated {
      case Err(LevelNotFound(id)) =>
        return Err(BadRequest("Level " + IntToString(id) + " not found"));
      case Ok(rows) =>
        return Ok(|rows|);
    }
  }

  // ---------------------------------------------------------------------
  // PATCH /classes/{class_id}
  // ---------------------------------------------------------------------

  /** What the body says about `end_time`: a new time, an explicit null,
      or nothing at all. */
  datatype EndTimePatch = Omitted | Cleared | SetTo(time: Time)

  /** The PATCH body. `None` is a field left out (or sent as null, which
      `update_class` treats alike); only `endTime` tells the two apart. */
  datatype ClassUpdate = ClassUpdate(
    date: Option<Day>,
    startTime: Option<Time>,
    endTime: EndTimePatch,
    weekNumber: Option<int>,
    topic: Option<string>,
    colour: Option<string>,
    status: Option<string>)

  /** `ensure_any_field`: the body names at least one field. */
  predicate AnyField(u: ClassUpdate)
  {
    u.date.Some? || u.startTime.Some? || u.endTime != Omitted || u.weekNumber.Some? ||
    u.topic.Some? || u.colour.Some? || u.status.Some?
  }

  /** The `updates` dictionary: the columns the UPDATE statement sets.
      `endTime == Some(None)` writes NULL. */
  datatype Updates = Updates(
    date: Option<Day>,
    startTime: Option<Time>,
    endTime: Option<Option<Time>>,
    weekNumber: Option<int>,
    topic: Option<string>,
    colour: Option<string>,
    status: Option<string>,
    setOverride: bool)

  predicate NoUpdates(c: Updates)
  {
    c.date.None? && c.startTime.None? && c.endTime.None? && c.weekNumber.None? &&
    c.topic.None? && c.colour.None? && c.status.None? && !c.setOverride
  }

  /** Some supplied field differs from what is stored (status aside). */
  predicate FieldChanged(u: ClassUpdate, d: ClassData)
  {
    || (u.date.Some? && u.date.value != d.date)
    || (u.startTime.Some? && u.startTime.value != d.startTime)
    || (u.endTime.SetTo? && Some(u.endTime.time) != d.endTime)
    || (u.endTime.Cleared? && d.endTime.Some?)
    || (u.weekNumber.Some? && u.weekNumber.value != d.weekNumber)
    || (u.topic.Some? && u.topic.value != d.topic)
    || (u.colour.Some? && Some(u.colour.value) != d.colour)
  }

  /** The row a PATCH leaves behind: supplied fields take their new value
      (writing an equal value is the same as not writing it), an explicit
      null clears the end time, the status is the supplied one or
      "rescheduled" after a change, and the hand-edit flag is raised by any
      change or supplied status and never lowered. */
  function Updated(u: ClassUpdate, d: ClassData): (r: ClassData)
    ensures r.groupId == d.groupId
  {
    var changed := FieldChanged(u, d);
    d.(
      date := if u.date.Some? then u.date.value else d.date,
      startTime := if u.startTime.Some? then u.startTime.value else d.startTime,
      endTime := match u.endTime
        case Omitted => d.endTime
        case Cleared => None
        case SetTo(t) => Some(t),
      weekNumber := if u.weekNumber.Some? then u.weekNumber.value else d.weekNumber,
      topic := if u.topic.Some? then u.topic.value else d.topic,
      colour := if u.colour.Some? then u.colour else d.colour,
      status := if u.status.Some? then u.status.value else if changed then "rescheduled" else d.status,
      manualOverride := d.manualOverride || changed || u.status.Some?)
  }

  /** `UPDATE classes SET <updates> WHERE id = ?` on one row. */
  function ApplyUpdates(d: ClassData, c: Updates): ClassData
  {
    d.(
      date := if c.date.Some? then c.date.value else d.date,
      startTime := if c.startTime.Some? then c.startTime.value else d.startTime,
      endTime := if c.endTime.Some? then c.endTime.value else d.endTime,
      weekNumber := if c.weekNumber.Some? then c.weekNumber.value else d.weekNumber,
      topic := if c.topic.Some? then c.topic.value else d.topic,
      colour := if c.colour.Some? then c.colour else d.colour,
      status := if c.status.Some? then c.status.value else d.status,
      manualOverride := d.manualOverride || c.setOverride)
  }

  /** The date and time checks of `update_class`: a field enters
      `updates` only when supplied and different from the stored value; an
      explicit null end time enters only when a time is stored. */
  method DiffWhen(u: ClassUpdate, d: ClassData) returns (date: Option<Day>, startTime: Option<Time>, endTime: Option<Option<Time>>)
    ensures date.Some? <==> u.date.Some? && u.date.value != d.date
    ensures date.Some? ==> date == u.date
    ensures startTime.Some? <==> u.startTime.Some? && u.startTime.value != d.startTime
    ensures startTime.Some? ==> startTime == u.startTime
    ensures endTime.Some? <==> (u.endTime.SetTo? && Some(u.endTime.time) != d.endTime) || (u.endTime.Cleared? && d.endTime.Some?)
    ensures endTime.Some? ==> endTime.value == (if u.endTime.SetTo? then Some(u.endTime.time) else None)
  {
    date := if u.date.Some? && u.date.value != d.date then u.date else None;
    startTime := if u.startTime.Some? && u.startTime.value != d.startTime then u.startTime else None;
    endTime :=
      if u.endTime.SetTo? && Some(u.endTime.time) != d.endTime then Some(Some(u.endTime.time))
      else if u.endTime.Cleared? && d.endTime.Some? then Some(None)
      else None;
  }

  /** The week, topic and colour checks of `update_class`. */
  method DiffWhat(u: ClassUpdate, d: ClassData) returns (weekNumber: Option<int>, topic: Option<string>, colour: Option<string>)
    ensures weekNumber.Some? <==> u.weekNumber.Some? && u.weekNumber.value != d.weekNumber
    ensures weekNumber.Some? ==> weekNumber == u.weekNumber
    ensures topic.Some? <==> u.topic.Some? && u.topic.value != d.topic
    ensures topic.Some? ==> topic == u.topic
    ensures colour.Some? <==> u.colour.Some? && u.colour != d.colour
    ensures colour.Some? ==> colour == u.colour
  {
    weekNumber := if u.weekNumber.Some? && u.weekNumber.value != d.weekNumber then u.weekNumber else None;
    topic := if u.topic.Some? && u.topic.value != d.topic then u.topic else None;
    colour := if u.colour.Some? && u.colour != d.colour then u.colour else None;
  }

  /** The change detection of `update_class`: it builds the `updates`
      dictionary field by field. Only a supplied value that differs from
      the stored one enters it; an explicit null end time enters only when
      a time is stored; the status and the hand-edit flag follow. */
  method ComputeUpdates(u: ClassUpdate, d: ClassData) returns (c: Updates, changed: bool)
    ensures changed <==> FieldChanged(u, d)
    ensures c.date.Some? <==> u.date.Some? && u.date.value != d.date
    ensures c.date.Some? ==> c.date == u.date
    ensures c.startTime.Some? <==> u.startTime.Some? && u.startTime.value != d.startTime
    ensures c.startTime.Some? ==> c.startTime == u.startTime
    ensures c.endTime.Some? <==> (u.endTime.SetTo? && Some(u.endTime.time) != d.endTime) || (u.endTime.Cleared? && d.endTime.Some?)
    ensures c.endTime.Some? ==> c.endTime.value == (if u.endTime.SetTo? then Some(u.endTime.time) else None)
    ensures c.weekNumber.Some? <==> u.weekNumber.Some? && u.weekNumber.value != d.weekNumber
    ensures c.weekNumber.Some? ==> c.weekNumber == u.weekNumber
    ensures c.topic.Some? <==> u.topic.Some? && u.topic.value != d.topic
    ensures c.topic.Some? ==> c.topic == u.topic
    ensures c.colour.Some? <==> u.colour.Some? && u.colour != d.colour
    ensures c.colour.Some? ==> c.colour == u.colour
    ensures c.status == if u.status.Some? then u.status else if changed then Some("rescheduled") else None
    ensures c.setOverride <==> changed || u.status.Some?
    ensures NoUpdates(c) <==> !changed && u.status.None?
  {
    var date, startTime, endTime := DiffWhen(u, d);
    var weekNumber, topic, colour := DiffWhat(u, d);
    changed := date.Some? || startTime.Some? || endTime.Some? || weekNumber.Some? || topic.Some? || colour.Some?;
    var status: Option<string> := if u.status.Some? then u.status else if changed then Some("rescheduled") else None;
    c := Updates(date, startTime, endTime, weekNumber, topic, colour, status, changed || u.status.Some?);
  }

  /** Ids are the table's primary key. */
  predicate UniqueIds(rows: seq<ClassRow>)
  {
    forall i, j :: 0 <= i < j < |rows| ==> rows[i].id != rows[j].id
  }

  /** `SELECT ... FROM classes WHERE id = ?` with `fetchone()`. */
  function FindClass(rows: seq<ClassRow>, id: int): (k: int)
    ensures -1 <= k < |rows|
    ensures k >= 0 ==> rows[k].id == id
    ensures k < 0 ==> forall i :: 0 <= i < |rows| ==> rows[i].id != id
  {
    if rows == [] then -1
    else if rows[|rows| - 1].id == id then |rows| - 1
    else FindClass(rows[..|rows| - 1], id)
  }

  /** `group_row["name"] if group_row else ""`. */
  function GroupName(groups: seq<Group>, id: int): string
  {
    var g := FindGroup(groups, id);
    if g.Some? then g.value.name else ""
  }

  /** `update_class`: an empty body is refused before storage is read, an
      unknown id gives 404 with no write; otherwise only the matching row
      changes, to `Updated`, and it is returned with its group's name. */
  method UpdateClass(classId: int, u: ClassUpdate, db: Calendar) returns (r: Result<(ClassRow, string), HttpError>)
    requires UniqueIds(db.classes)
    modifies db
    ensures db.levels == old(db.levels) && db.groups == old(db.groups)
    ensures db.schedules == old(db.schedules) && db.noClassDays == old(db.noClassDays)
    ensures db.nextId == old(db.nextId)
    ensures !AnyField(u) ==> r == Err(EmptyUpdate) && db.classes == old(db.classes)
    ensures AnyField(u) && FindClass(old(db.classes), classId) < 0 ==>
      r == Err(NotFound("Class not found")) && db.classes == old(db.classes)
    ensures AnyField(u) && FindClass(old(db.classes), classId) >= 0 ==>
      var d := old(db.classes)[FindClass(old(db.classes), classId)].data;
      && |db.classes| == |old(db.classes)|
      && (forall i :: 0 <= i < |db.classes| ==>
            db.classes[i] == if old(db.classes)[i].id == classId then ClassRow(classId, Updated(u, d)) else old(db.classes)[i])
      && r == Ok((ClassRow(classId, Updated(u, d)), GroupName(db.groups, d.groupId)))
  {
    if !AnyField(u) {
      return Err(EmptyUpdate);
    }
    var k := FindClass(db.classes, classId);
    if k < 0 {
      return Err(NotFound("Class not found"));
    }
    var d := db.classes[k].data;
    var updates, changed := ComputeUpdates(u, d);
    if !NoUpdates(updates) {
      db.classes := db.classes[k := ClassRow(classId, ApplyUpdates(d, updates))];
    }
    var updated := db.classes[k];
    assert updated.data == Updated(u, d);
    return Ok((updated, GroupName(db.groups, updated.data.groupId)));
  }

  /** A PATCH applied twice leaves what it left once. */
  lemma UpdateIdempotent(u: ClassUpdate, d: ClassData)
    ensures Updated(u, Updated(u, d)) == Updated(u, d)
  {
    assert !FieldChanged(u, Updated(u, d));
  }

  /** A PATCH that supplies no status and changes no field leaves the row
      as it was; any other leaves it marked as edited by hand. */
  lemma UpdateMarksOverride(u: ClassUpdate, d: ClassData)
    ensures !FieldChanged(u, d) && u.status.None? ==> Updated(u, d) == d
    ensures FieldChanged(u, d) || u.status.Some? ==> Updated(u, d).manualOverride
    ensures FieldChanged(u, d) && u.status.None? ==> Updated(u, d).status == "rescheduled"
  {
  }

  // ---------------------------------------------------------------------
  // GET /agenda
  // ---------------------------------------------------------------------

  datatype AgendaItem = AgendaItem(row: ClassRow, groupName: string)

  function DateKey(x: AgendaItem): int { x.row.data.date }

  function StartKey(x: AgendaItem): int { x.row.data.startTime }

  /** The join of one class with the groups table: one item per group with
      the class's group id in the level. */
  function JoinGroups(c: ClassRow, groups: seq<Group>, levelId: int): (r: seq<AgendaItem>)
    ensures forall x :: x in r <==> exists g :: g in groups && g.id == c.data.groupId && g.levelId == levelId && x == AgendaItem(c, g.name)
  {
    if groups == [] then []
    else
      var prev := JoinGroups(c, groups[..|groups| - 1], levelId);
      var g := groups[|groups| - 1];
      assert groups == groups[..|groups| - 1] + [g];
      if g.id == c.data.groupId && g.levelId == levelId then prev + [AgendaItem(c, g.name)] else prev
  }

  /** `FROM classes JOIN groups ... WHERE groups.level_id = ? AND
      classes.week_number = ?`, before ordering. */
  function AgendaRows(classes: seq<ClassRow>, groups: seq<Group>, levelId: int, week: int): (r: seq<AgendaItem>)
  {
    if classes == [] then []
    else
      var prev := AgendaRows(classes[..|classes| - 1], groups, levelId, week);
      var c := classes[|classes| - 1];
      if c.data.weekNumber == week then prev + JoinGroups(c, groups, levelId) else prev
  }

  /** The agenda holds exactly the classes of the level's groups in that
      week, each with its group's name. */
  lemma {:induction false} AgendaRowsMembers(classes: seq<ClassRow>, groups: seq<Group>, levelId: int, week: int)
    ensures forall x :: x in AgendaRows(classes, groups, levelId, week) <==>
      && x.row in classes && x.row.data.weekNumber == week
      && exists g :: g in groups && g.id == x.row.data.groupId && g.levelId == levelId && x.groupName == g.name
  {
    if classes != [] {
      var init := classes[..|classes| - 1];
      AgendaRowsMembers(init, groups, levelId, week);
      assert classes == init + [classes[|classes| - 1]];
    }
  }

  /** `agenda_endpoint`: 400 for a week below one, 404 for an unknown
      level, otherwise the joined rows ordered by date, then start time. */
  function Agenda(levels: seq<Level>, groups: seq<Group>, classes: seq<ClassRow>, levelId: int, week: int)
    : (r: Result<seq<AgendaItem>, HttpError>)
    ensures week <= 0 ==> r == Err(BadRequest("week must be greater than zero"))
    ensures week > 0 && FindLevel(levels, levelId).None? ==> r == Err(NotFound("Level not found"))
    ensures week > 0 && FindLevel(levels, levelId).Some? ==>
      && r.Ok?
      && SortedBy(r.value, DateKey, StartKey)
      && multiset(r.value) == multiset(AgendaRows(classes, groups, levelId, week))
  {
    if week <= 0 then Err(BadRequest("week must be greater than zero"))
    else if FindLevel(levels, levelId).None? then Err(NotFound("Level not found"))
    else Ok(SortBy(AgendaRows(classes, groups, levelId, week), DateKey, StartKey))
  }
}
