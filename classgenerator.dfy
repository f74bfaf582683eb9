/** The class generator (backend/services/scheduler.py): it turns a
    week-by-week plan for one level into concrete class rows. For every
    (week, topic) entry whose group belongs to the level, the generator
    deletes the pair's rows that were not edited by hand, and (unless a hand-
    edited row remains) inserts one row per schedule slot of the group
    whose date is not a no-class day.

    The database is the `Calendar` object: one sequence per table, and the
    next row id that AUTOINCREMENT hands out. The generator is specified by
    `Run`, the fold of `Step` over the plan's entries, and the lemmas at the
    end state what that fold guarantees. */
module ClassGenerator {
  import opened Common

  datatype Level = Level(id: int, startDate: Day)

  datatype Group = Group(id: int, levelId: int, name: string)

  /** A row of `schedules`: a weekly slot of one group. */
  datatype Slot = Slot(groupId: int, weekday: int, startTime: Time, endTime: Option<Time>)

  /** The columns of a `classes` row other than its id. */
  datatype ClassData = ClassData(
    groupId: int,
    weekNumber: int,
    date: Day,
    startTime: Time,
    endTime: Option<Time>,
    topic: string,
    colour: Option<string>,
    status: string,
    manualOverride: bool)

  datatype ClassRow = ClassRow(id: int, data: ClassData)

  datatype PlanTopic = PlanTopic(groupId: int, topic: string, colour: Option<string>)

  datatype PlanWeek = PlanWeek(weekNumber: int, topics: seq<PlanTopic>)

  datatype Plan = Plan(levelId: int, weeks: seq<PlanWeek>)

  datatype SchedulerError = LevelNotFound(levelId: int)

  /** The tables the generator and the class endpoints work on. */
  class Calendar {
    var levels: seq<Level>
    var groups: seq<Group>
    var schedules: seq<Slot>
    var noClassDays: seq<Day>
    var classes: seq<ClassRow>
    var nextId: int

    /** Every class id was handed out before `nextId`. */
    ghost predicate Valid()
      reads this
    {
      IdsBelow(classes, nextId)
    }

    constructor (levels: seq<Level>, groups: seq<Group>, schedules: seq<Slot>, noClassDays: seq<Day>)
      ensures this.levels == levels && this.groups == groups
      ensures this.schedules == schedules && this.noClassDays == noClassDays
      ensures classes == [] && nextId == 1
      ensures Valid()
    {
      this.levels := levels;
      this.groups := groups;
      this.schedules := schedules;
      this.noClassDays := noClassDays;
      classes := [];
      nextId := 1;
    }
  }

  predicate IdsBelow(rows: seq<ClassRow>, bound: int)
  {
    forall i :: 0 <= i < |rows| ==> rows[i].id < bound
  }

  // ---------------------------------------------------------------------
  // Lookups
  // ---------------------------------------------------------------------

  function FindLevel(levels: seq<Level>, id: int): (r: Option<Level>)
    ensures r.Some? ==> r.value in levels && r.value.id == id
    ensures r.None? ==> forall l :: l in levels ==> l.id != id
  {
    if levels == [] then None
    else if levels[0].id == id then Some(levels[0])
    else FindLevel(levels[1..], id)
  }

  function FindGroup(groups: seq<Group>, id: int): (r: Option<Group>)
    ensures r.Some? ==> r.value in groups && r.value.id == id
    ensures r.None? ==> forall g :: g in groups ==> g.id != id
  {
    if groups == [] then None
    else if groups[0].id == id then Some(groups[0])
    else FindGroup(groups[1..], id)
  }

  /** The group exists and belongs to the level. */
  predicate GroupInLevel(groups: seq<Group>, groupId: int, levelId: int)
  {
    var g := FindGroup(groups, groupId);
    g.Some? && g.value.levelId == levelId
  }

  /** `SELECT ... FROM schedules WHERE group_id = ?`, in table order. */
  function SlotsOf(slots: seq<Slot>, groupId: int): (r: seq<Slot>)
    ensures forall s :: s in r <==> s in slots && s.groupId == groupId
  {
    if slots == [] then []
    else
      var prev := SlotsOf(slots[..|slots| - 1], groupId);
      var s := slots[|slots| - 1];
      if s.groupId == groupId then prev + [s] else prev
  }

  /** `_week_start_offset`: days from the level's start to the slot's day. */
  function WeekStartOffset(weekNumber: int, weekday: int): int
  {
    (weekNumber - 1) * 7 + weekday
  }

  // ---------------------------------------------------------------------
  // Plan entries and colours
  // ---------------------------------------------------------------------

  /** One (week, topic) entry of the plan, in the order the loops visit them. */
  datatype Entry = Entry(weekNumber: int, topic: PlanTopic)

  function Pair(e: Entry): (int, int)
  {
    (e.topic.groupId, e.weekNumber)
  }

  function WeekEntries(week: PlanWeek): (es: seq<Entry>)
    ensures |es| == |week.topics|
    ensures forall i :: 0 <= i < |es| ==> es[i] == Entry(week.weekNumber, week.topics[i])
  {
    seq(|week.topics|, i requires 0 <= i < |week.topics| => Entry(week.weekNumber, week.topics[i]))
  }

  function Entries(weeks: seq<PlanWeek>): seq<Entry>
  {
    if weeks == [] then [] else Entries(weeks[..|weeks| - 1]) + WeekEntries(weeks[|weeks| - 1])
  }

  /** The colour map `_collect_week_colours` builds: a later entry for the
      same (group, week) overwrites an earlier one. */
  function ColourMap(entries: seq<Entry>): map<(int, int), Option<string>>
  {
    if entries == [] then map[]
    else
      var e := entries[|entries| - 1];
      ColourMap(entries[..|entries| - 1])[Pair(e) := e.topic.colour]
  }

  /** The index of the last entry for (g, w), or -1. */
  function LastEntryFor(entries: seq<Entry>, g: int, w: int): (k: int)
    ensures -1 <= k < |entries|
    ensures k >= 0 ==> Pair(entries[k]) == (g, w)
    ensures forall j :: k < j < |entries| ==> Pair(entries[j]) != (g, w)
  {
    if entries == [] then -1
    else if Pair(entries[|entries| - 1]) == (g, w) then |entries| - 1
    else LastEntryFor(entries[..|entries| - 1], g, w)
  }

  /** Colour is last-write-wins: the map holds (g, w) exactly when some
      entry is for that pair, and then holds the last such entry's
      colour. */
  lemma {:induction false} ColourMapLastWins(entries: seq<Entry>, g: int, w: int)
    ensures var k := LastEntryFor(entries, g, w);
      && ((g, w) in ColourMap(entries) <==> k >= 0)
      && (k >= 0 ==> ColourMap(entries)[(g, w)] == entries[k].topic.colour)
  {
    if entries != [] {
      ColourMapLastWins(entries[..|entries| - 1], g, w);
    }
  }

  lemma ColourMapSnoc(entries: seq<Entry>, e: Entry)
    ensures ColourMap(entries + [e]) == ColourMap(entries)[Pair(e) := e.topic.colour]
  {
    assert (entries + [e])[..|entries|] == entries;
  }

  lemma EntriesSnoc(weeks: seq<PlanWeek>, i: nat)
    requires i < |weeks|
    ensures Entries(weeks[..i + 1]) == Entries(weeks[..i]) + WeekEntries(weeks[i])
  {
    assert weeks[..i + 1][..i] == weeks[..i];
  }

  lemma ColourStep(done: seq<Entry>, week: PlanWeek, ti: nat)
    requires ti < |week.topics|
    ensures ColourMap(done + WeekEntries(week)[..ti + 1])
         == ColourMap(done + WeekEntries(week)[..ti])[(week.topics[ti].groupId, week.weekNumber) := week.topics[ti].colour]
  {
    var e := Entry(week.weekNumber, week.topics[ti]);
    assert done + WeekEntries(week)[..ti + 1] == (done + WeekEntries(week)[..ti]) + [e];
    ColourMapSnoc(done + WeekEntries(week)[..ti], e);
  }

  /** `_collect_week_colours`. */
  method CollectWeekColours(weeks: seq<PlanWeek>) returns (colours: map<(int, int), Option<string>>)
    ensures colours == ColourMap(Entries(weeks))
  {
    colours := map[];
    for wi := 0 to |weeks|
      invariant colours == ColourMap(Entries(weeks[..wi]))
    {
      var week := weeks[wi];
      ghost var done := Entries(weeks[..wi]);
      assert done + WeekEntries(week)[..0] == done;
      for ti := 0 to |week.topics|
        invariant colours == ColourMap(done + WeekEntries(week)[..ti])
      {
        var topic := week.topics[ti];
        ColourStep(done, week, ti);
        colours := colours[(topic.groupId, week.weekNumber) := topic.colour];
      }
      assert WeekEntries(week)[..|week.topics|] == WeekEntries(week);
      EntriesSnoc(weeks, wi);
    }
    assert weeks[..|weeks|] == weeks;
  }

  // ---------------------------------------------------------------------
  // One entry: delete, check for hand edits, insert
  // ---------------------------------------------------------------------

  /** What stays fixed while a plan is generated. */
  datatype Context = Context(
    levelId: int,
    start: Day,
    groups: seq<Group>,
    slots: seq<Slot>,
    blackout: seq<Day>,
    colours: map<(int, int), Option<string>>)

  /** The evolving part: the class table, the id counter and the rows
      returned so far. */
  datatype Tables = Tables(classes: seq<ClassRow>, nextId: int, generated: seq<ClassRow>)

  predicate ValidEntry(ctx: Context, e: Entry)
  {
    GroupInLevel(ctx.groups, e.topic.groupId, ctx.levelId)
  }

  /** `colours.get((group_id, week_number))`. */
  function ColourFor(ctx: Context, g: int, w: int): Option<string>
  {
    if (g, w) in ctx.colours then ctx.colours[(g, w)] else None
  }

  predicate InPair(r: ClassRow, g: int, w: int)
  {
    r.data.groupId == g && r.data.weekNumber == w
  }

  /** `DELETE FROM classes WHERE group_id = ? AND week_number = ? AND
      manual_override = 0`. */
  function DeleteUnlocked(rows: seq<ClassRow>, g: int, w: int): (r: seq<ClassRow>)
    ensures forall x :: x in r <==> x in rows && !(InPair(x, g, w) && !x.data.manualOverride)
  {
    if rows == [] then []
    else
      var prev := DeleteUnlocked(rows[..|rows| - 1], g, w);
      var x := rows[|rows| - 1];
      if InPair(x, g, w) && !x.data.manualOverride then prev else prev + [x]
  }

  predicate HasOverride(rows: seq<ClassRow>, g: int, w: int)
  {
    exists i :: 0 <= i < |rows| && InPair(rows[i], g, w) && rows[i].data.manualOverride
  }

  /** The row data inserted for entry `e`, one per slot in `slots` whose
      date is not a no-class day. */
  function NewDataFrom(ctx: Context, e: Entry, slots: seq<Slot>): (ds: seq<ClassData>)
    ensures |ds| <= |slots|
  {
    if slots == [] then []
    else
      var prev := NewDataFrom(ctx, e, slots[..|slots| - 1]);
      var s := slots[|slots| - 1];
      var date := ctx.start + WeekStartOffset(e.weekNumber, s.weekday);
      if date in ctx.blackout then prev
      else
        var g, w := e.topic.groupId, e.weekNumber;
        prev + [ClassData(g, w, date, s.startTime, s.endTime, e.topic.topic, ColourFor(ctx, g, w), "scheduled", false)]
  }

  function NewData(ctx: Context, e: Entry): seq<ClassData>
  {
    NewDataFrom(ctx, e, SlotsOf(ctx.slots, e.topic.groupId))
  }

  /** Rows with consecutive ids from `first`. */
  function Number(ds: seq<ClassData>, first: int): (rows: seq<ClassRow>)
    ensures |rows| == |ds|
  {
    if ds == [] then [] else Number(ds[..|ds| - 1], first) + [ClassRow(first + |ds| - 1, ds[|ds| - 1])]
  }

  function Step(ctx: Context, t: Tables, e: Entry): Tables
  {
    if !ValidEntry(ctx, e) then t
    else
      var g, w := e.topic.groupId, e.weekNumber;
      var kept := DeleteUnlocked(t.classes, g, w);
      if HasOverride(kept, g, w) then t.(classes := kept)
      else
        var added := Number(NewData(ctx, e), t.nextId);
        Tables(kept + added, t.nextId + |added|, t.generated + added)
  }

  function Run(ctx: Context, t: Tables, entries: seq<Entry>): Tables
  {
    if entries == [] then t else Step(ctx, Run(ctx, t, entries[..|entries| - 1]), entries[|entries| - 1])
  }

  lemma RunSnoc(ctx: Context, t: Tables, entries: seq<Entry>, e: Entry)
    ensures Run(ctx, t, entries + [e]) == Step(ctx, Run(ctx, t, entries), e)
  {
    assert (entries + [e])[..|entries|] == entries;
  }

  // ---------------------------------------------------------------------
  // The generator as the source runs it
  // ---------------------------------------------------------------------

  /** The context `generate_classes` works in, once the level is found. */
  function PlanContext(plan: Plan, level: Level, groups: seq<Group>, slots: seq<Slot>, blackout: seq<Day>): Context
  {
    Context(plan.levelId, level.startDate, groups, slots, blackout, ColourMap(Entries(plan.weeks)))
  }

  lemma NumberSnoc(ds: seq<ClassData>, d: ClassData, first: int)
    ensures Number(ds + [d], first) == Number(ds, first) + [ClassRow(first + |ds|, d)]
  {
    assert (ds + [d])[..|ds|] == ds;
  }

  lemma NewDataFromSnoc(ctx: Context, e: Entry, slots: seq<Slot>, k: nat)
    requires k < |slots|
    ensures var s := slots[k];
      var date := ctx.start + WeekStartOffset(e.weekNumber, s.weekday);
      && (date in ctx.blackout ==> NewDataFrom(ctx, e, slots[..k + 1]) == NewDataFrom(ctx, e, slots[..k]))
      && (date !in ctx.blackout ==>
            NewDataFrom(ctx, e, slots[..k + 1])
            == NewDataFrom(ctx, e, slots[..k])
               + [ClassData(e.topic.groupId, e.weekNumber, date, s.startTime, s.endTime, e.topic.topic,
                            ColourFor(ctx, e.topic.groupId, e.weekNumber), "scheduled", false)])
  {
    assert slots[..k + 1][..k] == slots[..k];
  }

  lemma AppendAssoc<T>(a: seq<T>, b: seq<T>, x: T)
    ensures (a + b) + [x] == a + (b + [x])
  {
  }

  /** What one slot adds to the rows an entry creates. */
  lemma InsertSlotStep(ctx: Context, e: Entry, slots: seq<Slot>, k: nat, first: int, row: Option<ClassRow>)
    requires k < |slots|
    requires var s := slots[k];
      var date := ctx.start + WeekStartOffset(e.weekNumber, s.weekday);
      && (date in ctx.blackout ==> row.None?)
      && (date !in ctx.blackout ==>
            row == Some(ClassRow(first + |NewDataFrom(ctx, e, slots[..k])|,
              ClassData(e.topic.groupId, e.weekNumber, date, s.startTime, s.endTime, e.topic.topic,
                        ColourFor(ctx, e.topic.groupId, e.weekNumber), "scheduled", false))))
    ensures row.None? ==> Number(NewDataFrom(ctx, e, slots[..k + 1]), first) == Number(NewDataFrom(ctx, e, slots[..k]), first)
    ensures row.Some? ==> Number(NewDataFrom(ctx, e, slots[..k + 1]), first) == Number(NewDataFrom(ctx, e, slots[..k]), first) + [row.value]
  {
    NewDataFromSnoc(ctx, e, slots, k);
    if row.Some? {
      NumberSnoc(NewDataFrom(ctx, e, slots[..k]), row.value.data, first);
    }
  }

  /** One slot: compute the class date and, unless it is a no-class day,
      insert the row with the next id. */
  method InsertSlot(db: Calendar, ctx: Context, e: Entry, slot: Slot) returns (row: Option<ClassRow>)
    requires db.noClassDays == ctx.blackout
    modifies db
    ensures db.levels == old(db.levels) && db.groups == old(db.groups)
    ensures db.schedules == old(db.schedules) && db.noClassDays == old(db.noClassDays)
    ensures var date := ctx.start + WeekStartOffset(e.weekNumber, slot.weekday);
      && (date in ctx.blackout ==> row.None? && db.classes == old(db.classes) && db.nextId == old(db.nextId))
      && (date !in ctx.blackout ==>
            && row == Some(ClassRow(old(db.nextId),
                 ClassData(e.topic.groupId, e.weekNumber, date, slot.startTime, slot.endTime, e.topic.topic,
                           ColourFor(ctx, e.topic.groupId, e.weekNumber), "scheduled", false)))
            && db.classes == old(db.classes) + [row.value]
            && db.nextId == old(db.nextId) + 1)
  {
    var g, w := e.topic.groupId, e.weekNumber;
    var date := ctx.start + WeekStartOffset(w, slot.weekday);
    if date in db.noClassDays {
      return None;
    }
    var data := ClassData(g, w, date, slot.startTime, slot.endTime, e.topic.topic, ColourFor(ctx, g, w), "scheduled", false);
    var inserted := ClassRow(db.nextId, data);
    db.classes := db.classes + [inserted];
    db.nextId := db.nextId + 1;
    return Some(inserted);
  }

  /** The slot loop for one entry whose group is valid, after the delete:
      skip everything if a hand-edited row remains, otherwise insert a row
      for each slot whose date is not a no-class day. */
  method InsertSlots(db: Calendar, ctx: Context, e: Entry, overrideExists: bool, generated: seq<ClassRow>)
    returns (generated': seq<ClassRow>)
    requires db.schedules == ctx.slots && db.noClassDays == ctx.blackout
    modifies db
    ensures db.levels == old(db.levels) && db.groups == old(db.groups)
    ensures db.schedules == old(db.schedules) && db.noClassDays == old(db.noClassDays)
    ensures overrideExists ==>
      db.classes == old(db.classes) && db.nextId == old(db.nextId) && generated' == generated
    ensures !overrideExists ==>
      var added := Number(NewData(ctx, e), old(db.nextId));
      db.classes == old(db.classes) + added && db.nextId == old(db.nextId) + |added| && generated' == generated + added
  {
    generated' := generated;
    if overrideExists {
      // every slot of the pair is skipped
      return;
    }
    generated' := InsertEach(db, ctx, e, SlotsOf(db.schedules, e.topic.groupId), generated);
  }

  /** The slot loop of `generate_classes` (`for slot in schedule_rows`): one class per slot whose
      date is not a no-class day, numbered on from the counter. */
  method InsertEach(db: Calendar, ctx: Context, e: Entry, slots: seq<Slot>, generated: seq<ClassRow>)
    returns (generated': seq<ClassRow>)
    requires db.noClassDays == ctx.blackout
    modifies db
    ensures db.levels == old(db.levels) && db.groups == old(db.groups)
    ensures db.schedules == old(db.schedules) && db.noClassDays == old(db.noClassDays)
    ensures var added := Number(NewDataFrom(ctx, e, slots), old(db.nextId));
      db.classes == old(db.classes) + added && db.nextId == old(db.nextId) + |added| && generated' == generated + added
  {
    generated' := generated;
    ghost var kept, first := db.classes, db.nextId;
    ghost var added: seq<ClassRow> := [];
    for k := 0 to |slots|
      invariant db.levels == old(db.levels) && db.groups == old(db.groups)
      invariant db.schedules == old(db.schedules) && db.noClassDays == old(db.noClassDays)
      invariant db.classes == kept + added && db.nextId == first + |added| && generated' == generated + added
      invariant added == Number(NewDataFrom(ctx, e, slots[..k]), first)
    {
      var row := InsertSlot(db, ctx, e, slots[k]);
      InsertSlotStep(ctx, e, slots, k, first, row);
      if row.Some? {
        AppendAssoc(kept, added, row.value);
        AppendAssoc(generated, added, row.value);
        generated' := generated' + [row.value];
        added := added + [row.value];
      }
    }
    assert slots[..|slots|] == slots;
  }

  /** The body of the topic loop: check the group, delete the pair's
      unlocked rows, then run the slot loop. */
  method ProcessEntry(db: Calendar, ctx: Context, e: Entry, generated: seq<ClassRow>)
    returns (generated': seq<ClassRow>)
    requires db.groups == ctx.groups && db.schedules == ctx.slots && db.noClassDays == ctx.blackout
    modifies db
    ensures db.levels == old(db.levels) && db.groups == old(db.groups)
    ensures db.schedules == old(db.schedules) && db.noClassDays == old(db.noClassDays)
    ensures Tables(db.classes, db.nextId, generated')
         == Step(ctx, Tables(old(db.classes), old(db.nextId), generated), e)
  {
    var g, w := e.topic.groupId, e.weekNumber;
    var group := FindGroup(db.groups, g);
    if group.None? || group.value.levelId != ctx.levelId {
      return generated;
    }
    db.classes := DeleteUnlocked(db.classes, g, w);
    var overrideExists := exists i :: 0 <= i < |db.classes| && InPair(db.classes[i], g, w) && db.classes[i].data.manualOverride;
    generated' := InsertSlots(db, ctx, e, overrideExists, generated);
  }

  /** One more topic of a plan week appended to the entries done so far. */
  lemma WeekStep(done: seq<Entry>, week: PlanWeek, ti: nat)
    requires ti < |week.topics|
    ensures done + WeekEntries(week)[..ti + 1] == (done + WeekEntries(week)[..ti]) + [Entry(week.weekNumber, week.topics[ti])]
  {
    assert WeekEntries(week)[..ti + 1] == WeekEntries(week)[..ti] + [WeekEntries(week)[ti]];
  }

  /** The inner loop of `generate_classes`: every topic of one plan week
      in turn, after the entries `done` of the earlier weeks. */
  method ProcessWeek(db: Calendar, ctx: Context, ghost t0: Tables, ghost done: seq<Entry>, week: PlanWeek, generated: seq<ClassRow>)
    returns (generated': seq<ClassRow>)
    requires db.groups == ctx.groups && db.schedules == ctx.slots && db.noClassDays == ctx.blackout
    requires Tables(db.classes, db.nextId, generated) == Run(ctx, t0, done)
    modifies db
    ensures db.levels == old(db.levels) && db.groups == old(db.groups)
    ensures db.schedules == old(db.schedules) && db.noClassDays == old(db.noClassDays)
    ensures Tables(db.classes, db.nextId, generated') == Run(ctx, t0, done + WeekEntries(week))
  {
    generated' := generated;
    assert done + WeekEntries(week)[..0] == done;
    for ti := 0 to |week.topics|
      invariant db.levels == old(db.levels) && db.groups == old(db.groups)
      invariant db.schedules == old(db.schedules) && db.noClassDays == old(db.noClassDays)
      invariant Tables(db.classes, db.nextId, generated') == Run(ctx, t0, done + WeekEntries(week)[..ti])
    {
      var e := Entry(week.weekNumber, week.topics[ti]);
      generated' := ProcessEntry(db, ctx, e, generated');
      RunSnoc(ctx, t0, done + WeekEntries(week)[..ti], e);
      WeekStep(done, week, ti);
    }
    assert WeekEntries(week)[..|week.topics|] == WeekEntries(week);
  }

  /** `generate_classes`. An unknown level is refused before the empty-plan
      check; otherwise the result and the new class table are those of
      `Run` over the plan's entries. */
  method GenerateClasses(plan: Plan, db: Calendar) returns (r: Result<seq<ClassRow>, SchedulerError>)
    requires db.Valid()
    modifies db
    ensures db.Valid()
    ensures db.levels == old(db.levels) && db.groups == old(db.groups)
    ensures db.schedules == old(db.schedules) && db.noClassDays == old(db.noClassDays)
    ensures FindLevel(old(db.levels), plan.levelId).None? ==>
      r == Err(LevelNotFound(plan.levelId)) && db.classes == old(db.classes) && db.nextId == old(db.nextId)
    ensures plan.weeks == [] && FindLevel(old(db.levels), plan.levelId).Some? ==>
      r == Ok([]) && db.classes == old(db.classes) && db.nextId == old(db.nextId)
    ensures FindLevel(old(db.levels), plan.levelId).Some? ==>
      var ctx := PlanContext(plan, FindLevel(old(db.levels), plan.levelId).value, old(db.groups), old(db.schedules), old(db.noClassDays));
      var t := Run(ctx, Tables(old(db.classes), old(db.nextId), []), Entries(plan.weeks));
      r == Ok(t.generated) && db.classes == t.classes && db.nextId == t.nextId
  {
    var level := FindLevel(db.levels, plan.levelId);
    if level.None? {
      return Err(LevelNotFound(plan.levelId));
    }
    if plan.weeks == [] {
      return Ok([]);
    }
    var colours := CollectWeekColours(plan.weeks);
    var ctx := Context(plan.levelId, level.value.startDate, db.groups, db.schedules, db.noClassDays, colours);
    ghost var t0 := Tables(db.classes, db.nextId, []);
    RunValid(ctx, t0, []);
    var generated: seq<ClassRow> := [];
    for wi := 0 to |plan.weeks|
      invariant db.levels == old(db.levels) && db.groups == old(db.groups)
      invariant db.schedules == old(db.schedules) && db.noClassDays == old(db.noClassDays)
      invariant Tables(db.classes, db.nextId, generated) == Run(ctx, t0, Entries(plan.weeks[..wi]))
    {
      generated := ProcessWeek(db, ctx, t0, Entries(plan.weeks[..wi]), plan.weeks[wi], generated);
      EntriesSnoc(plan.weeks, wi);
    }
    assert plan.weeks[..|plan.weeks|] == plan.weeks;
    RunValid(ctx, t0, Entries(plan.weeks));
    return Ok(generated);
  }

  // ---------------------------------------------------------------------
  // What the fold guarantees
  // ---------------------------------------------------------------------

  function PairRows(rows: seq<ClassRow>, g: int, w: int): (r: seq<ClassRow>)
    ensures forall x :: x in r <==> x in rows && InPair(x, g, w)
  {
    if rows == [] then []
    else
      var prev := PairRows(rows[..|rows| - 1], g, w);
      var x := rows[|rows| - 1];
      if InPair(x, g, w) then prev + [x] else prev
  }

  function Datas(rows: seq<ClassRow>): (ds: seq<ClassData>)
    ensures |ds| == |rows|
  {
    if rows == [] then [] else Datas(rows[..|rows| - 1]) + [rows[|rows| - 1].data]
  }

  /** The contents of the pair's rows, ids aside. */
  function PairData(rows: seq<ClassRow>, g: int, w: int): seq<ClassData>
  {
    Datas(PairRows(rows, g, w))
  }

  function OverrideRows(rows: seq<ClassRow>): (r: seq<ClassRow>)
    ensures forall x :: x in r <==> x in rows && x.data.manualOverride
  {
    if rows == [] then []
    else
      var prev := OverrideRows(rows[..|rows| - 1]);
      var x := rows[|rows| - 1];
      if x.data.manualOverride then prev + [x] else prev
  }

  /** The index of the last entry for (g, w) that the generator acts on,
      or -1. */
  function LastValidFor(ctx: Context, entries: seq<Entry>, g: int, w: int): (k: int)
    ensures -1 <= k < |entries|
    ensures k >= 0 ==> Pair(entries[k]) == (g, w) && ValidEntry(ctx, entries[k])
    ensures forall j :: k < j < |entries| ==> !(Pair(entries[j]) == (g, w) && ValidEntry(ctx, entries[j]))
  {
    if entries == [] then -1
    else if Pair(entries[|entries| - 1]) == (g, w) && ValidEntry(ctx, entries[|entries| - 1]) then |entries| - 1
    else LastValidFor(ctx, entries[..|entries| - 1], g, w)
  }

  lemma {:induction false} PairRowsAppend(a: seq<ClassRow>, b: seq<ClassRow>, g: int, w: int)
    ensures PairRows(a + b, g, w) == PairRows(a, g, w) + PairRows(b, g, w)
    decreases |b|
  {
    if b == [] {
      assert a + b == a;
    } else {
      assert (a + b)[..|a + b| - 1] == a + b[..|b| - 1];
      PairRowsAppend(a, b[..|b| - 1], g, w);
    }
  }

  /** Deleting another pair's unlocked rows leaves this pair's rows. */
  lemma {:induction false} PairRowsDeleteOther(rows: seq<ClassRow>, g: int, w: int, g': int, w': int)
    requires (g, w) != (g', w')
    ensures PairRows(DeleteUnlocked(rows, g', w'), g, w) == PairRows(rows, g, w)
  {
    if rows != [] {
      var init := rows[..|rows| - 1];
      PairRowsDeleteOther(init, g, w, g', w');
      var x := rows[|rows| - 1];
      if !(InPair(x, g', w') && !x.data.manualOverride) {
        PairRowsAppend(DeleteUnlocked(init, g', w'), [x], g, w);
      }
    }
  }

  /** Deleting a pair's unlocked rows leaves exactly its hand-edited rows. */
  lemma {:induction false} PairRowsDeleteSame(rows: seq<ClassRow>, g: int, w: int)
    ensures PairRows(DeleteUnlocked(rows, g, w), g, w) == OverrideRows(PairRows(rows, g, w))
  {
    if rows != [] {
      var init := rows[..|rows| - 1];
      PairRowsDeleteSame(init, g, w);
      var x := rows[|rows| - 1];
      if !(InPair(x, g, w) && !x.data.manualOverride) {
        PairRowsAppend(DeleteUnlocked(init, g, w), [x], g, w);
        if InPair(x, g, w) {
          assert (PairRows(init, g, w) + [x])[..|PairRows(init, g, w)|] == PairRows(init, g, w);
        }
      } else {
        assert (PairRows(init, g, w) + [x])[..|PairRows(init, g, w)|] == PairRows(init, g, w);
      }
    }
  }

  lemma {:induction false} NewDataPair(ctx: Context, e: Entry, slots: seq<Slot>)
    ensures forall i :: 0 <= i < |NewDataFrom(ctx, e, slots)| ==>
      var d := NewDataFrom(ctx, e, slots)[i];
      d.groupId == e.topic.groupId && d.weekNumber == e.weekNumber && !d.manualOverride
  {
    if slots != [] {
      NewDataPair(ctx, e, slots[..|slots| - 1]);
    }
  }

  /** `d` is the row data the generator inserts for slot `s` of entry `e`:
      dated `start + (week - 1) * 7 + weekday`, outside the no-class days,
      with the slot's times, the entry's topic, the pair's colour, status
      "scheduled" and no hand edit. */
  predicate InsertedFor(ctx: Context, e: Entry, s: Slot, d: ClassData)
  {
    && d.date == ctx.start + (e.weekNumber - 1) * 7 + s.weekday
    && d.date !in ctx.blackout
    && d.groupId == e.topic.groupId && d.weekNumber == e.weekNumber
    && d.startTime == s.startTime && d.endTime == s.endTime
    && d.topic == e.topic.topic && d.colour == ColourFor(ctx, e.topic.groupId, e.weekNumber)
    && d.status == "scheduled" && !d.manualOverride
  }

  /** Every inserted row comes from a slot as `InsertedFor` says, and every
      slot whose date is not a no-class day yields one. */
  lemma {:induction false} NewDataFromSlots(ctx: Context, e: Entry, slots: seq<Slot>)
    ensures forall d :: d in NewDataFrom(ctx, e, slots) ==> exists s :: s in slots && InsertedFor(ctx, e, s, d)
    ensures forall s :: s in slots && ctx.start + WeekStartOffset(e.weekNumber, s.weekday) !in ctx.blackout ==>
      exists d :: d in NewDataFrom(ctx, e, slots) && InsertedFor(ctx, e, s, d)
  {
    if slots != [] {
      var init := slots[..|slots| - 1];
      var last := slots[|slots| - 1];
      NewDataFromSlots(ctx, e, init);
      assert slots == init + [last];
      var prev := NewDataFrom(ctx, e, init);
      var date := ctx.start + WeekStartOffset(e.weekNumber, last.weekday);
      if date !in ctx.blackout {
        var g, w := e.topic.groupId, e.weekNumber;
        var d := ClassData(g, w, date, last.startTime, last.endTime, e.topic.topic, ColourFor(ctx, g, w), "scheduled", false);
        assert NewDataFrom(ctx, e, slots) == prev + [d];
        assert InsertedFor(ctx, e, last, d);
      }
    }
  }

  lemma {:induction false} NumberAt(ds: seq<ClassData>, first: int)
    ensures forall i :: 0 <= i < |ds| ==> Number(ds, first)[i] == ClassRow(first + i, ds[i])
  {
    if ds != [] {
      NumberAt(ds[..|ds| - 1], first);
    }
  }

  /** The rows inserted for an entry all belong to its pair, are not hand
      edited, and carry the new ids. */
  lemma FreshRows(ctx: Context, e: Entry, first: int)
    ensures var added := Number(NewData(ctx, e), first);
      forall i :: 0 <= i < |added| ==>
        InPair(added[i], e.topic.groupId, e.weekNumber) && !added[i].data.manualOverride
        && added[i].id == first + i && added[i].data == NewData(ctx, e)[i]
  {
    NewDataPair(ctx, e, SlotsOf(ctx.slots, e.topic.groupId));
    NumberAt(NewData(ctx, e), first);
  }

  lemma {:induction false} PairRowsAll(rows: seq<ClassRow>, g: int, w: int)
    requires forall i :: 0 <= i < |rows| ==> InPair(rows[i], g, w)
    ensures PairRows(rows, g, w) == rows
  {
    if rows != [] {
      PairRowsAll(rows[..|rows| - 1], g, w);
    }
  }

  lemma {:induction false} PairRowsNone(rows: seq<ClassRow>, g: int, w: int)
    requires forall i :: 0 <= i < |rows| ==> !InPair(rows[i], g, w)
    ensures PairRows(rows, g, w) == []
  {
    if rows != [] {
      PairRowsNone(rows[..|rows| - 1], g, w);
    }
  }

  lemma {:induction false} DatasNumber(ds: seq<ClassData>, first: int)
    ensures Datas(Number(ds, first)) == ds
  {
    if ds != [] {
      DatasNumber(ds[..|ds| - 1], first);
      assert Number(ds, first)[..|ds| - 1] == Number(ds[..|ds| - 1], first);
    }
  }

  /** The class table keeps every id below the counter. */
  lemma {:induction false} RunValid(ctx: Context, t: Tables, entries: seq<Entry>)
    requires IdsBelow(t.classes, t.nextId)
    ensures IdsBelow(Run(ctx, t, entries).classes, Run(ctx, t, entries).nextId)
    ensures t.nextId <= Run(ctx, t, entries).nextId
  {
    if entries != [] {
      var prev := Run(ctx, t, entries[..|entries| - 1]);
      RunValid(ctx, t, entries[..|entries| - 1]);
      var e := entries[|entries| - 1];
      if ValidEntry(ctx, e) {
        var kept := DeleteUnlocked(prev.classes, e.topic.groupId, e.weekNumber);
        assert IdsBelow(kept, prev.nextId) by {
          forall i | 0 <= i < |kept| ensures kept[i].id < prev.nextId {
            assert kept[i] in prev.classes;
          }
        }
        FreshRows(ctx, e, prev.nextId);
      }
    }
  }

  /** Rows edited by hand are never deleted or changed by the generator. */
  lemma {:induction false} OverrideRowsSurvive(ctx: Context, t: Tables, entries: seq<Entry>, r: ClassRow)
    requires r in t.classes && r.data.manualOverride
    ensures r in Run(ctx, t, entries).classes
  {
    if entries != [] {
      OverrideRowsSurvive(ctx, t, entries[..|entries| - 1], r);
    }
  }

  /** The generator never creates a hand-edited row. */
  lemma {:induction false} NoNewOverrides(ctx: Context, t: Tables, entries: seq<Entry>, g: int, w: int)
    requires !HasOverride(t.classes, g, w)
    ensures !HasOverride(Run(ctx, t, entries).classes, g, w)
  {
    if entries != [] {
      NoNewOverrides(ctx, t, entries[..|entries| - 1], g, w);
      var prev := Run(ctx, t, entries[..|entries| - 1]);
      var e := entries[|entries| - 1];
      if ValidEntry(ctx, e) {
        var kept := DeleteUnlocked(prev.classes, e.topic.groupId, e.weekNumber);
        FreshRows(ctx, e, prev.nextId);
        var rows := Run(ctx, t, entries).classes;
        forall i | 0 <= i < |rows| && InPair(rows[i], g, w) ensures !rows[i].data.manualOverride {
          if i < |kept| {
            assert rows[i] in prev.classes;
          }
        }
      }
    }
  }

  /** A pair no entry acts on keeps its rows. */
  lemma {:induction false} UnprocessedPairUnchanged(ctx: Context, t: Tables, entries: seq<Entry>, g: int, w: int)
    requires LastValidFor(ctx, entries, g, w) < 0
    ensures PairRows(Run(ctx, t, entries).classes, g, w) == PairRows(t.classes, g, w)
  {
    if entries != [] {
      var n := |entries| - 1;
      UnprocessedPairUnchanged(ctx, t, entries[..n], g, w);
      StepOtherPair(ctx, Run(ctx, t, entries[..n]), entries[n], g, w);
    }
  }

  /** An entry for another pair, or one the generator skips, leaves this
      pair's rows alone. */
  lemma StepOtherPair(ctx: Context, t: Tables, e: Entry, g: int, w: int)
    requires !(Pair(e) == (g, w) && ValidEntry(ctx, e))
    ensures PairRows(Step(ctx, t, e).classes, g, w) == PairRows(t.classes, g, w)
  {
    if ValidEntry(ctx, e) {
      var kept := DeleteUnlocked(t.classes, e.topic.groupId, e.weekNumber);
      PairRowsDeleteOther(t.classes, g, w, e.topic.groupId, e.weekNumber);
      if !HasOverride(kept, e.topic.groupId, e.weekNumber) {
        var added := Number(NewData(ctx, e), t.nextId);
        FreshRows(ctx, e, t.nextId);
        PairRowsAppend(kept, added, g, w);
        PairRowsNone(added, g, w);
      }
    }
  }

  /** If the pair has no hand-edited row, the pair's rows after the run
      are exactly the rows of the last entry the generator acts on for
      it: one per schedule slot whose date is not a no-class day. */
  lemma {:induction false} LastEntryDetermines(ctx: Context, t: Tables, entries: seq<Entry>, g: int, w: int)
    requires !HasOverride(t.classes, g, w)
    requires LastValidFor(ctx, entries, g, w) >= 0
    ensures PairData(Run(ctx, t, entries).classes, g, w) == NewData(ctx, entries[LastValidFor(ctx, entries, g, w)])
  {
    var n := |entries| - 1;
    var k := LastValidFor(ctx, entries, g, w);
    var prev := Run(ctx, t, entries[..n]);
    if k < n {
      assert LastValidFor(ctx, entries[..n], g, w) == k;
      LastEntryDetermines(ctx, t, entries[..n], g, w);
      StepOtherPair(ctx, prev, entries[n], g, w);
    } else {
      NoNewOverrides(ctx, t, entries[..n], g, w);
      StepReplacesPair(ctx, prev, entries[n]);
    }
  }

  /** An entry the generator acts on, for a pair with no hand-edited row,
      leaves the pair holding exactly the entry's new rows. */
  lemma StepReplacesPair(ctx: Context, t: Tables, e: Entry)
    requires ValidEntry(ctx, e)
    requires !HasOverride(t.classes, e.topic.groupId, e.weekNumber)
    ensures PairData(Step(ctx, t, e).classes, e.topic.groupId, e.weekNumber) == NewData(ctx, e)
  {
    var g, w := e.topic.groupId, e.weekNumber;
    var kept := DeleteUnlocked(t.classes, g, w);
    var added := Number(NewData(ctx, e), t.nextId);
    assert Step(ctx, t, e).classes == kept + added;
    PairRowsAppend(kept, added, g, w);
    PairRowsDeleteSame(t.classes, g, w);
    NoOverrideRows(PairRows(t.classes, g, w), t.classes, g, w);
    assert PairRows(kept, g, w) == [];
    FreshRows(ctx, e, t.nextId);
    PairRowsAll(added, g, w);
    assert PairRows(kept + added, g, w) == added;
    DatasNumber(NewData(ctx, e), t.nextId);
  }

  lemma {:induction false} NoOverrideRows(rows: seq<ClassRow>, all: seq<ClassRow>, g: int, w: int)
    requires !HasOverride(all, g, w)
    requires forall x :: x in rows ==> x in all && InPair(x, g, w)
    ensures OverrideRows(rows) == []
  {
    if rows != [] {
      var x := rows[|rows| - 1];
      assert x in rows;
      var i :| 0 <= i < |all| && all[i] == x;
      NoOverrideRows(rows[..|rows| - 1], all, g, w);
    }
  }

  lemma {:induction false} OverrideRowsIdempotent(rows: seq<ClassRow>)
    ensures OverrideRows(OverrideRows(rows)) == OverrideRows(rows)
  {
    if rows != [] {
      var init := rows[..|rows| - 1];
      OverrideRowsIdempotent(init);
      var x := rows[|rows| - 1];
      if x.data.manualOverride {
        assert (OverrideRows(init) + [x])[..|OverrideRows(init)|] == OverrideRows(init);
      }
    }
  }

  /** With a hand-edited row for the pair, once the generator acts on the
      pair its rows are exactly the hand-edited ones it had: nothing is
      inserted for the pair and those rows are kept unchanged. */
  lemma {:induction false} OverrideBlocksPair(ctx: Context, t: Tables, entries: seq<Entry>, g: int, w: int)
    requires HasOverride(t.classes, g, w)
    requires LastValidFor(ctx, entries, g, w) >= 0
    ensures PairRows(Run(ctx, t, entries).classes, g, w) == OverrideRows(PairRows(t.classes, g, w))
  {
    var n := |entries| - 1;
    var k := LastValidFor(ctx, entries, g, w);
    var prev := Run(ctx, t, entries[..n]);
    if k < n {
      assert LastValidFor(ctx, entries[..n], g, w) == k;
      OverrideBlocksPair(ctx, t, entries[..n], g, w);
      StepOtherPair(ctx, prev, entries[n], g, w);
    } else {
      if LastValidFor(ctx, entries[..n], g, w) >= 0 {
        OverrideBlocksPair(ctx, t, entries[..n], g, w);
      }
      OverrideAtLast(ctx, t, entries, g, w);
    }
  }

  /** The step of `OverrideBlocksPair` where the last entry is the pair's:
      the earlier entries left the pair's hand-edited rows, and the last
      one keeps exactly those. */
  lemma OverrideAtLast(ctx: Context, t: Tables, entries: seq<Entry>, g: int, w: int)
    requires HasOverride(t.classes, g, w)
    requires entries != [] && LastValidFor(ctx, entries, g, w) == |entries| - 1
    requires var n := |entries| - 1;
      LastValidFor(ctx, entries[..n], g, w) >= 0 ==>
        PairRows(Run(ctx, t, entries[..n]).classes, g, w) == OverrideRows(PairRows(t.classes, g, w))
    ensures PairRows(Run(ctx, t, entries).classes, g, w) == OverrideRows(PairRows(t.classes, g, w))
  {
    var n := |entries| - 1;
    var prev := Run(ctx, t, entries[..n]);
    var before := PairRows(prev.classes, g, w);
    if LastValidFor(ctx, entries[..n], g, w) >= 0 {
      OverrideRowsIdempotent(PairRows(t.classes, g, w));
    } else {
      UnprocessedPairUnchanged(ctx, t, entries[..n], g, w);
    }
    assert OverrideRows(before) == OverrideRows(PairRows(t.classes, g, w));
    var i :| 0 <= i < |t.classes| && InPair(t.classes[i], g, w) && t.classes[i].data.manualOverride;
    OverrideRowsSurvive(ctx, t, entries[..n], t.classes[i]);
    OverrideKept(prev.classes, t.classes[i], g, w);
    PairRowsDeleteSame(prev.classes, g, w);
  }

  /** The DELETE of unlocked rows keeps a hand-edited row of the pair. */
  lemma OverrideKept(rows: seq<ClassRow>, x: ClassRow, g: int, w: int)
    requires x in rows && InPair(x, g, w) && x.data.manualOverride
    ensures HasOverride(DeleteUnlocked(rows, g, w), g, w)
  {
    var kept := DeleteUnlocked(rows, g, w);
    assert x in kept;
    var j :| 0 <= j < |kept| && kept[j] == x;
  }

  /** Re-running the same plan reproduces every (group, week)'s row
      contents; only the ids of regenerated rows differ. */
  lemma RerunSameContents(ctx: Context, t: Tables, entries: seq<Entry>, g: int, w: int)
    ensures var once := Run(ctx, t, entries);
      PairData(Run(ctx, once, entries).classes, g, w) == PairData(once.classes, g, w)
  {
    var once := Run(ctx, t, entries);
    var k := LastValidFor(ctx, entries, g, w);
    if k < 0 {
      UnprocessedPairUnchanged(ctx, once, entries, g, w);
    } else if HasOverride(t.classes, g, w) {
      OverrideBlocksPair(ctx, t, entries, g, w);
      var i :| 0 <= i < |t.classes| && InPair(t.classes[i], g, w) && t.classes[i].data.manualOverride;
      OverrideRowsSurvive(ctx, t, entries, t.classes[i]);
      var j :| 0 <= j < |once.classes| && once.classes[j] == t.classes[i];
      assert HasOverride(once.classes, g, w);
      OverrideBlocksPair(ctx, once, entries, g, w);
      OverrideRowsIdempotent(PairRows(t.classes, g, w));
    } else {
      LastEntryDetermines(ctx, t, entries, g, w);
      NoNewOverrides(ctx, t, entries, g, w);
      LastEntryDetermines(ctx, once, entries, g, w);
    }
  }
}
