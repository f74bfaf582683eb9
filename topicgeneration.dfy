/** Generated content for the topics of a class schedule
    (backend/routers/classes.py): superseding what a topic already has,
    storing what the planner returns, regenerating a list of topics, and
    choosing which topics a generation request regenerates. */
module TopicGeneration {
  import opened Common
  import opened Topics

  /** A planned activity (title; description) or resource (name; url,
      type, notes). */
  datatype Artifact = Artifact(title: string, details: seq<Option<string>>)

  /** The provenance dict the planner reports, split by how the router
      treats its keys: `model` is its "model" key if it has one, `history`
      its "history" list (empty if it has none), and `others` every other
      key except the four the router overwrites ("trigger", "topic_id",
      "generated_at", "artifact"), with its JSON text. */
  datatype PlannerProvenance = PlannerProvenance(model: Option<string>, history: seq<HistoryEntry>, others: seq<(string, string)>)

  /** What the planner returns for one topic. */
  datatype PlannerOutput = PlannerOutput(activities: seq<Artifact>, resources: seq<Artifact>, provenance: PlannerProvenance)

  /** The context the planner receives for one topic. */
  datatype PlannerTopic = PlannerTopic(
    topicTitle: string,
    topicDescription: Option<string>,
    scheduledDate: Day,
    className: string,
    subject: Option<string>,
    gradeLevel: Option<string>)

  /** `_topic_to_context`: the topic's own fields and its schedule's header. */
  function TopicContext(t: Topic, s: Schedule): PlannerTopic
  {
    PlannerTopic(t.title, t.description, t.date, s.name, s.subject, s.gradeLevel)
  }

  function Contexts(topics: seq<Topic>, s: Schedule): (r: seq<PlannerTopic>)
    ensures |r| == |topics|
  {
    seq(|topics|, i requires 0 <= i < |topics| => TopicContext(topics[i], s))
  }

  // ---------------------------------------------------------------------
  // Superseding a topic's content
  // ---------------------------------------------------------------------

  function SupersedeEntry(reason: string, at: Stamp): HistoryEntry
  {
    HistoryEntry("superseded", reason, at)
  }

  /** The row as the UPDATE leaves it: flagged, with one more history entry. */
  function MarkSuperseded(c: Content, e: HistoryEntry): Content
  {
    c.(superseded := true, provenance := c.provenance.(history := c.provenance.history + [e]))
  }

  /** The rows the snapshot query selects: the topic's unsuperseded rows. */
  predicate Active(c: Content, topicId: int)
  {
    c.topicId == topicId && !c.superseded
  }

  /** An `activities` or `resources` table after `_supersede_existing_content`. */
  function SupersedeAll(rows: seq<Content>, topicId: int, e: HistoryEntry): (r: seq<Content>)
    ensures |r| == |rows|
    ensures forall i :: 0 <= i < |r| ==> r[i].id == rows[i].id && r[i].topicId == rows[i].topicId && !Active(r[i], topicId)
    ensures forall i :: 0 <= i < |r| ==>
      var h, h' := rows[i].provenance.history, r[i].provenance.history;
      |h| <= |h'| && h'[..|h|] == h && |h'| == |h| + (if Active(rows[i], topicId) then 1 else 0)
    ensures forall i :: 0 <= i < |r| && Active(rows[i], topicId) ==> r[i].provenance.history[|rows[i].provenance.history|] == e
    ensures forall i :: 0 <= i < |r| && !Active(rows[i], topicId) ==> r[i] == rows[i]
  {
    seq(|rows|, i requires 0 <= i < |rows| => if Active(rows[i], topicId) then MarkSuperseded(rows[i], e) else rows[i])
  }

  /** Superseding twice changes nothing more than superseding once. */
  lemma SupersedeIdempotent(rows: seq<Content>, topicId: int, e: HistoryEntry, e': HistoryEntry)
    ensures SupersedeAll(SupersedeAll(rows, topicId, e), topicId, e') == SupersedeAll(rows, topicId, e)
  {
    var once := SupersedeAll(rows, topicId, e);
    var twice := SupersedeAll(once, topicId, e');
    forall i | 0 <= i < |once| ensures twice[i] == once[i] {
      assert !Active(once[i], topicId);
    }
  }

  /** The UPDATE loop over one table: the snapshot of active rows is read
      first, then each of its rows is written back by id. */
  method SupersedeRows(rows0: seq<Content>, topicId: int, e: HistoryEntry) returns (rows: seq<Content>)
    requires UniqueBy(rows0, ContentId)
    ensures rows == SupersedeAll(rows0, topicId, e)
  {
    var p := (c: Content) => Active(c, topicId);
    var f := (c: Content) => MarkSuperseded(c, e);
    var snapshot := Where(rows0, p);
    SnapshotMembers(rows0, snapshot, p);
    rows := rows0;
    var k := 0;
    while k < |snapshot|
      invariant k <= |snapshot|
      invariant UpdatedFrom(rows0, rows, snapshot[..k], f)
    {
      var s := snapshot[k];
      var provenance := f(s).provenance;
      var g := (c: Content) => c.(superseded := true, provenance := provenance);
      UpdateStep(rows0, rows, snapshot, k, ContentId, f, g);
      rows := MapWhere(rows, ContentId, s.id, g);
      k := k + 1;
    }
    assert snapshot[..k] == snapshot;
    UpdatedAll(rows0, rows, snapshot, f, p);
  }

  lemma SupersedeKeepsIds(rows: seq<Content>, topicId: int, e: HistoryEntry, bound: int)
    requires UniqueBy(rows, ContentId) && IdsBelow(rows, ContentId, bound)
    ensures UniqueBy(SupersedeAll(rows, topicId, e), ContentId)
    ensures IdsBelow(SupersedeAll(rows, topicId, e), ContentId, bound)
  {
  }

  /** `_supersede_existing_content`: both tables, with one timestamp. */
  method SupersedeExistingContent(db: TopicStore, topicId: int, reason: string, at: Stamp)
    requires db.Valid()
    modifies db
    ensures db.Valid()
    ensures db.activities == SupersedeAll(old(db.activities), topicId, SupersedeEntry(reason, at))
    ensures db.resources == SupersedeAll(old(db.resources), topicId, SupersedeEntry(reason, at))
    ensures db.schedules == old(db.schedules) && db.topics == old(db.topics)
    ensures db.nextTopicId == old(db.nextTopicId) && db.nextActivityId == old(db.nextActivityId)
    ensures db.nextResourceId == old(db.nextResourceId)
  {
    var e := SupersedeEntry(reason, at);
    SupersedeKeepsIds(db.activities, topicId, e, db.nextActivityId);
    SupersedeKeepsIds(db.resources, topicId, e, db.nextResourceId);
    var activities := SupersedeRows(db.activities, topicId, e);
    db.activities := activities;
    var resources := SupersedeRows(db.resources, topicId, e);
    db.resources := resources;
  }

  // ---------------------------------------------------------------------
  // Storing the planner's output
  // ---------------------------------------------------------------------

  /** The provenance shared by everything stored for one topic: a copy of
      the planner's, its model defaulting to "unknown", with the trigger,
      the topic and the time written over it. */
  function BaseProvenance(out: PlannerOutput, trigger: string, topicId: int, at: Stamp): Provenance
  {
    var p := out.provenance;
    var model := if p.model.Some? then p.model.value else "unknown";
    Provenance(model, trigger, topicId, at, "", p.history, p.others)
  }

  /** Each stored row carries the planner's provenance: its model (or
      "unknown"), its history and its other keys, under the router's
      trigger, topic, time and the row's artifact kind. */
  lemma StoredProvenance(firstId: int, topicId: int, arts: seq<Artifact>, out: PlannerOutput, trigger: string,
                         kind: string, at: Stamp, i: int)
    requires 0 <= i < |arts|
    ensures var p := NewContent(firstId, topicId, arts, BaseProvenance(out, trigger, topicId, at), kind, at)[i].provenance;
      && p.model == (match out.provenance.model case Some(m) => m case None => "unknown")
      && p.history == out.provenance.history && p.others == out.provenance.others
      && p.trigger == trigger && p.topicId == topicId && p.generatedAt == at && p.artifact == kind
  {
  }

  /** The rows the INSERT loop adds, with the ids AUTOINCREMENT hands out. */
  function NewContent(firstId: int, topicId: int, arts: seq<Artifact>, base: Provenance, kind: string, at: Stamp): (r: seq<Content>)
    ensures |r| == |arts|
  {
    seq(|arts|, i requires 0 <= i < |arts| =>
      Content(firstId + i, topicId, arts[i].title, arts[i].details, base.(artifact := kind), at, false))
  }

  /** One INSERT loop of `_store_generation_result`. */
  method AppendContent(rows0: seq<Content>, nextId: int, topicId: int, arts: seq<Artifact>, base: Provenance, kind: string, at: Stamp)
    returns (rows: seq<Content>, next: int)
    ensures rows == rows0 + NewContent(nextId, topicId, arts, base, kind, at)
    ensures next == nextId + |arts|
  {
    rows, next := rows0, nextId;
    for k := 0 to |arts|
      invariant rows == rows0 + NewContent(nextId, topicId, arts[..k], base, kind, at)
      invariant next == nextId + k
    {
      rows := rows + [Content(next, topicId, arts[k].title, arts[k].details, base.(artifact := kind), at, false)];
      next := next + 1;
    }
    assert arts[..|arts|] == arts;
  }

  /** Fresh rows keep ids unique and below the advanced counter. */
  lemma AppendFresh(rows: seq<Content>, nextId: int, topicId: int, arts: seq<Artifact>, base: Provenance, kind: string, at: Stamp)
    requires UniqueBy(rows, ContentId) && IdsBelow(rows, ContentId, nextId)
    ensures UniqueBy(rows + NewContent(nextId, topicId, arts, base, kind, at), ContentId)
    ensures IdsBelow(rows + NewContent(nextId, topicId, arts, base, kind, at), ContentId, nextId + |arts|)
  {
    var all := rows + NewContent(nextId, topicId, arts, base, kind, at);
    forall i, j | 0 <= i < j < |all| ensures all[i].id != all[j].id {
      if j >= |rows| && i < |rows| {
        assert all[i].id < nextId <= all[j].id;
      }
    }
  }

  /** `_store_generation_result`: the activities, then the resources. */
  method StoreGenerationResult(db: TopicStore, topicId: int, out: PlannerOutput, trigger: string, at: Stamp)
    requires db.Valid()
    modifies db
    ensures db.Valid()
    ensures var base := BaseProvenance(out, trigger, topicId, at);
      && db.activities == old(db.activities) + NewContent(old(db.nextActivityId), topicId, out.activities, base, "activity", at)
      && db.resources == old(db.resources) + NewContent(old(db.nextResourceId), topicId, out.resources, base, "resource", at)
    ensures db.nextActivityId == old(db.nextActivityId) + |out.activities|
    ensures db.nextResourceId == old(db.nextResourceId) + |out.resources|
    ensures db.schedules == old(db.schedules) && db.topics == old(db.topics) && db.nextTopicId == old(db.nextTopicId)
  {
    var base := BaseProvenance(out, trigger, topicId, at);
    AppendFresh(db.activities, db.nextActivityId, topicId, out.activities, base, "activity", at);
    AppendFresh(db.resources, db.nextResourceId, topicId, out.resources, base, "resource", at);
    var activities, nextActivity := AppendContent(db.activities, db.nextActivityId, topicId, out.activities, base, "activity", at);
    db.activities, db.nextActivityId := activities, nextActivity;
    var resources, nextResource := AppendContent(db.resources, db.nextResourceId, topicId, out.resources, base, "resource", at);
    db.resources, db.nextResourceId := resources, nextResource;
  }

  // ---------------------------------------------------------------------
  // Regenerating a list of topics
  // ---------------------------------------------------------------------

  /** The two content tables and their AUTOINCREMENT counters. */
  datatype Tables = Tables(activities: seq<Content>, resources: seq<Content>, nextActivityId: int, nextResourceId: int)

  function ContentOf(db: TopicStore): Tables
    reads db
  {
    Tables(db.activities, db.resources, db.nextActivityId, db.nextResourceId)
  }

  /** One topic's turn in the loop: supersede (stamped `supersededAt`, the
      clock read the supersede step makes), then store (stamped `at`). */
  function RegenerateOne(t: Tables, topicId: int, out: PlannerOutput, trigger: string, at: Stamp, supersededAt: Stamp): Tables
  {
    var e := SupersedeEntry(trigger, supersededAt);
    var base := BaseProvenance(out, trigger, topicId, at);
    Tables(
      SupersedeAll(t.activities, topicId, e) + NewContent(t.nextActivityId, topicId, out.activities, base, "activity", at),
      SupersedeAll(t.resources, topicId, e) + NewContent(t.nextResourceId, topicId, out.resources, base, "resource", at),
      t.nextActivityId + |out.activities|,
      t.nextResourceId + |out.resources|)
  }

  /** The content tables after regenerating `topics`, in order, with the
      planner's outputs `outs`; the k-th topic's old content is superseded
      at `clock(k)`. */
  function Regenerated(t: Tables, topics: seq<Topic>, outs: seq<PlannerOutput>, trigger: string, at: Stamp, clock: nat -> Stamp): (r: Tables)
    requires |topics| == |outs|
    ensures r.nextActivityId >= t.nextActivityId && r.nextResourceId >= t.nextResourceId
    ensures |r.activities| >= |t.activities| && |r.resources| >= |t.resources|
    decreases |topics|
  {
    if topics == [] then t
    else
      var n := |topics| - 1;
      RegenerateOne(Regenerated(t, topics[..n], outs[..n], trigger, at, clock), topics[n].id, outs[n], trigger, at, clock(n))
  }

  function Ids(topics: seq<Topic>): (r: seq<int>)
    ensures |r| == |topics| && forall i :: 0 <= i < |r| ==> r[i] == topics[i].id
  {
    seq(|topics|, i requires 0 <= i < |topics| => topics[i].id)
  }

  /** Every unsuperseded row of a topic in `ids` was created from id `n0` on. */
  predicate OnlyFreshActive(rows: seq<Content>, ids: seq<int>, n0: int)
  {
    forall i :: 0 <= i < |rows| && rows[i].topicId in ids && !rows[i].superseded ==> rows[i].id >= n0
  }

  lemma OnlyFreshStep(rows: seq<Content>, ids: seq<int>, n0: int, topicId: int, e: HistoryEntry,
                      nextId: int, arts: seq<Artifact>, base: Provenance, kind: string, at: Stamp)
    requires OnlyFreshActive(rows, ids, n0) && nextId >= n0
    ensures OnlyFreshActive(SupersedeAll(rows, topicId, e) + NewContent(nextId, topicId, arts, base, kind, at), ids + [topicId], n0)
  {
    var sup := SupersedeAll(rows, topicId, e);
    var all := sup + NewContent(nextId, topicId, arts, base, kind, at);
    forall i | 0 <= i < |all| && all[i].topicId in ids + [topicId] && !all[i].superseded
      ensures all[i].id >= n0
    {
      if i < |rows| {
        assert all[i] == sup[i];
        assert !Active(sup[i], topicId);
        assert sup[i] == rows[i];
      }
    }
  }

  /** After regeneration, every unsuperseded activity or resource of a
      regenerated topic is one this regeneration created: nothing older
      stays active. */
  lemma {:induction false} RegeneratedOnlyFresh(t: Tables, topics: seq<Topic>, outs: seq<PlannerOutput>, trigger: string, at: Stamp, clock: nat -> Stamp)
    requires |topics| == |outs|
    ensures OnlyFreshActive(Regenerated(t, topics, outs, trigger, at, clock).activities, Ids(topics), t.nextActivityId)
    ensures OnlyFreshActive(Regenerated(t, topics, outs, trigger, at, clock).resources, Ids(topics), t.nextResourceId)
  {
    if topics != [] {
      var n := |topics| - 1;
      RegeneratedOnlyFresh(t, topics[..n], outs[..n], trigger, at, clock);
      var prev := Regenerated(t, topics[..n], outs[..n], trigger, at, clock);
      var e := SupersedeEntry(trigger, clock(n));
      var base := BaseProvenance(outs[n], trigger, topics[n].id, at);
      assert Ids(topics) == Ids(topics[..n]) + [topics[n].id];
      OnlyFreshStep(prev.activities, Ids(topics[..n]), t.nextActivityId, topics[n].id, e,
                    prev.nextActivityId, outs[n].activities, base, "activity", at);
      OnlyFreshStep(prev.resources, Ids(topics[..n]), t.nextResourceId, topics[n].id, e,
                    prev.nextResourceId, outs[n].resources, base, "resource", at);
    }
  }

  /** Rows already present keep their place and id; those of topics not
      regenerated are untouched. */
  predicate KeepsOthers(rows0: seq<Content>, rows: seq<Content>, ids: seq<int>)
  {
    |rows0| <= |rows| &&
    forall i :: 0 <= i < |rows0| ==>
      rows[i].id == rows0[i].id && (rows0[i].topicId !in ids ==> rows[i] == rows0[i])
  }

  lemma KeepsOthersStep(rows0: seq<Content>, rows: seq<Content>, ids: seq<int>, topicId: int, e: HistoryEntry, news: seq<Content>)
    requires KeepsOthers(rows0, rows, ids)
    ensures KeepsOthers(rows0, SupersedeAll(rows, topicId, e) + news, ids + [topicId])
  {
  }

  lemma {:induction false} RegeneratedKeepsOthers(t: Tables, topics: seq<Topic>, outs: seq<PlannerOutput>, trigger: string, at: Stamp, clock: nat -> Stamp)
    requires |topics| == |outs|
    ensures KeepsOthers(t.activities, Regenerated(t, topics, outs, trigger, at, clock).activities, Ids(topics))
    ensures KeepsOthers(t.resources, Regenerated(t, topics, outs, trigger, at, clock).resources, Ids(topics))
  {
    if topics != [] {
      var n := |topics| - 1;
      RegeneratedKeepsOthers(t, topics[..n], outs[..n], trigger, at, clock);
      var prev := Regenerated(t, topics[..n], outs[..n], trigger, at, clock);
      var e := SupersedeEntry(trigger, clock(n));
      var base := BaseProvenance(outs[n], trigger, topics[n].id, at);
      assert Ids(topics) == Ids(topics[..n]) + [topics[n].id];
      KeepsOthersStep(t.activities, prev.activities, Ids(topics[..n]), topics[n].id, e,
                      NewContent(prev.nextActivityId, topics[n].id, outs[n].activities, base, "activity", at));
      KeepsOthersStep(t.resources, prev.resources, Ids(topics[..n]), topics[n].id, e,
                      NewContent(prev.nextResourceId, topics[n].id, outs[n].resources, base, "resource", at));
    }
  }

  /** The topics table once `last_generated_at` is set for `ids`. */
  function MarkGenerated(rows: seq<Topic>, ids: seq<int>, now: Stamp): (r: seq<Topic>)
    ensures |r| == |rows| && forall i :: 0 <= i < |r| ==> r[i].id == rows[i].id
    ensures forall i :: 0 <= i < |r| ==> r[i].(lastGenerated := rows[i].lastGenerated) == rows[i]
  {
    seq(|rows|, i requires 0 <= i < |rows| => if rows[i].id in ids then rows[i].(lastGenerated := Some(now)) else rows[i])
  }

  lemma MarkOne(rows: seq<Topic>, id: int, now: Stamp, g: Topic -> Topic)
    requires forall t :: g(t) == t.(lastGenerated := Some(now))
    ensures MarkGenerated(rows, [id], now) == MapWhere(rows, TopicId, id, g)
  {
  }

  lemma MarkGeneratedSnoc(rows: seq<Topic>, ids: seq<int>, id: int, now: Stamp)
    ensures MarkGenerated(MarkGenerated(rows, ids, now), [id], now) == MarkGenerated(rows, ids + [id], now)
  {
  }

  /** The body of the loop in `_generate_for_topics`, for one topic:
      `supersededAt` is the clock read of `_supersede_existing_content`,
      `now` the one made before the loop. */
  method RegenerateTopic(db: TopicStore, topicId: int, out: PlannerOutput, trigger: string, now: Stamp, supersededAt: Stamp)
    requires db.Valid()
    modifies db
    ensures db.Valid()
    ensures ContentOf(db) == RegenerateOne(old(ContentOf(db)), topicId, out, trigger, now, supersededAt)
    ensures db.topics == MarkGenerated(old(db.topics), [topicId], now)
    ensures db.schedules == old(db.schedules) && db.nextTopicId == old(db.nextTopicId)
  {
    SupersedeExistingContent(db, topicId, trigger, supersededAt);
    StoreGenerationResult(db, topicId, out, trigger, now);
    var g := (t: Topic) => t.(lastGenerated := Some(now));
    MarkOne(db.topics, topicId, now, g);
    db.topics := MapWhere(db.topics, TopicId, topicId, g);
  }

  predicate NotHoliday(t: Topic)
  {
    !t.isHoliday
  }

  /** The topics `_generate_for_topics` hands to the planner. */
  function Candidates(topics: seq<Topic>): (r: seq<Topic>)
    ensures forall i :: 0 <= i < |r| ==> r[i] in topics && !r[i].isHoliday
    ensures forall i :: 0 <= i < |topics| && !topics[i].isHoliday ==> topics[i] in r
  {
    Where(topics, NotHoliday)
  }

  /** `_generate_for_topics`: the planner is a parameter that returns one
      output per context; `now` is the clock read before the loop and
      `clock(k)` the one the k-th candidate's supersede step makes. */
  method GenerateForTopics(db: TopicStore, schedule: Schedule, topics: seq<Topic>,
                           planner: seq<PlannerTopic> -> seq<PlannerOutput>, trigger: string, now: Stamp, clock: nat -> Stamp)
    returns (ids: seq<int>)
    requires db.Valid()
    requires forall cs :: |planner(cs)| == |cs|
    modifies db
    ensures db.Valid()
    ensures ids == Ids(Candidates(topics))
    ensures db.topics == MarkGenerated(old(db.topics), ids, now)
    ensures ContentOf(db) == Regenerated(old(ContentOf(db)), Candidates(topics),
                                         planner(Contexts(Candidates(topics), schedule)), trigger, now, clock)
    ensures db.schedules == old(db.schedules) && db.nextTopicId == old(db.nextTopicId)
  {
    var candidates := Candidates(topics);
    ids := [];
    if candidates == [] {
      return;
    }
    var outputs := planner(Contexts(candidates, schedule));
    ghost var t0 := ContentOf(db);
    ghost var topics0 := db.topics;
    var k := 0;
    while k < |candidates|
      invariant k <= |candidates|
      invariant db.Valid()
      invariant ids == Ids(candidates[..k])
      invariant db.topics == MarkGenerated(topics0, ids, now)
      invariant ContentOf(db) == Regenerated(t0, candidates[..k], outputs[..k], trigger, now, clock)
      invariant db.schedules == old(db.schedules) && db.nextTopicId == old(db.nextTopicId)
    {
      var c := candidates[k];
      RegeneratedSnoc(t0, candidates, outputs, k, trigger, now, clock);
      RegenerateTopic(db, c.id, outputs[k], trigger, now, clock(k));
      MarkGeneratedSnoc(topics0, ids, c.id, now);
      ids := ids + [c.id];
      k := k + 1;
    }
    assert candidates[..k] == candidates;
    assert outputs[..k] == outputs;
  }

  lemma RegeneratedSnoc(t: Tables, topics: seq<Topic>, outs: seq<PlannerOutput>, k: nat, trigger: string, at: Stamp, clock: nat -> Stamp)
    requires k < |topics| == |outs|
    ensures Ids(topics[..k + 1]) == Ids(topics[..k]) + [topics[k].id]
    ensures Regenerated(t, topics[..k + 1], outs[..k + 1], trigger, at, clock) ==
      RegenerateOne(Regenerated(t, topics[..k], outs[..k], trigger, at, clock), topics[k].id, outs[k], trigger, at, clock(k))
  {
    assert topics[..k + 1][..k] == topics[..k];
    assert outs[..k + 1][..k] == outs[..k];
  }

  // ---------------------------------------------------------------------
  // Which topics a generation request regenerates
  // ---------------------------------------------------------------------

  /** The `{id: topic}` lookup; a later row wins over an earlier one. */
  function Available(topics: seq<Topic>, id: int): (r: Option<Topic>)
    ensures r.Some? <==> id in Ids(topics)
    ensures r.Some? ==> r.value in topics && r.value.id == id
  {
    if topics == [] then None
    else
      var n := |topics| - 1;
      assert Ids(topics) == Ids(topics[..n]) + [topics[n].id];
      if topics[n].id == id then Some(topics[n]) else Available(topics[..n], id)
  }

  /** The requested ids that name no topic of the class, in request order. */
  function Missing(topics: seq<Topic>, topicIds: seq<int>): (r: seq<int>)
    ensures forall i :: 0 <= i < |r| ==> r[i] in topicIds && r[i] !in Ids(topics)
    ensures forall i :: 0 <= i < |topicIds| && topicIds[i] !in Ids(topics) ==> topicIds[i] in r
  {
    if topicIds == [] then []
    else if topicIds[0] in Ids(topics) then Missing(topics, topicIds[1..])
    else [topicIds[0]] + Missing(topics, topicIds[1..])
  }

  lemma MissingWitness(topics: seq<Topic>, topicIds: seq<int>, x: int)
    requires x in topicIds && x !in Ids(topics)
    ensures !(forall y :: y in topicIds ==> y in Ids(topics))
  {
  }

  /** The selection in `trigger_generation`: explicit ids (all must exist;
      otherwise the missing ones are the error), else every topic when
      asked to or when the class has none, else the non-holiday topics. */
  function Selection(topics: seq<Topic>, topicIds: seq<int>, regenerateAll: bool): (r: Result<seq<Topic>, seq<int>>)
    ensures r.Ok? <==> topicIds == [] || forall x :: x in topicIds ==> x in Ids(topics)
    ensures r.Err? ==> r.error != [] && forall x :: x in r.error <==> x in topicIds && x !in Ids(topics)
    ensures r.Ok? ==> forall t :: t in r.value ==> t in topics
    ensures r.Ok? && topicIds != [] ==> Ids(r.value) == topicIds
    ensures topicIds == [] && (regenerateAll || topics == []) ==> r == Ok(topics)
    ensures topicIds == [] && !regenerateAll ==> r.Ok? && forall t :: t in topics ==> (t in r.value <==> !t.isHoliday)
  {
    if topicIds != [] then
      var missing := Missing(topics, topicIds);
      if missing != [] then
        MissingWitness(topics, topicIds, missing[0]);
        Err(missing)
      else Ok(seq(|topicIds|, i requires 0 <= i < |topicIds| => Available(topics, topicIds[i]).value))
    else if regenerateAll || topics == [] then Ok(topics)
    else Ok(Candidates(topics))
  }

  /** `_fetch_topics`: the class's topics ordered by position (ties by id). */
  function ClassTopics(rows: seq<Topic>, classId: int): seq<Topic>
  {
    SortBy(Where(rows, (t: Topic) => t.classId == classId), TopicPosition, TopicId)
  }

  datatype RouterError = ClassNotFound | MissingTopicIds(ids: seq<int>)

  /** `trigger_generation`: 404 for an unknown class or unknown topic ids,
      leaving every table as it was; otherwise the selected topics are
      regenerated, their `last_generated_at` set, and their ids returned,
      which never name a holiday topic. */
  method TriggerGeneration(db: TopicStore, classId: int, topicIds: seq<int>, regenerateAll: bool, reason: string,
                           planner: seq<PlannerTopic> -> seq<PlannerOutput>, now: Stamp, clock: nat -> Stamp)
    returns (r: Result<seq<int>, RouterError>)
    requires db.Valid()
    requires forall cs :: |planner(cs)| == |cs|
    modifies db
    ensures db.Valid()
    ensures db.schedules == old(db.schedules) && db.nextTopicId == old(db.nextTopicId)
    ensures FindSchedule(old(db.schedules), classId).None? ==>
      r == Err(ClassNotFound) && db.topics == old(db.topics) && ContentOf(db) == old(ContentOf(db))
    ensures FindSchedule(old(db.schedules), classId).Some? ==>
      var sel := Selection(ClassTopics(old(db.topics), classId), topicIds, regenerateAll);
      && (sel.Err? ==> r == Err(MissingTopicIds(sel.error)) && db.topics == old(db.topics) && ContentOf(db) == old(ContentOf(db)))
      && (sel.Ok? ==>
            var s := FindSchedule(old(db.schedules), classId).value;
            var chosen := Candidates(sel.value);
            && r == Ok(Ids(chosen))
            && db.topics == MarkGenerated(old(db.topics), Ids(chosen), now)
            && ContentOf(db) == Regenerated(old(ContentOf(db)), chosen, planner(Contexts(chosen, s)), reason, now, clock))
    ensures r.Ok? ==> forall i :: 0 <= i < |r.value| ==>
      exists t :: t in old(db.topics) && t.classId == classId && !t.isHoliday && t.id == r.value[i]
  {
    var schedule := FindSchedule(db.schedules, classId);
    if schedule.None? {
      return Err(ClassNotFound);
    }
    var topics := ClassTopics(db.topics, classId);
    ghost var classRows := Where(db.topics, (t: Topic) => t.classId == classId);
    assert forall t :: t in topics ==> t in old(db.topics) && t.classId == classId by {
      forall t | t in topics ensures t in old(db.topics) && t.classId == classId {
        assert t in multiset(classRows);
        var j :| 0 <= j < |classRows| && classRows[j] == t;
      }
    }
    var sel := Selection(topics, topicIds, regenerateAll);
    if sel.Err? {
      return Err(MissingTopicIds(sel.error));
    }
    var ids := GenerateForTopics(db, schedule.value, sel.value, planner, reason, now, clock);
    r := Ok(ids);
  }
}
