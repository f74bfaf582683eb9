/** The tables behind the class-schedule router (backend/routers/classes.py):
    class schedules, their dated topics, and the activities and resources
    generated for each topic. Rows are updated by id, one UPDATE at a
    time, from a snapshot read before the loop; the lemmas here say what
    such a loop amounts to when ids are unique. */
module Topics {
  import opened Common

  /** A timestamp (`datetime.utcnow()`), supplied from outside. */
  type Stamp = int

  datatype Schedule = Schedule(id: int, name: string, subject: Option<string>, gradeLevel: Option<string>)

  datatype Topic = Topic(
    id: int,
    classId: int,
    title: string,
    description: Option<string>,
    date: Day,
    position: int,
    isHoliday: bool,
    holidayReason: Option<string>,
    lastGenerated: Option<Stamp>)

  /** One entry of a provenance history list. */
  datatype HistoryEntry = HistoryEntry(event: string, reason: string, at: Stamp)

  /** The provenance JSON of generated content: the keys the router writes,
      the history list, and every other key copied from the planner's
      provenance (with its JSON text). */
  datatype Provenance = Provenance(
    model: string,
    trigger: string,
    topicId: int,
    generatedAt: Stamp,
    artifact: string,
    history: seq<HistoryEntry>,
    others: seq<(string, string)>)

  /** A row of `activities` or `resources`: `title` is the title or name,
      `details` the remaining text columns. */
  datatype Content = Content(
    id: int,
    topicId: int,
    title: string,
    details: seq<Option<string>>,
    provenance: Provenance,
    createdAt: Stamp,
    superseded: bool)

  function TopicId(t: Topic): int { t.id }

  function ContentId(c: Content): int { c.id }

  function TopicDate(t: Topic): int { t.date }

  function TopicPosition(t: Topic): int { t.position }

  predicate UniqueBy<T>(rows: seq<T>, idOf: T -> int)
  {
    forall i, j :: 0 <= i < j < |rows| ==> idOf(rows[i]) != idOf(rows[j])
  }

  predicate IdsBelow<T>(rows: seq<T>, idOf: T -> int, bound: int)
  {
    forall i :: 0 <= i < |rows| ==> idOf(rows[i]) < bound
  }

  class TopicStore {
    var schedules: seq<Schedule>
    var topics: seq<Topic>
    var activities: seq<Content>
    var resources: seq<Content>
    var nextTopicId: int
    var nextActivityId: int
    var nextResourceId: int

    /** Ids are primary keys handed out by AUTOINCREMENT. */
    ghost predicate Valid()
      reads this
    {
      && UniqueBy(topics, TopicId) && IdsBelow(topics, TopicId, nextTopicId)
      && UniqueBy(activities, ContentId) && IdsBelow(activities, ContentId, nextActivityId)
      && UniqueBy(resources, ContentId) && IdsBelow(resources, ContentId, nextResourceId)
    }

    constructor (schedules: seq<Schedule>)
      ensures this.schedules == schedules
      ensures topics == [] && activities == [] && resources == []
      ensures nextTopicId == 1 && nextActivityId == 1 && nextResourceId == 1
      ensures Valid()
    {
      this.schedules := schedules;
      topics := [];
      activities := [];
      resources := [];
      nextTopicId := 1;
      nextActivityId := 1;
      nextResourceId := 1;
    }
  }

  function FindSchedule(schedules: seq<Schedule>, id: int): (r: Option<Schedule>)
    ensures r.Some? ==> r.value in schedules && r.value.id == id
    ensures r.None? ==> forall s :: s in schedules ==> s.id != id
  {
    if schedules == [] then None
    else if schedules[0].id == id then Some(schedules[0])
    else FindSchedule(schedules[1..], id)
  }

  // ---------------------------------------------------------------------
  // UPDATE ... WHERE id = ?
  // ---------------------------------------------------------------------

  /** `UPDATE <table> SET ... WHERE id = key`: every row with that id is
      rewritten by `g`. */
  function MapWhere<T>(rows: seq<T>, idOf: T -> int, key: int, g: T -> T): (r: seq<T>)
    ensures |r| == |rows|
    ensures forall i :: 0 <= i < |rows| ==> r[i] == if idOf(rows[i]) == key then g(rows[i]) else rows[i]
  {
    seq(|rows|, i requires 0 <= i < |rows| => if idOf(rows[i]) == key then g(rows[i]) else rows[i])
  }

  /** After a loop over `done`, each snapshot row has been replaced by its
      image under `f` and every other row is as it was. */
  predicate UpdatedFrom<T(==)>(rows0: seq<T>, rows: seq<T>, done: seq<T>, f: T -> T)
  {
    |rows| == |rows0| && forall i :: 0 <= i < |rows0| ==> rows[i] == if rows0[i] in done then f(rows0[i]) else rows0[i]
  }

  /** One step of such a loop: the UPDATE for `snapshot[k]` writes, through
      `g`, the columns that turn that row into `f(snapshot[k])`; it extends
      the invariant by one row. */
  lemma UpdateStep<T>(rows0: seq<T>, rows: seq<T>, snapshot: seq<T>, k: nat, idOf: T -> int, f: T -> T, g: T -> T)
    requires UniqueBy(rows0, idOf)
    requires forall x :: idOf(f(x)) == idOf(x)
    requires forall x :: x in snapshot ==> x in rows0
    requires k < |snapshot|
    requires g(snapshot[k]) == f(snapshot[k]) && g(f(snapshot[k])) == f(snapshot[k])
    requires UpdatedFrom(rows0, rows, snapshot[..k], f)
    ensures UpdatedFrom(rows0, MapWhere(rows, idOf, idOf(snapshot[k]), g), snapshot[..k + 1], f)
  {
    var s := snapshot[k];
    var r := MapWhere(rows, idOf, idOf(s), g);
    assert snapshot[..k + 1] == snapshot[..k] + [s];
    assert s in rows0;
    var p :| 0 <= p < |rows0| && rows0[p] == s;
    forall i | 0 <= i < |rows0|
      ensures r[i] == if rows0[i] in snapshot[..k + 1] then f(rows0[i]) else rows0[i]
    {
      assert idOf(rows[i]) == idOf(rows0[i]);
      if idOf(rows0[i]) == idOf(s) {
        assert i == p;
      } else {
        assert rows0[i] != s;
      }
    }
  }

  /** `SELECT ... WHERE p`, in table order. */
  function Where<T>(rows: seq<T>, p: T -> bool): (r: seq<T>)
    ensures |r| <= |rows|
    ensures forall i :: 0 <= i < |r| ==> r[i] in rows && p(r[i])
    ensures forall i :: 0 <= i < |rows| && p(rows[i]) ==> rows[i] in r
  {
    if rows == [] then []
    else if p(rows[0]) then [rows[0]] + Where(rows[1..], p)
    else Where(rows[1..], p)
  }

  lemma {:induction false} WhereUnique<T>(rows: seq<T>, p: T -> bool, idOf: T -> int)
    requires UniqueBy(rows, idOf)
    ensures UniqueBy(Where(rows, p), idOf)
  {
    if rows != [] {
      assert UniqueBy(rows[1..], idOf);
      WhereUnique(rows[1..], p, idOf);
      var r := Where(rows[1..], p);
      forall i | 0 <= i < |r| ensures idOf(r[i]) != idOf(rows[0]) {
        var j :| 0 <= j < |rows[1..]| && rows[1..][j] == r[i];
        assert rows[j + 1] == r[i];
      }
    }
  }

  /** A snapshot `SELECT ... WHERE p`, in whatever order, holds rows of the
      table that satisfy `p`. */
  lemma SnapshotMembers<T>(rows0: seq<T>, snapshot: seq<T>, p: T -> bool)
    requires multiset(snapshot) == multiset(Where(rows0, p))
    ensures forall x :: x in snapshot ==> x in rows0 && p(x)
  {
    var w := Where(rows0, p);
    forall x | x in snapshot ensures x in rows0 && p(x) {
      assert x in multiset(w);
      var j :| 0 <= j < |w| && w[j] == x;
    }
  }

  /** A loop over every row of such a snapshot leaves exactly the rows
      satisfying `p` rewritten by `f`. */
  lemma UpdatedAll<T>(rows0: seq<T>, rows: seq<T>, snapshot: seq<T>, f: T -> T, p: T -> bool)
    requires UpdatedFrom(rows0, rows, snapshot, f)
    requires multiset(snapshot) == multiset(Where(rows0, p))
    ensures |rows| == |rows0|
    ensures forall i :: 0 <= i < |rows0| ==> rows[i] == if p(rows0[i]) then f(rows0[i]) else rows0[i]
  {
    var w := Where(rows0, p);
    SnapshotMembers(rows0, snapshot, p);
    forall i | 0 <= i < |rows0| ensures (rows0[i] in snapshot) == p(rows0[i]) {
      if p(rows0[i]) {
        assert rows0[i] in w;
        assert rows0[i] in multiset(snapshot);
      }
    }
  }

  // ---------------------------------------------------------------------
  // Unique ids survive reordering
  // ---------------------------------------------------------------------

  lemma {:induction false} UniqueCountsOne<T>(a: seq<T>, idOf: T -> int, x: T)
    requires UniqueBy(a, idOf)
    ensures multiset(a)[x] <= 1
  {
    if a != [] {
      var init := a[..|a| - 1];
      var last := a[|a| - 1];
      assert a == init + [last];
      assert UniqueBy(init, idOf);
      UniqueCountsOne(init, idOf, x);
    }
  }

  lemma TwiceCountsTwo<T>(b: seq<T>, i: int, j: int)
    requires 0 <= i < j < |b| && b[i] == b[j]
    ensures multiset(b)[b[i]] >= 2
  {
    assert b == b[..j] + [b[j]] + b[j + 1..];
    assert b[i] in b[..j];
  }

  /** A permutation of rows with unique ids has unique ids. */
  lemma UniqueByPermutation<T>(a: seq<T>, b: seq<T>, idOf: T -> int)
    requires UniqueBy(a, idOf)
    requires multiset(a) == multiset(b)
    ensures UniqueBy(b, idOf)
  {
    forall i, j | 0 <= i < j < |b| ensures idOf(b[i]) != idOf(b[j]) {
      if b[i] == b[j] {
        UniqueCountsOne(a, idOf, b[i]);
        TwiceCountsTwo(b, i, j);
      } else {
        assert b[i] in multiset(a) && b[j] in multiset(a);
        var p :| 0 <= p < |a| && a[p] == b[i];
        var q :| 0 <= q < |a| && a[q] == b[j];
        assert p != q;
      }
    }
  }

  /** With unique ids, a row is found at exactly one index. */
  lemma UniqueIndex<T>(s: seq<T>, idOf: T -> int, i: int, j: int)
    requires UniqueBy(s, idOf)
    requires 0 <= i < |s| && 0 <= j < |s| && s[i] == s[j]
    ensures i == j
  {
  }
}
