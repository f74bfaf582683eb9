/** Calendar adjustment for class schedules (backend/routers/classes.py):
    a no-class day gets a holiday marker and pushes the class's later
    topics back by one day; positions are then renumbered by date, and
    the moved topics are regenerated. */
module TopicCalendar {
  import opened Common
  import opened Topics
  import opened TopicGeneration

  // ---------------------------------------------------------------------
  // One no-class day
  // ---------------------------------------------------------------------

  /** The query for an existing marker: a holiday row of the class on the day. */
  predicate HasMarker(rows: seq<Topic>, classId: int, day: Day)
  {
    exists i :: 0 <= i < |rows| && rows[i].classId == classId && rows[i].isHoliday && rows[i].date == day
  }

  /** The marker row: title "No class - <reason>", no description,
      position 0, flagged as a holiday with its reason. */
  function Marker(id: int, classId: int, day: Day, reason: string): Topic
  {
    Topic(id, classId, "No class - " + reason, None, day, 0, true, Some(reason), None)
  }

  /** The topics the snapshot query selects: the class's ordinary topics on
      or after the day. */
  predicate Shifts(t: Topic, classId: int, day: Day)
  {
    t.classId == classId && !t.isHoliday && t.date >= day
  }

  function ShiftPred(classId: int, day: Day): Topic -> bool
  {
    (t: Topic) => Shifts(t, classId, day)
  }

  function ShiftOne(t: Topic): Topic
  {
    t.(date := t.date + 1)
  }

  /** The topics table after the UPDATE loop. */
  function Shifted(rows: seq<Topic>, classId: int, day: Day): (r: seq<Topic>)
    ensures |r| == |rows|
    ensures forall i :: 0 <= i < |r| ==> r[i].date == rows[i].date + (if Shifts(rows[i], classId, day) then 1 else 0)
    ensures forall i :: 0 <= i < |r| ==> r[i].(date := rows[i].date) == rows[i]
  {
    seq(|rows|, i requires 0 <= i < |rows| => if Shifts(rows[i], classId, day) then ShiftOne(rows[i]) else rows[i])
  }

  /** The snapshot in the order the loop visits it: ORDER BY date, id. */
  function ShiftOrder(rows: seq<Topic>, classId: int, day: Day): (r: seq<Topic>)
    ensures SortedBy(r, TopicDate, TopicId)
    ensures forall i :: 0 <= i < |r| ==> r[i] in rows && Shifts(r[i], classId, day)
    ensures forall i :: 0 <= i < |rows| && Shifts(rows[i], classId, day) ==> rows[i] in r
    ensures multiset(r) == multiset(Where(rows, ShiftPred(classId, day)))
  {
    var w := Where(rows, ShiftPred(classId, day));
    var r := SortBy(w, TopicDate, TopicId);
    forall i | 0 <= i < |r| ensures r[i] in rows && Shifts(r[i], classId, day) {
      assert r[i] in multiset(w);
      var j :| 0 <= j < |w| && w[j] == r[i];
    }
    forall i | 0 <= i < |rows| && Shifts(rows[i], classId, day) ensures rows[i] in r {
      assert rows[i] in w;
      assert rows[i] in multiset(r);
    }
    r
  }

  /** What one no-class day leaves behind: the new tables, the count of
      markers inserted, and the impacted ids gathered so far. */
  datatype DayState = DayState(topics: seq<Topic>, nextTopicId: int, inserted: int, impacted: seq<int>)

  function WithMarker(rows: seq<Topic>, nextId: int, classId: int, day: Day, reason: string): seq<Topic>
  {
    if HasMarker(rows, classId, day) then rows else rows + [Marker(nextId, classId, day, reason)]
  }

  /** `_apply_no_class_day` on the topics table: the new table and counter,
      the number of markers inserted, and the impacted ids in order. */
  function DayEffect(rows0: seq<Topic>, nextId: int, classId: int, day: Day, reason: string): DayState
  {
    var has := HasMarker(rows0, classId, day);
    var rows := WithMarker(rows0, nextId, classId, day, reason);
    DayState(Shifted(rows, classId, day), nextId + (if has then 0 else 1), if has then 0 else 1, Ids(ShiftOrder(rows, classId, day)))
  }

  /** One more day on an accumulated state: its count and its ids are added. */
  function ApplyDay(st: DayState, classId: int, day: Day, reason: string): DayState
  {
    var one := DayEffect(st.topics, st.nextTopicId, classId, day, reason);
    DayState(one.topics, one.nextTopicId, st.inserted + one.inserted, st.impacted + one.impacted)
  }

  /** The marker's id is fresh, so ids stay unique. */
  lemma WithMarkerValid(rows: seq<Topic>, nextId: int, classId: int, day: Day, reason: string)
    requires UniqueBy(rows, TopicId) && IdsBelow(rows, TopicId, nextId)
    ensures var r := WithMarker(rows, nextId, classId, day, reason);
      UniqueBy(r, TopicId) && IdsBelow(r, TopicId, nextId + (if HasMarker(rows, classId, day) then 0 else 1))
  {
  }

  lemma IdsSnoc(s: seq<Topic>, k: int)
    requires 0 <= k < |s|
    ensures Ids(s[..k + 1]) == Ids(s[..k]) + [s[k].id]
  {
  }

  /** `UPDATE topics SET date = ?`. */
  function SetDate(date: Day): Topic -> Topic
  {
    (t: Topic) => t.(date := date)
  }

  /** One UPDATE of the shifting loop extends its invariant by one row. */
  lemma ShiftStep(rows0: seq<Topic>, rows: seq<Topic>, snapshot: seq<Topic>, k: nat)
    requires UniqueBy(rows0, TopicId)
    requires forall x :: x in snapshot ==> x in rows0
    requires k < |snapshot|
    requires UpdatedFrom(rows0, rows, snapshot[..k], ShiftOne)
    ensures UpdatedFrom(rows0, MapWhere(rows, TopicId, snapshot[k].id, SetDate(snapshot[k].date + 1)), snapshot[..k + 1], ShiftOne)
  {
    var g := SetDate(snapshot[k].date + 1);
    assert g(snapshot[k]) == ShiftOne(snapshot[k]);
    assert g(ShiftOne(snapshot[k])) == ShiftOne(snapshot[k]);
    UpdateStep(rows0, rows, snapshot, k, TopicId, ShiftOne, g);
  }

  /** The UPDATE loop of `_apply_no_class_day`: each snapshot row, in
      turn, is moved one day later. */
  method ShiftEach(rows0: seq<Topic>, snapshot: seq<Topic>) returns (rows: seq<Topic>, impacted: seq<int>)
    requires UniqueBy(rows0, TopicId)
    requires forall x :: x in snapshot ==> x in rows0
    ensures UpdatedFrom(rows0, rows, snapshot, ShiftOne)
    ensures impacted == Ids(snapshot)
  {
    rows, impacted := rows0, [];
    var k := 0;
    while k < |snapshot|
      invariant k <= |snapshot|
      invariant UpdatedFrom(rows0, rows, snapshot[..k], ShiftOne)
      invariant impacted == Ids(snapshot[..k])
    {
      var s := snapshot[k];
      var newDate := s.date + 1;
      ShiftStep(rows0, rows, snapshot, k);
      rows := MapWhere(rows, TopicId, s.id, SetDate(newDate));
      IdsSnoc(snapshot, k);
      impacted := impacted + [s.id];
      k := k + 1;
    }
    assert snapshot[..k] == snapshot;
  }

  /** The shifting step of `_apply_no_class_day`: the snapshot of the
      class's ordinary topics on or after the day, then the UPDATE loop. */
  method ShiftTopics(rows0: seq<Topic>, classId: int, day: Day) returns (rows: seq<Topic>, impacted: seq<int>)
    requires UniqueBy(rows0, TopicId)
    ensures rows == Shifted(rows0, classId, day)
    ensures impacted == Ids(ShiftOrder(rows0, classId, day))
  {
    var p := ShiftPred(classId, day);
    var snapshot := ShiftOrder(rows0, classId, day);
    SnapshotMembers(rows0, snapshot, p);
    rows, impacted := ShiftEach(rows0, snapshot);
    UpdatedAll(rows0, rows, snapshot, ShiftOne, p);
  }

  /** `_apply_no_class_day`: 1 and a new marker when the class has none on
      that day, else 0; then every ordinary topic of the class on or after
      the day moves one day later, and their ids come back in (old date,
      id) order. */
  method ApplyNoClassDay(db: TopicStore, classId: int, day: Day, reason: string) returns (inserted: int, impacted: seq<int>)
    requires db.Valid()
    modifies db
    ensures db.Valid()
    ensures inserted == if HasMarker(old(db.topics), classId, day) then 0 else 1
    ensures var st := DayEffect(old(db.topics), old(db.nextTopicId), classId, day, reason);
      db.topics == st.topics && db.nextTopicId == st.nextTopicId && inserted == st.inserted && impacted == st.impacted
    ensures db.schedules == old(db.schedules) && ContentOf(db) == old(ContentOf(db))
  {
    inserted := InsertMarker(db, classId, day, reason);
    var rows;
    rows, impacted := ShiftTopics(db.topics, classId, day);
    ShiftedKeepsIds(db.topics, classId, day, db.nextTopicId);
    db.topics := rows;
  }

  /** The marker INSERT of `_apply_no_class_day`, skipped when the class
      already has a marker on that day. */
  method InsertMarker(db: TopicStore, classId: int, day: Day, reason: string) returns (inserted: int)
    requires db.Valid()
    modifies db
    ensures db.Valid()
    ensures inserted == if HasMarker(old(db.topics), classId, day) then 0 else 1
    ensures db.topics == WithMarker(old(db.topics), old(db.nextTopicId), classId, day, reason)
    ensures db.nextTopicId == old(db.nextTopicId) + inserted
    ensures db.schedules == old(db.schedules) && ContentOf(db) == old(ContentOf(db))
  {
    inserted := 0;
    WithMarkerValid(db.topics, db.nextTopicId, classId, day, reason);
    if !HasMarker(db.topics, classId, day) {
      db.topics := db.topics + [Marker(db.nextTopicId, classId, day, reason)];
      db.nextTopicId := db.nextTopicId + 1;
      inserted := 1;
    }
  }

  lemma ShiftedKeepsIds(rows: seq<Topic>, classId: int, day: Day, bound: int)
    requires UniqueBy(rows, TopicId) && IdsBelow(rows, TopicId, bound)
    ensures UniqueBy(Shifted(rows, classId, day), TopicId) && IdsBelow(Shifted(rows, classId, day), TopicId, bound)
  {
    var r := Shifted(rows, classId, day);
    assert forall i :: 0 <= i < |r| ==> r[i].id == rows[i].id;
  }

  /** After a no-class day the class has a marker on it and no ordinary
      topic left on it; markers already present stay where they were. */
  lemma {:induction false} ApplyDayClears(st: DayState, classId: int, day: Day, reason: string, other: Day)
    ensures var r := ApplyDay(st, classId, day, reason).topics;
      && HasMarker(r, classId, day)
      && (forall i :: 0 <= i < |r| && r[i].classId == classId && !r[i].isHoliday ==> r[i].date != day)
      && (HasMarker(st.topics, classId, other) ==> HasMarker(r, classId, other))
  {
    var rows := WithMarker(st.topics, st.nextTopicId, classId, day, reason);
    ApplyDayMarks(st, classId, day, reason, other);
    ShiftedClearsDay(rows, classId, day);
  }

  /** The marker row is there after the INSERT, and so is every marker
      that was there before. */
  lemma WithMarkerMarks(rows: seq<Topic>, nextId: int, classId: int, day: Day, reason: string, other: Day)
    ensures HasMarker(WithMarker(rows, nextId, classId, day, reason), classId, day)
    ensures HasMarker(rows, classId, other) ==> HasMarker(WithMarker(rows, nextId, classId, day, reason), classId, other)
  {
    var w := WithMarker(rows, nextId, classId, day, reason);
    if !HasMarker(rows, classId, day) {
      assert w[|w| - 1] == Marker(nextId, classId, day, reason);
    }
    if HasMarker(rows, classId, other) {
      var o :| 0 <= o < |rows| && rows[o].classId == classId && rows[o].isHoliday && rows[o].date == other;
      assert w[o] == rows[o];
    }
  }

  /** The UPDATE loop does not move markers. */
  lemma ShiftedKeepsMarker(rows: seq<Topic>, classId: int, day: Day, other: Day)
    requires HasMarker(rows, classId, other)
    ensures HasMarker(Shifted(rows, classId, day), classId, other)
  {
    var o :| 0 <= o < |rows| && rows[o].classId == classId && rows[o].isHoliday && rows[o].date == other;
    assert Shifted(rows, classId, day)[o] == rows[o];
  }

  /** After the UPDATE loop no ordinary topic of the class is on the day:
      the ones before it stay before it, the rest move past it. */
  lemma ShiftedClearsDay(rows: seq<Topic>, classId: int, day: Day)
    ensures var r := Shifted(rows, classId, day);
      forall i :: 0 <= i < |r| && r[i].classId == classId && !r[i].isHoliday ==> r[i].date != day
  {
    var r := Shifted(rows, classId, day);
    forall i | 0 <= i < |r| && r[i].classId == classId && !r[i].isHoliday
      ensures r[i].date != day
    {
      assert r[i].(date := rows[i].date) == rows[i];
    }
  }

  /** A second no-class request for the same day inserts no second marker. */
  lemma DayEffectTwice(rows: seq<Topic>, nextId: int, classId: int, day: Day, reason: string, reason': string)
    ensures DayEffect(rows, nextId, classId, day, reason).inserted == if HasMarker(rows, classId, day) then 0 else 1
    ensures var once := DayEffect(rows, nextId, classId, day, reason);
      DayEffect(once.topics, once.nextTopicId, classId, day, reason').inserted == 0
  {
    ApplyDayClears(DayState(rows, nextId, 0, []), classId, day, reason, day);
  }

  // ---------------------------------------------------------------------
  // Positions
  // ---------------------------------------------------------------------

  function ClassPred(classId: int): Topic -> bool
  {
    (t: Topic) => t.classId == classId
  }

  /** The query of `_resequence_topics`: the class's topics by date, then id. */
  function ByDate(rows: seq<Topic>, classId: int): (r: seq<Topic>)
    ensures SortedBy(r, TopicDate, TopicId)
    ensures multiset(r) == multiset(Where(rows, ClassPred(classId)))
  {
    SortBy(Where(rows, ClassPred(classId)), TopicDate, TopicId)
  }

  /** The first index of a row with this id, or |order| when there is none. */
  function IndexOfId(order: seq<Topic>, id: int): (r: int)
    ensures 0 <= r <= |order|
    ensures r < |order| ==> order[r].id == id
    ensures forall j :: 0 <= j < r ==> order[j].id != id
  {
    if order == [] then 0
    else if order[0].id == id then 0
    else 1 + IndexOfId(order[1..], id)
  }

  lemma IndexOfUnique(order: seq<Topic>, k: int)
    requires UniqueBy(order, TopicId) && 0 <= k < |order|
    ensures IndexOfId(order, order[k].id) == k
  {
  }

  /** The topics table after `_resequence_topics`: the class's topics
      numbered by their place in (date, id) order. */
  function Resequenced(rows: seq<Topic>, classId: int): (r: seq<Topic>)
    ensures |r| == |rows|
    ensures forall i :: 0 <= i < |r| ==> r[i].(position := rows[i].position) == rows[i] && r[i].id == rows[i].id
    ensures forall i :: 0 <= i < |r| && rows[i].classId != classId ==> r[i] == rows[i]
  {
    var order := ByDate(rows, classId);
    seq(|rows|, i requires 0 <= i < |rows| =>
      if rows[i].classId == classId then rows[i].(position := IndexOfId(order, rows[i].id)) else rows[i])
  }

  lemma ByDateUnique(rows: seq<Topic>, classId: int)
    requires UniqueBy(rows, TopicId)
    ensures UniqueBy(ByDate(rows, classId), TopicId)
  {
    WhereUnique(rows, ClassPred(classId), TopicId);
    UniqueByPermutation(Where(rows, ClassPred(classId)), ByDate(rows, classId), TopicId);
  }

  lemma ResequencedKeepsIds(rows: seq<Topic>, classId: int, bound: int)
    requires UniqueBy(rows, TopicId) && IdsBelow(rows, TopicId, bound)
    ensures UniqueBy(Resequenced(rows, classId), TopicId) && IdsBelow(Resequenced(rows, classId), TopicId, bound)
  {
    var r := Resequenced(rows, classId);
    assert forall i :: 0 <= i < |r| ==> r[i].id == rows[i].id;
  }

  function SetPosition(position: int): Topic -> Topic
  {
    (t: Topic) => t.(position := position)
  }

  /** Each row takes its place in `order` as its position. */
  function PositionIn(order: seq<Topic>): Topic -> Topic
  {
    (t: Topic) => t.(position := IndexOfId(order, t.id))
  }

  lemma NumberStep(rows0: seq<Topic>, rows: seq<Topic>, order: seq<Topic>, k: nat)
    requires UniqueBy(rows0, TopicId) && UniqueBy(order, TopicId)
    requires forall x :: x in order ==> x in rows0
    requires k < |order|
    requires UpdatedFrom(rows0, rows, order[..k], PositionIn(order))
    ensures UpdatedFrom(rows0, MapWhere(rows, TopicId, order[k].id, SetPosition(k)), order[..k + 1], PositionIn(order))
  {
    IndexOfUnique(order, k);
    var g := SetPosition(k);
    assert g(order[k]) == PositionIn(order)(order[k]);
    assert g(PositionIn(order)(order[k])) == PositionIn(order)(order[k]);
    UpdateStep(rows0, rows, order, k, TopicId, PositionIn(order), g);
  }

  /** The UPDATE loop of `_resequence_topics`: row `k` of the ordered
      snapshot gets position `k`. */
  method NumberEach(rows0: seq<Topic>, order: seq<Topic>) returns (rows: seq<Topic>)
    requires UniqueBy(rows0, TopicId) && UniqueBy(order, TopicId)
    requires forall x :: x in order ==> x in rows0
    ensures UpdatedFrom(rows0, rows, order, PositionIn(order))
  {
    rows := rows0;
    var k := 0;
    while k < |order|
      invariant k <= |order|
      invariant UpdatedFrom(rows0, rows, order[..k], PositionIn(order))
    {
      NumberStep(rows0, rows, order, k);
      rows := MapWhere(rows, TopicId, order[k].id, SetPosition(k));
      k := k + 1;
    }
    assert order[..k] == order;
  }

  /** The class's topics numbered by their place in (date, id) order. */
  method NumberByDate(rows0: seq<Topic>, classId: int) returns (rows: seq<Topic>)
    requires UniqueBy(rows0, TopicId)
    ensures rows == Resequenced(rows0, classId)
  {
    var p := ClassPred(classId);
    var order := ByDate(rows0, classId);
    ByDateUnique(rows0, classId);
    SnapshotMembers(rows0, order, p);
    rows := NumberEach(rows0, order);
    UpdatedAll(rows0, rows, order, PositionIn(order), p);
  }

  /** `_resequence_topics`. */
  method ResequenceTopics(db: TopicStore, classId: int)
    requires db.Valid()
    modifies db
    ensures db.Valid()
    ensures db.topics == Resequenced(old(db.topics), classId)
    ensures db.schedules == old(db.schedules) && db.nextTopicId == old(db.nextTopicId)
    ensures ContentOf(db) == old(ContentOf(db))
  {
    ResequencedKeepsIds(db.topics, classId, db.nextTopicId);
    var rows := NumberByDate(db.topics, classId);
    db.topics := rows;
  }

  /** Where a class topic of the table lands in the (date, id) order, and
      the position it is given. */
  lemma PlaceOf(rows: seq<Topic>, classId: int, i: int) returns (q: int)
    requires UniqueBy(rows, TopicId)
    requires 0 <= i < |rows| && rows[i].classId == classId
    ensures 0 <= q < |ByDate(rows, classId)| && ByDate(rows, classId)[q] == rows[i]
    ensures Resequenced(rows, classId)[i].position == q
  {
    var order := ByDate(rows, classId);
    ByDateUnique(rows, classId);
    var w := Where(rows, ClassPred(classId));
    assert rows[i] in w;
    assert rows[i] in multiset(order);
    q :| 0 <= q < |order| && order[q] == rows[i];
    IndexOfUnique(order, q);
  }

  /** `_resequence_topics` numbers the class's topics in (date, id) order. */
  lemma ResequencedFollowsOrder(rows: seq<Topic>, classId: int, i: int, j: int)
    requires UniqueBy(rows, TopicId)
    requires 0 <= i < |rows| && 0 <= j < |rows| && rows[i].classId == classId && rows[j].classId == classId
    requires rows[i].date < rows[j].date || (rows[i].date == rows[j].date && rows[i].id < rows[j].id)
    ensures Resequenced(rows, classId)[i].position < Resequenced(rows, classId)[j].position
  {
    var qi := PlaceOf(rows, classId, i);
    var qj := PlaceOf(rows, classId, j);
  }

  /** The class's n topics get positions in 0..n-1; other classes keep
      theirs. */
  lemma ResequencedRange(rows: seq<Topic>, classId: int)
    requires UniqueBy(rows, TopicId)
    ensures |ByDate(rows, classId)| == |Where(rows, ClassPred(classId))|
    ensures forall i :: 0 <= i < |rows| && rows[i].classId == classId ==>
      0 <= Resequenced(rows, classId)[i].position < |ByDate(rows, classId)|
  {
    var order := ByDate(rows, classId);
    assert |order| == |multiset(order)| == |Where(rows, ClassPred(classId))|;
    forall i | 0 <= i < |rows| && rows[i].classId == classId
      ensures 0 <= Resequenced(rows, classId)[i].position < |order|
    {
      var q := PlaceOf(rows, classId, i);
    }
  }

  /** The q-th topic in (date, id) order gets position q. */
  lemma ResequencedOnto(rows: seq<Topic>, classId: int, q: int)
    requires UniqueBy(rows, TopicId)
    requires 0 <= q < |ByDate(rows, classId)|
    ensures exists i :: 0 <= i < |rows| && rows[i] == ByDate(rows, classId)[q] && Resequenced(rows, classId)[i].position == q
  {
    var order := ByDate(rows, classId);
    SnapshotMembers(rows, order, ClassPred(classId));
    ByDateUnique(rows, classId);
    assert order[q] in rows;
    var i :| 0 <= i < |rows| && rows[i] == order[q];
    var q' := PlaceOf(rows, classId, i);
    UniqueIndex(order, TopicId, q', q);
  }

  /** No two topics of the class share a position. */
  lemma ResequencedDistinct(rows: seq<Topic>, classId: int, i: int, j: int)
    requires UniqueBy(rows, TopicId)
    requires 0 <= i < |rows| && 0 <= j < |rows| && i != j && rows[i].classId == classId && rows[j].classId == classId
    ensures Resequenced(rows, classId)[i].position != Resequenced(rows, classId)[j].position
  {
    var qi := PlaceOf(rows, classId, i);
    var qj := PlaceOf(rows, classId, j);
  }

  // ---------------------------------------------------------------------
  // A list of no-class days
  // ---------------------------------------------------------------------

  predicate Increasing(s: seq<Day>)
  {
    forall i, j :: 0 <= i < j < |s| ==> s[i] < s[j]
  }

  lemma HeadBelowTail(s: seq<Day>)
    requires Increasing(s) && s != []
    ensures forall y :: y in s[1..] ==> s[0] < y
  {
    forall y | y in s[1..] ensures s[0] < y {
      var k :| 0 <= k < |s| - 1 && s[1..][k] == y;
      assert s[k + 1] == y;
    }
  }

  lemma ConsIncreasing(h: Day, s: seq<Day>)
    requires Increasing(s) && forall y :: y in s ==> h < y
    ensures Increasing([h] + s)
  {
    forall i, j | 0 <= i < j < |[h] + s| ensures ([h] + s)[i] < ([h] + s)[j] {
      assert ([h] + s)[j] == s[j - 1] && s[j - 1] in s;
      if i > 0 {
        assert ([h] + s)[i] == s[i - 1];
      }
    }
  }

  function InsertDistinct(x: Day, s: seq<Day>): (r: seq<Day>)
    requires Increasing(s)
    ensures Increasing(r)
    ensures forall y :: y in r <==> y == x || y in s
  {
    if s == [] then [x]
    else if x < s[0] then [x] + s
    else if x == s[0] then s
    else
      var rest := InsertDistinct(x, s[1..]);
      HeadBelowTail(s);
      assert s == [s[0]] + s[1..];
      assert s[0] < x;
      assert forall y :: y in rest ==> s[0] < y;
      ConsIncreasing(s[0], rest);
      [s[0]] + rest
  }

  /** `sorted(set(dates))`: each date once, ascending. */
  function SortedDistinct(dates: seq<Day>): (r: seq<Day>)
    ensures Increasing(r)
    ensures forall y :: y in r <==> y in dates
  {
    if dates == [] then []
    else
      var n := |dates| - 1;
      assert dates == dates[..n] + [dates[n]];
      InsertDistinct(dates[n], SortedDistinct(dates[..n]))
  }

  /** The days loop of `adjust_for_holidays`, from state `st`. */
  function Days(st: DayState, classId: int, days: seq<Day>, reason: string): (r: DayState)
    ensures st.inserted <= r.inserted <= st.inserted + |days|
    ensures r.nextTopicId - st.nextTopicId == r.inserted - st.inserted
    decreases |days|
  {
    if days == [] then st
    else
      var n := |days| - 1;
      ApplyDay(Days(st, classId, days[..n], reason), classId, days[n], reason)
  }

  /** A day's marker is there after it, and so is every earlier marker. */
  lemma ApplyDayMarks(st: DayState, classId: int, day: Day, reason: string, other: Day)
    ensures HasMarker(ApplyDay(st, classId, day, reason).topics, classId, day)
    ensures HasMarker(st.topics, classId, other) ==> HasMarker(ApplyDay(st, classId, day, reason).topics, classId, other)
  {
    var rows := WithMarker(st.topics, st.nextTopicId, classId, day, reason);
    WithMarkerMarks(st.topics, st.nextTopicId, classId, day, reason, other);
    ShiftedKeepsMarker(rows, classId, day, day);
    if HasMarker(st.topics, classId, other) {
      ShiftedKeepsMarker(rows, classId, day, other);
    }
  }

  /** One more day keeps the markers of the days before it and adds its own. */
  lemma DaysMarkStep(prev: DayState, classId: int, days: seq<Day>, reason: string)
    requires days != []
    requires forall j :: 0 <= j < |days| - 1 ==> HasMarker(prev.topics, classId, days[j])
    ensures forall j :: 0 <= j < |days| ==> HasMarker(ApplyDay(prev, classId, days[|days| - 1], reason).topics, classId, days[j])
  {
    forall j | 0 <= j < |days|
      ensures HasMarker(ApplyDay(prev, classId, days[|days| - 1], reason).topics, classId, days[j])
    {
      ApplyDayMarks(prev, classId, days[|days| - 1], reason, days[j]);
    }
  }

  /** Once the loop is done every listed day has a marker. */
  lemma {:induction false} DaysMarkAll(st: DayState, classId: int, days: seq<Day>, reason: string)
    ensures forall j :: 0 <= j < |days| ==> HasMarker(Days(st, classId, days, reason).topics, classId, days[j])
  {
    if days != [] {
      var n := |days| - 1;
      var prev := Days(st, classId, days[..n], reason);
      var r := Days(st, classId, days, reason);
      assert r == ApplyDay(prev, classId, days[n], reason);
      DaysMarkAll(st, classId, days[..n], reason);
      forall j | 0 <= j < n
        ensures HasMarker(prev.topics, classId, days[j])
      {
        assert days[..n][j] == days[j];
      }
      DaysMarkStep(prev, classId, days, reason);
    }
  }

  lemma DaysSnoc(st: DayState, classId: int, days: seq<Day>, k: int, reason: string)
    requires 0 <= k < |days|
    ensures Days(st, classId, days[..k + 1], reason) == ApplyDay(Days(st, classId, days[..k], reason), classId, days[k], reason)
  {
    assert days[..k + 1][..k] == days[..k];
  }

  /** The loop over the days, calling `_apply_no_class_day` for each. */
  method ApplyDays(db: TopicStore, classId: int, days: seq<Day>, reason: string) returns (total: int, impacted: seq<int>)
    requires db.Valid()
    modifies db
    ensures db.Valid()
    ensures var st := Days(DayState(old(db.topics), old(db.nextTopicId), 0, []), classId, days, reason);
      db.topics == st.topics && db.nextTopicId == st.nextTopicId && total == st.inserted && impacted == st.impacted
    ensures db.schedules == old(db.schedules) && ContentOf(db) == old(ContentOf(db))
  {
    ghost var st0 := DayState(db.topics, db.nextTopicId, 0, []);
    total, impacted := 0, [];
    for k := 0 to |days|
      invariant db.Valid()
      invariant DayState(db.topics, db.nextTopicId, total, impacted) == Days(st0, classId, days[..k], reason)
      invariant db.schedules == old(db.schedules) && ContentOf(db) == old(ContentOf(db))
    {
      DaysSnoc(st0, classId, days, k, reason);
      var inserted, ids := ApplyNoClassDay(db, classId, days[k], reason);
      total := total + inserted;
      impacted := impacted + ids;
    }
    assert days[..|days|] == days;
  }

  function IdIn(ids: seq<int>): Topic -> bool
  {
    (t: Topic) => t.id in ids
  }

  /** `_fetch_topics_by_ids`: the rows with those ids, by position. */
  function ImpactedTopics(rows: seq<Topic>, ids: seq<int>): seq<Topic>
  {
    SortBy(Where(rows, IdIn(ids)), TopicPosition, TopicId)
  }

  /** Rows that differ at most in position or generation time keep the
      calendar's markers. */
  lemma SameCalendar(rows: seq<Topic>, rows': seq<Topic>, classId: int, d: Day)
    requires |rows'| == |rows|
    requires forall i :: 0 <= i < |rows| ==>
      rows'[i].classId == rows[i].classId && rows'[i].isHoliday == rows[i].isHoliday && rows'[i].date == rows[i].date
    requires HasMarker(rows, classId, d)
    ensures HasMarker(rows', classId, d)
  {
    var i :| 0 <= i < |rows| && rows[i].classId == classId && rows[i].isHoliday && rows[i].date == d;
    assert rows'[i].classId == classId && rows'[i].isHoliday && rows'[i].date == d;
  }

  /** Renumbering and stamping leave the markers where they are. */
  lemma MarkersKept(rows: seq<Topic>, classId: int, ids: seq<int>, now: Stamp, d: Day)
    requires HasMarker(rows, classId, d)
    ensures HasMarker(MarkGenerated(Resequenced(rows, classId), ids, now), classId, d)
  {
    var numbered := Resequenced(rows, classId);
    SameCalendar(rows, numbered, classId, d);
    SameCalendar(numbered, MarkGenerated(numbered, ids, now), classId, d);
  }

  /** The body of `adjust_for_holidays` once the class is known and the
      dates are de-duplicated and sorted. */
  method AdjustCalendar(db: TopicStore, classId: int, schedule: Schedule, days: seq<Day>, reason: string,
                        planner: seq<PlannerTopic> -> seq<PlannerOutput>, now: Stamp, clock: nat -> Stamp)
    returns (total: int, ids: seq<int>)
    requires db.Valid()
    requires forall cs :: |planner(cs)| == |cs|
    modifies db
    ensures db.Valid()
    ensures var st := Days(DayState(old(db.topics), old(db.nextTopicId), 0, []), classId, days, reason);
      var moved := Candidates(ImpactedTopics(Resequenced(st.topics, classId), st.impacted));
      && total == st.inserted && ids == Ids(moved)
      && db.topics == MarkGenerated(Resequenced(st.topics, classId), ids, now)
      && ContentOf(db) == Regenerated(old(ContentOf(db)), moved, planner(Contexts(moved, schedule)), "calendar-adjustment", now, clock)
    ensures 0 <= total <= |days|
    ensures forall j :: 0 <= j < |days| ==> HasMarker(db.topics, classId, days[j])
  {
    var impacted;
    total, impacted := ApplyDays(db, classId, days, reason);
    ghost var shifted := db.topics;
    DaysMarkAll(DayState(old(db.topics), old(db.nextTopicId), 0, []), classId, days, reason);
    ResequenceTopics(db, classId);
    var moved := ImpactedTopics(db.topics, impacted);
    ids := GenerateForTopics(db, schedule, moved, planner, "calendar-adjustment", now, clock);
    forall j | 0 <= j < |days| ensures HasMarker(db.topics, classId, days[j]) {
      MarkersKept(shifted, classId, ids, now, days[j]);
    }
  }

  /** `adjust_for_holidays`: 404 for an unknown class; nothing to do for
      no dates; otherwise each distinct date once, ascending, then the
      renumbering, then regeneration of the moved topics. */
  method AdjustForHolidays(db: TopicStore, classId: int, dates: seq<Day>, reason: string,
                           planner: seq<PlannerTopic> -> seq<PlannerOutput>, now: Stamp, clock: nat -> Stamp)
    returns (r: Result<(int, seq<int>), RouterError>)
    requires db.Valid()
    requires forall cs :: |planner(cs)| == |cs|
    modifies db
    ensures db.Valid()
    ensures FindSchedule(old(db.schedules), classId).None? ==>
      r == Err(ClassNotFound) && db.topics == old(db.topics) && ContentOf(db) == old(ContentOf(db))
    ensures FindSchedule(old(db.schedules), classId).Some? && dates == [] ==>
      r == Ok((0, [])) && db.topics == old(db.topics) && ContentOf(db) == old(ContentOf(db))
    ensures FindSchedule(old(db.schedules), classId).Some? && dates != [] ==>
      var st := Days(DayState(old(db.topics), old(db.nextTopicId), 0, []), classId, SortedDistinct(dates), reason);
      var moved := Candidates(ImpactedTopics(Resequenced(st.topics, classId), st.impacted));
      var schedule := FindSchedule(old(db.schedules), classId).value;
      && r == Ok((st.inserted, Ids(moved)))
      && db.topics == MarkGenerated(Resequenced(st.topics, classId), Ids(moved), now)
      && ContentOf(db) == Regenerated(old(ContentOf(db)), moved, planner(Contexts(moved, schedule)), "calendar-adjustment", now, clock)
    ensures r.Ok? ==> 0 <= r.value.0 <= |dates| && forall d :: d in dates ==> HasMarker(db.topics, classId, d)
  {
    var schedule := FindSchedule(db.schedules, classId);
    if schedule.None? {
      return Err(ClassNotFound);
    }
    if dates == [] {
      return Ok((0, []));
    }
    var days := SortedDistinct(dates);
    DistinctBound(dates);
    var total, ids := AdjustCalendar(db, classId, schedule.value, days, reason, planner, now, clock);
    forall d | d in dates ensures HasMarker(db.topics, classId, d) {
      var j :| 0 <= j < |days| && days[j] == d;
    }
    r := Ok((total, ids));
  }

  /** There are no more distinct dates than dates. */
  lemma DistinctBound(dates: seq<Day>)
    ensures |SortedDistinct(dates)| <= |dates|
  {
    if dates != [] {
      var n := |dates| - 1;
      DistinctBound(dates[..n]);
      InsertDistinctLength(dates[n], SortedDistinct(dates[..n]));
    }
  }

  lemma InsertDistinctLength(x: Day, s: seq<Day>)
    requires Increasing(s)
    ensures |InsertDistinct(x, s)| <= |s| + 1
  {
  }
}
