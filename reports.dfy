/** The reporting service (backend/services/reports.py): activity records
    aggregated per group and trimester and per topic, and the CSV and PDF
    renderings of those summaries. Hours are counted in hundredths of an
    hour, so sums are exact. */
module Reports {
  import opened Common

  /** An `ActivityRecord`; `hours` is in hundredths of an hour. */
  datatype Record = Record(group: string, trimester: string, topic: string, activity: string, hours: int)

  /** The fixture the reports fall back to. */
  const DefaultDataset: seq<Record> := [
    Record("Group A", "Trimester 1", "Literacy", "Workshop", 200),
    Record("Group A", "Trimester 1", "Literacy", "Field Study", 150),
    Record("Group A", "Trimester 1", "STEM", "Lab", 300),
    Record("Group A", "Trimester 2", "STEM", "Workshop", 250),
    Record("Group A", "Trimester 2", "Civics", "Seminar", 150),
    Record("Group A", "Trimester 3", "Arts", "Studio", 225),
    Record("Group B", "Trimester 1", "Literacy", "Seminar", 200),
    Record("Group B", "Trimester 1", "Mathematics", "Lecture", 175),
    Record("Group B", "Trimester 2", "Mathematics", "Workshop", 250),
    Record("Group B", "Trimester 2", "STEM", "Lab", 200),
    Record("Group B", "Trimester 3", "Civics", "Project", 300),
    Record("Group C", "Trimester 1", "Literacy", "Workshop", 125),
    Record("Group C", "Trimester 1", "Arts", "Studio", 200),
    Record("Group C", "Trimester 2", "Arts", "Seminar", 150),
    Record("Group C", "Trimester 2", "Mathematics", "Lab", 225),
    Record("Group C", "Trimester 3", "Mathematics", "Lecture", 275)
  ]

  /** No records given means the default dataset. */
  function PrepareRecords(records: Option<seq<Record>>): (r: seq<Record>)
    ensures records.None? ==> r == DefaultDataset
    ensures records.Some? ==> r == records.value
  {
    match records
    case None => DefaultDataset
    case Some(rs) => rs
  }

  // ---------------------------------------------------------------------
  // Selections and sums
  // ---------------------------------------------------------------------

  function GroupKey(): Record -> (string, string) { (r: Record) => (r.group, r.trimester) }
  function GroupOf(): Record -> string { (r: Record) => r.group }
  function TrimesterOf(): Record -> string { (r: Record) => r.trimester }
  function TopicOf(): Record -> string { (r: Record) => r.topic }
  function ActivityOf(): Record -> string { (r: Record) => r.activity }

  /** The records whose key is `k`, in order. */
  function Where<K(==)>(rs: seq<Record>, keyOf: Record -> K, k: K): seq<Record>
  {
    if rs == [] then []
    else
      var last := rs[|rs| - 1];
      Where(rs[..|rs| - 1], keyOf, k) + if keyOf(last) == k then [last] else []
  }

  /** The hours of some records, added up. */
  function Total(rs: seq<Record>): int
  {
    if rs == [] then 0 else Total(rs[..|rs| - 1]) + rs[|rs| - 1].hours
  }

  lemma WhereSnoc<K>(rs: seq<Record>, keyOf: Record -> K, k: K, e: Record)
    ensures Where(rs + [e], keyOf, k) == Where(rs, keyOf, k) + if keyOf(e) == k then [e] else []
  {
    assert (rs + [e])[..|rs|] == rs;
  }

  lemma TotalSnoc(rs: seq<Record>, e: Record)
    ensures Total(rs + [e]) == Total(rs) + e.hours
  {
    assert (rs + [e])[..|rs|] == rs;
  }

  /** The selection holds exactly the records with that key. */
  lemma {:induction false} WhereMembers<K>(rs: seq<Record>, keyOf: Record -> K, k: K, x: Record)
    ensures x in Where(rs, keyOf, k) <==> x in rs && keyOf(x) == k
  {
    if rs != [] {
      var n := |rs| - 1;
      WhereMembers(rs[..n], keyOf, k, x);
      assert rs == rs[..n] + [rs[n]];
    }
  }

  /** Without a record of key `k` the selection is empty. */
  lemma {:induction false} WhereNone<K>(rs: seq<Record>, keyOf: Record -> K, k: K)
    requires forall r :: r in rs ==> keyOf(r) != k
    ensures Where(rs, keyOf, k) == []
  {
    if rs != [] {
      var n := |rs| - 1;
      assert forall r :: r in rs[..n] ==> r in rs;
      WhereNone(rs[..n], keyOf, k);
    }
  }

  // ---------------------------------------------------------------------
  // Dictionaries of buckets
  // ---------------------------------------------------------------------

  /** `d.setdefault(k, dflt)`, or `d[k]` on a defaultdict: the value stored
      under `k`, or the default for a new key. */
  function Lookup<K(==), V>(d: Dict<K, V>, k: K, dflt: V): V
  {
    match Get(d, k)
    case Some(v) => v
    case None => dflt
  }

  /** A bucket fetched with `setdefault` and updated in place by `step`. */
  function Upd<K(==), V>(d: Dict<K, V>, k: K, dflt: V, step: V -> V): Dict<K, V>
  {
    Put(d, k, step(Lookup(d, k, dflt)))
  }

  /** `d` groups `rs` by `keyOf`: one item per key that occurs, and each
      item's value is described by `holds` from exactly the records with
      that key. */
  predicate Groups<K(==), V>(d: Dict<K, V>, rs: seq<Record>, keyOf: Record -> K, holds: (V, seq<Record>) -> bool)
  {
    && DistinctKeys(d)
    && (forall i :: 0 <= i < |d| ==> Where(rs, keyOf, d[i].0) != [] && holds(d[i].1, Where(rs, keyOf, d[i].0)))
    && (forall r :: r in rs ==> keyOf(r) in Keys(d))
  }

  lemma GroupsEmpty<K, V>(keyOf: Record -> K, holds: (V, seq<Record>) -> bool)
    ensures Groups([], [], keyOf, holds)
  {
  }

  /** Folding one more record into its bucket keeps the grouping, provided
      the bucket update describes the record added and a new bucket starts
      from a value that describes no records. */
  lemma GroupsStep<K, V>(d: Dict<K, V>, rs: seq<Record>, keyOf: Record -> K, holds: (V, seq<Record>) -> bool,
                         e: Record, dflt: V, step: V -> V)
    requires Groups(d, rs, keyOf, holds)
    requires holds(dflt, [])
    requires forall v, R :: holds(v, R) ==> holds(step(v), R + [e])
    ensures Groups(Upd(d, keyOf(e), dflt, step), rs + [e], keyOf, holds)
  {
    var k := keyOf(e);
    var r := Upd(d, k, dflt, step);
    var all := rs + [e];
    forall i | 0 <= i < |r|
      ensures Where(all, keyOf, r[i].0) != [] && holds(r[i].1, Where(all, keyOf, r[i].0))
    {
      WhereSnoc(rs, keyOf, r[i].0, e);
      if r[i].0 != k {
        assert r[i] == d[i];
        assert Where(all, keyOf, r[i].0) == Where(rs, keyOf, d[i].0) + [];
        assert Where(rs, keyOf, d[i].0) + [] == Where(rs, keyOf, d[i].0);
      } else if k in Keys(d) {
        assert d[i].0 == k;
        GetAt(d, i);
        assert r[i].1 == step(d[i].1);
        assert holds(d[i].1, Where(rs, keyOf, k));
        assert holds(step(d[i].1), Where(rs, keyOf, k) + [e]);
        assert Where(all, keyOf, k) == Where(rs, keyOf, k) + [e];
      } else {
        assert i == |d|;
        forall x | x in rs ensures keyOf(x) != k {
        }
        WhereNone(rs, keyOf, k);
        assert Lookup(d, k, dflt) == dflt;
        assert r[i] == (k, step(dflt));
        assert holds(step(dflt), [] + [e]);
        assert Where(all, keyOf, k) == [] + [e];
      }
    }
    forall x | x in all ensures keyOf(x) in Keys(r) {
      if x != e {
        assert x in rs;
      }
    }
  }

  /** The weights of a dict's values, added up. */
  function SumOf<K, V>(d: Dict<K, V>, w: V -> int): int
  {
    if d == [] then 0 else w(d[0].1) + SumOf(d[1..], w)
  }

  lemma {:induction false} SumAppend<K, V>(d: Dict<K, V>, x: (K, V), w: V -> int)
    ensures SumOf(d + [x], w) == SumOf(d, w) + w(x.1)
  {
    if d != [] {
      assert (d + [x])[1..] == d[1..] + [x];
      SumAppend(d[1..], x, w);
    }
  }

  lemma {:induction false} SumReplace<K, V>(d: Dict<K, V>, i: int, v: V, w: V -> int)
    requires 0 <= i < |d|
    ensures SumOf(d[i := (d[i].0, v)], w) == SumOf(d, w) - w(d[i].1) + w(v)
  {
    if i > 0 {
      assert d[i := (d[i].0, v)][1..] == d[1..][i - 1 := (d[i].0, v)];
      SumReplace(d[1..], i - 1, v, w);
    }
  }

  /** Updating one bucket changes the sum by that bucket's change. */
  lemma SumUpd<K, V>(d: Dict<K, V>, k: K, dflt: V, step: V -> V, w: V -> int)
    requires DistinctKeys(d) && w(dflt) == 0
    ensures SumOf(Upd(d, k, dflt, step), w) == SumOf(d, w) - w(Lookup(d, k, dflt)) + w(step(Lookup(d, k, dflt)))
  {
    var old_ := Lookup(d, k, dflt);
    if k in Keys(d) {
      var i :| 0 <= i < |d| && d[i].0 == k;
      GetAt(d, i);
      assert Upd(d, k, dflt, step) == d[i := (k, step(old_))];
      SumReplace(d, i, step(old_), w);
    } else {
      SumAppend(d, (k, step(old_)), w);
    }
  }

  // ---------------------------------------------------------------------
  // sorted(d.items())
  // ---------------------------------------------------------------------

  /** `less` is a strict total order. */
  ghost predicate StrictOrder<K(!new)>(less: (K, K) -> bool)
  {
    && (forall a :: !less(a, a))
    && (forall a, b :: a != b ==> less(a, b) || less(b, a))
    && (forall a, b, c :: less(a, b) && less(b, c) ==> less(a, c))
  }

  /** The items' keys strictly ascend. */
  predicate Ascending<K, V>(d: Dict<K, V>, less: (K, K) -> bool)
  {
    forall i, j :: 0 <= i < j < |d| ==> less(d[i].0, d[j].0)
  }

  function InsertItem<K, V>(x: (K, V), s: Dict<K, V>, less: (K, K) -> bool): (r: Dict<K, V>)
    ensures |r| == |s| + 1 && multiset(r) == multiset(s) + multiset{x}
  {
    if s == [] then [x]
    else if less(x.0, s[0].0) then [x] + s
    else
      assert s == [s[0]] + s[1..];
      [s[0]] + InsertItem(x, s[1..], less)
  }

  /** Python's `sorted(d.items())`: as keys are distinct, only keys are
      compared. */
  function SortItems<K, V>(d: Dict<K, V>, less: (K, K) -> bool): (r: Dict<K, V>)
    ensures |r| == |d|
  {
    if d == [] then []
    else
      assert d == [d[0]] + d[1..];
      InsertItem(d[0], SortItems(d[1..], less), less)
  }

  /** Sorting only reorders the items. */
  lemma {:induction false} SortPermutes<K, V>(d: Dict<K, V>, less: (K, K) -> bool)
    ensures multiset(SortItems(d, less)) == multiset(d)
  {
    if d != [] {
      SortPermutes(d[1..], less);
      assert d == [d[0]] + d[1..];
    }
  }

  lemma PermutedKeys<K, V>(a: Dict<K, V>, b: Dict<K, V>, k: K)
    requires multiset(a) == multiset(b)
    ensures k in Keys(a) <==> k in Keys(b)
  {
    if k in Keys(a) {
      var i :| 0 <= i < |a| && a[i].0 == k;
      assert a[i] in multiset(b);
      var j :| 0 <= j < |b| && b[j] == a[i];
    }
    if k in Keys(b) {
      var i :| 0 <= i < |b| && b[i].0 == k;
      assert b[i] in multiset(a);
      var j :| 0 <= j < |a| && a[j] == b[i];
    }
  }

  lemma {:induction false} InsertAscends<K(!new), V>(x: (K, V), s: Dict<K, V>, less: (K, K) -> bool)
    requires StrictOrder(less) && Ascending(s, less) && x.0 !in Keys(s)
    ensures Ascending(InsertItem(x, s, less), less)
  {
    if s == [] {
    } else if less(x.0, s[0].0) {
      forall j | 0 <= j < |s| ensures less(x.0, s[j].0) {
        if j > 0 {
          assert less(s[0].0, s[j].0);
        }
      }
      ConsAscends(x, s, less);
    } else {
      var tail := s[1..];
      assert x.0 != s[0].0;
      assert less(s[0].0, x.0);
      assert Ascending(tail, less);
      assert x.0 !in Keys(tail);
      InsertAscends(x, tail, less);
      var rest := InsertItem(x, tail, less);
      forall j | 0 <= j < |tail| ensures less(s[0].0, tail[j].0) {
        assert tail[j] == s[j + 1];
      }
      MembersAbove(s[0].0, x, tail, rest, less);
      ConsAscends(s[0], rest, less);
    }
  }

  lemma ConsAscends<K, V>(y: (K, V), r: Dict<K, V>, less: (K, K) -> bool)
    requires Ascending(r, less) && forall j :: 0 <= j < |r| ==> less(y.0, r[j].0)
    ensures Ascending([y] + r, less)
  {
    var t := [y] + r;
    forall i, j | 0 <= i < j < |t| ensures less(t[i].0, t[j].0) {
      assert t[j] == r[j - 1];
      if i > 0 {
        assert t[i] == r[i - 1];
      }
    }
  }

  /** A key below `x` and below every key of `s` is below every key of a
      reordering of `s` with `x`. */
  lemma MembersAbove<K, V>(y: K, x: (K, V), s: Dict<K, V>, rest: Dict<K, V>, less: (K, K) -> bool)
    requires multiset(rest) == multiset(s) + multiset{x}
    requires less(y, x.0) && forall j :: 0 <= j < |s| ==> less(y, s[j].0)
    ensures forall j :: 0 <= j < |rest| ==> less(y, rest[j].0)
  {
    forall j | 0 <= j < |rest| ensures less(y, rest[j].0) {
      assert rest[j] in multiset(rest);
      if rest[j] != x {
        assert rest[j] in multiset(s);
        var m :| 0 <= m < |s| && s[m] == rest[j];
      }
    }
  }

  /** Sorting items with distinct keys under a strict total order leaves
      their keys strictly ascending. */
  lemma {:induction false} SortAscends<K(!new), V>(d: Dict<K, V>, less: (K, K) -> bool)
    requires StrictOrder(less) && DistinctKeys(d)
    ensures Ascending(SortItems(d, less), less)
  {
    if d != [] {
      assert DistinctKeys(d[1..]);
      SortAscends(d[1..], less);
      SortPermutes(d[1..], less);
      PermutedKeys(d[1..], SortItems(d[1..], less), d[0].0);
      InsertAscends(d[0], SortItems(d[1..], less), less);
    }
  }

  lemma AscendingDistinct<K(!new), V>(d: Dict<K, V>, less: (K, K) -> bool)
    requires StrictOrder(less) && Ascending(d, less)
    ensures DistinctKeys(d)
  {
  }

  lemma {:induction false} SumInsert<K, V>(x: (K, V), s: Dict<K, V>, less: (K, K) -> bool, w: V -> int)
    ensures SumOf(InsertItem(x, s, less), w) == w(x.1) + SumOf(s, w)
  {
    if s != [] && !less(x.0, s[0].0) {
      SumInsert(x, s[1..], less, w);
      assert ([s[0]] + InsertItem(x, s[1..], less))[1..] == InsertItem(x, s[1..], less);
    } else if s != [] {
      assert ([x] + s)[1..] == s;
    }
  }

  /** Sorting keeps the sum of the values. */
  lemma {:induction false} SumSort<K, V>(d: Dict<K, V>, less: (K, K) -> bool, w: V -> int)
    ensures SumOf(SortItems(d, less), w) == SumOf(d, w)
  {
    if d != [] {
      SumSort(d[1..], less, w);
      SumInsert(d[0], SortItems(d[1..], less), less, w);
    }
  }

  /** A reordering of a grouping with distinct keys is a grouping. */
  lemma GroupsPermutation<K, V>(d: Dict<K, V>, e: Dict<K, V>, rs: seq<Record>, keyOf: Record -> K, holds: (V, seq<Record>) -> bool)
    requires Groups(d, rs, keyOf, holds) && multiset(d) == multiset(e) && DistinctKeys(e)
    ensures Groups(e, rs, keyOf, holds)
  {
    forall i | 0 <= i < |e| ensures Where(rs, keyOf, e[i].0) != [] && holds(e[i].1, Where(rs, keyOf, e[i].0)) {
      assert e[i] in multiset(d);
      var j :| 0 <= j < |d| && d[j] == e[i];
    }
    forall r | r in rs ensures keyOf(r) in Keys(e) {
      PermutedKeys(d, e, keyOf(r));
    }
  }

  /** Python's order on `(str, str)` tuples. */
  predicate PairLess(a: (string, string), b: (string, string))
  {
    StrLess(a.0, b.0) || (a.0 == b.0 && StrLess(a.1, b.1))
  }

  function StrOrder(): (string, string) -> bool { (a: string, b: string) => StrLess(a, b) }

  function PairOrder(): ((string, string), (string, string)) -> bool
  {
    (a: (string, string), b: (string, string)) => PairLess(a, b)
  }

  lemma StrOrderStrict()
    ensures StrictOrder(StrOrder())
  {
    forall a: string ensures !StrLess(a, a) {
      StrLessIrreflexive(a);
    }
    forall a: string, b: string | a != b ensures StrLess(a, b) || StrLess(b, a) {
      StrLessTrichotomy(a, b);
    }
    forall a: string, b: string, c: string | StrLess(a, b) && StrLess(b, c) ensures StrLess(a, c) {
      StrLessTransitive(a, b, c);
    }
  }

  lemma PairOrderStrict()
    ensures StrictOrder(PairOrder())
  {
    forall a: (string, string) ensures !PairLess(a, a) {
      StrLessIrreflexive(a.0);
      StrLessIrreflexive(a.1);
    }
    forall a: (string, string), b: (string, string) | a != b ensures PairLess(a, b) || PairLess(b, a) {
      StrLessTrichotomy(a.0, b.0);
      StrLessTrichotomy(a.1, b.1);
    }
    forall a: (string, string), b: (string, string), c: (string, string) | PairLess(a, b) && PairLess(b, c)
      ensures PairLess(a, c)
    {
      if StrLess(a.0, b.0) && StrLess(b.0, c.0) {
        StrLessTransitive(a.0, b.0, c.0);
      } else if a.0 == b.0 && b.0 == c.0 {
        StrLessTransitive(a.1, b.1, c.1);
      }
    }
  }

  // ---------------------------------------------------------------------
  // Tallies of hours and sessions
  // ---------------------------------------------------------------------

  /** The `{"hours", "sessions"}` counters of one name. */
  datatype Tally = Tally(hours: int, sessions: nat)

  const NoTally := Tally(0, 0)

  /** `stats["hours"] += entry.hours; stats["sessions"] += 1`. */
  function Count(e: Record): Tally -> Tally
  {
    (t: Tally) => Tally(t.hours + e.hours, t.sessions + 1)
  }

  function TallyHolds(): (Tally, seq<Record>) -> bool
  {
    (t: Tally, rs: seq<Record>) => t.hours == Total(rs) && t.sessions == |rs|
  }

  function TallyHours(): Tally -> int { (t: Tally) => t.hours }

  /** `d` counts the records `rs` by name: each name's counters come from
      exactly its records, and the names' hours add up to all the hours. */
  predicate Tallies(d: Dict<string, Tally>, rs: seq<Record>, nameOf: Record -> string)
  {
    Groups(d, rs, nameOf, TallyHolds()) && SumOf(d, TallyHours()) == Total(rs)
  }

  lemma TalliesStep(d: Dict<string, Tally>, rs: seq<Record>, nameOf: Record -> string, e: Record)
    requires Tallies(d, rs, nameOf)
    ensures Tallies(Upd(d, nameOf(e), NoTally, Count(e)), rs + [e], nameOf)
  {
    forall t: Tally, R: seq<Record> | TallyHolds()(t, R) ensures TallyHolds()(Count(e)(t), R + [e]) {
      TotalSnoc(R, e);
    }
    GroupsStep(d, rs, nameOf, TallyHolds(), e, NoTally, Count(e));
    SumUpd(d, nameOf(e), NoTally, Count(e), TallyHours());
    TotalSnoc(rs, e);
  }

  /** One line of a breakdown: a name, its hours and its sessions. */
  datatype Stat = Stat(name: string, hours: int, sessions: nat)

  function StatOf(item: (string, Tally)): Stat
  {
    Stat(item.0, item.1.hours, item.1.sessions)
  }

  /** The breakdown list: one line per item of `sorted(d.items())`. */
  function Stats(d: Dict<string, Tally>): (r: seq<Stat>)
    ensures |r| == |d|
  {
    var items := SortItems(d, StrOrder());
    seq(|items|, i requires 0 <= i < |items| => StatOf(items[i]))
  }

  function StatHours(stats: seq<Stat>): int
  {
    if stats == [] then 0 else stats[0].hours + StatHours(stats[1..])
  }

  /** `stats` breaks the records `rs` down by name: names strictly ascend,
      each line counts exactly the records of its name, every record's name
      has a line, and the lines' hours add up to all the hours. */
  predicate Breakdown(stats: seq<Stat>, rs: seq<Record>, nameOf: Record -> string)
  {
    && (forall i, j :: 0 <= i < j < |stats| ==> StrLess(stats[i].name, stats[j].name))
    && (forall i :: 0 <= i < |stats| ==>
          Where(rs, nameOf, stats[i].name) != []
          && stats[i].hours == Total(Where(rs, nameOf, stats[i].name))
          && stats[i].sessions == |Where(rs, nameOf, stats[i].name)|)
    && (forall r :: r in rs ==> exists i :: 0 <= i < |stats| && stats[i].name == nameOf(r))
    && StatHours(stats) == Total(rs)
  }

  lemma {:induction false} StatHoursOf(items: Dict<string, Tally>)
    ensures StatHours(seq(|items|, i requires 0 <= i < |items| => StatOf(items[i]))) == SumOf(items, TallyHours())
  {
    if items != [] {
      StatHoursOf(items[1..]);
      var all := seq(|items|, i requires 0 <= i < |items| => StatOf(items[i]));
      assert all[1..] == seq(|items[1..]|, i requires 0 <= i < |items[1..]| => StatOf(items[1..][i]));
    }
  }

  /** The sorted list of a tally is its breakdown. */
  lemma BreakdownOf(d: Dict<string, Tally>, rs: seq<Record>, nameOf: Record -> string)
    requires Tallies(d, rs, nameOf)
    ensures Breakdown(Stats(d), rs, nameOf)
  {
    var items := SortItems(d, StrOrder());
    SortedTallies(d, rs, nameOf);
    StatHoursOf(items);
    var stats := Stats(d);
    assert stats == seq(|items|, i requires 0 <= i < |items| => StatOf(items[i]));
    BreakdownOfItems(items, stats, rs, nameOf);
  }

  lemma SortedTallies(d: Dict<string, Tally>, rs: seq<Record>, nameOf: Record -> string)
    requires Tallies(d, rs, nameOf)
    ensures Ascending(SortItems(d, StrOrder()), StrOrder())
    ensures Tallies(SortItems(d, StrOrder()), rs, nameOf)
  {
    SortedGroups(d, rs, nameOf, TallyHolds());
    SumSort(d, StrOrder(), TallyHours());
  }

  /** `sorted(d.items())` of a grouping by name is a grouping, in strictly
      ascending name order. */
  lemma SortedGroups<V>(d: Dict<string, V>, rs: seq<Record>, nameOf: Record -> string, holds: (V, seq<Record>) -> bool)
    requires Groups(d, rs, nameOf, holds)
    ensures Ascending(SortItems(d, StrOrder()), StrOrder())
    ensures Groups(SortItems(d, StrOrder()), rs, nameOf, holds)
  {
    var items := SortItems(d, StrOrder());
    StrOrderStrict();
    SortAscends(d, StrOrder());
    AscendingDistinct(items, StrOrder());
    SortPermutes(d, StrOrder());
    GroupsPermutation(d, items, rs, nameOf, holds);
  }

  lemma NamesAscend(items: Dict<string, Tally>, stats: seq<Stat>)
    requires Ascending(items, StrOrder())
    requires |stats| == |items| && forall i :: 0 <= i < |items| ==> stats[i].name == items[i].0
    ensures forall i, j :: 0 <= i < j < |stats| ==> StrLess(stats[i].name, stats[j].name)
  {
    forall i, j | 0 <= i < j < |stats| ensures StrLess(stats[i].name, stats[j].name) {
      assert StrOrder()(items[i].0, items[j].0);
    }
  }

  lemma BreakdownOfItems(items: Dict<string, Tally>, stats: seq<Stat>, rs: seq<Record>, nameOf: Record -> string)
    requires Ascending(items, StrOrder()) && Tallies(items, rs, nameOf)
    requires |stats| == |items| && forall i :: 0 <= i < |items| ==> stats[i] == StatOf(items[i])
    requires StatHours(stats) == SumOf(items, TallyHours())
    ensures Breakdown(stats, rs, nameOf)
  {
    NamesAscend(items, stats);
    StatsCounted(items, stats, rs, nameOf);
    StatsCover(items, stats, rs, nameOf);
  }

  lemma StatsCounted(items: Dict<string, Tally>, stats: seq<Stat>, rs: seq<Record>, nameOf: Record -> string)
    requires Groups(items, rs, nameOf, TallyHolds())
    requires |stats| == |items| && forall i :: 0 <= i < |items| ==> stats[i] == StatOf(items[i])
    ensures forall i :: 0 <= i < |stats| ==>
      Where(rs, nameOf, stats[i].name) != []
      && stats[i].hours == Total(Where(rs, nameOf, stats[i].name))
      && stats[i].sessions == |Where(rs, nameOf, stats[i].name)|
  {
    forall i | 0 <= i < |stats|
      ensures Where(rs, nameOf, stats[i].name) != []
      ensures stats[i].hours == Total(Where(rs, nameOf, stats[i].name))
      ensures stats[i].sessions == |Where(rs, nameOf, stats[i].name)|
    {
      assert TallyHolds()(items[i].1, Where(rs, nameOf, items[i].0));
    }
  }

  lemma StatsCover(items: Dict<string, Tally>, stats: seq<Stat>, rs: seq<Record>, nameOf: Record -> string)
    requires forall r :: r in rs ==> nameOf(r) in Keys(items)
    requires |stats| == |items| && forall i :: 0 <= i < |items| ==> stats[i] == StatOf(items[i])
    ensures forall r :: r in rs ==> exists i :: 0 <= i < |stats| && stats[i].name == nameOf(r)
  {
    forall r | r in rs ensures exists i :: 0 <= i < |stats| && stats[i].name == nameOf(r) {
      var i :| 0 <= i < |items| && items[i].0 == nameOf(r);
      assert stats[i].name == nameOf(r);
    }
  }

  // ---------------------------------------------------------------------
  // trimester_summary
  // ---------------------------------------------------------------------

  /** The bucket of one (group, trimester): total hours and the counters
      per topic and per activity. */
  datatype Bucket = Bucket(hours: int, topics: Dict<string, Tally>, activities: Dict<string, Tally>)

  const EmptyBucket := Bucket(0, [], [])

  function AddToBucket(e: Record): Bucket -> Bucket
  {
    (b: Bucket) => Bucket(b.hours + e.hours, Upd(b.topics, e.topic, NoTally, Count(e)), Upd(b.activities, e.activity, NoTally, Count(e)))
  }

  function BucketHolds(): (Bucket, seq<Record>) -> bool
  {
    (b: Bucket, rs: seq<Record>) => b.hours == Total(rs) && Tallies(b.topics, rs, TopicOf()) && Tallies(b.activities, rs, ActivityOf())
  }

  lemma BucketStep(grouped: Dict<(string, string), Bucket>, rs: seq<Record>, e: Record)
    requires Groups(grouped, rs, GroupKey(), BucketHolds())
    ensures Groups(Upd(grouped, GroupKey()(e), EmptyBucket, AddToBucket(e)), rs + [e], GroupKey(), BucketHolds())
  {
    forall b: Bucket, R: seq<Record> | BucketHolds()(b, R) ensures BucketHolds()(AddToBucket(e)(b), R + [e]) {
      TotalSnoc(R, e);
      TalliesStep(b.topics, R, TopicOf(), e);
      TalliesStep(b.activities, R, ActivityOf(), e);
    }
    GroupsStep(grouped, rs, GroupKey(), BucketHolds(), e, EmptyBucket, AddToBucket(e));
  }


  /** One entry of the trimester summary. */
  datatype TrimesterRow = TrimesterRow(group: string, trimester: string, totalHours: int, topics: seq<Stat>, activities: seq<Stat>)

  function TrimesterRowOf(item: ((string, string), Bucket)): TrimesterRow
  {
    TrimesterRow(item.0.0, item.0.1, item.1.hours, Stats(item.1.topics), Stats(item.1.activities))
  }

  /** What the trimester summary of `rs` says: one row per (group,
      trimester) that occurs, in ascending order; each row's total is the
      hours of exactly its records, and its topics and activities break
      those records down by name. */
  predicate TrimesterReport(rows: seq<TrimesterRow>, rs: seq<Record>)
  {
    && (forall i, j :: 0 <= i < j < |rows| ==>
          PairLess((rows[i].group, rows[i].trimester), (rows[j].group, rows[j].trimester)))
    && (forall r :: r in rs ==> exists i :: 0 <= i < |rows| && rows[i].group == r.group && rows[i].trimester == r.trimester)
    && (forall i :: 0 <= i < |rows| ==> DescribesBucket(rows[i], Where(rs, GroupKey(), (rows[i].group, rows[i].trimester))))
  }

  predicate DescribesBucket(row: TrimesterRow, rs: seq<Record>)
  {
    && rs != []
    && row.totalHours == Total(rs)
    && Breakdown(row.topics, rs, TopicOf())
    && Breakdown(row.activities, rs, ActivityOf())
  }

  lemma TrimesterRows(items: Dict<(string, string), Bucket>, rs: seq<Record>, rows: seq<TrimesterRow>)
    requires Groups(items, rs, GroupKey(), BucketHolds()) && Ascending(items, PairOrder())
    requires |rows| == |items| && forall i :: 0 <= i < |items| ==> rows[i] == TrimesterRowOf(items[i])
    ensures TrimesterReport(rows, rs)
  {
    forall i, j | 0 <= i < j < |rows|
      ensures PairLess((rows[i].group, rows[i].trimester), (rows[j].group, rows[j].trimester))
    {
      assert PairOrder()(items[i].0, items[j].0);
    }
    forall r | r in rs ensures exists i :: 0 <= i < |rows| && rows[i].group == r.group && rows[i].trimester == r.trimester {
      var i :| 0 <= i < |items| && items[i].0 == GroupKey()(r);
      assert rows[i].group == r.group && rows[i].trimester == r.trimester;
    }
    forall i | 0 <= i < |rows| ensures DescribesBucket(rows[i], Where(rs, GroupKey(), (rows[i].group, rows[i].trimester))) {
      var R := Where(rs, GroupKey(), items[i].0);
      assert BucketHolds()(items[i].1, R);
      BreakdownOf(items[i].1.topics, R, TopicOf());
      BreakdownOf(items[i].1.activities, R, ActivityOf());
    }
  }

  /** The body of the first loop of `trimester_summary`: the record's
      (group, trimester) bucket is fetched or created and counted up. */
  method TrimesterRecord(grouped: Dict<(string, string), Bucket>, ghost seen: seq<Record>, entry: Record)
    returns (next: Dict<(string, string), Bucket>)
    requires Groups(grouped, seen, GroupKey(), BucketHolds())
    ensures Groups(next, seen + [entry], GroupKey(), BucketHolds())
  {
    var key := (entry.group, entry.trimester);
    var bucket := Lookup(grouped, key, EmptyBucket);
    bucket := bucket.(hours := bucket.hours + entry.hours);
    bucket := bucket.(topics := Upd(bucket.topics, entry.topic, NoTally, Count(entry)));
    bucket := bucket.(activities := Upd(bucket.activities, entry.activity, NoTally, Count(entry)));
    assert key == GroupKey()(entry);
    assert bucket == AddToBucket(entry)(Lookup(grouped, key, EmptyBucket));
    BucketStep(grouped, seen, entry);
    next := Put(grouped, key, bucket);
  }

  /** The first loop of `trimester_summary`: each record is added to the
      bucket of its (group, trimester), created on first use. */
  method GroupByTrimester(prepared: seq<Record>) returns (grouped: Dict<(string, string), Bucket>)
    ensures Groups(grouped, prepared, GroupKey(), BucketHolds())
  {
    grouped := [];
    ghost var seen: seq<Record> := [];
    for k := 0 to |prepared|
      invariant seen == prepared[..k]
      invariant Groups(grouped, seen, GroupKey(), BucketHolds())
    {
      grouped := TrimesterRecord(grouped, seen, prepared[k]);
      seen := seen + [prepared[k]];
    }
    assert prepared[..|prepared|] == prepared;
  }

  lemma SortedBuckets(grouped: Dict<(string, string), Bucket>, rs: seq<Record>)
    requires Groups(grouped, rs, GroupKey(), BucketHolds())
    ensures Groups(SortItems(grouped, PairOrder()), rs, GroupKey(), BucketHolds())
    ensures Ascending(SortItems(grouped, PairOrder()), PairOrder())
  {
    var items := SortItems(grouped, PairOrder());
    PairOrderStrict();
    SortAscends(grouped, PairOrder());
    AscendingDistinct(items, PairOrder());
    SortPermutes(grouped, PairOrder());
    GroupsPermutation(grouped, items, rs, GroupKey(), BucketHolds());
  }

  /** The second loop of `trimester_summary`: one summary per sorted item. */
  method ListTrimesterRows(items: Dict<(string, string), Bucket>) returns (rows: seq<TrimesterRow>)
    ensures |rows| == |items| && forall i :: 0 <= i < |items| ==> rows[i] == TrimesterRowOf(items[i])
  {
    rows := ListAll(items, TrimesterRowOf);
  }

  /** A listing loop: `entryOf` of each item, appended in order. */
  method ListAll<A, B>(items: seq<A>, entryOf: A -> B) returns (entries: seq<B>)
    ensures |entries| == |items| && forall i :: 0 <= i < |items| ==> entries[i] == entryOf(items[i])
  {
    entries := [];
    for i := 0 to |items|
      invariant |entries| == i && forall j :: 0 <= j < i ==> entries[j] == entryOf(items[j])
    {
      entries := entries + [entryOf(items[i])];
    }
  }

  /** `trimester_summary`: records are folded into one bucket per (group,
      trimester), then the buckets are listed in key order with their
      topics and activities in name order. */
  method TrimesterSummary(records: Option<seq<Record>>) returns (summaries: seq<TrimesterRow>)
    ensures TrimesterReport(summaries, PrepareRecords(records))
  {
    var prepared := PrepareRecords(records);
    var grouped := GroupByTrimester(prepared);
    var items := SortItems(grouped, PairOrder());
    SortedBuckets(grouped, prepared);
    summaries := ListTrimesterRows(items);
    TrimesterRows(items, prepared, summaries);
  }

  // ---------------------------------------------------------------------
  // topic_summary
  // ---------------------------------------------------------------------

  /** `defaultdict(float)[trimester] += entry.hours`. */
  function AddHours(e: Record): int -> int { (h: int) => h + e.hours }

  function SumHolds(): (int, seq<Record>) -> bool { (h: int, rs: seq<Record>) => h == Total(rs) }

  function Identity(): int -> int { (h: int) => h }

  /** The counters of one group within a topic: hours, sessions and hours
      per trimester. */
  datatype GroupInfo = GroupInfo(hours: int, sessions: nat, trimesters: Dict<string, int>)

  const NoGroupInfo := GroupInfo(0, 0, [])

  function AddToGroup(e: Record): GroupInfo -> GroupInfo
  {
    (g: GroupInfo) => GroupInfo(g.hours + e.hours, g.sessions + 1, Upd(g.trimesters, e.trimester, 0, AddHours(e)))
  }

  function GroupHolds(): (GroupInfo, seq<Record>) -> bool
  {
    (g: GroupInfo, rs: seq<Record>) =>
      && g.hours == Total(rs) && g.sessions == |rs|
      && Groups(g.trimesters, rs, TrimesterOf(), SumHolds())
      && SumOf(g.trimesters, Identity()) == Total(rs)
  }

  lemma GroupInfoStep(g: GroupInfo, rs: seq<Record>, e: Record)
    requires GroupHolds()(g, rs)
    ensures GroupHolds()(AddToGroup(e)(g), rs + [e])
  {
    TotalSnoc(rs, e);
    forall h: int, R: seq<Record> | SumHolds()(h, R) ensures SumHolds()(AddHours(e)(h), R + [e]) {
      TotalSnoc(R, e);
    }
    GroupsStep(g.trimesters, rs, TrimesterOf(), SumHolds(), e, 0, AddHours(e));
    SumUpd(g.trimesters, e.trimester, 0, AddHours(e), Identity());
  }

  /** The bucket of one topic. */
  datatype TopicBucket = TopicBucket(hours: int, groups: Dict<string, GroupInfo>, activities: Dict<string, Tally>)

  const EmptyTopicBucket := TopicBucket(0, [], [])

  function AddToTopic(e: Record): TopicBucket -> TopicBucket
  {
    (b: TopicBucket) =>
      TopicBucket(b.hours + e.hours, Upd(b.groups, e.group, NoGroupInfo, AddToGroup(e)), Upd(b.activities, e.activity, NoTally, Count(e)))
  }

  function TopicHolds(): (TopicBucket, seq<Record>) -> bool
  {
    (b: TopicBucket, rs: seq<Record>) =>
      b.hours == Total(rs) && Groups(b.groups, rs, GroupOf(), GroupHolds()) && Tallies(b.activities, rs, ActivityOf())
  }

  lemma TopicBucketStep(b: TopicBucket, rs: seq<Record>, e: Record)
    requires TopicHolds()(b, rs)
    ensures TopicHolds()(AddToTopic(e)(b), rs + [e])
  {
    TotalSnoc(rs, e);
    forall g: GroupInfo, G: seq<Record> | GroupHolds()(g, G) ensures GroupHolds()(AddToGroup(e)(g), G + [e]) {
      GroupInfoStep(g, G, e);
    }
    GroupsStep(b.groups, rs, GroupOf(), GroupHolds(), e, NoGroupInfo, AddToGroup(e));
    TalliesStep(b.activities, rs, ActivityOf(), e);
  }

  lemma TopicStep(grouped: Dict<string, TopicBucket>, rs: seq<Record>, e: Record)
    requires Groups(grouped, rs, TopicOf(), TopicHolds())
    ensures Groups(Upd(grouped, e.topic, EmptyTopicBucket, AddToTopic(e)), rs + [e], TopicOf(), TopicHolds())
  {
    forall b: TopicBucket, R: seq<Record> | TopicHolds()(b, R) ensures TopicHolds()(AddToTopic(e)(b), R + [e]) {
      TopicBucketStep(b, R, e);
    }
    GroupsStep(grouped, rs, TopicOf(), TopicHolds(), e, EmptyTopicBucket, AddToTopic(e));
  }

  /** The body of the first loop of `topic_summary`: the bucket's hours,
      the entry's group (hours, sessions, trimester hours) and the entry's
      activity are counted up. */
  method CountInTopic(b: TopicBucket, entry: Record) returns (bucket: TopicBucket)
    ensures bucket == AddToTopic(entry)(b)
  {
    bucket := b.(hours := b.hours + entry.hours);
    var info := Lookup(bucket.groups, entry.group, NoGroupInfo);
    ghost var before := info;
    info := info.(hours := info.hours + entry.hours);
    info := info.(sessions := info.sessions + 1);
    info := info.(trimesters := Upd(info.trimesters, entry.trimester, 0, AddHours(entry)));
    assert info == AddToGroup(entry)(before);
    bucket := bucket.(groups := Put(bucket.groups, entry.group, info));
    bucket := bucket.(activities := Upd(bucket.activities, entry.activity, NoTally, Count(entry)));
  }

  /** One pass of the first loop of `topic_summary`: the record's topic
      bucket is fetched or created and counted up. */
  method TopicRecord(grouped: Dict<string, TopicBucket>, ghost seen: seq<Record>, entry: Record)
    returns (next: Dict<string, TopicBucket>)
    requires Groups(grouped, seen, TopicOf(), TopicHolds())
    ensures Groups(next, seen + [entry], TopicOf(), TopicHolds())
  {
    var bucket := Lookup(grouped, entry.topic, EmptyTopicBucket);
    bucket := CountInTopic(bucket, entry);
    TopicStep(grouped, seen, entry);
    next := Put(grouped, entry.topic, bucket);
  }

  /** The first loop of `topic_summary`: each record is added to the bucket
      of its topic, and within it to its group and its activity. */
  method GroupByTopic(prepared: seq<Record>) returns (grouped: Dict<string, TopicBucket>)
    ensures Groups(grouped, prepared, TopicOf(), TopicHolds())
  {
    grouped := [];
    ghost var seen: seq<Record> := [];
    for k := 0 to |prepared|
      invariant seen == prepared[..k]
      invariant Groups(grouped, seen, TopicOf(), TopicHolds())
    {
      grouped := TopicRecord(grouped, seen, prepared[k]);
      seen := seen + [prepared[k]];
    }
    assert prepared[..|prepared|] == prepared;
  }

  /** One line of a group's trimester breakdown. */
  datatype TrimesterHours = TrimesterHours(trimester: string, hours: int)

  /** One group of a topic. */
  datatype GroupRow = GroupRow(group: string, hours: int, sessions: nat, trimesters: seq<TrimesterHours>)

  /** One entry of the topic summary. */
  datatype TopicRow = TopicRow(topic: string, totalHours: int, groups: seq<GroupRow>, activities: seq<Stat>)

  function TrimesterHoursOf(item: (string, int)): TrimesterHours { TrimesterHours(item.0, item.1) }

  /** The trimester breakdown list over `sorted(info["trimesters"].items())`. */
  function TrimesterBreakdown(d: Dict<string, int>): (r: seq<TrimesterHours>)
    ensures |r| == |d|
  {
    var items := SortItems(d, StrOrder());
    seq(|items|, i requires 0 <= i < |items| => TrimesterHoursOf(items[i]))
  }

  function TrimesterHoursSum(ts: seq<TrimesterHours>): int
  {
    if ts == [] then 0 else ts[0].hours + TrimesterHoursSum(ts[1..])
  }

  function GroupRowOf(item: (string, GroupInfo)): GroupRow
  {
    GroupRow(item.0, item.1.hours, item.1.sessions, TrimesterBreakdown(item.1.trimesters))
  }

  /** The groups list of a topic, over `sorted(data["groups"].items())`. */
  function GroupRows(d: Dict<string, GroupInfo>): (r: seq<GroupRow>)
    ensures |r| == |d|
  {
    var items := SortItems(d, StrOrder());
    seq(|items|, i requires 0 <= i < |items| => GroupRowOf(items[i]))
  }

  function TopicRowOf(item: (string, TopicBucket)): TopicRow
  {
    TopicRow(item.0, item.1.hours, GroupRows(item.1.groups), Stats(item.1.activities))
  }

  /** `ts` breaks the records `rs` down by trimester: names strictly
      ascend, each line holds the hours of exactly its records, every
      record's trimester has a line, and the lines add up to all hours. */
  predicate HoursBreakdown(ts: seq<TrimesterHours>, rs: seq<Record>)
  {
    && (forall i, j :: 0 <= i < j < |ts| ==> StrLess(ts[i].trimester, ts[j].trimester))
    && (forall i :: 0 <= i < |ts| ==>
          Where(rs, TrimesterOf(), ts[i].trimester) != [] && ts[i].hours == Total(Where(rs, TrimesterOf(), ts[i].trimester)))
    && (forall r :: r in rs ==> exists i :: 0 <= i < |ts| && ts[i].trimester == r.trimester)
    && TrimesterHoursSum(ts) == Total(rs)
  }

  /** `gs` breaks the records `rs` down by group, each group with its own
      trimester breakdown. */
  predicate GroupBreakdown(gs: seq<GroupRow>, rs: seq<Record>)
  {
    && (forall i, j :: 0 <= i < j < |gs| ==> StrLess(gs[i].group, gs[j].group))
    && (forall i :: 0 <= i < |gs| ==> DescribesGroup(gs[i], Where(rs, GroupOf(), gs[i].group)))
    && (forall r :: r in rs ==> exists i :: 0 <= i < |gs| && gs[i].group == r.group)
  }

  predicate DescribesGroup(g: GroupRow, rs: seq<Record>)
  {
    rs != [] && g.hours == Total(rs) && g.sessions == |rs| && HoursBreakdown(g.trimesters, rs)
  }

  /** What the topic summary of `rs` says: one row per topic that occurs,
      in ascending order, each with the hours of exactly its records broken
      down by group (and trimester) and by activity. */
  predicate TopicReport(rows: seq<TopicRow>, rs: seq<Record>)
  {
    && (forall i, j :: 0 <= i < j < |rows| ==> StrLess(rows[i].topic, rows[j].topic))
    && (forall r :: r in rs ==> exists i :: 0 <= i < |rows| && rows[i].topic == r.topic)
    && (forall i :: 0 <= i < |rows| ==> DescribesTopic(rows[i], Where(rs, TopicOf(), rows[i].topic)))
  }

  predicate DescribesTopic(row: TopicRow, rs: seq<Record>)
  {
    && rs != []
    && row.totalHours == Total(rs)
    && GroupBreakdown(row.groups, rs)
    && Breakdown(row.activities, rs, ActivityOf())
  }

  lemma {:induction false} TrimesterHoursSumOf(items: Dict<string, int>)
    ensures TrimesterHoursSum(seq(|items|, i requires 0 <= i < |items| => TrimesterHoursOf(items[i]))) == SumOf(items, Identity())
  {
    if items != [] {
      TrimesterHoursSumOf(items[1..]);
      var all := seq(|items|, i requires 0 <= i < |items| => TrimesterHoursOf(items[i]));
      assert all[1..] == seq(|items[1..]|, i requires 0 <= i < |items[1..]| => TrimesterHoursOf(items[1..][i]));
    }
  }

  lemma TrimestersAscend(items: Dict<string, int>, ts: seq<TrimesterHours>)
    requires Ascending(items, StrOrder())
    requires |ts| == |items| && forall i :: 0 <= i < |items| ==> ts[i].trimester == items[i].0
    ensures forall i, j :: 0 <= i < j < |ts| ==> StrLess(ts[i].trimester, ts[j].trimester)
  {
    forall i, j | 0 <= i < j < |ts| ensures StrLess(ts[i].trimester, ts[j].trimester) {
      assert StrOrder()(items[i].0, items[j].0);
    }
  }

  lemma HoursBreakdownOfItems(items: Dict<string, int>, rs: seq<Record>)
    requires Ascending(items, StrOrder()) && Groups(items, rs, TrimesterOf(), SumHolds())
    requires TrimesterHoursSum(seq(|items|, i requires 0 <= i < |items| => TrimesterHoursOf(items[i]))) == Total(rs)
    ensures HoursBreakdown(seq(|items|, i requires 0 <= i < |items| => TrimesterHoursOf(items[i])), rs)
  {
    var ts := seq(|items|, i requires 0 <= i < |items| => TrimesterHoursOf(items[i]));
    TrimestersAscend(items, ts);
    forall i | 0 <= i < |ts|
      ensures Where(rs, TrimesterOf(), ts[i].trimester) != [] && ts[i].hours == Total(Where(rs, TrimesterOf(), ts[i].trimester))
    {
      assert SumHolds()(items[i].1, Where(rs, TrimesterOf(), items[i].0));
    }
    forall r | r in rs ensures exists i :: 0 <= i < |ts| && ts[i].trimester == r.trimester {
      var i :| 0 <= i < |items| && items[i].0 == TrimesterOf()(r);
      assert ts[i].trimester == r.trimester;
    }
  }

  /** The sorted trimester sums of a group are its trimester breakdown. */
  lemma HoursBreakdownOf(d: Dict<string, int>, rs: seq<Record>)
    requires Groups(d, rs, TrimesterOf(), SumHolds()) && SumOf(d, Identity()) == Total(rs)
    ensures HoursBreakdown(TrimesterBreakdown(d), rs)
  {
    var items := SortItems(d, StrOrder());
    SortedGroups(d, rs, TrimesterOf(), SumHolds());
    SumSort(d, StrOrder(), Identity());
    TrimesterHoursSumOf(items);
    HoursBreakdownOfItems(items, rs);
  }

  lemma GroupsAscend(items: Dict<string, GroupInfo>, gs: seq<GroupRow>)
    requires Ascending(items, StrOrder())
    requires |gs| == |items| && forall i :: 0 <= i < |items| ==> gs[i].group == items[i].0
    ensures forall i, j :: 0 <= i < j < |gs| ==> StrLess(gs[i].group, gs[j].group)
  {
    forall i, j | 0 <= i < j < |gs| ensures StrLess(gs[i].group, gs[j].group) {
      assert StrOrder()(items[i].0, items[j].0);
    }
  }

  /** The sorted groups of a topic are its group breakdown. */
  lemma GroupBreakdownOf(d: Dict<string, GroupInfo>, rs: seq<Record>)
    requires Groups(d, rs, GroupOf(), GroupHolds())
    ensures GroupBreakdown(GroupRows(d), rs)
  {
    var items := SortItems(d, StrOrder());
    var gs := GroupRows(d);
    SortedGroups(d, rs, GroupOf(), GroupHolds());
    GroupsAscend(items, gs);
    GroupsDescribed(items, gs, rs);
    GroupsCover(items, gs, rs);
  }

  lemma GroupsDescribed(items: Dict<string, GroupInfo>, gs: seq<GroupRow>, rs: seq<Record>)
    requires Groups(items, rs, GroupOf(), GroupHolds())
    requires |gs| == |items| && forall i :: 0 <= i < |items| ==> gs[i] == GroupRowOf(items[i])
    ensures forall i :: 0 <= i < |gs| ==> DescribesGroup(gs[i], Where(rs, GroupOf(), gs[i].group))
  {
    forall i | 0 <= i < |gs| ensures DescribesGroup(gs[i], Where(rs, GroupOf(), gs[i].group)) {
      var G := Where(rs, GroupOf(), items[i].0);
      assert GroupHolds()(items[i].1, G);
      HoursBreakdownOf(items[i].1.trimesters, G);
    }
  }

  lemma GroupsCover(items: Dict<string, GroupInfo>, gs: seq<GroupRow>, rs: seq<Record>)
    requires forall r :: r in rs ==> GroupOf()(r) in Keys(items)
    requires |gs| == |items| && forall i :: 0 <= i < |items| ==> gs[i].group == items[i].0
    ensures forall r :: r in rs ==> exists i :: 0 <= i < |gs| && gs[i].group == r.group
  {
    forall r | r in rs ensures exists i :: 0 <= i < |gs| && gs[i].group == r.group {
      var i :| 0 <= i < |items| && items[i].0 == GroupOf()(r);
      assert gs[i].group == r.group;
    }
  }

  lemma TopicRows(items: Dict<string, TopicBucket>, rs: seq<Record>, rows: seq<TopicRow>)
    requires Groups(items, rs, TopicOf(), TopicHolds()) && Ascending(items, StrOrder())
    requires |rows| == |items| && forall i :: 0 <= i < |items| ==> rows[i] == TopicRowOf(items[i])
    ensures TopicReport(rows, rs)
  {
    forall i, j | 0 <= i < j < |rows| ensures StrLess(rows[i].topic, rows[j].topic) {
      assert StrOrder()(items[i].0, items[j].0);
    }
    forall r | r in rs ensures exists i :: 0 <= i < |rows| && rows[i].topic == r.topic {
      var i :| 0 <= i < |items| && items[i].0 == TopicOf()(r);
      assert rows[i].topic == r.topic;
    }
    forall i | 0 <= i < |rows| ensures DescribesTopic(rows[i], Where(rs, TopicOf(), rows[i].topic)) {
      var R := Where(rs, TopicOf(), items[i].0);
      assert TopicHolds()(items[i].1, R);
      GroupBreakdownOf(items[i].1.groups, R);
      BreakdownOf(items[i].1.activities, R, ActivityOf());
    }
  }

  /** The inner loop of `topic_summary`: one group entry per sorted item. */
  method ListGroupRows(items: Dict<string, GroupInfo>) returns (groups: seq<GroupRow>)
    ensures |groups| == |items| && forall i :: 0 <= i < |items| ==> groups[i] == GroupRowOf(items[i])
  {
    groups := ListAll(items, GroupRowOf);
  }

  /** The body of the outer loop of `topic_summary`: one topic's summary,
      its groups listed by the inner loop. */
  method TopicRowFor(item: (string, TopicBucket)) returns (row: TopicRow)
    ensures row == TopicRowOf(item)
  {
    var groups := ListGroupRows(SortItems(item.1.groups, StrOrder()));
    assert groups == GroupRows(item.1.groups);
    row := TopicRow(item.0, item.1.hours, groups, Stats(item.1.activities));
  }

  /** The outer loop of `topic_summary`: one summary per sorted topic. */
  method ListTopicRows(items: Dict<string, TopicBucket>) returns (rows: seq<TopicRow>)
    ensures |rows| == |items| && forall i :: 0 <= i < |items| ==> rows[i] == TopicRowOf(items[i])
  {
    rows := [];
    for i := 0 to |items|
      invariant |rows| == i && forall j :: 0 <= j < i ==> rows[j] == TopicRowOf(items[j])
    {
      var row := TopicRowFor(items[i]);
      ListedSnoc(rows, items, TopicRowOf, row);
      rows := rows + [row];
    }
  }

  /** Appending the entry of the next item keeps a listing in step. */
  lemma ListedSnoc<A, B>(entries: seq<B>, items: seq<A>, entryOf: A -> B, e: B)
    requires |entries| < |items| && forall j :: 0 <= j < |entries| ==> entries[j] == entryOf(items[j])
    requires e == entryOf(items[|entries|])
    ensures forall j :: 0 <= j <= |entries| ==> (entries + [e])[j] == entryOf(items[j])
  {
  }

  /** `topic_summary`: records are folded into one bucket per topic, then
      the buckets are listed in topic order with their groups (and each
      group's trimesters) and activities in name order. */
  method TopicSummary(records: Option<seq<Record>>) returns (summaries: seq<TopicRow>)
    ensures TopicReport(summaries, PrepareRecords(records))
  {
    var prepared := PrepareRecords(records);
    var grouped := GroupByTopic(prepared);
    var items := SortItems(grouped, StrOrder());
    SortedGroups(grouped, prepared, TopicOf(), TopicHolds());
    summaries := ListTopicRows(items);
    TopicRows(items, prepared, summaries);
  }

  // ---------------------------------------------------------------------
  // Hours as text
  // ---------------------------------------------------------------------

  function FractionText(f: nat): string
    requires f < 100
  {
    if f % 10 == 0 then [DigitChar(f / 10)] else [DigitChar(f / 10), DigitChar(f % 10)]
  }

  /** `str()` of an hours value rounded to two places, as Python prints
      such a float: `2.0`, `3.5`, `2.25`, `-0.05`. */
  function HoursText(h: int): string
  {
    (if h < 0 then "-" else "") + Magnitude(Abs(h))
  }

  function Abs(h: int): nat
  {
    if h < 0 then -h else h
  }

  function Magnitude(m: nat): string
  {
    NatToString(m / 100) + "." + FractionText(m % 100)
  }

  predicate AllDigits(s: string)
  {
    forall i :: 0 <= i < |s| ==> IsDigit(s[i])
  }

  /** The index of the first `.`, or the length when there is none. */
  function DotIndex(s: string): (i: nat)
    ensures i <= |s|
  {
    if s == [] || s[0] == '.' then 0 else 1 + DotIndex(s[1..])
  }

  /** Reads back a decimal with one or two fractional digits, in hundredths. */
  function ParseUnsigned(s: string): Option<nat>
  {
    var i := DotIndex(s);
    if i == |s| then None else DecimalValue(s[..i], s[i + 1..])
  }

  /** The value, in hundredths, of the digits before and after the dot. */
  function DecimalValue(whole: string, frac: string): Option<nat>
  {
    if whole != [] && AllDigits(whole) && 1 <= |frac| <= 2 && AllDigits(frac) then
      Some(DigitsValue(whole) * 100 + if |frac| == 1 then DigitsValue(frac) * 10 else DigitsValue(frac))
    else None
  }

  function ParseHours(s: string): Option<int>
  {
    var negative := s != [] && s[0] == '-';
    var magnitude := ParseUnsigned(if negative then s[1..] else s);
    if magnitude.None? then None
    else if negative then Some(0 - magnitude.value)
    else Some(magnitude.value)
  }

  lemma {:induction false} DotAfterDigits(d: string, rest: string)
    requires AllDigits(d)
    ensures DotIndex(d + rest) == |d| + DotIndex(rest)
  {
    if d != [] {
      assert (d + rest)[0] == d[0] && IsDigit(d[0]);
      assert (d + rest)[1..] == d[1..] + rest;
      assert AllDigits(d[1..]);
      DotAfterDigits(d[1..], rest);
    } else {
      assert d + rest == rest;
    }
  }

  lemma FractionValue(q: nat)
    requires q < 100
    ensures var f := FractionText(q);
      && 1 <= |f| <= 2 && AllDigits(f)
      && (if |f| == 1 then DigitsValue(f) * 10 else DigitsValue(f)) == q
  {
    DigitCharValue(q / 10);
    DigitCharValue(q % 10);
    var x := DigitChar(q / 10);
    assert [x][..0] == [];
    assert DigitsValue([x]) == q / 10;
    if q % 10 != 0 {
      var y := DigitChar(q % 10);
      assert [x, y][..1] == [x];
      assert DigitsValue([x, y]) == (q / 10) * 10 + q % 10;
    }
  }

  lemma ParseAt(s: string, w: string, f: string)
    requires DotIndex(s) == |w| < |s| && s[..|w|] == w && s[|w| + 1..] == f
    ensures ParseUnsigned(s) == DecimalValue(w, f)
  {
  }

  lemma ParseDecimal(w: string, f: string)
    requires w != [] && AllDigits(w) && 1 <= |f| <= 2 && AllDigits(f)
    ensures ParseUnsigned(w + "." + f) == Some(DigitsValue(w) * 100 + if |f| == 1 then DigitsValue(f) * 10 else DigitsValue(f))
  {
    DotAfterDigits(w, "." + f);
    assert ("." + f)[0] == '.';
    var s := w + "." + f;
    assert s == w + ("." + f);
    assert s[..|w|] == w && s[|w| + 1..] == f;
    ParseAt(s, w, f);
    DecimalValueOf(w, f);
  }

  lemma DecimalValueOf(w: string, f: string)
    requires w != [] && AllDigits(w) && 1 <= |f| <= 2 && AllDigits(f)
    ensures DecimalValue(w, f) == Some(DigitsValue(w) * 100 + if |f| == 1 then DigitsValue(f) * 10 else DigitsValue(f))
  {
  }

  lemma UnsignedRoundTrip(h: nat)
    ensures ParseUnsigned(Magnitude(h)) == Some(h)
    ensures Magnitude(h) != [] && IsDigit(Magnitude(h)[0])
  {
    var w := NatToString(h / 100);
    DigitsOfNat(h / 100);
    FractionValue(h % 100);
    ParseDecimal(w, FractionText(h % 100));
  }

  /** Every hours text reads back as the value it was made from. */
  lemma ParseSigned(u: string, m: nat, h: int)
    requires ParseUnsigned(u) == Some(m)
    ensures h == -(m as int) ==> ParseHours("-" + u) == Some(h)
    ensures u != [] && u[0] != '-' && h == m ==> ParseHours(u) == Some(h)
  {
    assert ("-" + u)[0] == '-' && ("-" + u)[1..] == u;
  }

  lemma HoursRoundTrip(h: int)
    ensures ParseHours(HoursText(h)) == Some(h)
  {
    var m := Abs(h);
    UnsignedRoundTrip(m);
    ParseSigned(Magnitude(m), m, h);
    if h >= 0 {
      assert HoursText(h) == Magnitude(m);
    }
  }

  // ---------------------------------------------------------------------
  // CSV exports
  // ---------------------------------------------------------------------

  const TrimesterCsvHeader: seq<string> := ["Group", "Trimester", "Total Hours", "Topic Breakdown", "Activity Breakdown"]

  const TopicCsvHeader: seq<string> := ["Topic", "Total Hours", "Group Breakdown", "Activity Breakdown"]

  /** `f"{name} ({hours}h/{sessions} sessions)"`. */
  function StatText(s: Stat): string
  {
    s.name + " (" + HoursText(s.hours) + "h/" + NatToString(s.sessions) + " sessions)"
  }

  function GroupText(g: GroupRow): string
  {
    g.group + " (" + HoursText(g.hours) + "h/" + NatToString(g.sessions) + " sessions)"
  }

  function StatTexts(stats: seq<Stat>): (r: seq<string>)
    ensures |r| == |stats| && forall i :: 0 <= i < |stats| ==> r[i] == StatText(stats[i])
  {
    seq(|stats|, i requires 0 <= i < |stats| => StatText(stats[i]))
  }

  function GroupTexts(groups: seq<GroupRow>): (r: seq<string>)
    ensures |r| == |groups| && forall i :: 0 <= i < |groups| ==> r[i] == GroupText(groups[i])
  {
    seq(|groups|, i requires 0 <= i < |groups| => GroupText(groups[i]))
  }

  /** The fields of one trimester CSV row. */
  function TrimesterCsvRow(row: TrimesterRow): seq<string>
  {
    [row.group, row.trimester, HoursText(row.totalHours), Join("; ", StatTexts(row.topics)), Join("; ", StatTexts(row.activities))]
  }

  /** The fields of one topic CSV row. */
  function TopicCsvRow(row: TopicRow): seq<string>
  {
    [row.topic, HoursText(row.totalHours), Join("; ", GroupTexts(row.groups)), Join("; ", StatTexts(row.activities))]
  }

  /** Every CSV row has one field per header. */
  lemma CsvRowWidths(t: TrimesterRow, p: TopicRow)
    ensures |TrimesterCsvRow(t)| == |TrimesterCsvHeader|
    ensures |TopicCsvRow(p)| == |TopicCsvHeader|
  {
  }

  // ---------------------------------------------------------------------
  // PDF text
  // ---------------------------------------------------------------------

  /** `s.replace(c, rep)` for a one-character `c`. */
  function ReplaceChar(s: string, c: char, rep: string): string
  {
    if s == [] then [] else (if s[0] == c then rep else [s[0]]) + ReplaceChar(s[1..], c, rep)
  }

  /** `_pdf_escape`: backslashes are doubled first, then parentheses get a
      backslash. */
  function PdfEscape(value: string): string
  {
    ReplaceChar(ReplaceChar(ReplaceChar(value, '\\', "\\\\"), '(', "\\("), ')', "\\)")
  }

  function EscapeChar(c: char): string
  {
    if c == '\\' then "\\\\" else if c == '(' then "\\(" else if c == ')' then "\\)" else [c]
  }

  /** Escaping character by character. */
  function EscapeEach(s: string): string
  {
    if s == [] then [] else EscapeChar(s[0]) + EscapeEach(s[1..])
  }

  function IsSpecial(c: char): bool { c == '\\' || c == '(' || c == ')' }

  function SpecialCount(s: string): nat
  {
    if s == [] then 0 else (if IsSpecial(s[0]) then 1 else 0) + SpecialCount(s[1..])
  }

  /** Reading escaped text back: a backslash takes the next character
      literally. */
  function Unescape(t: string): string
  {
    if t == [] then []
    else if t[0] == '\\' && |t| >= 2 then [t[1]] + Unescape(t[2..])
    else [t[0]] + Unescape(t[1..])
  }

  lemma {:induction false} ReplaceAppend(a: string, b: string, c: char, rep: string)
    ensures ReplaceChar(a + b, c, rep) == ReplaceChar(a, c, rep) + ReplaceChar(b, c, rep)
  {
    if a != [] {
      assert (a + b)[0] == a[0];
      assert (a + b)[1..] == a[1..] + b;
      ReplaceAppend(a[1..], b, c, rep);
    } else {
      assert a + b == b;
    }
  }

  lemma ReplaceSingle(x: char, c: char, rep: string)
    ensures ReplaceChar([x], c, rep) == if x == c then rep else [x]
  {
    assert [x][0] == x && [x][1..] == [];
    assert ReplaceChar([], c, rep) == [];
  }

  lemma EscapeOne(c: char)
    ensures PdfEscape([c]) == EscapeChar(c)
  {
    ReplaceSingle(c, '\\', "\\\\");
    var b := ReplaceChar([c], '\\', "\\\\");
    if c == '\\' {
      assert b == "\\\\";
      assert ReplaceChar(b, '(', "\\(") == "\\\\" by {
        assert b[1..] == "\\" && b[1..][1..] == [];
      }
      assert ReplaceChar("\\\\", ')', "\\)") == "\\\\" by {
        assert "\\\\"[1..] == "\\" && "\\"[1..] == [];
      }
    } else if c == '(' {
      assert b == "(";
      assert ReplaceChar(b, '(', "\\(") == "\\(";
      assert ReplaceChar("\\(", ')', "\\)") == "\\(" by {
        assert "\\("[1..] == "(" && "("[1..] == [];
      }
    } else {
      assert b == [c];
    }
  }

  /** Replacing backslashes first and then parentheses escapes each
      character on its own: no inserted backslash is escaped again. */
  lemma {:induction false} PdfEscapeCharwise(s: string)
    ensures PdfEscape(s) == EscapeEach(s)
  {
    if s != [] {
      assert s == [s[0]] + s[1..];
      ReplaceAppend([s[0]], s[1..], '\\', "\\\\");
      var b1 := ReplaceChar([s[0]], '\\', "\\\\");
      var r1 := ReplaceChar(s[1..], '\\', "\\\\");
      ReplaceAppend(b1, r1, '(', "\\(");
      ReplaceAppend(ReplaceChar(b1, '(', "\\("), ReplaceChar(r1, '(', "\\("), ')', "\\)");
      EscapeOne(s[0]);
      PdfEscapeCharwise(s[1..]);
    }
  }

  /** Each backslash or parenthesis gains one character. */
  lemma {:induction false} PdfEscapeLength(s: string)
    ensures |PdfEscape(s)| == |s| + SpecialCount(s)
  {
    PdfEscapeCharwise(s);
    EscapeEachLength(s);
  }

  lemma {:induction false} EscapeEachLength(s: string)
    ensures |EscapeEach(s)| == |s| + SpecialCount(s)
  {
    if s != [] {
      EscapeEachLength(s[1..]);
    }
  }

  /** Escaped text reads back as the original. */
  lemma {:induction false} PdfEscapeRoundTrip(s: string)
    ensures Unescape(PdfEscape(s)) == s
  {
    PdfEscapeCharwise(s);
    UnescapeEach(s);
  }

  lemma {:induction false} UnescapeEach(s: string)
    ensures Unescape(EscapeEach(s)) == s
  {
    if s != [] {
      UnescapeEach(s[1..]);
      var t := EscapeEach(s);
      var e := EscapeChar(s[0]);
      assert t == e + EscapeEach(s[1..]);
      if IsSpecial(s[0]) {
        assert t[0] == '\\' && t[1] == s[0] && t[2..] == EscapeEach(s[1..]);
      } else {
        assert t[0] == s[0] && t[1..] == EscapeEach(s[1..]);
      }
    }
  }

  // ---------------------------------------------------------------------
  // CSV builders
  // ---------------------------------------------------------------------

  /** `build_trimester_csv`: the header row, then one row per summary; with
      no summaries given, those of the default dataset. */
  method BuildTrimesterCsv(rows: Option<seq<TrimesterRow>>) returns (table: seq<seq<string>>)
    ensures |table| >= 1 && table[0] == TrimesterCsvHeader
    ensures rows.Some? ==> |table| == |rows.value| + 1 && forall i :: 0 <= i < |rows.value| ==> table[i + 1] == TrimesterCsvRow(rows.value[i])
    ensures rows.None? ==> exists summaries :: TrimesterReport(summaries, DefaultDataset) && table == TrimesterCsvTable(summaries)
  {
    var summaries: seq<TrimesterRow>;
    if rows.Some? {
      summaries := rows.value;
    } else {
      summaries := TrimesterSummary(None);
    }
    table := WriteTrimesterCsv(summaries);
    CsvTableIs(table, TrimesterCsvHeader, summaries, TrimesterCsvRow);
  }


  /** The rows loop of `build_trimester_csv` and `_csv_from_rows`: the header
      row, then one row per summary. */
  method WriteTrimesterCsv(summaries: seq<TrimesterRow>) returns (table: seq<seq<string>>)
    ensures |table| == |summaries| + 1 && table[0] == TrimesterCsvHeader
    ensures forall i :: 0 <= i < |summaries| ==> table[i + 1] == TrimesterCsvRow(summaries[i])
  {
    var csvRows: seq<seq<string>> := [];
    for i := 0 to |summaries|
      invariant |csvRows| == i && forall j :: 0 <= j < i ==> csvRows[j] == TrimesterCsvRow(summaries[j])
    {
      csvRows := csvRows + [TrimesterCsvRow(summaries[i])];
    }
    table := [TrimesterCsvHeader] + csvRows;
  }

  /** A CSV table: the header row, then one row per summary. */
  function CsvTable<R>(header: seq<string>, summaries: seq<R>, rowOf: R -> seq<string>): (t: seq<seq<string>>)
    ensures |t| == |summaries| + 1 && t[0] == header
    ensures forall i :: 0 <= i < |summaries| ==> t[i + 1] == rowOf(summaries[i])
  {
    [header] + seq(|summaries|, i requires 0 <= i < |summaries| => rowOf(summaries[i]))
  }

  lemma CsvTableIs<R>(table: seq<seq<string>>, header: seq<string>, summaries: seq<R>, rowOf: R -> seq<string>)
    requires |table| == |summaries| + 1 && table[0] == header
    requires forall i :: 0 <= i < |summaries| ==> table[i + 1] == rowOf(summaries[i])
    ensures table == CsvTable(header, summaries, rowOf)
  {
  }

  /** The rows `build_trimester_csv` writes for some summaries. */
  function TrimesterCsvTable(summaries: seq<TrimesterRow>): seq<seq<string>>
  {
    CsvTable(TrimesterCsvHeader, summaries, TrimesterCsvRow)
  }

  /** The rows `build_topic_csv` writes for some summaries. */
  function TopicCsvTable(summaries: seq<TopicRow>): seq<seq<string>>
  {
    CsvTable(TopicCsvHeader, summaries, TopicCsvRow)
  }

  /** `build_topic_csv`: the header row, then one row per summary; with no
      summaries given, those of the default dataset. */
  method BuildTopicCsv(rows: Option<seq<TopicRow>>) returns (table: seq<seq<string>>)
    ensures |table| >= 1 && table[0] == TopicCsvHeader
    ensures rows.Some? ==> |table| == |rows.value| + 1 && forall i :: 0 <= i < |rows.value| ==> table[i + 1] == TopicCsvRow(rows.value[i])
    ensures rows.None? ==> exists summaries :: TopicReport(summaries, DefaultDataset) && table == TopicCsvTable(summaries)
  {
    var summaries: seq<TopicRow>;
    if rows.Some? {
      summaries := rows.value;
    } else {
      summaries := TopicSummary(None);
    }
    table := WriteTopicCsv(summaries);
    CsvTableIs(table, TopicCsvHeader, summaries, TopicCsvRow);
  }


  /** The rows loop of `build_topic_csv` and `_csv_from_rows`: the header
      row, then one row per summary. */
  method WriteTopicCsv(summaries: seq<TopicRow>) returns (table: seq<seq<string>>)
    ensures |table| == |summaries| + 1 && table[0] == TopicCsvHeader
    ensures forall i :: 0 <= i < |summaries| ==> table[i + 1] == TopicCsvRow(summaries[i])
  {
    var csvRows: seq<seq<string>> := [];
    for i := 0 to |summaries|
      invariant |csvRows| == i && forall j :: 0 <= j < i ==> csvRows[j] == TopicCsvRow(summaries[j])
    {
      csvRows := csvRows + [TopicCsvRow(summaries[i])];
    }
    table := [TopicCsvHeader] + csvRows;
  }

  // ---------------------------------------------------------------------
  // PDF documents
  // ---------------------------------------------------------------------

  /** The stream operators before the text lines: title font, leading and
      position, the title, then the body font and leading. */
  function StreamPrologue(title: string): seq<string>
  {
    ["BT", "/F1 16 Tf", "18 TL", "72 760 Td", "(" + PdfEscape(title) + ") Tj", "/F1 11 Tf", "14 TL", "0 -24 Td"]
  }

  /** A text line shown, then a line break. */
  function ShowLines(escaped: seq<string>): seq<string>
  {
    if escaped == [] then []
    else ShowLines(escaped[..|escaped| - 1]) + ["(" + escaped[|escaped| - 1] + ") Tj", "T*"]
  }

  lemma {:induction false} ShowLinesShape(escaped: seq<string>)
    ensures |ShowLines(escaped)| == 2 * |escaped|
    ensures forall i :: 0 <= i < |escaped| ==>
      ShowLines(escaped)[2 * i] == "(" + escaped[i] + ") Tj" && ShowLines(escaped)[2 * i + 1] == "T*"
  {
    if escaped != [] {
      ShowLinesShape(escaped[..|escaped| - 1]);
    }
  }

  /** The lines of the content stream. */
  function StreamLinesOf(title: string, lines: seq<string>): seq<string>
  {
    StreamPrologue(title) + ShowLines(seq(|lines|, i requires 0 <= i < |lines| => PdfEscape(lines[i]))) + ["ET"]
  }

  /** `_pdf_text_stream`: the prologue, each escaped line shown and
      followed by a line break, then the end of the text object. */
  method TextStream(title: string, lines: seq<string>) returns (stream: string)
    ensures stream == Join("\n", StreamLinesOf(title, lines))
  {
    var escaped := seq(|lines|, i requires 0 <= i < |lines| => PdfEscape(lines[i]));
    var streamLines := StreamPrologue(title);
    for i := 0 to |escaped|
      invariant streamLines == StreamPrologue(title) + ShowLines(escaped[..i])
    {
      assert escaped[..i + 1][..i] == escaped[..i];
      streamLines := streamLines + ["(" + escaped[i] + ") Tj"];
      streamLines := streamLines + ["T*"];
    }
    assert escaped[..|escaped|] == escaped;
    streamLines := streamLines + ["ET"];
    stream := Join("\n", streamLines);
  }

  /** The stream's lines: the prologue, then for each text line its escaped
      text shown and a line break, then `ET`. */
  lemma StreamLinesShape(title: string, lines: seq<string>)
    ensures |StreamLinesOf(title, lines)| == 9 + 2 * |lines|
    ensures StreamLinesOf(title, lines)[..8] == StreamPrologue(title)
    ensures forall i :: 0 <= i < |lines| ==>
      StreamLinesOf(title, lines)[8 + 2 * i] == "(" + PdfEscape(lines[i]) + ") Tj" && StreamLinesOf(title, lines)[9 + 2 * i] == "T*"
    ensures StreamLinesOf(title, lines)[8 + 2 * |lines|] == "ET"
  {
    var escaped := seq(|lines|, i requires 0 <= i < |lines| => PdfEscape(lines[i]));
    ShowLinesShape(escaped);
  }

  /** The text lines of a report: the header line, a rule as wide as it,
      one line per row, a blank line and the timestamp line. */
  function TextLines(headers: seq<string>, rows: seq<seq<string>>, timestamp: string): (r: seq<string>)
    ensures |r| == |rows| + 4
  {
    var headerLine := Join(" | ", headers);
    var separator := seq(|headerLine|, _ => '-');
    [headerLine, separator] + seq(|rows|, i requires 0 <= i < |rows| => Join(" | ", rows[i])) + ["", timestamp]
  }

  const PdfHeader := "%PDF-1.4\n"

  /** The content stream object, its length in front. */
  function ContentObject(stream: string): string
  {
    "<< /Length " + NatToString(|stream|) + " >>\nstream\n" + stream + "\nendstream"
  }

  /** The five objects: catalog, page tree, page, contents and font. */
  function PdfObjects(content: string): seq<string>
  {
    [ "<< /Type /Catalog /Pages 2 0 R >>",
      "<< /Type /Pages /Kids [3 0 R] /Count 1 >>",
      "<< /Type /Page /Parent 2 0 R /MediaBox [0 0 612 792] /Contents 4 0 R /Resources << /Font << /F1 5 0 R >> >> >>",
      content,
      "<< /Type /Font /Subtype /Type1 /BaseFont /Helvetica >>" ]
  }

  /** Object number `index` as written. */
  function ObjectText(index: nat, obj: string): string
  {
    NatToString(index) + " 0 obj\n" + obj + "\nendobj\n"
  }

  /** The bytes of the header and the objects, numbered from 1. */
  function Body(objects: seq<string>): string
  {
    if objects == [] then PdfHeader
    else Body(objects[..|objects| - 1]) + ObjectText(|objects|, objects[|objects| - 1])
  }

  /** The position of each object: the bytes written before it. */
  function Offsets(objects: seq<string>): (r: seq<nat>)
    ensures |r| == |objects|
  {
    seq(|objects|, i requires 0 <= i < |objects| => |Body(objects[..i])|)
  }

  function XrefEntry(offset: nat): string
  {
    ZeroPad(offset, 10) + " 00000 n \n"
  }

  function XrefEntries(offsets: seq<nat>): string
  {
    if offsets == [] then [] else XrefEntries(offsets[..|offsets| - 1]) + XrefEntry(offsets[|offsets| - 1])
  }

  /** The cross-reference table: the count of entries, the free entry 0,
      then one entry per object. */
  function XrefTable(offsets: seq<nat>): string
  {
    XrefHeader(|offsets| + 1) + XrefEntries(offsets)
  }

  /** The `xref` keyword, the subsection line for `count` entries and the
      free entry 0. */
  function XrefHeader(count: nat): string
  {
    "xref\n" + XrefSubsection(count)
  }

  function XrefSubsection(count: nat): string
  {
    "0 " + NatToString(count) + "\n" + "0000000000 65535 f \n"
  }

  function Trailer(count: nat, xrefOffset: nat): string
  {
    "trailer\n<< /Size " + NatToString(count + 1) + " /Root 1 0 R >>\nstartxref\n" + NatToString(xrefOffset) + "\n%%EOF"
  }

  /** The whole file for some objects. */
  function PdfFile(objects: seq<string>): string
  {
    Body(objects) + XrefTable(Offsets(objects)) + Trailer(|objects|, |Body(objects)|)
  }

  /** The objects loop of `_build_pdf_document`: each object's position is
      recorded before it is written. */
  method WriteObjects(objects: seq<string>) returns (pdf: string, offsets: seq<nat>)
    ensures pdf == Body(objects) && offsets == Offsets(objects)
  {
    pdf := PdfHeader;
    offsets := [];
    for i := 0 to |objects|
      invariant pdf == Body(objects[..i])
      invariant |offsets| == i && forall j :: 0 <= j < i ==> offsets[j] == |Body(objects[..j])|
    {
      offsets := offsets + [|pdf|];
      assert objects[..i + 1][..i] == objects[..i];
      pdf := pdf + ObjectText(i + 1, objects[i]);
    }
    assert objects[..|objects|] == objects;
  }

  lemma XrefEntriesSnoc(head: string, xref: string, offsets: seq<nat>, i: nat)
    requires i < |offsets|
    requires xref == head + XrefEntries(offsets[..i])
    ensures xref + XrefEntry(offsets[i]) == head + XrefEntries(offsets[..i + 1])
  {
    var prefix := offsets[..i + 1];
    assert prefix[..|prefix| - 1] == offsets[..i];
    var entries := XrefEntries(offsets[..i]);
    var entry := XrefEntry(offsets[i]);
    assert XrefEntries(prefix) == entries + entry;
    AppendAssoc(head, entries, entry);
  }

  lemma AppendAssoc(a: string, b: string, c: string)
    ensures (a + b) + c == a + (b + c)
  {
  }

  /** The cross-reference part of `_build_pdf_document`: the entry count,
      the free entry, then one entry per recorded position. */
  method WriteXrefTable(offsets: seq<nat>) returns (xref: string)
    ensures xref == XrefTable(offsets)
  {
    xref := AppendXrefEntries(XrefHeader(|offsets| + 1), offsets);
  }

  /** The loop of `_build_pdf_document` that writes one entry per
      recorded position after `head`. */
  method AppendXrefEntries(head: string, offsets: seq<nat>) returns (xref: string)
    ensures xref == head + XrefEntries(offsets)
  {
    xref := head;
    for i := 0 to |offsets|
      invariant xref == head + XrefEntries(offsets[..i])
    {
      XrefEntriesSnoc(head, xref, offsets, i);
      xref := xref + XrefEntry(offsets[i]);
    }
    assert offsets[..|offsets|] == offsets;
  }

  /** The bytes of a PDF file holding `objects`: the header and the
      numbered objects, the cross-reference table of their positions, and
      the trailer pointing at that table. */
  method WritePdf(objects: seq<string>) returns (pdf: string)
    ensures pdf == PdfFile(objects)
  {
    var offsets;
    pdf, offsets := WriteObjects(objects);
    var xrefOffset := |pdf|;
    var xref := WriteXrefTable(offsets);
    pdf := pdf + xref;
    pdf := pdf + Trailer(|objects|, xrefOffset);
  }

  /** The PDF file of a table of text rows under a title. */
  function PdfReport(title: string, headers: seq<string>, rows: seq<seq<string>>, timestamp: string): string
  {
    PdfFile(PdfObjects(ContentObject(Join("\n", StreamLinesOf(title, TextLines(headers, rows, timestamp))))))
  }

  /** `_build_pdf_document`, the timestamp line given. */
  method BuildPdfDocument(title: string, headers: seq<string>, rows: seq<seq<string>>, timestamp: string) returns (pdf: string)
    ensures pdf == PdfReport(title, headers, rows, timestamp)
  {
    var stream := TextStream(title, TextLines(headers, rows, timestamp));
    pdf := WritePdf(PdfObjects(ContentObject(stream)));
  }

  // ---------------------------------------------------------------------
  // What a PDF reader relies on
  // ---------------------------------------------------------------------

  lemma {:induction false} BodyPrefix(objects: seq<string>, j: nat)
    requires j <= |objects|
    ensures Body(objects[..j]) <= Body(objects)
  {
    if j < |objects| {
      var init := objects[..|objects| - 1];
      assert init[..j] == objects[..j];
      BodyPrefix(init, j);
      assert objects[..|objects|] == objects;
    } else {
      assert objects[..j] == objects;
    }
  }

  lemma ObjectInBody(objects: seq<string>, i: nat)
    requires i < |objects|
    ensures Offsets(objects)[i] + |ObjectText(i + 1, objects[i])| <= |Body(objects)|
    ensures Body(objects)[Offsets(objects)[i]..Offsets(objects)[i] + |ObjectText(i + 1, objects[i])|] == ObjectText(i + 1, objects[i])
  {
    var before := Body(objects[..i]);
    var text := ObjectText(i + 1, objects[i]);
    assert objects[..i + 1][..i] == objects[..i];
    assert Body(objects[..i + 1]) == before + text;
    BodyPrefix(objects, i + 1);
    assert Body(objects)[|before|..|before| + |text|] == (before + text)[|before|..];
  }

  lemma BodyInFile(objects: seq<string>)
    ensures Body(objects) <= PdfFile(objects)
  {
  }

  /** Each recorded offset is where that object's `N 0 obj` text starts in
      the file, and the offsets grow with the object number. */
  lemma ObjectAtOffset(objects: seq<string>, i: nat)
    requires i < |objects|
    ensures Offsets(objects)[i] + |ObjectText(i + 1, objects[i])| <= |PdfFile(objects)|
    ensures PdfFile(objects)[Offsets(objects)[i]..Offsets(objects)[i] + |ObjectText(i + 1, objects[i])|] == ObjectText(i + 1, objects[i])
    ensures i + 1 < |objects| ==> Offsets(objects)[i] < Offsets(objects)[i + 1]
  {
    var start := Offsets(objects)[i];
    var text := ObjectText(i + 1, objects[i]);
    var body := Body(objects);
    ObjectInBody(objects, i);
    BodyInFile(objects);
    SliceOfPrefix(body, PdfFile(objects), start, start + |text|);
    if i + 1 < |objects| {
      BodySnoc(objects, i);
    }
  }

  lemma SliceOfPrefix(a: string, b: string, lo: nat, hi: nat)
    requires a <= b && lo <= hi <= |a|
    ensures hi <= |b| && b[lo..hi] == a[lo..hi]
  {
  }

  /** Writing one more object makes the body longer. */
  lemma BodySnoc(objects: seq<string>, i: nat)
    requires i < |objects|
    ensures |Body(objects[..i + 1])| == |Body(objects[..i])| + |ObjectText(i + 1, objects[i])|
    ensures |ObjectText(i + 1, objects[i])| > 0
  {
    var prefix := objects[..i + 1];
    assert prefix[..i] == objects[..i];
    assert Body(prefix) == Body(objects[..i]) + ObjectText(i + 1, objects[i]);
  }

  lemma SliceAfter(a: string, b: string, n: nat)
    requires n <= |b|
    ensures (a + b)[|a|..|a| + n] == b[..n]
  {
  }

  lemma FileAfterBody(objects: seq<string>)
    ensures PdfFile(objects) == Body(objects) + (XrefTable(Offsets(objects)) + Trailer(|objects|, |Body(objects)|))
  {
  }

  /** The `startxref` value is the position of the `xref` keyword. */
  lemma StartXrefPointsAtXref(objects: seq<string>)
    ensures |Body(objects)| + 5 <= |PdfFile(objects)|
    ensures PdfFile(objects)[|Body(objects)|..|Body(objects)| + 5] == "xref\n"
  {
    XrefKeyword(Offsets(objects));
    FileAfterBody(objects);
    KeywordAfter(PdfFile(objects), Body(objects), XrefTable(Offsets(objects)), Trailer(|objects|, |Body(objects)|));
  }

  lemma KeywordAfter(file: string, body: string, xref: string, trailer: string)
    requires file == body + (xref + trailer) && |xref| >= 5 && xref[..5] == "xref\n"
    ensures |body| + 5 <= |file| && file[|body|..|body| + 5] == "xref\n"
  {
    assert (xref + trailer)[..5] == xref[..5];
    SliceAfter(body, xref + trailer, 5);
  }

  lemma XrefKeyword(offsets: seq<nat>)
    ensures |XrefTable(offsets)| >= 5 && XrefTable(offsets)[..5] == "xref\n"
  {
    var rest := XrefSubsection(|offsets| + 1);
    AppendAssoc("xref\n", rest, XrefEntries(offsets));
    SliceAfter([], "xref\n", 5);
    SliceOfLeft("xref\n", rest + XrefEntries(offsets), 0, 5);
  }

  lemma {:induction false} NatToStringWidth(n: nat, k: nat)
    requires 1 <= k && n < Pow10(k)
    ensures |NatToString(n)| <= k
  {
    if n >= 10 {
      assert k >= 2;
      NatToStringWidth(n / 10, k - 1);
    }
  }

  lemma {:induction false} ZerosValue(z: string)
    requires forall i :: 0 <= i < |z| ==> z[i] == '0'
    ensures forall i :: 0 <= i < |z| ==> IsDigit(z[i])
    ensures DigitsValue(z) == 0
  {
    if z != [] {
      ZerosValue(z[..|z| - 1]);
    }
  }

  /** Leading zeros do not change the value of a digit string. */
  lemma {:induction false} LeadingZeros(z: string, d: string)
    requires forall i :: 0 <= i < |z| ==> z[i] == '0'
    requires forall i :: 0 <= i < |d| ==> IsDigit(d[i])
    ensures forall i :: 0 <= i < |z + d| ==> IsDigit((z + d)[i])
    ensures DigitsValue(z + d) == DigitsValue(d)
  {
    ZerosValue(z);
    if d == [] {
      assert z + d == z;
    } else {
      var init := d[..|d| - 1];
      LeadingZeros(z, init);
      assert (z + d)[..|z + d| - 1] == z + init;
    }
  }

  /** `{offset:010d}` is ten digits whose value is the offset, for an
      offset below ten thousand million. */
  lemma ZeroPadValue(n: nat)
    requires n < Pow10(10)
    ensures |ZeroPad(n, 10)| == 10
    ensures forall i :: 0 <= i < 10 ==> IsDigit(ZeroPad(n, 10)[i])
    ensures DigitsValue(ZeroPad(n, 10)) == n
  {
    var digits := NatToString(n);
    NatToStringWidth(n, 10);
    DigitsOfNat(n);
    var zeros := seq(10 - |digits|, _ => '0');
    assert ZeroPad(n, 10) == zeros + digits;
    LeadingZeros(zeros, digits);
  }

  lemma SliceOfLeft(a: string, b: string, lo: nat, hi: nat)
    requires lo <= hi <= |a|
    ensures (a + b)[lo..hi] == a[lo..hi]
  {
  }

  lemma SliceOfRight(a: string, b: string)
    ensures (a + b)[|a|..|a| + |b|] == b
  {
  }

  lemma {:induction false} XrefEntriesShape(offsets: seq<nat>)
    requires forall i :: 0 <= i < |offsets| ==> offsets[i] < Pow10(10)
    ensures |XrefEntries(offsets)| == 20 * |offsets|
    ensures forall i :: 0 <= i < |offsets| ==> XrefEntries(offsets)[20 * i..20 * i + 20] == XrefEntry(offsets[i])
  {
    if offsets != [] {
      var init := offsets[..|offsets| - 1];
      var last := offsets[|offsets| - 1];
      XrefEntriesShape(init);
      ZeroPadValue(last);
      var e := XrefEntries(init);
      var all := e + XrefEntry(last);
      assert XrefEntries(offsets) == all;
      assert offsets == init + [last];
      forall i | 0 <= i < |offsets| ensures all[20 * i..20 * i + 20] == XrefEntry(offsets[i]) {
        BlockAt(e, XrefEntry(last), |init|, i);
        if i < |init| {
          assert init[i] == offsets[i];
        }
      }
    }
  }

  /** The blocks of 20 characters of `e` followed by one more block `x`. */
  lemma BlockAt(e: string, x: string, n: nat, i: nat)
    requires |e| == 20 * n && |x| == 20 && i <= n
    ensures (e + x)[20 * i..20 * i + 20] == if i < n then e[20 * i..20 * i + 20] else x
  {
    if i < n {
      SliceOfLeft(e, x, 20 * i, 20 * i + 20);
    } else {
      SliceOfRight(e, x);
    }
  }

  /** Reading the cross-reference table as fixed 20-byte entries after the
      free entry gives back, for each object, the offset where it starts. */
  lemma XrefLocatesObjects(objects: seq<string>, i: nat)
    requires i < |objects|
    requires |Body(objects)| < Pow10(10)
    ensures |XrefEntries(Offsets(objects))| == 20 * |objects|
    ensures AllDigits(XrefEntries(Offsets(objects))[20 * i..20 * i + 10])
    ensures DigitsValue(XrefEntries(Offsets(objects))[20 * i..20 * i + 10]) == Offsets(objects)[i]
    ensures XrefEntries(Offsets(objects))[20 * i + 10..20 * i + 20] == " 00000 n \n"
  {
    var offsets := Offsets(objects);
    forall k | 0 <= k < |offsets| ensures offsets[k] < Pow10(10) {
      BodyPrefix(objects, k);
    }
    XrefEntriesShape(offsets);
    ZeroPadValue(offsets[i]);
    var all := XrefEntries(offsets);
    var entry := all[20 * i..20 * i + 20];
    assert entry == ZeroPad(offsets[i], 10) + " 00000 n \n";
    assert all[20 * i..20 * i + 10] == entry[..10] == ZeroPad(offsets[i], 10);
    assert all[20 * i + 10..20 * i + 20] == entry[10..];
  }

  // ---------------------------------------------------------------------
  // The two PDF reports
  // ---------------------------------------------------------------------

  const TrimesterPdfHeaders: seq<string> := ["Group", "Trimester", "Total Hours", "Topics"]
  const TopicPdfHeaders: seq<string> := ["Topic", "Total Hours", "Groups"]

  /** A breakdown entry as the PDF shows it: name and hours. */
  function StatHoursText(s: Stat): string
  {
    s.name + " (" + HoursText(s.hours) + "h)"
  }

  function GroupHoursText(g: GroupRow): string
  {
    g.group + " (" + HoursText(g.hours) + "h)"
  }

  /** The cells of one trimester PDF row; activities are not shown. */
  function TrimesterPdfRow(row: TrimesterRow): seq<string>
  {
    [row.group, row.trimester, HoursText(row.totalHours) + "h",
     Join(", ", seq(|row.topics|, i requires 0 <= i < |row.topics| => StatHoursText(row.topics[i])))]
  }

  /** The cells of one topic PDF row; activities are not shown. */
  function TopicPdfRow(row: TopicRow): seq<string>
  {
    [row.topic, HoursText(row.totalHours) + "h",
     Join(", ", seq(|row.groups|, i requires 0 <= i < |row.groups| => GroupHoursText(row.groups[i])))]
  }

  function TrimesterPdfRows(summaries: seq<TrimesterRow>): (r: seq<seq<string>>)
    ensures |r| == |summaries| && forall i :: 0 <= i < |summaries| ==> r[i] == TrimesterPdfRow(summaries[i])
  {
    seq(|summaries|, i requires 0 <= i < |summaries| => TrimesterPdfRow(summaries[i]))
  }

  function TopicPdfRows(summaries: seq<TopicRow>): (r: seq<seq<string>>)
    ensures |r| == |summaries| && forall i :: 0 <= i < |summaries| ==> r[i] == TopicPdfRow(summaries[i])
  {
    seq(|summaries|, i requires 0 <= i < |summaries| => TopicPdfRow(summaries[i]))
  }

  /** `build_trimester_pdf`: the given rows, or the summary of the built-in
      dataset, one PDF line each under the trimester headers. */
  method BuildTrimesterPdf(rows: Option<seq<TrimesterRow>>, timestamp: string) returns (pdf: string)
    ensures rows.Some? ==> pdf == PdfReport("Trimester Report", TrimesterPdfHeaders, TrimesterPdfRows(rows.value), timestamp)
    ensures rows.None? ==> exists summaries ::
      TrimesterReport(summaries, DefaultDataset) && pdf == PdfReport("Trimester Report", TrimesterPdfHeaders, TrimesterPdfRows(summaries), timestamp)
  {
    var summaries: seq<TrimesterRow>;
    if rows.Some? {
      summaries := rows.value;
    } else {
      summaries := TrimesterSummary(None);
    }
    pdf := BuildPdfDocument("Trimester Report", TrimesterPdfHeaders, TrimesterPdfRows(summaries), timestamp);
  }

  /** `build_topic_pdf`: the given rows, or the summary of the built-in
      dataset, one PDF line each under the topic headers. */
  method BuildTopicPdf(rows: Option<seq<TopicRow>>, timestamp: string) returns (pdf: string)
    ensures rows.Some? ==> pdf == PdfReport("Topic Report", TopicPdfHeaders, TopicPdfRows(rows.value), timestamp)
    ensures rows.None? ==> exists summaries ::
      TopicReport(summaries, DefaultDataset) && pdf == PdfReport("Topic Report", TopicPdfHeaders, TopicPdfRows(summaries), timestamp)
  {
    var summaries: seq<TopicRow>;
    if rows.Some? {
      summaries := rows.value;
    } else {
      summaries := TopicSummary(None);
    }
    pdf := BuildPdfDocument("Topic Report", TopicPdfHeaders, TopicPdfRows(summaries), timestamp);
  }
}
