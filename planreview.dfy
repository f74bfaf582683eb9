/** The plan-review service (backend/services/plan_review.py): a draft
    yearly plan kept as a JSON document per draft id, with an audit
    history. Drafts are patched through a whitelist, approved, or sent
    back for re-parsing; every accepted action appends one history entry
    and rewrites the draft's file. The directory of JSON files is a map
    from file name to saved record; timestamps are parameters. */
module PlanReview {
  import opened Common

  /** A JSON value; numbers are integers here. */
  datatype Json =
    | Null
    | Bool(b: bool)
    | Num(n: int)
    | Str(s: string)
    | Arr(items: seq<Json>)
    | Obj(fields: Dict<string, Json>)

  /** The number a value stands for in Python's `==`: `True == 1` and
      `False == 0`. */
  function NumberOf(j: Json): (r: Option<int>)
    ensures r.Some? <==> j.Bool? || j.Num?
  {
    match j
    case Bool(x) => Some(if x then 1 else 0)
    case Num(n) => Some(n)
    case _ => None
  }

  /** Whether `i` is the first place of its key in `d`, the one `Get` reads. */
  predicate FirstAt<V>(d: Dict<string, V>, i: int)
    requires 0 <= i < |d|
  {
    forall m :: 0 <= m < i ==> d[m].0 != d[i].0
  }

  /** Python's `==` on JSON values: lists element by element, dicts as maps
      from key to value whatever the order of their keys, and booleans
      equal to the numbers 1 and 0. */
  predicate JsonEq(a: Json, b: Json)
    decreases a
  {
    match a
    case Null => b.Null?
    case Bool(_) => NumberOf(b) == NumberOf(a)
    case Num(_) => NumberOf(b) == NumberOf(a)
    case Str(s) => b.Str? && b.s == s
    case Arr(xs) =>
      b.Arr? && |b.items| == |xs| && forall i :: 0 <= i < |xs| ==> JsonEq(xs[i], b.items[i])
    case Obj(f) =>
      && b.Obj?
      && (forall i :: 0 <= i < |f| ==> f[i].0 in Keys(b.fields))
      && (forall j :: 0 <= j < |b.fields| ==> b.fields[j].0 in Keys(f))
      && forall i, j :: 0 <= i < |f| && 0 <= j < |b.fields| && f[i].0 == b.fields[j].0 && FirstAt(f, i) && FirstAt(b.fields, j) ==>
           JsonEq(f[i].1, b.fields[j].1)
  }

  /** Every value equals itself. */
  lemma {:induction false} JsonEqRefl(a: Json)
    ensures JsonEq(a, a)
    decreases a
  {
    match a
    case Arr(xs) =>
      forall i | 0 <= i < |xs| ensures JsonEq(xs[i], xs[i]) {
        JsonEqRefl(xs[i]);
      }
    case Obj(f) =>
      forall i, j | 0 <= i < |f| && 0 <= j < |f| && f[i].0 == f[j].0 && FirstAt(f, i) && FirstAt(f, j)
        ensures JsonEq(f[i].1, f[j].1)
      {
        assert i == j;
        JsonEqRefl(f[i].1);
      }
    case _ =>
  }

  /** Equality does not depend on the side. */
  lemma {:induction false} JsonEqSymmetric(a: Json, b: Json)
    requires JsonEq(a, b)
    ensures JsonEq(b, a)
    decreases a
  {
    match a
    case Arr(xs) =>
      forall i | 0 <= i < |xs| ensures JsonEq(b.items[i], xs[i]) {
        JsonEqSymmetric(xs[i], b.items[i]);
      }
    case Obj(f) =>
      var g := b.fields;
      forall j, i | 0 <= j < |g| && 0 <= i < |f| && g[j].0 == f[i].0 && FirstAt(g, j) && FirstAt(f, i)
        ensures JsonEq(g[j].1, f[i].1)
      {
        JsonEqSymmetric(f[i].1, g[j].1);
      }
    case _ =>
  }

  /** Two objects that list the same fields in another order are equal. */
  lemma ReorderedObjectsEqual()
    ensures JsonEq(Obj([("id", Str("t1")), ("name", Str("T"))]), Obj([("name", Str("T")), ("id", Str("t1"))]))
    ensures Obj([("id", Str("t1")), ("name", Str("T"))]) != Obj([("name", Str("T")), ("id", Str("t1"))])
  {
    var f := [("id", Str("t1")), ("name", Str("T"))];
    var g := [("name", Str("T")), ("id", Str("t1"))];
    assert Keys(f) == ["id", "name"] && Keys(g) == ["name", "id"];
    assert f[0] != g[0];
  }

  /** And a boolean equals the number it stands for. */
  lemma TrueEqualsOne()
    ensures JsonEq(Bool(true), Num(1)) && JsonEq(Num(0), Bool(false))
    ensures !JsonEq(Bool(true), Num(2)) && !JsonEq(Str("1"), Num(1))
  {
  }

  /** One audit entry: when, which action, and the request payload. */
  datatype HistoryEntry = HistoryEntry(timestamp: string, action: string, payload: Json)

  /** A draft and its audit history (`PlanRecord`). */
  datatype PlanRecord = PlanRecord(draft: Dict<string, Json>, history: seq<HistoryEntry>)

  // ---------------------------------------------------------------------
  // File names
  // ---------------------------------------------------------------------

  /** The draft id with every `/` replaced by `_`. */
  function SafeId(id: string): (r: string)
    ensures |r| == |id|
    ensures forall i :: 0 <= i < |id| ==> r[i] == if id[i] == '/' then '_' else id[i]
  {
    seq(|id|, i requires 0 <= i < |id| => if id[i] == '/' then '_' else id[i])
  }

  /** `_draft_path`: the name of the draft's file in the review directory. */
  function DraftFile(id: string): string
  {
    SafeId(id) + ".json"
  }

  /** The file name never holds a `/`, so it stays inside the review
      directory; it is the id, slashes turned to underscores, and `.json`. */
  lemma DraftFileShape(id: string)
    ensures '/' !in DraftFile(id)
    ensures |DraftFile(id)| == |id| + 5 && DraftFile(id)[|id|..] == ".json"
    ensures '/' !in id ==> DraftFile(id) == id + ".json"
  {
    var f := DraftFile(id);
    forall i | 0 <= i < |f| ensures f[i] != '/' {
      if i < |id| {
        assert f[i] == SafeId(id)[i];
      } else {
        assert f[i] == ".json"[i - |id|];
      }
    }
    if '/' !in id {
      assert SafeId(id) == id;
    }
  }

  /** Two ids share a file exactly when they agree everywhere except where
      one has `/` and the other `_`. */
  lemma DraftFileSame(a: string, b: string)
    ensures DraftFile(a) == DraftFile(b) <==>
      |a| == |b| && forall i :: 0 <= i < |a| ==> a[i] == b[i] || (a[i] in "/_" && b[i] in "/_")
  {
    if DraftFile(a) == DraftFile(b) {
      assert |a| == |b|;
      forall i | 0 <= i < |a| ensures a[i] == b[i] || (a[i] in "/_" && b[i] in "/_") {
        assert DraftFile(a)[i] == DraftFile(b)[i];
      }
    }
    if |a| == |b| && forall i :: 0 <= i < |a| ==> a[i] == b[i] || (a[i] in "/_" && b[i] in "/_") {
      assert SafeId(a) == SafeId(b);
    }
  }

  /** So the drafts `a/b` and `a_b` are one file. */
  lemma DraftFileCollision()
    ensures DraftFile("a/b") == DraftFile("a_b")
  {
    DraftFileSame("a/b", "a_b");
  }

  // ---------------------------------------------------------------------
  // The seed draft
  // ---------------------------------------------------------------------

  function Entity(fields: Dict<string, string>): Json
  {
    Obj(seq(|fields|, i requires 0 <= i < |fields| => (fields[i].0, Str(fields[i].1))))
  }

  /** `_DEFAULT_TEMPLATE`. */
  const DefaultTemplate: Dict<string, Json> := [
    ("title", Str("Auto-parsed yearly plan")),
    ("summary", Str("This draft was parsed automatically. Review trimester dates, learning levels, and topic coverage before approving.")),
    ("status", Str("pending_review")),
    ("review_notes", Str("")),
    ("trimesters", Arr([
      Entity([("id", "trimester-1"), ("name", "Trimester 1"), ("start_date", "2024-01-08"), ("end_date", "2024-03-22")]),
      Entity([("id", "trimester-2"), ("name", "Trimester 2"), ("start_date", "2024-04-08"), ("end_date", "2024-06-28")]),
      Entity([("id", "trimester-3"), ("name", "Trimester 3"), ("start_date", "2024-07-15"), ("end_date", "2024-09-27")])])),
    ("levels", Arr([
      Entity([("id", "level-7"), ("name", "Level 7"), ("description", "Students consolidate foundational skills and explore applied projects.")]),
      Entity([("id", "level-8"), ("name", "Level 8"), ("description", "Learners expand analytical thinking with interdisciplinary tasks.")])])),
    ("topics", Arr([
      Entity([("id", "topic-1"), ("name", "Scientific Inquiry"), ("trimester_id", "trimester-1"), ("level_id", "level-7"), ("summary", "Introduce the scientific method with lab investigations.")]),
      Entity([("id", "topic-2"), ("name", "Ecosystems Project"), ("trimester_id", "trimester-2"), ("level_id", "level-7"), ("summary", "Field study of local ecosystems and sustainability challenges.")]),
      Entity([("id", "topic-3"), ("name", "Technology & Society"), ("trimester_id", "trimester-3"), ("level_id", "level-8"), ("summary", "Evaluate the social impact of emerging technologies.")])]))
  ]

  /** `_seed_record`: the template stamped with the id and the creation
      time, and a history of one `seed` entry. */
  function Seed(id: string, now: string): PlanRecord
  {
    var draft := DefaultTemplate + Stamps(id, now);
    PlanRecord(draft, [HistoryEntry(now, "seed", Obj([("message", Str("Draft created from default template"))]))])
  }

  /** The template's keys, in order. */
  const TemplateKeyList: seq<string> := ["title", "summary", "status", "review_notes", "trimesters", "levels", "topics"]

  lemma TemplateKeys()
    ensures Keys(DefaultTemplate) == TemplateKeyList
    ensures DefaultTemplate[2].1 == Str("pending_review") && DefaultTemplate[3].1 == Str("")
  {
  }

  /** The three stamps `_seed_record` adds to a template. */
  function Stamps(id: string, now: string): Dict<string, Json>
  {
    [("id", Str(id)), ("created_at", Str(now)), ("updated_at", Str(now))]
  }

  /** A template with the keys of `_DEFAULT_TEMPLATE` has none of the
      stamped keys, so `draft.update` appends them in order. */
  lemma StampIsUpdate(t: Dict<string, Json>, id: string, now: string)
    requires Keys(t) == TemplateKeyList
    ensures t + Stamps(id, now) == Put(Put(Put(t, "id", Str(id)), "created_at", Str(now)), "updated_at", Str(now))
  {
    assert "id" !in TemplateKeyList && "created_at" !in TemplateKeyList && "updated_at" !in TemplateKeyList;
    var d1 := Put(t, "id", Str(id));
    PutOtherFresh(t, "id", Str(id), "created_at");
    PutOtherFresh(t, "id", Str(id), "updated_at");
    var d2 := Put(d1, "created_at", Str(now));
    PutOtherFresh(d1, "created_at", Str(now), "updated_at");
    var d3 := Put(d2, "updated_at", Str(now));
    assert d3 == t + Stamps(id, now);
  }

  /** The template has none of the three stamped keys, so `draft.update`
      appends them in order. */
  lemma SeedIsUpdate(id: string, now: string)
    ensures Seed(id, now).draft == Put(Put(Put(DefaultTemplate, "id", Str(id)), "created_at", Str(now)), "updated_at", Str(now))
  {
    TemplateKeys();
    StampIsUpdate(DefaultTemplate, id, now);
  }

  /** The stamped template carries the id and the times and keeps the
      template's status and notes. */
  lemma StampFacts(t: Dict<string, Json>, id: string, now: string)
    requires Keys(t) == TemplateKeyList
    requires t[2].1 == Str("pending_review") && t[3].1 == Str("")
    ensures var d := t + Stamps(id, now);
      && DistinctKeys(d)
      && Get(d, "id") == Some(Str(id))
      && Get(d, "created_at") == Some(Str(now))
      && Get(d, "updated_at") == Some(Str(now))
      && Get(d, "status") == Some(Str("pending_review"))
      && Get(d, "review_notes") == Some(Str(""))
  {
    var d := t + Stamps(id, now);
    assert Keys(d) == TemplateKeyList + ["id", "created_at", "updated_at"];
    GetAt(d, 2);
    GetAt(d, 3);
    GetAt(d, 7);
    GetAt(d, 8);
    GetAt(d, 9);
  }

  /** A seeded draft carries its own id, was created and updated at `now`,
      awaits review with no notes, and has exactly one history entry, a
      `seed`. */
  lemma SeedFacts(id: string, now: string)
    ensures DistinctKeys(Seed(id, now).draft)
    ensures Get(Seed(id, now).draft, "id") == Some(Str(id))
    ensures Get(Seed(id, now).draft, "created_at") == Some(Str(now))
    ensures Get(Seed(id, now).draft, "updated_at") == Some(Str(now))
    ensures Get(Seed(id, now).draft, "status") == Some(Str("pending_review"))
    ensures Get(Seed(id, now).draft, "review_notes") == Some(Str(""))
    ensures |Seed(id, now).history| == 1 && Seed(id, now).history[0].action == "seed"
  {
    TemplateKeys();
    StampFacts(DefaultTemplate, id, now);
  }

  // ---------------------------------------------------------------------
  // Responses
  // ---------------------------------------------------------------------

  function EntryJson(e: HistoryEntry): Json
  {
    Obj([("timestamp", Str(e.timestamp)), ("action", Str(e.action)), ("payload", e.payload)])
  }

  function HistoryJson(history: seq<HistoryEntry>): Json
  {
    Arr(seq(|history|, i requires 0 <= i < |history| => EntryJson(history[i])))
  }

  /** `PlanRecord.to_response`: the draft with the history under `history`. */
  function ToResponse(record: PlanRecord): Dict<string, Json>
  {
    Put(record.draft, "history", HistoryJson(record.history))
  }

  /** The response holds the whole history under `history` and, under every
      other key, what the draft holds. */
  lemma ToResponseFields(record: PlanRecord, k: string)
    requires DistinctKeys(record.draft)
    ensures DistinctKeys(ToResponse(record))
    ensures Get(ToResponse(record), k) == if k == "history" then Some(HistoryJson(record.history)) else Get(record.draft, k)
  {
    PutGet(record.draft, "history", HistoryJson(record.history), k);
  }

  // ---------------------------------------------------------------------
  // Partial updates
  // ---------------------------------------------------------------------

  /** The draft keys a patch may write. */
  const MutableFields: set<string> := {"title", "summary", "review_notes", "status", "trimesters", "levels", "topics"}

  /** Whether one change is written: a whitelisted key, a value that is not
      null, and different from what the draft holds (a missing key holds
      nothing). */
  predicate Writes(draft: Dict<string, Json>, change: (string, Json))
  {
    change.0 in MutableFields && Differs(Get(draft, change.0), change.1) && change.1 != Null
  }

  /** `draft.get(key) != value`: a missing key holds `None`. */
  predicate Differs(held: Option<Json>, value: Json)
  {
    match held
    case None => !value.Null?
    case Some(v) => !JsonEq(v, value)
  }

  function ApplyOne(draft: Dict<string, Json>, change: (string, Json)): Dict<string, Json>
  {
    if Writes(draft, change) then Put(draft, change.0, change.1) else draft
  }

  /** The draft after the changes, taken in order. */
  function ApplyAll(draft: Dict<string, Json>, changes: Dict<string, Json>): Dict<string, Json>
  {
    if changes == [] then draft
    else ApplyOne(ApplyAll(draft, changes[..|changes| - 1]), changes[|changes| - 1])
  }

  /** Whether any of the changes was written. */
  predicate AnyWrite(draft: Dict<string, Json>, changes: Dict<string, Json>)
  {
    changes != [] &&
    (AnyWrite(draft, changes[..|changes| - 1]) || Writes(ApplyAll(draft, changes[..|changes| - 1]), changes[|changes| - 1]))
  }

  /** `_apply_changes` as a value: the new draft, stamped when something
      was written, and whether something was. */
  function Applied(draft: Dict<string, Json>, changes: Dict<string, Json>, now: string): (Dict<string, Json>, bool)
  {
    var result := ApplyAll(draft, changes);
    if AnyWrite(draft, changes) then (Put(result, "updated_at", Str(now)), true) else (result, false)
  }

  /** `_apply_changes`: the loop over the changes, then the stamp. */
  method ApplyChanges(draft: Dict<string, Json>, changes: Dict<string, Json>, now: string) returns (result: Dict<string, Json>, changed: bool)
    ensures (result, changed) == Applied(draft, changes, now)
  {
    result := draft;
    changed := false;
    for i := 0 to |changes|
      invariant result == ApplyAll(draft, changes[..i])
      invariant changed == AnyWrite(draft, changes[..i])
    {
      assert changes[..i + 1][..i] == changes[..i];
      var (key, value) := changes[i];
      if key in MutableFields && Differs(Get(result, key), value) && value != Null {
        result := Put(result, key, value);
        changed := true;
      }
    }
    assert changes[..|changes|] == changes;
    if changed {
      result := Put(result, "updated_at", Str(now));
    }
  }

  lemma {:induction false} ApplyAllDistinct(draft: Dict<string, Json>, changes: Dict<string, Json>)
    requires DistinctKeys(draft)
    ensures DistinctKeys(ApplyAll(draft, changes))
  {
    if changes != [] {
      ApplyAllDistinct(draft, changes[..|changes| - 1]);
    }
  }

  /** Looking a key up in a dict with one more item. */
  lemma {:induction false} GetSnoc<V>(d: Dict<string, V>, item: (string, V), k: string)
    ensures Get(d + [item], k) == if k in Keys(d) then Get(d, k) else if k == item.0 then Some(item.1) else None
  {
    if d != [] {
      assert (d + [item])[1..] == d[1..] + [item];
      assert Keys(d) == [d[0].0] + Keys(d[1..]);
      GetSnoc(d[1..], item, k);
    }
  }

  /** In a dict, the last key does not occur before it. */
  lemma LastKeyFresh<V>(d: Dict<string, V>)
    requires DistinctKeys(d) && d != []
    ensures d[|d| - 1].0 !in Keys(d[..|d| - 1])
  {
    var init := d[..|d| - 1];
    forall j | 0 <= j < |init| ensures Keys(init)[j] != d[|d| - 1].0 {
      assert d[j].0 != d[|d| - 1].0;
    }
  }

  /** The change a dict of changes makes to `k`, if it makes one. */
  predicate Sets(changes: Dict<string, Json>, k: string)
  {
    k in MutableFields && Get(changes, k).Some? && Get(changes, k).value != Null
  }

  /** Whether the change the dict of changes makes to `k` is written. */
  predicate WritesKey(draft: Dict<string, Json>, changes: Dict<string, Json>, k: string)
  {
    match Get(changes, k)
    case Some(v) => Writes(draft, (k, v))
    case None => false
  }

  /** After the changes, a key whose change is written (whitelisted, not
      null, and not equal to what the draft holds) holds the changed value;
      every other key holds what it held. */
  lemma {:induction false} ApplyAllGet(draft: Dict<string, Json>, changes: Dict<string, Json>, k: string)
    requires DistinctKeys(draft) && DistinctKeys(changes)
    ensures Get(ApplyAll(draft, changes), k) == if WritesKey(draft, changes, k) then Get(changes, k) else Get(draft, k)
  {
    if changes != [] {
      var init := changes[..|changes| - 1];
      var last := changes[|changes| - 1];
      assert changes == init + [last];
      assert DistinctKeys(init);
      LastKeyFresh(changes);
      var a := ApplyAll(draft, init);
      ApplyAllDistinct(draft, init);
      ApplyAllGet(draft, init, k);
      GetSnoc(init, last, k);
      if Writes(a, last) {
        PutGet(a, last.0, last.1, k);
      }
      if k == last.0 {
        assert Get(changes, k) == Some(last.1);
        assert Get(a, k) == Get(draft, k);
      } else {
        assert Get(changes, k) == Get(init, k);
        assert Get(ApplyAll(draft, changes), k) == Get(a, k);
      }
    }
  }

  /** Changes of which none is written leave the draft as it was. */
  lemma {:induction false} NoWriteNoChange(draft: Dict<string, Json>, changes: Dict<string, Json>)
    requires !AnyWrite(draft, changes)
    ensures ApplyAll(draft, changes) == draft
  {
    if changes != [] {
      NoWriteNoChange(draft, changes[..|changes| - 1]);
    }
  }

  /** With distinct keys, something is written exactly when some change is
      whitelisted, not null and differs from the draft's value. */
  lemma {:induction false} AnyWriteIff(draft: Dict<string, Json>, changes: Dict<string, Json>)
    requires DistinctKeys(draft) && DistinctKeys(changes)
    ensures AnyWrite(draft, changes) <==> exists i :: 0 <= i < |changes| && Writes(draft, changes[i])
  {
    if changes != [] {
      var init := changes[..|changes| - 1];
      var last := changes[|changes| - 1];
      assert DistinctKeys(init);
      LastKeyFresh(changes);
      AnyWriteIff(draft, init);
      ApplyAllGet(draft, init, last.0);
      assert Get(init, last.0).None?;
      assert Writes(ApplyAll(draft, init), last) == Writes(draft, last);
      WritesSnoc(draft, changes);
    }
  }

  /** Some change is written on its own exactly when one of the earlier
      ones is or the last one is. */
  lemma WritesSnoc(draft: Dict<string, Json>, changes: Dict<string, Json>)
    requires changes != []
    ensures var init := changes[..|changes| - 1];
      (exists i :: 0 <= i < |changes| && Writes(draft, changes[i])) <==>
        (exists i :: 0 <= i < |init| && Writes(draft, init[i])) || Writes(draft, changes[|changes| - 1])
  {
    var init := changes[..|changes| - 1];
    if exists i :: 0 <= i < |changes| && Writes(draft, changes[i]) {
      var i :| 0 <= i < |changes| && Writes(draft, changes[i]);
      if i < |init| {
        assert Writes(draft, init[i]);
      }
    }
    if exists i :: 0 <= i < |init| && Writes(draft, init[i]) {
      var i :| 0 <= i < |init| && Writes(draft, init[i]);
      assert changes[i] == init[i];
    }
  }

  /** `_apply_changes` reports a change exactly when the draft's contents
      differ afterwards; only whitelisted keys and `updated_at` can differ;
      a key takes its changed value when that is written, and after the
      call every whitelisted key with a non-null change holds a value equal
      to it; `updated_at` is stamped only when something changed. */
  lemma AppliedFacts(draft: Dict<string, Json>, changes: Dict<string, Json>, now: string, k: string)
    requires DistinctKeys(draft) && DistinctKeys(changes)
    ensures Applied(draft, changes, now).1 <==> ApplyAll(draft, changes) != draft
    ensures Applied(draft, changes, now).1 <==> exists i :: 0 <= i < |changes| && Writes(draft, changes[i])
    ensures !Applied(draft, changes, now).1 ==> Applied(draft, changes, now).0 == draft
    ensures k != "updated_at" ==>
      Get(Applied(draft, changes, now).0, k) == if WritesKey(draft, changes, k) then Get(changes, k) else Get(draft, k)
    ensures k != "updated_at" && Sets(changes, k) ==>
      Get(Applied(draft, changes, now).0, k).Some? && JsonEq(Get(Applied(draft, changes, now).0, k).value, Get(changes, k).value)
    ensures Get(Applied(draft, changes, now).0, "updated_at") ==
      if Applied(draft, changes, now).1 then Some(Str(now)) else Get(draft, "updated_at")
    ensures DistinctKeys(Applied(draft, changes, now).0)
  {
    var result := ApplyAll(draft, changes);
    ApplyAllDistinct(draft, changes);
    AnyWriteIff(draft, changes);
    ApplyAllGet(draft, changes, k);
    if AnyWrite(draft, changes) {
      var i :| 0 <= i < |changes| && Writes(draft, changes[i]);
      GetAt(changes, i);
      ApplyAllGet(draft, changes, changes[i].0);
      JsonEqRefl(changes[i].1);
      assert Get(result, changes[i].0) != Get(draft, changes[i].0);
      PutGet(result, "updated_at", Str(now), k);
      PutGet(result, "updated_at", Str(now), "updated_at");
    } else {
      NoWriteNoChange(draft, changes);
    }
    if k != "updated_at" && Sets(changes, k) && WritesKey(draft, changes, k) {
      JsonEqRefl(Get(changes, k).value);
    }
  }

  /** So a patch that sends a draft's object back with its keys in another
      order writes nothing: the record, its history and its file stay as
      they were. */
  lemma ReorderedPatchUnchanged(record: PlanRecord, now: string)
    requires Get(record.draft, "trimesters") == Some(Arr([Obj([("id", Str("t1")), ("name", Str("T"))])]))
    ensures Patched(record, [("trimesters", Arr([Obj([("name", Str("T")), ("id", Str("t1"))])]))], now) == record
  {
    var change := ("trimesters", Arr([Obj([("name", Str("T")), ("id", Str("t1"))])]));
    ReorderedObjectsEqual();
    var held := Arr([Obj([("id", Str("t1")), ("name", Str("T"))])]);
    assert JsonEq(held.items[0], change.1.items[0]);
    assert JsonEq(held, change.1);
    assert !Writes(record.draft, change);
    assert [change][..0] == [];
    assert !AnyWrite(record.draft, [change]);
  }

  // ---------------------------------------------------------------------
  // The three actions, as values
  // ---------------------------------------------------------------------

  /** `_load_raw`: the saved record, or a freshly seeded one. */
  function Loaded(files: map<string, PlanRecord>, id: string, now: string): PlanRecord
  {
    if DraftFile(id) in files then files[DraftFile(id)] else Seed(id, now)
  }

  /** `patch_draft` on a loaded record: no changes leave it as it is;
      otherwise the changes are applied, and one `patch` entry holding them
      is appended when something was written. */
  function Patched(record: PlanRecord, changes: Dict<string, Json>, now: string): PlanRecord
  {
    if changes == [] then record
    else
      var (draft, applied) := Applied(record.draft, changes, now);
      if applied then PlanRecord(draft, record.history + [HistoryEntry(now, "patch", Obj(changes))])
      else record
  }

  /** The review notes a payload gives, if it gives some that are not null. */
  predicate NotesGiven(payload: Dict<string, Json>)
  {
    Get(payload, "review_notes").Some? && Get(payload, "review_notes").value != Null
  }

  /** The notes rule shared by approval and re-parse requests: the notes
      are replaced only when the payload gives some that are not null. */
  function WithNotes(draft: Dict<string, Json>, payload: Dict<string, Json>): Dict<string, Json>
  {
    if NotesGiven(payload) then Put(draft, "review_notes", Get(payload, "review_notes").value) else draft
  }

  lemma WithNotesGet(draft: Dict<string, Json>, payload: Dict<string, Json>, key: string)
    requires DistinctKeys(draft)
    ensures DistinctKeys(WithNotes(draft, payload))
    ensures Get(WithNotes(draft, payload), key) ==
      if key == "review_notes" && NotesGiven(payload) then Get(payload, "review_notes") else Get(draft, key)
  {
    if NotesGiven(payload) {
      PutGet(draft, "review_notes", Get(payload, "review_notes").value, key);
    }
  }

  /** Two updates in a row. */
  lemma PutPutGet(d: Dict<string, Json>, k1: string, v1: Json, k2: string, v2: Json, key: string)
    requires DistinctKeys(d)
    ensures DistinctKeys(Put(Put(d, k1, v1), k2, v2))
    ensures Get(Put(Put(d, k1, v1), k2, v2), key) == if key == k2 then Some(v2) else if key == k1 then Some(v1) else Get(d, key)
  {
    PutGet(d, k1, v1, key);
    PutGet(Put(d, k1, v1), k2, v2, key);
  }

  /** `payload or {}`. */
  function PayloadOf(payload: Option<Dict<string, Json>>): Dict<string, Json>
  {
    if payload.Some? then payload.value else []
  }

  /** `approve_draft` on a loaded record. */
  function Approved(record: PlanRecord, payload: Option<Dict<string, Json>>, now: string): PlanRecord
  {
    var p := PayloadOf(payload);
    var draft := Put(Put(Put(record.draft, "status", Str("approved")), "approved_at", Str(now)), "updated_at", Str(now));
    PlanRecord(WithNotes(draft, p), record.history + [HistoryEntry(now, "approve", Obj(p))])
  }

  /** `request_reparse` on a loaded record. */
  function Reparsed(record: PlanRecord, payload: Option<Dict<string, Json>>, now: string): PlanRecord
  {
    var p := PayloadOf(payload);
    var draft := Put(Put(record.draft, "status", Str("reparse_requested")), "updated_at", Str(now));
    PlanRecord(WithNotes(draft, p), record.history + [HistoryEntry(now, "reparse", Obj(p))])
  }

  /** A patch with no changes returns the record as it was. A patch that
      writes nothing leaves it as it was too. Otherwise exactly one `patch`
      entry is appended, stamped with the draft's new `updated_at`, and the
      draft is the applied one. */
  lemma PatchedFacts(record: PlanRecord, changes: Dict<string, Json>, now: string)
    requires DistinctKeys(record.draft) && DistinctKeys(changes)
    ensures changes == [] ==> Patched(record, changes, now) == record
    ensures var p := Patched(record, changes, now);
      (p != record <==> changes != [] && Applied(record.draft, changes, now).1)
    ensures var p := Patched(record, changes, now);
      p != record ==>
        && p.draft == Applied(record.draft, changes, now).0
        && p.history == record.history + [HistoryEntry(now, "patch", Obj(changes))]
        && Get(p.draft, "updated_at") == Some(Str(now))
  {
    if changes != [] {
      AppliedFacts(record.draft, changes, now, "updated_at");
    }
  }

  /** Approval: status `approved`, `approved_at` equal to `updated_at`
      equal to `now`, the notes replaced only when given and not null,
      every other key kept, and one `approve` entry appended. */
  lemma ApprovedFacts(record: PlanRecord, payload: Option<Dict<string, Json>>, now: string, k: string)
    requires DistinctKeys(record.draft)
    ensures var a := Approved(record, payload, now);
      && Get(a.draft, "status") == Some(Str("approved"))
      && Get(a.draft, "approved_at") == Some(Str(now))
      && Get(a.draft, "updated_at") == Some(Str(now))
      && Get(a.draft, "review_notes") == (if NotesGiven(PayloadOf(payload)) then Get(PayloadOf(payload), "review_notes") else Get(record.draft, "review_notes"))
      && (k !in {"status", "approved_at", "updated_at", "review_notes"} ==> Get(a.draft, k) == Get(record.draft, k))
      && a.history == record.history + [HistoryEntry(now, "approve", Obj(PayloadOf(payload)))]
      && DistinctKeys(a.draft)
  {
    var p := PayloadOf(payload);
    var d1 := Put(record.draft, "status", Str("approved"));
    var d3 := Put(Put(d1, "approved_at", Str(now)), "updated_at", Str(now));
    PutGet(record.draft, "status", Str("approved"), "status");
    PutGet(record.draft, "status", Str("approved"), "review_notes");
    PutGet(record.draft, "status", Str("approved"), k);
    PutPutGet(d1, "approved_at", Str(now), "updated_at", Str(now), "status");
    PutPutGet(d1, "approved_at", Str(now), "updated_at", Str(now), "approved_at");
    PutPutGet(d1, "approved_at", Str(now), "updated_at", Str(now), "updated_at");
    PutPutGet(d1, "approved_at", Str(now), "updated_at", Str(now), "review_notes");
    PutPutGet(d1, "approved_at", Str(now), "updated_at", Str(now), k);
    WithNotesGet(d3, p, "status");
    WithNotesGet(d3, p, "approved_at");
    WithNotesGet(d3, p, "updated_at");
    WithNotesGet(d3, p, "review_notes");
    WithNotesGet(d3, p, k);
  }

  /** A re-parse request: status `reparse_requested`, `updated_at` equal to
      `now`, the same notes rule, every other key kept, and one `reparse`
      entry appended. */
  lemma ReparsedFacts(record: PlanRecord, payload: Option<Dict<string, Json>>, now: string, k: string)
    requires DistinctKeys(record.draft)
    ensures var r := Reparsed(record, payload, now);
      && Get(r.draft, "status") == Some(Str("reparse_requested"))
      && Get(r.draft, "updated_at") == Some(Str(now))
      && Get(r.draft, "review_notes") == (if NotesGiven(PayloadOf(payload)) then Get(PayloadOf(payload), "review_notes") else Get(record.draft, "review_notes"))
      && (k !in {"status", "updated_at", "review_notes"} ==> Get(r.draft, k) == Get(record.draft, k))
      && r.history == record.history + [HistoryEntry(now, "reparse", Obj(PayloadOf(payload)))]
      && DistinctKeys(r.draft)
  {
    var p := PayloadOf(payload);
    var d2 := Put(Put(record.draft, "status", Str("reparse_requested")), "updated_at", Str(now));
    PutPutGet(record.draft, "status", Str("reparse_requested"), "updated_at", Str(now), "status");
    PutPutGet(record.draft, "status", Str("reparse_requested"), "updated_at", Str(now), "updated_at");
    PutPutGet(record.draft, "status", Str("reparse_requested"), "updated_at", Str(now), "review_notes");
    PutPutGet(record.draft, "status", Str("reparse_requested"), "updated_at", Str(now), k);
    WithNotesGet(d2, p, "status");
    WithNotesGet(d2, p, "updated_at");
    WithNotesGet(d2, p, "review_notes");
    WithNotesGet(d2, p, k);
  }

  // ---------------------------------------------------------------------
  // The store
  // ---------------------------------------------------------------------

  /** No saved file disappears and no saved history loses an entry: each
      old history is a prefix of the new one. */
  predicate HistoriesExtend(before: map<string, PlanRecord>, after: map<string, PlanRecord>)
  {
    forall name :: name in before ==> name in after && before[name].history <= after[name].history
  }

  /** Saving a record whose history extends the one it replaces extends
      every history. */
  lemma SaveExtends(files: map<string, PlanRecord>, name: string, record: PlanRecord)
    requires name in files ==> files[name].history <= record.history
    ensures HistoriesExtend(files, files[name := record])
  {
  }

  /** Every action rewrites at most the draft's own file, and only extends
      its history; an absent draft is saved seeded. */
  lemma ActionsExtend(files: map<string, PlanRecord>, id: string, changes: Dict<string, Json>, payload: Option<Dict<string, Json>>, seedTime: string, now: string)
    ensures var loaded := Loaded(files, id, seedTime);
      && HistoriesExtend(files, files[DraftFile(id) := loaded])
      && HistoriesExtend(files, files[DraftFile(id) := Patched(loaded, changes, now)])
      && HistoriesExtend(files, files[DraftFile(id) := Approved(loaded, payload, now)])
      && HistoriesExtend(files, files[DraftFile(id) := Reparsed(loaded, payload, now)])
  {
    var name := DraftFile(id);
    var loaded := Loaded(files, id, seedTime);
    assert name in files ==> files[name] == loaded;
    var base := loaded.history;
    SaveExtends(files, name, loaded);
    assert base <= Patched(loaded, changes, now).history;
    SaveExtends(files, name, Patched(loaded, changes, now));
    assert base <= Approved(loaded, payload, now).history;
    SaveExtends(files, name, Approved(loaded, payload, now));
    assert base <= Reparsed(loaded, payload, now).history;
    SaveExtends(files, name, Reparsed(loaded, payload, now));
  }

  /** Loading a draft that has no file seeds it under this id, with one
      `seed` entry; loading one that has a file returns that file. */
  lemma LoadedFacts(files: map<string, PlanRecord>, id: string, now: string)
    ensures DraftFile(id) in files ==> Loaded(files, id, now) == files[DraftFile(id)]
    ensures DraftFile(id) !in files ==>
      && Get(Loaded(files, id, now).draft, "id") == Some(Str(id))
      && |Loaded(files, id, now).history| == 1
      && Loaded(files, id, now).history[0].action == "seed"
  {
    SeedFacts(id, now);
  }

  /** Because ids share files, reading `a_b` after `a/b` was seeded returns
      the draft whose id is `a/b`. */
  lemma SharedFileReadsOtherDraft(now: string)
    ensures Get(Loaded(map[DraftFile("a/b") := Seed("a/b", now)], "a_b", now).draft, "id") == Some(Str("a/b"))
  {
    DraftFileCollision();
    SeedFacts("a/b", now);
  }

  /** Writing a file twice leaves the second record. */
  lemma SaveTwice(files: map<string, PlanRecord>, name: string, first: PlanRecord, second: PlanRecord)
    ensures files[name := first][name := second] == files[name := second]
  {
  }

  /** The review directory: one saved record per file name. */
  class ReviewStore {
    var files: map<string, PlanRecord>

    constructor (files: map<string, PlanRecord>)
      ensures this.files == files
    {
      this.files := files;
    }

    /** `_load_raw`: a missing draft is seeded and written first. */
    method Load(id: string, now: string) returns (record: PlanRecord)
      modifies this
      ensures record == Loaded(old(files), id, now)
      ensures files == old(files)[DraftFile(id) := record]
    {
      var name := DraftFile(id);
      if name !in files {
        record := Seed(id, now);
        files := files[name := record];
      } else {
        record := files[name];
      }
    }

    /** `get_draft`. */
    method GetDraft(id: string, now: string) returns (response: Dict<string, Json>)
      modifies this
      ensures response == ToResponse(Loaded(old(files), id, now))
      ensures files == old(files)[DraftFile(id) := Loaded(old(files), id, now)]
    {
      var record := Load(id, now);
      response := ToResponse(record);
    }

    /** `patch_draft`: the file is rewritten only when a change was applied.
        A missing draft is seeded at `seedTime`; `now` is the later clock
        read that stamps the patch. */
    method PatchDraft(id: string, changes: Dict<string, Json>, seedTime: string, now: string) returns (response: Dict<string, Json>)
      modifies this
      ensures response == ToResponse(Patched(Loaded(old(files), id, seedTime), changes, now))
      ensures files == old(files)[DraftFile(id) := Patched(Loaded(old(files), id, seedTime), changes, now)]
    {
      ghost var before := files;
      var loaded := Load(id, seedTime);
      var record, applied := PatchRecord(loaded, changes, now);
      if applied {
        SaveTwice(before, DraftFile(id), loaded, record);
        files := files[DraftFile(id) := record];
      }
      response := ToResponse(record);
    }

    /** `approve_draft`: seeded at `seedTime` when missing, approved at `now`. */
    method ApproveDraft(id: string, payload: Option<Dict<string, Json>>, seedTime: string, now: string) returns (response: Dict<string, Json>)
      modifies this
      ensures response == ToResponse(Approved(Loaded(old(files), id, seedTime), payload, now))
      ensures files == old(files)[DraftFile(id) := Approved(Loaded(old(files), id, seedTime), payload, now)]
    {
      ghost var before := files;
      var loaded := Load(id, seedTime);
      var record := Approve(loaded, payload, now);
      SaveTwice(before, DraftFile(id), loaded, record);
      files := files[DraftFile(id) := record];
      response := ToResponse(record);
    }

    /** `request_reparse`: seeded at `seedTime` when missing, flagged at `now`. */
    method RequestReparse(id: string, payload: Option<Dict<string, Json>>, seedTime: string, now: string) returns (response: Dict<string, Json>)
      modifies this
      ensures response == ToResponse(Reparsed(Loaded(old(files), id, seedTime), payload, now))
      ensures files == old(files)[DraftFile(id) := Reparsed(Loaded(old(files), id, seedTime), payload, now)]
    {
      ghost var before := files;
      var loaded := Load(id, seedTime);
      var record := RequestReparseOf(loaded, payload, now);
      SaveTwice(before, DraftFile(id), loaded, record);
      files := files[DraftFile(id) := record];
      response := ToResponse(record);
    }
  }

  /** The body of `patch_draft` between loading and writing; `applied`
      says whether the file is to be rewritten. */
  method PatchRecord(record: PlanRecord, changes: Dict<string, Json>, now: string) returns (patched: PlanRecord, applied: bool)
    ensures patched == Patched(record, changes, now)
    ensures applied <==> changes != [] && Applied(record.draft, changes, now).1
    ensures !applied ==> patched == record
  {
    if changes == [] {
      return record, false;
    }
    var draft;
    draft, applied := ApplyChanges(record.draft, changes, now);
    if applied {
      patched := PlanRecord(draft, record.history + [HistoryEntry(now, "patch", Obj(changes))]);
    } else {
      patched := record;
    }
  }

  /** The body of `approve_draft` between loading and writing. */
  method Approve(record: PlanRecord, payload: Option<Dict<string, Json>>, now: string) returns (approved: PlanRecord)
    ensures approved == Approved(record, payload, now)
  {
    var p := PayloadOf(payload);
    var draft := record.draft;
    draft := Put(draft, "status", Str("approved"));
    draft := Put(draft, "approved_at", Str(now));
    draft := Put(draft, "updated_at", Str(now));
    if NotesGiven(p) {
      draft := Put(draft, "review_notes", Get(p, "review_notes").value);
    }
    approved := PlanRecord(draft, record.history + [HistoryEntry(now, "approve", Obj(p))]);
  }

  /** The body of `request_reparse` between loading and writing. */
  method RequestReparseOf(record: PlanRecord, payload: Option<Dict<string, Json>>, now: string) returns (reparsed: PlanRecord)
    ensures reparsed == Reparsed(record, payload, now)
  {
    var p := PayloadOf(payload);
    var draft := record.draft;
    draft := Put(draft, "status", Str("reparse_requested"));
    draft := Put(draft, "updated_at", Str(now));
    if NotesGiven(p) {
      draft := Put(draft, "review_notes", Get(p, "review_notes").value);
    }
    reparsed := PlanRecord(draft, record.history + [HistoryEntry(now, "reparse", Obj(p))]);
  }
}
