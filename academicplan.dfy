/** The academic-plan service (backend/services/academic_plan.py): a plan
    owns units, a unit owns lessons, a lesson owns resources. Updating a
    plan from incoming data synchronises each level by key (a unit or
    lesson by its title, a resource by its name): an existing child with
    an incoming key is reused and overwritten, an unknown key gets a new
    child appended, and children whose key is not incoming are dropped.

    The ORM objects are values here. A child's identity is its database
    id (`None` for one created in this call) and its place in its
    parent's list. */
module AcademicPlan {
  import opened Common

  datatype Resource = Resource(id: Option<int>, name: string, resourceType: Option<string>, url: Option<string>, notes: Option<string>)
  datatype Lesson = Lesson(id: Option<int>, title: string, sequence: int, objective: Option<string>, resources: seq<Resource>)
  datatype Unit = Unit(id: Option<int>, title: string, position: int, summary: Option<string>, lessons: seq<Lesson>)
  datatype Plan = Plan(id: Option<int>, teacherId: int, title: string, description: Option<string>, gradeLevel: Option<string>, subject: Option<string>, units: seq<Unit>)

  datatype ResourceData = ResourceData(name: string, resourceType: Option<string>, url: Option<string>, notes: Option<string>)
  datatype LessonData = LessonData(title: string, sequence: int, objective: Option<string>, resources: seq<ResourceData>)
  datatype UnitData = UnitData(title: string, position: int, summary: Option<string>, lessons: seq<LessonData>)
  datatype PlanData = PlanData(title: string, description: Option<string>, gradeLevel: Option<string>, subject: Option<string>, units: seq<UnitData>)

  // ---------------------------------------------------------------------
  // Synchronising one level, for any kind of child
  // ---------------------------------------------------------------------

  /** How one level is synchronised: the key of a child and of an incoming
      item, the overwrite of a reused child, and the new child for an
      unknown key. */
  datatype Merger<!T, !D> = Merger(keyOf: T -> string, dataKey: D -> string, update: (T, D) -> T, create: D -> T)

  /** Overwriting keeps a child's key, and a new child has the incoming key. */
  ghost predicate KeysKept<T(!new), D(!new)>(m: Merger<T, D>)
  {
    && (forall t, d :: m.keyOf(m.update(t, d)) == m.keyOf(t))
    && (forall d :: m.keyOf(m.create(d)) == m.dataKey(d))
  }

  /** The child a `{key: child for child in children}` dict finds under
      `k`: the last one with that key. */
  function LastIndex<T>(items: seq<T>, keyOf: T -> string, k: string): (r: Option<nat>)
    ensures r.Some? ==> r.value < |items| && keyOf(items[r.value]) == k
    ensures r.Some? ==> forall j :: r.value < j < |items| ==> keyOf(items[j]) != k
    ensures r.None? ==> forall j :: 0 <= j < |items| ==> keyOf(items[j]) != k
  {
    if items == [] then None
    else if keyOf(items[|items| - 1]) == k then Some(|items| - 1)
    else LastIndex(items[..|items| - 1], keyOf, k)
  }

  /** One pass of the loop: the dict built from `existing` is looked up;
      a found child is overwritten in place, otherwise a new one is
      appended. */
  function Step<T, D>(existing: seq<T>, current: seq<T>, d: D, m: Merger<T, D>): (r: seq<T>)
    requires |existing| <= |current|
    ensures |r| >= |current|
  {
    match LastIndex(existing, m.keyOf, m.dataKey(d))
    case None => current + [m.create(d)]
    case Some(i) => current[i := m.update(current[i], d)]
  }

  /** The children after the loop over the incoming items. */
  function Merge<T, D>(existing: seq<T>, incoming: seq<D>, m: Merger<T, D>): (r: seq<T>)
    ensures |r| >= |existing|
  {
    if incoming == [] then existing
    else Step(existing, Merge(existing, incoming[..|incoming| - 1], m), incoming[|incoming| - 1], m)
  }

  /** The incoming keys. */
  function KeySet<D>(incoming: seq<D>, dataKey: D -> string): set<string>
  {
    set i | 0 <= i < |incoming| :: dataKey(incoming[i])
  }

  lemma MergeSnoc<T, D>(existing: seq<T>, incoming: seq<D>, m: Merger<T, D>, i: nat)
    requires i < |incoming|
    ensures Merge(existing, incoming[..i + 1], m) == Step(existing, Merge(existing, incoming[..i], m), incoming[i], m)
  {
    assert incoming[..i + 1][..i] == incoming[..i];
  }

  lemma KeySetSnoc<D>(incoming: seq<D>, dataKey: D -> string, i: nat)
    requires i < |incoming|
    ensures KeySet(incoming[..i + 1], dataKey) == KeySet(incoming[..i], dataKey) + {dataKey(incoming[i])}
  {
    var before := incoming[..i];
    var after := incoming[..i + 1];
    assert forall j :: 0 <= j < i ==> after[j] == before[j];
  }

  /** `[c for c in children if key(c) in keys]`. */
  function Prune<T>(items: seq<T>, keyOf: T -> string, keys: set<string>): seq<T>
  {
    if items == [] then []
    else Prune(items[..|items| - 1], keyOf, keys) + (if keyOf(items[|items| - 1]) in keys then [items[|items| - 1]] else [])
  }

  /** A synchronisation: the merge loop, then the prune. */
  function Sync<T, D>(existing: seq<T>, incoming: seq<D>, m: Merger<T, D>): seq<T>
  {
    Prune(Merge(existing, incoming, m), m.keyOf, KeySet(incoming, m.dataKey))
  }

  // ---------------------------------------------------------------------
  // What a synchronisation amounts to
  // ---------------------------------------------------------------------

  /** The incoming items with key `k`, in order. */
  function Occurrences<D>(incoming: seq<D>, dataKey: D -> string, k: string): seq<D>
  {
    if incoming == [] then []
    else Occurrences(incoming[..|incoming| - 1], dataKey, k) + (if dataKey(incoming[|incoming| - 1]) == k then [incoming[|incoming| - 1]] else [])
  }

  /** A child overwritten by each of `ds` in turn. */
  function FoldUpdates<T, D>(t: T, ds: seq<D>, update: (T, D) -> T): T
  {
    if ds == [] then t else update(FoldUpdates(t, ds[..|ds| - 1], update), ds[|ds| - 1])
  }

  /** The existing children after the loop: the one the dict finds under
      its key has been overwritten by every incoming item with that key;
      a child shadowed by a later one with the same key is untouched. */
  function Updated<T, D>(existing: seq<T>, incoming: seq<D>, m: Merger<T, D>): (r: seq<T>)
    ensures |r| == |existing|
  {
    seq(|existing|, i requires 0 <= i < |existing| =>
      if LastIndex(existing, m.keyOf, m.keyOf(existing[i])) == Some(i)
      then FoldUpdates(existing[i], Occurrences(incoming, m.dataKey, m.keyOf(existing[i])), m.update)
      else existing[i])
  }

  /** One new child per incoming item whose key no existing child has, in
      incoming order; a repeated new key gives one child per occurrence. */
  function Created<T, D>(existing: seq<T>, incoming: seq<D>, m: Merger<T, D>): seq<T>
  {
    if incoming == [] then []
    else
      var d := incoming[|incoming| - 1];
      Created(existing, incoming[..|incoming| - 1], m) + (if LastIndex(existing, m.keyOf, m.dataKey(d)).None? then [m.create(d)] else [])
  }

  lemma UpdatedAt<T, D>(existing: seq<T>, incoming: seq<D>, m: Merger<T, D>, i: nat)
    requires i < |existing|
    ensures Updated(existing, incoming, m)[i] ==
      if LastIndex(existing, m.keyOf, m.keyOf(existing[i])) == Some(i)
      then FoldUpdates(existing[i], Occurrences(incoming, m.dataKey, m.keyOf(existing[i])), m.update)
      else existing[i]
  {
  }

  lemma OccurrencesSnoc<D>(incoming: seq<D>, dataKey: D -> string, k: string)
    requires incoming != []
    ensures var d := incoming[|incoming| - 1];
      if dataKey(d) == k
      then Occurrences(incoming, dataKey, k) == Occurrences(incoming[..|incoming| - 1], dataKey, k) + [d]
      else Occurrences(incoming, dataKey, k) == Occurrences(incoming[..|incoming| - 1], dataKey, k)
  {
    var init := incoming[..|incoming| - 1];
    assert Occurrences(init, dataKey, k) + [] == Occurrences(init, dataKey, k);
  }

  lemma FoldSnoc<T, D>(t: T, ds: seq<D>, update: (T, D) -> T)
    requires ds != []
    ensures FoldUpdates(t, ds, update) == update(FoldUpdates(t, ds[..|ds| - 1], update), ds[|ds| - 1])
  {
  }

  lemma UpdatedStep<T, D>(existing: seq<T>, incoming: seq<D>, m: Merger<T, D>, i: nat)
    requires incoming != [] && i < |existing|
    ensures var d := incoming[|incoming| - 1];
      var before := Updated(existing, incoming[..|incoming| - 1], m);
      Updated(existing, incoming, m)[i] ==
        if LastIndex(existing, m.keyOf, m.dataKey(d)) == Some(i) then m.update(before[i], d) else before[i]
  {
    var init := incoming[..|incoming| - 1];
    var d := incoming[|incoming| - 1];
    var k := m.keyOf(existing[i]);
    var occ := Occurrences(init, m.dataKey, k);
    UpdatedAt(existing, init, m, i);
    UpdatedAt(existing, incoming, m, i);
    OccurrencesSnoc(incoming, m.dataKey, k);
    if LastIndex(existing, m.keyOf, k) == Some(i) && m.dataKey(d) == k {
      var ds := Occurrences(incoming, m.dataKey, k);
      assert ds[..|ds| - 1] == occ;
      FoldSnoc(existing[i], ds, m.update);
    }
  }

  /** The loop leaves the existing children, updated in place, followed by
      the new ones. */
  lemma {:induction false} MergeClosedForm<T, D>(existing: seq<T>, incoming: seq<D>, m: Merger<T, D>)
    ensures Merge(existing, incoming, m) == Updated(existing, incoming, m) + Created(existing, incoming, m)
  {
    if incoming == [] {
      assert Updated(existing, incoming, m) == existing;
    } else {
      var init := incoming[..|incoming| - 1];
      var d := incoming[|incoming| - 1];
      MergeClosedForm(existing, init, m);
      var before := Updated(existing, init, m);
      var after := Updated(existing, incoming, m);
      forall i | 0 <= i < |existing|
        ensures after[i] == if LastIndex(existing, m.keyOf, m.dataKey(d)) == Some(i) then m.update(before[i], d) else before[i]
      {
        UpdatedStep(existing, incoming, m, i);
      }
      var created := Created(existing, init, m);
      assert Merge(existing, incoming, m) == Step(existing, before + created, d, m);
      StepClosedForm(existing, before, after, created, d, m);
    }
  }

  /** One pass keeps the shape: the updated children, then the created. */
  lemma StepClosedForm<T, D>(existing: seq<T>, before: seq<T>, after: seq<T>, created: seq<T>, d: D, m: Merger<T, D>)
    requires |before| == |existing| == |after|
    requires forall i :: 0 <= i < |existing| ==>
      after[i] == if LastIndex(existing, m.keyOf, m.dataKey(d)) == Some(i) then m.update(before[i], d) else before[i]
    ensures Step(existing, before + created, d, m) ==
      after + created + (if LastIndex(existing, m.keyOf, m.dataKey(d)).None? then [m.create(d)] else [])
  {
    match LastIndex(existing, m.keyOf, m.dataKey(d))
    case None =>
      assert after == before;
    case Some(j) =>
      assert after == before[j := m.update(before[j], d)];
  }

  lemma {:induction false} PruneAppend<T>(a: seq<T>, b: seq<T>, keyOf: T -> string, keys: set<string>)
    ensures Prune(a + b, keyOf, keys) == Prune(a, keyOf, keys) + Prune(b, keyOf, keys)
  {
    if b == [] {
      assert a + b == a;
    } else {
      assert (a + b)[..|a + b| - 1] == a + b[..|b| - 1];
      PruneAppend(a, b[..|b| - 1], keyOf, keys);
    }
  }

  lemma {:induction false} CreatedKeys<T(!new), D(!new)>(existing: seq<T>, incoming: seq<D>, m: Merger<T, D>)
    requires KeysKept(m)
    ensures forall t :: t in Created(existing, incoming, m) ==> m.keyOf(t) in KeySet(incoming, m.dataKey)
  {
    if incoming != [] {
      var init := incoming[..|incoming| - 1];
      CreatedKeys(existing, init, m);
      assert forall d :: d in init ==> d in incoming;
    }
  }

  lemma {:induction false} PruneAll<T>(items: seq<T>, keyOf: T -> string, keys: set<string>)
    requires forall t :: t in items ==> keyOf(t) in keys
    ensures Prune(items, keyOf, keys) == items
  {
    if items != [] {
      PruneAll(items[..|items| - 1], keyOf, keys);
    }
  }

  /** A synchronisation keeps the surviving existing children in their
      order, each reused child overwritten by the incoming items with its
      key, and appends the new children in incoming order. */
  lemma SyncClosedForm<T(!new), D(!new)>(existing: seq<T>, incoming: seq<D>, m: Merger<T, D>)
    requires KeysKept(m)
    ensures Sync(existing, incoming, m) ==
      Prune(Updated(existing, incoming, m), m.keyOf, KeySet(incoming, m.dataKey)) + Created(existing, incoming, m)
  {
    var keys := KeySet(incoming, m.dataKey);
    MergeClosedForm(existing, incoming, m);
    PruneAppend(Updated(existing, incoming, m), Created(existing, incoming, m), m.keyOf, keys);
    CreatedKeys(existing, incoming, m);
    PruneAll(Created(existing, incoming, m), m.keyOf, keys);
  }

  /** The set of keys a list of children has. */
  function KeysOf<T>(items: seq<T>, keyOf: T -> string): set<string>
  {
    set i | 0 <= i < |items| :: keyOf(items[i])
  }

  lemma {:induction false} PruneMembers<T>(items: seq<T>, keyOf: T -> string, keys: set<string>)
    ensures forall t :: t in Prune(items, keyOf, keys) <==> t in items && keyOf(t) in keys
  {
    if items != [] {
      PruneMembers(items[..|items| - 1], keyOf, keys);
      assert items == items[..|items| - 1] + [items[|items| - 1]];
    }
  }

  lemma {:induction false} FoldKeepsKey<T(!new), D(!new)>(t: T, ds: seq<D>, m: Merger<T, D>)
    requires KeysKept(m)
    ensures m.keyOf(FoldUpdates(t, ds, m.update)) == m.keyOf(t)
  {
    if ds != [] {
      FoldKeepsKey(t, ds[..|ds| - 1], m);
    }
  }

  lemma {:induction false} CreatedHas<T, D>(existing: seq<T>, incoming: seq<D>, m: Merger<T, D>, i: nat)
    requires i < |incoming| && LastIndex(existing, m.keyOf, m.dataKey(incoming[i])).None?
    ensures m.create(incoming[i]) in Created(existing, incoming, m)
  {
    if i < |incoming| - 1 {
      CreatedHas(existing, incoming[..|incoming| - 1], m, i);
    }
  }

  /** After a synchronisation the children's keys are exactly the incoming
      keys. */
  lemma SyncKeys<T(!new), D(!new)>(existing: seq<T>, incoming: seq<D>, m: Merger<T, D>)
    requires KeysKept(m)
    ensures KeysOf(Sync(existing, incoming, m), m.keyOf) == KeySet(incoming, m.dataKey)
  {
    var keys := KeySet(incoming, m.dataKey);
    var merged := Merge(existing, incoming, m);
    var updated := Updated(existing, incoming, m);
    var synced := Sync(existing, incoming, m);
    PruneMembers(merged, m.keyOf, keys);
    MergeClosedForm(existing, incoming, m);
    forall k | k in keys ensures k in KeysOf(synced, m.keyOf) {
      var i :| 0 <= i < |incoming| && m.dataKey(incoming[i]) == k;
      match LastIndex(existing, m.keyOf, k)
      case None =>
        CreatedHas(existing, incoming, m, i);
        var t := m.create(incoming[i]);
        assert t in merged;
      case Some(j) =>
        FoldKeepsKey(existing[j], Occurrences(incoming, m.dataKey, k), m);
        assert m.keyOf(updated[j]) == k;
        assert merged[j] == updated[j];
        assert updated[j] in synced;
    }
  }

  lemma {:induction false} CreatedEmpty<T, D>(incoming: seq<D>, m: Merger<T, D>)
    ensures Created([], incoming, m) == seq(|incoming|, i requires 0 <= i < |incoming| => m.create(incoming[i]))
  {
    if incoming != [] {
      CreatedEmpty<T, D>(incoming[..|incoming| - 1], m);
    }
  }

  /** Synchronising into no children creates one child per incoming item,
      in order. */
  lemma SyncFromEmpty<T(!new), D(!new)>(incoming: seq<D>, m: Merger<T, D>)
    requires KeysKept(m)
    ensures Sync([], incoming, m) == seq(|incoming|, i requires 0 <= i < |incoming| => m.create(incoming[i]))
  {
    SyncClosedForm([], incoming, m);
    CreatedEmpty<T, D>(incoming, m);
    assert Updated([], incoming, m) == [];
  }

  /** The number of children with key `k`. */
  function CountKey<T>(items: seq<T>, keyOf: T -> string, k: string): nat
  {
    if items == [] then 0
    else CountKey(items[..|items| - 1], keyOf, k) + (if keyOf(items[|items| - 1]) == k then 1 else 0)
  }

  lemma {:induction false} CountKeyAppend<T>(a: seq<T>, b: seq<T>, keyOf: T -> string, k: string)
    ensures CountKey(a + b, keyOf, k) == CountKey(a, keyOf, k) + CountKey(b, keyOf, k)
  {
    if b == [] {
      assert a + b == a;
    } else {
      assert (a + b)[..|a + b| - 1] == a + b[..|b| - 1];
      CountKeyAppend(a, b[..|b| - 1], keyOf, k);
    }
  }

  lemma {:induction false} CountKeyAbsent<T>(items: seq<T>, keyOf: T -> string, k: string)
    requires forall i :: 0 <= i < |items| ==> keyOf(items[i]) != k
    ensures CountKey(items, keyOf, k) == 0
  {
    if items != [] {
      CountKeyAbsent(items[..|items| - 1], keyOf, k);
    }
  }

  lemma {:induction false} CreatedCount<T(!new), D(!new)>(existing: seq<T>, incoming: seq<D>, m: Merger<T, D>, k: string)
    requires KeysKept(m) && LastIndex(existing, m.keyOf, k).None?
    ensures CountKey(Created(existing, incoming, m), m.keyOf, k) == |Occurrences(incoming, m.dataKey, k)|
  {
    if incoming != [] {
      var init := incoming[..|incoming| - 1];
      var d := incoming[|incoming| - 1];
      CreatedCount(existing, init, m, k);
      var tail := if LastIndex(existing, m.keyOf, m.dataKey(d)).None? then [m.create(d)] else [];
      CountKeyAppend(Created(existing, init, m), tail, m.keyOf, k);
      if m.dataKey(d) == k {
        assert tail == [m.create(d)];
        assert [m.create(d)][..0] == [];
      } else if tail != [] {
        assert tail[..0] == [];
      }
    }
  }

  lemma {:induction false} PruneCount<T>(items: seq<T>, keyOf: T -> string, keys: set<string>, k: string)
    ensures CountKey(Prune(items, keyOf, keys), keyOf, k) <= CountKey(items, keyOf, k)
  {
    if items != [] {
      var init := items[..|items| - 1];
      var last := items[|items| - 1];
      PruneCount(init, keyOf, keys, k);
      var tail := if keyOf(last) in keys then [last] else [];
      CountKeyAppend(Prune(init, keyOf, keys), tail, keyOf, k);
      if tail != [] {
        assert tail[..0] == [];
      }
    }
  }

  /** The dict is built once, before the loop: an incoming key no existing
      child has gives one new child per occurrence, and no other. */
  lemma NewKeyCount<T(!new), D(!new)>(existing: seq<T>, incoming: seq<D>, m: Merger<T, D>, k: string)
    requires KeysKept(m) && forall i :: 0 <= i < |existing| ==> m.keyOf(existing[i]) != k
    ensures CountKey(Sync(existing, incoming, m), m.keyOf, k) == |Occurrences(incoming, m.dataKey, k)|
  {
    var keys := KeySet(incoming, m.dataKey);
    var updated := Updated(existing, incoming, m);
    SyncClosedForm(existing, incoming, m);
    forall i | 0 <= i < |updated| ensures m.keyOf(updated[i]) != k {
      if LastIndex(existing, m.keyOf, m.keyOf(existing[i])) == Some(i) {
        FoldKeepsKey(existing[i], Occurrences(incoming, m.dataKey, m.keyOf(existing[i])), m);
      }
    }
    CountKeyAbsent(updated, m.keyOf, k);
    PruneCount(updated, m.keyOf, keys, k);
    CountKeyAppend(Prune(updated, m.keyOf, keys), Created(existing, incoming, m), m.keyOf, k);
    CreatedCount(existing, incoming, m, k);
  }

  // ---------------------------------------------------------------------
  // The three levels
  // ---------------------------------------------------------------------

  function ResourceName(r: Resource): string { r.name }
  function ResourceDataName(d: ResourceData): string { d.name }

  /** A reused resource takes the incoming type, url and notes. */
  function OverwriteResource(r: Resource, d: ResourceData): Resource
  {
    r.(resourceType := d.resourceType, url := d.url, notes := d.notes)
  }

  /** `Resource(name=data.name)`, then overwritten. */
  function NewResource(d: ResourceData): Resource
  {
    OverwriteResource(Resource(None, d.name, None, None, None), d)
  }

  function ResourceMerger(): Merger<Resource, ResourceData>
  {
    Merger(ResourceName, ResourceDataName, OverwriteResource, NewResource)
  }

  function LessonTitle(l: Lesson): string { l.title }
  function LessonDataTitle(d: LessonData): string { d.title }

  /** A reused lesson takes the incoming sequence and objective, and its
      resources are synchronised. */
  function UpdateLesson(l: Lesson, d: LessonData): Lesson
  {
    var fields := l.(sequence := d.sequence, objective := d.objective);
    fields.(resources := Sync(fields.resources, d.resources, ResourceMerger()))
  }

  function NewLesson(d: LessonData): Lesson
  {
    UpdateLesson(Lesson(None, d.title, 0, None, []), d)
  }

  function LessonMerger(): Merger<Lesson, LessonData>
  {
    Merger(LessonTitle, LessonDataTitle, UpdateLesson, NewLesson)
  }

  function UnitTitle(u: Unit): string { u.title }
  function UnitDataTitle(d: UnitData): string { d.title }

  /** A reused unit takes the incoming position and summary, and its
      lessons are synchronised. */
  function UpdateUnit(u: Unit, d: UnitData): Unit
  {
    var fields := u.(position := d.position, summary := d.summary);
    fields.(lessons := Sync(fields.lessons, d.lessons, LessonMerger()))
  }

  function NewUnit(d: UnitData): Unit
  {
    UpdateUnit(Unit(None, d.title, 0, None, []), d)
  }

  function UnitMerger(): Merger<Unit, UnitData>
  {
    Merger(UnitTitle, UnitDataTitle, UpdateUnit, NewUnit)
  }

  /** Each level overwrites by key and keeps keys. */
  lemma MergersKeepKeys()
    ensures KeysKept(ResourceMerger())
    ensures KeysKept(LessonMerger())
    ensures KeysKept(UnitMerger())
  {
  }

  /** A reused resource keeps its id and name and ends with the fields of
      the last incoming item with its name. */
  lemma {:induction false} ResourceLastWins(r: Resource, ds: seq<ResourceData>)
    requires ds != []
    ensures FoldUpdates(r, ds, ResourceMerger().update) == OverwriteResource(r, ds[|ds| - 1])
  {
    if |ds| > 1 {
      ResourceLastWins(r, ds[..|ds| - 1]);
    }
  }

  /** For resources: the synchronised list holds, for each surviving
      existing resource in order, that resource with its id kept and, when
      it is the one the dict finds, the fields of the last incoming item
      with its name; then the new resources, in incoming order. */
  lemma ResourceSync(existing: seq<Resource>, incoming: seq<ResourceData>, i: nat)
    requires i < |existing|
    ensures Sync(existing, incoming, ResourceMerger()) ==
      Prune(Updated(existing, incoming, ResourceMerger()), ResourceName, KeySet(incoming, ResourceDataName)) + Created(existing, incoming, ResourceMerger())
    ensures var u := Updated(existing, incoming, ResourceMerger())[i];
      var ds := Occurrences(incoming, ResourceDataName, existing[i].name);
      && u.id == existing[i].id && u.name == existing[i].name
      && (LastIndex(existing, ResourceName, existing[i].name) == Some(i) && ds != [] ==> u == OverwriteResource(existing[i], ds[|ds| - 1]))
    ensures KeysOf(Sync(existing, incoming, ResourceMerger()), ResourceName) == KeySet(incoming, ResourceDataName)
  {
    MergersKeepKeys();
    SyncClosedForm(existing, incoming, ResourceMerger());
    SyncKeys(existing, incoming, ResourceMerger());
    var ds := Occurrences(incoming, ResourceDataName, existing[i].name);
    if LastIndex(existing, ResourceName, existing[i].name) == Some(i) && ds != [] {
      ResourceLastWins(existing[i], ds);
    } else if LastIndex(existing, ResourceName, existing[i].name) == Some(i) {
      assert ds == [];
    }
  }

  // ---------------------------------------------------------------------
  // The loops
  // ---------------------------------------------------------------------

  /** `_synchronise_resources`. */
  method SynchroniseResources(lesson: Lesson, resourceData: seq<ResourceData>) returns (result: Lesson)
    ensures result == lesson.(resources := Sync(lesson.resources, resourceData, ResourceMerger()))
  {
    var existing := lesson.resources;
    var resources := existing;
    var incomingNames: set<string> := {};
    for i := 0 to |resourceData|
      invariant resources == Merge(existing, resourceData[..i], ResourceMerger())
      invariant incomingNames == KeySet(resourceData[..i], ResourceDataName)
    {
      var data := resourceData[i];
      assert resourceData[..i + 1] == resourceData[..i] + [data];
      incomingNames := incomingNames + {data.name};
      var index: nat;
      match LastIndex(existing, ResourceName, data.name) {
        case None =>
          resources := resources + [Resource(None, data.name, None, None, None)];
          index := |resources| - 1;
        case Some(j) =>
          index := j;
      }
      resources := resources[index := OverwriteResource(resources[index], data)];
    }
    assert resourceData[..|resourceData|] == resourceData;
    result := lesson.(resources := Prune(resources, ResourceName, incomingNames));
  }

  /** One pass of `_synchronise_lessons`' loop: the lesson the dict finds
      under the incoming title, or a new one appended, takes the incoming
      fields and has its children synchronised. */
  method MergeLesson(existing: seq<Lesson>, lessons: seq<Lesson>, data: LessonData) returns (next: seq<Lesson>)
    requires |existing| <= |lessons|
    ensures next == Step(existing, lessons, data, LessonMerger())
  {
    next := lessons;
    var index: nat;
    match LastIndex(existing, LessonTitle, data.title) {
      case None =>
        next := next + [Lesson(None, data.title, 0, None, [])];
        index := |next| - 1;
      case Some(j) =>
        index := j;
    }
    var child := next[index].(sequence := data.sequence, objective := data.objective);
    child := SynchroniseResources(child, data.resources);
    next := next[index := child];
  }

  /** `_synchronise_lessons`. */
  method SynchroniseLessons(unit: Unit, lessonData: seq<LessonData>) returns (result: Unit)
    ensures result == unit.(lessons := Sync(unit.lessons, lessonData, LessonMerger()))
  {
    var existing := unit.lessons;
    var lessons := existing;
    var incomingTitles: set<string> := {};
    for i := 0 to |lessonData|
      invariant lessons == Merge(existing, lessonData[..i], LessonMerger())
      invariant incomingTitles == KeySet(lessonData[..i], LessonDataTitle)
    {
      MergeSnoc(existing, lessonData, LessonMerger(), i);
      KeySetSnoc(lessonData, LessonDataTitle, i);
      incomingTitles := incomingTitles + {lessonData[i].title};
      lessons := MergeLesson(existing, lessons, lessonData[i]);
    }
    assert lessonData[..|lessonData|] == lessonData;
    result := unit.(lessons := Prune(lessons, LessonTitle, incomingTitles));
  }

  /** One pass of `_synchronise_units`' loop: the unit the dict finds
      under the incoming title, or a new one appended, takes the incoming
      fields and has its children synchronised. */
  method MergeUnit(existing: seq<Unit>, units: seq<Unit>, data: UnitData) returns (next: seq<Unit>)
    requires |existing| <= |units|
    ensures next == Step(existing, units, data, UnitMerger())
  {
    next := units;
    var index: nat;
    match LastIndex(existing, UnitTitle, data.title) {
      case None =>
        next := next + [Unit(None, data.title, 0, None, [])];
        index := |next| - 1;
      case Some(j) =>
        index := j;
    }
    var child := next[index].(position := data.position, summary := data.summary);
    child := SynchroniseLessons(child, data.lessons);
    next := next[index := child];
  }

  /** `_synchronise_units`. */
  method SynchroniseUnits(plan: Plan, unitData: seq<UnitData>) returns (result: Plan)
    ensures result == plan.(units := Sync(plan.units, unitData, UnitMerger()))
  {
    var existing := plan.units;
    var units := existing;
    var incomingTitles: set<string> := {};
    for i := 0 to |unitData|
      invariant units == Merge(existing, unitData[..i], UnitMerger())
      invariant incomingTitles == KeySet(unitData[..i], UnitDataTitle)
    {
      MergeSnoc(existing, unitData, UnitMerger(), i);
      KeySetSnoc(unitData, UnitDataTitle, i);
      incomingTitles := incomingTitles + {unitData[i].title};
      units := MergeUnit(existing, units, unitData[i]);
    }
    assert unitData[..|unitData|] == unitData;
    result := plan.(units := Prune(units, UnitTitle, incomingTitles));
  }

  /** `update_plan`: the four plan fields are overwritten, then the units
      synchronised. */
  method UpdatePlan(plan: Plan, planData: PlanData) returns (result: Plan)
    ensures result == plan.(title := planData.title, description := planData.description, gradeLevel := planData.gradeLevel,
                            subject := planData.subject, units := Sync(plan.units, planData.units, UnitMerger()))
  {
    var updated := plan.(title := planData.title, description := planData.description, gradeLevel := planData.gradeLevel, subject := planData.subject);
    result := SynchroniseUnits(updated, planData.units);
  }

  /** `create_plan`: a new plan for the teacher, its units synchronised
      into an empty list. */
  method CreatePlan(teacherId: int, planData: PlanData) returns (result: Plan)
    ensures result == Plan(None, teacherId, planData.title, planData.description, planData.gradeLevel, planData.subject,
                           Sync([], planData.units, UnitMerger()))
  {
    var plan := Plan(None, teacherId, planData.title, planData.description, planData.gradeLevel, planData.subject, []);
    result := SynchroniseUnits(plan, planData.units);
  }

  // ---------------------------------------------------------------------
  // Creating from nothing
  // ---------------------------------------------------------------------

  /** The structure the data describes, built directly. */
  function ResourceOf(d: ResourceData): Resource
  {
    Resource(None, d.name, d.resourceType, d.url, d.notes)
  }

  function LessonOf(d: LessonData): Lesson
  {
    Lesson(None, d.title, d.sequence, d.objective, seq(|d.resources|, i requires 0 <= i < |d.resources| => ResourceOf(d.resources[i])))
  }

  function UnitOf(d: UnitData): Unit
  {
    Unit(None, d.title, d.position, d.summary, seq(|d.lessons|, i requires 0 <= i < |d.lessons| => LessonOf(d.lessons[i])))
  }

  lemma NewLessonIsData(d: LessonData)
    ensures NewLesson(d) == LessonOf(d)
  {
    MergersKeepKeys();
    SyncFromEmpty(d.resources, ResourceMerger());
  }

  lemma NewUnitIsData(d: UnitData)
    ensures NewUnit(d) == UnitOf(d)
  {
    MergersKeepKeys();
    SyncFromEmpty(d.lessons, LessonMerger());
    forall i | 0 <= i < |d.lessons| ensures NewLesson(d.lessons[i]) == LessonOf(d.lessons[i]) {
      NewLessonIsData(d.lessons[i]);
    }
  }

  /** A nested create yields exactly the structure given: every unit,
      lesson and resource of the data, in order, each new. */
  lemma CreateYieldsData(units: seq<UnitData>)
    ensures Sync([], units, UnitMerger()) == seq(|units|, i requires 0 <= i < |units| => UnitOf(units[i]))
  {
    MergersKeepKeys();
    SyncFromEmpty(units, UnitMerger());
    forall i | 0 <= i < |units| ensures NewUnit(units[i]) == UnitOf(units[i]) {
      NewUnitIsData(units[i]);
    }
  }

  /** The algebra plan the model tests build. */
  function SamplePlan(): PlanData
  {
    PlanData("Sample Plan", Some("A unit for algebra basics."), Some("7"), Some("Math"), [
      UnitData("Expressions", 1, None, [
        LessonData("Variables and Constants", 1, None, [
          ResourceData("Lesson Slides", Some("slides"), None, None),
          ResourceData("Practice Worksheet", Some("worksheet"), None, None)]),
        LessonData("Combining Like Terms", 2, Some("Students simplify algebraic expressions."), [
          ResourceData("Video Overview", Some("video"), None, None)])]),
      UnitData("Equations", 2, None, [
        LessonData("Balancing Equations", 1, None, [
          ResourceData("Lab Activity", Some("activity"), None, None)])])])
  }

  /** Creating the sample plan gives two units whose first lesson's first
      resource is the "Lesson Slides" slides. */
  lemma SamplePlanCreated()
    ensures var units := Sync([], SamplePlan().units, UnitMerger());
      && |units| == 2
      && |units[0].lessons| == 2 && |units[0].lessons[0].resources| == 2
      && units[0].lessons[0].resources[0].name == "Lesson Slides"
      && units[0].lessons[0].resources[0].resourceType == Some("slides")
  {
    CreateYieldsData(SamplePlan().units);
  }
}
