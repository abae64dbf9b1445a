/** The object store of models/engine/file_storage.py (`FileStorage`).

    The process-wide dictionary `__objects` and the file `file.json` are held
    together in a `State`; every operation is a function from the state before
    to a `Step`: the state after, and either the operation's value or the error
    it raises. Python does not roll back, so a state change made before an
    error is raised stays in the `Step`. */
module FileStorage {
  import opened Results
  import opened Timestamps
  import opened Keys
  import opened Values

  /** One object's attributes (its `__dict__`). */
  type Attrs = map<string, Value>

  /** `__objects`: store key to attributes. */
  type Store = map<string, Attrs>

  /** One object as written to the snapshot file. */
  type Record = map<string, Json>

  /** The top-level JSON object of the snapshot file. */
  type Snapshot = map<string, Record>

  /** The snapshot file: missing, holding a JSON object of objects, or holding
      anything else (a dump cut short by an error, text that is not JSON, a JSON
      value of another shape). */
  datatype File = Absent | Written(snapshot: Snapshot) | Unreadable

  datatype State = State(objects: Store, file: File)

  datatype Error =
    | MissingId                                   // `new`: the object has no `id` (AttributeError)
    | NoInstance(className: string, id: string)   // `destroy`: no such key (AttributeError)
    | UnformattableTimestamp                      // `save`: a `created_at`/`updated_at` is missing or not a datetime
    | NotSerializable                             // `save`: `json.dump` met a datetime elsewhere (TypeError)
    | MalformedSnapshot                           // `reload`: the file is not a JSON object of objects
    | MalformedEntry                              // `reload`: an entry lacks a parsable timestamp or `__class__`
    | KeyWithoutDot                               // `all`: a key has no '.' (IndexError)

  datatype Step<+T> = Step(state: State, result: Result<T, Error>)

  const CreatedAt: string := "created_at"
  const UpdatedAt: string := "updated_at"
  const ClassAttr: string := "__class__"
  const IdAttr: string := "id"

  /** The attribute names the store treats specially are distinct. */
  lemma DistinctNames()
    ensures CreatedAt != UpdatedAt && CreatedAt != ClassAttr && UpdatedAt != ClassAttr
  {
    assert CreatedAt[0] != UpdatedAt[0];
    assert CreatedAt[0] != ClassAttr[0];
    assert UpdatedAt[0] != ClassAttr[0];
  }

  // ---- save ------------------------------------------------------------------

  /** `to_dict` can render both timestamps. */
  predicate Stampable(a: Attrs) {
    && CreatedAt in a && a[CreatedAt].VTime?
    && UpdatedAt in a && a[UpdatedAt].VTime?
  }

  /** Every object in memory has both timestamps. */
  predicate AllStampable(objects: Store) {
    forall k :: k in objects ==> Stampable(objects[k])
  }

  /** No attribute other than the two timestamps (and `__class__`, which `save`
      overwrites) holds a datetime, so `json.dump` can write the object. */
  predicate Dumpable(a: Attrs) {
    forall n :: n in a && n != CreatedAt && n != UpdatedAt && n != ClassAttr ==> !a[n].VTime?
  }

  /** Every object in memory can be written by `json.dump`. */
  predicate AllDumpable(objects: Store) {
    forall k :: k in objects ==> Dumpable(objects[k])
  }

  /** `to_dict(a)` followed by `save`'s `__class__` assignment, before JSON encoding. */
  function ToDict(key: string, a: Attrs): (d: Attrs)
    requires Stampable(a)
    ensures Dumpable(a) ==> forall n :: n in d ==> !d[n].VTime?
  {
    a[CreatedAt := VStr(Format(a[CreatedAt].t))]
     [UpdatedAt := VStr(Format(a[UpdatedAt].t))]
     [ClassAttr := VStr(ClassPrefix(key))]
  }

  /** What the snapshot holds for the object `a` stored under `key`: every
      attribute, the two timestamps as fixed-format strings, and `__class__`
      naming the class taken from the key. */
  ghost predicate SavedEntry(key: string, a: Attrs, rec: Record)
    requires Stampable(a)
  {
    && rec.Keys == a.Keys + {ClassAttr}
    && rec[ClassAttr] == JStr(ClassPrefix(key))
    && rec[CreatedAt] == JStr(Format(a[CreatedAt].t))
    && rec[UpdatedAt] == JStr(Format(a[UpdatedAt].t))
    && forall n :: n in a && n != CreatedAt && n != UpdatedAt && n != ClassAttr ==>
         !a[n].VTime? && rec[n] == Encode(a[n])
  }

  /** The record `json.dump` writes for one object: `SavedEntry` describes it. */
  function SaveEntry(key: string, a: Attrs): (rec: Record)
    requires Stampable(a) && Dumpable(a)
    ensures SavedEntry(key, a, rec)
  {
    var d := ToDict(key, a);
    map n | n in d :: Encode(d[n])
  }

  /** The JSON object `save` writes for a store whose objects can all be written:
      one record per key, each as `SavedEntry` describes. */
  function SnapshotOf(objects: Store): (snap: Snapshot)
    requires AllStampable(objects)
    requires AllDumpable(objects)
    ensures snap.Keys == objects.Keys
    ensures forall k :: k in snap ==> SavedEntry(k, objects[k], snap[k])
  {
    map k | k in objects :: SaveEntry(k, objects[k])
  }

  /** `save()`: writes the whole store to the file and leaves memory as it is.
      Every object is rendered before the file is opened, so a missing or
      non-datetime timestamp raises with the file untouched; a datetime in any
      other attribute makes `json.dump` raise after the file was truncated. */
  function Save(st: State): (r: Step<()>)
    ensures r.state.objects == st.objects
    ensures r.result == Err(UnformattableTimestamp) <==> !AllStampable(st.objects)
    ensures r.result == Err(UnformattableTimestamp) ==> r.state == st
    ensures r.result == Err(NotSerializable) ==> r.state.file == Unreadable
    ensures r.result.Ok? || r.result == Err(UnformattableTimestamp) || r.result == Err(NotSerializable)
    ensures r.result.Ok? <==> AllStampable(st.objects) && AllDumpable(st.objects)
    ensures r.result.Ok? ==>
      && r.state.file.Written?
      && r.state.file.snapshot.Keys == st.objects.Keys
      && forall k :: k in st.objects ==>
           Stampable(st.objects[k]) && SavedEntry(k, st.objects[k], r.state.file.snapshot[k])
  {
    if !AllStampable(st.objects) then
      Step(st, Err(UnformattableTimestamp))
    else if AllDumpable(st.objects) then
      Step(st.(file := Written(SnapshotOf(st.objects))), Ok(()))
    else
      Step(st.(file := Unreadable), Err(NotSerializable))
  }

  // ---- reload ----------------------------------------------------------------

  /** `from_dict` succeeds: both timestamps are strings `strptime` accepts, and
      `__class__` is there to delete. */
  predicate Loadable(rec: Record) {
    && CreatedAt in rec && rec[CreatedAt].JStr? && Parse(rec[CreatedAt].s).Some?
    && UpdatedAt in rec && rec[UpdatedAt].JStr? && Parse(rec[UpdatedAt].s).Some?
    && ClassAttr in rec
  }

  /** What memory holds after loading the record `rec`. */
  ghost predicate LoadedEntry(rec: Record, a: Attrs)
    requires Loadable(rec)
  {
    && a.Keys == rec.Keys - {ClassAttr}
    && a[CreatedAt] == VTime(Parse(rec[CreatedAt].s).value)
    && a[UpdatedAt] == VTime(Parse(rec[UpdatedAt].s).value)
    && forall n :: n in a && n != CreatedAt && n != UpdatedAt ==> a[n] == Decode(rec[n])
  }

  /** The dict `from_dict` returns once both timestamps are parsed, to `created`
      and `updated`. */
  function Stamped(rec: Record, created: Timestamp, updated: Timestamp): Attrs {
    (map n | n in rec :: Decode(rec[n]))
      [CreatedAt := VTime(created)]
      [UpdatedAt := VTime(updated)]
      - {ClassAttr}
  }

  lemma StampedContents(rec: Record, created: Timestamp, updated: Timestamp)
    requires CreatedAt in rec && UpdatedAt in rec
    ensures Stamped(rec, created, updated).Keys == rec.Keys - {ClassAttr}
    ensures Stamped(rec, created, updated)[CreatedAt] == VTime(created)
    ensures Stamped(rec, created, updated)[UpdatedAt] == VTime(updated)
    ensures forall n :: n in rec && n != ClassAttr && n != CreatedAt && n != UpdatedAt ==>
              Stamped(rec, created, updated)[n] == Decode(rec[n])
  {
    DistinctNames();
    var decoded := map n | n in rec :: Decode(rec[n]);
    assert decoded.Keys == rec.Keys;
  }

  /** `from_dict(rec)`: the object `LoadedEntry` describes. Its guard
      `hasattr(new_dict, "__class__")` asks whether the dict object has that
      attribute, which every Python object has, so the entry is always
      deleted. */
  function FromDict(rec: Record): (a: Attrs)
    requires Loadable(rec)
    ensures LoadedEntry(rec, a)
  {
    var created, updated := Parse(rec[CreatedAt].s).value, Parse(rec[UpdatedAt].s).value;
    StampedContents(rec, created, updated);
    Stamped(rec, created, updated)
  }

  /** The new `__objects` that `reload` builds from a readable file: one object
      per record, each as `LoadedEntry` describes. */
  function LoadSnapshot(snap: Snapshot): (objects: Store)
    requires forall k :: k in snap ==> Loadable(snap[k])
    ensures objects.Keys == snap.Keys
    ensures forall k :: k in objects ==> LoadedEntry(snap[k], objects[k])
  {
    map k | k in snap :: FromDict(snap[k])
  }

  /** `reload()`: a missing file changes nothing and raises nothing; otherwise
      memory is replaced wholesale by the decoded file, or, when any entry fails
      to decode, the error propagates and memory is kept. */
  function Reload(st: State): (r: Step<()>)
    ensures r.state.file == st.file
    ensures r.result.Err? ==> r.state == st
    ensures st.file.Absent? ==> r == Step(st, Ok(()))
    ensures st.file.Unreadable? ==> r == Step(st, Err(MalformedSnapshot))
    ensures st.file.Written? ==>
      (r.result.Ok? <==> forall k :: k in st.file.snapshot ==> Loadable(st.file.snapshot[k]))
    ensures st.file.Written? && r.result.Err? ==> r.result.error == MalformedEntry
    ensures st.file.Written? && r.result.Ok? ==>
      && r.state.objects.Keys == st.file.snapshot.Keys
      && forall k :: k in r.state.objects ==>
           Loadable(st.file.snapshot[k]) && LoadedEntry(st.file.snapshot[k], r.state.objects[k])
  {
    match st.file
    case Absent => Step(st, Ok(()))
    case Unreadable => Step(st, Err(MalformedSnapshot))
    case Written(snap) =>
      if forall k :: k in snap ==> Loadable(snap[k]) then
        Step(st.(objects := LoadSnapshot(snap)), Ok(()))
      else
        Step(st, Err(MalformedEntry))
  }

  // ---- the other operations --------------------------------------------------

  /** `all()`: reloads, then lists the keys. Building each display string indexes
      the second part of `key.split('.')`, which raises for a key without a '.'
      (possible only for keys read from the file); the reload has happened by then. */
  function All(st: State): (r: Step<set<string>>)
    ensures r.state == Reload(st).state
    ensures Reload(st).result.Err? ==> r.result == Err(Reload(st).result.error)
    ensures Reload(st).result.Ok? ==>
      (r.result.Ok? <==> forall k :: k in r.state.objects ==> '.' in k)
    ensures r.result.Ok? ==> r.result.value == r.state.objects.Keys
    ensures r.result.Err? ==> Reload(st).result.Err? || r.result.error == KeyWithoutDot
  {
    var loaded := Reload(st);
    if loaded.result.Err? then Step(loaded.state, Err(loaded.result.error))
    else if exists k :: k in loaded.state.objects && '.' !in k then
      Step(loaded.state, Err(KeyWithoutDot))
    else
      Step(loaded.state, Ok(loaded.state.objects.Keys))
  }

  /** `new(obj)` for an object of class `className` whose `__dict__` is `attrs`:
      stores it under `<className>.<str(id)>`, replacing any object already
      there. Nothing is written to the file. */
  function New(st: State, className: string, attrs: Attrs): (r: Step<()>)
    ensures r.state.file == st.file
    ensures r.result.Err? <==> IdAttr !in attrs
    ensures r.result.Err? ==> r == Step(st, Err(MissingId))
    ensures r.result.Ok? ==>
      var key := MakeKey(className, Str(attrs[IdAttr]));
      && r.state.objects.Keys == st.objects.Keys + {key}
      && r.state.objects[key] == attrs
      && forall k :: k in st.objects && k != key ==> r.state.objects[k] == st.objects[k]
  {
    if IdAttr !in attrs then Step(st, Err(MissingId))
    else
      var key := MakeKey(className, Str(attrs[IdAttr]));
      Step(st.(objects := st.objects[key := attrs]), Ok(()))
  }

  /** `destroy(className, id)`: removes the object and saves; raises, with
      nothing changed and nothing written, when there is no such object. */
  function Destroy(st: State, className: string, id: string): (r: Step<()>)
    ensures MakeKey(className, id) !in st.objects ==> r == Step(st, Err(NoInstance(className, id)))
    ensures MakeKey(className, id) in st.objects ==>
      && r.state.objects.Keys == st.objects.Keys - {MakeKey(className, id)}
      && (forall k :: k in r.state.objects ==> r.state.objects[k] == st.objects[k])
      && r == Save(State(r.state.objects, st.file))
  {
    var key := MakeKey(className, id);
    if key in st.objects then Save(st.(objects := st.objects - {key}))
    else Step(st, Err(NoInstance(className, id)))
  }

  /** `validate_id(className, id)`: for a dot-free class name, true exactly
      when some stored key splits at its first '.' into that class name and
      that id. */
  function ValidateId(st: State, className: string, id: string): (found: bool)
    ensures found <==> exists k :: k in st.objects && |k| == |className| + 1 + |id| &&
                                   k[..|className|] == className && k[|className|] == '.' &&
                                   k[|className| + 1..] == id
    ensures '.' !in className ==>
      (found <==> exists k :: k in st.objects && ClassPrefix(k) == className &&
                              |k| > |className| && k[|className| + 1..] == id)
  {
    StoredKeyParts(st.objects.Keys, className, id);
    if '.' in className then MakeKey(className, id) in st.objects
    else
      StoredKeySplits(st.objects.Keys, className, id);
      MakeKey(className, id) in st.objects
  }

  /** The object after `update` has set `attr` and then `updated_at`: it gains
      both names, `updated_at` holds `now` (so it wins when `attr` is
      `updated_at`), `attr` holds the new value, and every other attribute is
      kept. */
  function Touch(a: Attrs, attr: string, val: Value, now: Timestamp): (b: Attrs)
    ensures b.Keys == a.Keys + {attr, UpdatedAt}
    ensures b[UpdatedAt] == VTime(now)
    ensures attr != UpdatedAt ==> b[attr] == val
    ensures forall n :: n in a && n != attr && n != UpdatedAt ==> b[n] == a[n]
  {
    a[attr := val][UpdatedAt := VTime(now)]
  }

  /** `update(attr, val, className, id)` at time `now`: changes the one object
      as `Touch` describes, then saves. An unknown object is silently ignored:
      nothing changes, nothing is written, nothing is raised. */
  function Update(st: State, attr: string, val: Value, className: string, id: string,
                  now: Timestamp): (r: Step<()>)
    ensures MakeKey(className, id) !in st.objects ==> r == Step(st, Ok(()))
    ensures MakeKey(className, id) in st.objects ==>
      var key := MakeKey(className, id);
      && r.state.objects == st.objects[key := Touch(st.objects[key], attr, val, now)]
      && r == Save(State(r.state.objects, st.file))
  {
    var key := MakeKey(className, id);
    if key in st.objects then
      var changed := st.objects[key := Touch(st.objects[key], attr, val, now)];
      var r := Save(st.(objects := changed));
      assert r.state.objects == changed;
      r
    else
      Step(st, Ok(()))
  }
}
