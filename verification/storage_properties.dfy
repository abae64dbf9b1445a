/** Properties relating the operations of the object store to one another. */
module StorageProperties {
  import opened Results
  import opened Timestamps
  import opened Keys
  import opened Values
  import opened FileStorage

  /** An object that survives a save and a reload unchanged: both timestamps are
      datetimes, no other attribute is one, and it has no `__class__` attribute
      of its own (`reload` deletes that entry). */
  predicate RoundTrips(a: Attrs) {
    Stampable(a) && Dumpable(a) && ClassAttr !in a
  }

  predicate AllRoundTrip(objects: Store) {
    && AllStampable(objects)
    && AllDumpable(objects)
    && forall k :: k in objects ==> ClassAttr !in objects[k]
  }

  /** The record `save` writes for an object is one `reload` accepts. */
  lemma SavedEntryLoadable(key: string, a: Attrs)
    requires Stampable(a) && Dumpable(a)
    ensures Loadable(SaveEntry(key, a))
  {
    var rec := SaveEntry(key, a);
    ParseFormat(a[CreatedAt].t);
    ParseFormat(a[UpdatedAt].t);
    assert rec[CreatedAt] == JStr(Format(a[CreatedAt].t));
    assert rec[UpdatedAt] == JStr(Format(a[UpdatedAt].t));
  }

  /** Stamping the record `save` wrote with the object's own timestamps gives
      the object back. */
  lemma StampedUndoesSave(key: string, a: Attrs, rec: Record)
    requires RoundTrips(a) && SavedEntry(key, a, rec)
    ensures Stamped(rec, a[CreatedAt].t, a[UpdatedAt].t) == a
  {
    DistinctNames();
    var b := Stamped(rec, a[CreatedAt].t, a[UpdatedAt].t);
    StampedContents(rec, a[CreatedAt].t, a[UpdatedAt].t);
    forall n | n in b
      ensures b[n] == a[n]
    {
      if n != CreatedAt && n != UpdatedAt {
        assert rec[n] == Encode(a[n]);
      }
    }
    MapsEqual(b, a);
  }

  /** One object: `from_dict(to_dict(a) + __class__)` gives `a` back. */
  lemma EntryRoundTrip(key: string, a: Attrs)
    requires RoundTrips(a)
    ensures Loadable(SaveEntry(key, a)) && FromDict(SaveEntry(key, a)) == a
  {
    var rec := SaveEntry(key, a);
    SavedEntryLoadable(key, a);
    ParseFormat(a[CreatedAt].t);
    ParseFormat(a[UpdatedAt].t);
    assert Parse(rec[CreatedAt].s).value == a[CreatedAt].t;
    assert Parse(rec[UpdatedAt].s).value == a[UpdatedAt].t;
    StampedUndoesSave(key, a, rec);
    assert FromDict(rec) == Stamped(rec, a[CreatedAt].t, a[UpdatedAt].t);
  }

  /** Whatever `save` writes, `reload` reads without error, and the store it
      builds has exactly the keys that were saved. */
  lemma ReloadReadsWhatSaveWrote(st: State, objects: Store)
    requires Save(st).result.Ok?
    ensures Reload(State(objects, Save(st).state.file)).result.Ok?
    ensures Reload(State(objects, Save(st).state.file)).state.objects.Keys == st.objects.Keys
  {
    var snap := Save(st).state.file.snapshot;
    assert snap == SnapshotOf(st.objects);
    forall k | k in snap
      ensures Loadable(snap[k])
    {
      SavedEntryLoadable(k, st.objects[k]);
    }
  }

  lemma SaveWritesSnapshot(st: State)
    requires AllStampable(st.objects) && AllDumpable(st.objects)
    ensures Save(st) == Step(st.(file := Written(SnapshotOf(st.objects))), Ok(()))
  {
  }

  lemma ReloadLoadsSnapshot(st: State)
    requires st.file.Written? && forall k :: k in st.file.snapshot ==> Loadable(st.file.snapshot[k])
    ensures Reload(st) == Step(st.(objects := LoadSnapshot(st.file.snapshot)), Ok(()))
  {
  }

  /** Every record of the snapshot of a round-trippable store loads back to its
      object. */
  lemma SnapshotRoundTrip(objects: Store)
    requires AllRoundTrip(objects)
    ensures forall k :: k in objects ==> Loadable(SnapshotOf(objects)[k])
    ensures LoadSnapshot(SnapshotOf(objects)) == objects
  {
    var snap := SnapshotOf(objects);
    forall k | k in snap
      ensures Loadable(snap[k])
    {
      EntryRoundTrip(k, objects[k]);
    }
    var loaded := LoadSnapshot(snap);
    forall k | k in loaded
      ensures loaded[k] == objects[k]
    {
      assert snap[k] == SaveEntry(k, objects[k]);
      EntryRoundTrip(k, objects[k]);
    }
    MapsEqual(loaded, objects);
  }

  /** Saving and then reloading gives back the store that was saved, when every
      object round-trips. */
  lemma SaveReloadRoundTrip(st: State)
    requires AllRoundTrip(st.objects)
    ensures Save(st).result.Ok?
    ensures Reload(Save(st).state) == Step(Save(st).state, Ok(()))
    ensures Reload(Save(st).state).state.objects == st.objects
  {
    var snap := SnapshotOf(st.objects);
    SaveWritesSnapshot(st);
    SnapshotRoundTrip(st.objects);
    ReloadLoadsSnapshot(st.(file := Written(snap)));
  }

  /** An empty store saves to an empty JSON object and reloads to an empty store. */
  lemma EmptyStoreRoundTrip(file: File)
    ensures Save(State(map[], file)) == Step(State(map[], Written(map[])), Ok(()))
    ensures Reload(State(map[], Written(map[]))) == Step(State(map[], Written(map[])), Ok(()))
  {
    var saved := Save(State(map[], file));
    assert saved.state.file.snapshot.Keys == {};
  }

  /** Two reloads with no save in between leave memory as the first one did. */
  lemma ReloadIdempotent(st: State)
    ensures Reload(Reload(st).state).state == Reload(st).state
  {
  }

  /** `new`, then `save`, then `reload`: the object is found under its key with
      the attributes it was stored with. */
  lemma NewSaveReload(st: State, className: string, attrs: Attrs)
    requires AllRoundTrip(st.objects) && RoundTrips(attrs) && IdAttr in attrs
    ensures
      var added := New(st, className, attrs).state;
      var key := MakeKey(className, Str(attrs[IdAttr]));
      && Save(added).result.Ok?
      && Reload(Save(added).state).result.Ok?
      && key in Reload(Save(added).state).state.objects
      && Reload(Save(added).state).state.objects[key] == attrs
  {
    var added := New(st, className, attrs).state;
    assert AllRoundTrip(added.objects);
    SaveReloadRoundTrip(added);
  }

  /** Objects of different classes with the same id are stored under different
      keys: after storing both, both are present with their own attributes. */
  lemma SameIdDifferentClasses(st: State, c1: string, a1: Attrs, c2: string, a2: Attrs)
    requires '.' !in c1 && '.' !in c2 && c1 != c2
    requires IdAttr in a1 && IdAttr in a2 && Str(a1[IdAttr]) == Str(a2[IdAttr])
    ensures
      var objects := New(New(st, c1, a1).state, c2, a2).state.objects;
      var k1 := MakeKey(c1, Str(a1[IdAttr]));
      var k2 := MakeKey(c2, Str(a2[IdAttr]));
      && k1 != k2
      && k1 in objects && objects[k1] == a1
      && k2 in objects && objects[k2] == a2
  {
    var id := Str(a1[IdAttr]);
    if MakeKey(c1, id) == MakeKey(c2, id) {
      KeyInjective(c1, id, c2, id);
    }
  }

  /** `save` writes into `__class__` the class name the key was built from. */
  lemma SavedClassName(st: State, className: string, id: string)
    requires '.' !in className && MakeKey(className, id) in st.objects
    requires Save(st).result.Ok?
    ensures Save(st).state.file.snapshot[MakeKey(className, id)][ClassAttr] == JStr(className)
  {
    ClassOfKey(className, id);
  }

  /** After `destroy` has saved, a store that reloads the file does not have the
      object, whatever it held before. */
  lemma DestroyPersists(st: State, className: string, id: string, other: Store)
    requires Destroy(st, className, id).result.Ok?
    ensures Reload(State(other, Destroy(st, className, id).state.file)).result.Ok?
    ensures MakeKey(className, id) !in
      Reload(State(other, Destroy(st, className, id).state.file)).state.objects
  {
    var smaller := st.objects - {MakeKey(className, id)};
    ReloadReadsWhatSaveWrote(State(smaller, st.file), other);
  }

  /** `validate_id` sees an object right after `new` stored it. */
  lemma ValidateAfterNew(st: State, className: string, attrs: Attrs)
    requires IdAttr in attrs
    ensures ValidateId(New(st, className, attrs).state, className, Str(attrs[IdAttr]))
  {
  }

  /** `validate_id` no longer sees an object once `destroy` removed it, even if
      the save that followed raised. */
  lemma ValidateAfterDestroy(st: State, className: string, id: string)
    ensures !ValidateId(Destroy(st, className, id).state, className, id)
  {
  }

  /** `validate_id` answers alike before and after `update`. */
  lemma ValidateAfterUpdate(st: State, attr: string, val: Value, className: string, id: string,
                            now: Timestamp, c: string, i: string)
    ensures ValidateId(Update(st, attr, val, className, id, now).state, c, i) == ValidateId(st, c, i)
  {
  }

  /** `update` of a stored object leaves every other object as it was. */
  lemma UpdateKeepsOthers(st: State, attr: string, val: Value, className: string, id: string,
                          now: Timestamp)
    requires MakeKey(className, id) in st.objects
    ensures
      var objects := Update(st, attr, val, className, id, now).state.objects;
      && objects.Keys == st.objects.Keys
      && forall k :: k in st.objects && k != MakeKey(className, id) ==> objects[k] == st.objects[k]
  {
    var key := MakeKey(className, id);
    var touched := Touch(st.objects[key], attr, val, now);
    assert Update(st, attr, val, className, id, now).state.objects == st.objects[key := touched];
    ReplaceOne(st.objects, key, touched);
  }

  /** `update` of a stored object changes only the attributes it names. */
  lemma UpdateChangesNamed(st: State, attr: string, val: Value, className: string, id: string,
                           now: Timestamp)
    requires MakeKey(className, id) in st.objects
    ensures
      var key := MakeKey(className, id);
      var before := st.objects[key];
      var objects := Update(st, attr, val, className, id, now).state.objects;
      && key in objects
      && objects[key].Keys == before.Keys + {attr, UpdatedAt}
      && objects[key][UpdatedAt] == VTime(now)
      && (attr != UpdatedAt ==> objects[key][attr] == val)
      && (forall n :: n in before && n != attr && n != UpdatedAt ==> objects[key][n] == before[n])
  {
    var key := MakeKey(className, id);
    var touched := Touch(st.objects[key], attr, val, now);
    assert Update(st, attr, val, className, id, now).state.objects[key] == touched;
  }

  lemma ReplaceOne<V>(m: map<string, V>, key: string, v: V)
    requires key in m
    ensures m[key := v].Keys == m.Keys
    ensures forall k :: k in m && k != key ==> m[key := v][k] == m[k]
  {
  }

  /** Replacing `created_at` by a string, as a caller passing text would, leaves
      the object in memory changed but makes the save that follows raise, so
      the file is not rewritten. */
  lemma UpdateCreatedAtWithText(st: State, className: string, id: string, text: string,
                                now: Timestamp)
    requires MakeKey(className, id) in st.objects
    ensures
      var r := Update(st, CreatedAt, VStr(text), className, id, now);
      && r.result == Err(UnformattableTimestamp)
      && r.state.file == st.file
      && r.state.objects[MakeKey(className, id)][CreatedAt] == VStr(text)
  {
    DistinctNames();
  }

  /** An update that keeps the object round-trippable is persisted: reloading
      the file gives the updated object, `updated_at` set to `now`. */
  lemma UpdatePersists(st: State, attr: string, val: Value, className: string, id: string,
                       now: Timestamp)
    requires AllRoundTrip(st.objects) && MakeKey(className, id) in st.objects
    requires attr != ClassAttr && (attr == UpdatedAt || (val.VTime? <==> attr == CreatedAt))
    ensures
      var r := Update(st, attr, val, className, id, now);
      && r.result.Ok?
      && Reload(r.state).state.objects == r.state.objects
      && r.state.objects[MakeKey(className, id)][UpdatedAt] == VTime(now)
  {
    DistinctNames();
    var key := MakeKey(className, id);
    var entry := st.objects[key][attr := val][UpdatedAt := VTime(now)];
    var changed := st.objects[key := entry];
    assert RoundTrips(entry);
    assert AllRoundTrip(changed);
    SaveReloadRoundTrip(State(changed, st.file));
  }
}
