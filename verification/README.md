# FileStorage: a Dafny model of the JSON object store

This project models the persistence engine of an AirBnB-clone console,
`FileStorage` in `models/engine/file_storage.py`. The engine keeps every
live object in one process-wide dictionary, `__objects`, keyed by
`<class name>.<id>`. It writes that dictionary to `file.json` and reads it
back.

The model is purely functional:

- A `State` pairs the dictionary (`Store`: key to attribute map) with the
  snapshot file (`File`).
- The file is `Absent`, `Written(snapshot)` or `Unreadable`. `Unreadable`
  covers a dump cut short by an error, text that is not JSON, and JSON of
  another shape.
- Each operation of the class is a function from the state before to a
  `Step`: the state after, plus either the result or the error raised.
- Python does not roll back, so a change made before an exception stays in
  the `Step`. `update` changes memory and then its `save` may raise.
- `datetime.now()` becomes a parameter of `Update`.

Modules:

- `Results`: `Option`, `Result` and a map-extensionality lemma.
- `Decimal`: digit strings, zero padding and `str()` of integers.
- `Timestamps`: `strftime("%Y-%m-%dT%H:%M:%S.%f")` and
  `strptime(..., "%Y-%m-%dT%H:%M:%S.%f")`. `strptime` is modelled with
  CPython's lenient field grammar: one- or two-digit month, day and clock
  fields, a day written with a leading blank, one to six fraction digits,
  and a `t` separator accepted as well as `T`. The two are proved inverse
  on the fixed 26-character layout.
- `Keys`: key construction and `key.split('.')[0]`.
- `Values`: attribute values and the JSON scalars they are written as.
- `FileStorage`: `all`, `new`, `save`, `reload`, `to_dict`, `from_dict`,
  `destroy`, `validate_id` and `update`.
- `StorageProperties`: lemmas relating the operations. They cover the
  save/reload round trip, persistence of `destroy` and `update`, and what
  `validate_id` sees.

Details of the code the model follows:

- `from_dict` always deletes `__class__`. The guard
  `hasattr(new_dict, "__class__")` is true of every dict, so a record
  without `__class__` raises `KeyError` (`MalformedEntry`).
- `all()` reloads first, and then raises `IndexError` (`KeyWithoutDot`) for
  a key without a '.'. Such a key can only come from the file.
- `save` copies the dictionary shallowly, and `to_dict` copies each object
  before replacing its timestamps. Memory is therefore never changed by
  `save`.
- A missing or non-datetime timestamp raises in `to_dict`, before the file
  is opened, so the file is untouched. `json.dump` raising on a datetime in
  another attribute leaves the file truncated (`Unreadable`).

## Model

| member | source | states |
|---|---|---|
| Decimal.NatToString | models/engine/file_storage.py:50 | `str()` of a natural number is a non-empty digit string whose decimal value is the number, with no leading zero unless it is `0` itself |
| Decimal.IntToString | models/engine/file_storage.py:50 | `str()` of an integer starts with '-' exactly when it is negative, and the rest is the digit string of its absolute value, with no leading zero unless it is `0` |
| Decimal.ValueOfPadded | models/engine/file_storage.py:101-104 | a number below 10^w written zero-padded to w digits reads back as the same number |
| Decimal.PaddedOfValue | models/engine/file_storage.py:114-117 | a digit string of length w is the zero-padded rendering of its own value |
| Timestamps.Format | models/engine/file_storage.py:101-104 | the `%Y-%m-%dT%H:%M:%S.%f` rendering is always 26 characters: digits with '-', '-', 'T', ':', ':', '.' at positions 4, 7, 10, 13, 16, 19 |
| Timestamps.Parse | models/engine/file_storage.py:114-117 | a string `strptime` accepts begins with a four-digit year field and '-', and the parsed year is the value of that field |
| Timestamps.SplitJoin | models/engine/file_storage.py:114-117 | joining separator-free fields with accepted separators and splitting again gives the fields back |
| Timestamps.ParseFormat | models/engine/file_storage.py:101-117 | `strptime` of the `strftime` rendering of any valid datetime gives that datetime back |
| Timestamps.FormatParse | models/engine/file_storage.py:101-117 | a 26-character string in the fixed layout that `strptime` accepts is exactly the rendering of the datetime it parses to |
| Keys.MakeKey | models/engine/file_storage.py:53 | `<class>.<id>` is the class name, then '.', then the id |
| Keys.StoredKeyParts | models/engine/file_storage.py:53 | for any class name, `<class>.<id>` is among some keys exactly when one of them is the class name, a '.', and the id, in that order |
| Keys.StoredKeySplits | models/engine/file_storage.py:53 | for a dot-free class name, `<class>.<id>` is among some keys exactly when one of them splits at its first '.' into that class name and that id |
| Keys.ClassPrefix | models/engine/file_storage.py:69-70 | `key.split('.')[0]` is a dot-free prefix of the key, followed by a '.' unless it is the whole key |
| Keys.ClassOfKey | models/engine/file_storage.py:69-70 | for a dot-free class name, the `__class__` that `save` derives from `<class>.<id>` is that class name |
| Keys.KeyInjective | models/engine/file_storage.py:53 | two keys built from dot-free class names are equal only when both the class names and the ids are equal |
| Keys.DottedClassNamesCollide | models/engine/file_storage.py:53 | without dot-free class names, distinct (class, id) pairs can share a key |
| Values.Str | models/engine/file_storage.py:50 | `str()` of a string id is the string itself; of an integer it is the canonical decimal text `IntToString` describes; of a boolean `True` or `False`; of `None` `None`; in those three cases it is non-empty and holds no '.'; of a datetime it is the `TimeToString` text |
| Values.TimeToString | models/engine/file_storage.py:50 | `str()` of a datetime is the `strftime` rendering `save` writes with a blank in place of the 'T': 26 characters, or 19 without the fraction when the microseconds are zero |
| Values.StrIntInjective | models/engine/file_storage.py:50 | distinct integer ids give distinct `str()` texts, so distinct keys |
| Values.Decode | models/engine/file_storage.py:85 | `json.load` never produces a datetime |
| Values.Encode | models/engine/file_storage.py:74 | every non-datetime value has a JSON form, and loading that form gives the value back |
| FileStorage.ToDict | models/engine/file_storage.py:95-106 | when only the timestamps and `__class__` may hold datetimes, the dict `save` hands to `json.dump` holds none |
| FileStorage.SaveEntry | models/engine/file_storage.py:64-74 | the record written for an object has its attributes plus `__class__`, the key's class prefix in `__class__`, both timestamps as formatted strings, and every other attribute in its JSON form |
| FileStorage.SnapshotOf | models/engine/file_storage.py:64-74 | the dictionary handed to `json.dump` has exactly the keys in memory, and each record is the one above for its object |
| FileStorage.Save | models/engine/file_storage.py:58-74 | memory never changes; a missing or non-datetime timestamp fails with the file untouched, exactly when some object lacks one; a datetime elsewhere fails with the file truncated; it succeeds exactly when every object has both timestamps as datetimes and no other datetime, and then the file holds one record per key with the contents above |
| FileStorage.FromDict | models/engine/file_storage.py:108-122 | a loaded object has the record's fields minus `__class__`, both timestamps parsed to datetimes, and every other field decoded |
| FileStorage.LoadSnapshot | models/engine/file_storage.py:89-93 | the dictionary rebuilt from the file has exactly the file's keys, each object built from its record |
| FileStorage.Reload | models/engine/file_storage.py:76-93 | the file is never changed; a missing file changes nothing; an unreadable file raises; a readable file succeeds exactly when every record loads, and then replaces memory with the loaded records, and otherwise raises with memory kept |
| FileStorage.All | models/engine/file_storage.py:26-41 | `all()` leaves memory as `reload` does, passes on its error, and then fails exactly when some key has no '.'; on success it lists exactly the keys in memory |
| FileStorage.New | models/engine/file_storage.py:43-56 | fails, changing nothing, exactly when there is no `id`; otherwise stores the attributes under `<class>.<str(id)>`, keeps every other object and leaves the file alone |
| FileStorage.Destroy | models/engine/file_storage.py:124-136 | an absent key raises with nothing changed; otherwise exactly that key is removed, every other object is kept, and the result is that of saving the smaller store |
| FileStorage.ValidateId | models/engine/file_storage.py:138-142 | for any class name, `validate_id` answers true exactly when some stored key is the class name, a '.', and the id; for a dot-free class name, exactly when some stored key splits at its first '.' into that class name and that id |
| FileStorage.Touch | models/engine/file_storage.py:150-151 | the object after `update` has its old names plus `attr` and `updated_at`; `updated_at` holds `now` (it wins when `attr` is `updated_at`), `attr` holds the new value, every other attribute is kept |
| FileStorage.Update | models/engine/file_storage.py:144-152 | an absent key is a silent no-op; otherwise the store becomes the old store with that one object replaced as `Touch` describes, and the result is that of saving it |
| StorageProperties.SavedEntryLoadable | models/engine/file_storage.py:95-122 | every record `save` writes for an object is one `from_dict` accepts |
| StorageProperties.EntryRoundTrip | models/engine/file_storage.py:95-122 | `from_dict` of the record `save` writes gives the object back, when its only datetimes are the two timestamps and it has no `__class__` attribute |
| StorageProperties.ReloadReadsWhatSaveWrote | models/engine/file_storage.py:58-93 | after a successful `save`, `reload` succeeds from any memory state and rebuilds exactly the saved keys |
| StorageProperties.SnapshotRoundTrip | models/engine/file_storage.py:64-93 | loading the snapshot of a round-trippable store gives that store back |
| StorageProperties.SaveReloadRoundTrip | models/engine/file_storage.py:58-93 | `save` then `reload` succeeds and restores the saved dictionary exactly |
| StorageProperties.EmptyStoreRoundTrip | models/engine/file_storage.py:58-93 | an empty store is saved as an empty JSON object and reloads to an empty store |
| StorageProperties.ReloadIdempotent | models/engine/file_storage.py:76-93 | a second `reload` without an intervening `save` leaves memory as the first did |
| StorageProperties.NewSaveReload | models/engine/file_storage.py:43-93 | when every object round-trips, after `new`, `save` and `reload` the object is found under its key with the attributes it was stored with |
| StorageProperties.SameIdDifferentClasses | models/engine/file_storage.py:43-56 | objects of different dot-free classes with the same id are kept side by side under different keys |
| StorageProperties.SavedClassName | models/engine/file_storage.py:64-70 | the `__class__` written for `<class>.<id>` is the class name |
| StorageProperties.DestroyPersists | models/engine/file_storage.py:124-136 | after a successful `destroy`, reloading the file from any memory state succeeds without the destroyed key |
| StorageProperties.ValidateAfterNew | models/engine/file_storage.py:138-142 | `validate_id` finds an object right after `new` stored it |
| StorageProperties.ValidateAfterDestroy | models/engine/file_storage.py:138-142 | `validate_id` no longer finds an object after `destroy`, even when the save that followed raised |
| StorageProperties.ValidateAfterUpdate | models/engine/file_storage.py:138-142 | `update` never changes what `validate_id` answers |
| StorageProperties.UpdateKeepsOthers | models/engine/file_storage.py:144-152 | `update` of a stored object keeps the same keys and leaves every other object as it was |
| StorageProperties.UpdateChangesNamed | models/engine/file_storage.py:144-152 | `update` of a stored object adds exactly `attr` and `updated_at` to it, sets them, and keeps its other attributes |
| StorageProperties.UpdateCreatedAtWithText | models/engine/file_storage.py:144-152 | updating `created_at` with text changes the object in memory, but the `save` that follows raises and the file stays as it was |
| StorageProperties.UpdatePersists | models/engine/file_storage.py:144-152 | an update of a round-trippable store, other than of `__class__`, that sets a datetime exactly when it sets `created_at` (any value when it sets `updated_at`, which `now` overwrites) is saved, reloads to the updated store, and stamps `updated_at` with `now` |

## Left out

- File I/O, the path `file.json` and JSON text are abstracted by the `File` datatype. A write cut short and text that is not a JSON object of objects are both `Unreadable`.
- FileStorage.All: returns the key set only. The display strings `"[<class>] (<id>) <dict>"` are not modelled because they depend on Python's `repr` of dicts.
- FileStorage.New: takes the class name and the `__dict__` as parameters. `getattr(obj, "id")` can also find a class attribute; only the instance dictionary is consulted here.
- Object identity: `new` stores `obj.__dict__` itself, so later changes to the object show through the store. The model stores values and has no aliasing.
- The class-level sharing of `__objects` among instances is implicit in the single `State`.
- `BaseModel`, its subclasses and UUID generation live outside the engine and are not part of this model.
- Attribute values are strings, integers, booleans, `None` and datetimes. Floats, lists and nested objects are not modelled, so a file holding them counts as `Unreadable`.
- Which exception class a failing operation raises is collapsed into one error per cause. For example, `KeyError` or `AttributeError` from `to_dict` are both `UnformattableTimestamp`.
- Timestamps.Parse: its own contract states only how the year is read. The other fields are pinned down by `Timestamps.ParseFormat` and `Timestamps.FormatParse`, on the fixed 26-character layout that `save` writes; for the lenient layouts the body is the only statement.
- Timestamps.Parse: accepts ASCII digits only. CPython's `\d` also accepts other Unicode decimal digits.
- Timestamps.Format: renders `%Y` with four digits. Some C libraries print fewer digits for years below 1000, which `strptime`, requiring four, would then reject.
- Time zones: datetimes are naive, as `datetime.now()` and `strptime` without `%z` produce.
- FileStorage.New: integers are unbounded, so an integer `id` always has a `str()`. CPython by default refuses to convert an integer of more than 4300 digits to text and raises `ValueError` at `models/engine/file_storage.py` line 50.
- FileStorage.Save: for the same reason, an integer attribute above 4300 digits makes `json.dump` raise at `models/engine/file_storage.py` line 74, after the file was truncated; the model saves it.
- FileStorage.Reload: for the same reason, an integer literal above 4300 digits in the file makes `json.load` raise `ValueError` at `models/engine/file_storage.py` line 85; the model reads it.
- JSON documents with duplicate keys: the later value wins in `json.load`, and the model's maps hold one value per key.
