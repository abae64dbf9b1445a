/** Store keys `<class name>.<id>` and how file_storage.py takes them apart. */
module Keys {

  /** The key `new`, `destroy`, `validate_id` and `update` look up. */
  function MakeKey(className: string, id: string): (key: string)
    ensures |key| == |className| + 1 + |id|
    ensures key[..|className|] == className && key[|className|] == '.'
    ensures key[|className| + 1..] == id
  {
    className + "." + id
  }

  /** `key.split('.')[0]`: the text before the first '.', or the whole key when it
      has none. `save` writes this into the `__class__` entry. */
  function ClassPrefix(key: string): (p: string)
    ensures |p| <= |key| && p == key[..|p|]
    ensures '.' !in p
    ensures |p| == |key| || key[|p|] == '.'
  {
    if key == [] || key[0] == '.' then []
    else [key[0]] + ClassPrefix(key[1..])
  }

  /** The class prefix of a key recovers the class name it was built from,
      when that name has no '.'. */
  lemma ClassOfKey(className: string, id: string)
    requires '.' !in className
    ensures ClassPrefix(MakeKey(className, id)) == className
  {
    var key := MakeKey(className, id);
    var p := ClassPrefix(key);
    assert key[|className|] == '.';
    assert p == key[..|className|] == className;
  }

  /** Keys built from dot-free class names never collide: equal keys come from
      the same class name and the same id. */
  lemma KeyInjective(c1: string, id1: string, c2: string, id2: string)
    requires '.' !in c1 && '.' !in c2
    requires MakeKey(c1, id1) == MakeKey(c2, id2)
    ensures c1 == c2 && id1 == id2
  {
    ClassOfKey(c1, id1);
    ClassOfKey(c2, id2);
    var key := MakeKey(c1, id1);
    assert id1 == key[|c1| + 1..];
    assert id2 == key[|c2| + 1..];
  }

  /** For a dot-free class name, a set holds the key built from it and `id`
      exactly when some key in the set splits at its first '.' into that class
      name and that id. */
  /** `<class>.<id>` is among some keys exactly when one of them consists of
      the class name, a '.', and the id, whatever characters the class name
      holds. */
  lemma StoredKeyParts(keys: set<string>, className: string, id: string)
    ensures MakeKey(className, id) in keys <==>
      exists k :: k in keys && |k| == |className| + 1 + |id| &&
                  k[..|className|] == className && k[|className|] == '.' &&
                  k[|className| + 1..] == id
  {
    var key := MakeKey(className, id);
    if k :| k in keys && |k| == |className| + 1 + |id| &&
            k[..|className|] == className && k[|className|] == '.' &&
            k[|className| + 1..] == id {
      assert k == k[..|className|] + [k[|className|]] + k[|className| + 1..];
      assert k == key;
    }
  }

  lemma StoredKeySplits(keys: set<string>, className: string, id: string)
    requires '.' !in className
    ensures MakeKey(className, id) in keys <==>
      exists k :: k in keys && ClassPrefix(k) == className &&
                  |k| > |className| && k[|className| + 1..] == id
  {
    var key := MakeKey(className, id);
    if key in keys {
      ClassOfKey(className, id);
    }
    if k :| k in keys && ClassPrefix(k) == className &&
            |k| > |className| && k[|className| + 1..] == id {
      assert k[|className|] == '.';
      assert k == k[..|className|] + [k[|className|]] + k[|className| + 1..];
      assert k == key;
    }
  }

  /** Without the dot-free condition two different (class, id) pairs can share a key. */
  lemma DottedClassNamesCollide()
    ensures MakeKey("A.B", "C") == MakeKey("A", "B.C")
  {
  }
}
