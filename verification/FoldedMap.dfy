/** The helpers on maps with case-insensitive keys: setKeyValueInMap and getMountOptions. */
module FoldedMaps {
  import opened Common
  import opened Params

  /** A Go map, updated in place. */
  class StringMap {
    var m: map<string, string>

    constructor (m: map<string, string>)
      ensures this.m == m
    {
      this.m := m;
    }
  }

  /** `order` is one of the orders in which `range` may visit the keys of `m`. */
  ghost predicate VisitsKeys(order: seq<string>, m: map<string, string>) {
    forall k :: k in order <==> k in m
  }

  /** The key that is written: the first visited one that matches, else the given one. */
  function WrittenKey(order: seq<string>, key: string): string {
    if order == [] then key
    else if Lower(order[0]) == Lower(key) then order[0]
    else WrittenKey(order[1..], key)
  }

  method SetKeyValueInMap(t: StringMap?, key: string, value: string, order: seq<string>)
    requires t != null ==> VisitsKeys(order, t.m)
    modifies t
    ensures t != null ==> t.m == old(t.m)[WrittenKey(order, key) := value]
  {
    if t == null {
      return;
    }
    for i := 0 to |order|
      invariant t.m == old(t.m)
      invariant WrittenKey(order, key) == WrittenKey(order[i..], key)
    {
      var k := order[i];
      if Lower(k) == Lower(key) {
        t.m := t.m[k := value];
        return;
      }
    }
    t.m := t.m[key := value];
  }

  /** The value of the first visited entry whose key is mountOptions in any casing, or "". */
  function MountOptionsOf(es: seq<Entry>): string {
    if es == [] then ""
    else if Lower(es[0].key) == MOUNT_OPTIONS_FIELD then es[0].value
    else MountOptionsOf(es[1..])
  }

  method GetMountOptions(es: seq<Entry>) returns (options: string)
    ensures options == MountOptionsOf(es)
  {
    for i := 0 to |es|
      invariant MountOptionsOf(es) == MountOptionsOf(es[i..])
    {
      if Lower(es[i].key) == MOUNT_OPTIONS_FIELD {
        return es[i].value;
      }
    }
    options := "";
  }

  /** Whatever the map: the first visited match decides. */
  lemma {:induction false} FirstMatchDecides(order: seq<string>, key: string, i: nat)
    requires i <= |order| && forall j :: 0 <= j < i ==> Lower(order[j]) != Lower(key)
    requires i < |order| ==> Lower(order[i]) == Lower(key)
    ensures WrittenKey(order, key) == if i < |order| then order[i] else key
  {
    if i > 0 {
      FirstMatchDecides(order[1..], key, i - 1);
    }
  }

  lemma {:induction false} FirstMountOptionsDecide(es: seq<Entry>, i: nat)
    requires i <= |es| && forall j :: 0 <= j < i ==> Lower(es[j].key) != "mountoptions"
    requires i < |es| ==> Lower(es[i].key) == "mountoptions"
    ensures MountOptionsOf(es) == if i < |es| then es[i].value else ""
  {
    if i > 0 {
      FirstMountOptionsDecide(es[1..], i - 1);
    }
  }

  // ---------------------------------------------------------------- on maps unique up to case

  lemma {:induction false} WrittenKeyMatches(order: seq<string>, key: string)
    ensures Lower(WrittenKey(order, key)) == Lower(key)
    ensures WrittenKey(order, key) in order
            || (WrittenKey(order, key) == key && forall k :: k in order ==> Lower(k) != Lower(key))
  {
    if order != [] && Lower(order[0]) != Lower(key) {
      WrittenKeyMatches(order[1..], key);
      assert forall k :: k in order <==> k == order[0] || k in order[1..];
    }
  }

  /** Uniqueness up to case survives the update, only the matching entry changes, and every
      visiting order gives the same map. */
  lemma SetKeepsUniqueness(m: map<string, string>, key: string, value: string, order: seq<string>, other: seq<string>)
    requires MapUniqueUpToCase(m) && VisitsKeys(order, m) && VisitsKeys(other, m)
    ensures var m' := m[WrittenKey(order, key) := value];
            && MapUniqueUpToCase(m')
            && (forall k :: k in m && Lower(k) != Lower(key) ==> k in m' && m'[k] == m[k])
            && (forall k :: k in m' && Lower(k) == Lower(key) ==> m'[k] == value)
            && (exists k :: k in m' && Lower(k) == Lower(key))
            && (if exists k :: k in m && Lower(k) == Lower(key) then m'.Keys == m.Keys else m'.Keys == m.Keys + {key})
            && m' == m[WrittenKey(other, key) := value]
  {
    WrittenKeyMatches(order, key);
    WrittenKeyMatches(other, key);
    var w := WrittenKey(order, key);
    var m' := m[w := value];
    assert w in m' && Lower(w) == Lower(key);
  }

  lemma {:induction false} MountOptionsFound(es: seq<Entry>, e: Entry)
    requires UniqueUpToCase(es) && e in es && Lower(e.key) == MOUNT_OPTIONS_FIELD
    ensures MountOptionsOf(es) == e.value
  {
    if es[0] != e {
      var i :| 0 <= i < |es| && es[i] == e;
      assert es[1..][i - 1] == e;
      MountOptionsFound(es[1..], e);
    }
  }

  lemma {:induction false} MountOptionsMissing(es: seq<Entry>)
    requires forall e :: e in es ==> Lower(e.key) != MOUNT_OPTIONS_FIELD
    ensures MountOptionsOf(es) == ""
  {
    if es != [] {
      assert es[0] in es;
      MountOptionsMissing(es[1..]);
    }
  }

  /** What was set under any casing of the mount-options key is what getMountOptions returns, in
      whatever order it visits the map. */
  lemma GetReturnsWhatWasSet(
    m: map<string, string>, key: string, value: string, order: seq<string>, es: seq<Entry>)
    requires MapUniqueUpToCase(m) && VisitsKeys(order, m) && Lower(key) == MOUNT_OPTIONS_FIELD
    requires Enumerates(es, m[WrittenKey(order, key) := value])
    ensures MountOptionsOf(es) == value
  {
    SetKeepsUniqueness(m, key, value, order, order);
    WrittenKeyMatches(order, key);
    var w := WrittenKey(order, key);
    EnumerationIsUnique(es, m[w := value]);
    assert Entry(w, value) in es;
    MountOptionsFound(es, Entry(w, value));
  }

  /** Setting any other key leaves the mount options as they were. */
  lemma {:induction false} OtherKeysKeepMountOptions(
    m: map<string, string>, key: string, value: string, order: seq<string>, before: seq<Entry>, es: seq<Entry>)
    requires MapUniqueUpToCase(m) && VisitsKeys(order, m) && Lower(key) != MOUNT_OPTIONS_FIELD
    requires Enumerates(before, m) && Enumerates(es, m[WrittenKey(order, key) := value])
    ensures MountOptionsOf(es) == MountOptionsOf(before)
  {
    SetKeepsUniqueness(m, key, value, order, order);
    WrittenKeyMatches(order, key);
    var m' := m[WrittenKey(order, key) := value];
    EnumerationIsUnique(before, m);
    EnumerationIsUnique(es, m');
    if e :| e in before && Lower(e.key) == MOUNT_OPTIONS_FIELD {
      assert e.key in m && m'[e.key] == e.value;
      assert Entry(e.key, m'[e.key]) in es;
      MountOptionsFound(before, e);
      MountOptionsFound(es, e);
    } else {
      MountOptionsMissing(before);
      forall e | e in es ensures Lower(e.key) != MOUNT_OPTIONS_FIELD {
        if e.key in m {
          assert Entry(e.key, m[e.key]) in before;
        }
      }
      MountOptionsMissing(es);
    }
  }
}
