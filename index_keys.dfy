/** Key sets: what the index holds for a set of values, for a list of
    attribute instances, and the full old/new diff between two such lists. */
module IndexKeys {
  import opened Ldap

  /** The keys of `values`: every value that normalises contributes its key,
      a value whose normalisation fails contributes nothing. */
  function KeysOf(normalize: AttributeValue -> Option<Key>, values: set<AttributeValue>): (r: set<Key>)
    ensures forall v :: v in values && normalize(v).Some? ==> normalize(v).value in r
    ensures forall k :: k in r ==> exists v :: v in values && normalize(v) == Some(k)
  {
    set v | v in values && normalize(v).Some? :: normalize(v).value
  }

  /** The values of all instances together, whatever their options. */
  function ValuesOf(attrs: seq<Attribute>): set<AttributeValue> {
    if attrs == [] then {} else ValuesOf(attrs[..|attrs| - 1]) + attrs[|attrs| - 1].values
  }

  /** The keys of a list of instances, one instance after the other. */
  function InstancesKeys(normalize: AttributeValue -> Option<Key>, attrs: seq<Attribute>): set<Key> {
    if attrs == [] then {}
    else InstancesKeys(normalize, attrs[..|attrs| - 1]) + KeysOf(normalize, attrs[|attrs| - 1].values)
  }

  /** The keys of the (possibly absent) instance list of one attribute type. */
  function AttributeKeys(normalize: AttributeValue -> Option<Key>, attrList: Option<seq<Attribute>>): set<Key> {
    match attrList
    case None => {}
    case Some(attrs) => InstancesKeys(normalize, attrs)
  }

  /** The values of the (possibly absent) instance list of one attribute type. */
  function ListValues(attrList: Option<seq<Attribute>>): set<AttributeValue> {
    match attrList
    case None => {}
    case Some(attrs) => ValuesOf(attrs)
  }

  /** The keys staged for insertion into and deletion from the index. */
  datatype KeyDelta = KeyDelta(addKeys: set<Key>, delKeys: set<Key>)
  {
    predicate Disjoint() { addKeys * delKeys == {} }
  }

  const NoKeys := KeyDelta({}, {})

  /** The full diff: the old keys the new list lacks go to `delKeys`, the new
      keys the old list lacks go to `addKeys`, on top of what `d` holds. */
  function FullDiff(normalize: AttributeValue -> Option<Key>, before: Option<seq<Attribute>>,
                    after: Option<seq<Attribute>>, d: KeyDelta): KeyDelta
  {
    var oldSet := AttributeKeys(normalize, before);
    var newSet := AttributeKeys(normalize, after);
    KeyDelta(d.addKeys + (newSet - oldSet), d.delKeys + (oldSet - newSet))
  }

  lemma KeysOfUnion(normalize: AttributeValue -> Option<Key>, a: set<AttributeValue>, b: set<AttributeValue>)
    ensures KeysOf(normalize, a + b) == KeysOf(normalize, a) + KeysOf(normalize, b)
  {
  }

  lemma KeysOfSingleton(normalize: AttributeValue -> Option<Key>, v: AttributeValue)
    requires normalize(v).Some?
    ensures KeysOf(normalize, {v}) == {normalize(v).value}
  {
  }

  /** A value whose normalisation fails can be dropped without changing the keys. */
  lemma KeysOfSkipsFailure(normalize: AttributeValue -> Option<Key>, values: set<AttributeValue>, v: AttributeValue)
    requires normalize(v).None?
    ensures KeysOf(normalize, values) == KeysOf(normalize, values - {v})
  {
  }

  /** A single instance has the keys of its values. */
  lemma InstancesKeysOne(normalize: AttributeValue -> Option<Key>, a: Attribute)
    ensures InstancesKeys(normalize, [a]) == KeysOf(normalize, a.values)
  {
    assert [a][..0] == [];
  }

  /** Indexing instance by instance gives the keys of all their values merged,
      so option-tagged instances share one key space and duplicates collapse. */
  lemma {:induction false} InstancesKeysMerge(normalize: AttributeValue -> Option<Key>, attrs: seq<Attribute>)
    ensures InstancesKeys(normalize, attrs) == KeysOf(normalize, ValuesOf(attrs))
    decreases |attrs|
  {
    if attrs != [] {
      var init := attrs[..|attrs| - 1];
      InstancesKeysMerge(normalize, init);
      KeysOfUnion(normalize, ValuesOf(init), attrs[|attrs| - 1].values);
    }
  }

  /** A key is in the instances' key set exactly when some value of some instance normalises to it. */
  lemma {:induction false} InstancesKeysMembership(normalize: AttributeValue -> Option<Key>, attrs: seq<Attribute>, k: Key)
    ensures k in InstancesKeys(normalize, attrs) <==>
            exists i, v :: 0 <= i < |attrs| && v in attrs[i].values && normalize(v) == Some(k)
    decreases |attrs|
  {
    if attrs != [] {
      var n := |attrs| - 1;
      var init := attrs[..n];
      InstancesKeysMembership(normalize, init, k);
      if k in InstancesKeys(normalize, attrs) {
        if k in InstancesKeys(normalize, init) {
          var i, v :| 0 <= i < |init| && v in init[i].values && normalize(v) == Some(k);
          assert attrs[i] == init[i];
        } else {
          var v :| v in attrs[n].values && normalize(v) == Some(k);
        }
      } else {
        forall i, v | 0 <= i < |attrs| && v in attrs[i].values
          ensures normalize(v) != Some(k)
        {
          if i < n {
            assert init[i] == attrs[i];
          }
        }
      }
    }
  }

  /** Starting from empty sets, the full diff never stages a key both ways. */
  lemma FullDiffDisjoint(normalize: AttributeValue -> Option<Key>, before: Option<seq<Attribute>>, after: Option<seq<Attribute>>)
    ensures FullDiff(normalize, before, after, NoKeys).Disjoint()
  {
  }

  /** Replacing an instance list by one with the same keys stages nothing. */
  lemma FullDiffSameKeys(normalize: AttributeValue -> Option<Key>, before: Option<seq<Attribute>>, after: Option<seq<Attribute>>)
    requires AttributeKeys(normalize, before) == AttributeKeys(normalize, after)
    ensures FullDiff(normalize, before, after, NoKeys) == NoKeys
  {
  }

  /** Removing every instance stages exactly the old keys for deletion. */
  lemma FullDiffRemoveAll(normalize: AttributeValue -> Option<Key>, before: Option<seq<Attribute>>)
    ensures FullDiff(normalize, before, None, NoKeys) == KeyDelta({}, AttributeKeys(normalize, before))
  {
  }
}
