/** The equality indexer of one attribute type: it computes the index keys of
    a new entry, and the keys to insert and delete when an entry is replaced or modified. */
module EqualityIndexing {
  import opened Ldap
  import opened IndexKeys
  import opened ModifySpec
  import opened FastPathProofs

  class EqualityIndexer {
    /** The attribute type whose values this indexer turns into keys. */
    const attributeType: AttributeType
    /** The equality normalisation of `attributeType`; None when a value cannot be normalised. */
    const normalize: AttributeValue -> Option<Key>

    constructor (attributeType: AttributeType, normalize: AttributeValue -> Option<Key>)
      ensures this.attributeType == attributeType && this.normalize == normalize
    {
      this.attributeType := attributeType;
      this.normalize := normalize;
    }

    /** The name of the index this indexer maintains: the type's name, then `.equality`. */
    function ToString(): (s: string)
      ensures |s| == |attributeType.NameOrOid()| + 9
      ensures s[..|attributeType.NameOrOid()|] == attributeType.NameOrOid()
      ensures s[|attributeType.NameOrOid()|..] == ".equality"
    {
      attributeType.NameOrOid() + ".equality"
    }

    /** The keys of a new entry, added to `keys`; an entry without the type adds nothing. */
    method IndexEntry(entry: Entry, keys: set<Key>) returns (keys': set<Key>)
      ensures keys' == keys + AttributeKeys(normalize, GetAttribute(entry, attributeType))
      ensures GetAttribute(entry, attributeType).None? ==> keys' == keys
    {
      var attrList := GetAttribute(entry, attributeType);
      keys' := keys;
      if attrList.Some? {
        keys' := IndexAttribute(attrList, keys);
      }
    }

    /** For a replaced entry: the old keys the new entry lacks are added to
        `delKeys`, the new keys the old entry lacks to `addKeys`. */
    method ReplaceEntry(oldEntry: Entry, newEntry: Entry, addKeys: set<Key>, delKeys: set<Key>)
      returns (addKeys': set<Key>, delKeys': set<Key>)
      ensures delKeys' == delKeys + (AttributeKeys(normalize, GetAttribute(oldEntry, attributeType))
                                     - AttributeKeys(normalize, GetAttribute(newEntry, attributeType)))
      ensures addKeys' == addKeys + (AttributeKeys(normalize, GetAttribute(newEntry, attributeType))
                                     - AttributeKeys(normalize, GetAttribute(oldEntry, attributeType)))
      ensures addKeys == {} && delKeys == {} ==> addKeys' * delKeys' == {}
    {
      var oldSet := IndexAttribute(GetAttribute(oldEntry, attributeType), {});
      var newSet := IndexAttribute(GetAttribute(newEntry, attributeType), {});
      // Every key of the old set missing from the new one is added to delKeys, and the reverse.
      delKeys' := delKeys + (oldSet - newSet);
      addKeys' := addKeys + (newSet - oldSet);
    }

    /** For a modified entry: the fast path when every modification of the type
        is a simple ADD or DELETE and no options are involved, the full diff otherwise. */
    method ModifyEntry(oldEntry: Entry, newEntry: Entry, mods: seq<Modification>, addKeys: set<Key>, delKeys: set<Key>)
      returns (addKeys': set<Key>, delKeys': set<Key>)
      ensures KeyDelta(addKeys', delKeys') == ModifyDelta(normalize, attributeType, GetAttribute(oldEntry, attributeType),
                                                         GetAttribute(newEntry, attributeType), mods, KeyDelta(addKeys, delKeys))
      ensures addKeys == {} && delKeys == {} ==> addKeys' * delKeys' == {}
      ensures addKeys == {} && delKeys == {} &&
              (Eligible(attributeType, GetAttribute(oldEntry, attributeType), GetAttribute(newEntry, attributeType), mods) ==>
                 ValidSimpleMods(normalize, attributeType, AttributeKeys(normalize, GetAttribute(oldEntry, attributeType)), mods,
                                 AttributeKeys(normalize, GetAttribute(newEntry, attributeType))))
              ==> KeyDelta(addKeys', delKeys') == FullDiff(normalize, GetAttribute(oldEntry, attributeType),
                                                            GetAttribute(newEntry, attributeType), NoKeys)
    {
      var beforeList := GetAttribute(oldEntry, attributeType);
      var afterList := GetAttribute(newEntry, attributeType);

      var hasOptions := ListHasOptions(beforeList);
      var afterHasOptions := ListHasOptions(afterList);
      hasOptions := hasOptions || afterHasOptions;

      var modsHaveOptions, hasOnlySimpleMods, simpleMods := ClassifyMods(mods);
      hasOptions := hasOptions || modsHaveOptions;

      if hasOnlySimpleMods && !hasOptions {
        addKeys', delKeys' := ApplySimpleMods(simpleMods, addKeys, delKeys);
      } else {
        var oldSet := IndexAttribute(beforeList, {});
        var newSet := IndexAttribute(afterList, {});
        delKeys' := delKeys + (oldSet - newSet);
        addKeys' := addKeys + (newSet - oldSet);
      }
      if addKeys == {} && delKeys == {} {
        ModifyDeltaDisjoint(normalize, attributeType, beforeList, afterList, mods);
        if Eligible(attributeType, beforeList, afterList, mods) ==>
             ValidSimpleMods(normalize, attributeType, AttributeKeys(normalize, beforeList), mods, AttributeKeys(normalize, afterList))
        {
          ModifyMatchesReplace(normalize, attributeType, beforeList, afterList, mods);
        }
      }
    }

    /** Whether some instance of the list carries options. */
    method ListHasOptions(attrList: Option<seq<Attribute>>) returns (found: bool)
      ensures found == AnyHasOptions(attrList)
    {
      found := false;
      if attrList.Some? {
        var attrs := attrList.value;
        var i := 0;
        while i < |attrs|
          invariant 0 <= i <= |attrs|
          invariant forall j :: 0 <= j < i ==> !attrs[j].HasOptions()
        {
          if attrs[i].HasOptions() {
            found := true;
            break;
          }
          i := i + 1;
        }
      }
    }

    /** One pass over the modifications of the type: whether any carries
        options, whether all are simple, and the simple ones in order. */
    method ClassifyMods(mods: seq<Modification>) returns (hasOptions: bool, hasOnlySimpleMods: bool, simpleMods: seq<Modification>)
      ensures hasOptions == ModsHaveOptions(attributeType, mods)
      ensures hasOnlySimpleMods == OnlySimpleMods(attributeType, mods)
      ensures simpleMods == SimpleMods(attributeType, mods)
    {
      hasOptions, hasOnlySimpleMods, simpleMods := false, true, [];
      for i := 0 to |mods|
        invariant ModsHaveOptions(attributeType, mods) == (hasOptions || ModsHaveOptions(attributeType, mods[i..]))
        invariant OnlySimpleMods(attributeType, mods) == (hasOnlySimpleMods && OnlySimpleMods(attributeType, mods[i..]))
        invariant SimpleMods(attributeType, mods) == simpleMods + SimpleMods(attributeType, mods[i..])
      {
        var mod := mods[i];
        assert mods[i..][0] == mod && mods[i..][1..] == mods[i + 1..];
        ghost var picked := if Targets(mod, attributeType) && IsSimple(mod) then [mod] else [];
        ghost var simpleBefore := simpleMods;
        ghost var rest := SimpleMods(attributeType, mods[i + 1..]);
        assert SimpleMods(attributeType, mods[i..]) == picked + rest;
        if mod.attribute.attrType == attributeType {
          if mod.attribute.HasOptions() {
            hasOptions := true;
          }
          match mod.kind {
            case Add =>
              simpleMods := simpleMods + [mod];
            case Delete =>
              if !mod.attribute.HasValue() {
                hasOnlySimpleMods := false;
              } else {
                simpleMods := simpleMods + [mod];
              }
            case _ =>
              hasOnlySimpleMods := false;
          }
        }
        assert simpleMods == simpleBefore + picked;
        assert simpleBefore + (picked + rest) == (simpleBefore + picked) + rest;
      }
    }

    /** The fast path: each modification's keys cancel or extend the staged sets, in order. */
    method ApplySimpleMods(simpleMods: seq<Modification>, addKeys: set<Key>, delKeys: set<Key>)
      returns (addKeys': set<Key>, delKeys': set<Key>)
      ensures KeyDelta(addKeys', delKeys') == FastPath(normalize, simpleMods, KeyDelta(addKeys, delKeys))
    {
      addKeys', delKeys' := addKeys, delKeys;
      for i := 0 to |simpleMods|
        invariant FastPath(normalize, simpleMods, KeyDelta(addKeys, delKeys))
                  == FastPath(normalize, simpleMods[i..], KeyDelta(addKeys', delKeys'))
      {
        var mod := simpleMods[i];
        assert simpleMods[i..][1..] == simpleMods[i + 1..];
        var keys := IndexValues(mod.attribute.values, {});
        ghost var d := KeyDelta(addKeys', delKeys');
        assert FastPath(normalize, simpleMods[i..], d) == FastPath(normalize, simpleMods[i + 1..], Step(normalize, mod, d));
        match mod.kind {
          case Add =>
            addKeys', delKeys' := StageAdd(keys, addKeys', delKeys');
          case Delete =>
            addKeys', delKeys' := StageDelete(keys, addKeys', delKeys');
          case _ =>
        }
        assert KeyDelta(addKeys', delKeys') == Step(normalize, mod, d);
      }
    }

    /** ADD, key by key: a key pending deletion is removed from `delKeys`, any other key joins `addKeys`. */
    method StageAdd(keys: set<Key>, addKeys: set<Key>, delKeys: set<Key>) returns (addKeys': set<Key>, delKeys': set<Key>)
      ensures KeyDelta(addKeys', delKeys') == AddStep(KeyDelta(addKeys, delKeys), keys)
    {
      addKeys', delKeys' := addKeys, delKeys;
      var rest := keys;
      while rest != {}
        invariant rest <= keys
        invariant addKeys' == addKeys + ((keys - rest) - delKeys)
        invariant delKeys' == delKeys - (keys - rest)
        decreases rest
      {
        var key :| key in rest;
        if key in delKeys' {
          delKeys' := delKeys' - {key};
        } else {
          addKeys' := addKeys' + {key};
        }
        rest := rest - {key};
      }
    }

    /** DELETE, key by key: a key pending insertion is removed from `addKeys`, any other key joins `delKeys`. */
    method StageDelete(keys: set<Key>, addKeys: set<Key>, delKeys: set<Key>) returns (addKeys': set<Key>, delKeys': set<Key>)
      ensures KeyDelta(addKeys', delKeys') == DeleteStep(KeyDelta(addKeys, delKeys), keys)
    {
      addKeys', delKeys' := addKeys, delKeys;
      var rest := keys;
      while rest != {}
        invariant rest <= keys
        invariant addKeys' == addKeys - (keys - rest)
        invariant delKeys' == delKeys + ((keys - rest) - addKeys)
        decreases rest
      {
        var key :| key in rest;
        if key in addKeys' {
          addKeys' := addKeys' - {key};
        } else {
          delKeys' := delKeys' + {key};
        }
        rest := rest - {key};
      }
    }

    /** The keys of a set of values, added to `keys`; a value that cannot be normalised is skipped. */
    method IndexValues(values: set<AttributeValue>, keys: set<Key>) returns (keys': set<Key>)
      ensures keys' == keys + KeysOf(normalize, values)
    {
      keys' := keys;
      var rest := values;
      while rest != {}
        invariant rest <= values
        invariant keys' == keys + KeysOf(normalize, values - rest)
        decreases rest
      {
        var value :| value in rest;
        assert values - (rest - {value}) == (values - rest) + {value};
        KeysOfUnion(normalize, values - rest, {value});
        match normalize(value) {
          case Some(key) =>
            keys' := keys' + {key};
          case None =>
        }
        rest := rest - {value};
      }
    }

    /** The keys of every instance of the list, added to `keys`; an absent list adds nothing. */
    method IndexAttribute(attrList: Option<seq<Attribute>>, keys: set<Key>) returns (keys': set<Key>)
      ensures keys' == keys + AttributeKeys(normalize, attrList)
    {
      keys' := keys;
      if attrList.None? {
        return;
      }
      var attrs := attrList.value;
      for i := 0 to |attrs|
        invariant keys' == keys + InstancesKeys(normalize, attrs[..i])
      {
        assert attrs[..i + 1][..i] == attrs[..i];
        keys' := IndexValues(attrs[i].values, keys');
      }
      assert attrs[..|attrs|] == attrs;
    }
  }

  /** Two indexers maintain the same index name only when their types have the same name or OID. */
  lemma IndexNamesDistinct(a: EqualityIndexer, b: EqualityIndexer)
    requires a.ToString() == b.ToString()
    ensures a.attributeType.NameOrOid() == b.attributeType.NameOrOid()
  {
    var n, m := a.attributeType.NameOrOid(), b.attributeType.NameOrOid();
    assert |n| == |m|;
    assert n == a.ToString()[..|n|];
  }
}
