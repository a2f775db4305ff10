/** Why the fast path is guarded: for each condition of the eligibility test
    (options, a DELETE without values, REPLACE and INCREMENT), and for each
    validity condition of an ADD and a DELETE, an input where dropping it makes
    the fast path stage something other than the full diff. */
module GuardExamples {
  import opened Ldap
  import opened IndexKeys
  import opened ModifySpec
  import opened FastPathProofs

  /** With options, values are not unique across instances: deleting `v` from
      the plain instance leaves it in the `lang` instance, so its key must stay,
      yet the fast path would stage it for deletion. Applied to the keys of all
      instances merged, the DELETE would remove the key, which is not what the
      new entry holds. */
  lemma OptionsDefeatFastPath(normalize: AttributeValue -> Option<Key>, t: AttributeType, v: AttributeValue, lang: string)
    requires normalize(v).Some?
    ensures var plain, tagged := Attribute(t, {}, {v}), Attribute(t, {lang}, {v});
            var mods := [Modification(Delete, plain)];
            FastPath(normalize, SimpleMods(t, mods), NoKeys) == KeyDelta({}, {normalize(v).value}) &&
            FullDiff(normalize, Some([plain, tagged]), Some([tagged]), NoKeys) == NoKeys &&
            !ValidSimpleMods(normalize, t, AttributeKeys(normalize, Some([plain, tagged])), mods,
                             AttributeKeys(normalize, Some([tagged]))) &&
            !Eligible(t, Some([plain, tagged]), Some([tagged]), mods)
  {
    var plain, tagged := Attribute(t, {}, {v}), Attribute(t, {lang}, {v});
    var mods := [Modification(Delete, plain)];
    KeysOfSingleton(normalize, v);
    assert SimpleMods(t, mods) == mods by { assert mods[1..] == []; }
    assert FastPath(normalize, mods, NoKeys) == FastPath(normalize, [], Step(normalize, mods[0], NoKeys)) by {
      assert mods[1..] == [];
    }
    InstancesKeysOne(normalize, tagged);
    assert [plain, tagged][..1] == [plain];
    InstancesKeysOne(normalize, plain);
    assert Some([plain, tagged]).value[1].HasOptions();
  }

  /** A DELETE without values removes the whole attribute: the fast path would
      stage nothing, the full diff stages every old key for deletion. */
  lemma DeleteAllDefeatsFastPath(normalize: AttributeValue -> Option<Key>, t: AttributeType, v: AttributeValue)
    requires normalize(v).Some?
    ensures var present := Attribute(t, {}, {v});
            var mods := [Modification(Delete, Attribute(t, {}, {}))];
            FastPath(normalize, SimpleMods(t, mods), NoKeys) == NoKeys &&
            FullDiff(normalize, Some([present]), None, NoKeys) == KeyDelta({}, {normalize(v).value}) &&
            !Eligible(t, Some([present]), None, mods)
  {
    var present := Attribute(t, {}, {v});
    var mods := [Modification(Delete, Attribute(t, {}, {}))];
    assert SimpleMods(t, mods) == [] by { assert mods[1..] == []; }
    KeysOfSingleton(normalize, v);
    InstancesKeysOne(normalize, present);
    assert Targets(mods[0], t) && !IsSimple(mods[0]);
  }

  /** A REPLACE sets new values: the fast path has no step for it and would
      stage nothing, the full diff stages the new key and deletes the old. */
  lemma ReplaceDefeatsFastPath(normalize: AttributeValue -> Option<Key>, t: AttributeType, v: AttributeValue, w: AttributeValue)
    requires normalize(v).Some? && normalize(w).Some? && normalize(v) != normalize(w)
    ensures var mods := [Modification(Replace, Attribute(t, {}, {w}))];
            FastPath(normalize, SimpleMods(t, mods), NoKeys) == NoKeys &&
            FullDiff(normalize, Some([Attribute(t, {}, {v})]), Some([Attribute(t, {}, {w})]), NoKeys)
              == KeyDelta({normalize(w).value}, {normalize(v).value}) &&
            !Eligible(t, Some([Attribute(t, {}, {v})]), Some([Attribute(t, {}, {w})]), mods)
  {
    var mods := [Modification(Replace, Attribute(t, {}, {w}))];
    assert SimpleMods(t, mods) == [] by { assert mods[1..] == []; }
    KeysOfSingleton(normalize, v);
    KeysOfSingleton(normalize, w);
    InstancesKeysOne(normalize, Attribute(t, {}, {v}));
    InstancesKeysOne(normalize, Attribute(t, {}, {w}));
    assert Targets(mods[0], t) && !IsSimple(mods[0]);
  }

  /** An ADD of a value already present is refused by the directory; were it
      let through, the eligible request would stage a key the index already holds. */
  lemma InvalidAddDefeatsFastPath(normalize: AttributeValue -> Option<Key>, t: AttributeType, v: AttributeValue)
    requires normalize(v).Some?
    ensures var present := Attribute(t, {}, {v});
            var mods := [Modification(Add, present)];
            Eligible(t, Some([present]), Some([present]), mods) &&
            !ValidSimpleMods(normalize, t, AttributeKeys(normalize, Some([present])), mods,
                             AttributeKeys(normalize, Some([present]))) &&
            ModifyDelta(normalize, t, Some([present]), Some([present]), mods, NoKeys) == KeyDelta({normalize(v).value}, {}) &&
            FullDiff(normalize, Some([present]), Some([present]), NoKeys) == NoKeys
  {
    var present := Attribute(t, {}, {v});
    var mods := [Modification(Add, present)];
    KeysOfSingleton(normalize, v);
    InstancesKeysOne(normalize, present);
    assert SimpleMods(t, mods) == mods by { assert mods[1..] == []; }
    assert FastPath(normalize, mods, NoKeys) == FastPath(normalize, [], Step(normalize, mods[0], NoKeys)) by {
      assert mods[1..] == [];
    }
  }

  /** A DELETE of a value not present is refused by the directory; were it let
      through, the eligible request would stage for deletion a key the index
      does not hold. */
  lemma InvalidDeleteDefeatsFastPath(normalize: AttributeValue -> Option<Key>, t: AttributeType, v: AttributeValue, w: AttributeValue)
    requires normalize(v).Some? && normalize(w).Some? && normalize(v) != normalize(w)
    ensures var present := Attribute(t, {}, {v});
            var mods := [Modification(Delete, Attribute(t, {}, {w}))];
            Eligible(t, Some([present]), Some([present]), mods) &&
            !ValidSimpleMods(normalize, t, AttributeKeys(normalize, Some([present])), mods,
                             AttributeKeys(normalize, Some([present]))) &&
            ModifyDelta(normalize, t, Some([present]), Some([present]), mods, NoKeys) == KeyDelta({}, {normalize(w).value}) &&
            FullDiff(normalize, Some([present]), Some([present]), NoKeys) == NoKeys
  {
    var present := Attribute(t, {}, {v});
    var mods := [Modification(Delete, Attribute(t, {}, {w}))];
    KeysOfSingleton(normalize, v);
    KeysOfSingleton(normalize, w);
    InstancesKeysOne(normalize, present);
    assert SimpleMods(t, mods) == mods by { assert mods[1..] == []; }
    assert FastPath(normalize, mods, NoKeys) == FastPath(normalize, [], Step(normalize, mods[0], NoKeys)) by {
      assert mods[1..] == [];
    }
  }

  /** Validity must be judged by the matching rule, not byte by byte: with two
      distinct values of one normalised form (say "Alice" and "alice" under
      case-insensitive matching), adding the second while the first is present
      is refused, as the value already exists. Were it let through, the fast
      path would stage a key the index already holds. */
  lemma CollidingValuesDefeatFastPath(normalize: AttributeValue -> Option<Key>, t: AttributeType, v: AttributeValue, w: AttributeValue)
    requires v != w && normalize(v).Some? && normalize(v) == normalize(w)
    ensures var mods := [Modification(Add, Attribute(t, {}, {w}))];
            Eligible(t, Some([Attribute(t, {}, {v})]), Some([Attribute(t, {}, {v, w})]), mods) &&
            !ValidSimpleMods(normalize, t, AttributeKeys(normalize, Some([Attribute(t, {}, {v})])), mods,
                             AttributeKeys(normalize, Some([Attribute(t, {}, {v, w})]))) &&
            ModifyDelta(normalize, t, Some([Attribute(t, {}, {v})]), Some([Attribute(t, {}, {v, w})]), mods, NoKeys)
              == KeyDelta({normalize(v).value}, {}) &&
            FullDiff(normalize, Some([Attribute(t, {}, {v})]), Some([Attribute(t, {}, {v, w})]), NoKeys) == NoKeys
  {
    var before, after := Attribute(t, {}, {v}), Attribute(t, {}, {v, w});
    var mods := [Modification(Add, Attribute(t, {}, {w}))];
    assert mods[1..] == [];
    KeysOfSingleton(normalize, v);
    KeysOfSingleton(normalize, w);
    KeysOfUnion(normalize, {v}, {w});
    assert {v} + {w} == {v, w};
    InstancesKeysOne(normalize, before);
    InstancesKeysOne(normalize, after);
    assert SimpleMods(t, mods) == mods;
    assert FastPath(normalize, mods, NoKeys) == FastPath(normalize, [], Step(normalize, mods[0], NoKeys));
    assert !ModsHaveOptions(t, mods) && OnlySimpleMods(t, mods);
    assert !before.HasOptions() && !after.HasOptions();
    assert Eligible(t, Some([before]), Some([after]), mods);
  }
}
