/** The fast path is an optimisation of the full diff: when the new entry's
    keys are the old ones with valid simple modifications applied, both stage
    the same keys. */
module FastPathProofs {
  import opened Ldap
  import opened IndexKeys
  import opened ModifySpec

  /** The modifications of type `t` take the key set `keys` to `after`, one by
      one, each of them valid under the attribute's equality matching rule
      (section 4.6 of RFC 4511). The rule compares values by their normalised
      form, so validity is judged on keys: an ADD names no value matching one
      present, and a DELETE names values, each matching one present at that
      point. A value whose normalisation fails has no key and changes nothing. */
  predicate ValidSimpleMods(normalize: AttributeValue -> Option<Key>, t: AttributeType, keys: set<Key>,
                            mods: seq<Modification>, after: set<Key>)
    decreases |mods|
  {
    if mods == [] then after == keys
    else
      var m := mods[0];
      var kv := KeysOf(normalize, m.attribute.values);
      if !Targets(m, t) then ValidSimpleMods(normalize, t, keys, mods[1..], after)
      else match m.kind
        case Add => kv * keys == {} && ValidSimpleMods(normalize, t, keys + kv, mods[1..], after)
        case Delete => m.attribute.HasValue() && kv <= keys && ValidSimpleMods(normalize, t, keys - kv, mods[1..], after)
        case _ => false
  }

  /** An ADD step moves the staged diff from `ks` to `ks + kv` when `kv` is new. */
  lemma AddStepTracks(k0: set<Key>, ks: set<Key>, kv: set<Key>)
    requires ks * kv == {}
    ensures AddStep(KeyDelta(ks - k0, k0 - ks), kv) == KeyDelta((ks + kv) - k0, k0 - (ks + kv))
  {
    forall x | x in kv
      ensures x !in ks
    {
      assert x !in ks * kv;
    }
  }

  /** A DELETE step moves the staged diff from `ks` to `ks - kv` when `kv` is present. */
  lemma DeleteStepTracks(k0: set<Key>, ks: set<Key>, kv: set<Key>)
    requires kv <= ks
    ensures DeleteStep(KeyDelta(ks - k0, k0 - ks), kv) == KeyDelta((ks - kv) - k0, k0 - (ks - kv))
  {
  }

  /** Invariant of the fast path: after each modification the staged sets are
      the diff between the original keys `k0` and the current keys. */
  lemma {:induction false} FastPathTracksDiff(normalize: AttributeValue -> Option<Key>, t: AttributeType, k0: set<Key>,
                                              ks: set<Key>, mods: seq<Modification>, after: set<Key>)
    requires ValidSimpleMods(normalize, t, ks, mods, after)
    ensures FastPath(normalize, SimpleMods(t, mods), KeyDelta(ks - k0, k0 - ks)) == KeyDelta(after - k0, k0 - after)
    decreases |mods|
  {
    if mods != [] {
      var m, rest := mods[0], mods[1..];
      var kv := KeysOf(normalize, m.attribute.values);
      var d := KeyDelta(ks - k0, k0 - ks);
      if !Targets(m, t) {
        assert SimpleMods(t, mods) == SimpleMods(t, rest);
        FastPathTracksDiff(normalize, t, k0, ks, rest, after);
      } else {
        assert SimpleMods(t, mods) == [m] + SimpleMods(t, rest);
        assert ([m] + SimpleMods(t, rest))[1..] == SimpleMods(t, rest);
        assert FastPath(normalize, SimpleMods(t, mods), d) == FastPath(normalize, SimpleMods(t, rest), Step(normalize, m, d));
        if m.kind == Add {
          AddStepTracks(k0, ks, kv);
          FastPathTracksDiff(normalize, t, k0, ks + kv, rest, after);
        } else {
          DeleteStepTracks(k0, ks, kv);
          FastPathTracksDiff(normalize, t, k0, ks - kv, rest, after);
        }
      }
    }
  }

  /** The central property: when the new keys are the old keys with the
      (valid) modifications applied, the fast path stages exactly what the full
      diff stages. */
  lemma FastPathMatchesFullDiff(normalize: AttributeValue -> Option<Key>, t: AttributeType, before: Option<seq<Attribute>>,
                                after: Option<seq<Attribute>>, mods: seq<Modification>)
    requires ValidSimpleMods(normalize, t, AttributeKeys(normalize, before), mods, AttributeKeys(normalize, after))
    ensures FastPath(normalize, SimpleMods(t, mods), NoKeys) == FullDiff(normalize, before, after, NoKeys)
  {
    var k0 := AttributeKeys(normalize, before);
    assert KeyDelta(k0 - k0, k0 - k0) == NoKeys;
    FastPathTracksDiff(normalize, t, k0, k0, mods, AttributeKeys(normalize, after));
  }

  /** Whichever path a modify request takes, it stages what replacing the old
      entry by the new one stages, provided an eligible request is valid. */
  lemma ModifyMatchesReplace(normalize: AttributeValue -> Option<Key>, t: AttributeType, before: Option<seq<Attribute>>,
                             after: Option<seq<Attribute>>, mods: seq<Modification>)
    requires Eligible(t, before, after, mods) ==>
               ValidSimpleMods(normalize, t, AttributeKeys(normalize, before), mods, AttributeKeys(normalize, after))
    ensures ModifyDelta(normalize, t, before, after, mods, NoKeys) == FullDiff(normalize, before, after, NoKeys)
  {
    if Eligible(t, before, after, mods) {
      FastPathMatchesFullDiff(normalize, t, before, after, mods);
    }
  }

  /** Deleting a value and adding another that matches it (say "Alice", then
      "alice" under case-insensitive matching) is valid and changes no key: both
      paths stage nothing. */
  lemma MatchingReplacementStagesNothing(normalize: AttributeValue -> Option<Key>, t: AttributeType,
                                          v: AttributeValue, w: AttributeValue)
    requires normalize(v).Some? && normalize(v) == normalize(w)
    ensures var before, after := Some([Attribute(t, {}, {v})]), Some([Attribute(t, {}, {w})]);
            var mods := [Modification(Delete, Attribute(t, {}, {v})), Modification(Add, Attribute(t, {}, {w}))];
            ValidSimpleMods(normalize, t, AttributeKeys(normalize, before), mods, AttributeKeys(normalize, after)) &&
            ModifyDelta(normalize, t, before, after, mods, NoKeys) == NoKeys &&
            FullDiff(normalize, before, after, NoKeys) == NoKeys
  {
    var before, after := Some([Attribute(t, {}, {v})]), Some([Attribute(t, {}, {w})]);
    var mods := [Modification(Delete, Attribute(t, {}, {v})), Modification(Add, Attribute(t, {}, {w}))];
    var k := normalize(v).value;
    KeysOfSingleton(normalize, v);
    KeysOfSingleton(normalize, w);
    InstancesKeysOne(normalize, Attribute(t, {}, {v}));
    InstancesKeysOne(normalize, Attribute(t, {}, {w}));
    assert AttributeKeys(normalize, before) == {k} && AttributeKeys(normalize, after) == {k};
    assert mods[1..] == [mods[1]] && mods[1..][1..] == [];
    assert ValidSimpleMods(normalize, t, {k} - {k}, mods[1..], {k});
    FullDiffSameKeys(normalize, before, after);
    ModifyMatchesReplace(normalize, t, before, after, mods);
  }
}
