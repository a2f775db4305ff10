/** What a modify request stages: the eligibility test for the fast path, the
    fast path itself as a left-to-right fold, and the fallback full diff. */
module ModifySpec {
  import opened Ldap
  import opened IndexKeys

  /** `m` modifies the attribute type `t`. */
  predicate Targets(m: Modification, t: AttributeType) {
    m.attribute.attrType == t
  }

  /** An ADD, or a DELETE that names the values it removes. */
  predicate IsSimple(m: Modification) {
    m.kind == Add || (m.kind == Delete && m.attribute.HasValue())
  }

  /** Some instance of the list carries options. */
  predicate AnyHasOptions(attrList: Option<seq<Attribute>>) {
    match attrList
    case None => false
    case Some(attrs) => exists i :: 0 <= i < |attrs| && attrs[i].HasOptions()
  }

  /** Some modification of type `t` carries options. */
  predicate ModsHaveOptions(t: AttributeType, mods: seq<Modification>)
    decreases |mods|
  {
    mods != [] && ((Targets(mods[0], t) && mods[0].attribute.HasOptions()) || ModsHaveOptions(t, mods[1..]))
  }

  /** Every modification of type `t` is simple. */
  predicate OnlySimpleMods(t: AttributeType, mods: seq<Modification>)
    decreases |mods|
  {
    mods == [] || ((Targets(mods[0], t) ==> IsSimple(mods[0])) && OnlySimpleMods(t, mods[1..]))
  }

  /** The fast path may be used: only simple modifications of `t`, and no options anywhere. */
  predicate Eligible(t: AttributeType, before: Option<seq<Attribute>>, after: Option<seq<Attribute>>,
                     mods: seq<Modification>)
  {
    OnlySimpleMods(t, mods) && !AnyHasOptions(before) && !AnyHasOptions(after) && !ModsHaveOptions(t, mods)
  }

  /** The simple modifications of type `t`, in request order. */
  function SimpleMods(t: AttributeType, mods: seq<Modification>): seq<Modification>
    decreases |mods|
  {
    if mods == [] then []
    else (if Targets(mods[0], t) && IsSimple(mods[0]) then [mods[0]] else []) + SimpleMods(t, mods[1..])
  }

  /** The simple modifications are exactly the ADDs and value-carrying DELETEs of `t` in the request. */
  lemma {:induction false} SimpleModsSelects(t: AttributeType, mods: seq<Modification>)
    ensures forall m :: m in SimpleMods(t, mods) <==> m in mods && Targets(m, t) && IsSimple(m)
    decreases |mods|
  {
    if mods != [] {
      SimpleModsSelects(t, mods[1..]);
      assert mods == [mods[0]] + mods[1..];
    }
  }

  /** ADD of `keys`: a key pending deletion is un-deleted, any other key is staged for insertion. */
  function AddStep(d: KeyDelta, keys: set<Key>): KeyDelta {
    KeyDelta(d.addKeys + (keys - d.delKeys), d.delKeys - keys)
  }

  /** DELETE of `keys`: a key pending insertion is un-added, any other key is staged for deletion. */
  function DeleteStep(d: KeyDelta, keys: set<Key>): KeyDelta {
    KeyDelta(d.addKeys - keys, d.delKeys + (keys - d.addKeys))
  }

  /** One modification of the fast path; kinds other than ADD and DELETE change nothing. */
  function Step(normalize: AttributeValue -> Option<Key>, m: Modification, d: KeyDelta): KeyDelta {
    var keys := KeysOf(normalize, m.attribute.values);
    match m.kind
    case Add => AddStep(d, keys)
    case Delete => DeleteStep(d, keys)
    case _ => d
  }

  /** The fast path: the modifications applied one after the other, first to last. */
  function FastPath(normalize: AttributeValue -> Option<Key>, mods: seq<Modification>, d: KeyDelta): KeyDelta
    decreases |mods|
  {
    if mods == [] then d else FastPath(normalize, mods[1..], Step(normalize, mods[0], d))
  }

  /** What a modify request stages: the fast path when eligible, the full diff otherwise. */
  function ModifyDelta(normalize: AttributeValue -> Option<Key>, t: AttributeType, before: Option<seq<Attribute>>,
                       after: Option<seq<Attribute>>, mods: seq<Modification>, d: KeyDelta): KeyDelta
  {
    if Eligible(t, before, after, mods) then FastPath(normalize, SimpleMods(t, mods), d)
    else FullDiff(normalize, before, after, d)
  }

  /** One fast-path step keeps the staged sets disjoint. */
  lemma StepKeepsDisjoint(normalize: AttributeValue -> Option<Key>, m: Modification, d: KeyDelta)
    requires d.Disjoint()
    ensures Step(normalize, m, d).Disjoint()
  {
  }

  /** The whole fast path keeps the staged sets disjoint. */
  lemma {:induction false} FastPathKeepsDisjoint(normalize: AttributeValue -> Option<Key>, mods: seq<Modification>, d: KeyDelta)
    requires d.Disjoint()
    ensures FastPath(normalize, mods, d).Disjoint()
    decreases |mods|
  {
    if mods != [] {
      StepKeepsDisjoint(normalize, mods[0], d);
      FastPathKeepsDisjoint(normalize, mods[1..], Step(normalize, mods[0], d));
    }
  }

  /** Starting from empty sets, a modify request never stages a key both ways, on either path. */
  lemma ModifyDeltaDisjoint(normalize: AttributeValue -> Option<Key>, t: AttributeType, before: Option<seq<Attribute>>,
                            after: Option<seq<Attribute>>, mods: seq<Modification>)
    ensures ModifyDelta(normalize, t, before, after, mods, NoKeys).Disjoint()
  {
    if Eligible(t, before, after, mods) {
      FastPathKeepsDisjoint(normalize, SimpleMods(t, mods), NoKeys);
    } else {
      FullDiffDisjoint(normalize, before, after);
    }
  }

  /** With no options around, modifications of other attribute types stage nothing. */
  lemma UnrelatedModsIgnored(normalize: AttributeValue -> Option<Key>, t: AttributeType, before: Option<seq<Attribute>>,
                             after: Option<seq<Attribute>>, mods: seq<Modification>, d: KeyDelta)
    requires forall i :: 0 <= i < |mods| ==> !Targets(mods[i], t)
    requires !AnyHasOptions(before) && !AnyHasOptions(after)
    ensures ModifyDelta(normalize, t, before, after, mods, d) == d
  {
    NothingTargeted(t, mods);
  }

  /** A request without modifications of `t` has no options, nothing but simple modifications, and no simple ones of `t`. */
  lemma {:induction false} NothingTargeted(t: AttributeType, mods: seq<Modification>)
    requires forall i :: 0 <= i < |mods| ==> !Targets(mods[i], t)
    ensures !ModsHaveOptions(t, mods) && OnlySimpleMods(t, mods) && SimpleMods(t, mods) == []
    decreases |mods|
  {
    if mods != [] {
      assert forall i :: 0 <= i < |mods[1..]| ==> mods[1..][i] == mods[i + 1];
      NothingTargeted(t, mods[1..]);
    }
  }

  /** Deleting values and adding them back in the same request stages nothing. */
  lemma DeleteThenAddCancels(normalize: AttributeValue -> Option<Key>, a: Attribute)
    ensures FastPath(normalize, [Modification(Delete, a), Modification(Add, a)], NoKeys) == NoKeys
  {
    var mods := [Modification(Delete, a), Modification(Add, a)];
    var keys := KeysOf(normalize, a.values);
    var mid := DeleteStep(NoKeys, keys);
    assert mods[1..] == [Modification(Add, a)] && mods[1..][1..] == [];
    calc {
      FastPath(normalize, mods, NoKeys);
      FastPath(normalize, mods[1..], mid);
      FastPath(normalize, [], AddStep(mid, keys));
    }
  }

  /** Adding values and deleting them again in the same request stages nothing. */
  lemma AddThenDeleteCancels(normalize: AttributeValue -> Option<Key>, a: Attribute)
    ensures FastPath(normalize, [Modification(Add, a), Modification(Delete, a)], NoKeys) == NoKeys
  {
    var mods := [Modification(Add, a), Modification(Delete, a)];
    var keys := KeysOf(normalize, a.values);
    var mid := AddStep(NoKeys, keys);
    assert mods[1..] == [Modification(Delete, a)] && mods[1..][1..] == [];
    calc {
      FastPath(normalize, mods, NoKeys);
      FastPath(normalize, mods[1..], mid);
      FastPath(normalize, [], DeleteStep(mid, keys));
    }
  }

  /** Adding one value and deleting another stages the first's key for
      insertion and the second's for deletion. */
  lemma AddOneDeleteAnother(normalize: AttributeValue -> Option<Key>, t: AttributeType, added: AttributeValue, deleted: AttributeValue)
    requires normalize(added).Some? && normalize(deleted).Some? && normalize(added) != normalize(deleted)
    ensures var mods := [Modification(Add, Attribute(t, {}, {added})), Modification(Delete, Attribute(t, {}, {deleted}))];
            FastPath(normalize, SimpleMods(t, mods), NoKeys) == KeyDelta({normalize(added).value}, {normalize(deleted).value})
  {
    var mods := [Modification(Add, Attribute(t, {}, {added})), Modification(Delete, Attribute(t, {}, {deleted}))];
    KeysOfSingleton(normalize, added);
    KeysOfSingleton(normalize, deleted);
    assert mods[1..] == [mods[1]] && mods[1..][1..] == [];
    assert SimpleMods(t, mods[1..]) == [mods[1]];
    assert SimpleMods(t, mods) == mods;
    var mid := Step(normalize, mods[0], NoKeys);
    calc {
      FastPath(normalize, mods, NoKeys);
      FastPath(normalize, mods[1..], mid);
      FastPath(normalize, [], Step(normalize, mods[1], mid));
    }
  }
}
