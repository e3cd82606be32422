/**
 Ring construction in RippleRingRhythm: a ring is configured by merging the
 caller's arguments over a freshly built record of defaults (`extend`), and
 a white ring is the preset that supplies its centre, radius and stroke
 colour. The SVG drawing done with the merged record is not modelled; the
 record itself is kept as the ring's `config`.
 */
module RippleRingRhythm {
  import opened JsObjects

  // ---------------------------------------------------------------------------
  // What `extend` computes, stated on values
  // ---------------------------------------------------------------------------

  /**
   The record `args` after every own property of `newArgs` has been copied
   into it: overridden properties take the new values, the others keep theirs,
   and properties only `newArgs` has are added.
   */
  function Override(args: map<string, Value>, newArgs: map<string, Value>): (r: map<string, Value>)
    ensures r.Keys == args.Keys + newArgs.Keys
    ensures forall k :: k in newArgs ==> r[k] == newArgs[k]
    ensures forall k :: k in args && k !in newArgs ==> r[k] == args[k]
  {
    args + newArgs
  }

  /**
   The enumeration order of `keys` after the properties named in `more` have
   been assigned one after another: names already present keep their place,
   new names are appended in the order they are first assigned.
   */
  function AppendKeys(keys: seq<string>, more: seq<string>): (r: seq<string>)
    ensures |keys| <= |r| && r[..|keys|] == keys
    ensures NameSet(r) == NameSet(keys) + NameSet(more)
    ensures Distinct(keys) ==> Distinct(r)
    decreases |more|
  {
    if more == [] then keys
    else
      var init, k := more[..|more| - 1], more[|more| - 1];
      assert more == init + [k];
      NameSetAppend(init, [k]);
      var acc := AppendKeys(keys, init);
      NameSetAppend(acc, [k]);
      if k in acc then acc else acc + [k]
  }

  /** The part of `m` whose keys are listed in `names`. */
  function Only(m: map<string, Value>, names: seq<string>): (r: map<string, Value>)
  {
    map k | k in m && k in names :: m[k]
  }

  /** Restricting a record to all of its own names gives the record back. */
  lemma OnlyAll(src: map<string, Value>, names: seq<string>)
    requires NameSet(names) == src.Keys
    ensures Only(src, names) == src
  {
  }

  /** Writing back the value a record already holds leaves it unchanged. */
  lemma SameUpdate(m: map<string, Value>, k: string)
    requires k in m
    ensures m[k := m[k]] == m
  {
  }

  /** One more name of `names` copied: the record grows by that property of `src`. */
  lemma OverrideStep(args: map<string, Value>, src: map<string, Value>, names: seq<string>, i: nat)
    requires i < |names| && names[i] in src
    ensures Override(args, Only(src, names[..i]))[names[i] := src[names[i]]]
         == Override(args, Only(src, names[..i + 1]))
  {
  }

  /**
   Loop helper for `Extend`: `AppendKeys` unfolded once at the end of
   `more[..i + 1]`. It restates the definition and is not a property of its own.
   */
  lemma AppendKeysStep(keys: seq<string>, more: seq<string>, i: nat)
    requires i < |more|
    ensures AppendKeys(keys, more[..i + 1])
         == var acc := AppendKeys(keys, more[..i]);
            if more[i] in acc then acc else acc + [more[i]]
  {
    assert more[..i + 1][..i] == more[..i];
  }

  /** Assigning only names that are already present does not change the enumeration order. */
  lemma {:induction false} AppendKeysPresent(keys: seq<string>, more: seq<string>)
    requires NameSet(more) <= NameSet(keys)
    ensures AppendKeys(keys, more) == keys
    decreases |more|
  {
    if more != [] {
      var init := more[..|more| - 1];
      assert NameSet(init) <= NameSet(more) by {
        forall k | k in init ensures k in more {
          var i :| 0 <= i < |init| && init[i] == k;
          assert more[i] == k;
        }
      }
      AppendKeysPresent(keys, init);
      assert more[|more| - 1] in NameSet(more);
    }
  }

  /**
   Copying an empty record changes nothing. A valid object without own
   properties has `keys == []` and `props == map[]`, so with the last clause
   `Extend`'s ensures give back `args` unchanged for such a `newArgs`.
   */
  lemma OverrideEmpty(args: map<string, Value>, keys: seq<string>)
    ensures Override(args, map[]) == args
    ensures AppendKeys(keys, []) == keys
    ensures AppendKeys(keys, ObjectKeys([])) == keys
  {
  }

  /** Merging the same record a second time gives the same record and order as merging it once. */
  lemma ExtendIdempotent(args: map<string, Value>, keys: seq<string>,
                         newArgs: map<string, Value>, newKeys: seq<string>)
    ensures Override(Override(args, newArgs), newArgs) == Override(args, newArgs)
    ensures AppendKeys(AppendKeys(keys, newKeys), newKeys) == AppendKeys(keys, newKeys)
  {
    AppendKeysPresent(AppendKeys(keys, newKeys), newKeys);
  }

  /** A name not an array index is among the other names of a list exactly when it is in the list. */
  lemma InOthers(k: string, names: seq<string>)
    requires !IsArrayIndex(k)
    ensures k in Others(names) <==> k in names
  {
    IndicesOthers(names);
    assert k in names <==> k in multiset(names);
    assert k !in multiset(Indices(names));
  }

  /** Assigning one name, seen among the names that are not array indices. */
  lemma OthersAppendOne(acc: seq<string>, k: string)
    ensures Others(if k in acc then acc else acc + [k])
         == if IsArrayIndex(k) then Others(acc)
            else if k in Others(acc) then Others(acc) else Others(acc) + [k]
  {
    OthersAppend(acc, [k]);
    assert [k][..0] == [];
    if !IsArrayIndex(k) {
      InOthers(k, acc);
    }
  }

  /** Among the names that are not array indices, assigning keeps the old order and appends the new names. */
  lemma {:induction false} OthersAppendKeys(keys: seq<string>, more: seq<string>)
    ensures Others(AppendKeys(keys, more)) == AppendKeys(Others(keys), Others(more))
    decreases |more|
  {
    if more != [] {
      var init, k := more[..|more| - 1], more[|more| - 1];
      assert more == init + [k];
      OthersAppendKeys(keys, init);
      var acc := AppendKeys(keys, init);
      assert AppendKeys(keys, more) == if k in acc then acc else acc + [k];
      OthersAppendOne(acc, k);
      OthersAppend(init, [k]);
      assert [k][..0] == [];
      var others := Others(more);
      if IsArrayIndex(k) {
        assert others == Others(init);
      } else {
        assert others == Others(init) + [k];
        assert others[..|others| - 1] == Others(init);
        var done := AppendKeys(Others(keys), Others(init));
        assert AppendKeys(Others(keys), others) == if k in done then done else done + [k];
      }
    }
  }

  /**
   What `Object.keys` lists after `extend` (up to the array-index names,
   which it always lists first in ascending order): the old names in their
   old order, then the new names in the order they were created in `newArgs`.
   */
  lemma ExtendEnumeration(keys: seq<string>, newKeys: seq<string>)
    ensures Others(ObjectKeys(AppendKeys(keys, ObjectKeys(newKeys))))
         == AppendKeys(Others(keys), Others(newKeys))
  {
    ObjectKeysOrder(AppendKeys(keys, ObjectKeys(newKeys)));
    ObjectKeysOrder(newKeys);
    OthersAppendKeys(keys, ObjectKeys(newKeys));
  }

  // ---------------------------------------------------------------------------
  // The defaults and the white-ring preset
  // ---------------------------------------------------------------------------

  /** The order in which `BaseRing` lists its defaults. */
  const DefaultKeys: seq<string> :=
    ["x", "y", "initRadius", "radius", "strokeColor", "strokeWidth", "fillColor"]

  /** The defaults record built at the start of every `BaseRing` construction. */
  const DefaultArgs: map<string, Value> :=
    map["x" := Num(0.0), "y" := Num(0.0), "initRadius" := Num(1.0), "radius" := Num(20.0),
        "strokeColor" := Str("#000"), "strokeWidth" := Str("2"), "fillColor" := Str("transparent")]

  /** The order in which `WhiteRing` lists its arguments. */
  const WhiteKeys: seq<string> := ["x", "y", "radius", "strokeColor"]

  /** The arguments `WhiteRing(svg, x, y)` passes on to `BaseRing`. */
  function WhiteArgs(x: Value, y: Value): map<string, Value>
  {
    map["x" := x, "y" := y, "radius" := Num(20.0), "strokeColor" := Str("#08C")]
  }

  /** The configuration a white ring at (x, y) is drawn with, written out in full. */
  function WhiteRingConfig(x: Value, y: Value): map<string, Value>
  {
    map["x" := x, "y" := y, "initRadius" := Num(1.0), "radius" := Num(20.0),
        "strokeColor" := Str("#08C"), "strokeWidth" := Str("2"), "fillColor" := Str("transparent")]
  }

  /**
   Merging the white-ring preset over the defaults gives the caller's centre,
   radius 20 and stroke colour '#08C', and keeps the default initial radius,
   stroke width and fill.
   */
  lemma WhiteRingMerge(x: Value, y: Value)
    ensures Override(DefaultArgs, WhiteArgs(x, y)) == WhiteRingConfig(x, y)
  {
  }

  /** A list without array-index names is enumerated by `Object.keys` in creation order. */
  lemma ObjectKeysNoIndices(names: seq<string>)
    requires forall k :: k in names ==> !IsArrayIndex(k)
    ensures ObjectKeys(names) == names
  {
    IndicesOthers(names);
    OthersOfOthers(names);
    assert |Indices(names)| == |multiset(Indices(names))| == 0;
  }

  /**
   The white-ring preset names only defaults, and none of them is an array
   index, so the merged record lists its properties in the defaults' order.
   */
  lemma WhiteRingKeyOrder()
    ensures ObjectKeys(WhiteKeys) == WhiteKeys
    ensures AppendKeys(DefaultKeys, ObjectKeys(WhiteKeys)) == DefaultKeys
    ensures ObjectKeys(DefaultKeys) == DefaultKeys
  {
    forall k | k in DefaultKeys ensures !IsArrayIndex(k) {
      assert !IsDigit(k[0]);
    }
    assert NameSet(WhiteKeys) <= NameSet(DefaultKeys) by {
      assert WhiteKeys[0] == DefaultKeys[0] && WhiteKeys[1] == DefaultKeys[1];
      assert WhiteKeys[2] == DefaultKeys[3] && WhiteKeys[3] == DefaultKeys[4];
    }
    ObjectKeysNoIndices(DefaultKeys);
    ObjectKeysNoIndices(WhiteKeys);
    AppendKeysPresent(DefaultKeys, WhiteKeys);
  }

  // ---------------------------------------------------------------------------
  // Ring construction
  // ---------------------------------------------------------------------------

  /** A ring, configured by merging its arguments over the defaults. */
  class BaseRing {
    /** The merged configuration the ring's SVG circle is drawn and animated with. */
    var config: map<string, Value>

    /**
     `extend(args, newArgs)`: copies every own property of `newArgs` into
     `args`, in `Object.keys` order, changing `args` in place, and returns
     `args` itself. `newArgs` may be `args`. If `newArgs` has an own property
     named `hasOwnProperty`, the call `newArgs.hasOwnProperty(key)` finds that
     property, which is not a function, and throws a `TypeError` before
     anything is copied.
     */
    static method Extend(args: JsObject, newArgs: JsObject) returns (r: Result<JsObject>)
      requires args.Valid() && newArgs.Valid()
      modifies args
      ensures args.Valid()
      ensures r.Failure? <==> "hasOwnProperty" in old(newArgs.props)
      ensures r.Failure? ==> r.error == TypeError && args.props == old(args.props) && args.keys == old(args.keys)
      ensures r.Success? ==> r.value == args
      ensures r.Success? ==> args.props == Override(old(args.props), old(newArgs.props))
      ensures r.Success? ==> args.keys == AppendKeys(old(args.keys), ObjectKeys(old(newArgs.keys)))
    {
      var names := ObjectKeys(newArgs.keys);
      ObjectKeysNames(newArgs.keys);
      r := ForEachKey(args, newArgs, names);
    }

    /**
     The `forEach` of `extend` over the array `names` that `Object.keys`
     returned for `newArgs`: for each name in turn, `newArgs.hasOwnProperty`
     is called and the property is assigned to `args`.
     */
    static method ForEachKey(args: JsObject, newArgs: JsObject, names: seq<string>) returns (r: Result<JsObject>)
      requires args.Valid() && newArgs.Valid() && NameSet(names) == newArgs.props.Keys
      modifies args
      ensures args.Valid()
      ensures r.Failure? <==> "hasOwnProperty" in old(newArgs.props)
      ensures r.Failure? ==> r.error == TypeError && args.props == old(args.props) && args.keys == old(args.keys)
      ensures r.Success? ==> r.value == args
      ensures r.Success? ==> args.props == Override(old(args.props), old(newArgs.props))
      ensures r.Success? ==> args.keys == AppendKeys(old(args.keys), names)
    {
      ghost var src := newArgs.props;
      var i := 0;
      while i < |names|
        invariant 0 <= i <= |names|
        invariant args.Valid()
        invariant newArgs.props == src
        invariant args.props == Override(old(args.props), Only(src, names[..i]))
        invariant args.keys == AppendKeys(old(args.keys), names[..i])
        invariant "hasOwnProperty" in src ==> i == 0
      {
        var key := names[i];
        // An own `hasOwnProperty` shadows `Object.prototype.hasOwnProperty`;
        // calling a number, string or `undefined` throws.
        if "hasOwnProperty" in newArgs.props {
          assert Only(src, names[..0]) == map[];
          return Failure(TypeError);
        }
        AppendKeysStep(old(args.keys), names, i);
        if key in newArgs.props {
          OverrideStep(old(args.props), src, names, i);
          SameUpdate(src, key);
          args.Put(key, newArgs.props[key]);
        }
        i := i + 1;
      }
      assert names[..i] == names;
      OnlyAll(src, names);
      return Success(args);
    }

    /**
     The first part of the `BaseRing` constructor: a new defaults record is
     built and `args` is merged over it. The caller's `args` is not changed.
     The `TypeError` of `extend` propagates.
     */
    static method MergeDefaults(args: JsObject) returns (r: Result<JsObject>)
      requires args.Valid()
      ensures r.Failure? <==> "hasOwnProperty" in args.props
      ensures r.Failure? ==> r.error == TypeError
      ensures r.Success? ==> fresh(r.value) && r.value.Valid()
      ensures r.Success? ==> r.value.props == Override(DefaultArgs, args.props)
      ensures r.Success? ==> r.value.keys == AppendKeys(DefaultKeys, ObjectKeys(args.keys))
    {
      var defaultArgs := new JsObject.Literal(DefaultKeys, DefaultArgs);
      r := Extend(defaultArgs, args);
    }

    /** `new BaseRing(svg, args)`, for arguments on which it does not throw. */
    constructor (args: JsObject)
      requires args.Valid() && "hasOwnProperty" !in args.props
      ensures config == Override(DefaultArgs, args.props)
    {
      var merged := MergeDefaults(args);
      config := merged.value.props;
    }
  }

  /** A ring with the white-ring preset: centre (x, y), radius 20, stroke colour '#08C'. */
  class WhiteRing {
    /** The merged configuration the ring's SVG circle is drawn and animated with. */
    var config: map<string, Value>

    /** `new WhiteRing(svg, x, y)`: builds the preset and runs the `BaseRing` constructor on it. */
    constructor (x: Value, y: Value)
      ensures config == WhiteRingConfig(x, y)
    {
      var args := new JsObject.Literal(WhiteKeys, WhiteArgs(x, y));
      var merged := BaseRing.MergeDefaults(args);
      WhiteRingMerge(x, y);
      config := merged.value.props;
    }
  }

  /**
   Two rings built one after the other: the second ring's configuration
   depends only on its own arguments, whatever the first ring overrode.
   */
  method ConsecutiveRings(first: JsObject, second: JsObject)
      returns (firstConfig: map<string, Value>, secondConfig: map<string, Value>)
    requires first.Valid() && "hasOwnProperty" !in first.props
    requires second.Valid() && "hasOwnProperty" !in second.props
    ensures firstConfig == Override(DefaultArgs, first.props)
    ensures secondConfig == Override(DefaultArgs, second.props)
  {
    var r1 := new BaseRing(first);
    var r2 := new BaseRing(second);
    firstConfig, secondConfig := r1.config, r2.config;
  }

  /** Two white rings built one after the other each get their own centre and the preset. */
  method ConsecutiveWhiteRings(x1: Value, y1: Value, x2: Value, y2: Value)
      returns (firstConfig: map<string, Value>, secondConfig: map<string, Value>)
    ensures firstConfig == WhiteRingConfig(x1, y1)
    ensures secondConfig == WhiteRingConfig(x2, y2)
  {
    var r1 := new WhiteRing(x1, y1);
    var r2 := new WhiteRing(x2, y2);
    firstConfig, secondConfig := r1.config, r2.config;
  }
}
