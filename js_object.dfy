/**
 The fragment of JavaScript object semantics that the ring configuration code
 relies on: a plain object is a mutable record of own properties; its
 properties are remembered in creation order, and `Object.keys` lists the
 array-index names first, in ascending numeric order, then the other names
 in creation order.
 */
module JsObjects {

  /** The property values the ring configuration uses: numbers, strings and `undefined`. */
  datatype Value = Num(n: real) | Str(s: string) | Undefined

  /** The exceptions the modelled code can raise. */
  datatype JsError = TypeError

  /** A completed call or the exception it raised. */
  datatype Result<T> = Success(value: T) | Failure(error: JsError)

  /** No property name occurs twice. */
  predicate Distinct(names: seq<string>)
  {
    forall i, j :: 0 <= i < j < |names| ==> names[i] != names[j]
  }

  /** The set of names listed in `names`. */
  function NameSet(names: seq<string>): set<string>
  {
    set k | k in names
  }

  /** The names listed by a concatenation are those listed by either part. */
  lemma NameSetAppend(a: seq<string>, b: seq<string>)
    ensures NameSet(a + b) == NameSet(a) + NameSet(b)
  {
  }

  /** Two lists holding the same names, counted with multiplicity, list the same set of names. */
  lemma NameSetMultiset(a: seq<string>, b: seq<string>)
    requires multiset(a) == multiset(b)
    ensures NameSet(a) == NameSet(b)
  {
    forall k ensures k in a <==> k in b {
      assert k in a <==> k in multiset(a);
      assert k in b <==> k in multiset(b);
    }
  }

  // ---------------------------------------------------------------------------
  // Array-index names and the order of `Object.keys`
  // ---------------------------------------------------------------------------

  predicate IsDigit(c: char)
  {
    '0' <= c <= '9'
  }

  /** The number a string of decimal digits denotes (a non-digit counts as 0). */
  function DigitsValue(s: string): nat
  {
    if s == [] then 0
    else
      var c := s[|s| - 1];
      10 * DigitsValue(s[..|s| - 1]) + (if IsDigit(c) then c as int - '0' as int else 0)
  }

  /**
   An array index: the canonical decimal form of an integer from 0 to
   2^32 - 2 ("0", "7", "42", but not "007", "-1" or "4294967295").
   */
  predicate IsArrayIndex(s: string)
  {
    && |s| > 0
    && (forall i :: 0 <= i < |s| ==> IsDigit(s[i]))
    && (s[0] == '0' ==> |s| == 1)
    && DigitsValue(s) < 0xFFFF_FFFF
  }

  /** The array-index names of `names`, in their order there. */
  function Indices(names: seq<string>): (r: seq<string>)
    ensures forall k :: k in r ==> IsArrayIndex(k)
  {
    if names == [] then []
    else
      var k := names[|names| - 1];
      Indices(names[..|names| - 1]) + (if IsArrayIndex(k) then [k] else [])
  }

  /** The other names of `names`, in their order there. */
  function Others(names: seq<string>): (r: seq<string>)
    ensures forall k :: k in r ==> !IsArrayIndex(k)
  {
    if names == [] then []
    else
      var k := names[|names| - 1];
      Others(names[..|names| - 1]) + (if IsArrayIndex(k) then [] else [k])
  }

  /** Splitting a list into its array-index names and the others loses and adds nothing. */
  lemma {:induction false} IndicesOthers(names: seq<string>)
    ensures multiset(Indices(names)) + multiset(Others(names)) == multiset(names)
  {
    if names != [] {
      var init, last := names[..|names| - 1], names[|names| - 1];
      IndicesOthers(init);
      assert names == init + [last];
      if IsArrayIndex(last) {
        assert Indices(names) == Indices(init) + [last] && Others(names) == Others(init);
      } else {
        assert Indices(names) == Indices(init) && Others(names) == Others(init) + [last];
      }
    }
  }

  /** Taking the other names distributes over concatenation. */
  lemma {:induction false} OthersAppend(a: seq<string>, b: seq<string>)
    ensures Others(a + b) == Others(a) + Others(b)
    decreases |b|
  {
    if b != [] {
      var init, last := b[..|b| - 1], b[|b| - 1];
      assert b == init + [last];
      assert (a + b)[..|a + b| - 1] == a + init;
      assert (a + b)[|a + b| - 1] == last;
      OthersAppend(a, init);
    } else {
      assert a + b == a;
    }
  }

  /** A list of array-index names has no other names. */
  lemma {:induction false} OthersOfIndices(names: seq<string>)
    requires forall k :: k in names ==> IsArrayIndex(k)
    ensures Others(names) == []
  {
    if names != [] {
      OthersOfIndices(names[..|names| - 1]);
    }
  }

  /** A list of non-index names is its own list of other names. */
  lemma {:induction false} OthersOfOthers(names: seq<string>)
    requires forall k :: k in names ==> !IsArrayIndex(k)
    ensures Others(names) == names
  {
    if names != [] {
      var init, last := names[..|names| - 1], names[|names| - 1];
      assert names == init + [last];
      assert last in names;
      assert forall k :: k in init ==> k in names;
      OthersOfOthers(init);
    }
  }

  /** Ascending by numeric value. */
  predicate SortedByValue(names: seq<string>)
  {
    forall i, j :: 0 <= i < j < |names| ==> DigitsValue(names[i]) <= DigitsValue(names[j])
  }

  /** Every name of an ascending list is at least its first one. */
  lemma AtLeastFirst(names: seq<string>)
    requires SortedByValue(names) && names != []
    ensures forall m :: m in names ==> DigitsValue(names[0]) <= DigitsValue(m)
  {
    forall m | m in names ensures DigitsValue(names[0]) <= DigitsValue(m) {
      var t :| 0 <= t < |names| && names[t] == m;
    }
  }

  /** A name no greater than every name of an ascending list can go in front of it. */
  lemma SortedCons(k: string, names: seq<string>)
    requires SortedByValue(names)
    requires forall m :: m in names ==> DigitsValue(k) <= DigitsValue(m)
    ensures SortedByValue([k] + names)
  {
    var r := [k] + names;
    forall i, j | 0 <= i < j < |r| ensures DigitsValue(r[i]) <= DigitsValue(r[j]) {
      assert r[j] == names[j - 1];
      if i == 0 {
        assert r[j] in names;
      } else {
        assert r[i] == names[i - 1];
      }
    }
  }

  /** Inserts `k` into an ascending list, keeping it ascending. */
  function Insert(k: string, names: seq<string>): (r: seq<string>)
    requires SortedByValue(names)
    ensures SortedByValue(r) && multiset(r) == multiset(names) + multiset{k}
  {
    if names == [] then [k]
    else if DigitsValue(k) <= DigitsValue(names[0]) then
      AtLeastFirst(names);
      SortedCons(k, names);
      [k] + names
    else
      var first, rest := names[0], Insert(k, names[1..]);
      assert names == [first] + names[1..];
      assert forall m :: m in rest ==> DigitsValue(first) <= DigitsValue(m) by {
        AtLeastFirst(names);
        forall m | m in rest ensures DigitsValue(first) <= DigitsValue(m) {
          assert m in multiset(rest);
          assert m == k || m in multiset(names[1..]);
        }
      }
      SortedCons(first, rest);
      [first] + rest
  }

  /** The names of `names` in ascending numeric order. */
  function SortByValue(names: seq<string>): (r: seq<string>)
    ensures SortedByValue(r) && multiset(r) == multiset(names)
  {
    if names == [] then []
    else
      assert names == [names[0]] + names[1..];
      Insert(names[0], SortByValue(names[1..]))
  }

  /**
   `Object.keys` of an object whose own properties were created in the order
   `created`: the array-index names first, in ascending numeric order, then
   the other names in creation order (`ObjectKeysOrder` states it).
   */
  function ObjectKeys(created: seq<string>): seq<string>
  {
    SortByValue(Indices(created)) + Others(created)
  }

  /**
   `Object.keys` lists every own property once per creation; array-index
   names come before all others and ascend numerically; the other names keep
   their creation order.
   */
  lemma ObjectKeysOrder(created: seq<string>)
    ensures multiset(ObjectKeys(created)) == multiset(created)
    ensures forall i, j :: 0 <= i < j < |ObjectKeys(created)| && IsArrayIndex(ObjectKeys(created)[j]) ==>
              IsArrayIndex(ObjectKeys(created)[i]) && DigitsValue(ObjectKeys(created)[i]) <= DigitsValue(ObjectKeys(created)[j])
    ensures Others(ObjectKeys(created)) == Others(created)
  {
    var sorted, rest := SortByValue(Indices(created)), Others(created);
    IndicesOthers(created);
    assert forall k :: k in sorted ==> IsArrayIndex(k) by {
      forall k | k in sorted ensures IsArrayIndex(k) {
        assert k in multiset(sorted);
      }
    }
    OthersAppend(sorted, rest);
    OthersOfIndices(sorted);
    OthersOfOthers(rest);
    var r := sorted + rest;
    forall i, j | 0 <= i < j < |r| && IsArrayIndex(r[j])
      ensures IsArrayIndex(r[i]) && DigitsValue(r[i]) <= DigitsValue(r[j])
    {
      assert r[i] == sorted[i] && r[j] == sorted[j];
      assert sorted[i] in sorted;
    }
  }

  /** `Object.keys` lists exactly the names that were created. */
  lemma ObjectKeysNames(created: seq<string>)
    ensures NameSet(ObjectKeys(created)) == NameSet(created)
  {
    ObjectKeysOrder(created);
    NameSetMultiset(ObjectKeys(created), created);
  }

  /**
   A plain JavaScript object. `keys` lists its own property names in the
   order they were created (what `Object.keys` is computed from, see
   `ObjectKeys`) and `props` maps each own property to its value.
   */
  class JsObject {
    var keys: seq<string>
    var props: map<string, Value>

    /**
     Every own property was created exactly once. No own property is named
     `__proto__`: neither the literals modelled here nor an assignment makes one.
     */
    ghost predicate Valid()
      reads this
    {
      Distinct(keys) && NameSet(keys) == props.Keys && "__proto__" !in props
    }

    /**
     An object literal `{k1: v1, ..., kn: vn}` with distinct names, created in
     source order. No entry is named `__proto__`: a plain `__proto__:` entry
     creates no property (it sets the prototype when its value is an object
     or `null` and is ignored otherwise), and a computed or shorthand one
     creates an own property, which `Valid` excludes.
     */
    constructor Literal(names: seq<string>, values: map<string, Value>)
      requires Distinct(names) && NameSet(names) == values.Keys && "__proto__" !in values
      ensures Valid() && keys == names && props == values
    {
      keys := names;
      props := values;
    }

    /**
     Property assignment `obj[key] = v`. An existing property keeps its place
     in the creation order and a new one is created last. Assigning a number,
     string or `undefined` to `__proto__` reaches the inherited `__proto__`
     setter, which ignores it: nothing changes.
     */
    method Put(key: string, v: Value)
      requires Valid()
      modifies this
      ensures Valid()
      ensures props == if key == "__proto__" then old(props) else old(props)[key := v]
      ensures keys == if key == "__proto__" || key in old(props) then old(keys) else old(keys) + [key]
    {
      if key != "__proto__" {
        if key !in props {
          keys := keys + [key];
        }
        props := props[key := v];
      }
    }
  }
}
