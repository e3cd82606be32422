# RippleRingRhythm ring configuration, in Dafny

RippleRingRhythm is a browser arcade game in which clicks spawn expanding
rings. This project models the logic of its ring construction in
`scripts/main.js`:

- `BaseRing.prototype.extend(args, newArgs)` copies every own property of
  `newArgs` into `args`, in `Object.keys` order. It changes `args` in place
  and returns that same object.
- The `BaseRing` constructor builds a new defaults record on every call:
  x 0, y 0, initRadius 1, radius 20, strokeColor '#000', strokeWidth '2',
  fillColor 'transparent'. It then merges the caller's arguments over it.
- `WhiteRing(svg, x, y)` is a preset. It passes x, y, radius 20 and
  strokeColor '#08C' to `BaseRing`.

Files:

- `js_object.dfy` (module `JsObjects`): the part of JavaScript object
  semantics that this code uses. A plain object is a class `JsObject` with
  `keys`, its own property names in creation order, and `props`, a map from
  own property name to `Value`. A `Value` is a number, a string or
  `undefined`. `ObjectKeys` is what `Object.keys` returns for a creation
  order: the array-index names ("0", "1", "42", ...) first, in ascending
  numeric order, then the other names in creation order. Object literals
  and property assignment are modelled; assigning a number, string or
  `undefined` to `__proto__` goes to the inherited setter and changes
  nothing.
- `main.dfy` (module `RippleRingRhythm`): `Extend` takes the `Object.keys`
  snapshot of `newArgs` and runs the `forEach` loop over it (`ForEachKey`).
  Both are proved equal to value-level functions: `Override` gives the
  resulting record and `AppendKeys` gives the resulting creation order.
  The file also holds the defaults, the white-ring preset, the two ring
  classes, and lemmas for the empty-override case, idempotence, the
  enumeration order after a merge and the white-ring configuration.

Each ring keeps the merged record as its `config` field. The source keeps
it only in a local variable, from which it draws and animates the ring's
SVG circle. The defaults record is built fresh inside `MergeDefaults`, so
no construction can change what a later one starts from.
`ConsecutiveRings` and `ConsecutiveWhiteRings` state this for two rings
built one after the other.

`Extend`'s contract has no `args != newArgs` precondition, so it covers
the aliased call `extend(a, a)`. A property whose value is `undefined`
still overrides. For example, `WhiteRing(svg)` with no coordinates gets
x and y `undefined`, not the defaults 0; `WhiteRingMerge` holds for every
`Value` of x and y.

`extend` throws a `TypeError` when `newArgs` has an own property named
`hasOwnProperty`: the call `newArgs.hasOwnProperty(key)` at
scripts/main.js:30 then finds that property instead of the inherited
method, and it is not a function. This happens at the first name, before
anything is copied. `Extend` and `MergeDefaults` return `Failure(TypeError)`
exactly in that case. For every other object the test at scripts/main.js:30
holds for each name `Object.keys` listed.

## Model

| member | source | states |
|---|---|---|
| `RippleRingRhythm.BaseRing.Extend` | scripts/main.js:28-35 | fails with a `TypeError`, changing nothing, exactly when `newArgs` has an own `hasOwnProperty`; otherwise returns the very object `args` it was given, which now holds `Override(old args, old newArgs)` and whose creation order is `AppendKeys(old order, Object.keys(old newArgs))`; only `args` changes, and the result is right even when `newArgs` is `args` |
| `RippleRingRhythm.BaseRing.ForEachKey` | scripts/main.js:29-33 | the `forEach` over the names `Object.keys` listed: throws at the first name when `hasOwnProperty` is shadowed, otherwise assigns every listed property of `newArgs` to `args` in list order, keeping `args` a well-formed object |
| `RippleRingRhythm.Override` | scripts/main.js:28-35 | the merged record has exactly the keys of `args` and `newArgs`; every key of `newArgs` takes its `newArgs` value, even one `args` already had; every other key of `args` keeps its value |
| `RippleRingRhythm.AppendKeys` | scripts/main.js:29-31 | the creation order after the assignments starts with the old order unchanged, lists exactly the old names plus the assigned ones, and lists no name twice if the old order did not |
| `JsObjects.ObjectKeysOrder` | scripts/main.js:29 | `Object.keys` lists every own property exactly once; every array-index name comes before every other name, the index names ascend numerically, and the other names keep their creation order |
| `JsObjects.ObjectKeysNames` | scripts/main.js:29 | `Object.keys` lists exactly the own property names |
| `RippleRingRhythm.OthersAppendKeys` | scripts/main.js:29-31 | among names that are not array indices, the assignments keep the old creation order and append the new names in the order they are assigned |
| `RippleRingRhythm.ExtendEnumeration` | scripts/main.js:28-35 | after `extend`, `Object.keys(args)` lists the non-index names of `args` in their old order followed by the non-index names new to `args`, in the order they were created in `newArgs` |
| `RippleRingRhythm.AppendKeysPresent` | scripts/main.js:29-33 | assigning only properties that already exist leaves the creation order unchanged |
| `RippleRingRhythm.OverrideEmpty` | scripts/main.js:29 | an override object with no own properties (so `Object.keys` lists nothing) leaves the record and its creation order unchanged |
| `RippleRingRhythm.ExtendIdempotent` | scripts/main.js:29-33 | merging the same override a second time gives the same record and the same order as merging it once |
| `RippleRingRhythm.OverrideStep` | scripts/main.js:29-32 | one loop iteration: assigning the next property of `newArgs` extends the merge of the properties already copied by exactly that property |
| `JsObjects.JsObject.Put` | scripts/main.js:31 | `args[key] = value` sets that one property; an existing name keeps its place in the creation order, a new name is created last, and names stay distinct; assigning to `__proto__` changes nothing |
| `JsObjects.JsObject.Literal` | scripts/main.js:9-17 | an object literal creates its properties in source order with the given values |
| `RippleRingRhythm.BaseRing.MergeDefaults` | scripts/main.js:9-18 | a new defaults record is built on every call and the caller's arguments are merged over it, without changing the caller's object; it fails with the `TypeError` of `extend` exactly when the arguments have an own `hasOwnProperty` |
| `RippleRingRhythm.BaseRing.constructor` | scripts/main.js:8-18 | a ring's configuration is its arguments merged over the defaults |
| `RippleRingRhythm.WhiteRingMerge` | scripts/main.js:38-45 | the white-ring preset merged over the defaults gives the caller's x and y, radius 20, strokeColor '#08C', initRadius 1, strokeWidth '2' and fillColor 'transparent' |
| `RippleRingRhythm.ObjectKeysNoIndices` | scripts/main.js:29 | an object with no array-index names is listed by `Object.keys` in creation order |
| `RippleRingRhythm.WhiteRingKeyOrder` | scripts/main.js:9-18 | `Object.keys` lists the defaults and the white-ring preset in source order, and every name the preset sets is already a default, so the merged record keeps the defaults' order |
| `RippleRingRhythm.WhiteRing.constructor` | scripts/main.js:38-46 | a white ring's configuration is exactly the white-ring record above |
| `RippleRingRhythm.ConsecutiveRings` | scripts/main.js:8-18 | two rings built in turn each get their own arguments merged over the defaults; the first ring's overrides do not leak into the second, and building the second does not change the first |
| `RippleRingRhythm.ConsecutiveWhiteRings` | scripts/main.js:38-46 | two white rings built in turn each get their own centre and the same preset |

## Left out

- SVG drawing and animation (scripts/main.js:20-25): `svg.circle`, stroke, fill, `move` and `animate().radius(...)` are calls into the SVG.js library, whose behaviour is not visible. The ring's `config` field stands for the record passed to them.
- `Game.init` (scripts/main.js:62-72): SVG surface setup, `svg.set()` collections and the click handler are DOM and library wiring.
- `Game.addWhiteRing` (scripts/main.js:57-60): the construction of the white ring is modelled. Adding it to the `rings` SVG.js set is not, because that set's semantics (duplicates, order) are not visible.
- The `window.game` singleton and the load-event bootstrap (scripts/main.js:75-78) are browser I/O.
- Collision tests, combo scoring, point spawning and timers are not in `scripts/main.js`, so they are not modelled.
- `RippleRingRhythm.BaseRing.constructor`: requires that the arguments have no own `hasOwnProperty`; for those arguments the `TypeError` of `extend` is modelled by `MergeDefaults` and `Extend`, whose failure the constructor would only pass on. Calling `BaseRing` with no arguments, where `Object.keys(undefined)` throws, is not modelled: the only caller, `WhiteRing`, always passes an object.
- `RippleRingRhythm.ConsecutiveRings`: requires the same of both argument objects, for the same reason.
- `JsObjects.JsObject.Literal`: object literals with a repeated name, with a computed or shorthand `__proto__` entry (which creates an own property), or with a plain `__proto__:` entry (which sets the prototype when its value is an object or `null` and is ignored otherwise) are not modelled; the code's two literals have none of these.
- An own data property named `__proto__` is not modelled: `Valid` excludes it. The code's two literals and its assignments never create one; a computed-key or shorthand literal entry, `Object.fromEntries`, `JSON.parse` or `Object.defineProperty` could.
- Numbers are modelled as mathematical reals, not IEEE doubles. The code only copies numbers and never computes with them.
- Properties inherited through the prototype chain, non-enumerable properties, getters and setters other than `__proto__` are not modelled. `Object.keys` never lists inherited or non-enumerable properties, and the objects here are plain literals.
