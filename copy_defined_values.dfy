/**
 * `copyDefinedValues(current, incoming)`: copies onto `current`, key by key,
 * every property of `incoming` whose value is not `undefined`.
 */
module DefinedValues {

  /** The JavaScript values a record property holds in this app. */
  datatype JsValue =
    | JsUndefined
    | JsNull
    | JsNumber(n: int)
    | JsString(s: string)
    | JsBool(b: bool)
    | JsDate(time: int)
    | JsNumbers(ns: seq<int>)

  /** A plain JavaScript object, given by its own enumerable properties, keyed by K. */
  class JsObject<K(==)> {
    var props: map<K, JsValue>

    constructor (props: map<K, JsValue>)
      ensures this.props == props
    {
      this.props := props;
    }
  }

  /** The properties of m whose keys are in ks. */
  function Restrict<K(==)>(m: map<K, JsValue>, ks: set<K>): map<K, JsValue>
  {
    map k | k in m && k in ks :: m[k]
  }

  /** The properties `current` holds once every defined property of `incoming` has been copied onto it. */
  function Merged<K(==)>(current: map<K, JsValue>, incoming: map<K, JsValue>): (r: map<K, JsValue>)
    // a defined incoming value wins
    ensures forall k :: k in incoming && incoming[k] != JsUndefined ==> k in r && r[k] == incoming[k]
    // an undefined incoming value, or a key incoming lacks, keeps what current had
    ensures forall k :: k in current && (k !in incoming || incoming[k] == JsUndefined) ==> k in r && r[k] == current[k]
    // no other key appears
    ensures forall k :: k in r ==> k in current || (k in incoming && incoming[k] != JsUndefined)
  {
    map k | k in current.Keys + incoming.Keys && (k in current || incoming[k] != JsUndefined) ::
      if k in incoming && incoming[k] != JsUndefined then incoming[k] else current[k]
  }

  /** Merged is the one map with its keys and values. */
  lemma MergedByKeys<K>(current: map<K, JsValue>, incoming: map<K, JsValue>, m: map<K, JsValue>)
    requires forall k :: k in m <==> k in current || (k in incoming && incoming[k] != JsUndefined)
    requires forall k :: k in m ==> m[k] == if k in incoming && incoming[k] != JsUndefined then incoming[k] else current[k]
    ensures Merged(current, incoming) == m
  {
  }

  /** Copying the same incoming object a second time changes nothing more. */
  lemma MergedIdempotent<K>(current: map<K, JsValue>, incoming: map<K, JsValue>)
    ensures Merged(Merged(current, incoming), incoming) == Merged(current, incoming)
  {
    var once := Merged(current, incoming);
    var twice := Merged(once, incoming);
    assert forall k :: k in twice <==> k in once;
    assert forall k :: k in twice ==> twice[k] == once[k];
  }

  /** Copying an object onto itself changes nothing. */
  lemma MergedSelf<K>(m: map<K, JsValue>)
    ensures Merged(m, m) == m
  {
    assert forall k :: k in Merged(m, m) <==> k in m;
  }

  /** Copying the part of incoming over ks, then one more key, is copying the part over ks + {key}. */
  lemma MergedStep<K>(current: map<K, JsValue>, incoming: map<K, JsValue>, ks: set<K>, key: K)
    requires key in incoming
    ensures Merged(current, Restrict(incoming, ks + {key}))
         == if incoming[key] != JsUndefined
            then Merged(current, Restrict(incoming, ks))[key := incoming[key]]
            else Merged(current, Restrict(incoming, ks))
  {
    var before := Merged(current, Restrict(incoming, ks));
    var after := Merged(current, Restrict(incoming, ks + {key}));
    var expected := if incoming[key] != JsUndefined then before[key := incoming[key]] else before;
    assert forall k :: k in after <==> k in expected;
    assert forall k :: k in after ==> after[k] == expected[k];
  }

  /**
   * The loop over `Object.keys(incoming)`. Keys are visited in an arbitrary
   * order; the result does not depend on it, and an `incoming` that is the
   * same object as `current` comes out unchanged as well.
   */
  method CopyDefinedValues<K(==)>(current: JsObject<K>, incoming: JsObject<K>)
    modifies current
    ensures current.props == Merged(old(current.props), old(incoming.props))
    ensures incoming.props == old(incoming.props)
  {
    ghost var start := current.props;
    ghost var source := incoming.props;
    if current == incoming {
      MergedSelf(source);
    }
    var keys := incoming.props.Keys;
    ghost var done: set<K> := {};
    assert Restrict(source, done) == map[];
    assert Merged(start, map[]) == start;
    while keys != {}
      invariant keys + done == source.Keys && keys !! done
      invariant incoming.props == source
      invariant current.props == Merged(start, Restrict(source, done))
      invariant current == incoming ==> current.props == start
      decreases keys
    {
      var key :| key in keys;
      MergedStep(start, source, done, key);
      if incoming.props[key] != JsUndefined {
        if current == incoming {
          assert current.props[key := incoming.props[key]] == current.props;
        }
        current.props := current.props[key := incoming.props[key]];
      }
      keys := keys - {key};
      done := done + {key};
    }
    assert Restrict(source, done) == source;
  }
}
