/**
 * Plain JavaScript objects used as dictionaries (`const rooms = {}`): what a
 * property read `obj[key]` yields, and the visiting order of a `for ... in`
 * loop over their keys, left unspecified beyond "each key once".
 */
module Keys {

  /**
   * The names every plain object inherits from `Object.prototype`.  Read on an
   * object that does not hold the name itself, each yields a function (or,
   * for `__proto__`, the prototype object): a truthy value that is no entry.
   */
  const InheritedNames: set<string> := {
    "constructor", "hasOwnProperty", "isPrototypeOf", "propertyIsEnumerable",
    "toLocaleString", "toString", "valueOf", "__defineGetter__",
    "__defineSetter__", "__lookupGetter__", "__lookupSetter__", "__proto__"
  }

  /** What `obj[key]` yields: the object's own entry, an inherited member, or `undefined`. */
  datatype Property<V> = Own(value: V) | Inherited | Undefined

  /**
   * `obj[key]` on a plain object whose own entries are `obj`; the truthiness
   * test `if (obj[key])` passes exactly when the result is not `Undefined`.
   */
  function Get<V>(obj: map<string, V>, key: string): (p: Property<V>)
    ensures p.Own? <==> key in obj
    ensures p.Own? ==> p.value == obj[key]
    ensures p.Inherited? <==> key !in obj && key in InheritedNames
    ensures p.Undefined? <==> key !in obj && key !in InheritedNames
  {
    if key in obj then Own(obj[key]) else if key in InheritedNames then Inherited else Undefined
  }

  /** How a JavaScript handler ended: it returned, or a TypeError escaped it. */
  datatype Outcome = Returned | Threw

  /** Some order over `keys` in which each key appears exactly once. */
  method KeyOrder<K>(keys: set<K>) returns (order: seq<K>)
    ensures forall k :: k in order <==> k in keys
    ensures forall i, j :: 0 <= i < j < |order| ==> order[i] != order[j]
  {
    var pending := keys;
    order := [];
    while pending != {}
      invariant pending <= keys
      invariant forall k :: k in order <==> k in keys && k !in pending
      invariant forall i, j :: 0 <= i < j < |order| ==> order[i] != order[j]
      decreases pending
    {
      var k :| k in pending;
      order := order + [k];
      pending := pending - {k};
    }
  }

  /** The keys listed in `order`. */
  function Elems<K>(order: seq<K>): set<K> {
    if order == [] then {} else Elems(order[..|order| - 1]) + {order[|order| - 1]}
  }

  lemma {:induction false} ElemsMembers<K>(order: seq<K>)
    ensures forall k :: k in Elems(order) <==> k in order
  {
    if order != [] {
      ElemsMembers(order[..|order| - 1]);
      assert order == order[..|order| - 1] + [order[|order| - 1]];
    }
  }
}
