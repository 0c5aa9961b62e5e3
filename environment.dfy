/**
 * Scopes (environment.hpp, environment.cpp): each scope owns a map from names
 * to values and points to its enclosing scope, or to none for the global
 * scope. Lookup walks outwards along the chain; update writes the local map
 * only.
 */
module Environments {
  import opened Wrappers
  import opened Values

  /** The failure `lookup_value` throws when no scope binds the name. */
  datatype LookupError = UnboundName(key: string)

  /** The binding of `key` in the first of `scopes` that has one, innermost first. */
  function NearestBinding(scopes: seq<map<string, Value>>, key: string): Result<Value, LookupError> {
    if scopes == [] then Err(UnboundName(key))
    else if key in scopes[0] then Ok(scopes[0][key])
    else NearestBinding(scopes[1..], key)
  }

  /**
   * A name is found exactly when some scope binds it, and then the value is
   * the one of the first such scope; otherwise the failure names the key.
   */
  lemma {:induction false} NearestBindingIsFirst(scopes: seq<map<string, Value>>, key: string)
    ensures NearestBinding(scopes, key).Ok? <==> exists i :: 0 <= i < |scopes| && key in scopes[i]
    ensures NearestBinding(scopes, key).Err? ==> NearestBinding(scopes, key) == Err(UnboundName(key))
    ensures forall i :: 0 <= i < |scopes| && key in scopes[i] && (forall j :: 0 <= j < i ==> key !in scopes[j])
              ==> NearestBinding(scopes, key) == Ok(scopes[i][key])
  {
    if scopes != [] && key !in scopes[0] {
      var rest := scopes[1..];
      NearestBindingIsFirst(rest, key);
      if exists i :: 0 <= i < |scopes| && key in scopes[i] {
        var i :| 0 <= i < |scopes| && key in scopes[i];
        assert rest[i - 1] == scopes[i];
      }
      forall i | 0 <= i < |scopes| && key in scopes[i] && (forall j :: 0 <= j < i ==> key !in scopes[j])
        ensures NearestBinding(scopes, key) == Ok(scopes[i][key])
      {
        assert rest[i - 1] == scopes[i];
        forall j | 0 <= j < i - 1 ensures key !in rest[j] {
          assert rest[j] == scopes[j + 1];
        }
      }
    }
  }

  class Environment {
    /** `m_values`. */
    var values: map<string, Value>
    /** `m_parent`, set once by the constructor. */
    const parent: Environment?
    /** The scopes of the chain from this one outwards. */
    ghost const Repr: set<Environment>

    /** The chain of parents is finite and acyclic, and each scope on it is valid. */
    ghost predicate Valid()
      reads this, Repr
      decreases Repr
    {
      && this in Repr
      && (parent == null ==> Repr == {this})
      && (parent != null ==>
            && parent in Repr && this !in parent.Repr
            && Repr == {this} + parent.Repr
            && parent.Valid())
    }

    /** A scope with no bindings of its own, nested in `parentRef` or global when that is null. */
    constructor (parentRef: Environment?)
      requires parentRef != null ==> parentRef.Valid()
      ensures Valid() && values == map[] && parent == parentRef
      ensures parentRef != null ==> Repr == {this} + parentRef.Repr
    {
      values := map[];
      parent := parentRef;
      Repr := if parentRef == null then {this} else {this} + parentRef.Repr;
    }

    /** `is_global()`. */
    predicate IsGlobal() {
      parent == null
    }

    /** The maps of the chain, this scope's first and the global scope's last. */
    ghost function Scopes(): (ms: seq<map<string, Value>>)
      requires Valid()
      reads Repr
      ensures |ms| >= 1 && ms[0] == values
      decreases Repr
    {
      if parent == null then [values] else [values] + parent.Scopes()
    }

    /** Only the global scope is a chain of one. */
    lemma GlobalIsOneScope()
      requires Valid()
      ensures IsGlobal() <==> |Scopes()| == 1
    {
    }

    /**
     * `lookup_value(key)`: the local binding if there is one, else the
     * parent's lookup, else (in the global scope) an unbound-name failure.
     * The C++ returns a reference into the map; the model returns the value.
     */
    function LookupValue(key: string): (r: Result<Value, LookupError>)
      requires Valid()
      reads Repr
      ensures key in values ==> r == Ok(values[key])
      ensures r.Err? ==> r == Err(UnboundName(key))
      decreases Repr
    {
      if key in values then Ok(values[key])
      else if !IsGlobal() then parent.LookupValue(key)
      else Err(UnboundName(key))
    }

    /** Lookup yields the nearest binding along the chain of scopes. */
    lemma {:induction false} LookupIsNearestBinding(key: string)
      requires Valid()
      ensures LookupValue(key) == NearestBinding(Scopes(), key)
      decreases Repr
    {
      if key !in values && parent != null {
        parent.LookupIsNearestBinding(key);
        assert Scopes()[1..] == parent.Scopes();
      }
    }

    /** A lookup fails exactly when no scope of the chain binds the name. */
    lemma LookupFailsWhenUnbound(key: string)
      requires Valid()
      ensures LookupValue(key).Err? <==> forall i :: 0 <= i < |Scopes()| ==> key !in Scopes()[i]
    {
      LookupIsNearestBinding(key);
      NearestBindingIsFirst(Scopes(), key);
    }

    /**
     * `update_value(key, value)`: `m_values[key] = value` on this scope alone.
     * The key is bound to the new value whether or not it was bound before,
     * every other local key keeps its binding, and the enclosing scopes are
     * not written.
     */
    method UpdateValue(key: string, v: Value)
      requires Valid()
      modifies this
      ensures Valid()
      ensures values == old(values)[key := v]
      ensures forall k :: k in values && k != key ==> k in old(values) && values[k] == old(values)[k]
      ensures parent != null ==> parent.Scopes() == old(parent.Scopes())
      ensures Scopes() == [values] + old(Scopes())[1..]
      ensures LookupValue(key) == Ok(v)
      ensures forall k :: k != key ==> LookupValue(k) == old(LookupValue(k))
    {
      values := values[key := v];
    }
  }
}
