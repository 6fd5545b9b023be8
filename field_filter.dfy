/** The whitelist filter `filterObj(obj, ...allowedFields)` of
    controllers/userController.js: a fresh object holding every entry of
    `obj` whose key is on the allow-list, in `obj`'s own key order. */
module FieldFilter {
  import opened JsValues

  /** Specification of the filter: keep the entries whose key is allowed. */
  function Filter(obj: JsObject, allowed: seq<string>): (r: JsObject)
    ensures forall e :: e in r ==> e in obj && e.0 in allowed
  {
    if obj == [] then []
    else if obj[0].0 in allowed then [obj[0]] + Filter(obj[1..], allowed)
    else Filter(obj[1..], allowed)
  }

  /** `filterObj`: walks the input's keys one by one and copies each allowed
      key, with its value, into a fresh object. The input is a value and
      cannot change. */
  method FilterObj(obj: JsObject, allowed: seq<string>) returns (r: JsObject)
    ensures r == Filter(obj, allowed)
    ensures forall k :: Lookup(r, k) == if k in allowed then Lookup(obj, k) else None
  {
    r := [];
    var i := 0;
    while i < |obj|
      invariant 0 <= i <= |obj|
      invariant r == Filter(obj[..i], allowed)
    {
      var (key, value) := obj[i];
      if key in allowed {
        r := r + [(key, value)];
      }
      FilterAppend(obj[..i], [obj[i]], allowed);
      assert obj[..i + 1] == obj[..i] + [obj[i]];
      i := i + 1;
    }
    assert obj[..i] == obj;
    FilterLookup(obj, allowed);
  }

  /** Filtering distributes over concatenation, so the entry-by-entry loop
      builds the same object as the specification. */
  lemma {:induction false} FilterAppend(a: JsObject, b: JsObject, allowed: seq<string>)
    ensures Filter(a + b, allowed) == Filter(a, allowed) + Filter(b, allowed)
  {
    if a == [] {
      assert a + b == b;
    } else {
      assert (a + b)[0] == a[0];
      assert (a + b)[1..] == a[1..] + b;
      FilterAppend(a[1..], b, allowed);
    }
  }

  /** The result's keys are exactly the input's keys that are on the
      allow-list: nothing outside it, nothing the input lacks, and every
      allowed input key is kept. */
  lemma {:induction false} FilterKeys(obj: JsObject, allowed: seq<string>)
    ensures forall k :: k in KeysOf(Filter(obj, allowed)) <==> k in KeysOf(obj) && k in allowed
  {
    if obj != [] {
      FilterKeys(obj[1..], allowed);
    }
  }

  /** Reading a key from the result gives the input's value for an allowed
      key and nothing for any other key. */
  lemma {:induction false} FilterLookup(obj: JsObject, allowed: seq<string>)
    ensures forall k :: Lookup(Filter(obj, allowed), k) == if k in allowed then Lookup(obj, k) else None
  {
    if obj != [] {
      FilterLookup(obj[1..], allowed);
    }
  }

  /** `r` is obtained from `s` by deleting entries (order is kept). */
  predicate IsSubsequence<T(==)>(r: seq<T>, s: seq<T>)
    decreases |s|
  {
    if r == [] then true
    else if s == [] then false
    else if r[0] == s[0] then IsSubsequence(r[1..], s[1..])
    else IsSubsequence(r, s[1..])
  }

  lemma {:induction false} SubsequenceKeys(r: JsObject, s: JsObject)
    requires IsSubsequence(r, s)
    ensures forall k :: k in KeysOf(r) ==> k in KeysOf(s)
    decreases |s|
  {
    if r != [] {
      if r[0] == s[0] {
        SubsequenceKeys(r[1..], s[1..]);
      } else {
        SubsequenceKeys(r, s[1..]);
      }
    }
  }

  /** The result keeps the input's key order: it is the input with the
      disallowed entries deleted. */
  lemma {:induction false} FilterIsSubsequence(obj: JsObject, allowed: seq<string>)
    ensures IsSubsequence(Filter(obj, allowed), obj)
  {
    if obj != [] {
      FilterIsSubsequence(obj[1..], allowed);
      var r := Filter(obj, allowed);
      if obj[0].0 !in allowed && r != [] {
        assert r[0] in r;
      }
    }
  }

  /** Filtering a well-formed object gives a well-formed object. */
  lemma {:induction false} FilterDistinct(obj: JsObject, allowed: seq<string>)
    requires DistinctKeys(obj)
    ensures DistinctKeys(Filter(obj, allowed))
  {
    if obj != [] {
      FilterDistinct(obj[1..], allowed);
      FilterKeys(obj[1..], allowed);
    }
  }

  /** An independent characterisation: on a well-formed object, the filter's
      result is the ONLY order-preserving selection of entries whose keys are
      exactly the allowed keys of the input. */
  lemma {:induction false} FilterUnique(obj: JsObject, allowed: seq<string>, r: JsObject)
    requires DistinctKeys(obj)
    requires IsSubsequence(r, obj)
    requires forall k :: k in KeysOf(r) <==> k in KeysOf(obj) && k in allowed
    ensures r == Filter(obj, allowed)
  {
    if obj == [] {
      assert r == [];
    } else {
      var e, rest := obj[0], obj[1..];
      assert KeysOf(obj) == [e.0] + KeysOf(rest);
      assert e.0 !in KeysOf(rest);
      if r == [] {
        assert e.0 !in allowed;
        forall k ensures k in KeysOf(r) <==> k in KeysOf(rest) && k in allowed {
          assert k in KeysOf(rest) ==> k in KeysOf(obj);
        }
        FilterUnique(rest, allowed, r);
      } else if r[0] == e {
        SubsequenceKeys(r[1..], rest);
        assert KeysOf(r) == [e.0] + KeysOf(r[1..]);
        assert e.0 in allowed;
        forall k ensures k in KeysOf(r[1..]) <==> k in KeysOf(rest) && k in allowed {
          assert k in KeysOf(r) <==> k in KeysOf(obj) && k in allowed;
        }
        FilterUnique(rest, allowed, r[1..]);
        assert r == [e] + r[1..];
      } else {
        SubsequenceKeys(r, rest);
        assert e.0 !in KeysOf(r);
        forall k ensures k in KeysOf(r) <==> k in KeysOf(rest) && k in allowed {
          assert k in KeysOf(r) <==> k in KeysOf(obj) && k in allowed;
        }
        FilterUnique(rest, allowed, r);
      }
    }
  }

  /** An object whose keys are all allowed passes through unchanged. */
  lemma {:induction false} FilterAllAllowed(obj: JsObject, allowed: seq<string>)
    requires forall k :: k in KeysOf(obj) ==> k in allowed
    ensures Filter(obj, allowed) == obj
  {
    if obj != [] {
      assert obj[0].0 in KeysOf(obj);
      FilterAllAllowed(obj[1..], allowed);
    }
  }

  /** Filtering twice with the same allow-list is filtering once. */
  lemma {:induction false} FilterIdempotent(obj: JsObject, allowed: seq<string>)
    ensures Filter(Filter(obj, allowed), allowed) == Filter(obj, allowed)
  {
    FilterKeys(obj, allowed);
    FilterAllAllowed(Filter(obj, allowed), allowed);
  }
}
