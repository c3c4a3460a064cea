/**
 * Configuration values and the two lodash merges the feature core relies on:
 * `defaults` (shallow, first source to define a key wins) and `defaultsDeep`
 * (recursive into plain objects, first source to define a leaf wins).
 */
module Values {

  /** A JSON-like configuration value: a scalar (number, string, boolean, null, kept as its
      text) or a plain object. */
  datatype Value = Atom(text: string) | Obj(fields: map<string, Value>)

  /** `defaults({}, ...sources)`: every key of every source, valued by the first source
      that defines it (see `DefaultsFirstWins`). */
  function Defaults<V>(sources: seq<map<string, V>>): map<string, V> {
    if sources == [] then map[] else Defaults(sources[1..]) + sources[0]
  }

  /** A key is in `defaults` exactly when some source defines it, and then it has the value
      of the first source that does. */
  lemma {:induction false} DefaultsFirstWins<V>(sources: seq<map<string, V>>, k: string)
    ensures k in Defaults(sources) <==> exists i :: 0 <= i < |sources| && k in sources[i]
    ensures forall i :: (0 <= i < |sources| && k in sources[i] && (forall j :: 0 <= j < i ==> k !in sources[j]))
                        ==> Defaults(sources)[k] == sources[i][k]
  {
    if sources != [] {
      var tail := sources[1..];
      DefaultsFirstWins(tail, k);
      assert forall i :: 1 <= i < |sources| ==> sources[i] == tail[i - 1];
      if k !in sources[0] {
        forall i | 0 <= i < |sources| && k in sources[i]
          ensures exists i' :: 0 <= i' < |tail| && k in tail[i']
        {
          assert k in tail[i - 1];
        }
      }
    }
  }

  /** With two sources, the first overlays the second. */
  lemma DefaultsOfTwo<V>(a: map<string, V>, b: map<string, V>)
    ensures Defaults([a, b]) == b + a
  {
    assert [a, b][1..] == [b];
    assert [b][1..] == [];
    assert Defaults([b]) == map[] + b == b;
  }

  /** With three sources, each overlays the ones after it. */
  lemma DefaultsOfThree<V>(a: map<string, V>, b: map<string, V>, c: map<string, V>)
    ensures Defaults([a, b, c]) == (c + b) + a
  {
    assert [a, b, c][1..] == [b, c];
    DefaultsOfTwo(b, c);
  }

  /** `defaultsDeep({}, hi, lo)`: `hi` overlaid on `lo`. A key of `hi` keeps its value,
      except that where both sides hold plain objects the two are merged the same way. */
  function DefaultsDeep(hi: map<string, Value>, lo: map<string, Value>): (r: map<string, Value>)
    ensures r.Keys == hi.Keys + lo.Keys
    ensures forall k :: k in lo && k !in hi ==> r[k] == lo[k]
    ensures forall k :: k in hi && !(k in lo && hi[k].Obj? && lo[k].Obj?) ==> r[k] == hi[k]
    ensures forall k :: k in hi && k in lo && hi[k].Obj? && lo[k].Obj? ==>
      r[k] == Obj(DefaultsDeep(hi[k].fields, lo[k].fields))
    ensures forall k :: k in hi && k in lo && hi[k].Obj? && lo[k].Obj? ==>
      r[k].fields.Keys == hi[k].fields.Keys + lo[k].fields.Keys
    decreases Obj(hi)
  {
    map k | k in hi.Keys + lo.Keys ::
      if k in hi then
        if k in lo && hi[k].Obj? && lo[k].Obj? then Obj(DefaultsDeep(hi[k].fields, lo[k].fields))
        else hi[k]
      else lo[k]
  }

  /** Every leaf of `hi` is found, unchanged, at the same path of `r`. */
  ghost predicate Overrides(r: map<string, Value>, hi: map<string, Value>)
    decreases Obj(hi)
  {
    forall k :: k in hi ==>
      && k in r
      && if hi[k].Obj? && r[k].Obj? then Overrides(r[k].fields, hi[k].fields) else r[k] == hi[k]
  }

  /** Every path of `lo` is still a path of `r` (its leaves may have been overridden). */
  ghost predicate KeepsPaths(r: map<string, Value>, lo: map<string, Value>)
    decreases Obj(lo)
  {
    forall k :: k in lo ==>
      && k in r
      && (lo[k].Obj? && r[k].Obj? ==> KeepsPaths(r[k].fields, lo[k].fields))
  }

  /** Every leaf of `lo` at a path that `hi` does not set is found, unchanged, at the same
      path of `r`. */
  ghost predicate KeepsLeaves(r: map<string, Value>, lo: map<string, Value>, hi: map<string, Value>)
    decreases Obj(lo)
  {
    forall k :: k in lo ==>
      && k in r
      && (k !in hi ==> r[k] == lo[k])
      && (k in hi && hi[k].Obj? && lo[k].Obj? ==>
            r[k].Obj? && KeepsLeaves(r[k].fields, lo[k].fields, hi[k].fields))
  }

  /** The fields of a value when it is a plain object, and none otherwise. */
  function FieldsAt(m: map<string, Value>, k: string): (f: map<string, Value>)
    ensures k in m && m[k].Obj? ==> f == m[k].fields
    ensures !(k in m && m[k].Obj?) ==> f == map[]
  {
    if k in m && m[k].Obj? then m[k].fields else map[]
  }

  /** Every path of `r` is a path of `hi` or of `lo`: nothing was invented. */
  ghost predicate NoNewPaths(r: map<string, Value>, hi: map<string, Value>, lo: map<string, Value>)
    decreases Obj(r)
  {
    forall k :: k in r ==>
      && (k in hi || k in lo)
      && (r[k].Obj? ==> NoNewPaths(r[k].fields, FieldsAt(hi, k), FieldsAt(lo, k)))
  }

  lemma {:induction false} OverridesRefl(m: map<string, Value>)
    ensures Overrides(m, m)
    decreases Obj(m)
  {
    forall k | k in m && m[k].Obj? ensures Overrides(m[k].fields, m[k].fields) {
      OverridesRefl(m[k].fields);
    }
  }

  lemma {:induction false} KeepsPathsRefl(m: map<string, Value>)
    ensures KeepsPaths(m, m)
    decreases Obj(m)
  {
    forall k | k in m && m[k].Obj? ensures KeepsPaths(m[k].fields, m[k].fields) {
      KeepsPathsRefl(m[k].fields);
    }
  }

  /** The configuration wins: every leaf of `hi` survives the merge. */
  lemma {:induction false} DefaultsDeepKeepsHi(hi: map<string, Value>, lo: map<string, Value>)
    ensures Overrides(DefaultsDeep(hi, lo), hi)
    decreases Obj(hi)
  {
    var r := DefaultsDeep(hi, lo);
    forall k | k in hi && hi[k].Obj? && r[k].Obj? ensures Overrides(r[k].fields, hi[k].fields) {
      if k in lo && lo[k].Obj? {
        DefaultsDeepKeepsHi(hi[k].fields, lo[k].fields);
      } else {
        OverridesRefl(hi[k].fields);
      }
    }
  }

  /** The existing structure survives: every path of `lo` is still present after the merge. */
  lemma {:induction false} DefaultsDeepKeepsLoPaths(hi: map<string, Value>, lo: map<string, Value>)
    ensures KeepsPaths(DefaultsDeep(hi, lo), lo)
    decreases Obj(lo)
  {
    var r := DefaultsDeep(hi, lo);
    forall k | k in lo && lo[k].Obj? && r[k].Obj? ensures KeepsPaths(r[k].fields, lo[k].fields) {
      if k in hi && hi[k].Obj? {
        DefaultsDeepKeepsLoPaths(hi[k].fields, lo[k].fields);
      } else {
        KeepsPathsRefl(lo[k].fields);
      }
    }
  }

  /** The stored options the configuration does not set survive the merge unchanged. */
  lemma {:induction false} DefaultsDeepKeepsLoLeaves(hi: map<string, Value>, lo: map<string, Value>)
    ensures KeepsLeaves(DefaultsDeep(hi, lo), lo, hi)
    decreases Obj(lo)
  {
    var r := DefaultsDeep(hi, lo);
    forall k | k in lo && k in hi && hi[k].Obj? && lo[k].Obj?
      ensures r[k].Obj? && KeepsLeaves(r[k].fields, lo[k].fields, hi[k].fields)
    {
      DefaultsDeepKeepsLoLeaves(hi[k].fields, lo[k].fields);
    }
  }

  /** A value adds no path to the side it was taken from. */
  lemma {:induction false} NoNewPathsFromHi(m: map<string, Value>, other: map<string, Value>)
    ensures NoNewPaths(m, m, other)
    decreases Obj(m)
  {
    forall k | k in m && m[k].Obj? ensures NoNewPaths(m[k].fields, FieldsAt(m, k), FieldsAt(other, k)) {
      NoNewPathsFromHi(m[k].fields, FieldsAt(other, k));
    }
  }

  lemma {:induction false} NoNewPathsFromLo(m: map<string, Value>, other: map<string, Value>)
    ensures NoNewPaths(m, other, m)
    decreases Obj(m)
  {
    forall k | k in m && m[k].Obj? ensures NoNewPaths(m[k].fields, FieldsAt(other, k), FieldsAt(m, k)) {
      NoNewPathsFromLo(m[k].fields, FieldsAt(other, k));
    }
  }

  /** `defaultsDeep` never adds a key that neither side holds, at any depth. */
  lemma {:induction false} DefaultsDeepNoNewPaths(hi: map<string, Value>, lo: map<string, Value>)
    ensures NoNewPaths(DefaultsDeep(hi, lo), hi, lo)
    decreases Obj(hi)
  {
    var r := DefaultsDeep(hi, lo);
    forall k | k in r && r[k].Obj? ensures NoNewPaths(r[k].fields, FieldsAt(hi, k), FieldsAt(lo, k)) {
      if k in hi && k in lo && hi[k].Obj? && lo[k].Obj? {
        DefaultsDeepNoNewPaths(hi[k].fields, lo[k].fields);
      } else if k in hi {
        NoNewPathsFromHi(hi[k].fields, FieldsAt(lo, k));
      } else {
        NoNewPathsFromLo(lo[k].fields, FieldsAt(hi, k));
      }
    }
  }

  /** Merging an object over itself gives it back. */
  lemma {:induction false} DefaultsDeepSelf(m: map<string, Value>)
    ensures DefaultsDeep(m, m) == m
    decreases Obj(m)
  {
    var r := DefaultsDeep(m, m);
    forall k | k in m ensures r[k] == m[k] {
      if m[k].Obj? {
        DefaultsDeepSelf(m[k].fields);
      }
    }
  }

  /** Merging the same configuration a second time changes nothing. */
  lemma {:induction false} DefaultsDeepIdempotent(hi: map<string, Value>, lo: map<string, Value>)
    ensures DefaultsDeep(hi, DefaultsDeep(hi, lo)) == DefaultsDeep(hi, lo)
    decreases Obj(hi)
  {
    var m := DefaultsDeep(hi, lo);
    var r := DefaultsDeep(hi, m);
    forall k | k in r ensures r[k] == m[k] {
      if k in hi && hi[k].Obj? && m[k].Obj? {
        if k in lo && lo[k].Obj? {
          DefaultsDeepIdempotent(hi[k].fields, lo[k].fields);
        } else {
          DefaultsDeepSelf(hi[k].fields);
        }
      }
    }
  }
}
