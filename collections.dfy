/** String and sequence helpers shared by the scanners and the relations. */
module Collections {

  /** Go's strings.HasSuffix. */
  predicate HasSuffix(s: string, suffix: string) {
    |suffix| <= |s| && s[|s| - |suffix|..] == suffix
  }

  /** A suffix survives any prefix: a file in a sub-directory keeps the suffix of its base name. */
  lemma SuffixUnderPrefix(prefix: string, s: string, suffix: string)
    requires HasSuffix(s, suffix)
    ensures HasSuffix(prefix + s, suffix)
  {
    var t := prefix + s;
    assert t[|t| - |suffix|..] == s[|s| - |suffix|..];
  }

  predicate Distinct<T(==)>(s: seq<T>) {
    forall i, j :: 0 <= i < j < |s| ==> s[i] != s[j]
  }

  /** `order` lists every element of `keys` exactly once: the order one run of Go's `range` visits a map in. */
  predicate IsEnumeration<T(==)>(order: seq<T>, keys: set<T>) {
    Distinct(order) && (forall k | k in order :: k in keys) && (forall k | k in keys :: k in order)
  }

  /** Ranging over a map visits as many entries as the map has keys. */
  lemma {:induction false} EnumerationLength<T>(order: seq<T>, keys: set<T>)
    requires IsEnumeration(order, keys)
    ensures |order| == |keys|
  {
    if order == [] {
      assert keys == {};
    } else {
      var rest, smaller := order[1..], keys - {order[0]};
      assert order == [order[0]] + rest;
      forall k ensures k in rest <==> k in smaller {
        if k in rest {
          var j :| 0 <= j < |rest| && rest[j] == k;
          assert order[j + 1] == k && order[0] != order[j + 1];
        }
      }
      EnumerationLength(rest, smaller);
    }
  }
}
