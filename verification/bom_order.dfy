/**
 * The order `sort_index` puts RefDes strings in (ECUBOMDelta.py:169): Python's
 * `str` comparison, code point by code point, a proper prefix first.
 */
module BomOrder {

  /** Python's `a < b` on strings. */
  predicate Below(a: string, b: string)
    decreases |a|
  {
    if a == [] then b != []
    else if b == [] then false
    else a[0] < b[0] || (a[0] == b[0] && Below(a[1..], b[1..]))
  }

  lemma {:induction false} BelowIrreflexive(a: string)
    ensures !Below(a, a)
    decreases |a|
  {
    if a != [] {
      BelowIrreflexive(a[1..]);
    }
  }

  lemma {:induction false} BelowTransitive(a: string, b: string, c: string)
    requires Below(a, b) && Below(b, c)
    ensures Below(a, c)
    decreases |a|
  {
    if a != [] && a[0] == b[0] && b[0] == c[0] {
      BelowTransitive(a[1..], b[1..], c[1..]);
    }
  }

  /** Any two different strings are ordered one way or the other. */
  lemma {:induction false} BelowTotal(a: string, b: string)
    ensures a == b || Below(a, b) || Below(b, a)
    decreases |a|
  {
    if a != [] && b != [] && a[0] == b[0] {
      BelowTotal(a[1..], b[1..]);
      if a[1..] == b[1..] {
        assert a == [a[0]] + a[1..] && b == [b[0]] + b[1..];
      }
    }
  }

  /** `m` is below every other key of `ks`. */
  predicate IsLeast(m: string, ks: set<string>) {
    m in ks && forall k :: k in ks && k != m ==> Below(m, k)
  }

  /** A finite, non-empty set of strings has a least element. */
  lemma {:induction false} HasLeast(ks: set<string>)
    requires ks != {}
    ensures exists m :: IsLeast(m, ks)
    decreases |ks|
  {
    var x :| x in ks;
    if ks == {x} {
      assert IsLeast(x, ks);
    } else {
      var rest := ks - {x};
      HasLeast(rest);
      var m :| IsLeast(m, rest);
      BelowTotal(x, m);
      if Below(x, m) {
        forall k | k in ks && k != x ensures Below(x, k) {
          if k != m { BelowTransitive(x, m, k); }
        }
        assert IsLeast(x, ks);
      } else {
        assert IsLeast(m, ks);
      }
    }
  }

  /** Strictly ascending in string order. */
  predicate Ascending(r: seq<string>) {
    forall i, j :: 0 <= i < j < |r| ==> Below(r[i], r[j])
  }

  /** The keys of a table in ascending order, each once. */
  ghost function SortedKeys(ks: set<string>): (r: seq<string>)
    ensures |r| == |ks|
    ensures forall k :: k in ks <==> k in r
    ensures Ascending(r)
    decreases |ks|
  {
    if ks == {} then []
    else
      HasLeast(ks);
      var m :| IsLeast(m, ks);
      var rest := ks - {m};
      var r := SortedKeys(rest);
      PrependLeast(m, rest, r);
      assert rest + {m} == ks;
      [m] + r
  }

  /** Putting a key below all others in front of an ascending listing of the others. */
  lemma PrependLeast(m: string, rest: set<string>, r: seq<string>)
    requires m !in rest && forall k :: k in rest ==> Below(m, k)
    requires |r| == |rest| && (forall k :: k in rest <==> k in r) && Ascending(r)
    ensures |[m] + r| == |rest + {m}|
    ensures forall k :: k in rest + {m} <==> k in [m] + r
    ensures Ascending([m] + r)
  {
    var s := [m] + r;
    forall i, j | 0 <= i < j < |s| ensures Below(s[i], s[j]) {
      if i == 0 {
        assert s[j] == r[j - 1] && s[j] in rest;
      } else {
        assert s[i] == r[i - 1] && s[j] == r[j - 1];
      }
    }
  }
}
