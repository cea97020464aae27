/**
  The order in which `Object.keys(masterLog).sort()` lists the date keys
  (script.js:132): the default comparison of `Array.prototype.sort`, which
  compares strings character by character, a proper prefix coming first.
 */
module KeyOrder {

  /** `a` sorts strictly before `b`. */
  function Precedes(a: string, b: string): (before: bool)
    ensures |a| < |b| && a == b[..|a|] ==> before
  {
    if |a| == 0 then |b| != 0
    else if |b| == 0 then false
    else a[0] < b[0] || (a[0] == b[0] && Precedes(a[1..], b[1..]))
  }

  /** Each key strictly before the next: what the sorted key list looks like. */
  ghost predicate Sorted(s: seq<string>)
  {
    forall i, j :: 0 <= i < j < |s| ==> Precedes(s[i], s[j])
  }

  lemma {:induction false} PrecedesIrreflexive(a: string)
    ensures !Precedes(a, a)
  {
    if |a| != 0 {
      PrecedesIrreflexive(a[1..]);
    }
  }

  lemma {:induction false} PrecedesTransitive(a: string, b: string, c: string)
    requires Precedes(a, b) && Precedes(b, c)
    ensures Precedes(a, c)
  {
    if |a| != 0 && |b| != 0 && |c| != 0 && a[0] == b[0] == c[0] {
      PrecedesTransitive(a[1..], b[1..], c[1..]);
    }
  }

  /** Any two different strings are ordered one way or the other. */
  lemma {:induction false} PrecedesTotal(a: string, b: string)
    ensures a == b || Precedes(a, b) || Precedes(b, a)
  {
    if |a| != 0 && |b| != 0 && a[0] == b[0] {
      PrecedesTotal(a[1..], b[1..]);
      if a[1..] == b[1..] {
        assert a == [a[0]] + a[1..] && b == [b[0]] + b[1..];
      }
    }
  }

  lemma PrecedesAsymmetric(a: string, b: string)
    requires Precedes(a, b)
    ensures !Precedes(b, a)
  {
    if Precedes(b, a) {
      PrecedesTransitive(a, b, a);
      PrecedesIrreflexive(a);
    }
  }

  /** Comparing two concatenations whose first parts have equal length: the first parts decide unless they are equal. */
  lemma {:induction false} PrecedesAppend(a1: string, a2: string, b1: string, b2: string)
    requires |a1| == |b1|
    ensures Precedes(a1 + a2, b1 + b2) <==> Precedes(a1, b1) || (a1 == b1 && Precedes(a2, b2))
  {
    if |a1| != 0 {
      assert (a1 + a2)[0] == a1[0] && (b1 + b2)[0] == b1[0];
      assert (a1 + a2)[1..] == a1[1..] + a2 && (b1 + b2)[1..] == b1[1..] + b2;
      PrecedesAppend(a1[1..], a2, b1[1..], b2);
      if a1[0] == b1[0] && a1[1..] == b1[1..] {
        assert a1 == [a1[0]] + a1[1..] && b1 == [b1[0]] + b1[1..];
      }
    } else {
      assert a1 + a2 == a2 && b1 + b2 == b2;
    }
  }

  /** Every non-empty finite set of keys has a least key. */
  lemma {:induction false} LeastExists(keys: set<string>)
    requires keys != {}
    ensures exists m :: m in keys && forall k :: k in keys && k != m ==> Precedes(m, k)
    decreases |keys|
  {
    var x :| x in keys;
    var rest := keys - {x};
    if rest == {} {
      forall k | k in keys
        ensures k == x
      {
        assert k !in rest;
      }
    } else {
      LeastExists(rest);
      var m :| m in rest && forall k :: k in rest && k != m ==> Precedes(m, k);
      PrecedesTotal(m, x);
      if Precedes(x, m) {
        forall k | k in keys && k != x
          ensures Precedes(x, k)
        {
          if k != m {
            PrecedesTransitive(x, m, k);
          }
        }
      } else {
        assert forall k :: k in keys && k != m ==> Precedes(m, k);
      }
    }
  }

  lemma PrependLeast(m: string, tail: seq<string>)
    requires Sorted(tail)
    requires forall k :: k in tail ==> Precedes(m, k)
    ensures Sorted([m] + tail)
  {
    forall i, j | 0 <= i < j < |[m] + tail|
      ensures Precedes(([m] + tail)[i], ([m] + tail)[j])
    {
      if i == 0 {
        assert ([m] + tail)[j] == tail[j - 1];
      }
    }
  }

  /** The keys of a log in the order the sorted key list gives them. */
  ghost function SortedKeys(keys: set<string>): (r: seq<string>)
    ensures |r| == |keys|
    ensures forall k :: k in r <==> k in keys
    ensures Sorted(r)
    decreases |keys|
  {
    if keys == {} then []
    else
      LeastExists(keys);
      var m :| m in keys && forall k :: k in keys && k != m ==> Precedes(m, k);
      var tail := SortedKeys(keys - {m});
      PrependLeast(m, tail);
      [m] + tail
  }

  /** Two sorted lists holding the same keys are the same list. */
  lemma {:induction false} SortedUnique(s: seq<string>, t: seq<string>)
    requires Sorted(s) && Sorted(t)
    requires forall k :: k in s <==> k in t
    ensures s == t
    decreases |s|
  {
    if s != [] {
      assert s[0] in t;
    }
    if t != [] {
      assert t[0] in s;
    }
    if s != [] && t != [] {
      if s[0] != t[0] {
        var i :| 0 < i < |t| && t[i] == s[0];
        var j :| 0 < j < |s| && s[j] == t[0];
        assert Precedes(s[0], t[0]);
        PrecedesAsymmetric(s[0], t[0]);
      }
      forall k
        ensures k in s[1..] <==> k in t[1..]
      {
        if k in s[1..] {
          var i :| 1 <= i < |s| && s[i] == k;
          PrecedesIrreflexive(s[0]);
          assert k != s[0];
          assert k in t;
        }
        if k in t[1..] {
          var i :| 1 <= i < |t| && t[i] == k;
          PrecedesIrreflexive(t[0]);
          assert k != t[0];
          assert k in s;
        }
      }
      SortedUnique(s[1..], t[1..]);
      assert s == [s[0]] + s[1..] && t == [t[0]] + t[1..];
    }
  }

  /** Any sorted arrangement of a key set is the one `SortedKeys` gives, whatever produced it. */
  lemma SortedKeysUnique(keys: set<string>, s: seq<string>)
    requires Sorted(s) && forall k :: k in s <==> k in keys
    ensures s == SortedKeys(keys)
  {
    SortedUnique(s, SortedKeys(keys));
  }
}
