/**
 * The name-keyed maps of the middleware are ordered maps from strings: walking one visits its
 * names in ascending order of the standard string comparison (character by character, a proper
 * prefix before any longer string). This module defines that order, the sequence of names such
 * a walk visits, and a method that produces it.
 */
module NamedMaps {

  /** Strict lexicographic order on names. */
  predicate Less(a: string, b: string)
    decreases |a|
  {
    |b| > 0 && (|a| == 0 || a[0] < b[0] || (a[0] == b[0] && Less(a[1..], b[1..])))
  }

  lemma {:induction false} LessIrreflexive(a: string)
    ensures !Less(a, a)
    decreases |a|
  {
    if |a| > 0 {
      LessIrreflexive(a[1..]);
    }
  }

  lemma {:induction false} LessAsymmetric(a: string, b: string)
    requires Less(a, b)
    ensures !Less(b, a)
    decreases |a|
  {
    if |a| > 0 && a[0] == b[0] {
      LessAsymmetric(a[1..], b[1..]);
    }
  }

  lemma {:induction false} LessTransitive(a: string, b: string, c: string)
    requires Less(a, b) && Less(b, c)
    ensures Less(a, c)
    decreases |a|
  {
    if |a| > 0 && a[0] == b[0] && b[0] == c[0] {
      LessTransitive(a[1..], b[1..], c[1..]);
    }
  }

  lemma {:induction false} LessTotal(a: string, b: string)
    requires a != b
    ensures Less(a, b) || Less(b, a)
    decreases |a|
  {
    if |a| > 0 && |b| > 0 && a[0] == b[0] {
      assert a == [a[0]] + a[1..] && b == [b[0]] + b[1..];
      LessTotal(a[1..], b[1..]);
    }
  }

  /** x is the smallest name of s. */
  predicate IsLeast(x: string, s: set<string>)
  {
    x in s && forall y | y in s :: y == x || Less(x, y)
  }

  lemma {:induction false} LeastExists(s: set<string>)
    requires s != {}
    ensures exists x :: IsLeast(x, s)
    decreases s
  {
    var y :| y in s;
    var rest := s - {y};
    if rest == {} {
      assert s == {y};
      assert IsLeast(y, s);
    } else {
      LeastExists(rest);
      var m :| IsLeast(m, rest);
      if Less(y, m) {
        forall z | z in s
          ensures z == y || Less(y, z)
        {
          if z != y && z != m {
            LessTransitive(y, m, z);
          }
        }
        assert IsLeast(y, s);
      } else {
        LessTotal(y, m);
        assert IsLeast(m, s);
      }
    }
  }

  lemma LeastUnique(x: string, y: string, s: set<string>)
    requires IsLeast(x, s) && IsLeast(y, s)
    ensures x == y
  {
    if x != y {
      LessAsymmetric(x, y);
    }
  }

  ghost function Least(s: set<string>): (x: string)
    requires s != {}
    ensures IsLeast(x, s)
  {
    LeastExists(s);
    var x :| IsLeast(x, s);
    x
  }

  /** The names of a map with key set s, in the order a walk over the map visits them. */
  ghost function InIterationOrder(s: set<string>): seq<string>
    decreases s
  {
    if s == {} then []
    else
      var x := Least(s);
      [x] + InIterationOrder(s - {x})
  }

  ghost predicate StrictlyAscending(names: seq<string>)
  {
    forall i, j :: 0 <= i < j < |names| ==> Less(names[i], names[j])
  }

  /** A walk visits every name exactly once, in strictly ascending order. */
  lemma {:induction false} InIterationOrderSpec(s: set<string>)
    ensures StrictlyAscending(InIterationOrder(s))
    ensures forall x :: x in InIterationOrder(s) <==> x in s
    ensures |InIterationOrder(s)| == |s|
    decreases s
  {
    if s != {} {
      var x := Least(s);
      var tail := InIterationOrder(s - {x});
      InIterationOrderSpec(s - {x});
      var r := [x] + tail;
      forall i, j | 0 <= i < j < |r|
        ensures Less(r[i], r[j])
      {
        if i == 0 {
          assert r[j] == tail[j - 1] && r[j] in s - {x};
        } else {
          assert r[i] == tail[i - 1] && r[j] == tail[j - 1];
        }
      }
    }
  }

  /** Any strictly ascending listing of exactly the names of s is the walk over s. */
  lemma {:induction false} AscendingListingIsIterationOrder(names: seq<string>, s: set<string>)
    requires StrictlyAscending(names)
    requires forall x :: x in names <==> x in s
    ensures names == InIterationOrder(s)
    decreases |names|
  {
    if names == [] {
      assert s == {};
    } else {
      var x := names[0];
      assert x in s;
      forall y | y in s
        ensures y == x || Less(x, y)
      {
        var k :| 0 <= k < |names| && names[k] == y;
      }
      LeastUnique(x, Least(s), s);
      var tail := names[1..];
      forall y
        ensures y in tail <==> y in s - {x}
      {
        if y in tail {
          var k :| 0 <= k < |tail| && tail[k] == y;
          assert names[k + 1] == y;
          LessIrreflexive(x);
        }
        if y in s - {x} {
          var k :| 0 <= k < |names| && names[k] == y;
          assert k != 0;
          assert tail[k - 1] == y;
        }
      }
      AscendingListingIsIterationOrder(tail, s - {x});
    }
  }

  /**
   * Lists the names of a map in the order a walk over it visits them, by taking the smallest
   * remaining name each step.
   */
  method SortedNames(keys: set<string>) returns (names: seq<string>)
    ensures names == InIterationOrder(keys)
    ensures StrictlyAscending(names) && |names| == |keys|
    ensures forall x :: x in names <==> x in keys
  {
    names := [];
    var rest := keys;
    while rest != {}
      invariant rest <= keys
      invariant names + InIterationOrder(rest) == InIterationOrder(keys)
      decreases rest
    {
      LeastExists(rest);
      var x :| IsLeast(x, rest);
      LeastUnique(x, Least(rest), rest);
      names := names + [x];
      rest := rest - {x};
    }
    InIterationOrderSpec(keys);
  }

  /** No two names map to the same item. */
  ghost predicate Injective<T>(m: map<string, T>)
  {
    forall a, b :: a in m && b in m && a != b ==> m[a] != m[b]
  }

  /** Inserting a new name with an item not yet in the map adds exactly that item. */
  lemma InsertNewItem<T>(m: map<string, T>, name: string, item: T)
    requires Injective(m) && name !in m && item !in m.Values
    ensures Injective(m[name := item])
    ensures m[name := item].Values == m.Values + {item}
  {
    var m' := m[name := item];
    forall x | x in m.Values + {item}
      ensures x in m'.Values
    {
      if x != item {
        var k :| k in m && m[k] == x;
        assert m'[k] == x;
      } else {
        assert m'[name] == x;
      }
    }
  }

  /** Removing a name of an injective map removes exactly its item. */
  lemma RemoveName<T>(m: map<string, T>, name: string)
    requires Injective(m) && name in m
    ensures Injective(m - {name})
    ensures (m - {name}).Values == m.Values - {m[name]}
  {
    var m' := m - {name};
    forall x | x in m.Values - {m[name]}
      ensures x in m'.Values
    {
      var k :| k in m && m[k] == x;
      assert k != name && m'[k] == x;
    }
  }
}
