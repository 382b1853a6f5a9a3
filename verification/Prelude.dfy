/** Small shared vocabulary: options, duplicate-free sequences and finite sets. */
module Prelude {

  datatype Option<+T> = None | Some(value: T)

  /** An instant in nanoseconds. */
  type Time = int

  /** Thirty minutes: how long wizard sessions, async handles and resume entries live. */
  const DEFAULT_SESSION_TTL := 1_800_000_000_000

  newtype byte = x: int | 0 <= x < 0x100

  ghost predicate NoDup<T>(s: seq<T>) {
    forall i, j :: 0 <= i < j < |s| ==> s[i] != s[j]
  }

  ghost function Elems<T>(s: seq<T>): set<T> {
    set x | x in s
  }

  /** `s` lists each member of `k` exactly once: one possible outcome of walking a Go map. */
  ghost predicate Enumerates<T(!new)>(s: seq<T>, k: set<T>) {
    NoDup(s) && forall x :: x in k <==> x in s
  }

  lemma EnumeratesElems<T(!new)>(s: seq<T>, k: set<T>)
    ensures Enumerates(s, k) <==> NoDup(s) && Elems(s) == k
  {
  }

  lemma NoDupAppend<T>(s: seq<T>, t: seq<T>)
    requires NoDup(s) && NoDup(t)
    requires Elems(s) !! Elems(t)
    ensures NoDup(s + t)
    ensures Elems(s + t) == Elems(s) + Elems(t)
  {
    forall i, j | 0 <= i < j < |s + t| ensures (s + t)[i] != (s + t)[j] {
      if i < |s| <= j {
        assert s[i] in Elems(s) && t[j - |s|] in Elems(t);
      }
    }
  }

  lemma NoDupSnoc<T>(s: seq<T>, x: T)
    requires NoDup(s) && x !in s
    ensures NoDup(s + [x])
    ensures Elems(s + [x]) == Elems(s) + {x}
  {
    NoDupAppend(s, [x]);
  }

  /** A duplicate-free sequence is cut into two disjoint halves. */
  lemma NoDupCut<T>(s: seq<T>, k: nat)
    requires NoDup(s) && k <= |s|
    ensures NoDup(s[k..])
    ensures Elems(s[..k]) !! Elems(s[k..])
    ensures Elems(s[..k]) + Elems(s[k..]) == Elems(s)
  {
    assert s[..k] + s[k..] == s;
    forall x | x in s[..k] ensures x !in s[k..] {
      var i :| 0 <= i < k && s[i] == x;
    }
  }

  lemma NoDupRemove<T>(s: seq<T>, k: nat)
    requires NoDup(s) && k < |s|
    ensures NoDup(s[..k] + s[k + 1..])
    ensures Elems(s[..k] + s[k + 1..]) == Elems(s) - {s[k]}
  {
    var t := s[..k] + s[k + 1..];
    forall x ensures x in t <==> x in s && x != s[k] {
      if x in s && x != s[k] {
        var i :| 0 <= i < |s| && s[i] == x;
        assert t[if i < k then i else i - 1] == x;
      }
    }
  }

  lemma LastOfNoDup<T>(s: seq<T>)
    requires NoDup(s) && s != []
    ensures NoDup(s[..|s| - 1]) && s[|s| - 1] !in Elems(s[..|s| - 1])
    ensures s == s[..|s| - 1] + [s[|s| - 1]]
    ensures Elems(s) == Elems(s[..|s| - 1]) + {s[|s| - 1]}
  {
    assert s == s[..|s| - 1] + [s[|s| - 1]];
  }

  lemma Assoc<T>(a: seq<T>, b: seq<T>, c: seq<T>)
    ensures a + b + c == a + (b + c)
  {
  }

  /** One step of a walk over a set that collects the members of `wanted` in the order it meets them. */
  lemma WalkStep<T>(wanted: set<T>, todo: set<T>, found: seq<T>, t: T)
    requires t in todo && NoDup(found) && Elems(found) == wanted - todo
    ensures t in wanted ==> NoDup(found + [t]) && Elems(found + [t]) == wanted - (todo - {t})
    ensures t !in wanted ==> Elems(found) == wanted - (todo - {t})
  {
    assert t !in Elems(found);
    NoDupSnoc(found, t);
  }

  lemma MinusAbsent<K, V>(m: map<K, V>, k: K)
    requires k !in m
    ensures m - {k} == m
  {
  }

  lemma SubsetSize<T>(a: set<T>, b: set<T>)
    requires a <= b
    ensures |a| <= |b|
  {
    assert b == a + (b - a);
  }

  /** A duplicate-free listing is as long as the set it lists. */
  lemma {:induction false} NoDupSize<T>(s: seq<T>)
    requires NoDup(s)
    ensures |Elems(s)| == |s|
  {
    if s == [] {
      assert Elems(s) == {};
    } else {
      var t := s[..|s| - 1];
      NoDupSize(t);
      assert s == t + [s[|s| - 1]];
      assert Elems(s) == Elems(t) + {s[|s| - 1]};
    }
  }
}
