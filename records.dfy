/** The list operations every admin page performs on its local state: a
    `filter` that keeps or drops records, a `map` that rewrites the record
    with a given id, and the `Math.max(...ids) + 1` id for a new record.
    A record type supplies its numeric id through `key`. */
module Records {

  /** `s.filter(p)`: the elements of `s` that satisfy `p`, in their order. */
  function Keep<T(!new)>(s: seq<T>, p: T -> bool): (r: seq<T>)
    ensures |r| <= |s|
    ensures forall x :: x in r <==> x in s && p(x)
  {
    if s == [] then []
    else if p(s[0]) then [s[0]] + Keep(s[1..], p)
    else Keep(s[1..], p)
  }

  /** `r` is `s` with some elements dropped and the rest in their order. */
  ghost predicate IsSubsequence<T>(r: seq<T>, s: seq<T>)
    decreases |s|
  {
    if r == [] then true
    else if s == [] then false
    else (r[0] == s[0] && IsSubsequence(r[1..], s[1..])) || IsSubsequence(r, s[1..])
  }

  /** A filter only drops elements: what it keeps stays in its order. */
  lemma {:induction false} KeepIsSubsequence<T(!new)>(s: seq<T>, p: T -> bool)
    ensures IsSubsequence(Keep(s, p), s)
  {
    if s != [] {
      KeepIsSubsequence(s[1..], p);
      if p(s[0]) {
        assert Keep(s, p)[1..] == Keep(s[1..], p);
      }
    }
  }

  /** A filter works element by element: filtering a concatenation is
      concatenating the filtered parts. Together with the filter of a single
      element this determines `Keep` completely. */
  lemma {:induction false} KeepConcat<T(!new)>(a: seq<T>, b: seq<T>, p: T -> bool)
    ensures Keep(a + b, p) == Keep(a, p) + Keep(b, p)
    ensures Keep([], p) == [] && forall x :: Keep([x], p) == if p(x) then [x] else []
  {
    if a != [] {
      assert (a + b)[1..] == a[1..] + b;
      KeepConcat(a[1..], b, p);
    } else {
      assert a + b == b;
    }
    forall x ensures Keep([x], p) == if p(x) then [x] else [] {
      assert [x][1..] == [];
    }
  }

  /** A filter keeps the whole list exactly when every element passes it. */
  lemma {:induction false} KeepAllIff<T(!new)>(s: seq<T>, p: T -> bool)
    ensures Keep(s, p) == s <==> forall i :: 0 <= i < |s| ==> p(s[i])
  {
    if forall i :: 0 <= i < |s| ==> p(s[i]) {
      if s != [] {
        assert p(s[0]);
        assert forall i :: 0 <= i < |s[1..]| ==> p(s[1..][i]) by {
          forall i | 0 <= i < |s[1..]| ensures p(s[1..][i]) {
            assert s[1..][i] == s[i + 1];
          }
        }
        KeepAllIff(s[1..], p);
        assert [s[0]] + s[1..] == s;
      }
    }
    if Keep(s, p) == s {
      forall i | 0 <= i < |s| ensures p(s[i]) {
        assert s[i] in Keep(s, p);
      }
    }
  }

  /** Filtering twice with the same test is filtering once. */
  lemma KeepIdempotent<T(!new)>(s: seq<T>, p: T -> bool)
    ensures Keep(Keep(s, p), p) == Keep(s, p)
  {
    var r := Keep(s, p);
    forall i | 0 <= i < |r| ensures p(r[i]) {
      assert r[i] in r;
    }
    KeepAllIff(r, p);
  }

  /** Two tests that exactly one of holds on each element split a list: the
      two filters together keep every element once. */
  lemma {:induction false} KeepSplit<T(!new)>(s: seq<T>, p: T -> bool, q: T -> bool)
    requires forall x :: p(x) != q(x)
    ensures |Keep(s, p)| + |Keep(s, q)| == |s|
  {
    if s != [] {
      KeepSplit(s[1..], p, q);
    }
  }

  /** The test `x => key(x) !== id` of the delete handlers. */
  function KeyIsNot<T>(key: T -> int, id: int): T -> bool
  {
    x => key(x) != id
  }

  /** `s.filter(x => key(x) !== id)`: the delete handler of every page. */
  function Without<T(!new)>(s: seq<T>, key: T -> int, id: int): seq<T>
  {
    Keep(s, KeyIsNot(key, id))
  }

  /** Deleting id `id` removes exactly the records with that id and keeps the
      others in their order; an id that is not there leaves the list as it
      is; distinct ids stay distinct. */
  lemma WithoutSpec<T(!new)>(s: seq<T>, key: T -> int, id: int)
    ensures forall x :: x in Without(s, key, id) <==> x in s && key(x) != id
    ensures IsSubsequence(Without(s, key, id), s)
    ensures Without(s, key, id) == s <==> forall i :: 0 <= i < |s| ==> key(s[i]) != id
    ensures DistinctKeys(s, key) ==> DistinctKeys(Without(s, key, id), key)
  {
    KeepIsSubsequence(s, KeyIsNot(key, id));
    KeepAllIff(s, KeyIsNot(key, id));
    if DistinctKeys(s, key) {
      KeepDistinct(s, key, KeyIsNot(key, id));
    }
  }

  /** `s.map(x => key(x) === id ? f(x) : x)`: the records with id `id` are
      rewritten by `f`, all others are left as they are. */
  function UpdateWhere<T>(s: seq<T>, key: T -> int, id: int, f: T -> T): (r: seq<T>)
    ensures |r| == |s|
    ensures forall i :: 0 <= i < |s| && key(s[i]) == id ==> r[i] == f(s[i])
    ensures forall i :: 0 <= i < |s| && key(s[i]) != id ==> r[i] == s[i]
  {
    if s == [] then []
    else [if key(s[0]) == id then f(s[0]) else s[0]] + UpdateWhere(s[1..], key, id, f)
  }

  /** The ids of the records in `s` are pairwise distinct. */
  ghost predicate DistinctKeys<T>(s: seq<T>, key: T -> int)
  {
    forall i, j :: 0 <= i < j < |s| ==> key(s[i]) != key(s[j])
  }

  /** A filter of a list with distinct ids has distinct ids. */
  lemma {:induction false} KeepDistinct<T(!new)>(s: seq<T>, key: T -> int, p: T -> bool)
    requires DistinctKeys(s, key)
    ensures DistinctKeys(Keep(s, p), key)
  {
    if s != [] {
      var tail := s[1..];
      assert DistinctKeys(tail, key) by {
        forall i, j | 0 <= i < j < |tail| ensures key(tail[i]) != key(tail[j]) {
          assert tail[i] == s[i + 1] && tail[j] == s[j + 1];
        }
      }
      KeepDistinct(tail, key, p);
      if p(s[0]) {
        var r := Keep(s, p);
        var rest := Keep(tail, p);
        assert r == [s[0]] + rest;
        forall i, j | 0 <= i < j < |r| ensures key(r[i]) != key(r[j]) {
          if i == 0 {
            assert r[j] == rest[j - 1];
            assert rest[j - 1] in tail;
            var m :| 0 <= m < |tail| && tail[m] == rest[j - 1];
            assert tail[m] == s[m + 1];
          } else {
            assert r[i] == rest[i - 1] && r[j] == rest[j - 1];
          }
        }
      }
    }
  }

  /** A rewrite that keeps every record's id keeps the ids distinct. */
  lemma UpdateDistinct<T>(s: seq<T>, key: T -> int, id: int, f: T -> T)
    requires DistinctKeys(s, key)
    requires forall x :: key(f(x)) == key(x)
    ensures DistinctKeys(UpdateWhere(s, key, id, f), key)
  {
    var r := UpdateWhere(s, key, id, f);
    forall i | 0 <= i < |s| ensures key(r[i]) == key(s[i]) {
    }
  }

  /** Rewriting twice with a rewrite that undoes itself on the targeted
      records, and keeps their id, gives back the list. */
  lemma UpdateTwice<T>(s: seq<T>, key: T -> int, id: int, f: T -> T)
    requires forall i :: 0 <= i < |s| && key(s[i]) == id ==> key(f(s[i])) == id && f(f(s[i])) == s[i]
    ensures UpdateWhere(UpdateWhere(s, key, id, f), key, id, f) == s
  {
    var once := UpdateWhere(s, key, id, f);
    var twice := UpdateWhere(once, key, id, f);
    forall i | 0 <= i < |s| ensures twice[i] == s[i] {
      if key(s[i]) == id {
        assert once[i] == f(s[i]);
      } else {
        assert once[i] == s[i];
      }
    }
  }

  /** Rewriting twice with a rewrite that is idempotent on the targeted
      records, and keeps their id, is rewriting once. */
  lemma UpdateIdempotent<T>(s: seq<T>, key: T -> int, id: int, f: T -> T)
    requires forall x :: key(f(x)) == key(x) && f(f(x)) == f(x)
    ensures UpdateWhere(UpdateWhere(s, key, id, f), key, id, f) == UpdateWhere(s, key, id, f)
  {
    var once := UpdateWhere(s, key, id, f);
    var twice := UpdateWhere(once, key, id, f);
    forall i | 0 <= i < |s| ensures twice[i] == once[i] {
      if key(s[i]) == id {
        assert once[i] == f(s[i]);
      }
    }
  }

  /** `Math.max(lo, ...s.map(key))`: the largest id, or `lo` if that is
      larger. */
  function MaxKeyAtLeast<T(!new)>(s: seq<T>, key: T -> int, lo: int): (m: int)
    ensures lo <= m
    ensures forall x :: x in s ==> key(x) <= m
    ensures m == lo || exists x :: x in s && key(x) == m
  {
    if s == [] then lo
    else MaxKeyAtLeast(s[1..], key, if key(s[0]) > lo then key(s[0]) else lo)
  }

  /** Appending a record whose id is larger than every id in the list keeps
      the ids distinct. */
  lemma AppendFreshDistinct<T>(s: seq<T>, key: T -> int, x: T)
    requires DistinctKeys(s, key)
    requires forall y :: y in s ==> key(y) < key(x)
    ensures DistinctKeys(s + [x], key)
  {
    var r := s + [x];
    forall i, j | 0 <= i < j < |r| ensures key(r[i]) != key(r[j]) {
      if j == |s| {
        assert r[i] == s[i] && s[i] in s;
      } else {
        assert r[i] == s[i] && r[j] == s[j];
      }
    }
  }

  /** The status toggle of the customer and provider tables: "Active" becomes
      "Inactive", every other status becomes "Active". */
  function FlipStatus(status: string): (r: string)
    ensures r == "Active" || r == "Inactive"
    ensures r == "Inactive" <==> status == "Active"
  {
    if status == "Active" then "Inactive" else "Active"
  }

  /** Toggling twice gives back an Active or Inactive status, and only those. */
  lemma FlipStatusTwice(status: string)
    ensures FlipStatus(FlipStatus(status)) == status <==> status == "Active" || status == "Inactive"
  {
  }
}
