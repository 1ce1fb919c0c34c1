/** Shared vocabulary: optional values, Python's ordering of strings, and the
    sequence helpers that stand for pandas' drop_duplicates and groupby keys. */
module Common {

  /** A cell that may be null (NaN/None) or a column that may be absent. */
  datatype Option<+T> = None | Some(value: T) {
    /** `row.get(column, default)` and `fillna(default)`. */
    function GetOr(default: T): T {
      if Some? then value else default
    }
  }

  /** The homologated `contactabilidad` labels and the `es_pdp` value of a commitment. */
  const EfectivoLabel: string := "CONTACTO_EFECTIVO"
  const NoEfectivoLabel: string := "CONTACTO_NO_EFECTIVO"
  const NoContactoLabel: string := "NO_CONTACTO"
  const PdpYes: string := "SI"

  /** The outcome of a step that may raise `KeyError` on a dictionary lookup. */
  datatype Result<+T> = Ok(value: T) | KeyError(key: string)

  /** The elements of a sequence, as a set. */
  function Elems<T>(s: seq<T>): set<T> {
    set x | x in s
  }

  lemma ElemsCons<T>(x: T, s: seq<T>)
    ensures Elems([x] + s) == {x} + Elems(s)
  {
    assert forall y :: y in [x] + s <==> y == x || y in s;
  }

  lemma ElemsSplit<T>(s: seq<T>)
    requires s != []
    ensures Elems(s) == {s[0]} + Elems(s[1..])
  {
    assert s == [s[0]] + s[1..];
    ElemsCons(s[0], s[1..]);
  }

  /** No value occurs twice. */
  predicate NoDup<T(==)>(s: seq<T>) {
    forall i, j :: 0 <= i < j < |s| ==> s[i] != s[j]
  }

  // ---------------------------------------------------------------------------
  // drop_duplicates(keep='first')
  // ---------------------------------------------------------------------------

  /** The elements of `s` not in `seen`, each at its first occurrence, in order. */
  function DistinctFrom<T(==)>(s: seq<T>, seen: set<T>): (r: seq<T>)
    ensures NoDup(r)
    ensures Elems(r) == Elems(s) - seen
    decreases |s|
  {
    if s == [] then []
    else if s[0] in seen then DistinctFrom(s[1..], seen)
    else
      ElemsSplit(s);
      ElemsCons(s[0], DistinctFrom(s[1..], seen + {s[0]}));
      [s[0]] + DistinctFrom(s[1..], seen + {s[0]})
  }

  /** `drop_duplicates()`: keeps the first occurrence of every value. */
  function Distinct<T(==)>(s: seq<T>): (r: seq<T>)
    ensures NoDup(r)
    ensures Elems(r) == Elems(s)
  {
    DistinctFrom(s, {})
  }

  lemma DistinctMember<T>(s: seq<T>, x: T)
    ensures x in Distinct(s) <==> x in s
  {
    assert x in Distinct(s) <==> x in Elems(Distinct(s));
  }

  /** `a` occurs in `s` before the first occurrence of `b`. */
  predicate OccursBefore<T(==)>(s: seq<T>, a: T, b: T) {
    exists k :: 0 <= k < |s| && s[k] == a && forall m :: 0 <= m < k ==> s[m] != b
  }

  lemma {:induction false} DistinctFromFirstSeen<T>(s: seq<T>, seen: set<T>, i: int, j: int)
    requires 0 <= i < j < |DistinctFrom(s, seen)|
    ensures OccursBefore(s, DistinctFrom(s, seen)[i], DistinctFrom(s, seen)[j])
    decreases |s|
  {
    var r := DistinctFrom(s, seen);
    var a, b := r[i], r[j];
    if s[0] !in seen && i == 0 {
      assert s[0] == a;
    } else {
      var seen' := if s[0] in seen then seen else seen + {s[0]};
      var i', j' := if s[0] in seen then i else i - 1, if s[0] in seen then j else j - 1;
      var r' := DistinctFrom(s[1..], seen');
      assert r'[i'] == a && r'[j'] == b;
      DistinctFromFirstSeen(s[1..], seen', i', j');
      assert a in Elems(r') && b in Elems(r');
      ShiftOccurrence(s, a, b);
    }
  }

  /** An occurrence in the tail, before the tail's first `b`, is one in `s` when `s[0]` is not `b`. */
  lemma ShiftOccurrence<T>(s: seq<T>, a: T, b: T)
    requires s != [] && s[0] != b && OccursBefore(s[1..], a, b)
    ensures OccursBefore(s, a, b)
  {
    var k :| 0 <= k < |s[1..]| && s[1..][k] == a && forall m :: 0 <= m < k ==> s[1..][m] != b;
    assert s[k + 1] == a;
    forall m | 0 <= m < k + 1 ensures s[m] != b {
      if m > 0 {
        assert s[m] == s[1..][m - 1];
      }
    }
  }

  /** `drop_duplicates()` keeps first occurrences in order: of two kept values, the
      earlier one occurs before the later one first does. */
  lemma DistinctFirstSeen<T>(s: seq<T>, i: int, j: int)
    requires 0 <= i < j < |Distinct(s)|
    ensures OccursBefore(s, Distinct(s)[i], Distinct(s)[j])
  {
    DistinctFromFirstSeen(s, {}, i, j);
  }

  lemma {:induction false} DistinctFromSnoc<T>(s: seq<T>, seen: set<T>, x: T)
    ensures DistinctFrom(s + [x], seen) == DistinctFrom(s, seen) + (if x in seen || x in s then [] else [x])
    decreases |s|
  {
    if s == [] {
      assert [x][1..] == [];
    } else {
      assert (s + [x])[0] == s[0] && (s + [x])[1..] == s[1..] + [x];
      assert x in s <==> x == s[0] || x in s[1..];
      if s[0] in seen {
        DistinctFromSnoc(s[1..], seen, x);
      } else {
        DistinctFromSnoc(s[1..], seen + {s[0]}, x);
      }
    }
  }

  /** Appending a value adds it at the end if it is new, and changes nothing otherwise. */
  lemma DistinctSnoc<T>(s: seq<T>, x: T)
    ensures Distinct(s + [x]) == Distinct(s) + (if x in s then [] else [x])
  {
    DistinctFromSnoc(s, {}, x);
  }

  /** `df[columns].drop_duplicates()`: the distinct values of `f` over the rows, first occurrences in order. */
  function DistinctProjection<T, U(==, !new)>(rows: seq<T>, f: T -> U): (r: seq<U>)
    ensures NoDup(r)
    ensures forall u :: u in r <==> exists i :: 0 <= i < |rows| && f(rows[i]) == u
  {
    var projected := seq(|rows|, i requires 0 <= i < |rows| => f(rows[i]));
    assert forall u :: u in projected <==> exists i :: 0 <= i < |rows| && f(rows[i]) == u by {
      forall u | u in projected ensures exists i :: 0 <= i < |rows| && f(rows[i]) == u {
        var i :| 0 <= i < |projected| && projected[i] == u;
      }
      forall u | exists i :: 0 <= i < |rows| && f(rows[i]) == u ensures u in projected {
        var i :| 0 <= i < |rows| && f(rows[i]) == u;
        assert projected[i] == u;
      }
    }
    var r := Distinct(projected);
    assert forall u :: u in r <==> u in Elems(projected);
    r
  }

  /** Dropping duplicates changes nothing in a sequence that has none. */
  lemma {:induction false} DistinctFromNoDup<T>(s: seq<T>, seen: set<T>)
    requires NoDup(s)
    requires forall k :: 0 <= k < |s| ==> s[k] !in seen
    ensures DistinctFrom(s, seen) == s
    decreases |s|
  {
    if s != [] {
      assert NoDup(s[1..]) by {
        forall i, j | 0 <= i < j < |s[1..]| ensures s[1..][i] != s[1..][j] {
          assert s[1..][i] == s[i + 1] && s[1..][j] == s[j + 1];
        }
      }
      forall k | 0 <= k < |s[1..]| ensures s[1..][k] !in seen + {s[0]} {
        assert s[1..][k] == s[k + 1];
      }
      DistinctFromNoDup(s[1..], seen + {s[0]});
      assert s == [s[0]] + s[1..];
    }
  }

  /** When the projected values are already distinct, the projection keeps them all, in order. */
  lemma DistinctProjectionNoDup<T, U(!new)>(rows: seq<T>, f: T -> U)
    requires forall i, j :: 0 <= i < j < |rows| ==> f(rows[i]) != f(rows[j])
    ensures |DistinctProjection(rows, f)| == |rows|
    ensures forall i :: 0 <= i < |rows| ==> DistinctProjection(rows, f)[i] == f(rows[i])
  {
    var projected := seq(|rows|, i requires 0 <= i < |rows| => f(rows[i]));
    DistinctFromNoDup(projected, {});
  }

  /** In a duplicate-free sequence a value occurs at most once. */
  lemma {:induction false} NoDupOccursOnce<T>(s: seq<T>, x: T)
    requires NoDup(s)
    ensures multiset(s)[x] == if x in s then 1 else 0
  {
    if s != [] {
      assert s == [s[0]] + s[1..];
      assert NoDup(s[1..]) by {
        forall i, j | 0 <= i < j < |s[1..]| ensures s[1..][i] != s[1..][j] {
          assert s[1..][i] == s[i + 1] && s[1..][j] == s[j + 1];
        }
      }
      NoDupOccursOnce(s[1..], x);
      if s[0] == x {
        assert x !in s[1..] by {
          forall k | 0 <= k < |s[1..]| ensures s[1..][k] != x {
            assert s[1..][k] == s[k + 1];
          }
        }
      }
    }
  }

  /** Some element of `s` maps to `k` exactly when one of its prefix `pre` or its last does. */
  lemma ExistsSnoc<T, K>(s: seq<T>, pre: seq<T>, f: T -> K, k: K)
    requires s != [] && pre == s[..|s| - 1]
    ensures (exists i :: 0 <= i < |s| && f(s[i]) == k)
        <==> (exists i :: 0 <= i < |pre| && f(pre[i]) == k) || f(s[|s| - 1]) == k
  {
    if exists i :: 0 <= i < |s| && f(s[i]) == k {
      var i :| 0 <= i < |s| && f(s[i]) == k;
      if i < |pre| {
        assert pre[i] == s[i];
      }
    }
    if exists i :: 0 <= i < |pre| && f(pre[i]) == k {
      var i :| 0 <= i < |pre| && f(pre[i]) == k;
      assert pre[i] == s[i];
    }
  }

  // ---------------------------------------------------------------------------
  // Python's `<` on str: lexicographic on code points
  // ---------------------------------------------------------------------------

  /** `a < b` for Python strings. */
  predicate StrLess(a: string, b: string)
    decreases |a|
  {
    if |a| == 0 then |b| > 0
    else if |b| == 0 then false
    else if a[0] < b[0] then true
    else a[0] == b[0] && StrLess(a[1..], b[1..])
  }

  lemma {:induction false} StrLessIrreflexive(a: string)
    ensures !StrLess(a, a)
    decreases |a|
  {
    if |a| > 0 {
      StrLessIrreflexive(a[1..]);
    }
  }

  lemma {:induction false} StrLessTransitive(a: string, b: string, c: string)
    requires StrLess(a, b) && StrLess(b, c)
    ensures StrLess(a, c)
    decreases |a|
  {
    if |a| > 0 && a[0] == b[0] && b[0] == c[0] {
      StrLessTransitive(a[1..], b[1..], c[1..]);
    }
  }

  lemma StrLessAsymmetric(a: string, b: string)
    requires StrLess(a, b)
    ensures !StrLess(b, a)
  {
    if StrLess(b, a) {
      StrLessTransitive(a, b, a);
      StrLessIrreflexive(a);
    }
  }

  lemma {:induction false} StrLessTotal(a: string, b: string)
    ensures a == b || StrLess(a, b) || StrLess(b, a)
    decreases |a|
  {
    if |a| > 0 && |b| > 0 && a[0] == b[0] {
      StrLessTotal(a[1..], b[1..]);
      if a[1..] == b[1..] {
        assert a == [a[0]] + a[1..] && b == [b[0]] + b[1..];
      }
    }
  }

  /** Strictly ascending in Python's string order. */
  predicate StrictlyAscending(s: seq<string>) {
    forall i, j :: 0 <= i < j < |s| ==> StrLess(s[i], s[j])
  }

  /** Inserts `x` into an ascending duplicate-free sequence of strings. */
  function InsertString(s: seq<string>, x: string): (r: seq<string>)
    requires StrictlyAscending(s)
    ensures StrictlyAscending(r)
    ensures Elems(r) == Elems(s) + {x}
  {
    if s == [] then [x]
    else if x == s[0] then s
    else if StrLess(x, s[0]) then
      AscendingHead(s);
      forall y | y in Elems(s) ensures StrLess(x, y) {
        if y != s[0] {
          ElemsSplit(s);
          StrLessTransitive(x, s[0], y);
        }
      }
      AscendingCons(x, s);
      ElemsCons(x, s);
      [x] + s
    else
      StrLessTotal(x, s[0]);
      AscendingHead(s);
      var t := InsertString(s[1..], x);
      AscendingCons(s[0], t);
      ElemsSplit(s);
      ElemsCons(s[0], t);
      [s[0]] + t
  }

  /** The tail of an ascending sequence is ascending and lies above its head. */
  lemma AscendingHead(s: seq<string>)
    requires StrictlyAscending(s) && s != []
    ensures StrictlyAscending(s[1..])
    ensures forall y :: y in Elems(s[1..]) ==> StrLess(s[0], y)
  {
    forall y | y in Elems(s[1..]) ensures StrLess(s[0], y) {
      var k :| 0 <= k < |s[1..]| && s[1..][k] == y;
      assert s[k + 1] == y;
    }
  }

  /** A string below every element of an ascending sequence can go first. */
  lemma AscendingCons(h: string, t: seq<string>)
    requires StrictlyAscending(t)
    requires forall y :: y in Elems(t) ==> StrLess(h, y)
    ensures StrictlyAscending([h] + t)
  {
    var r := [h] + t;
    forall i, j | 0 <= i < j < |r| ensures StrLess(r[i], r[j]) {
      assert r[j] == t[j - 1];
      if i > 0 {
        assert r[i] == t[i - 1];
      } else {
        assert t[j - 1] in Elems(t);
      }
    }
  }

  /** The distinct values of `s`, ascending: the keys of `groupby` (sort=True). */
  function SortedKeys(s: seq<string>): (r: seq<string>)
    ensures StrictlyAscending(r)
    ensures Elems(r) == Elems(s)
  {
    if s == [] then []
    else InsertString(SortedKeys(s[1..]), s[0])
  }

  /** Two strings that agree up to position `k` and differ there are ordered by that character. */
  lemma {:induction false} StrLessAtFirstDifference(a: string, b: string, k: nat)
    requires k < |a| && k < |b| && a[..k] == b[..k] && a[k] < b[k]
    ensures StrLess(a, b)
    decreases k
  {
    if k > 0 {
      assert a[0] == a[..k][0] == b[..k][0] == b[0];
      assert a[1..][..k - 1] == a[1..k] == a[..k][1..];
      assert b[1..][..k - 1] == b[1..k] == b[..k][1..];
      StrLessAtFirstDifference(a[1..], b[1..], k - 1);
    }
  }

  /** An ascending sequence has no repeated value. */
  lemma AscendingNoDup(s: seq<string>)
    requires StrictlyAscending(s)
    ensures NoDup(s)
  {
    forall i, j | 0 <= i < j < |s| ensures s[i] != s[j] {
      StrLessIrreflexive(s[i]);
    }
  }

  // ---------------------------------------------------------------------------
  // Sorted distinct integers (group keys of a date column)
  // ---------------------------------------------------------------------------

  predicate Increasing(s: seq<int>) {
    forall i, j :: 0 <= i < j < |s| ==> s[i] < s[j]
  }

  function InsertInt(s: seq<int>, x: int): (r: seq<int>)
    requires Increasing(s)
    ensures Increasing(r)
    ensures Elems(r) == Elems(s) + {x}
  {
    if s == [] then [x]
    else if x == s[0] then s
    else if x < s[0] then [x] + s
    else
      ElemsSplit(s);
      var t := InsertInt(s[1..], x);
      assert forall j | 0 <= j < |t| :: s[0] < t[j] by {
        forall j | 0 <= j < |t| ensures s[0] < t[j] {
          assert t[j] in Elems(s[1..]) + {x};
          if t[j] != x {
            var k :| 0 <= k < |s[1..]| && s[1..][k] == t[j];
            assert s[k + 1] == t[j];
          }
        }
      }
      ElemsCons(s[0], t);
      [s[0]] + t
  }

  /** The distinct values of `s`, ascending. */
  function SortedInts(s: seq<int>): (r: seq<int>)
    ensures Increasing(r)
    ensures Elems(r) == Elems(s)
  {
    if s == [] then [] else InsertInt(SortedInts(s[1..]), s[0])
  }
}
