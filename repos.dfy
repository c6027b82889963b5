/**
 * A repository row as the report builds it (metadata, clone statistics, download counts; every
 * field may be missing), and the top-N choice the summary card and the history chart both make:
 * `sorted(repo_rows, key=lambda x: (x.get("clone_count") or 0), reverse=True)[:top_n]`.
 * Python's sort is stable, also with `reverse=True`, so rows with equal counts keep their order.
 */
module Repos {
  import opened Wrappers
  import opened Text

  datatype Repo = Repo(
    name: Option<string>,
    description: Option<string>,
    language: Option<string>,
    stars: Option<int>,
    forks: Option<int>,
    watchers: Option<int>,
    openIssues: Option<int>,
    pushedAt: Option<string>,
    clones: Option<int>,
    uniques: Option<int>,
    downloads14d: Option<int>,
    downloadsTotal: Option<int>)

  /** The text of one optional count (`"N/A" if v is None else str(v)`): `"N/A"` exactly when the
      count is missing, otherwise a decimal string that denotes the count. */
  function CountLabel(v: Option<int>): (s: string)
    ensures s == "N/A" <==> v.None?
    ensures v.Some? ==> |s| >= 1 && forall i :: 0 <= i < |s| ==> IsDigit(s[i]) || s[i] == '-'
    ensures v.Some? ==> DecimalValue(s) == v.value && (s[0] == '-' <==> v.value < 0)
  {
    match v
    case None => "N/A"
    case Some(n) =>
      var d := DecimalString(n);
      assert d != "N/A" by {
        if |d| == 3 { assert d[0] != 'N'; }
      }
      d
  }

  /** The sort key: `clone_count or 0`. */
  function ClonesKey(r: Repo): int {
    OrZero(r.clones)
  }

  predicate DescendingByClones(s: seq<Repo>) {
    forall i, j :: 0 <= i < j < |s| ==> ClonesKey(s[i]) >= ClonesKey(s[j])
  }

  /** The rows of `s` whose key is `k`, in their order in `s`. */
  function WithKey(s: seq<Repo>, k: int): seq<Repo> {
    if s == [] then []
    else if ClonesKey(s[0]) == k then [s[0]] + WithKey(s[1..], k)
    else WithKey(s[1..], k)
  }

  /** Insert `x` in front of the first row whose key is not larger than its own. */
  function InsertByClones(x: Repo, s: seq<Repo>): (r: seq<Repo>)
    requires DescendingByClones(s)
    ensures DescendingByClones(r)
    ensures multiset(r) == multiset(s) + multiset{x}
  {
    if s == [] || ClonesKey(s[0]) <= ClonesKey(x) then
      PrependDescending(x, s);
      [x] + s
    else
      var t := InsertByClones(x, s[1..]);
      InsertBelowHead(x, s, t);
      [s[0]] + t
  }

  lemma PrependDescending(a: Repo, t: seq<Repo>)
    requires DescendingByClones(t) && (t == [] || ClonesKey(t[0]) <= ClonesKey(a))
    ensures DescendingByClones([a] + t)
  {
    var r := [a] + t;
    forall i, j | 0 <= i < j < |r| ensures ClonesKey(r[i]) >= ClonesKey(r[j]) {
      assert r[j] == t[j - 1];
      if i > 0 {
        assert r[i] == t[i - 1];
      } else {
        assert ClonesKey(t[0]) >= ClonesKey(t[j - 1]);
      }
    }
  }

  lemma InsertBelowHead(x: Repo, s: seq<Repo>, t: seq<Repo>)
    requires s != [] && DescendingByClones(s) && ClonesKey(s[0]) > ClonesKey(x)
    requires DescendingByClones(t) && multiset(t) == multiset(s[1..]) + multiset{x}
    ensures DescendingByClones([s[0]] + t)
    ensures multiset([s[0]] + t) == multiset(s) + multiset{x}
  {
    assert s == [s[0]] + s[1..];
    if t != [] {
      assert t[0] in multiset(t);
      if t[0] != x {
        assert t[0] in multiset(s[1..]);
        var j :| 0 <= j < |s[1..]| && s[1..][j] == t[0];
        assert s[j + 1] == t[0];
      }
    }
    PrependDescending(s[0], t);
  }

  /** `sorted(rows, key=clone_count or 0, reverse=True)`. */
  function SortByClones(s: seq<Repo>): (r: seq<Repo>)
    ensures DescendingByClones(r)
    ensures multiset(r) == multiset(s) && |r| == |s|
  {
    if s == [] then []
    else
      assert s == [s[0]] + s[1..];
      InsertByClones(s[0], SortByClones(s[1..]))
  }

  lemma {:induction false} WithKeyConcat(a: seq<Repo>, b: seq<Repo>, k: int)
    ensures WithKey(a + b, k) == WithKey(a, k) + WithKey(b, k)
  {
    if a == [] {
      assert a + b == b;
    } else {
      var ab := a + b;
      assert ab[0] == a[0];
      assert ab[1..] == a[1..] + b;
      WithKeyConcat(a[1..], b, k);
      if ClonesKey(a[0]) == k {
        assert [a[0]] + (WithKey(a[1..], k) + WithKey(b, k)) == ([a[0]] + WithKey(a[1..], k)) + WithKey(b, k);
      }
    }
  }

  lemma {:induction false} InsertStable(x: Repo, s: seq<Repo>, k: int)
    requires DescendingByClones(s)
    ensures WithKey(InsertByClones(x, s), k) == if ClonesKey(x) == k then [x] + WithKey(s, k) else WithKey(s, k)
  {
    if s == [] || ClonesKey(s[0]) <= ClonesKey(x) {
      var r := [x] + s;
      assert InsertByClones(x, s) == r;
      assert r[0] == x && r[1..] == s;
    } else {
      var t := InsertByClones(x, s[1..]);
      var r := [s[0]] + t;
      assert InsertByClones(x, s) == r;
      assert r[0] == s[0] && r[1..] == t;
      InsertStable(x, s[1..], k);
      if ClonesKey(s[0]) == k {
        assert ClonesKey(x) != k;
        assert WithKey(r, k) == [s[0]] + WithKey(t, k);
      } else if ClonesKey(x) == k {
        assert WithKey(r, k) == WithKey(t, k) == [x] + WithKey(s[1..], k);
      }
    }
  }

  /** The sort is stable: the rows sharing a key come out in their input order. */
  lemma {:induction false} SortByClonesStable(s: seq<Repo>, k: int)
    ensures WithKey(SortByClones(s), k) == WithKey(s, k)
  {
    if s != [] {
      SortByClonesStable(s[1..], k);
      InsertStable(s[0], SortByClones(s[1..]), k);
    }
  }

  /** `rows_sorted[:top_n]`. */
  function TopByClones(rows: seq<Repo>, n: int): (r: seq<Repo>)
    ensures n >= 0 ==> |r| == if n < |rows| then n else |rows|
    ensures n < 0 ==> |r| == if |rows| + n > 0 then |rows| + n else 0
    ensures DescendingByClones(r)
    ensures multiset(r) <= multiset(rows)
  {
    var sorted := SortByClones(rows);
    var r := PyPrefix(sorted, n);
    PrefixKeeps(sorted, |r|);
    r
  }

  /** A prefix of a descending list is descending and part of it. */
  lemma PrefixKeeps(s: seq<Repo>, k: nat)
    requires k <= |s| && DescendingByClones(s)
    ensures DescendingByClones(s[..k]) && multiset(s[..k]) + multiset(s[k..]) == multiset(s)
  {
    assert s == s[..k] + s[k..];
  }

  /** The chosen rows have the largest counts: no row left out has a larger count than a chosen one. */
  lemma TopByClonesSelectsLargest(rows: seq<Repo>, n: int)
    ensures var r := TopByClones(rows, n);
            forall i, x :: 0 <= i < |r| && x in multiset(rows) - multiset(r) ==> ClonesKey(r[i]) >= ClonesKey(x)
  {
    var sorted := SortByClones(rows);
    var r := TopByClones(rows, n);
    var k := |r|;
    assert r == sorted[..k];
    PrefixDominates(sorted, k);
  }

  /** Every row of a prefix of a descending list has at least the count of every row after it. */
  lemma PrefixDominates(s: seq<Repo>, k: nat)
    requires k <= |s| && DescendingByClones(s)
    ensures forall i, x :: 0 <= i < k && x in multiset(s) - multiset(s[..k]) ==> ClonesKey(s[..k][i]) >= ClonesKey(x)
  {
    PrefixKeeps(s, k);
    forall i, x | 0 <= i < k && x in multiset(s) - multiset(s[..k]) ensures ClonesKey(s[..k][i]) >= ClonesKey(x) {
      assert x in multiset(s[k..]);
      var j :| 0 <= j < |s| - k && s[k..][j] == x;
      assert s[k..][j] == s[k + j];
    }
  }

  /** Ties keep their input order: the chosen rows with a given count are the first rows of the
      input with that count. */
  lemma TopByClonesKeepsTieOrder(rows: seq<Repo>, n: int, k: int)
    ensures WithKey(TopByClones(rows, n), k) <= WithKey(rows, k)
  {
    var sorted := SortByClones(rows);
    var r := TopByClones(rows, n);
    assert sorted == r + sorted[|r|..];
    WithKeyConcat(r, sorted[|r|..], k);
    SortByClonesStable(rows, k);
  }
}
