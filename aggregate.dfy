/**
 * The ranking step of `analyze_all_logs_in_directory`: the combined records
 * are grouped by their (IP, URL) pair with the size of each group
 * (`groupby(['IP', 'URL']).size()`), the groups are ordered by that size,
 * largest first (`sort_values(by='Count', ascending=False)`), and the first
 * rows are taken (`head(10)`, `head(100)`).
 */
module Aggregate {
  import opened Extractor

  /** One row of the ranking: a distinct (IP, URL) pair and how many records carry it. */
  datatype Entry = Entry(ip: string, url: string, count: nat)

  /** The grouping key of a row. */
  function KeyOf(e: Entry): Record
  {
    Record(e.ip, e.url)
  }

  /** The keys that occur among the rows. */
  function KeySet(es: seq<Entry>): set<Record>
  {
    set e | e in es :: KeyOf(e)
  }

  /** The distinct records of a record list. */
  function RecordSet(rs: seq<Record>): set<Record>
  {
    set r | r in rs
  }

  /** No two rows share a key. */
  predicate DistinctKeys(es: seq<Entry>)
  {
    forall i, j | 0 <= i < j < |es| :: KeyOf(es[i]) != KeyOf(es[j])
  }

  /** The total of the counts of the rows keyed `k`. */
  function CountOf(es: seq<Entry>, k: Record): nat
  {
    if |es| == 0 then 0
    else (if KeyOf(es[0]) == k then es[0].count else 0) + CountOf(es[1..], k)
  }

  /** The total of all counts. */
  function SumCounts(es: seq<Entry>): nat
  {
    if |es| == 0 then 0 else es[0].count + SumCounts(es[1..])
  }

  /** Counts never grow down the list: the order `sort_values(ascending=False)` produces. */
  predicate NonIncreasing(es: seq<Entry>)
  {
    forall i, j | 0 <= i < j < |es| :: es[i].count >= es[j].count
  }

  /**
   * What the source promises of its ranking of the records `rs`: one row per
   * distinct (IP, URL) pair of `rs` and no other, each row counting the
   * records with its pair, largest count first. The order among equal counts
   * is left open.
   */
  ghost predicate IsRanking(es: seq<Entry>, rs: seq<Record>)
  {
    && DistinctKeys(es)
    && (forall i | 0 <= i < |es| :: 1 <= es[i].count == multiset(rs)[KeyOf(es[i])])
    && KeySet(es) == RecordSet(rs)
    && NonIncreasing(es)
  }

  // ---------------------------------------------------------------- grouping

  /** Counts one more record: bumps the row with its key, or adds a row with count 1. */
  function AddRecord(es: seq<Entry>, r: Record): seq<Entry>
  {
    if |es| == 0 then [Entry(r.ip, r.url, 1)]
    else if KeyOf(es[0]) == r then [es[0].(count := es[0].count + 1)] + es[1..]
    else [es[0]] + AddRecord(es[1..], r)
  }

  /** `groupby(['IP', 'URL']).size()`: the rows after counting the records in order. */
  function GroupSize(rs: seq<Record>): seq<Entry>
  {
    if |rs| == 0 then [] else AddRecord(GroupSize(rs[..|rs| - 1]), rs[|rs| - 1])
  }

  /** The keys of a list are those of its head and its tail. */
  lemma KeySetCons(x: Entry, t: seq<Entry>)
    ensures KeySet([x] + t) == {KeyOf(x)} + KeySet(t)
  {
    var s := [x] + t;
    assert forall e :: e in s <==> e == x || e in t;
  }

  /** A list starting with `x` has distinct keys exactly when its tail has and lacks `x`'s key. */
  lemma DistinctCons(x: Entry, t: seq<Entry>)
    ensures DistinctKeys([x] + t) <==> KeyOf(x) !in KeySet(t) && DistinctKeys(t)
  {
    var s := [x] + t;
    assert forall i | 0 <= i < |t| :: s[i + 1] == t[i];
    if DistinctKeys(s) {
      forall e | e in t ensures KeyOf(e) != KeyOf(x) {
        var i :| 0 <= i < |t| && t[i] == e;
        assert KeyOf(s[0]) != KeyOf(s[i + 1]);
      }
    }
  }

  /** A list starting with `x` is non-increasing exactly when its tail is and `x` tops it. */
  lemma NonIncreasingCons(x: Entry, t: seq<Entry>)
    ensures NonIncreasing([x] + t) <==> (forall e | e in t :: x.count >= e.count) && NonIncreasing(t)
  {
    var s := [x] + t;
    assert forall i | 0 <= i < |t| :: s[i + 1] == t[i];
    if NonIncreasing(s) {
      forall e | e in t ensures x.count >= e.count {
        var i :| 0 <= i < |t| && t[i] == e;
        assert s[0].count >= s[i + 1].count;
      }
    }
  }

  /**
   * Counting a record raises the count of its key by one and leaves every
   * other key's count alone, adds its key to the keys, adds one to the total,
   * and keeps the keys distinct and the counts positive.
   */
  lemma {:induction false} AddRecordSpec(es: seq<Entry>, r: Record)
    requires DistinctKeys(es) && forall e | e in es :: e.count >= 1
    ensures DistinctKeys(AddRecord(es, r))
    ensures forall e | e in AddRecord(es, r) :: e.count >= 1
    ensures forall k :: CountOf(AddRecord(es, r), k) == CountOf(es, k) + (if k == r then 1 else 0)
    ensures KeySet(AddRecord(es, r)) == KeySet(es) + {r}
    ensures SumCounts(AddRecord(es, r)) == SumCounts(es) + 1
    decreases |es|
  {
    var a := AddRecord(es, r);
    if |es| == 0 {
      assert a == [Entry(r.ip, r.url, 1)] + [];
      KeySetCons(Entry(r.ip, r.url, 1), []);
    } else {
      var x := es[0];
      var t := es[1..];
      assert es == [x] + t;
      DistinctCons(x, t);
      KeySetCons(x, t);
      if KeyOf(x) == r {
        var y := x.(count := x.count + 1);
        assert a == [y] + t;
        DistinctCons(y, t);
        KeySetCons(y, t);
      } else {
        AddRecordSpec(t, r);
        var u := AddRecord(t, r);
        assert a == [x] + u;
        DistinctCons(x, u);
        KeySetCons(x, u);
      }
    }
  }

  /**
   * `groupby().size()` yields one row per distinct pair of the records with
   * a positive count, the count of a pair is its number of records, and the
   * counts add up to the number of records.
   */
  lemma {:induction false} GroupSizeSpec(rs: seq<Record>)
    ensures DistinctKeys(GroupSize(rs))
    ensures forall e | e in GroupSize(rs) :: e.count >= 1
    ensures forall k :: CountOf(GroupSize(rs), k) == multiset(rs)[k]
    ensures KeySet(GroupSize(rs)) == RecordSet(rs)
    ensures SumCounts(GroupSize(rs)) == |rs|
    decreases |rs|
  {
    if |rs| > 0 {
      var init := rs[..|rs| - 1];
      var last := rs[|rs| - 1];
      assert rs == init + [last];
      GroupSizeSpec(init);
      AddRecordSpec(GroupSize(init), last);
      assert multiset(rs) == multiset(init) + multiset{last};
      assert RecordSet(rs) == RecordSet(init) + {last};
    }
  }

  /** With distinct keys, the count of a row's key is that row's count. */
  lemma {:induction false} CountOfRow(es: seq<Entry>, i: nat)
    requires DistinctKeys(es) && i < |es|
    ensures CountOf(es, KeyOf(es[i])) == es[i].count
    decreases |es|
  {
    DistinctCons(es[0], es[1..]);
    assert es == [es[0]] + es[1..];
    if i == 0 {
      CountOfAbsent(es[1..], KeyOf(es[0]));
    } else {
      CountOfRow(es[1..], i - 1);
    }
  }

  /** A key no row carries counts zero. */
  lemma {:induction false} CountOfAbsent(es: seq<Entry>, k: Record)
    requires k !in KeySet(es)
    ensures CountOf(es, k) == 0
    decreases |es|
  {
    if |es| > 0 {
      assert es[0] in es;
      assert KeySet(es[1..]) <= KeySet(es) by {
        forall e | e in es[1..] ensures e in es {
        }
      }
      CountOfAbsent(es[1..], k);
    }
  }

  // ---------------------------------------------------------------- sorting

  /** Places `e` before the first row whose count is not larger than its own. */
  function InsertByCount(e: Entry, es: seq<Entry>): seq<Entry>
  {
    if |es| == 0 || es[0].count <= e.count then [e] + es
    else [es[0]] + InsertByCount(e, es[1..])
  }

  /** `sort_values(by='Count', ascending=False)`, with ties in one particular order. */
  function SortByCount(es: seq<Entry>): seq<Entry>
  {
    if |es| == 0 then [] else InsertByCount(es[0], SortByCount(es[1..]))
  }

  /** Inserting adds exactly the row `e`. */
  lemma {:induction false} InsertByCountRows(e: Entry, es: seq<Entry>)
    ensures multiset(InsertByCount(e, es)) == multiset(es) + multiset{e}
    ensures SumCounts(InsertByCount(e, es)) == SumCounts(es) + e.count
    decreases |es|
  {
    if |es| == 0 || es[0].count <= e.count {
      assert InsertByCount(e, es) == [e] + es;
      assert ([e] + es)[1..] == es;
    } else {
      var t := es[1..];
      assert es == [es[0]] + t;
      InsertByCountRows(e, t);
      assert InsertByCount(e, es) == [es[0]] + InsertByCount(e, t);
    }
  }

  /** Inserting into a non-increasing list keeps it non-increasing. */
  lemma {:induction false} InsertByCountOrder(e: Entry, es: seq<Entry>)
    requires NonIncreasing(es)
    ensures NonIncreasing(InsertByCount(e, es))
    decreases |es|
  {
    if |es| == 0 || es[0].count <= e.count {
      NonIncreasingCons(e, es);
      if |es| > 0 {
        assert es == [es[0]] + es[1..];
        NonIncreasingCons(es[0], es[1..]);
      }
    } else {
      var t := es[1..];
      assert es == [es[0]] + t;
      NonIncreasingCons(es[0], t);
      InsertByCountOrder(e, t);
      InsertByCountRows(e, t);
      var u := InsertByCount(e, t);
      forall x | x in u ensures es[0].count >= x.count {
        assert x in multiset(u);
      }
      NonIncreasingCons(es[0], u);
    }
  }

  /** The sort puts the largest counts first and neither loses nor invents a row. */
  lemma {:induction false} SortByCountSpec(es: seq<Entry>)
    ensures NonIncreasing(SortByCount(es))
    ensures multiset(SortByCount(es)) == multiset(es)
    ensures SumCounts(SortByCount(es)) == SumCounts(es)
    decreases |es|
  {
    if |es| > 0 {
      SortByCountSpec(es[1..]);
      InsertByCountRows(es[0], SortByCount(es[1..]));
      InsertByCountOrder(es[0], SortByCount(es[1..]));
      assert es == [es[0]] + es[1..];
    }
  }

  /** The ranking `analyze_all_logs_in_directory` computes from the combined records. */
  function RankByCount(rs: seq<Record>): seq<Entry>
  {
    SortByCount(GroupSize(rs))
  }

  /** Rows with distinct keys hold no row twice. */
  lemma {:induction false} DistinctOnce(es: seq<Entry>, x: Entry)
    requires DistinctKeys(es)
    ensures multiset(es)[x] <= 1
    decreases |es|
  {
    if |es| > 0 {
      var t := es[1..];
      assert es == [es[0]] + t;
      DistinctCons(es[0], t);
      DistinctOnce(t, x);
      if x == es[0] {
        assert x !in t;
      }
    }
  }

  /** Reordering rows keeps their keys distinct. */
  lemma DistinctPermutation(a: seq<Entry>, b: seq<Entry>)
    requires DistinctKeys(a) && multiset(a) == multiset(b)
    ensures DistinctKeys(b)
  {
    forall i, j | 0 <= i < j < |b| ensures KeyOf(b[i]) != KeyOf(b[j]) {
      if KeyOf(b[i]) == KeyOf(b[j]) {
        assert b[i] in multiset(a) && b[j] in multiset(a);
        var p :| 0 <= p < |a| && a[p] == b[i];
        var q :| 0 <= q < |a| && a[q] == b[j];
        if b[i] == b[j] {
          assert b == b[..j] + [b[j]] + b[j + 1..];
          assert b[i] in b[..j];
          assert multiset(b)[b[i]] >= 2;
          DistinctOnce(a, b[i]);
        }
        assert false;
      }
    }
  }

  /** The computed ranking is a ranking of the records, and its counts add up to their number. */
  lemma RankByCountSpec(rs: seq<Record>)
    ensures IsRanking(RankByCount(rs), rs)
    ensures SumCounts(RankByCount(rs)) == |rs|
  {
    var g := GroupSize(rs);
    var s := RankByCount(rs);
    GroupSizeSpec(rs);
    SortByCountSpec(g);
    DistinctPermutation(g, s);
    forall i | 0 <= i < |s| ensures 1 <= s[i].count == multiset(rs)[KeyOf(s[i])] {
      assert s[i] in multiset(g);
      var p :| 0 <= p < |g| && g[p] == s[i];
      CountOfRow(g, p);
    }
    assert forall e :: e in s <==> e in g by {
      forall e ensures e in s <==> e in g {
        assert e in s <==> e in multiset(s);
        assert e in g <==> e in multiset(g);
      }
    }
    assert KeySet(s) == KeySet(g);
  }

  /**
   * The promise pins the ranking down up to the order of equal counts: any
   * two rankings of the same records hold the same rows.
   */
  lemma RankingUnique(a: seq<Entry>, b: seq<Entry>, rs: seq<Record>)
    requires IsRanking(a, rs) && IsRanking(b, rs)
    ensures multiset(a) == multiset(b)
  {
    forall x | x in a ensures x in b {
      assert KeyOf(x) in KeySet(b);
      var y :| y in b && KeyOf(y) == KeyOf(x);
      var i :| 0 <= i < |a| && a[i] == x;
      var j :| 0 <= j < |b| && b[j] == y;
    }
    forall x | x in b ensures x in a {
      assert KeyOf(x) in KeySet(a);
      var y :| y in a && KeyOf(y) == KeyOf(x);
      var i :| 0 <= i < |b| && b[i] == x;
      var j :| 0 <= j < |a| && a[j] == y;
    }
    forall x ensures multiset(a)[x] == multiset(b)[x] {
      DistinctOnce(a, x);
      DistinctOnce(b, x);
      assert x in multiset(a) <==> x in a;
      assert x in multiset(b) <==> x in b;
    }
  }

  /** A ranking depends on the records only through how often each occurs, not on their order. */
  lemma RankingPermuted(a: seq<Entry>, rs: seq<Record>, rs2: seq<Record>)
    requires multiset(rs) == multiset(rs2)
    ensures IsRanking(a, rs) <==> IsRanking(a, rs2)
  {
    assert RecordSet(rs) == RecordSet(rs2) by {
      forall r ensures r in rs <==> r in rs2 {
        assert r in rs <==> r in multiset(rs);
        assert r in rs2 <==> r in multiset(rs2);
      }
    }
  }

  /**
   * Aggregating a reordering of the records gives the same rows: the computed
   * rankings of two record lists with the same elements, counted with
   * multiplicity, differ at most in the order of their rows.
   */
  lemma RankByCountPermuted(rs: seq<Record>, rs2: seq<Record>)
    requires multiset(rs) == multiset(rs2)
    ensures multiset(RankByCount(rs)) == multiset(RankByCount(rs2))
  {
    RankByCountSpec(rs);
    RankByCountSpec(rs2);
    RankingPermuted(RankByCount(rs2), rs, rs2);
    RankingUnique(RankByCount(rs), RankByCount(rs2), rs);
  }

  // ---------------------------------------------------------------- head

  function Min(a: int, b: int): int
  {
    if a <= b then a else b
  }

  /** `head(k)`: the first `k` rows, or all of them when there are fewer. */
  function Head(es: seq<Entry>, k: nat): (h: seq<Entry>)
    ensures |h| == Min(k, |es|)
    ensures h <= es
    ensures NonIncreasing(es) ==> NonIncreasing(h)
    ensures NonIncreasing(es) ==> forall i, j | 0 <= i < |h| <= j < |es| :: h[i].count >= es[j].count
  {
    es[..Min(k, |es|)]
  }

  /** Two records with the same pair make a single row with count 2. */
  lemma TwoIdenticalRecords(r: Record)
    ensures RankByCount([r, r]) == [Entry(r.ip, r.url, 2)]
  {
    var one := Entry(r.ip, r.url, 1);
    assert [r, r][..1] == [r];
    assert [r][..0] == [];
    assert GroupSize([r]) == [one];
    assert KeyOf(one) == r;
    var two := Entry(r.ip, r.url, 2);
    assert GroupSize([r, r]) == [two];
    assert [two][1..] == [];
    assert SortByCount([two]) == InsertByCount(two, []) == [two];
  }
}
