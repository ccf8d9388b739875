/**
 * Top-5 selector and display aliases: the general table sorted by total earnings,
 * highest first, cut to its first five rows, and the short names shown for two
 * of the games.
 */
module TopGames {
  import opened Rows

  /** How many games the prize-pool view and the annotations show. */
  const TopCount: nat := 5

  const CsgoName: string := "Counter-Strike: Global Offensive"
  const LolName: string := "League of Legends"

  function Min(a: nat, b: nat): nat
  {
    if a <= b then a else b
  }

  /** Non-increasing in total earnings. */
  predicate SortedDesc(s: seq<GameRow>)
  {
    forall i, j :: 0 <= i < j < |s| ==> s[i].totalEarnings >= s[j].totalEarnings
  }

  /**
   * What a descending sort may return: the same rows, highest earnings first. The
   * library's default sort is not stable, so the order among equal earnings is not
   * fixed; the properties below are proved for every such arrangement.
   */
  predicate DescendingArrangement(g: seq<GameRow>, s: seq<GameRow>)
    ensures DescendingArrangement(g, s) ==> |s| == |g|
  {
    assert |multiset(s)| == |s| && |multiset(g)| == |g|;
    SortedDesc(s) && multiset(s) == multiset(g)
  }

  /** In a sorted table no row earns more than the first. */
  lemma FirstIsLargest(s: seq<GameRow>, y: GameRow)
    requires SortedDesc(s) && y in s
    ensures y.totalEarnings <= s[0].totalEarnings
  {
    var j :| 0 <= j < |s| && s[j] == y;
    if j > 0 {
      assert s[0].totalEarnings >= s[j].totalEarnings;
    }
  }

  /** A row earning at least as much as every row of a sorted table can go in front. */
  lemma PrependSorted(x: GameRow, s: seq<GameRow>)
    requires SortedDesc(s)
    requires forall k :: 0 <= k < |s| ==> s[k].totalEarnings <= x.totalEarnings
    ensures SortedDesc([x] + s)
    ensures multiset([x] + s) == multiset(s) + multiset{x}
  {
    assert forall k :: 1 <= k < |s| + 1 ==> ([x] + s)[k] == s[k - 1];
  }

  /** Place x in front of the first row it is not below. */
  function InsertDesc(x: GameRow, s: seq<GameRow>): (r: seq<GameRow>)
    requires SortedDesc(s)
    ensures |r| == |s| + 1
    ensures forall k :: 0 <= k < |r| ==> r[k] == x || r[k] in s
    ensures SortedDesc(r)
    ensures multiset(r) == multiset(s) + multiset{x}
  {
    if |s| == 0 || x.totalEarnings >= s[0].totalEarnings then
      PrependSorted(x, s);
      [x] + s
    else
      var rest := InsertDesc(x, s[1..]);
      assert s == [s[0]] + s[1..];
      assert forall k :: 0 <= k < |rest| ==> rest[k].totalEarnings <= s[0].totalEarnings by {
        forall k | 0 <= k < |rest|
          ensures rest[k].totalEarnings <= s[0].totalEarnings
        {
          if rest[k] != x {
            FirstIsLargest(s, rest[k]);
          }
        }
      }
      PrependSorted(s[0], rest);
      [s[0]] + rest
  }

  /** sort_values(by='TotalEarnings', ascending=False), with one choice of tie order. */
  function SortByEarnings(g: seq<GameRow>): (r: seq<GameRow>)
    ensures DescendingArrangement(g, r)
  {
    if |g| == 0 then []
    else
      assert g == [g[0]] + g[1..];
      InsertDesc(g[0], SortByEarnings(g[1..]))
  }

  /** Lines 29 and 68: the sorted table cut to its first five rows (.iloc[:5]). */
  function TopEarners(g: seq<GameRow>): (r: seq<GameRow>)
    ensures |r| == Min(TopCount, |g|)
    ensures SortedDesc(r)
    ensures multiset(r) <= multiset(g)
    ensures forall x :: x in multiset(g) - multiset(r) ==> AtMostAll(x, r)
  {
    var s := SortByEarnings(g);
    TopPrefix(g, s, Min(TopCount, |g|));
    s[..Min(TopCount, |g|)]
  }

  /** x earns no more than any row of r. */
  predicate AtMostAll(x: GameRow, r: seq<GameRow>)
  {
    forall i :: 0 <= i < |r| ==> x.totalEarnings <= r[i].totalEarnings
  }

  /**
   * Any prefix of any descending arrangement is sorted, is drawn from the table,
   * and every row it leaves out earns no more than each row it keeps.
   */
  lemma TopPrefix(g: seq<GameRow>, s: seq<GameRow>, n: nat)
    requires DescendingArrangement(g, s)
    requires n <= |s|
    ensures SortedDesc(s[..n])
    ensures multiset(s[..n]) <= multiset(g)
    ensures multiset(g) - multiset(s[..n]) == multiset(s[n..])
    ensures forall x :: x in multiset(g) - multiset(s[..n]) ==> AtMostAll(x, s[..n])
  {
    assert s == s[..n] + s[n..];
    assert multiset(s) == multiset(s[..n]) + multiset(s[n..]);
    forall x | x in multiset(g) - multiset(s[..n])
      ensures AtMostAll(x, s[..n])
    {
      assert x in s[n..];
      var j :| 0 <= j < |s[n..]| && s[n..][j] == x;
      assert s[n + j] == x;
    }
  }

  /**
   * With more than five games, a game that occurs once and earns strictly less than
   * every other row is not selected.
   */
  lemma StrictlyLowestLeftOut(g: seq<GameRow>, x: GameRow)
    requires |g| > TopCount
    requires multiset(g)[x] == 1
    requires forall k :: 0 <= k < |g| && g[k] != x ==> x.totalEarnings < g[k].totalEarnings
    ensures x !in TopEarners(g)
  {
    var r := TopEarners(g);
    var d := multiset(g) - multiset(r);
    assert d != multiset{} by {
      assert |multiset(r)| == |r| && |multiset(g)| == |g|;
      assert multiset(g) != multiset(r);
    }
    var y :| y in d;
    assert y in multiset(g) && AtMostAll(y, r);
    if y == x {
      assert multiset(r)[x] == 0;
    } else {
      assert y in g;
      assert x.totalEarnings < y.totalEarnings;
    }
  }

  /** The earnings column of a sequence of rows. */
  function TotalEarningsColumn(s: seq<GameRow>): (r: seq<int>)
    ensures |r| == |s|
    ensures forall k :: 0 <= k < |s| ==> r[k] == s[k].totalEarnings
  {
    if |s| == 0 then [] else [s[0].totalEarnings] + TotalEarningsColumn(s[1..])
  }

  lemma {:induction false} EarningsColumnConcat(a: seq<GameRow>, b: seq<GameRow>)
    ensures TotalEarningsColumn(a + b) == TotalEarningsColumn(a) + TotalEarningsColumn(b)
  {
    assert |TotalEarningsColumn(a + b)| == |TotalEarningsColumn(a) + TotalEarningsColumn(b)|;
    forall k | 0 <= k < |a + b|
      ensures TotalEarningsColumn(a + b)[k] == (TotalEarningsColumn(a) + TotalEarningsColumn(b))[k]
    {
      if k < |a| {
        assert (a + b)[k] == a[k];
      } else {
        assert (a + b)[k] == b[k - |a|];
      }
    }
  }

  /** Equal multisets with equal heads have equal tails. */
  lemma TailsAgree<T>(x: seq<T>, y: seq<T>)
    requires |x| > 0 && |y| > 0 && x[0] == y[0] && multiset(x) == multiset(y)
    ensures multiset(x[1..]) == multiset(y[1..])
  {
    assert x == [x[0]] + x[1..];
    assert y == [y[0]] + y[1..];
    assert multiset(x[1..]) == multiset(x) - multiset{x[0]};
    assert multiset(y[1..]) == multiset(y) - multiset{y[0]};
  }

  /** Removing the element at j removes one copy of it from the multiset. */
  lemma RemoveAt<T>(b: seq<T>, j: nat)
    requires j < |b|
    ensures multiset(b[..j] + b[j + 1..]) == multiset(b) - multiset{b[j]}
  {
    assert b == b[..j] + [b[j]] + b[j + 1..];
    assert multiset(b) == multiset(b[..j]) + multiset{b[j]} + multiset(b[j + 1..]);
  }

  /** The earnings of a sequence of rows, as a multiset. */
  function EarningsBag(s: seq<GameRow>): multiset<int>
  {
    if |s| == 0 then multiset{} else multiset{s[0].totalEarnings} + EarningsBag(s[1..])
  }

  lemma {:induction false} ColumnBag(s: seq<GameRow>)
    ensures multiset(TotalEarningsColumn(s)) == EarningsBag(s)
  {
    if |s| > 0 {
      ColumnBag(s[1..]);
      assert TotalEarningsColumn(s) == [s[0].totalEarnings] + TotalEarningsColumn(s[1..]);
    }
  }

  lemma {:induction false} EarningsBagConcat(x: seq<GameRow>, y: seq<GameRow>)
    ensures EarningsBag(x + y) == EarningsBag(x) + EarningsBag(y)
  {
    if |x| == 0 {
      assert x + y == y;
    } else {
      assert (x + y)[1..] == x[1..] + y;
      EarningsBagConcat(x[1..], y);
    }
  }

  /** Removing one row removes its earnings from the bag and nothing else. */
  lemma EarningsBagRemoveAt(b: seq<GameRow>, j: nat)
    requires j < |b|
    ensures EarningsBag(b) == multiset{b[j].totalEarnings} + EarningsBag(b[..j] + b[j + 1..])
  {
    var l, m, r := b[..j], b[j..], b[j + 1..];
    assert EarningsBag(b) == EarningsBag(l) + EarningsBag(m) by {
      assert b == l + m;
      EarningsBagConcat(l, m);
    }
    assert EarningsBag(m) == multiset{b[j].totalEarnings} + EarningsBag(r) by {
      assert m[0] == b[j] && m[1..] == r;
    }
    assert EarningsBag(l + r) == EarningsBag(l) + EarningsBag(r) by {
      EarningsBagConcat(l, r);
    }
  }

  /** Rows that are a permutation of each other have the same bag of earnings. */
  lemma {:induction false} EarningsBagPermutation(a: seq<GameRow>, b: seq<GameRow>)
    requires multiset(a) == multiset(b)
    ensures EarningsBag(a) == EarningsBag(b)
    decreases |a|
  {
    if |a| > 0 {
      assert a[0] in multiset(b);
      var j :| 0 <= j < |b| && b[j] == a[0];
      var b' := b[..j] + b[j + 1..];
      assert multiset(a[1..]) == multiset(b') by {
        RemoveAt(b, j);
        assert a == [a[0]] + a[1..];
        assert multiset(a[1..]) == multiset(a) - multiset{a[0]};
      }
      EarningsBagPermutation(a[1..], b');
      EarningsBagRemoveAt(b, j);
    } else {
      assert |b| == |multiset(b)| == 0;
    }
  }

  /** Rows that are a permutation of each other have earnings columns that are too. */
  lemma EarningsColumnPermutation(a: seq<GameRow>, b: seq<GameRow>)
    requires multiset(a) == multiset(b)
    ensures multiset(TotalEarningsColumn(a)) == multiset(TotalEarningsColumn(b))
  {
    ColumnBag(a);
    ColumnBag(b);
    EarningsBagPermutation(a, b);
  }

  predicate NonIncreasing(x: seq<int>)
  {
    forall i, j :: 0 <= i < j < |x| ==> x[i] >= x[j]
  }

  /** In a non-increasing sequence no value exceeds the first. */
  lemma FirstIsMax(x: seq<int>, v: int)
    requires NonIncreasing(x) && v in x
    ensures v <= x[0]
  {
    var j :| 0 <= j < |x| && x[j] == v;
    if j > 0 {
      assert x[0] >= x[j];
    }
  }

  /** Two non-increasing sequences holding the same values are equal. */
  lemma {:induction false} NonIncreasingUnique(x: seq<int>, y: seq<int>)
    requires NonIncreasing(x) && NonIncreasing(y)
    requires multiset(x) == multiset(y)
    ensures x == y
    decreases |x|
  {
    assert |multiset(x)| == |x| && |multiset(y)| == |y|;
    if |x| > 0 {
      assert x[0] in multiset(y) && y[0] in multiset(x);
      FirstIsMax(y, x[0]);
      FirstIsMax(x, y[0]);
      TailsAgree(x, y);
      NonIncreasingUnique(x[1..], y[1..]);
      assert x == [x[0]] + x[1..] && y == [y[0]] + y[1..];
    }
  }

  /**
   * Whatever order an unstable sort leaves equal earnings in, the earnings
   * column of the sorted table, and so of its first five rows, is the same.
   */
  lemma TopEarningsDetermined(g: seq<GameRow>, s1: seq<GameRow>, s2: seq<GameRow>)
    requires DescendingArrangement(g, s1) && DescendingArrangement(g, s2)
    ensures TotalEarningsColumn(s1) == TotalEarningsColumn(s2)
    ensures TotalEarningsColumn(s1[..Min(TopCount, |g|)]) == TotalEarningsColumn(s2[..Min(TopCount, |g|)])
  {
    EarningsColumnPermutation(s1, s2);
    NonIncreasingUnique(TotalEarningsColumn(s1), TotalEarningsColumn(s2));
    assert |s1| == |g| && |s2| == |g| by {
      assert |multiset(s1)| == |s1| && |multiset(s2)| == |s2| && |multiset(g)| == |g|;
    }
    ColumnPrefix(s1, Min(TopCount, |g|));
    ColumnPrefix(s2, Min(TopCount, |g|));
  }

  /** The earnings column of a prefix is the prefix of the earnings column. */
  lemma ColumnPrefix(s: seq<GameRow>, n: nat)
    requires n <= |s|
    ensures TotalEarningsColumn(s[..n]) == TotalEarningsColumn(s)[..n]
  {
    assert forall k :: 0 <= k < n ==> s[..n][k] == s[k];
  }

  /** The earnings shown for the top five do not depend on how ties were broken. */
  lemma TopEarnersEarningsDetermined(g: seq<GameRow>, s: seq<GameRow>)
    requires DescendingArrangement(g, s)
    ensures TotalEarningsColumn(TopEarners(g)) == TotalEarningsColumn(s[..Min(TopCount, |g|)])
  {
    TopEarningsDetermined(g, SortByEarnings(g), s);
  }

  /** Lines 30-31: two long game names are shortened for display; any other name is kept. */
  function Alias(name: string): (r: string)
    ensures name == CsgoName ==> r == "CS:GO"
    ensures name == LolName ==> r == "LoL"
    ensures name != CsgoName && name != LolName ==> r == name
  {
    if name == CsgoName then "CS:GO" else if name == LolName then "LoL" else name
  }

  /** The Game column of the selected rows, in rank order. */
  function GameNames(top: seq<GameRow>): (r: seq<string>)
    ensures |r| == |top|
    ensures forall i :: 0 <= i < |top| ==> r[i] == top[i].game
  {
    if |top| == 0 then [] else [top[0].game] + GameNames(top[1..])
  }

  /** The trace labels: the alias of each selected game, in rank order. */
  function DisplayNames(top: seq<GameRow>): (r: seq<string>)
    ensures |r| == |top|
    ensures forall i :: 0 <= i < |top| ==> r[i] == Alias(top[i].game)
  {
    if |top| == 0 then [] else [Alias(top[0].game)] + DisplayNames(top[1..])
  }

  /** Aliasing an alias changes nothing. */
  lemma AliasIdempotent(name: string)
    ensures Alias(Alias(name)) == Alias(name)
  {
  }

  /**
   * Different games keep different labels, unless one of them is already named
   * like an alias: "CS:GO" and the long name would both be shown as "CS:GO".
   */
  lemma AliasInjective(a: string, b: string)
    requires a != b
    requires a != "CS:GO" && a != "LoL" && b != "CS:GO" && b != "LoL"
    ensures Alias(a) != Alias(b)
  {
  }

  /** Without either long name among the selected games, the labels are the game names. */
  lemma DisplayNamesUnchanged(top: seq<GameRow>)
    requires forall i :: 0 <= i < |top| ==> top[i].game != CsgoName && top[i].game != LolName
    ensures DisplayNames(top) == GameNames(top)
  {
  }
}
