/** Counters by name, added up over several reports. A name that a report lacks counts as zero. */
module ScenarioCounts {

  function Get<K>(m: map<K, int>, k: K): int {
    if k in m then m[k] else 0
  }

  /** The sum of all counters of one report. */
  ghost function Total<K>(m: map<K, int>): int {
    if m == map[] then 0
    else
      var k :| k in m;
      m[k] + Total(m - {k})
  }

  /** The order of summation does not matter. */
  lemma {:induction false} TotalRemoves<K>(m: map<K, int>, k: K)
    requires k in m
    ensures Total(m) == m[k] + Total(m - {k})
    decreases |m|
  {
    var first :| first in m && Total(m) == m[first] + Total(m - {first});
    if first == k {
    } else {
      TotalRemoves(m - {first}, k);
      TotalRemoves(m - {k}, first);
      assert m - {first} - {k} == m - {k} - {first};
    }
  }

  function Names<K>(reports: seq<map<K, int>>): set<K> {
    if reports == [] then {} else Names(reports[..|reports| - 1]) + reports[|reports| - 1].Keys
  }

  /** One name over all reports. */
  function Count<K>(reports: seq<map<K, int>>, k: K): int {
    if reports == [] then 0 else Count(reports[..|reports| - 1], k) + Get(reports[|reports| - 1], k)
  }

  ghost function TotalOfReports<K>(reports: seq<map<K, int>>): int {
    if reports == [] then 0 else TotalOfReports(reports[..|reports| - 1]) + Total(reports[|reports| - 1])
  }

  function Counts<K>(reports: seq<map<K, int>>): map<K, int> {
    map k | k in Names(reports) :: Count(reports, k)
  }

  lemma {:induction false} UnnamedCountsNothing<K>(reports: seq<map<K, int>>, k: K)
    requires k !in Names(reports)
    ensures Count(reports, k) == 0
  {
    if reports == [] {
    } else {
      UnnamedCountsNothing(reports[..|reports| - 1], k);
    }
  }

  lemma TotalWithout<K>(m: map<K, int>, k: K)
    ensures Total(m) == Get(m, k) + Total(m - {k})
  {
    if k in m {
      TotalRemoves(m, k);
    } else {
      assert m - {k} == m;
    }
  }

  /** `c` adds `a` and `b` name by name. */
  predicate Adds<K>(a: map<K, int>, b: map<K, int>, c: map<K, int>) {
    c.Keys == a.Keys + b.Keys && forall k :: k in c ==> c[k] == Get(a, k) + Get(b, k)
  }

  lemma AddsWithout<K>(a: map<K, int>, b: map<K, int>, c: map<K, int>, k: K)
    requires Adds(a, b, c)
    ensures Adds(a - {k}, b - {k}, c - {k})
  {
  }

  lemma FewerWithout<K>(c: map<K, int>, k: K)
    requires k in c
    ensures |c - {k}| < |c|
  {
    assert (c - {k}).Keys == c.Keys - {k};
  }

  lemma {:induction false} TotalAdds<K>(a: map<K, int>, b: map<K, int>, c: map<K, int>)
    requires Adds(a, b, c)
    ensures Total(c) == Total(a) + Total(b)
    decreases |c|
  {
    if c == map[] {
      assert a == map[] && b == map[];
    } else {
      var k :| k in c;
      AddsWithout(a, b, c, k);
      FewerWithout(c, k);
      TotalWithout(a, k);
      TotalWithout(b, k);
      TotalWithout(c, k);
      TotalAdds(a - {k}, b - {k}, c - {k});
    }
  }

  /** Summing by name and summing by report agree. */
  lemma {:induction false} CountsConserve<K>(reports: seq<map<K, int>>)
    ensures Total(Counts(reports)) == TotalOfReports(reports)
  {
    if reports == [] {
      assert Counts(reports) == map[];
    } else {
      var init, last := reports[..|reports| - 1], reports[|reports| - 1];
      CountsConserve(init);
      forall k | k in Counts(reports) ensures Counts(reports)[k] == Get(Counts(init), k) + Get(last, k) {
        if k !in Names(init) {
          UnnamedCountsNothing(init, k);
        }
      }
      TotalAdds(Counts(init), last, Counts(reports));
    }
  }

  method SumValues<K>(m: map<K, int>) returns (total: int)
    ensures total == Total(m)
  {
    total := 0;
    var rest := m;
    while rest != map[]
      invariant total + Total(rest) == Total(m)
      decreases |rest|
    {
      var k :| k in rest;
      TotalRemoves(rest, k);
      total, rest := total + rest[k], rest - {k};
    }
  }
}
