/**
 The extended "client queries" metric of the class-based exporter: the records
 of the all-queries endpoint are grouped by (hostname, domain, answer type) and
 counted, giving a three-level nested dict hostname -> domain -> answer type ->
 count, which is handed to the metrics handler in one update.
 */
module ClientQueries {
  import opened Base

  /**
   One entry of the all-queries `data` list. Each field is kept as a canonical
   text of its JSON value, so that two fields are equal exactly when the decoded
   values are equal (and are the same dict key).
   */
  type Record = seq<string>

  const DomainField := 2
  const HostnameField := 3
  const AnswerTypeField := 4

  /** hostname -> domain -> answer type -> number of queries. */
  type ClientData = map<string, map<string, map<string, nat>>>

  /** The record has all three fields the loop reads (`i[4]` is the last one). */
  predicate Complete(r: Record) {
    |r| > AnswerTypeField
  }

  /** The record is a query from `h` for `d` answered with `t`. */
  predicate Matches(r: Record, h: string, d: string, t: string) {
    Complete(r) && r[HostnameField] == h && r[DomainField] == d && r[AnswerTypeField] == t
  }

  /** Number of records that are a query from `h` for `d` answered with `t`. */
  function Occurrences(records: seq<Record>, h: string, d: string, t: string): nat
  {
    if |records| == 0 then 0
    else
      var n := |records| - 1;
      Occurrences(records[..n], h, d, t) + (if Matches(records[n], h, d, t) then 1 else 0)
  }

  /** answer type -> count, under one (hostname, domain). */
  type Types = map<string, nat>
  /** domain -> answer type -> count, under one hostname. */
  type Domains = map<string, Types>

  /** The counter for `t`, 0 where there is none. */
  function TypeCount(types: Types, t: string): nat {
    if t in types then types[t] else 0
  }

  function DomainCount(domains: Domains, d: string, t: string): nat {
    if d in domains then TypeCount(domains[d], t) else 0
  }

  /** The counter stored at a label path, 0 where the path is absent. */
  function Count(cd: ClientData, h: string, d: string, t: string): nat {
    if h in cd then DomainCount(cd[h], d, t) else 0
  }

  predicate TypesWellFormed(types: Types) {
    |types| > 0 && forall t | t in types :: types[t] >= 1
  }

  predicate DomainsWellFormed(domains: Domains) {
    |domains| > 0 && forall d | d in domains :: TypesWellFormed(domains[d])
  }

  /** Every counter is at least 1 and no hostname or domain node is empty. */
  predicate WellFormed(cd: ClientData) {
    forall h | h in cd :: DomainsWellFormed(cd[h])
  }

  /** Innermost step of the loop body: start the answer-type counter at 1 or add 1 to it. */
  function TallyType(types: Types, t: string): (types': Types)
    ensures TypeCount(types', t) == TypeCount(types, t) + 1
    ensures forall t' :: t' != t ==> TypeCount(types', t') == TypeCount(types, t')
    ensures (forall x | x in types :: types[x] >= 1) ==> TypesWellFormed(types')
  {
    if t in types then types[t := types[t] + 1] else types[t := 1]
  }

  /** Middle step: create the domain node when missing, then count the answer type under it. */
  function TallyDomain(domains: Domains, d: string, t: string): (domains': Domains)
    ensures DomainCount(domains', d, t) == DomainCount(domains, d, t) + 1
    ensures forall d', t' :: (d', t') != (d, t) ==> DomainCount(domains', d', t') == DomainCount(domains, d', t')
    ensures (forall x | x in domains :: TypesWellFormed(domains[x])) ==> DomainsWellFormed(domains')
  {
    var types := if d in domains then domains[d] else map[];
    domains[d := TallyType(types, t)]
  }

  /** One iteration of the grouping loop: create the missing nodes, then count the query. */
  function Tally(cd: ClientData, h: string, d: string, t: string): (cd': ClientData)
    ensures Count(cd', h, d, t) == Count(cd, h, d, t) + 1
    ensures forall h', d', t' :: (h', d', t') != (h, d, t) ==> Count(cd', h', d', t') == Count(cd, h', d', t')
    ensures WellFormed(cd) ==> WellFormed(cd')
  {
    var domains := if h in cd then cd[h] else map[];
    cd[h := TallyDomain(domains, d, t)]
  }

  /** Every record has the fields the loop reads. */
  predicate AllComplete(records: seq<Record>) {
    forall i :: 0 <= i < |records| ==> Complete(records[i])
  }

  /** Position of the first record too short for the loop, if any. */
  function FirstIncomplete(records: seq<Record>): (k: Option<nat>)
    ensures k.None? <==> AllComplete(records)
    ensures k.Some? ==>
              k.value < |records| && !Complete(records[k.value])
              && forall j :: 0 <= j < k.value ==> Complete(records[j])
  {
    if |records| == 0 then None
    else if !Complete(records[0]) then Some(0)
    else
      match FirstIncomplete(records[1..])
      case None => None
      case Some(k) => Some(k + 1)
  }

  /** The dict the grouping loop has built after running over all of `records`. */
  function Grouped(records: seq<Record>): (cd: ClientData)
    requires AllComplete(records)
    ensures WellFormed(cd)
    ensures forall h, d, t :: Count(cd, h, d, t) == Occurrences(records, h, d, t)
  {
    if |records| == 0 then map[]
    else
      var n := |records| - 1;
      var q := records[n];
      var cd := Grouped(records[..n]);
      TallyCounts(cd, records);
      Tally(cd, q[HostnameField], q[DomainField], q[AnswerTypeField])
  }

  /**
   The grouping loop of the extended metrics. It raises `IndexError` at the
   first record too short to have all three fields; the partly built dict is
   local and is dropped with the exception.
   */
  function Aggregate(records: seq<Record>): (r: Result<ClientData>)
    ensures r.Success? <==> AllComplete(records)
    ensures r.Failure? ==>
              r.error.IndexError? && r.error.at < |records| && !Complete(records[r.error.at])
              && forall j :: 0 <= j < r.error.at ==> Complete(records[j])
    ensures r.Success? ==> WellFormed(r.value)
    ensures r.Success? ==> forall h, d, t :: Count(r.value, h, d, t) == Occurrences(records, h, d, t)
  {
    match FirstIncomplete(records)
    case Some(k) => Failure(IndexError(k))
    case None => Success(Grouped(records))
  }

  /** Counting the last record on top of the counts of the others gives the counts of all. */
  lemma TallyCounts(cd: ClientData, records: seq<Record>)
    requires |records| > 0 && Complete(records[|records| - 1])
    requires forall h, d, t :: Count(cd, h, d, t) == Occurrences(records[..|records| - 1], h, d, t)
    ensures var q := records[|records| - 1];
            var cd' := Tally(cd, q[HostnameField], q[DomainField], q[AnswerTypeField]);
            forall h, d, t :: Count(cd', h, d, t) == Occurrences(records, h, d, t)
  {
    var q := records[|records| - 1];
    var cd' := Tally(cd, q[HostnameField], q[DomainField], q[AnswerTypeField]);
    forall h, d, t ensures Count(cd', h, d, t) == Occurrences(records, h, d, t) {
      assert Matches(q, h, d, t) <==> (h, d, t) == (q[HostnameField], q[DomainField], q[AnswerTypeField]);
    }
  }

  /** In a well-formed result a label path is present exactly when its count is positive. */
  lemma PathPresentIffCounted(cd: ClientData, h: string, d: string, t: string)
    requires WellFormed(cd)
    ensures (h in cd && d in cd[h] && t in cd[h][d]) <==> Count(cd, h, d, t) > 0
  {
  }

  /** Every hostname and domain in the result has at least one query under it. */
  lemma {:induction false} NodesHaveQueries(records: seq<Record>, h: string, d: string)
    requires Aggregate(records).Success?
    ensures var cd := Aggregate(records).value;
            (h in cd ==> exists d', t :: Occurrences(records, h, d', t) > 0)
            && (h in cd && d in cd[h] ==> exists t :: Occurrences(records, h, d, t) > 0)
  {
    var cd := Aggregate(records).value;
    if h in cd {
      var d' :| d' in cd[h];
      var t :| t in cd[h][d'];
      assert Count(cd, h, d', t) > 0;
      if d in cd[h] {
        var t' :| t' in cd[h][d];
        assert Count(cd, h, d, t') > 0;
      }
    }
  }

  // ---------------------------------------------------------------------------
  // The sum of all counters equals the number of records.

  /** Sum of `f` over the values stored under `keys`. */
  ghost function SumOver<K, V>(m: map<K, V>, f: V -> nat, keys: set<K>): nat
    requires keys <= m.Keys
    decreases keys
  {
    if keys == {} then 0
    else
      var k :| k in keys;
      f(m[k]) + SumOver(m, f, keys - {k})
  }

  lemma {:induction false} SumOverRemove<K, V>(m: map<K, V>, f: V -> nat, keys: set<K>, k: K)
    requires keys <= m.Keys && k in keys
    ensures SumOver(m, f, keys) == f(m[k]) + SumOver(m, f, keys - {k})
    decreases keys
  {
    var j :| j in keys && SumOver(m, f, keys) == f(m[j]) + SumOver(m, f, keys - {j});
    if j != k {
      SumOverRemove(m, f, keys - {j}, k);
      SumOverRemove(m, f, keys - {k}, j);
      assert keys - {j} - {k} == keys - {k} - {j};
    }
  }

  lemma {:induction false} SumOverAgree<K, V>(m1: map<K, V>, m2: map<K, V>, f: V -> nat, keys: set<K>)
    requires keys <= m1.Keys && keys <= m2.Keys
    requires forall k | k in keys :: f(m1[k]) == f(m2[k])
    ensures SumOver(m1, f, keys) == SumOver(m2, f, keys)
    decreases keys
  {
    if keys != {} {
      var k :| k in keys && SumOver(m1, f, keys) == f(m1[k]) + SumOver(m1, f, keys - {k});
      SumOverRemove(m2, f, keys, k);
      SumOverAgree(m1, m2, f, keys - {k});
    }
  }

  /** Storing `v` under `k` changes the sum by `f(v)` minus what `k` contributed before. */
  lemma SumOverUpdate<K, V>(m: map<K, V>, f: V -> nat, k: K, v: V)
    ensures SumOver(m[k := v], f, m[k := v].Keys) + (if k in m then f(m[k]) else 0)
            == SumOver(m, f, m.Keys) + f(v)
  {
    var m' := m[k := v];
    SumOverRemove(m', f, m'.Keys, k);
    assert m'.Keys - {k} == m.Keys - {k};
    SumOverAgree(m', m, f, m.Keys - {k});
    if k in m {
      SumOverRemove(m, f, m.Keys, k);
    } else {
      assert m.Keys - {k} == m.Keys;
    }
  }

  function Identity(n: nat): nat { n }

  ghost function TypesTotal(types: Types): nat {
    SumOver(types, Identity, types.Keys)
  }

  ghost function DomainsTotal(domains: Domains): nat {
    SumOver(domains, TypesTotal, domains.Keys)
  }

  /** Sum of all counters of `cd`. */
  ghost function Total(cd: ClientData): nat {
    SumOver(cd, DomainsTotal, cd.Keys)
  }

  lemma TallyTotal(cd: ClientData, h: string, d: string, t: string)
    ensures Total(Tally(cd, h, d, t)) == Total(cd) + 1
  {
    var domains := if h in cd then cd[h] else map[];
    var types := if d in domains then domains[d] else map[];
    var types' := TallyType(types, t);
    SumOverUpdate(types, Identity, t, types'[t]);
    assert types' == types[t := types'[t]];
    assert TypesTotal(types') == TypesTotal(types) + 1;
    var domains' := TallyDomain(domains, d, t);
    SumOverUpdate(domains, TypesTotal, d, types');
    assert DomainsTotal(domains') == DomainsTotal(domains) + 1;
    SumOverUpdate(cd, DomainsTotal, h, domains');
  }

  /** No query is lost or counted twice: the counters add up to the number of records. */
  lemma {:induction false} AggregateTotal(records: seq<Record>)
    requires Aggregate(records).Success?
    ensures Total(Aggregate(records).value) == |records|
    decreases |records|
  {
    if |records| == 0 {
      assert Aggregate(records).value == map[];
    } else {
      var n := |records| - 1;
      var q := records[n];
      AggregateTotal(records[..n]);
      TallyTotal(Aggregate(records[..n]).value, q[HostnameField], q[DomainField], q[AnswerTypeField]);
    }
  }

  // ---------------------------------------------------------------------------
  // The result does not depend on the order of the records.

  lemma {:induction false} OccurrencesAppend(a: seq<Record>, b: seq<Record>, h: string, d: string, t: string)
    ensures Occurrences(a + b, h, d, t) == Occurrences(a, h, d, t) + Occurrences(b, h, d, t)
    decreases |b|
  {
    if |b| == 0 {
      assert a + b == a;
    } else {
      var n := |b| - 1;
      assert (a + b)[..|a + b| - 1] == a + b[..n];
      OccurrencesAppend(a, b[..n], h, d, t);
    }
  }

  lemma {:induction false} OccurrencesPermutation(a: seq<Record>, b: seq<Record>, h: string, d: string, t: string)
    requires multiset(a) == multiset(b)
    ensures Occurrences(a, h, d, t) == Occurrences(b, h, d, t)
    decreases |a|
  {
    if |a| == 0 {
      assert |b| == |multiset(b)| == 0;
    } else {
      var n := |a| - 1;
      var x := a[n];
      assert a == a[..n] + [x];
      assert x in multiset(b);
      var i :| 0 <= i < |b| && b[i] == x;
      assert b == b[..i] + [x] + b[i+1..];
      var rest := b[..i] + b[i+1..];
      assert multiset(a) == multiset(a[..n]) + multiset([x]);
      assert multiset(b) == multiset(b[..i]) + multiset([x]) + multiset(b[i+1..]);
      assert multiset(rest) == multiset(b[..i]) + multiset(b[i+1..]);
      assert multiset(a[..n]) == multiset(a) - multiset{x};
      assert multiset(rest) == multiset(b) - multiset{x};
      OccurrencesPermutation(a[..n], rest, h, d, t);
      OccurrencesAppend(b[..i], b[i+1..], h, d, t);
      OccurrencesAppend(b[..i] + [x], b[i+1..], h, d, t);
      OccurrencesAppend(b[..i], [x], h, d, t);
      assert [x][..0] == [];
    }
  }

  /** Two well-formed results with the same counter at every path are the same dict. */
  lemma CountsDetermine(c1: ClientData, c2: ClientData)
    requires WellFormed(c1) && WellFormed(c2)
    requires forall h, d, t :: Count(c1, h, d, t) == Count(c2, h, d, t)
    ensures c1 == c2
  {
    forall h | h in c1 ensures h in c2 {
      var d :| d in c1[h];
      var t :| t in c1[h][d];
      assert Count(c1, h, d, t) > 0;
    }
    forall h | h in c2 ensures h in c1 {
      var d :| d in c2[h];
      var t :| t in c2[h][d];
      assert Count(c2, h, d, t) > 0;
    }
    forall h | h in c1 ensures c1[h] == c2[h] {
      forall d | d in c1[h] ensures d in c2[h] {
        var t :| t in c1[h][d];
        assert Count(c1, h, d, t) > 0;
      }
      forall d | d in c2[h] ensures d in c1[h] {
        var t :| t in c2[h][d];
        assert Count(c2, h, d, t) > 0;
      }
      forall d | d in c1[h] ensures c1[h][d] == c2[h][d] {
        forall t | t in c1[h][d] ensures t in c2[h][d] && c1[h][d][t] == c2[h][d][t] {
          assert Count(c1, h, d, t) > 0;
        }
        forall t | t in c2[h][d] ensures t in c1[h][d] {
          assert Count(c2, h, d, t) > 0;
        }
      }
    }
  }

  /** Reordering the records changes neither whether the loop raises nor the dict it builds. */
  lemma AggregatePermutation(a: seq<Record>, b: seq<Record>)
    requires multiset(a) == multiset(b)
    ensures Aggregate(a).Success? <==> Aggregate(b).Success?
    ensures Aggregate(a).Success? ==> Aggregate(a).value == Aggregate(b).value
  {
    forall i | 0 <= i < |a| ensures a[i] in multiset(b) {
      assert a[i] in multiset(a);
    }
    forall i | 0 <= i < |b| ensures b[i] in multiset(a) {
      assert b[i] in multiset(b);
    }
    if Aggregate(a).Success? {
      forall h, d, t ensures Count(Aggregate(a).value, h, d, t) == Count(Aggregate(b).value, h, d, t) {
        OccurrencesPermutation(a, b, h, d, t);
      }
      CountsDetermine(Aggregate(a).value, Aggregate(b).value);
    }
  }

  // ---------------------------------------------------------------------------
  // The extended-metrics step around the loop.

  /**
   What the all-queries request decoded to: a falsy value, a truthy value that
   is not an object (a non-empty list, string or number), or an object that may
   lack `data`.
   */
  datatype AllQueries = Falsy | NotObject | Payload(data: Option<seq<Record>>)

  /**
   The `pihole_client_queries` update issued for an all-queries response: none
   for a falsy response, `TypeError` for `aq['data']` on a value that is not an
   object, `KeyError` when `data` is missing, otherwise the grouped
   counts (or the loop's `IndexError`).
   */
  function ExtendedMetrics(aq: AllQueries): (r: Result<Option<ClientData>>)
    ensures aq.Falsy? ==> r == Success(None)
    ensures aq.NotObject? ==> r == Failure(TypeError)
    ensures aq.Payload? && aq.data.None? ==> r == Failure(KeyError("data"))
    ensures aq.Payload? && aq.data.Some? ==>
              (r.Success? <==> forall i :: 0 <= i < |aq.data.value| ==> Complete(aq.data.value[i]))
    ensures aq.Payload? && r.Success? ==> r.value.Some?
    ensures aq.Payload? && aq.data.Some? && r.Failure? ==>
              r.error.IndexError? && r.error.at < |aq.data.value| && !Complete(aq.data.value[r.error.at])
              && forall j :: 0 <= j < r.error.at ==> Complete(aq.data.value[j])
    ensures r.Success? && r.value.Some? ==>
              aq.Payload? && aq.data.Some? && WellFormed(r.value.value)
              && forall h, d, t :: Count(r.value.value, h, d, t) == Occurrences(aq.data.value, h, d, t)
  {
    match aq
    case Falsy => Success(None)
    case NotObject => Failure(TypeError)
    case Payload(None) => Failure(KeyError("data"))
    case Payload(Some(records)) =>
      var cd :- Aggregate(records);
      Success(Some(cd))
  }
}
