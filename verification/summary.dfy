/**
 Summary normalisation in the class-based exporter: `get_summary` walks the raw
 summary object key by key and hands one (metric name, value) update per key to
 the metrics handler. The handler itself belongs to an external package; here an
 update is recorded as data.
 */
module Summary {
  import opened Base
  import opened Text
  import opened Json

  const MetricPrefix := "pihole_"
  const StatusKey := "status"
  const GravityKey := "gravity_last_updated"
  const AbsoluteKey := "absolute"

  /**
   `value == 'enabled'` in Python. A value renders as `enabled` under `%s`
   only when it is that very string (objects are never equal to a string).
   */
  predicate IsEnabled(v: Value) {
    v == Scalar("enabled")
  }

  /** What is handed to the handler: an integer the exporter computed, or a value from the payload. */
  datatype Reading = Number(n: int) | Passed(v: Value)

  /** One `metrics_handler.add_update(metric, reading)` call. */
  datatype Update = Update(metric: string, reading: Reading)

  /** The handler metric for a summary key. */
  function MetricName(key: string): string {
    MetricPrefix + key
  }

  /** The summary key a handler metric came from: the inverse of `MetricName`. */
  function KeyOf(metric: string): Option<string> {
    if StartsWith(metric, MetricPrefix) then Some(metric[|MetricPrefix|..]) else None
  }

  lemma MetricNameRoundTrip(key: string)
    ensures KeyOf(MetricName(key)) == Some(key)
  {
    assert MetricName(key)[..|MetricPrefix|] == MetricPrefix;
    assert MetricName(key)[|MetricPrefix|..] == key;
  }

  /** The update issued for one summary member, or the exception its handling raises. */
  function NormaliseField(key: string, v: Value): (r: Result<Update>)
    ensures r.Success? ==> r.value.metric == MetricName(key)
    ensures key == StatusKey ==>
              r.Success? && (r.value.reading == Number(1) <==> IsEnabled(v))
              && (r.value.reading == Number(0) <==> !IsEnabled(v))
    ensures key == GravityKey ==>
              (r.Success? <==> Index(v, AbsoluteKey).Success?)
              && (r.Success? ==> r.value.reading == Passed(Index(v, AbsoluteKey).value))
              && (r.Failure? ==> r.error == Index(v, AbsoluteKey).error)
    ensures key != StatusKey && key != GravityKey ==> r == Success(Update(MetricName(key), Passed(v)))
  {
    if key == StatusKey then
      Success(Update(MetricName(key), Number(if IsEnabled(v) then 1 else 0)))
    else if key == GravityKey then
      var absolute :- Index(v, AbsoluteKey);
      Success(Update(MetricName(key), Passed(absolute)))
    else
      Success(Update(MetricName(key), Passed(v)))
  }

  /**
   The updates `get_summary` has issued when it returns or raises. The updates
   are issued one at a time, so an exception on a later key does not take back
   the ones already handed over.
   */
  datatype Outcome = Outcome(updates: seq<Update>, raised: Option<Error>)

  function NormaliseSummary(raw: Fields): (o: Outcome)
    ensures |o.updates| <= |raw|
    ensures forall i :: 0 <= i < |o.updates| ==> NormaliseField(raw[i].0, raw[i].1) == Success(o.updates[i])
    ensures o.raised.None? <==> |o.updates| == |raw|
    ensures o.raised.Some? ==>
              NormaliseField(raw[|o.updates|].0, raw[|o.updates|].1) == Failure(o.raised.value)
  {
    if |raw| == 0 then Outcome([], None)
    else
      match NormaliseField(raw[0].0, raw[0].1)
      case Failure(e) => Outcome([], Some(e))
      case Success(u) =>
        var rest := NormaliseSummary(raw[1..]);
        Outcome([u] + rest.updates, rest.raised)
  }

  /** Only the `gravity_last_updated` member can make `get_summary` raise. */
  lemma OnlyGravityRaises(raw: Fields)
    ensures var o := NormaliseSummary(raw);
            o.raised.Some? ==>
              raw[|o.updates|].0 == GravityKey && Index(raw[|o.updates|].1, AbsoluteKey).Failure?
  {
  }

  /**
   When the gravity member (if any) is an object with an `absolute` member, every
   key yields exactly one update, in key order, named after that key.
   */
  lemma SummaryOnePerKey(raw: Fields)
    requires forall i :: 0 <= i < |raw| && raw[i].0 == GravityKey ==> Index(raw[i].1, AbsoluteKey).Success?
    ensures var o := NormaliseSummary(raw);
            o.raised.None? && |o.updates| == |raw|
            && forall i :: 0 <= i < |raw| ==> KeyOf(o.updates[i].metric) == Some(raw[i].0)
  {
    var o := NormaliseSummary(raw);
    OnlyGravityRaises(raw);
    forall i | 0 <= i < |raw|
      ensures KeyOf(o.updates[i].metric) == Some(raw[i].0)
    {
      MetricNameRoundTrip(raw[i].0);
    }
  }

  /** The status update reads 1 exactly for 'enabled' and 0 for every other value. */
  lemma StatusUpdate(raw: Fields, i: nat)
    requires i < |NormaliseSummary(raw).updates| && raw[i].0 == StatusKey
    ensures NormaliseSummary(raw).updates[i]
            == Update("pihole_status", Number(if IsEnabled(raw[i].1) then 1 else 0))
  {
  }

  /** The gravity update carries the nested `absolute` member, not the object. */
  lemma GravityUpdate(raw: Fields, i: nat)
    requires i < |NormaliseSummary(raw).updates| && raw[i].0 == GravityKey
    ensures raw[i].1.Object? && Get(raw[i].1.fields, AbsoluteKey).Some?
    ensures NormaliseSummary(raw).updates[i]
            == Update("pihole_gravity_last_updated", Passed(Get(raw[i].1.fields, AbsoluteKey).value))
  {
    var u := NormaliseSummary(raw).updates[i];
    GravityField(raw[i].1, u);
  }

  lemma GravityField(v: Value, u: Update)
    requires NormaliseField(GravityKey, v) == Success(u)
    ensures v.Object? && Get(v.fields, AbsoluteKey).Some?
    ensures u == Update("pihole_gravity_last_updated", Passed(Get(v.fields, AbsoluteKey).value))
  {
    assert MetricName(GravityKey) == "pihole_gravity_last_updated";
  }

  /** Distinct summary keys give distinct handler metrics. */
  lemma DistinctMetrics(raw: Fields)
    requires DistinctKeys(raw)
    ensures var us := NormaliseSummary(raw).updates;
            forall i, j :: 0 <= i < j < |us| ==> us[i].metric != us[j].metric
  {
    var us := NormaliseSummary(raw).updates;
    forall i, j | 0 <= i < j < |us|
      ensures us[i].metric != us[j].metric
    {
      MetricNameRoundTrip(raw[i].0);
      MetricNameRoundTrip(raw[j].0);
    }
  }
}
