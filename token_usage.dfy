/**
 * The token usage ledger: running totals of tokens, requests and cost, plus
 * a history of at most the last 100 requests, kept in a persisted store.
 * The store is a field of `UsageLedger` (`None` when the stats file is
 * missing or unreadable); clock readings are parameters.  Costs are exact
 * reals.
 */
module TokenUsage {
  import opened Wrappers

  const DefaultModel := "gpt-3.5-turbo"
  const HistoryLimit := 100

  /** Price per 1000 input and per 1000 output tokens, by model. */
  const Pricing: map<string, (real, real)> := map[
    "gpt-3.5-turbo" := (0.0005, 0.0015),
    "gpt-4" := (0.03, 0.06),
    "gpt-4-turbo" := (0.01, 0.03)
  ]

  /** A value stored in a request entry. */
  datatype Value = IntVal(i: int) | RealVal(r: real) | StrVal(s: string)

  /** A request entry: its fields by key. */
  type Entry = map<string, Value>

  /** The persisted statistics. */
  datatype Stats = Stats(
    totalInputTokens: int,
    totalOutputTokens: int,
    totalRequests: int,
    totalCost: real,
    model: string,
    lastUpdated: Option<string>,
    requests: seq<Entry>)

  /** `load_stats` without a readable store. */
  const DefaultStats := Stats(0, 0, 0, 0.0, DefaultModel, None, [])

  /** `load_stats`: the stored statistics, or zeroed counters and an empty history. */
  function Load(store: Option<Stats>): (r: Stats)
    ensures store.None? ==>
      (r.totalInputTokens == 0 && r.totalOutputTokens == 0 && r.totalRequests == 0
       && r.totalCost == 0.0 && r.model == DefaultModel && r.lastUpdated.None? && r.requests == [])
    ensures store.Some? ==> r == store.value
  {
    match store
    case None => DefaultStats
    case Some(s) => s
  }

  /** The price row used for a model: its own, or gpt-3.5-turbo's for a model outside the table. */
  function PriceOf(model: string): (r: (real, real))
    ensures model in Pricing ==> r == Pricing[model]
    ensures model !in Pricing ==> r == Pricing[DefaultModel]
    ensures r.0 > 0.0 && r.1 > 0.0
  {
    if model in Pricing then Pricing[model] else Pricing[DefaultModel]
  }

  /** `calculate_cost`. */
  function CalculateCost(inputTokens: int, outputTokens: int, model: string): real {
    var price := PriceOf(model);
    (inputTokens as real / 1000.0) * price.0 + (outputTokens as real / 1000.0) * price.1
  }

  /** A model outside the price table costs exactly what gpt-3.5-turbo costs. */
  lemma UnknownModelPricedAsDefault(inputTokens: int, outputTokens: int, model: string)
    requires model !in Pricing
    ensures CalculateCost(inputTokens, outputTokens, model) == CalculateCost(inputTokens, outputTokens, DefaultModel)
  {
  }

  /** Token counts that are not negative never cost less than nothing, and more tokens never cost less. */
  lemma CostMonotone(in1: int, out1: int, in2: int, out2: int, model: string)
    requires 0 <= in1 <= in2 && 0 <= out1 <= out2
    ensures 0.0 <= CalculateCost(in1, out1, model) <= CalculateCost(in2, out2, model)
  {
    var p := PriceOf(model);
    assert (in1 as real / 1000.0) * p.0 <= (in2 as real / 1000.0) * p.0;
    assert (out1 as real / 1000.0) * p.1 <= (out2 as real / 1000.0) * p.1;
  }

  /** The fixed fields of a request entry, before the caller's own fields. */
  function FixedFields(timestamp: string, inputTokens: int, outputTokens: int, cost: real, model: string): Entry {
    map["timestamp" := StrVal(timestamp), "input_tokens" := IntVal(inputTokens),
        "output_tokens" := IntVal(outputTokens), "total_tokens" := IntVal(inputTokens + outputTokens),
        "cost" := RealVal(cost), "model" := StrVal(model)]
  }

  /** `{fixed..., **request_info}`: the caller's fields are merged last and win on a shared key. */
  function RequestEntry(timestamp: string, inputTokens: int, outputTokens: int, cost: real, model: string,
                        info: map<string, Value>): (r: Entry)
    ensures forall k :: k in info ==> k in r && r[k] == info[k]
    ensures forall k :: k in r <==> k in info || k in FixedFields(timestamp, inputTokens, outputTokens, cost, model)
    ensures "total_tokens" in r && "model" in r && "timestamp" in r
    ensures "total_tokens" !in info ==> r["total_tokens"] == IntVal(inputTokens + outputTokens)
    ensures "model" !in info ==> r["model"] == StrVal(model)
  {
    FixedFields(timestamp, inputTokens, outputTokens, cost, model) + info
  }

  /** `xs[-n:]` for a list longer than `n`, otherwise the whole list. */
  function KeepLast<T>(xs: seq<T>, n: nat): (r: seq<T>)
    ensures |r| == if |xs| > n then n else |xs|
    ensures forall i :: 0 <= i < |r| ==> r[i] == xs[|xs| - |r| + i]
  {
    if |xs| > n then xs[|xs| - n..] else xs
  }

  /** The statistics after one request, before the save stamps them. */
  function ApplyUsage(s: Stats, inputTokens: int, outputTokens: int, model: string, info: map<string, Value>,
                      timestamp: string): Stats
  {
    var cost := CalculateCost(inputTokens, outputTokens, model);
    var entry := RequestEntry(timestamp, inputTokens, outputTokens, cost, model, info);
    Stats(s.totalInputTokens + inputTokens, s.totalOutputTokens + outputTokens, s.totalRequests + 1,
          s.totalCost + cost, model, s.lastUpdated, KeepLast(s.requests + [entry], HistoryLimit))
  }

  /** The counters move by exactly the request's tokens, one request and its cost; the model is the request's. */
  lemma ApplyUsageCounters(s: Stats, inputTokens: int, outputTokens: int, model: string, info: map<string, Value>,
                           timestamp: string)
    ensures var t := ApplyUsage(s, inputTokens, outputTokens, model, info, timestamp);
      t.totalInputTokens - s.totalInputTokens == inputTokens
      && t.totalOutputTokens - s.totalOutputTokens == outputTokens
      && t.totalRequests == s.totalRequests + 1 && t.model == model
      && t.totalCost - s.totalCost == CalculateCost(inputTokens, outputTokens, model)
  {
  }

  /**
   * The new history ends with the new entry, and what precedes it is the most
   * recent part of the old history: the last min(old length + 1, 100) entries of
   * old history plus the new one, in order.
   */
  lemma ApplyUsageHistory(s: Stats, inputTokens: int, outputTokens: int, model: string, info: map<string, Value>,
                          timestamp: string)
    ensures var t := ApplyUsage(s, inputTokens, outputTokens, model, info, timestamp);
      var n := |t.requests|;
      n == (if |s.requests| + 1 > HistoryLimit then HistoryLimit else |s.requests| + 1)
      && t.requests[n - 1] == RequestEntry(timestamp, inputTokens, outputTokens,
                                           CalculateCost(inputTokens, outputTokens, model), model, info)
      && t.requests[..n - 1] == s.requests[|s.requests| - (n - 1)..]
  {
    var t := ApplyUsage(s, inputTokens, outputTokens, model, info, timestamp);
    var all := s.requests + [RequestEntry(timestamp, inputTokens, outputTokens,
                                          CalculateCost(inputTokens, outputTokens, model), model, info)];
    var n := |t.requests|;
    assert t.requests == KeepLast(all, HistoryLimit);
    assert forall i :: 0 <= i < n - 1 ==> t.requests[i] == s.requests[|s.requests| - (n - 1) + i];
  }

  /** The history never holds more than 100 entries nor more entries than requests counted. */
  predicate Consistent(s: Stats) {
    |s.requests| <= HistoryLimit && |s.requests| <= s.totalRequests
  }

  /** Recording a request keeps the history within its bound and within the request count. */
  lemma ApplyUsageConsistent(s: Stats, inputTokens: int, outputTokens: int, model: string, info: map<string, Value>,
                             timestamp: string)
    requires Consistent(s)
    ensures Consistent(ApplyUsage(s, inputTokens, outputTokens, model, info, timestamp))
  {
    ApplyUsageHistory(s, inputTokens, outputTokens, model, info, timestamp);
  }

  /** A history of at most 100 entries stays so, whatever the store held before. */
  lemma ApplyUsageBounded(s: Stats, inputTokens: int, outputTokens: int, model: string, info: map<string, Value>,
                          timestamp: string)
    ensures |ApplyUsage(s, inputTokens, outputTokens, model, info, timestamp).requests| <= HistoryLimit
  {
    ApplyUsageHistory(s, inputTokens, outputTokens, model, info, timestamp);
  }

  /** What `get_current_stats` reports. */
  datatype Report = Report(
    totalInputTokens: int,
    totalOutputTokens: int,
    totalTokens: int,
    totalRequests: int,
    totalCost: real,
    model: string,
    lastUpdated: Option<string>,
    costPerRequest: real)

  /** `get_current_stats` on loaded statistics. */
  function CurrentStats(s: Stats): (r: Report)
    ensures r.totalTokens == r.totalInputTokens + r.totalOutputTokens
    ensures r.totalInputTokens == s.totalInputTokens && r.totalOutputTokens == s.totalOutputTokens
    ensures r.totalRequests == s.totalRequests && r.totalCost == s.totalCost
    ensures r.model == s.model && r.lastUpdated == s.lastUpdated
    ensures s.totalRequests <= 0 ==> r.costPerRequest == 0.0
    ensures s.totalRequests > 0 ==> r.costPerRequest * (s.totalRequests as real) == s.totalCost
  {
    Report(s.totalInputTokens, s.totalOutputTokens, s.totalInputTokens + s.totalOutputTokens, s.totalRequests,
           s.totalCost, s.model, s.lastUpdated,
           if s.totalRequests > 0 then s.totalCost / (s.totalRequests as real) else 0.0)
  }

  /** With no readable store every reported total is zero and the model is the default. */
  lemma EmptyStoreReportsZero()
    ensures var r := CurrentStats(Load(None));
      r.totalInputTokens == 0 && r.totalOutputTokens == 0 && r.totalTokens == 0 && r.totalRequests == 0
      && r.totalCost == 0.0 && r.costPerRequest == 0.0 && r.model == DefaultModel && r.lastUpdated.None?
  {
  }

  /** The ledger and its persisted store. */
  class UsageLedger {
    /** The stats file's content; `None` when the file is missing or unreadable. */
    var store: Option<Stats>

    /** A ledger with no stats file yet. */
    constructor()
      ensures store.None?
    {
      store := None;
    }

    /** `load_stats`. */
    function Loaded(): Stats
      reads this
    {
      Load(store)
    }

    /**
     * `add_usage`: load, update the counters, append the entry, trim the
     * history to its last 100 entries, stamp and save.  `requestTime` and
     * `saveTime` are the two clock readings; `saved` says whether the write
     * succeeded (a failed write leaves the store as it was).
     */
    method AddUsage(inputTokens: int, outputTokens: int, model: string, requestInfo: Option<map<string, Value>>,
                    requestTime: string, saveTime: string, saved: bool) returns (r: Stats)
      modifies this
      ensures r == ApplyUsage(old(Loaded()), inputTokens, outputTokens, model, requestInfo.GetOr(map[]), requestTime)
                   .(lastUpdated := Some(saveTime))
      ensures store == if saved then Some(r) else old(store)
      ensures |r.requests| <= HistoryLimit
      ensures old(Consistent(Loaded())) ==> Consistent(r)
    {
      var stats := Load(store);
      ghost var before := stats;
      stats := stats.(totalInputTokens := stats.totalInputTokens + inputTokens);
      stats := stats.(totalOutputTokens := stats.totalOutputTokens + outputTokens);
      stats := stats.(totalRequests := stats.totalRequests + 1);
      stats := stats.(model := model);
      var requestCost := CalculateCost(inputTokens, outputTokens, model);
      stats := stats.(totalCost := stats.totalCost + requestCost);
      var info := map[];
      if requestInfo.Some? {
        info := requestInfo.value;
      }
      var entry := RequestEntry(requestTime, inputTokens, outputTokens, requestCost, model, info);
      var requests := stats.requests + [entry];
      if |requests| > HistoryLimit {
        requests := requests[|requests| - HistoryLimit..];
      }
      stats := stats.(requests := requests);
      assert stats == ApplyUsage(before, inputTokens, outputTokens, model, info, requestTime);
      ApplyUsageBounded(before, inputTokens, outputTokens, model, info, requestTime);
      if Consistent(before) {
        ApplyUsageConsistent(before, inputTokens, outputTokens, model, info, requestTime);
      }
      stats := stats.(lastUpdated := Some(saveTime));
      if saved {
        store := Some(stats);
      }
      r := stats;
    }

    /** `get_current_stats`. */
    function GetCurrentStats(): Report
      reads this
    {
      CurrentStats(Loaded())
    }

    /** `reset_stats`: delete the store, then report; every total reads zero. */
    method ResetStats() returns (r: Report)
      modifies this
      ensures store.None?
      ensures r.totalInputTokens == 0 && r.totalOutputTokens == 0 && r.totalTokens == 0 && r.totalRequests == 0
      ensures r.totalCost == 0.0 && r.costPerRequest == 0.0 && r.model == DefaultModel && r.lastUpdated.None?
    {
      store := None;
      r := GetCurrentStats();
    }
  }
}
