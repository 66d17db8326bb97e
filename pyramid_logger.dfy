/** `pyramid_logger`, the older variant: instead of resolving dotted keys
    it copies a fixed list of request attributes, each as a deferred
    value, into the log record (through a logging filter, a formatter or
    a logger adapter), caching the list per request. */
module PyramidLogger {
  import opened Wrappers
  import opened PyValues

  /** The identity of a pyramid `Request` object. */
  type RequestId = nat

  /** `REQUEST_ATTRIBUTES`, in order. */
  const RequestAttributes: seq<string> := [
    "unauthenticated_userid", "authenticated_userid", "client_addr", "remote_addr",
    "method", "url", "path", "script_name", "path_info", "path_url", "path_qs",
    "query_string", "scheme", "traversed", "subpath", "view_name", "matchdict",
    "locale_name", "GET", "POST", "params", "accept", "accept_charset",
    "accept_encoding", "accept_language", "authorization", "cache_control",
    "content_length", "content_type", "cookies", "domain", "host", "host_port",
    "host_url", "http_version", "is_xhr", "user_agent"]

  /** A value this module stores in a record or an `extra` dict: `None`, a
      `deferred_value` that reads `attr` of `request` when converted, or
      any other value a caller supplied. */
  datatype Datum = NoneDatum | Deferred(request: RequestId, attr: string) | Plain(v: Value)

  /** `deferred_request_attribute(request, attr)`. */
  function DeferredRequestAttribute(request: Option<RequestId>, attr: string): Datum {
    match request
    case None => NoneDatum
    case Some(r) => Deferred(r, attr)
  }

  /** The attribute names of a list of pairs, in order. */
  function PairKeys(pairs: seq<(string, Datum)>): (keys: seq<string>)
    ensures |keys| == |pairs|
    ensures forall i :: 0 <= i < |pairs| ==> keys[i] == pairs[i].0
  {
    if pairs == [] then [] else [pairs[0].0] + PairKeys(pairs[1..])
  }

  /** `extra_data(request)`. */
  function ExtraData(request: Option<RequestId>): seq<(string, Datum)> {
    seq(|RequestAttributes|, i requires 0 <= i < |RequestAttributes| =>
      (RequestAttributes[i], DeferredRequestAttribute(request, RequestAttributes[i])))
  }

  /** Every pair of `pairs` holds the deferred attribute of `request` it
      names. */
  predicate DeferredPairs(pairs: seq<(string, Datum)>, request: Option<RequestId>) {
    forall i :: 0 <= i < |pairs| ==> pairs[i].1 == DeferredRequestAttribute(request, pairs[i].0)
  }

  /** `extra_data` gives one pair per entry of `REQUEST_ATTRIBUTES`, in the
      same order, each holding that attribute of the request, deferred. */
  lemma ExtraDataShape(request: Option<RequestId>)
    ensures PairKeys(ExtraData(request)) == RequestAttributes
    ensures DeferredPairs(ExtraData(request), request)
  {
  }

  /** Without a request every value is `None`. */
  lemma ExtraDataWithoutRequest(i: nat)
    requires i < |RequestAttributes|
    ensures ExtraData(None)[i] == (RequestAttributes[i], NoneDatum)
  {
  }

  /** `d.update(pairs)` for a list of pairs: later pairs win. */
  function UpdatePairs(items: map<string, Datum>, pairs: seq<(string, Datum)>): map<string, Datum>
    decreases |pairs|
  {
    if pairs == [] then items else UpdatePairs(items[pairs[0].0 := pairs[0].1], pairs[1..])
  }

  /** Updating with deferred pairs leaves every named attribute holding
      its deferred value and every other key as it was. */
  lemma {:induction false} UpdateWithDeferred(items: map<string, Datum>, pairs: seq<(string, Datum)>,
                                              request: Option<RequestId>, k: string)
    requires DeferredPairs(pairs, request)
    ensures k in UpdatePairs(items, pairs) <==> k in items || k in PairKeys(pairs)
    ensures k in PairKeys(pairs) ==> UpdatePairs(items, pairs)[k] == DeferredRequestAttribute(request, k)
    ensures k !in PairKeys(pairs) && k in items ==> UpdatePairs(items, pairs)[k] == items[k]
    decreases |pairs|
  {
    if pairs != [] {
      assert DeferredPairs(pairs[1..], request) by {
        forall i | 0 <= i < |pairs[1..]| ensures pairs[1..][i].1 == DeferredRequestAttribute(request, pairs[1..][i].0) {
          assert pairs[1..][i] == pairs[i + 1];
        }
      }
      assert PairKeys(pairs) == [pairs[0].0] + PairKeys(pairs[1..]);
      UpdateWithDeferred(items[pairs[0].0 := pairs[0].1], pairs[1..], request, k);
    }
  }

  // ---------------------------------------------------------------------
  // get_extra_data and its cache
  // ---------------------------------------------------------------------

  /** `get_extra_data` exactly as written: the cache is a
      `WeakKeyDictionary` keyed by request, and `None` cannot be weakly
      referenced, so looking it up raises `TypeError` (not the `KeyError`
      the code catches). Gives the list and the new cache. */
  function GetExtraDataAsWritten(entries: map<RequestId, seq<(string, Datum)>>, request: Option<RequestId>)
    : Result<(seq<(string, Datum)>, map<RequestId, seq<(string, Datum)>>)>
  {
    match request
    case None => Failure("TypeError: cannot create weak reference to 'NoneType' object")
    case Some(r) =>
      if r in entries then Success((entries[r], entries))
      else Success((ExtraData(request), entries[r := ExtraData(request)]))
  }

  /** With no current request, `get_extra_data` as written raises, so a
      filter, formatter or adapter used outside a request fails instead of
      giving the all-`None` list that `extra_data(None)` builds. */
  lemma GetExtraDataAsWrittenRaisesWithoutRequest(entries: map<RequestId, seq<(string, Datum)>>)
    ensures GetExtraDataAsWritten(entries, None).Failure?
    ensures ExtraData(None) != []
  {
  }

  /** The cache after `get_extra_data(request)`: as it was on a hit; on a
      miss, with `extra_data(request)` stored under `request`. */
  function CacheAfter(entries: map<Option<RequestId>, seq<(string, Datum)>>, request: Option<RequestId>)
    : map<Option<RequestId>, seq<(string, Datum)>>
  {
    if request in entries then entries else entries[request := ExtraData(request)]
  }

  /** `extra_data_cache` with the evidently intended behaviour: an ordinary
      mapping in which "no request" is a key like any other. */
  class ExtraDataCache {
    var entries: map<Option<RequestId>, seq<(string, Datum)>>

    /** Every cached list is the one `extra_data` builds for its key. */
    ghost predicate Valid()
      reads this
    {
      forall k :: k in entries ==> entries[k] == ExtraData(k)
    }

    constructor ()
      ensures Valid() && entries == map[]
    {
      entries := map[];
    }

    /** `get_extra_data(request)`: the stored list on a hit, left as it
        is; otherwise `extra_data(request)`, stored under `request` and
        nothing else. */
    method Get(request: Option<RequestId>) returns (extra: seq<(string, Datum)>)
      requires Valid()
      modifies this
      ensures Valid()
      ensures extra == ExtraData(request)
      ensures request in old(entries) ==> extra == old(entries)[request] && entries == old(entries)
      ensures request !in old(entries) ==> entries == old(entries)[request := extra]
    {
      if request in entries {
        extra := entries[request];
      } else {
        extra := ExtraData(request);
        entries := entries[request := extra];
      }
    }
  }

  // ---------------------------------------------------------------------
  // Where the request comes from
  // ---------------------------------------------------------------------

  /** The `request` argument of the filter and the adapter: a request (or
      `None`) given explicitly, or the default `get_current_request`,
      which is called each time. */
  datatype RequestSource = Given(request: Option<RequestId>) | CurrentRequest

  /** The request used, given what `get_current_request()` returns now. */
  function ResolveRequest(source: RequestSource, current: Option<RequestId>): Option<RequestId> {
    match source
    case Given(r) => r
    case CurrentRequest => current
  }

  // ---------------------------------------------------------------------
  // Dicts, the filter, the formatter and the adapter
  // ---------------------------------------------------------------------

  /** A Python `dict` of extra values, which callers may share. */
  class Dict {
    var items: map<string, Datum>

    constructor (items: map<string, Datum>)
      ensures this.items == items
    {
      this.items := items;
    }

    /** `d.update(pairs)` with a list of pairs. */
    method UpdatePairsIn(pairs: seq<(string, Datum)>)
      modifies this
      ensures items == UpdatePairs(old(items), pairs)
    {
      var i := 0;
      while i < |pairs|
        invariant 0 <= i <= |pairs|
        invariant UpdatePairs(old(items), pairs) == UpdatePairs(items, pairs[i..])
      {
        assert pairs[i..][1..] == pairs[i + 1..];
        items := items[pairs[i].0 := pairs[i].1];
        i := i + 1;
      }
    }

    /** `d.update(other)` with another dict. */
    method UpdateFrom(other: Dict)
      modifies this
      ensures items == old(items) + old(other.items)
    {
      items := items + other.items;
    }
  }

  /** `PyramidContextFilter`. */
  class PyramidContextFilter {
    const request: RequestSource

    constructor (request: RequestSource)
      ensures this.request == request
    {
      this.request := request;
    }

    /** `filter(record)`: copy the request's extra data into the record's
        `__dict__` and keep the record. */
    method Filter(record: Record<Datum>, cache: ExtraDataCache, current: Option<RequestId>) returns (keep: bool)
      requires cache.Valid()
      modifies record, cache
      ensures cache.Valid()
      ensures cache.entries == CacheAfter(old(cache.entries), ResolveRequest(request, current))
      ensures keep
      ensures record.fields == UpdatePairs(old(record.fields), ExtraData(ResolveRequest(request, current)))
    {
      var r := ResolveRequest(request, current);
      var data := cache.Get(r);
      record.fields := UpdatePairs(record.fields, data);
      keep := true;
    }
  }

  /** After the filter every attribute of `REQUEST_ATTRIBUTES` is in the
      record, holding the request's deferred attribute, and every other
      field is as it was. */
  lemma FilterWritesAllAttributes(fields: map<string, Datum>, request: Option<RequestId>, k: string)
    ensures k in RequestAttributes ==>
      k in UpdatePairs(fields, ExtraData(request)) &&
      UpdatePairs(fields, ExtraData(request))[k] == DeferredRequestAttribute(request, k)
    ensures k !in RequestAttributes ==>
      (k in UpdatePairs(fields, ExtraData(request)) <==> k in fields) &&
      (k in fields ==> UpdatePairs(fields, ExtraData(request))[k] == fields[k])
  {
    ExtraDataShape(request);
    UpdateWithDeferred(fields, ExtraData(request), request, k);
  }

  /** What `logging.Formatter.format` does with the record, which this
      model does not open up: `prepare` gives the attributes it assigns on
      the record before rendering (`message`, `asctime`), in order, or the
      exception raised while computing them; `render` gives the text from
      the record's fields, or the exception it raises. */
  datatype BaseFormat = BaseFormat(
    prepare: map<string, Datum> -> Result<seq<(string, Datum)>>,
    render: map<string, Datum> -> Result<string>)

  /** The record's fields once the base formatter's assignments are made. */
  function Prepared(base: BaseFormat, fields: map<string, Datum>): map<string, Datum> {
    match base.prepare(fields)
    case Success(writes) => UpdatePairs(fields, writes)
    case Failure(_) => fields
  }

  /** `PyramidFormatter.format(record)`: the same update of the record with
      the current request's data, then the base formatter: its assignments
      to the record, then the rendering of the record's fields. */
  method PyramidFormat(record: Record<Datum>, cache: ExtraDataCache, current: Option<RequestId>,
                       base: BaseFormat) returns (out: Result<string>)
    requires cache.Valid()
    modifies record, cache
    ensures cache.Valid()
    ensures cache.entries == CacheAfter(old(cache.entries), current)
    ensures record.fields == Prepared(base, UpdatePairs(old(record.fields), ExtraData(current)))
    ensures out == match base.prepare(UpdatePairs(old(record.fields), ExtraData(current)))
                   case Success(_) => base.render(record.fields)
                   case Failure(e) => Failure(e)
  {
    var data := cache.Get(current);
    record.fields := UpdatePairs(record.fields, data);
    var prepared := base.prepare(record.fields);
    if prepared.Success? {
      record.fields := UpdatePairs(record.fields, prepared.value);
      out := base.render(record.fields);
    } else {
      out := Failure(prepared.error);
    }
  }

  /** `update` with pairs that do not name `k` leaves `k` as it was. */
  lemma {:induction false} UpdatePairsOther(items: map<string, Datum>, pairs: seq<(string, Datum)>, k: string)
    requires k !in PairKeys(pairs)
    ensures k in UpdatePairs(items, pairs) <==> k in items
    ensures k in items ==> UpdatePairs(items, pairs)[k] == items[k]
    decreases |pairs|
  {
    if pairs != [] {
      assert PairKeys(pairs) == [pairs[0].0] + PairKeys(pairs[1..]);
      UpdatePairsOther(items[pairs[0].0 := pairs[0].1], pairs[1..], k);
    }
  }

  /** While the base formatter renders, every attribute of
      `REQUEST_ATTRIBUTES` it did not assign itself holds the current
      request's deferred attribute. */
  lemma PyramidFormatShowsExtraData(fields: map<string, Datum>, current: Option<RequestId>, base: BaseFormat, k: string)
    requires k in RequestAttributes
    requires base.prepare(UpdatePairs(fields, ExtraData(current))).Success? ==>
      k !in PairKeys(base.prepare(UpdatePairs(fields, ExtraData(current))).value)
    ensures k in Prepared(base, UpdatePairs(fields, ExtraData(current)))
    ensures Prepared(base, UpdatePairs(fields, ExtraData(current)))[k] == DeferredRequestAttribute(current, k)
  {
    var updated := UpdatePairs(fields, ExtraData(current));
    FilterWritesAllAttributes(fields, current, k);
    match base.prepare(updated)
    case Success(writes) => UpdatePairsOther(updated, writes, k);
    case Failure(_) =>
  }

  /** The `extra` dict `process` builds: the adapter's own `extra`, then
      the request's data, then the call's explicit `extra`, each later one
      overriding the earlier. */
  function Merge(adapterExtra: map<string, Datum>, request: Option<RequestId>, explicitExtra: map<string, Datum>)
    : map<string, Datum>
  {
    UpdatePairs(adapterExtra, ExtraData(request)) + explicitExtra
  }

  /** Precedence in `process`: explicit `extra` over request data over the
      adapter's `extra`, and no other keys. */
  lemma MergePrecedence(adapterExtra: map<string, Datum>, request: Option<RequestId>,
                        explicitExtra: map<string, Datum>, k: string)
    ensures k in Merge(adapterExtra, request, explicitExtra) <==>
      k in explicitExtra || k in RequestAttributes || k in adapterExtra
    ensures k in explicitExtra ==> Merge(adapterExtra, request, explicitExtra)[k] == explicitExtra[k]
    ensures k !in explicitExtra && k in RequestAttributes ==>
      Merge(adapterExtra, request, explicitExtra)[k] == DeferredRequestAttribute(request, k)
    ensures k !in explicitExtra && k !in RequestAttributes && k in adapterExtra ==>
      Merge(adapterExtra, request, explicitExtra)[k] == adapterExtra[k]
  {
    FilterWritesAllAttributes(adapterExtra, request, k);
  }

  /** The keyword arguments of a logging call as `process` sees them: the
      dict under `extra` (`null` when absent or `None`) and the others. */
  class Kwargs {
    var extra: Dict?
    var others: map<string, Datum>

    constructor (extra: Dict?, others: map<string, Datum>)
      ensures this.extra == extra && this.others == others
    {
      this.extra := extra;
      this.others := others;
    }
  }

  /** The items a dict contributes when Python tests it for truth first:
      `None` and an empty dict contribute nothing. */
  function Truthy(d: Dict?): map<string, Datum>
    reads d
  {
    if d == null || |d.items| == 0 then map[] else d.items
  }

  /** The dict-building part of `process`: a fresh dict with the adapter's
      `extra` (when truthy), updated with `data`, then with the explicit
      `extra` (when truthy). */
  method MergeInto(adapterExtra: Dict?, data: seq<(string, Datum)>, explicitExtra: Dict?) returns (merged: Dict)
    ensures fresh(merged)
    ensures merged.items == UpdatePairs(Truthy(adapterExtra), data) + Truthy(explicitExtra)
  {
    if adapterExtra != null && |adapterExtra.items| > 0 {
      merged := new Dict(adapterExtra.items);
    } else {
      merged := new Dict(map[]);
    }
    merged.UpdatePairsIn(data);
    if explicitExtra != null && |explicitExtra.items| > 0 {
      merged.UpdateFrom(explicitExtra);
    }
  }

  /** `PyramidLoggerAdapter`. */
  class PyramidLoggerAdapter {
    const extra: Dict?
    const request: RequestSource

    constructor (extra: Dict?, request: RequestSource)
      ensures this.extra == extra && this.request == request
    {
      this.extra := extra;
      this.request := request;
    }

    /** `process(msg, kwargs)`: `msg` comes back unchanged and `kwargs`,
        the same dict, has `extra` replaced by a fresh dict holding the
        merge; neither the adapter's `extra` nor the caller's is touched. */
    method Process(msg: string, kwargs: Kwargs, cache: ExtraDataCache, current: Option<RequestId>)
      returns (msgOut: string, kwargsOut: Kwargs)
      requires cache.Valid()
      modifies kwargs, cache
      ensures cache.Valid()
      ensures cache.entries == CacheAfter(old(cache.entries), ResolveRequest(request, current))
      ensures msgOut == msg && kwargsOut == kwargs
      ensures kwargs.others == old(kwargs.others)
      ensures kwargs.extra != null && fresh(kwargs.extra)
      ensures kwargs.extra.items ==
        Merge(Truthy(extra), ResolveRequest(request, current), old(Truthy(kwargs.extra)))
      ensures extra != null ==> unchanged(extra)
      ensures old(kwargs.extra) != null ==> unchanged(old(kwargs.extra))
    {
      var explicitExtra := kwargs.extra;
      var data := cache.Get(ResolveRequest(request, current));
      var merged := MergeInto(extra, data, explicitExtra);
      assert merged.items == Merge(Truthy(extra), ResolveRequest(request, current), old(Truthy(explicitExtra)));
      kwargs.extra := merged;
      msgOut, kwargsOut := msg, kwargs;
    }
  }
}
