/** `pyramid_log.Formatter` and the scoped helpers its `format` nests:
    `_add_request_attr` (put the current request on the record for the
    duration), `logging_disabled` (set the global disable threshold for
    the duration) and `_WrapDict` (a proxy whose `__dict__` is read through
    the dotted lookup while assignments and deletions reach the record). */
module PyramidLog {
  import opened Wrappers
  import opened PyValues
  import opened PyText
  import opened MissingValue
  import opened DottedLookup

  /** The record attribute that carries the request. */
  const RequestAttr: string := "request"

  // ---------------------------------------------------------------------
  // logging_disabled
  // ---------------------------------------------------------------------

  /** `logging.root.manager`, reduced to its process-wide `disable`
      threshold. */
  class Manager {
    var disable: int

    constructor ()
      ensures disable == 0
    {
      disable := 0;
    }
  }

  /** Entering `logging_disabled(level)`: save the threshold, then
      `logging.disable(level)`. */
  method DisableLogging(manager: Manager, level: int) returns (saved: int)
    modifies manager
    ensures saved == old(manager.disable)
    ensures manager.disable == level
  {
    saved := manager.disable;
    manager.disable := level;
  }

  /** Leaving `logging_disabled` on any path: `logging.disable(saved)`. */
  method RestoreLogging(manager: Manager, saved: int)
    modifies manager
    ensures manager.disable == saved
  {
    manager.disable := saved;
  }

  // ---------------------------------------------------------------------
  // _add_request_attr
  // ---------------------------------------------------------------------

  /** The record's fields while `_add_request_attr` is in force: the
      current request is added only when the record has no `request` of
      its own and there is a current request. */
  function WithRequest(fields: map<string, Value>, current: Option<Value>): map<string, Value> {
    if RequestAttr !in fields && current.Some? then fields[RequestAttr := current.value] else fields
  }

  /** Entering `_add_request_attr(record)`; `target` is what the `with`
      statement binds and `added` the attributes to remove on exit. */
  method AddRequestAttr(record: Record<Value>, current: Option<Value>)
    returns (target: Record<Value>, added: seq<string>)
    modifies record
    ensures target == record
    ensures added == if RequestAttr !in old(record.fields) && current.Some? then [RequestAttr] else []
    ensures record.fields == WithRequest(old(record.fields), current)
  {
    target := record;
    added := [];
    var hasRequest := RequestAttr in record.fields;
    if !hasRequest {
      if current.Some? {
        record.fields := record.fields[RequestAttr := current.value];
        added := added + [RequestAttr];
      }
    }
  }

  /** `delattr` of each attribute in turn; `delattr` of an attribute the
      record lacks raises `AttributeError`, which ends the loop (`ok` is
      false) with the earlier attributes already gone. */
  function DelAttrs(fields: map<string, Value>, attrs: seq<string>): (map<string, Value>, bool)
    decreases |attrs|
  {
    if attrs == [] then (fields, true)
    else if attrs[0] !in fields then (fields, false)
    else DelAttrs(fields - {attrs[0]}, attrs[1..])
  }

  /** Leaving `_add_request_attr` on any path: remove what was added. */
  method RemoveAddedAttrs(record: Record<Value>, added: seq<string>) returns (ok: bool)
    modifies record
    ensures (record.fields, ok) == DelAttrs(old(record.fields), added)
  {
    var i := 0;
    while i < |added|
      invariant 0 <= i <= |added|
      invariant DelAttrs(old(record.fields), added) == DelAttrs(record.fields, added[i..])
    {
      var attr := added[i];
      if attr !in record.fields {
        return false;
      }
      assert added[i..][1..] == added[i + 1..];
      record.fields := record.fields - {attr};
      i := i + 1;
    }
    return true;
  }

  // ---------------------------------------------------------------------
  // _WrapDict
  // ---------------------------------------------------------------------

  /** The proxy's own slots; assigning one of these names sets the proxy,
      not the record. */
  const Slots: set<string> := {"_obj", "_dict_wrapper"}

  /** The record's fields after a series of attribute assignments made
      through the proxy. */
  function Assign(fields: map<string, Value>, writes: seq<(string, Value)>): map<string, Value>
    decreases |writes|
  {
    if writes == [] then fields
    else
      var (attr, value) := writes[0];
      Assign(if attr in Slots then fields else fields[attr := value], writes[1..])
  }

  /** `_WrapDict(record, _DottedLookup)`. */
  class WrapDict {
    const obj: Record<Value>

    constructor (obj: Record<Value>)
      ensures this.obj == obj
    {
      this.obj := obj;
    }

    /** `proxy.__dict__`: a view that reads every key by the dotted lookup
        over the record's `__dict__` as it is at the time of reading. */
    function DottedDict(): (view: string -> Resolved)
      reads obj
      ensures forall key :: view(key) == Lookup(obj.fields, key)
    {
      Resolver(obj.fields)
    }

    /** `setattr(proxy, attr, value)`. */
    method SetAttr(attr: string, value: Value)
      modifies obj
      ensures obj.fields == if attr in Slots then old(obj.fields) else old(obj.fields)[attr := value]
    {
      if attr !in Slots {
        obj.fields := obj.fields[attr := value];
      }
    }

    /** `delattr(proxy, attr)`: always forwarded to the record; `ok` is
        false where `AttributeError` is raised. */
    method DelAttr(attr: string) returns (ok: bool)
      modifies obj
      ensures ok == (attr in old(obj.fields))
      ensures obj.fields == old(obj.fields) - {attr}
    {
      ok := attr in obj.fields;
      if ok {
        obj.fields := obj.fields - {attr};
      }
    }

    /** A series of `setattr(proxy, ...)` calls. */
    method SetAttrs(writes: seq<(string, Value)>)
      modifies obj
      ensures obj.fields == Assign(old(obj.fields), writes)
    {
      var i := 0;
      while i < |writes|
        invariant 0 <= i <= |writes|
        invariant Assign(old(obj.fields), writes) == Assign(obj.fields, writes[i..])
      {
        assert writes[i..][1..] == writes[i + 1..];
        SetAttr(writes[i].0, writes[i].1);
        i := i + 1;
      }
    }
  }

  // ---------------------------------------------------------------------
  // Formatter
  // ---------------------------------------------------------------------

  /** A constructed `pyramid_log.Formatter`: its format string and date
      format (`None` when not given). */
  datatype Formatter = Formatter(fmt: Option<string>, datefmt: Option<string>)

  function StyleError(style: string): string {
    "Style " + StrRepr(style) + " is not currently supported by pyramid_log.Formatter"
  }

  /** `Formatter(fmt, datefmt, style)`: only the `%` style is accepted;
      any other raises `ValueError` with `StyleError(style)`. */
  function NewFormatter(fmt: Option<string>, datefmt: Option<string>, style: string): (r: Result<Formatter>)
    ensures r.Success? <==> style == "%"
    ensures r.Success? ==> r.value.fmt == fmt && r.value.datefmt == datefmt
    ensures r.Failure? ==> r.error == StyleError(style)
  {
    if style != "%" then Failure(StyleError(style)) else Success(Formatter(fmt, datefmt))
  }

  /** The `ValueError` message quotes the rejected style so that it reads
      back exactly. */
  lemma StyleErrorNamesStyle(style: string)
    ensures Unrepr(StyleError(style)[6..6 + |StrRepr(style)|]) == Some(style)
  {
    var e := StyleError(style);
    assert e[6..6 + |StrRepr(style)|] == StrRepr(style);
    StrReprRoundTrip(style);
  }

  /** What `logging.Formatter.format` does with the record it is given,
      which this model does not open up. `prepare` gives the attributes it
      assigns on the record before rendering (`message`, `asctime`), or
      the exception raised while computing them; `render` gives the text,
      from the names the format string resolves through the record's
      `__dict__` and from the disable threshold in force while it runs
      (which decides what any logging done by an attribute getter emits),
      or the exception it raises. */
  datatype BaseFormat = BaseFormat(
    prepare: (Formatter, map<string, Value>) -> Result<seq<(string, Value)>>,
    render: (Formatter, string -> Resolved, int) -> Result<string>)

  /** The name resolution `_DottedLookup` gives over `fields`. */
  function Resolver(fields: map<string, Value>): string -> Resolved {
    key => Lookup(fields, key)
  }

  /** The record's fields while `render` runs. */
  function RenderFields(f: Formatter, base: BaseFormat, fields: map<string, Value>, current: Option<Value>)
    : map<string, Value>
  {
    var staged := WithRequest(fields, current);
    match base.prepare(f, staged)
    case Success(writes) => Assign(staged, writes)
    case Failure(_) => staged
  }

  /** What `Formatter.format` returns (or raises). */
  function FormatOutput(f: Formatter, base: BaseFormat, fields: map<string, Value>, current: Option<Value>, level: int)
    : Result<string>
  {
    match base.prepare(f, WithRequest(fields, current))
    case Success(_) => base.render(f, Resolver(RenderFields(f, base, fields, current)), level)
    case Failure(e) => Failure(e)
  }

  /** The record's fields once `Formatter.format` has returned or raised. */
  function FieldsAfterFormat(f: Formatter, base: BaseFormat, fields: map<string, Value>, current: Option<Value>)
    : map<string, Value>
  {
    var during := RenderFields(f, base, fields, current);
    if RequestAttr !in fields && current.Some? then during - {RequestAttr} else during
  }

  lemma {:induction false} AssignKeepsKeys(fields: map<string, Value>, writes: seq<(string, Value)>)
    ensures fields.Keys <= Assign(fields, writes).Keys
    decreases |writes|
  {
    if writes != [] {
      var (attr, value) := writes[0];
      AssignKeepsKeys(if attr in Slots then fields else fields[attr := value], writes[1..]);
    }
  }

  /** `Formatter.format(record)`: add the request, disable logging at the
      record's level, render through a `_WrapDict`, then unwind both. */
  method Format(f: Formatter, base: BaseFormat, record: Record<Value>, current: Option<Value>, manager: Manager)
    returns (out: Result<string>)
    modifies record, manager
    ensures manager.disable == old(manager.disable)
    ensures record.fields == FieldsAfterFormat(f, base, old(record.fields), current)
    ensures out == FormatOutput(f, base, old(record.fields), current, record.levelno)
  {
    var target, added := AddRequestAttr(record, current);
    var saved := DisableLogging(manager, record.levelno);
    var magic := new WrapDict(target);
    var prepared := base.prepare(f, target.fields);
    if prepared.Success? {
      magic.SetAttrs(prepared.value);
      out := base.render(f, magic.DottedDict(), manager.disable);
    } else {
      out := Failure(prepared.error);
    }
    RestoreLogging(manager, saved);
    ghost var during := record.fields;
    assert during == RenderFields(f, base, old(record.fields), current);
    AssignKeepsKeys(WithRequest(old(record.fields), current), if prepared.Success? then prepared.value else []);
    var ok := RemoveAddedAttrs(target, added);
    if added != [] {
      assert added[1..] == [];
    }
  }

  // ---------------------------------------------------------------------
  // Properties of format
  // ---------------------------------------------------------------------

  /** No `setattr` on `request` among `writes`. */
  predicate KeepsRequest(writes: seq<(string, Value)>) {
    forall i :: 0 <= i < |writes| ==> writes[i].0 != RequestAttr
  }

  predicate PrepareKeepsRequest(f: Formatter, base: BaseFormat, fields: map<string, Value>) {
    base.prepare(f, fields).Success? ==> KeepsRequest(base.prepare(f, fields).value)
  }

  lemma {:induction false} AssignOther(fields: map<string, Value>, writes: seq<(string, Value)>, attr: string)
    requires forall i :: 0 <= i < |writes| ==> writes[i].0 != attr
    ensures attr in Assign(fields, writes) <==> attr in fields
    ensures attr in fields ==> Assign(fields, writes)[attr] == fields[attr]
    decreases |writes|
  {
    if writes != [] {
      var (a, value) := writes[0];
      AssignOther(if a in Slots then fields else fields[a := value], writes[1..], attr);
    }
  }

  /** A record that had no `request` has none after `format`. */
  lemma FormatLeavesNoRequest(f: Formatter, base: BaseFormat, fields: map<string, Value>, current: Option<Value>)
    requires RequestAttr !in fields
    requires PrepareKeepsRequest(f, base, WithRequest(fields, current))
    ensures RequestAttr !in FieldsAfterFormat(f, base, fields, current)
  {
    var staged := WithRequest(fields, current);
    if base.prepare(f, staged).Success? {
      AssignOther(staged, base.prepare(f, staged).value, RequestAttr);
    }
  }

  /** A record that carried its own `request` keeps that very value, and
      `render` sees it rather than the current request. */
  lemma FormatKeepsExplicitRequest(f: Formatter, base: BaseFormat, fields: map<string, Value>, current: Option<Value>)
    requires RequestAttr in fields
    requires PrepareKeepsRequest(f, base, fields)
    ensures RequestAttr in FieldsAfterFormat(f, base, fields, current)
    ensures FieldsAfterFormat(f, base, fields, current)[RequestAttr] == fields[RequestAttr]
    ensures Lookup(RenderFields(f, base, fields, current), RequestAttr) == Found(fields[RequestAttr])
  {
    if base.prepare(f, fields).Success? {
      AssignOther(fields, base.prepare(f, fields).value, RequestAttr);
    }
    NoDotResolve(RenderFields(f, base, fields, current), RequestAttr);
  }

  /** While rendering a record without its own `request`, the key
      `request` reaches the current request. */
  lemma FormatSeesCurrentRequest(f: Formatter, base: BaseFormat, fields: map<string, Value>, v: Value)
    requires RequestAttr !in fields
    requires PrepareKeepsRequest(f, base, WithRequest(fields, Some(v)))
    ensures Lookup(RenderFields(f, base, fields, Some(v)), RequestAttr) == Found(v)
  {
    var staged := WithRequest(fields, Some(v));
    if base.prepare(f, staged).Success? {
      AssignOther(staged, base.prepare(f, staged).value, RequestAttr);
    }
    NoDotResolve(RenderFields(f, base, fields, Some(v)), RequestAttr);
  }

  lemma NoDotResolve(fields: map<string, Value>, key: string)
    requires '.' !in key && '|' !in key
    ensures Lookup(fields, key) == if key in fields then Found(fields[key]) else NotFound(Missing(key, None))
  {
    ResolveSegments(fields, key, key);
  }

  /** With no request anywhere, every `request.<attr>|<fallback>` key
      resolves to a `Missing` that prints as its fallback. */
  lemma FormatWithoutRequestFallsBack(f: Formatter, base: BaseFormat, fields: map<string, Value>, attr: string, fb: string)
    requires RequestAttr !in fields
    requires '.' !in attr && '|' !in attr
    requires PrepareKeepsRequest(f, base, fields)
    ensures Lookup(RenderFields(f, base, fields, None), RequestAttr + "." + attr + "|" + fb)
         == NotFound(Missing(RequestAttr + "." + attr, Some(fb)))
    ensures Missing(RequestAttr + "." + attr, Some(fb)).Str() == fb
  {
    var during := RenderFields(f, base, fields, None);
    assert RequestAttr !in during by {
      if base.prepare(f, fields).Success? {
        AssignOther(fields, base.prepare(f, fields).value, RequestAttr);
      }
    }
    var path := RequestAttr + "." + attr;
    assert Resolve(during, path) == None by {
      assert '.' !in RequestAttr;
      ResolveSegments(during, RequestAttr, attr);
      ResolveSegments(during, RequestAttr, RequestAttr);
    }
    assert '|' !in path by {
      assert '|' !in RequestAttr;
    }
    UnresolvedIsMissing(during, path, fb);
  }

  /** `%(request.method|-)s` with no request renders as `-`. */
  lemma FormatWithoutRequestExample(f: Formatter, base: BaseFormat, fields: map<string, Value>)
    requires RequestAttr !in fields
    requires PrepareKeepsRequest(f, base, fields)
    ensures Lookup(RenderFields(f, base, fields, None), "request.method|-") == NotFound(Missing("request.method", Some("-")))
  {
    MethodKeyPieces();
    FormatWithoutRequestFallsBack(f, base, fields, "method", "-");
  }

  lemma MethodKeyPieces()
    ensures '.' !in "method" && '|' !in "method"
    ensures RequestAttr + "." + "method" == "request.method"
    ensures RequestAttr + "." + "method" + "|" + "-" == "request.method|-"
  {
  }

  /** When the base formatter assigns nothing, `format` leaves the record's
      fields exactly as it found them, whether or not it added a request,
      and whether rendering succeeded or raised. */
  lemma FormatRestoresFields(f: Formatter, base: BaseFormat, fields: map<string, Value>, current: Option<Value>)
    requires base.prepare(f, WithRequest(fields, current)).Failure? ||
             base.prepare(f, WithRequest(fields, current)) == Success([])
    ensures FieldsAfterFormat(f, base, fields, current) == fields
  {
    if RequestAttr !in fields && current.Some? {
      assert fields[RequestAttr := current.value] - {RequestAttr} == fields;
    }
  }
}
