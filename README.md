# pyramid_log in Dafny

A model of `pyramid_log`, a `logging.Formatter` for Pyramid web applications. The formatter makes attributes of the current request usable in `%`-style format strings, for example `%(request.method|-)s`. The model covers these parts:

- **Dotted lookup** (`DottedLookup`). `_DottedLookup.__getitem__` splits a key at its first `|` into a dotted path and an optional fallback. The first path segment is looked up as an item of the record's `__dict__`. Each later segment is looked up as an attribute, or as an item when the attribute is absent. A failing chain gives a `Missing` and never raises.
- **`Missing`** (`MissingValue`). Its `str`, `repr` and `int` conversions never fail. They use two Python built-ins, `repr` of a `str` and `int()` of a `str`, which are modelled in `PyText`.
- **`Formatter`** (`PyramidLog`). The constructor accepts only the `%` style. `format` nests three scoped helpers:
  - `_add_request_attr` puts the current request on the record for the duration.
  - `logging_disabled` sets the process-wide disable threshold to the record's level for the duration.
  - `_WrapDict` is a proxy. Reading its `__dict__` goes through the dotted lookup. Assignments and deletions go to the record.
- **The older `pyramid_logger` variant** (`PyramidLogger`):
  - `extra_data` and `deferred_request_attribute`.
  - The `get_extra_data` cache.
  - `PyramidContextFilter.filter`, `PyramidFormatter.format` and `PyramidLoggerAdapter.process`.

`wrappers.dfy` holds `Option` and `Result`. `values.dfy` holds Python values (`None`, `str`, `int`, objects with attributes and optional string-keyed items) and a log record, a class whose `__dict__` changes in place.

Three behaviours of the code shape the model:

- A segment after the root is looked up as an attribute first, and as an item only when there is no such attribute (`pyramid_log/__init__.py:234-235`). A method of a `dict`, such as `keys`, therefore wins over an item of the same name.
- `logging_disabled` assigns the given level to `logging.root.manager.disable`, whether that level is above or below the current threshold, and on exit assigns back the value it saved (`pyramid_log/__init__.py:120-125`).
- The constructor raises `ValueError` for every style other than `%` (`pyramid_log/__init__.py:62-66`). The tests at `pyramid_log/tests.py:85-86` and `pyramid_log/tests.py:97-99` construct a formatter with `style='{'`, and the second expects it to format; the model follows the code.

## Model

| member | source | states |
|---|---|---|
| PyText.QuoteFor | pyramid_log/__init__.py:177 | `repr` quotes with `"` exactly when the text contains `'` but no `"`, and otherwise with `'` |
| PyText.StrRepr | pyramid_log/__init__.py:177 | `repr(s)` starts and ends with the quote chosen for `s` |
| PyText.HexDigitsDecode | pyramid_log/__init__.py:177 | each lower-case hex digit used in `\xhh` escapes reads back as its value |
| PyText.EscapeCharDecodes | pyramid_log/__init__.py:177 | the escape of one character (quote, backslash, `\t`, `\n`, `\r`, `\xhh` or itself) decodes to that character, whatever follows |
| PyText.EscapeTwoDecodes | pyramid_log/__init__.py:177 | a two-character escape (quote, backslash, `\t`, `\n`, `\r`) decodes to its character |
| PyText.EscapeHexDecodes | pyramid_log/__init__.py:177 | a `\xhh` escape decodes to the character it encodes |
| PyText.EscapeBodyDecodes | pyramid_log/__init__.py:177 | the escaped body of a string decodes back to the string |
| PyText.StrReprRoundTrip | pyramid_log/__init__.py:177 | reading the literal `repr(s)` back as a Python string literal gives `s` |
| PyText.StrReprInjective | pyramid_log/__init__.py:177 | different strings have different `repr`s |
| PyText.TrimLeft | pyramid_log/__init__.py:186 | the text `int()` parses has no leading character of the whitespace `int()` strips: ASCII tab, line feed, vertical tab, form feed, carriage return and space, and the non-ASCII characters `str.isspace()` accepts, but not U+001C..U+001F |
| PyText.TrimRight | pyramid_log/__init__.py:186 | the text `int()` parses has no trailing character of that whitespace |
| PyText.TrimLeftRemovesSpace | pyramid_log/__init__.py:186 | stripping the left removes a prefix made of that whitespace only, and keeps the rest |
| PyText.TrimRightRemovesSpace | pyramid_log/__init__.py:186 | stripping the right removes a suffix made of that whitespace only, and keeps the rest |
| PyText.ParseInt | pyramid_log/__init__.py:186-188 | `int(s)` of a `str`: `Some(n)` for optional whitespace, an optional sign and base-10 digits with single underscores between digits; `None` where `ValueError` is raised (its properties are the `ParseInt…` lemmas) |
| PyText.NatToDecimal | pyramid_log/__init__.py:186 | the decimal spelling of a natural number is non-empty and all digits |
| PyText.NatToDecimalValue | pyramid_log/__init__.py:186 | the decimal spelling of `n` has the value `n` |
| PyText.TrimNothing | pyramid_log/__init__.py:186 | text that neither starts nor ends with white space is what `int()` parses |
| PyText.ParseIntOfDigits | pyramid_log/__init__.py:186 | `int()` of plain digits is the number they denote |
| PyText.ParseIntOfNegative | pyramid_log/__init__.py:186 | `int()` of `-` followed by digits is the negated number |
| PyText.ParseIntRoundTrip | pyramid_log/__init__.py:186 | `int(str(n)) == n` for every integer, negative ones included |
| PyText.ParseIntIgnoresPadding | pyramid_log/__init__.py:186 | `int()` gives the same result when any run of the whitespace it strips is added before and any run after the text |
| PyText.TrimPadding | pyramid_log/__init__.py:186 | stripping text padded on both sides with such whitespace gives the stripped unpadded text |
| PyText.TrimLeftSpaces | pyramid_log/__init__.py:186 | a leading run of such whitespace is stripped entirely |
| PyText.TrimRightSpaces | pyramid_log/__init__.py:186 | a trailing run of such whitespace is stripped entirely |
| PyText.TrimLeftAppend | pyramid_log/__init__.py:186 | stripping leading whitespace from a concatenation works on its first non-blank part |
| PyText.ParseIntOfNumber | pyramid_log/tests.py:229-236 | `int("123") == 123` |
| PyText.ParseIntOfWord | pyramid_log/__init__.py:185-188 | `int("foo")` raises `ValueError` (no value) |
| PyText.ParseIntRejectsDoubleUnderscore | pyramid_log/__init__.py:185-188 | digits followed by two underscores raise `ValueError` whatever follows, `int("1__2")` among them: digits may be separated by single underscores only |
| MissingValue.Missing.Str | pyramid_log/__init__.py:167-171 | `str(missing)`: the fallback when there is one, else `<?key?>` (see `MarkerShowsKey`) |
| MissingValue.Missing.Repr | pyramid_log/__init__.py:173-177 | `repr(missing)`: the `repr` of the fallback when there is one, else `<?key?>` (see `ReprIsLiteralOfStr`) |
| MissingValue.Missing.Int | pyramid_log/__init__.py:179-188 | `int(missing)`: `int()` of the fallback, and the class fallback 0 when there is no fallback or it does not parse (see `IntOfPrintedNumber`) |
| MissingValue.ReprIsLiteralOfStr | pyramid_log/__init__.py:167-177 | with a fallback, `repr(missing)` is a string literal that reads back as `str(missing)` |
| MissingValue.ReprDistinguishesFallback | pyramid_log/__init__.py:167-177 | the `repr` of a missing value with a fallback never equals the `<?key?>` marker of one without |
| MissingValue.MarkerShowsKey | pyramid_log/__init__.py:167-176 | without a fallback, `str` and `repr` are the same marker, and the key sits between its `<?` and `?>` |
| MissingValue.IntOfPrintedNumber | pyramid_log/__init__.py:181-188 | `int(missing)` is `n` when the fallback is the decimal spelling of `n` |
| MissingValue.IntExamples | pyramid_log/tests.py:229-236 | `int` is 0 with no fallback, 123 for `"123"` and the class fallback 0 for `"foo"` |
| MissingValue.ReprMarkerExample | pyramid_log/tests.py:212-218 | `repr` is `<?attr.name?>` with no fallback |
| MissingValue.ReprFallbackExample | pyramid_log/tests.py:212-227 | `repr` is `'foo'` for the fallback `"foo"`, and `str` is `foo` |
| DottedLookup.IndexOf | pyramid_log/__init__.py:227 | the index found holds the separator and no earlier position does |
| DottedLookup.IndexOfUnique | pyramid_log/__init__.py:227 | any position holding the first separator is the one `IndexOf` finds |
| DottedLookup.Partition | pyramid_log/__init__.py:227 | `s.partition(sep)` reports a separator exactly when `s` has one; the head has no separator and head, separator and tail rebuild `s`; with none, the head is `s` and the tail is empty |
| DottedLookup.PartitionAtFirst | pyramid_log/__init__.py:227 | only the first separator splits; later ones stay in the tail |
| DottedLookup.Split | pyramid_log/__init__.py:230 | `s.split(sep)` always has at least one part, so `parts[0]` exists |
| DottedLookup.SplitPartsHaveNoSep | pyramid_log/__init__.py:230 | no part contains the separator |
| DottedLookup.SplitWithoutSep | pyramid_log/__init__.py:230 | text without the separator is a single part |
| DottedLookup.SplitJoin | pyramid_log/__init__.py:230 | joining the parts with the separator gives back `s` |
| DottedLookup.SplitCons | pyramid_log/__init__.py:230 | a leading separator starts a new empty part; any other leading character joins the first part |
| DottedLookup.SplitConcat | pyramid_log/__init__.py:230 | splitting `p.q` is splitting `p` followed by splitting `q` |
| DottedLookup.SplitConcatHead | pyramid_log/__init__.py:230 | prefixing a character to the first part commutes with appending further parts |
| DottedLookup.ParseKey | pyramid_log/__init__.py:227-229 | the path has no `\|`; the fallback is `None` exactly when the key has no `\|`, and then the path is the key; otherwise path, `\|` and fallback rebuild the key |
| DottedLookup.ParseKeyWithFallback | pyramid_log/__init__.py:227-229 | appending `\|f` to a path without `\|` gives the fallback `f`, even when `f` contains further `\|`s |
| DottedLookup.Step | pyramid_log/__init__.py:234-235 | one segment after the root: the attribute when there is one, else the item, else a failure (`ResolveSegments` states it over whole paths) |
| DottedLookup.Walk | pyramid_log/__init__.py:233-235 | the segments after the root, in order, stopping at the first failure (see `WalkAppend`) |
| DottedLookup.Resolve | pyramid_log/__init__.py:230-235 | the root segment as an item of the record's `__dict__`, then the walk (see `ResolveConcat`, `ResolveSegments`) |
| DottedLookup.Lookup | pyramid_log/__init__.py:226-239 | the resolved value, or `Missing(path, fallback)` when the path does not resolve (see `MissingCarriesPath`, `UnresolvedIsMissing`, `FallbackIgnoredWhenFound`) |
| DottedLookup.GetItem | pyramid_log/__init__.py:226-239 | the loop over the segments returns what the lookup specification gives for every dict and key |
| DottedLookup.WalkAppend | pyramid_log/__init__.py:233-235 | walking two lists of segments in turn is walking their concatenation, and a failure stops the walk |
| DottedLookup.ResolveConcat | pyramid_log/__init__.py:230-235 | `p.q` resolves by resolving `p` and walking on along `q`'s segments; a failure inside `p` fails the whole path |
| DottedLookup.ResolveSegments | pyramid_log/__init__.py:232-235 | a segment without `.` is an item lookup in the record's `__dict__`; a segment after a resolved prefix is its attribute when it has one, then its item, and otherwise a failure |
| DottedLookup.FallbackIgnoredWhenFound | pyramid_log/__init__.py:226-239 | when the path resolves, adding a fallback changes nothing |
| DottedLookup.UnresolvedIsMissing | pyramid_log/__init__.py:236-237 | an unresolved path gives `Missing(path, None)`, which prints `<?path?>`; with `\|f` it gives `Missing(path, f)`, which prints `f` |
| DottedLookup.MissingCarriesPath | pyramid_log/__init__.py:227-237 | every `Missing` result names the key's path without its `\|` part and carries exactly that fallback |
| DottedLookup.NoPipe | pyramid_log/__init__.py:227-229 | a key without `\|` is a path with no fallback |
| DottedLookup.ItemChainFound | pyramid_log/__init__.py:211-218 | `{a: {b: x}}` gives `x` for `a.b` and for `a.b\|fb`, for any segment names and fallback, `b` not being the name of a `dict` method |
| DottedLookup.ItemChainFallback | pyramid_log/__init__.py:219-220 | over the same dict, `a.z\|fb` with `z` neither a key nor a `dict` method gives a `Missing` for `a.z` that prints `fb` |
| DottedLookup.DictMethodShadowsItem | pyramid_log/__init__.py:234-235 | `a.keys` over `{a: m}` is the bound method `keys` of the dict `m`, even when `m` has an item `"keys"` |
| DottedLookup.AttributeChain | pyramid_log/tests.py:271-273 | `a.b.c` follows a chain of attributes to its value |
| DottedLookup.FallbackOnLeaf | pyramid_log/tests.py:279-283 | `a.b.c\|fb`, where `a.b` is a string, gives a `Missing` for `a.b.c` with fallback `fb` |
| DottedLookup.MissingAttributeMarker | pyramid_log/tests.py:285-288 | `a.k` with `k` not an attribute gives a `Missing` without fallback, printed `<?a.k?>` |
| PyramidLog.Manager.constructor | pyramid_log/tests.py:157 | the disable threshold starts at 0 |
| PyramidLog.DisableLogging | pyramid_log/__init__.py:120-121 | returns the previous threshold and sets the threshold to the given level |
| PyramidLog.RestoreLogging | pyramid_log/__init__.py:122-125 | puts the saved threshold back |
| PyramidLog.WithRequest | pyramid_log/__init__.py:102-108 | the fields while `_add_request_attr` is in force: the current request is added as `request` only when the record has none and there is a current request (see `KeepsRequest`, `FormatSeesCurrentRequest`) |
| PyramidLog.AddRequestAttr | pyramid_log/__init__.py:102-110 | binds the record itself; adds `request` (and reports it as added) only when the record has none and there is a current request; nothing else changes |
| PyramidLog.RemoveAddedAttrs | pyramid_log/__init__.py:111-113 | deletes the added attributes in order and stops with `AttributeError` at the first one already gone |
| PyramidLog.WrapDict.constructor | pyramid_log/__init__.py:135-137 | the proxy wraps the given record |
| PyramidLog.WrapDict.DottedDict | pyramid_log/__init__.py:139-141 | the proxy's `__dict__` reads every key by the dotted lookup over the record's `__dict__` as it is when read |
| PyramidLog.WrapDict.SetAttr | pyramid_log/__init__.py:146-150 | a name outside `__slots__` is set on the record; a slot name leaves the record as it is (the proxy's own slots are not modelled) |
| PyramidLog.WrapDict.DelAttr | pyramid_log/__init__.py:152-153 | deletion always reaches the record; it fails exactly when the record lacks the attribute |
| PyramidLog.WrapDict.SetAttrs | pyramid_log/__init__.py:146-150 | the loop of assignments leaves the record as the assignment specification says |
| PyramidLog.NewFormatter | pyramid_log/__init__.py:61-66 | construction succeeds exactly for the `%` style and keeps `fmt` and `datefmt`; any other style is a `ValueError` naming it |
| PyramidLog.StyleErrorNamesStyle | pyramid_log/__init__.py:63-65 | the error message holds the `repr` of the rejected style, which reads back as that style |
| PyramidLog.AssignKeepsKeys | pyramid_log/__init__.py:146-150 | assignments through the proxy never remove a field |
| PyramidLog.Format | pyramid_log/__init__.py:78-89 | restores the disable threshold; renders with the threshold at the record's level over the dotted lookup of the fields with the request added; leaves the fields as rendering left them minus the request `format` added |
| PyramidLog.AssignOther | pyramid_log/__init__.py:146-150 | assignments that do not name an attribute leave it as it was |
| PyramidLog.FormatLeavesNoRequest | pyramid_log/__init__.py:104-113 | a record without `request` has none after `format` |
| PyramidLog.FormatKeepsExplicitRequest | pyramid_log/__init__.py:103-104 | a record's own `request` survives `format` unchanged, and while rendering `request` resolves to it, not to the current request |
| PyramidLog.FormatSeesCurrentRequest | pyramid_log/__init__.py:105-108 | while rendering a record without `request`, `request` resolves to the current request |
| PyramidLog.NoDotResolve | pyramid_log/__init__.py:232 | a key without `.` and `\|` is a plain item lookup, `Missing(key)` when absent |
| PyramidLog.FormatWithoutRequestFallsBack | pyramid_log/__init__.py:99-108 | with no request anywhere, `request.<attr>\|<fb>` gives a `Missing` that prints `<fb>` |
| PyramidLog.FormatWithoutRequestExample | pyramid_log/__init__.py:28-30 | with no request, `request.method\|-` gives a `Missing` with fallback `-` |
| PyramidLog.FormatRestoresFields | pyramid_log/__init__.py:109-113 | when the base formatter assigns nothing, the record's fields after `format` equal those before, on success and on failure |
| PyramidLogger.DeferredRequestAttribute | pyramid_logger/__init__.py:103-107 | `None` without a request, else a deferred value reading that attribute of the request |
| PyramidLogger.ExtraData | pyramid_logger/__init__.py:110-112 | the list of pairs for a request (its shape is `ExtraDataShape`) |
| PyramidLogger.GetExtraDataAsWritten | pyramid_logger/__init__.py:114-121 | `get_extra_data` as written: `TypeError` for `None`, else the cached list, or `extra_data(request)` stored on a miss |
| PyramidLogger.CacheAfter | pyramid_logger/__init__.py:116-121 | the corrected cache after `get_extra_data(request)`: unchanged on a hit, `extra_data(request)` added under `request` on a miss |
| PyramidLogger.Merge | pyramid_logger/__init__.py:190-196 | the `extra` that `process` builds (its properties are `MergePrecedence`) |
| PyramidLogger.PairKeys | pyramid_logger/__init__.py:110-112 | one name per pair, in order |
| PyramidLogger.ExtraDataShape | pyramid_logger/__init__.py:103-112 | `extra_data` has one pair per entry of `REQUEST_ATTRIBUTES`, in order, each holding that attribute of the request, deferred |
| PyramidLogger.ExtraDataWithoutRequest | pyramid_logger/tests.py:50-53 | without a request every pair is `(attr, None)` |
| PyramidLogger.UpdateWithDeferred | pyramid_logger/__init__.py:137 | `update` with such pairs sets each named attribute to its deferred value and keeps every other key |
| PyramidLogger.GetExtraDataAsWrittenRaisesWithoutRequest | pyramid_logger/__init__.py:114-121 | as written, `get_extra_data(None)` raises instead of returning the non-empty all-`None` list |
| PyramidLogger.ExtraDataCache.constructor | pyramid_logger/__init__.py:114 | the cache starts empty |
| PyramidLogger.ExtraDataCache.Get | pyramid_logger/__init__.py:116-121 | returns `extra_data(request)`; a hit leaves the cache as it is, a miss stores the list under that request only; every cached list stays `extra_data` of its key |
| PyramidLogger.Dict.constructor | pyramid_logger/__init__.py:191-193 | a dict with the given items |
| PyramidLogger.Dict.UpdatePairsIn | pyramid_logger/__init__.py:194 | `update` with a list of pairs: later pairs win |
| PyramidLogger.Dict.UpdateFrom | pyramid_logger/__init__.py:196 | `update` with a dict: its items override |
| PyramidLogger.PyramidContextFilter.constructor | pyramid_logger/__init__.py:129-130 | keeps the request source |
| PyramidLogger.PyramidContextFilter.Filter | pyramid_logger/__init__.py:132-138 | keeps the record, and updates its fields with the extra data of the request, which is called for when the source is `get_current_request`; the corrected cache afterwards is `CacheAfter` of that request, so without a request the filter works where the code raises `TypeError` |
| PyramidLogger.FilterWritesAllAttributes | pyramid_logger/__init__.py:137 | after that update every listed attribute holds the request's deferred attribute, and every other field is as it was |
| PyramidLogger.Prepared | pyramid_logger/__init__.py:170 | the record's fields once the base formatter has made its assignments (`message`, `asctime`), in order |
| PyramidLogger.UpdatePairsOther | pyramid_logger/__init__.py:169-170 | assignments that do not name an attribute leave it as it was, present or absent |
| PyramidLogger.PyramidFormatShowsExtraData | pyramid_logger/__init__.py:167-170 | while the base formatter renders, every attribute of `REQUEST_ATTRIBUTES` it did not assign itself holds the current request's deferred attribute |
| PyramidLogger.PyramidFormat | pyramid_logger/__init__.py:167-176 | updates the record with the current request's extra data, then lets the base formatter make its assignments and renders the resulting fields; a failure of those assignments is the result and leaves the record with the extra data only; the corrected cache afterwards is `CacheAfter` of the current request, so without a request it works where the code raises `TypeError` |
| PyramidLogger.MergePrecedence | pyramid_logger/__init__.py:190-197 | in the merged `extra`, explicit `extra` beats request data, which beats the adapter's `extra`, and no other keys appear |
| PyramidLogger.Kwargs.constructor | pyramid_logger/__init__.py:185-186 | keyword arguments with the given `extra` |
| PyramidLogger.MergeInto | pyramid_logger/__init__.py:190-196 | a fresh dict holding the truthy adapter `extra`, updated with the data, then with the truthy explicit `extra` |
| PyramidLogger.PyramidLoggerAdapter.constructor | pyramid_logger/__init__.py:180-183 | keeps `extra` and the request source |
| PyramidLogger.PyramidLoggerAdapter.Process | pyramid_logger/__init__.py:185-198 | returns `msg` and the same `kwargs`, whose `extra` is now a fresh dict holding the merge; the caller's and the adapter's dicts are untouched; the corrected cache afterwards is `CacheAfter` of the request, so without a request it works where the code raises `TypeError` |

## Left out

- `Missing.__float__` and `float()` parsing are not modelled: floating point has no model here.
- PyText.StrRepr: Python's `repr` of a `str` is modelled for the escapes it uses below U+0100 (`\\`, the quote, `\t`, `\n`, `\r`, `\xhh` for C0, DEL, C1, U+00A0 and U+00AD). The `\uXXXX` and `\UXXXXXXXX` escapes that `repr` uses for other non-printable code points are not modelled: `str.isprintable` needs the Unicode database.
- PyText.ParseInt: `int()` is modelled for base-10 text of ASCII digits with optional sign, whitespace and single underscores. Non-ASCII decimal digits are not accepted by the model, though Python accepts them.
- PyText.ParseIntRoundTrip: holds for every integer in the model, while CPython 3.11 and later, and the security releases of 3.7 to 3.10, by default refuse to convert between `str` and `int` for more than 4300 digits (`sys.set_int_max_str_digits`, configurable per process); that limit is not modelled.
- MissingValue.IntOfPrintedNumber: for the same reason, a fallback of more than 4300 digits gives the class fallback 0 on those interpreters, which the model does not capture.
- DottedLookup.Mapping: a `dict` is modelled with its public methods as attributes; its dunder attributes (`__len__`, `__class__`, ...) are not modelled, so `a.__len__` over a mapping is a failure in the model where Python finds the method.
- Built-in attributes of the `__name__` form, which every Python object has (`__class__`, `__len__` of a `dict`, ...), are in no modelled attribute map, `None`'s included. The lemmas `ItemChainFound`, `ItemChainFallback`, `FallbackOnLeaf` and `MissingAttributeMarker` therefore require the segment that is looked up and not given explicitly to be no such name; `FallbackOnLeaf` also requires it not to be a `str` method.
- A `str` or `int` value is modelled without attributes. Method attributes such as `"x".upper` are therefore not found, where Python's `getattr` would return the bound method. Objects are modelled by their attribute map and an optional string-keyed item map. `__getattr__`/`__getitem__` hooks that raise other exceptions are not modelled.
- Object identity is modelled as value equality.
- PyramidLog.WrapDict.SetAttr: assigning one of the proxy's own slots (`_obj`, `_dict_wrapper`) rebinds the proxy in Python; the model keeps the proxy bound to its record and only states that the record is left as it is.
- The base formatter's `prepare` gives a list of assignments or a failure, so it cannot express assignments followed by a failure, nor assignments made after rendering (such as `record.exc_text`).
- PyramidLogger.PyramidFormat: the same holds for the older formatter's base formatter, whose assignments are also a list or a failure.
- `levelno` is a constant of the modelled record, kept apart from its `__dict__` fields; the model assumes nothing assigns `levelno` during `format`.
- `logging.Formatter.format` itself is a parameter. It gives the attribute assignments it makes through the proxy and renders from a name resolver and the disable threshold. The `%` formatting of the format string is not opened up.
- The `validate` keyword (`pyramid_log/__init__.py:67-75`) is not modelled. It only forces `validate=False` and may emit a warning. Warnings, `datefmt` use and other keyword arguments of `logging.Formatter` are outside the model.
- `get_current_request()` is the parameter `current`. The thread-local request stack is left out, and so is a request source that is an arbitrary other callable.
- `deferred_value` is modelled by the request and attribute it will read. Its conversions run request properties and are not modelled.
- `getLogger` and `isEnabledFor` only delegate to `logging` and are not modelled.
- The weak references of `extra_data_cache` are not modelled: entries are never dropped when a request is collected.
- Concurrency (several threads logging at once, sharing `logging.root.manager`) is not modelled.
- The base class's exception handling is not modelled. An exception raised while rendering is a `Failure` result, and the `finally` blocks of `format` run on both outcomes.

## Findings

| source | as written | input that shows it | evidently intended | confidence | as-written member | corrected member |
|---|---|---|---|---|---|---|
| pyramid_logger/__init__.py:114-121 | `get_extra_data` looks `request` up in a `WeakKeyDictionary` and catches only `KeyError` | `get_extra_data(None)`, which the filter, the formatter and the adapter call whenever there is no current request: making a weak reference to `None` raises `TypeError` | return `extra_data(None)`, the list of `(attr, None)` pairs that `deferred_request_attribute` and the test at pyramid_logger/tests.py:50-53 provide for "no request" | not executed; high | PyramidLogger.GetExtraDataAsWrittenRaisesWithoutRequest | PyramidLogger.ExtraDataCache.Get |
