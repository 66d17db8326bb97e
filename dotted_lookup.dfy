/** `pyramid_log._DottedLookup`: a view of a record's `__dict__` in which
    a key such as `request.method|-` names a chain of lookups, with the
    text after the first `|` as the fallback when the chain breaks. */
module DottedLookup {
  import opened Wrappers
  import opened PyValues
  import opened MissingValue

  /** What `_DottedLookup.__getitem__` returns: the value the dotted path
      reaches, or a `Missing`. It never raises. */
  datatype Resolved = Found(value: Value) | NotFound(missing: Missing)

  // ---------------------------------------------------------------------
  // str.partition and str.split, on one separator character
  // ---------------------------------------------------------------------

  /** The position of the first `c` in `s`. */
  function IndexOf(s: string, c: char): (i: nat)
    requires c in s
    ensures i < |s| && s[i] == c && c !in s[..i]
  {
    if s[0] == c then 0 else 1 + IndexOf(s[1..], c)
  }

  lemma IndexOfUnique(s: string, c: char, j: nat)
    requires j < |s| && s[j] == c && c !in s[..j]
    ensures IndexOf(s, c) == j
  {
  }

  /** `s.partition(sep)`: the text before the first `sep`, whether there
      is one, and the text after it. */
  function Partition(s: string, sep: char): (r: (string, bool, string))
    ensures r.1 <==> sep in s
    ensures r.1 ==> s == r.0 + [sep] + r.2 && sep !in r.0
    ensures !r.1 ==> r.0 == s && r.2 == ""
  {
    if sep in s then
      var i := IndexOf(s, sep);
      assert s == s[..i] + [sep] + s[i + 1..];
      (s[..i], true, s[i + 1..])
    else (s, false, "")
  }

  /** Only the first `sep` separates: whatever follows it belongs to the
      tail, further separators included. */
  lemma PartitionAtFirst(head: string, sep: char, tail: string)
    requires sep !in head
    ensures Partition(head + [sep] + tail, sep) == (head, true, tail)
  {
    var s := head + [sep] + tail;
    assert s[..|head|] == head;
    IndexOfUnique(s, sep, |head|);
    assert s[|head| + 1..] == tail;
  }

  /** `s.split(sep)`: the pieces between separators, in order; the last
      piece is whatever follows the final separator, so there is always
      at least one. */
  function Split(s: string, sep: char): (parts: seq<string>)
    ensures |parts| >= 1
    decreases |s|
  {
    if s == [] then [""]
    else
      var rest := Split(s[1..], sep);
      if s[0] == sep then [""] + rest else [[s[0]] + rest[0]] + rest[1..]
  }

  /** `sep.join(parts)`. */
  function Join(parts: seq<string>, sep: char): string
    requires |parts| >= 1
  {
    if |parts| == 1 then parts[0] else parts[0] + [sep] + Join(parts[1..], sep)
  }

  /** No piece contains the separator. */
  lemma {:induction false} SplitPartsHaveNoSep(s: string, sep: char)
    ensures forall i :: 0 <= i < |Split(s, sep)| ==> sep !in Split(s, sep)[i]
    decreases |s|
  {
    if s != [] {
      SplitPartsHaveNoSep(s[1..], sep);
    }
  }

  /** Text without the separator is a single piece. */
  lemma {:induction false} SplitWithoutSep(s: string, sep: char)
    requires sep !in s
    ensures Split(s, sep) == [s]
    decreases |s|
  {
    if s != [] {
      assert sep !in s[1..];
      SplitWithoutSep(s[1..], sep);
      assert [s[0]] + s[1..] == s;
    }
  }

  lemma {:induction false} SplitJoin(s: string, sep: char)
    ensures Join(Split(s, sep), sep) == s
    decreases |s|
  {
    if s != [] {
      var rest := Split(s[1..], sep);
      SplitJoin(s[1..], sep);
      if s[0] == sep {
        assert ([""] + rest)[1..] == rest;
        assert s == [sep] + s[1..];
      } else {
        var parts := [[s[0]] + rest[0]] + rest[1..];
        if |rest| == 1 {
          assert [s[0]] + rest[0] == s;
        } else {
          assert parts[1..] == rest[1..];
          assert Join(rest, sep) == rest[0] + [sep] + Join(rest[1..], sep);
          assert s == [s[0]] + s[1..];
        }
      }
    }
  }

  /** `Split` on text with a known first character. */
  lemma SplitCons(c: char, t: string, sep: char)
    ensures Split([c] + t, sep) ==
      if c == sep then [""] + Split(t, sep) else [[c] + Split(t, sep)[0]] + Split(t, sep)[1..]
  {
    assert ([c] + t)[1..] == t;
  }

  /** Splitting `p + sep + q` splits `p` and `q` separately. */
  lemma {:induction false} SplitConcat(p: string, sep: char, q: string)
    ensures Split(p + [sep] + q, sep) == Split(p, sep) + Split(q, sep)
    decreases |p|
  {
    if p == [] {
      assert p + [sep] + q == [sep] + q;
      SplitCons(sep, q, sep);
    } else {
      var c, tail := p[0], p[1..];
      var a, b := Split(tail, sep), Split(q, sep);
      var t := tail + [sep] + q;
      assert Split(p + [sep] + q, sep) == if c == sep then [""] + Split(t, sep) else [[c] + Split(t, sep)[0]] + Split(t, sep)[1..] by {
        assert p + [sep] + q == [c] + t;
        SplitCons(c, t, sep);
      }
      assert Split(p, sep) == if c == sep then [""] + a else [[c] + a[0]] + a[1..] by {
        assert p == [c] + tail;
        SplitCons(c, tail, sep);
      }
      SplitConcat(tail, sep, q);
      if c == sep {
        assert [""] + (a + b) == ([""] + a) + b;
      } else {
        SplitConcatHead(c, a, b);
      }
    }
  }

  lemma SplitConcatHead(c: char, a: seq<string>, b: seq<string>)
    requires |a| >= 1
    ensures [[c] + (a + b)[0]] + (a + b)[1..] == ([[c] + a[0]] + a[1..]) + b
  {
    assert (a + b)[0] == a[0];
    assert (a + b)[1..] == a[1..] + b;
  }

  // ---------------------------------------------------------------------
  // The lookup
  // ---------------------------------------------------------------------

  /** `key.partition('|')`, with the fallback `None` when there is no `|`
      (which is not the same as an empty fallback, as in `key|`). */
  function ParseKey(key: string): (r: (string, Option<string>))
    ensures '|' !in r.0
    ensures r.1.None? <==> '|' !in key
    ensures r.1.None? ==> r.0 == key
    ensures r.1.Some? ==> key == r.0 + "|" + r.1.value
  {
    var (path, pipe, fallback) := Partition(key, '|');
    (path, if pipe then Some(fallback) else None)
  }

  /** Appending `|f` to a path without `|` supplies the fallback `f`,
      whatever `f` contains. */
  lemma ParseKeyWithFallback(path: string, f: string)
    requires '|' !in path
    ensures ParseKey(path + "|" + f) == (path, Some(f))
  {
    PartitionAtFirst(path, '|', f);
  }

  /** One step after the root: `getattr(v, seg)` when the attribute exists,
      otherwise `v[seg]`; `None` where Python raises `KeyError` (no such
      item) or `TypeError` (`v` takes no string subscript). */
  function Step(v: Value, seg: string): Option<Value> {
    match v
    case Obj(attrs, items) =>
      if seg in attrs then Some(attrs[seg])
      else if items.Some? && seg in items.value then Some(items.value[seg])
      else None
    case _ => None
  }

  /** The steps after the root, left to right; the first failing step
      ends the walk. */
  function Walk(v: Value, segs: seq<string>): Option<Value>
    decreases |segs|
  {
    if segs == [] then Some(v)
    else
      match Step(v, segs[0])
      case None => None
      case Some(w) => Walk(w, segs[1..])
  }

  /** The value a dotted path reaches in `dict`: the root segment by item
      lookup in `dict`, every later segment by `Step`. */
  function Resolve(dict: map<string, Value>, path: string): Option<Value> {
    var parts := Split(path, '.');
    if parts[0] in dict then Walk(dict[parts[0]], parts[1..]) else None
  }

  /** `_DottedLookup(dict)[key]`. */
  function Lookup(dict: map<string, Value>, key: string): Resolved {
    var (path, fallback) := ParseKey(key);
    match Resolve(dict, path)
    case Some(v) => Found(v)
    case None => NotFound(Missing(path, fallback))
  }

  /** `_DottedLookup.__getitem__`, as the loop that walks the path. */
  method GetItem(dict: map<string, Value>, key: string) returns (r: Resolved)
    ensures r == Lookup(dict, key)
  {
    var (path, pipe, tail) := Partition(key, '|');
    var fallback := if pipe then Some(tail) else None;
    var parts := Split(path, '.');
    if parts[0] !in dict {
      return NotFound(Missing(path, fallback));
    }
    var v := dict[parts[0]];
    var i := 1;
    while i < |parts|
      invariant 1 <= i <= |parts|
      invariant Walk(dict[parts[0]], parts[1..]) == Walk(v, parts[i..])
    {
      var next := Step(v, parts[i]);
      if next.None? {
        return NotFound(Missing(path, fallback));
      }
      assert parts[i..][1..] == parts[i + 1..];
      v := next.value;
      i := i + 1;
    }
    return Found(v);
  }

  // ---------------------------------------------------------------------
  // Properties
  // ---------------------------------------------------------------------

  lemma {:induction false} WalkAppend(v: Value, a: seq<string>, b: seq<string>)
    ensures Walk(v, a + b) == match Walk(v, a) case None => None case Some(w) => Walk(w, b)
    decreases |a|
  {
    if a == [] {
      assert a + b == b;
    } else {
      assert (a + b)[0] == a[0];
      assert (a + b)[1..] == a[1..] + b;
      match Step(v, a[0])
      case None =>
      case Some(w) => WalkAppend(w, a[1..], b);
    }
  }

  /** Resolving `p.q` resolves `p` and walks on from its value along the
      segments of `q`; in particular a failure anywhere in `p` is a
      failure of the whole path. */
  lemma ResolveConcat(dict: map<string, Value>, p: string, q: string)
    ensures Resolve(dict, p + "." + q) ==
      match Resolve(dict, p) case None => None case Some(v) => Walk(v, Split(q, '.'))
  {
    var ps, qs := Split(p, '.'), Split(q, '.');
    var all := Split(p + "." + q, '.');
    assert all == ps + qs by {
      assert p + "." + q == p + ['.'] + q;
      SplitConcat(p, '.', q);
    }
    assert all[0] == ps[0];
    assert all[1..] == ps[1..] + qs;
    if ps[0] in dict {
      WalkAppend(dict[ps[0]], ps[1..], qs);
    }
  }

  /** A path without `.` is a plain item lookup in the record's
      `__dict__`; a segment added after a path reached `v` is looked up as
      an attribute of `v` when it has one, and as an item of `v`
      otherwise. */
  lemma ResolveSegments(dict: map<string, Value>, p: string, seg: string)
    requires '.' !in seg
    ensures Resolve(dict, seg) == if seg in dict then Some(dict[seg]) else None
    ensures Resolve(dict, p + "." + seg) ==
      match Resolve(dict, p)
      case None => None
      case Some(v) =>
        if v.Obj? && seg in v.attrs then Some(v.attrs[seg])
        else if v.Obj? && v.items.Some? && seg in v.items.value then Some(v.items.value[seg])
        else None
  {
    ResolveConcat(dict, p, seg);
    SplitWithoutSep(seg, '.');
    match Resolve(dict, p)
    case None =>
    case Some(v) =>
      assert [seg][1..] == [];
  }

  /** When the path resolves, the fallback makes no difference:
      `d['a.b|fb'] == d['a.b']`. */
  lemma FallbackIgnoredWhenFound(dict: map<string, Value>, path: string, f: string)
    requires '|' !in path
    requires Lookup(dict, path).Found?
    ensures Lookup(dict, path + "|" + f) == Lookup(dict, path)
  {
    ParseKeyWithFallback(path, f);
  }

  /** When the path does not resolve, the result is a `Missing` for the
      path alone, which prints as the fallback when there is one and as
      `<?path?>` when there is none. */
  lemma UnresolvedIsMissing(dict: map<string, Value>, path: string, f: string)
    requires '|' !in path
    requires Resolve(dict, path).None?
    ensures Lookup(dict, path) == NotFound(Missing(path, None))
    ensures Lookup(dict, path).missing.Str() == "<?" + path + "?>"
    ensures Lookup(dict, path + "|" + f) == NotFound(Missing(path, Some(f)))
    ensures Lookup(dict, path + "|" + f).missing.Str() == f
  {
    ParseKeyWithFallback(path, f);
  }

  /** Whatever the key, a `Missing` names the key's path without its
      `|fallback` part, and carries that fallback. */
  lemma MissingCarriesPath(dict: map<string, Value>, key: string)
    requires Lookup(dict, key).NotFound?
    ensures '|' !in Lookup(dict, key).missing.key
    ensures Lookup(dict, key).missing.fallback.None? <==> '|' !in key
    ensures Lookup(dict, key).missing.fallback.Some? ==>
      key == Lookup(dict, key).missing.key + "|" + Lookup(dict, key).missing.fallback.value
  {
  }

  // ---------------------------------------------------------------------
  // The examples of the class's docstring and tests
  // ---------------------------------------------------------------------

  /** The public methods of a `dict`. */
  const DictMethodNames: set<string> :=
    {"clear", "copy", "fromkeys", "get", "items", "keys", "pop", "popitem", "setdefault", "update", "values"}

  /** A name of the `__name__` form. Every Python object has built-in
      attributes of this form (`__class__`, ...), none of which a modelled
      value carries, so the examples below keep clear of them. */
  predicate IsDunder(name: string) {
    |name| >= 4 && name[..2] == "__" && name[|name| - 2..] == "__"
  }

  /** The public methods of a `str`. */
  const StrMethodNames: set<string> :=
    {"capitalize", "casefold", "center", "count", "encode", "endswith", "expandtabs", "find",
     "format", "format_map", "index", "isalnum", "isalpha", "isascii", "isdecimal", "isdigit",
     "isidentifier", "islower", "isnumeric", "isprintable", "isspace", "istitle", "isupper",
     "join", "ljust", "lower", "lstrip", "maketrans", "partition", "removeprefix",
     "removesuffix", "replace", "rfind", "rindex", "rjust", "rpartition", "rsplit", "rstrip",
     "split", "splitlines", "startswith", "strip", "swapcase", "title", "translate", "upper",
     "zfill"}

  /** A bound method: an object whose own attributes play no part here. */
  const BoundMethod: Value := Obj(map[], None)

  /** A `dict` holding the items `m`; its attributes are its methods. */
  function Mapping(m: map<string, Value>): Value {
    Obj(map name | name in DictMethodNames :: BoundMethod, Some(m))
  }

  function Attrs(m: map<string, Value>): Value {
    Obj(m, None)
  }

  lemma NoPipe(s: string)
    requires '|' !in s
    ensures ParseKey(s) == (s, None)
  {
  }

  /** The class's example: `d['a.b']` is `d['a']['b']` when `d['a']` is
      a mapping, with or without a fallback. */
  lemma ItemChainFound(a: string, b: string, fb: string, x: Value)
    requires '.' !in a && '.' !in b
    requires '|' !in a && '|' !in b
    requires b !in DictMethodNames && !IsDunder(b)
    ensures Lookup(map[a := Mapping(map[b := x])], a + "." + b) == Found(x)
    ensures Lookup(map[a := Mapping(map[b := x])], a + "." + b + "|" + fb) == Found(x)
  {
    var d := map[a := Mapping(map[b := x])];
    ResolveSegments(d, a, a);
    ResolveSegments(d, a, b);
    NoPipe(a + "." + b);
    FallbackIgnoredWhenFound(d, a + "." + b, fb);
  }

  /** The class's example: `d['a.z|fb']` is the fallback when the mapping
      `d['a']` has no `z`. */
  lemma ItemChainFallback(a: string, b: string, z: string, fb: string, x: Value)
    requires '.' !in a && '.' !in z
    requires '|' !in a && '|' !in z
    requires z != b && z !in DictMethodNames && !IsDunder(z)
    ensures Lookup(map[a := Mapping(map[b := x])], a + "." + z + "|" + fb) == NotFound(Missing(a + "." + z, Some(fb)))
    ensures Lookup(map[a := Mapping(map[b := x])], a + "." + z + "|" + fb).missing.Str() == fb
  {
    var d := map[a := Mapping(map[b := x])];
    ResolveSegments(d, a, a);
    ResolveSegments(d, a, z);
    UnresolvedIsMissing(d, a + "." + z, fb);
  }

  /** Attribute lookup comes first: `d['a.keys']` is the mapping's bound
      method `keys`, even when the mapping also holds an item "keys". */
  lemma DictMethodShadowsItem(a: string, name: string, m: map<string, Value>)
    requires '.' !in a && '|' !in a
    requires name in DictMethodNames
    ensures Lookup(map[a := Mapping(m)], a + "." + name) == Found(BoundMethod)
  {
    var d := map[a := Mapping(m)];
    assert '.' !in name && '|' !in name;
    ResolveSegments(d, a, a);
    ResolveSegments(d, a, name);
    NoPipe(a + "." + name);
  }

  /** A chain of attributes is followed to its end. */
  lemma AttributeChain(a: string, b: string, c: string, x: Value)
    requires '.' !in a && '.' !in b && '.' !in c
    requires '|' !in a && '|' !in b && '|' !in c
    ensures Lookup(map[a := Attrs(map[b := Attrs(map[c := x])])], a + "." + b + "." + c) == Found(x)
  {
    var d := map[a := Attrs(map[b := Attrs(map[c := x])])];
    ResolveSegments(d, a, a);
    ResolveSegments(d, a, b);
    ResolveSegments(d, a + "." + b, c);
    NoPipe(a + "." + b + "." + c);
  }

  /** A chain that breaks below a string value falls back, and the
      `Missing` names the whole path. */
  lemma FallbackOnLeaf(a: string, b: string, c: string, fb: string, t: string)
    requires '.' !in a && '.' !in b && '.' !in c
    requires '|' !in a && '|' !in b && '|' !in c
    requires !IsDunder(c) && c !in StrMethodNames
    ensures Lookup(map[a := Attrs(map[b := Str(t)])], a + "." + b + "." + c + "|" + fb)
         == NotFound(Missing(a + "." + b + "." + c, Some(fb)))
  {
    var d := map[a := Attrs(map[b := Str(t)])];
    ResolveSegments(d, a, a);
    ResolveSegments(d, a, b);
    ResolveSegments(d, a + "." + b, c);
    UnresolvedIsMissing(d, a + "." + b + "." + c, fb);
  }

  /** An absent attribute without fallback gives the default marker for
      the whole path. */
  lemma MissingAttributeMarker(a: string, b: string, k: string, x: Value)
    requires '.' !in a && '.' !in k
    requires '|' !in a && '|' !in k
    requires k != b && !IsDunder(k)
    ensures Lookup(map[a := Attrs(map[b := x])], a + "." + k) == NotFound(Missing(a + "." + k, None))
    ensures Lookup(map[a := Attrs(map[b := x])], a + "." + k).missing.Str() == "<?" + a + "." + k + "?>"
  {
    var d := map[a := Attrs(map[b := x])];
    ResolveSegments(d, a, a);
    ResolveSegments(d, a, k);
    UnresolvedIsMissing(d, a + "." + k, "");
  }
}
