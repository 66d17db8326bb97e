/** `pyramid_log.Missing`: the stand-in a dotted lookup returns for a key
    it cannot resolve. Its conversions never fail, so it can fill any
    `%s`, `%r` or `%d` slot of a format string. */
module MissingValue {
  import opened Wrappers
  import opened PyText

  /** What `int(missing)` is when there is no usable fallback. */
  const IntFallback: int := 0

  /** An unresolved key (the dotted path, without its `|fallback` part)
      and the literal fallback text, `None` when the key had no `|`. */
  datatype Missing = Missing(key: string, fallback: Option<string>) {

    /** The marker shown for a key without fallback. */
    function Marker(): string {
      "<?" + key + "?>"
    }

    /** `str(missing)`. */
    function Str(): string {
      match fallback
      case None => Marker()
      case Some(f) => f
    }

    /** `repr(missing)`. */
    function Repr(): string {
      match fallback
      case None => Marker()
      case Some(f) => StrRepr(f)
    }

    /** `int(missing)`: the fallback read as an integer, or `IntFallback`
        when there is no fallback or `int()` raises `ValueError` on it. */
    function Int(): int {
      match fallback
      case None => IntFallback
      case Some(f) =>
        match ParseInt(f)
        case None => IntFallback
        case Some(n) => n
    }
  }

  /** With a fallback, `repr` is a string literal that reads back as `str`. */
  lemma ReprIsLiteralOfStr(m: Missing)
    requires m.fallback.Some?
    ensures Unrepr(m.Repr()) == Some(m.Str())
  {
    StrReprRoundTrip(m.fallback.value);
  }

  /** The `repr` of a missing value with a fallback can never be mistaken
      for the marker of one without: it starts with a quote, not `<`. */
  lemma ReprDistinguishesFallback(m: Missing, n: Missing)
    requires m.fallback.Some? && n.fallback.None?
    ensures m.Repr() != n.Repr()
  {
    assert n.Repr()[0] == '<';
  }

  /** Without a fallback, `str` and `repr` agree on the marker, and the key
      can be read back from it. */
  lemma MarkerShowsKey(m: Missing)
    requires m.fallback.None?
    ensures m.Str() == m.Repr()
    ensures m.Str()[2..|m.Str()| - 2] == m.key
  {
  }

  /** `int()` of a missing value whose fallback is a printed integer is
      that integer. */
  lemma IntOfPrintedNumber(key: string, n: int)
    ensures Missing(key, Some(IntToDecimal(n))).Int() == n
  {
    ParseIntRoundTrip(n);
  }

  lemma IntExamples()
    ensures Missing("somekey", None).Int() == 0
    ensures Missing("somekey", Some("123")).Int() == 123
    ensures Missing("somekey", Some("foo")).Int() == 0
  {
    ParseIntOfNumber();
    ParseIntOfWord();
  }

  lemma ReprMarkerExample()
    ensures Missing("attr.name", None).Repr() == "<?attr.name?>"
  {
    assert "<?" + "attr.name" + "?>" == "<?attr.name?>";
  }

  lemma ReprFallbackExample()
    ensures Missing("attr.name", Some("foo")).Repr() == "'foo'"
    ensures Missing("key", Some("foo")).Str() == "foo"
  {
    assert QuoteFor("foo") == '\'';
    assert EscapeBody("foo", '\'') == "foo" by {
      assert "foo"[1..] == "oo" && "oo"[1..] == "o" && "o"[1..] == "";
    }
    assert ['\''] + "foo" + ['\''] == "'foo'";
  }
}
