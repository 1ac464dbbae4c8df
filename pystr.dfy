/**
 * The few Python string operations the scripts rely on: str() of an integer,
 * str.join, str.strip/rstrip and str.format with one positional argument.
 */
module PyStr {
  import opened Wrappers

  /** The character Python prints for a decimal digit. */
  function Digit(d: nat): (c: char)
    requires d < 10
    ensures '0' <= c <= '9'
  {
    (d + '0' as int) as char
  }

  /** Decimal text of a natural number, as Python's str() prints it. */
  function NatToString(n: nat): (r: string)
    ensures |r| > 0
    ensures forall i :: 0 <= i < |r| ==> '0' <= r[i] <= '9'
    ensures r[0] == '0' ==> n == 0
    ensures NoBraces(r)
  {
    if n < 10 then [Digit(n)] else NatToString(n / 10) + [Digit(n % 10)]
  }

  /** Reads back a run of decimal digits: the inverse of NatToString. */
  function ParseNat(s: string): nat
    requires forall i :: 0 <= i < |s| ==> '0' <= s[i] <= '9'
  {
    if |s| == 0 then 0 else 10 * ParseNat(s[..|s| - 1]) + (s[|s| - 1] as int - '0' as int)
  }

  lemma {:induction false} ParseNatToString(n: nat)
    ensures ParseNat(NatToString(n)) == n
  {
    if n >= 10 {
      var s := NatToString(n);
      assert s[..|s| - 1] == NatToString(n / 10);
      ParseNatToString(n / 10);
    }
  }

  /** Python's str() of an int: a minus sign, then the digits of the magnitude. */
  function IntToString(i: int): (r: string)
    ensures NoBraces(r)
    ensures i >= 0 ==> r == NatToString(i)
    ensures i < 0 ==> r == "-" + NatToString(-i)
  {
    if i < 0 then "-" + NatToString(-i) else NatToString(i)
  }

  /** Text that str.format copies through unchanged. */
  predicate NoBraces(s: string) {
    '{' !in s && '}' !in s
  }

  /** Python's sep.join(xs), for any kind of text. */
  function Join<C>(xs: seq<seq<C>>, sep: seq<C>): (r: seq<C>)
    ensures |xs| == 1 ==> r == xs[0]
  {
    if |xs| == 0 then [] else if |xs| == 1 then xs[0] else xs[0] + sep + Join(xs[1..], sep)
  }

  /**
   * Python's fmt.format(arg) for a single positional argument: "{{" and "}}"
   * print one brace, "{0}" and "{}" print the argument, and any other use of a
   * brace raises (None here). Field names with attributes, indexes or format
   * specifications are not modelled and read as None.
   */
  function FormatOne(fmt: string, arg: string): (r: Option<string>)
    decreases |fmt|
  {
    if |fmt| == 0 then Some("")
    else if fmt[0] == '{' then
      if |fmt| >= 2 && fmt[1] == '{' then Prepend("{", FormatOne(fmt[2..], arg))
      else if |fmt| >= 2 && fmt[1] == '}' then Prepend(arg, FormatOne(fmt[2..], arg))
      else if |fmt| >= 3 && fmt[1] == '0' && fmt[2] == '}' then Prepend(arg, FormatOne(fmt[3..], arg))
      else None
    else if fmt[0] == '}' then
      if |fmt| >= 2 && fmt[1] == '}' then Prepend("}", FormatOne(fmt[2..], arg)) else None
    else Prepend([fmt[0]], FormatOne(fmt[1..], arg))
  }

  function Prepend(s: string, r: Option<string>): Option<string> {
    if r.Some? then Some(s + r.value) else None
  }

  /** Brace-free text passes through str.format unchanged. */
  lemma {:induction false} FormatOneLiteral(lit: string, rest: string, arg: string)
    requires NoBraces(lit)
    ensures FormatOne(lit + rest, arg) == Prepend(lit, FormatOne(rest, arg))
  {
    if |lit| > 0 {
      assert (lit + rest)[0] == lit[0];
      assert (lit + rest)[1..] == lit[1..] + rest;
      assert lit[0] in lit;
      assert NoBraces(lit[1..]) by {
        forall c | c in lit[1..] ensures c in lit { }
      }
      FormatOneLiteral(lit[1..], rest, arg);
      assert lit[0] != '{' && lit[0] != '}';
      assert FormatOne(lit + rest, arg) == Prepend([lit[0]], FormatOne(lit[1..] + rest, arg));
      var r := FormatOne(rest, arg);
      assert [lit[0]] + lit[1..] == lit;
      assert r.Some? ==> [lit[0]] + (lit[1..] + r.value) == lit + r.value;
    } else {
      assert lit + rest == rest;
      var r := FormatOne(rest, arg);
      assert r.Some? ==> lit + r.value == r.value;
    }
  }

  /** "{0}" is replaced by the argument. */
  lemma FormatOnePlaceholder(rest: string, arg: string)
    ensures FormatOne("{0}" + rest, arg) == Prepend(arg, FormatOne(rest, arg))
  {
    var s := "{0}" + rest;
    assert s[0] == '{' && s[1] == '0' && s[2] == '}';
    assert s[3..] == rest;
  }

  /** The characters Python's str.isspace() accepts, so str.strip() removes. */
  const Whitespace: set<char> := {
    '\U{20}', '\U{9}', '\U{A}', '\U{D}', '\U{B}', '\U{C}', '\U{1C}', '\U{1D}',
    '\U{1E}', '\U{1F}', '\U{85}', '\U{A0}', '\U{1680}', '\U{2000}', '\U{2001}', '\U{2002}',
    '\U{2003}', '\U{2004}', '\U{2005}', '\U{2006}', '\U{2007}', '\U{2008}', '\U{2009}', '\U{200A}',
    '\U{2028}', '\U{2029}', '\U{202F}', '\U{205F}', '\U{3000}'
  }

  /** s.lstrip(cs): the suffix left after dropping leading characters of cs. */
  function LStrip(s: string, cs: set<char>): (r: string)
    ensures |r| <= |s| && r == s[|s| - |r|..]
    ensures forall i :: 0 <= i < |s| - |r| ==> s[i] in cs
    ensures |r| > 0 ==> r[0] !in cs
  {
    if |s| > 0 && s[0] in cs then
      var r := LStrip(s[1..], cs);
      assert forall i :: 1 <= i < |s| ==> s[1..][i - 1] == s[i];
      r
    else s
  }

  /** s.rstrip(cs): the prefix left after dropping trailing characters of cs. */
  function RStrip(s: string, cs: set<char>): (r: string)
    ensures |r| <= |s| && r == s[..|r|]
    ensures forall i :: |r| <= i < |s| ==> s[i] in cs
    ensures |r| > 0 ==> r[|r| - 1] !in cs
  {
    if |s| > 0 && s[|s| - 1] in cs then RStrip(s[..|s| - 1], cs) else s
  }

  /** s.strip(): both ends stripped of whitespace. */
  function Strip(s: string): string {
    RStrip(LStrip(s, Whitespace), Whitespace)
  }
}
