/** The string operations the mod maker applies to field text: Python's
    `str.strip`, `str.split(',')`, `", ".join`, `os.path.basename`,
    `os.path.join`, `int()` and `str()` on integers, `str.capitalize` and
    `str.replace(' ', '_')`. */
module Text {
  import opened Wrappers

  // ---------------------------------------------------------------------------
  // Whitespace and strip

  /** The characters Python's `str.isspace` accepts; `str.strip()` removes them. */
  predicate IsSpace(c: char) {
    || ('\t' <= c <= '\r')
    || ('\U{1c}' <= c <= ' ')
    || c == '\U{85}' || c == '\U{a0}' || c == '\U{1680}'
    || ('\U{2000}' <= c <= '\U{200a}')
    || c == '\U{2028}' || c == '\U{2029}' || c == '\U{202f}' || c == '\U{205f}' || c == '\U{3000}'
  }

  /** Neither end of `s` is whitespace. */
  predicate IsStripped(s: string) {
    s == [] || (!IsSpace(s[0]) && !IsSpace(s[|s| - 1]))
  }

  function StripLeft(s: string): (r: string)
    ensures |r| <= |s|
  {
    if s != [] && IsSpace(s[0]) then StripLeft(s[1..]) else s
  }

  function StripRight(s: string): (r: string)
    ensures |r| <= |s|
  {
    if s != [] && IsSpace(s[|s| - 1]) then StripRight(s[..|s| - 1]) else s
  }

  /** Python's `s.strip()`. */
  function Strip(s: string): (r: string)
    ensures IsStripped(r) && |r| <= |s|
  {
    StripLeftFacts(s);
    StripRightFacts(StripLeft(s));
    StripRight(StripLeft(s))
  }

  /** `StripLeft` drops a run of leading whitespace and stops at the first
      other character. */
  lemma {:induction false} StripLeftFacts(s: string)
    ensures StripLeft(s) == s[|s| - |StripLeft(s)|..]
    ensures StripLeft(s) == [] || !IsSpace(StripLeft(s)[0])
    ensures forall k :: 0 <= k < |s| - |StripLeft(s)| ==> IsSpace(s[k])
  {
    if s != [] && IsSpace(s[0]) {
      StripLeftFacts(s[1..]);
    }
  }

  /** `StripRight` drops a run of trailing whitespace and stops at the last
      other character. */
  lemma {:induction false} StripRightFacts(s: string)
    ensures StripRight(s) == s[..|StripRight(s)|]
    ensures StripRight(s) == [] || !IsSpace(StripRight(s)[|StripRight(s)| - 1])
    ensures forall k :: |StripRight(s)| <= k < |s| ==> IsSpace(s[k])
  {
    if s != [] && IsSpace(s[|s| - 1]) {
      StripRightFacts(s[..|s| - 1]);
    }
  }

  /** The stripped text is the slice of `s` between a run of leading and a
      run of trailing whitespace. */
  lemma StripSlice(s: string)
    ensures var a := |s| - |StripLeft(s)|;
      && a + |Strip(s)| <= |s| && Strip(s) == s[a..a + |Strip(s)|]
      && (forall k :: 0 <= k < a ==> IsSpace(s[k]))
      && (forall k :: a + |Strip(s)| <= k < |s| ==> IsSpace(s[k]))
  {
    StripLeftFacts(s);
    StripRightFacts(StripLeft(s));
  }

  /** Stripping leaves a stripped string alone, so `Strip` is idempotent. */
  lemma StripFixed(s: string)
    requires IsStripped(s)
    ensures Strip(s) == s
  {
  }

  /** A leading blank never survives stripping. */
  lemma StripSpacePrefix(s: string)
    ensures Strip([' '] + s) == Strip(s)
  {
    assert ([' '] + s)[1..] == s;
  }

  /** Stripping only removes characters, so it keeps a string free of `c`. */
  lemma StripKeepsAbsent(s: string, c: char)
    ensures c !in s ==> c !in Strip(s)
  {
    StripSlice(s);
  }

  /** Python's `a or b` on strings. */
  function OrElse(s: string, default: string): (r: string)
    ensures r == "" ==> default == ""
    ensures s != "" ==> r == s
    ensures s == "" ==> r == default
  {
    if s == "" then default else s
  }

  // ---------------------------------------------------------------------------
  // Comma lists

  /** `sep.join(xs)`. */
  function JoinSep(xs: seq<string>, sep: string): string
  {
    if |xs| == 0 then "" else if |xs| == 1 then xs[0] else xs[0] + sep + JoinSep(xs[1..], sep)
  }

  /** Python's `s.split(c)`: the pieces between the separators, at least one. */
  function Split(s: string, c: char): (r: seq<string>)
    ensures |r| >= 1
    ensures forall i :: 0 <= i < |r| ==> c !in r[i]
  {
    if s == [] then [""]
    else
      var rest := Split(s[1..], c);
      if s[0] == c then [""] + rest else [[s[0]] + rest[0]] + rest[1..]
  }

  lemma JoinSepCons(x: string, ys: seq<string>, sep: string)
    ensures JoinSep([x] + ys, sep) == if ys == [] then x else x + sep + JoinSep(ys, sep)
  {
    assert ([x] + ys)[1..] == ys;
  }

  /** Gluing a character onto the first piece glues it onto the join. */
  lemma JoinSepGlue(ch: char, rest: seq<string>, sep: string)
    requires |rest| >= 1
    ensures JoinSep([[ch] + rest[0]] + rest[1..], sep) == [ch] + JoinSep(rest, sep)
  {
    JoinSepCons(rest[0], rest[1..], sep);
    assert [rest[0]] + rest[1..] == rest;
    JoinSepCons([ch] + rest[0], rest[1..], sep);
  }

  /** Joining the pieces of a split with the separator gives the text back. */
  lemma {:induction false} SplitJoin(s: string, c: char)
    ensures JoinSep(Split(s, c), [c]) == s
  {
    if s != [] {
      var rest := Split(s[1..], c);
      SplitJoin(s[1..], c);
      if s[0] == c {
        JoinSepCons("", rest, [c]);
      } else {
        JoinSepGlue(s[0], rest, [c]);
      }
      assert s == [s[0]] + s[1..];
    }
  }

  /** A text without the separator is a single piece. */
  lemma {:induction false} SplitFree(a: string, c: char)
    requires c !in a
    ensures Split(a, c) == [a]
  {
    if a != [] {
      SplitFree(a[1..], c);
      assert [a[0]] + a[1..] == a;
    }
  }

  /** Splitting at a first separator peels off the head before it. */
  lemma {:induction false} SplitAppend(a: string, b: string, c: char)
    requires c !in a
    ensures Split(a + [c] + b, c) == [a] + Split(b, c)
  {
    if a == [] {
      assert a + [c] + b == [c] + b;
      assert ([c] + b)[1..] == b;
    } else {
      assert (a + [c] + b)[0] == a[0];
      assert (a + [c] + b)[1..] == a[1..] + [c] + b;
      SplitAppend(a[1..], b, c);
      assert [a[0]] + a[1..] == a;
    }
  }

  /** A list element that `SplitList` can produce: non-empty, stripped and comma-free. */
  predicate IsListElement(x: string) {
    |x| > 0 && IsStripped(x) && ',' !in x
  }

  /** `[v.strip() for v in pieces if v.strip()]`. */
  function CleanPieces(ps: seq<string>): (r: seq<string>)
    ensures forall i :: 0 <= i < |r| ==> r[i] != "" && IsStripped(r[i])
    ensures (forall i :: 0 <= i < |ps| ==> ',' !in ps[i]) ==> forall i :: 0 <= i < |r| ==> IsListElement(r[i])
  {
    if ps == [] then []
    else
      var t := Strip(ps[0]);
      StripKeepsAbsent(ps[0], ',');
      if t == "" then CleanPieces(ps[1..]) else [t] + CleanPieces(ps[1..])
  }

  /** The stored form of a `tracks`/`sounds`/`images` field: the comma-split
      of the text, each piece stripped, empty pieces dropped. */
  function SplitList(s: string): (r: seq<string>)
    ensures forall i :: 0 <= i < |r| ==> IsListElement(r[i])
  {
    CleanPieces(Split(s, ','))
  }

  /** The loader's `", ".join(value)`. */
  function JoinList(xs: seq<string>): string {
    JoinSep(xs, ", ")
  }

  lemma {:induction false} CleanSpacePrefix(q: string, rest: seq<string>)
    ensures CleanPieces([[' '] + q] + rest) == CleanPieces([q] + rest)
  {
    StripSpacePrefix(q);
    assert ([[' '] + q] + rest)[1..] == rest;
    assert ([q] + rest)[1..] == rest;
  }

  /** The split of `x, rest`: `x` and then the pieces of ` rest`. */
  lemma JoinListSplitHead(xs: seq<string>)
    requires |xs| >= 2 && ',' !in xs[0]
    ensures Split(JoinList(xs), ',') == [xs[0]] + Split([' '] + JoinList(xs[1..]), ',')
  {
    var tail := JoinList(xs[1..]);
    assert JoinList(xs) == xs[0] + [','] + ([' '] + tail);
    SplitAppend(xs[0], [' '] + tail, ',');
  }

  /** A blank opening the text only joins the first piece. */
  lemma SplitCommaSpace(t: string)
    ensures Split([' '] + t, ',') == [[' '] + Split(t, ',')[0]] + Split(t, ',')[1..]
  {
    assert ([' '] + t)[1..] == t;
  }

  /** Cleaning handles the pieces one at a time. */
  lemma CleanCons(p: string, rest: seq<string>)
    ensures CleanPieces([p] + rest) == (if Strip(p) == "" then [] else [Strip(p)]) + CleanPieces(rest)
  {
    assert ([p] + rest)[1..] == rest;
  }

  lemma ListRoundTripSingle(x: string)
    requires IsListElement(x)
    ensures SplitList(JoinList([x])) == [x]
  {
    SplitFree(x, ',');
    StripFixed(x);
    CleanCons(x, []);
  }

  lemma ListRoundTripCons(x: string, rest: seq<string>)
    requires IsListElement(x) && |rest| >= 1
    requires SplitList(JoinList(rest)) == rest
    ensures SplitList(JoinList([x] + rest)) == [x] + rest
  {
    var xs := [x] + rest;
    assert xs[0] == x && xs[1..] == rest;
    var tail := JoinList(rest);
    var ps := Split(tail, ',');
    JoinListSplitHead(xs);
    SplitCommaSpace(tail);
    CleanSpacePrefix(ps[0], ps[1..]);
    assert [ps[0]] + ps[1..] == ps;
    var qs := Split([' '] + tail, ',');
    StripFixed(x);
    CleanCons(x, qs);
  }

  /** Splitting re-joined list text returns the list, for every list of
      non-empty, stripped, comma-free elements. */
  lemma {:induction false} ListRoundTrip(xs: seq<string>)
    requires forall i :: 0 <= i < |xs| ==> IsListElement(xs[i])
    ensures SplitList(JoinList(xs)) == xs
  {
    if xs == [] {
      CleanCons("", []);
    } else if |xs| == 1 {
      ListRoundTripSingle(xs[0]);
      assert xs == [xs[0]];
    } else {
      ListRoundTrip(xs[1..]);
      ListRoundTripCons(xs[0], xs[1..]);
      assert xs == [xs[0]] + xs[1..];
    }
  }

  /** Normalising list text is idempotent: a second save of re-loaded text
      stores the same list. */
  lemma SplitListIdempotent(s: string)
    ensures SplitList(JoinList(SplitList(s))) == SplitList(s)
  {
    ListRoundTrip(SplitList(s));
  }

  lemma {:induction false} JoinSepEnds(xs: seq<string>, sep: string)
    requires |xs| >= 1 && forall i :: 0 <= i < |xs| ==> |xs[i]| > 0
    ensures |JoinSep(xs, sep)| > 0
    ensures JoinSep(xs, sep)[0] == xs[0][0]
    ensures JoinSep(xs, sep)[|JoinSep(xs, sep)| - 1] == xs[|xs| - 1][|xs[|xs| - 1]| - 1]
  {
    if |xs| >= 2 {
      JoinSepEnds(xs[1..], sep);
    }
  }

  /** The re-joined text of a list of elements is already stripped, and blank
      exactly when the list is empty. */
  lemma JoinListStripped(xs: seq<string>)
    requires forall i :: 0 <= i < |xs| ==> IsListElement(xs[i])
    ensures IsStripped(JoinList(xs))
    ensures (JoinList(xs) == "") <==> (xs == [])
  {
    if xs != [] {
      JoinSepEnds(xs, ", ");
      assert IsListElement(xs[0]) && IsListElement(xs[|xs| - 1]);
    }
  }

  // ---------------------------------------------------------------------------
  // Paths (POSIX)

  /** `os.path.basename(p)`: the text after the last `/`. */
  function Base(p: string): (r: string)
    ensures '/' !in r
    ensures |r| <= |p| && r == p[|p| - |r|..]
    ensures |r| < |p| ==> p[|p| - |r| - 1] == '/'
  {
    if p == [] || p[|p| - 1] == '/' then [] else Base(p[..|p| - 1]) + [p[|p| - 1]]
  }

  /** A name without a directory part is its own basename. */
  lemma {:induction false} BaseOfPlainName(p: string)
    requires '/' !in p
    ensures Base(p) == p
  {
    if p != [] {
      BaseOfPlainName(p[..|p| - 1]);
      assert p == p[..|p| - 1] + [p[|p| - 1]];
    }
  }

  /** `os.path.join(a, b)` for two components. */
  function JoinPath(a: string, b: string): (r: string)
    ensures |b| > 0 && b[0] == '/' ==> r == b
  {
    if |b| > 0 && b[0] == '/' then b
    else if a == "" || a[|a| - 1] == '/' then a + b
    else a + "/" + b
  }

  /** `s.endswith(suffix)`. */
  predicate EndsWith(s: string, suffix: string) {
    |suffix| <= |s| && s[|s| - |suffix|..] == suffix
  }

  // ---------------------------------------------------------------------------
  // Integers

  predicate IsDigit(c: char) {
    '0' <= c <= '9'
  }

  /** A digit run as Python's `int()` accepts it (PEP 515): decimal digits,
      with single underscores allowed between two digits. */
  predicate IsDigitString(d: string) {
    && |d| > 0 && IsDigit(d[0]) && IsDigit(d[|d| - 1])
    && (forall k :: 0 <= k < |d| ==> IsDigit(d[k]) || d[k] == '_')
    && (forall k :: 0 <= k < |d| - 1 ==> d[k] == '_' ==> d[k + 1] != '_')
  }

  /** The value of a digit run, ignoring underscores. */
  function DigitsValue(d: string): nat
    requires forall k :: 0 <= k < |d| ==> IsDigit(d[k]) || d[k] == '_'
  {
    if d == [] then 0
    else if d[|d| - 1] == '_' then DigitsValue(d[..|d| - 1])
    else 10 * DigitsValue(d[..|d| - 1]) + DigitOf(d[|d| - 1])
  }

  function DigitOf(c: char): nat
    requires IsDigit(c)
  {
    c as int - '0' as int
  }

  /** Python's `int(t)` on a string that is already stripped (as every
      argument `int()` gets here is): `None` where `int()` raises `ValueError`
      for the form of `t`. CPython's limit of 4300 digits is not modelled:
      a longer digit run parses here. */
  function ParseInt(t: string): Option<int> {
    if |t| > 0 && (t[0] == '-' || t[0] == '+') then
      if IsDigitString(t[1..]) then
        var v: int := DigitsValue(t[1..]);
        Some(if t[0] == '-' then -v else v)
      else None
    else if IsDigitString(t) then Some(DigitsValue(t))
    else None
  }

  /** Decimal digits of a natural number, without leading zeros. */
  function NatToString(n: nat): (r: string)
    ensures |r| > 0 && (forall k :: 0 <= k < |r| ==> IsDigit(r[k]))
    ensures r[0] == '0' ==> n == 0
  {
    var d := [('0' as int + n % 10) as char];
    if n < 10 then d else NatToString(n / 10) + d
  }

  /** Python's `str(n)` for an integer, without CPython's 4300-digit limit. */
  function IntToString(n: int): string {
    if n < 0 then "-" + NatToString(-n) else NatToString(n)
  }

  lemma {:induction false} NatToStringValue(n: nat)
    ensures DigitsValue(NatToString(n)) == n
  {
    var r := NatToString(n);
    if n >= 10 {
      NatToStringValue(n / 10);
      assert r[..|r| - 1] == NatToString(n / 10);
    }
  }

  lemma NatToStringParses(n: nat)
    ensures IsDigitString(NatToString(n))
    ensures ParseInt(NatToString(n)) == Some(n)
  {
    NatToStringValue(n);
  }

  /** `int(str(n)) == n`: the loader's `str()` of a stored colour parses back
      to the same integer on the next save (for any size, since the
      4300-digit limit of CPython's conversions is not modelled). */
  lemma IntRoundTrip(n: int)
    ensures ParseInt(IntToString(n)) == Some(n)
    ensures IntToString(n) != "" && IsStripped(IntToString(n))
  {
    if n < 0 {
      NegativeParses(-n);
    } else {
      NatToStringParses(n);
    }
  }

  lemma NegativeParses(m: nat)
    requires m > 0
    ensures ParseInt("-" + NatToString(m)) == Some(-(m as int))
    ensures IsStripped("-" + NatToString(m))
  {
    var d := NatToString(m);
    NatToStringParses(m);
    var t := "-" + d;
    assert t[0] == '-' && t[1..] == d;
  }

  // ---------------------------------------------------------------------------
  // Case and spaces

  function UpperAscii(c: char): char {
    if 'a' <= c <= 'z' then (c as int - 32) as char else c
  }

  function LowerAscii(c: char): char {
    if 'A' <= c <= 'Z' then (c as int + 32) as char else c
  }

  /** Python's `str.capitalize()` on ASCII text: first character upper-case,
      the rest lower-case. */
  function Capitalize(s: string): (r: string)
    ensures |r| == |s|
  {
    if s == [] then [] else [UpperAscii(s[0])] + seq(|s| - 1, i requires 0 <= i < |s| - 1 => LowerAscii(s[i + 1]))
  }

  /** `s.replace(' ', '_')`. */
  function ReplaceSpaces(s: string): (r: string)
    ensures |r| == |s| && ' ' !in r
    ensures forall i :: 0 <= i < |s| && s[i] != ' ' ==> r[i] == s[i]
  {
    seq(|s|, i requires 0 <= i < |s| => if s[i] == ' ' then '_' else s[i])
  }
}
