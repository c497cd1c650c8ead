/** The string built-ins the handlers call: `String.prototype.split` with a
    one-character separator, `String.prototype.startsWith`, and `parseInt`
    on the strings the pagination validator lets through. */
module JsStrings {
  import opened JsValues

  /** The index of the first occurrence of `c` in `s`, as `indexOf` finds it. */
  function IndexOf(s: string, c: char): (r: Option<nat>)
    ensures r.None? <==> c !in s
    ensures r.Some? ==> r.value < |s| && s[r.value] == c && c !in s[..r.value]
  {
    if s == [] then None
    else if s[0] == c then Some(0)
    else
      match IndexOf(s[1..], c)
      case None => None
      case Some(i) =>
        assert s[1..][..i] == s[1..i + 1];
        Some(i + 1)
  }

  /** The first occurrence is unique: any index holding `c` with no `c`
      before it is the one IndexOf finds. */
  lemma IndexOfIsFirst(s: string, c: char, i: nat)
    requires i < |s| && s[i] == c && c !in s[..i]
    ensures IndexOf(s, c) == Some(i)
  {
  }

  /** Splitting at the first separator: the piece before it, then the
      split of what follows it. */
  lemma SplitAtFirst(s: string, sep: char, i: nat)
    requires i < |s| && s[i] == sep && sep !in s[..i]
    ensures Split(s, sep) == [s[..i]] + Split(s[i + 1..], sep)
  {
    IndexOfIsFirst(s, sep, i);
  }

  /** The first piece runs up to the first separator, or to the end when
      there is none. */
  lemma FirstPiece(s: string, sep: char, m: nat)
    requires m <= |s| && sep !in s[..m]
    requires m == |s| || s[m] == sep
    ensures Split(s, sep)[0] == s[..m]
  {
    if m == |s| {
      assert s[..m] == s;
    } else {
      SplitAtFirst(s, sep, m);
    }
  }

  /** `parts.join(sep)`. */
  function Join(parts: seq<string>, sep: char): string
  {
    if parts == [] then ""
    else if |parts| == 1 then parts[0]
    else parts[0] + [sep] + Join(parts[1..], sep)
  }

  /** `s.split(sep)` for a one-character separator: the pieces between
      consecutive separators, so a string without `sep` splits into itself
      and the empty string into `[""]`. The pieces never hold `sep` and
      joining them back with `sep` restores `s`. */
  function Split(s: string, sep: char): (parts: seq<string>)
    ensures |parts| >= 1
    ensures forall k :: 0 <= k < |parts| ==> sep !in parts[k]
    ensures Join(parts, sep) == s
    decreases |s|
  {
    match IndexOf(s, sep)
    case None => [s]
    case Some(i) =>
      var rest := Split(s[i + 1..], sep);
      assert s == s[..i] + [sep] + s[i + 1..];
      [s[..i]] + rest
  }

  /** Split is the only way to cut `s` into separator-free pieces that join
      back to `s`. */
  lemma {:induction false} SplitUnique(s: string, sep: char, parts: seq<string>)
    requires |parts| >= 1
    requires forall k :: 0 <= k < |parts| ==> sep !in parts[k]
    requires Join(parts, sep) == s
    ensures Split(s, sep) == parts
    decreases |s|
  {
    if |parts| == 1 {
      assert sep !in s;
    } else {
      var tail := Join(parts[1..], sep);
      var i := |parts[0]|;
      assert s == parts[0] + [sep] + tail;
      assert s[..i] == parts[0];
      assert s[i] == sep;
      IndexOfIsFirst(s, sep, i);
      assert s[i + 1..] == tail;
      forall k | 0 <= k < |parts[1..]| ensures sep !in parts[1..][k] {
        assert parts[1..][k] == parts[k + 1];
      }
      SplitUnique(tail, sep, parts[1..]);
      assert parts == [parts[0]] + parts[1..];
    }
  }

  /** `s.startsWith(prefix)`. */
  predicate StartsWith(s: string, prefix: string)
  {
    |prefix| <= |s| && s[..|prefix|] == prefix
  }

  predicate IsDigit(c: char)
  {
    '0' <= c <= '9'
  }

  predicate AllDigits(s: string)
  {
    forall k :: 0 <= k < |s| ==> IsDigit(s[k])
  }

  /** The strings `isInt()` accepts with its default options: an optional
      sign followed by one or more decimal digits. */
  predicate IsIntString(s: string)
  {
    if |s| > 0 && (s[0] == '+' || s[0] == '-') then |s| > 1 && AllDigits(s[1..])
    else |s| > 0 && AllDigits(s)
  }

  /** The value of a string of decimal digits, most significant first. */
  function DigitsValue(s: string): (n: nat)
    requires AllDigits(s)
  {
    if s == [] then 0
    else DigitsValue(s[..|s| - 1]) * 10 + (s[|s| - 1] as int - '0' as int)
  }

  /** The value `isInt()` compares against its bounds, and the number
      `parseInt` returns, for a string it accepts. */
  function IntValue(s: string): int
    requires IsIntString(s)
  {
    if s[0] == '-' then -(DigitsValue(s[1..]) as int)
    else if s[0] == '+' then DigitsValue(s[1..])
    else DigitsValue(s)
  }

  /** `parseInt(q)` for a query value that is absent (`parseInt(undefined)`
      is `NaN`) or is a string `isInt()` accepts. */
  function ParseInt(q: Option<string>): (r: Value)
    requires q.Some? ==> IsIntString(q.value)
    ensures q.None? ==> r == NaN
    ensures q.Some? ==> r.Num?
  {
    match q
    case None => NaN
    case Some(s) => Num(IntValue(s))
  }

  /** The decimal rendering of a natural number, without leading zeros. */
  function Decimal(n: nat): (s: string)
    ensures |s| >= 1 && AllDigits(s)
  {
    if n < 10 then [('0' as int + n) as char]
    else Decimal(n / 10) + [('0' as int + n % 10) as char]
  }

  /** parseInt reads back every number written in decimal. */
  lemma {:induction false} ParseIntDecimal(n: nat)
    ensures IsIntString(Decimal(n))
    ensures ParseInt(Some(Decimal(n))) == Num(n)
  {
    DigitsOfDecimal(n);
  }

  lemma {:induction false} DigitsOfDecimal(n: nat)
    ensures DigitsValue(Decimal(n)) == n
  {
    if n >= 10 {
      DigitsOfDecimal(n / 10);
      var s := Decimal(n);
      assert s[..|s| - 1] == Decimal(n / 10);
    }
  }
}
