// The Bool names spot_entry gives its propositions, '_num_x_y', and the
// decoder's way of reading them back: s.split("_")[1:] and int() of the
// first three parts.
module Names {
  import opened Sudoku

  const Separator: char := '_'

  function DigitChar(d: nat): char
    requires d < 10
  {
    "0123456789"[d]
  }

  /** Python's str() of a non-negative int: its decimal digits, no leading zero. */
  function NatToString(n: nat): string
    decreases n
  {
    if n < 10 then [DigitChar(n)] else NatToString(n / 10) + [DigitChar(n % 10)]
  }

  /** Python's str() of an int: a minus sign before the digits of a negative one. */
  function IntToString(n: int): string
  {
    if n < 0 then "-" + NatToString(-n) else NatToString(n)
  }

  predicate IsDigit(c: char)
  {
    '0' <= c <= '9'
  }

  predicate AllDigits(s: string)
  {
    forall k :: 0 <= k < |s| ==> IsDigit(s[k])
  }

  /** The value of a string of decimal digits. */
  function DigitsValue(s: string): nat
    requires AllDigits(s)
    decreases |s|
  {
    if s == [] then 0 else DigitsValue(s[..|s| - 1]) * 10 + (s[|s| - 1] as int - '0' as int)
  }

  /**
   * Python's int() of a string: an optional sign and one or more decimal
   * digits; anything else raises ValueError, modelled as None.
   */
  function ParseInt(s: string): Option<int>
  {
    if |s| > 1 && (s[0] == '-' || s[0] == '+') && AllDigits(s[1..]) then
      var v: int := DigitsValue(s[1..]);
      Some(if s[0] == '-' then -v else v)
    else if |s| > 0 && AllDigits(s) then
      Some(DigitsValue(s))
    else
      None
  }

  /** Python's s.split(sep): the pieces between separators, empty ones kept. */
  function Split(s: string, sep: char): (parts: seq<string>)
    ensures |parts| >= 1
    decreases |s|
  {
    if s == [] then [""]
    else if s[0] == sep then [""] + Split(s[1..], sep)
    else
      var rest := Split(s[1..], sep);
      [[s[0]] + rest[0]] + rest[1..]
  }

  /** spot_entry's name: '_' + str(num) + '_' + str(x) + '_' + str(y). */
  function Name(p: Prop): (s: string)
    ensures Split(s, Separator) == ["", IntToString(p.num), IntToString(p.x), IntToString(p.y)]
  {
    IntToStringNoSeparator(p.num);
    IntToStringNoSeparator(p.x);
    IntToStringNoSeparator(p.y);
    JoinSplit(IntToString(p.num), IntToString(p.x), IntToString(p.y));
    "_" + IntToString(p.num) + "_" + IntToString(p.x) + "_" + IntToString(p.y)
  }

  /**
   * The decoder's reading of a name: parts = name.split("_")[1:], then
   * int(parts[0]), int(parts[1]), int(parts[2]). None stands for the
   * IndexError or ValueError Python raises when that fails.
   */
  function ParseName(s: string): Option<Prop>
  {
    var parts := Split(s, Separator)[1..];
    if |parts| < 3 then None
    else
      match (ParseInt(parts[0]), ParseInt(parts[1]), ParseInt(parts[2]))
      case (Some(num), Some(x), Some(y)) => Some(Prop(num, x, y))
      case _ => None
  }

  // ---------------------------------------------------------------------

  lemma DigitCharValue(d: nat)
    requires d < 10
    ensures IsDigit(DigitChar(d)) && DigitChar(d) as int - '0' as int == d
  {
  }

  lemma {:induction false} NatToStringDigits(n: nat)
    ensures |NatToString(n)| > 0 && AllDigits(NatToString(n))
    ensures DigitsValue(NatToString(n)) == n
    decreases n
  {
    if n < 10 {
      DigitCharValue(n);
      assert DigitsValue(NatToString(n)) == DigitsValue([]) * 10 + (DigitChar(n) as int - '0' as int);
    } else {
      NatToStringDigits(n / 10);
      DigitCharValue(n % 10);
      var s := NatToString(n);
      assert s[..|s| - 1] == NatToString(n / 10);
      assert DigitsValue(s) == (n / 10) * 10 + n % 10;
    }
  }

  /** int(str(n)) == n. */
  lemma IntRoundTrip(n: int)
    ensures ParseInt(IntToString(n)) == Some(n)
  {
    if n < 0 {
      NatToStringDigits(-n);
      assert IntToString(n)[1..] == NatToString(-n);
    } else {
      NatToStringDigits(n);
    }
  }

  lemma IntToStringNoSeparator(n: int)
    ensures Separator !in IntToString(n)
  {
    NatToStringDigits(if n < 0 then -n else n);
  }

  lemma {:induction false} SplitNoSeparator(a: string, sep: char)
    requires sep !in a
    ensures Split(a, sep) == [a]
    decreases |a|
  {
    if a != [] {
      SplitNoSeparator(a[1..], sep);
      assert [a[0]] + a[1..] == a;
    }
  }

  /** Splitting at the first separator peels off the piece before it. */
  lemma {:induction false} SplitJoin(a: string, sep: char, b: string)
    requires sep !in a
    ensures Split(a + [sep] + b, sep) == [a] + Split(b, sep)
    decreases |a|
  {
    if a == [] {
      assert a + [sep] + b == [sep] + b;
      assert ([sep] + b)[1..] == b;
    } else {
      assert (a + [sep] + b)[1..] == a[1..] + [sep] + b;
      SplitJoin(a[1..], sep, b);
      assert [a[0]] + a[1..] == a;
    }
  }

  /** Joining three separator-free pieces behind a leading '_' splits back into them. */
  lemma JoinSplit(a: string, b: string, c: string)
    requires Separator !in a && Separator !in b && Separator !in c
    ensures Split("_" + a + "_" + b + "_" + c, Separator) == ["", a, b, c]
  {
    assert "_" + a + "_" + b + "_" + c == [] + [Separator] + (a + [Separator] + (b + [Separator] + c));
    SplitJoin([], Separator, a + [Separator] + (b + [Separator] + c));
    SplitJoin(a, Separator, b + [Separator] + c);
    SplitJoin(b, Separator, c);
    SplitNoSeparator(c, Separator);
  }

  /** The decoder reads back exactly the (num, x, y) spot_entry was given. */
  lemma NameRoundTrip(p: Prop)
    ensures ParseName(Name(p)) == Some(p)
  {
    IntRoundTrip(p.num);
    IntRoundTrip(p.x);
    IntRoundTrip(p.y);
  }

  /** Distinct propositions get distinct Bool names, so z3 keeps them apart. */
  lemma NameInjective(p: Prop, q: Prop)
    ensures Name(p) == Name(q) <==> p == q
  {
    if Name(p) == Name(q) {
      NameRoundTrip(p);
      NameRoundTrip(q);
    }
  }
}
