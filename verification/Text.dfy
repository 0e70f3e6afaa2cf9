/** The string operations of Python that the service leans on. */
module Text {
  /** Python's `str.isspace` on one character, which is also what `\s` matches in a `str` pattern. */
  predicate IsSpace(c: char) {
    var n := c as int;
    || 0x09 <= n <= 0x0D || 0x1C <= n <= 0x20 || n == 0x85 || n == 0xA0
    || n == 0x1680 || 0x2000 <= n <= 0x200A || n == 0x2028 || n == 0x2029
    || n == 0x202F || n == 0x205F || n == 0x3000
  }

  /** White space, code point by code point. */
  lemma SpacesAre(c: char)
    ensures IsSpace(c) <==> c as int in {
      0x09, 0x0A, 0x0B, 0x0C, 0x0D, 0x1C, 0x1D, 0x1E, 0x1F, 0x20, 0x85, 0xA0, 0x1680,
      0x2000, 0x2001, 0x2002, 0x2003, 0x2004, 0x2005, 0x2006, 0x2007, 0x2008, 0x2009, 0x200A,
      0x2028, 0x2029, 0x202F, 0x205F, 0x3000}
  {
  }

  function TrimStart(drop: char -> bool, s: string): string {
    if s != "" && drop(s[0]) then TrimStart(drop, s[1..]) else s
  }

  function TrimEnd(drop: char -> bool, s: string): string {
    if s != "" && drop(s[|s| - 1]) then TrimEnd(drop, s[..|s| - 1]) else s
  }

  /** `s.strip(...)`: drops the longest run of unwanted characters at either end. */
  function Trim(drop: char -> bool, s: string): string {
    TrimEnd(drop, TrimStart(drop, s))
  }

  /** `s.strip()`. */
  function Strip(s: string): string {
    Trim(IsSpace, s)
  }

  /** What trimming returns is part of the text. */
  lemma {:induction false} TrimEndWithin(drop: char -> bool, s: string)
    ensures TrimEnd(drop, s) <= s
  {
    if s != "" && drop(s[|s| - 1]) {
      TrimEndWithin(drop, s[..|s| - 1]);
    }
  }

  lemma {:induction false} TrimStartWithin(drop: char -> bool, s: string)
    ensures forall c :: c in TrimStart(drop, s) ==> c in s
  {
    if s != "" && drop(s[0]) {
      TrimStartWithin(drop, s[1..]);
    }
  }

  lemma TrimWithin(drop: char -> bool, s: string)
    ensures forall c :: c in Trim(drop, s) ==> c in s
  {
    TrimStartWithin(drop, s);
    TrimEndWithin(drop, TrimStart(drop, s));
  }

  lemma {:induction false} TrimAll(drop: char -> bool, s: string)
    requires forall c :: c in s ==> drop(c)
    ensures Trim(drop, s) == ""
  {
    if s != "" {
      assert s[0] in s;
      TrimAll(drop, s[1..]);
    }
  }

  /** Characters the predicate rejects at both ends are all that trimming takes away. */
  lemma TrimAround(drop: char -> bool, left: string, middle: string, right: string)
    requires forall c :: c in left ==> drop(c)
    requires forall c :: c in right ==> drop(c)
    requires middle != "" && !drop(middle[0]) && !drop(middle[|middle| - 1])
    ensures Trim(drop, left + middle + right) == middle
  {
    assert left + middle + right == left + (middle + right);
    TrimStartAt(drop, left, middle + right);
    TrimEndAt(drop, middle, right);
  }

  lemma {:induction false} TrimStartAt(drop: char -> bool, left: string, rest: string)
    requires forall c :: c in left ==> drop(c)
    requires rest != "" && !drop(rest[0])
    ensures TrimStart(drop, left + rest) == rest
  {
    if left == "" {
      assert left + rest == rest;
    } else {
      assert (left + rest)[0] == left[0] && left[0] in left;
      assert (left + rest)[1..] == left[1..] + rest;
      TrimStartAt(drop, left[1..], rest);
    }
  }

  lemma {:induction false} TrimEndAt(drop: char -> bool, rest: string, right: string)
    requires forall c :: c in right ==> drop(c)
    requires rest != "" && !drop(rest[|rest| - 1])
    ensures TrimEnd(drop, rest + right) == rest
  {
    if right == "" {
      assert rest + right == rest;
    } else {
      var s := rest + right;
      assert s[|s| - 1] == right[|right| - 1] && right[|right| - 1] in right;
      assert s[..|s| - 1] == rest + right[..|right| - 1];
      TrimEndAt(drop, rest, right[..|right| - 1]);
    }
  }

  /** Decimal numerals, as Python formats a natural number. */
  function Decimal(n: nat): (r: string)
    ensures r != "" && forall c :: c in r ==> '0' <= c <= '9'
  {
    var last := [('0' as int + n % 10) as char];
    if n < 10 then last else Decimal(n / 10) + last
  }

  /** What a numeral stands for. */
  function Value(numeral: string): int {
    if numeral == "" then 0
    else Value(numeral[..|numeral| - 1]) * 10 + (numeral[|numeral| - 1] as int - '0' as int)
  }

  /** The numeral of a number stands for it, without leading zeros. */
  lemma {:induction false} DecimalValue(n: nat)
    ensures Value(Decimal(n)) == n && (n > 0 ==> Decimal(n)[0] != '0')
  {
    if n >= 10 {
      DecimalValue(n / 10);
      assert Decimal(n)[..|Decimal(n)| - 1] == Decimal(n / 10);
    } else {
      assert Decimal(n)[..0] == "";
    }
  }

  lemma DecimalLong(n: nat)
    ensures n >= 10 ==> |Decimal(n)| > 1
  {
  }

  lemma {:induction false} DecimalInjective(m: nat, n: nat)
    requires Decimal(m) == Decimal(n)
    ensures m == n
  {
    var a, b := Decimal(m), Decimal(n);
    assert a[|a| - 1] == ('0' as int + m % 10) as char;
    assert b[|b| - 1] == ('0' as int + n % 10) as char;
    assert m % 10 == n % 10;
    if m < 10 && n < 10 {
    } else if m < 10 {
      DecimalLong(n);
      assert false;
    } else if n < 10 {
      DecimalLong(m);
      assert false;
    } else {
      assert a[..|a| - 1] == Decimal(m / 10);
      assert b[..|b| - 1] == Decimal(n / 10);
      DecimalInjective(m / 10, n / 10);
    }
  }
}
