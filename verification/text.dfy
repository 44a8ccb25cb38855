/** String helpers the router and the id generators rely on. */
module Text {

  /** Number of occurrences of `c` in `s`. */
  function Occurrences(s: string, c: char): nat
  {
    if |s| == 0 then 0
    else (if s[0] == c then 1 else 0) + Occurrences(s[1..], c)
  }

  /** `s.split(sep)` for a one-character separator: the pieces between separators,
      empty pieces included, never fewer than one. */
  function Split(s: string, sep: char): (parts: seq<string>)
    ensures |parts| == Occurrences(s, sep) + 1
    ensures forall i :: 0 <= i < |parts| ==> sep !in parts[i]
  {
    if |s| == 0 then [""]
    else
      var rest := Split(s[1..], sep);
      if s[0] == sep then [""] + rest
      else [[s[0]] + rest[0]] + rest[1..]
  }

  /** `parts.join(sep)`: the inverse of `Split`. */
  function Join(parts: seq<string>, sep: char): string
    requires |parts| >= 1
  {
    if |parts| == 1 then parts[0]
    else parts[0] + [sep] + Join(parts[1..], sep)
  }

  /** Joining the pieces of a split gives back the original string. */
  lemma {:induction false} JoinSplit(s: string, sep: char)
    ensures Join(Split(s, sep), sep) == s
  {
    if |s| == 0 {
    } else {
      var rest := Split(s[1..], sep);
      JoinSplit(s[1..], sep);
      if s[0] == sep {
        assert Split(s, sep) == [""] + rest;
        assert Split(s, sep)[1..] == rest;
      } else {
        var parts := [[s[0]] + rest[0]] + rest[1..];
        assert Split(s, sep) == parts;
        if |rest| == 1 {
          assert Join(parts, sep) == [s[0]] + rest[0];
        } else {
          assert parts[1..] == rest[1..];
          assert Join(rest, sep) == rest[0] + [sep] + Join(rest[1..], sep);
          assert Join(parts, sep) == [s[0]] + rest[0] + [sep] + Join(rest[1..], sep);
        }
        assert s == [s[0]] + s[1..];
      }
    }
  }

  /** A separator-free prefix is glued onto the first piece of what follows it. */
  lemma {:induction false} SplitPrefix(p: string, t: string, sep: char)
    requires sep !in p
    ensures Split(p + t, sep) == [p + Split(t, sep)[0]] + Split(t, sep)[1..]
  {
    if |p| == 0 {
      var u := Split(t, sep);
      assert p + t == t && p + u[0] == u[0];
      assert u == [u[0]] + u[1..];
    } else {
      var u := Split(t, sep);
      assert (p + t)[1..] == p[1..] + t;
      assert (p + t)[0] == p[0] && p[0] != sep;
      SplitPrefix(p[1..], t, sep);
      var rest := Split(p[1..] + t, sep);
      assert rest == [p[1..] + u[0]] + u[1..];
      assert Split(p + t, sep) == [[p[0]] + rest[0]] + rest[1..];
      assert rest[1..] == u[1..];
      assert [p[0]] + (p[1..] + u[0]) == p + u[0];
    }
  }

  /** Splitting a join of separator-free pieces gives the pieces back. */
  lemma {:induction false} SplitJoin(parts: seq<string>, sep: char)
    requires |parts| >= 1
    requires forall i :: 0 <= i < |parts| ==> sep !in parts[i]
    ensures Split(Join(parts, sep), sep) == parts
  {
    if |parts| == 1 {
      SplitPrefix(parts[0], "", sep);
      assert parts[0] + "" == parts[0];
    } else {
      var tail := Join(parts[1..], sep);
      SplitJoin(parts[1..], sep);
      var t := [sep] + tail;
      assert t[1..] == tail;
      assert Split(t, sep) == [""] + parts[1..];
      SplitPrefix(parts[0], t, sep);
      assert Join(parts, sep) == parts[0] + t;
      assert Split(Join(parts, sep), sep) == [parts[0] + ""] + parts[1..];
      assert parts[0] + "" == parts[0];
      assert parts == [parts[0]] + parts[1..];
    }
  }

  /** Joining three pieces puts a separator between each neighbouring pair. */
  lemma Join3(a: string, b: string, c: string, sep: char)
    ensures Join([a, b, c], sep) == a + [sep] + b + [sep] + c
  {
    assert [a, b, c][1..] == [b, c];
    assert [b, c][1..] == [c];
    assert Join([b, c], sep) == b + [sep] + c;
    assert a + [sep] + (b + [sep] + c) == a + [sep] + b + [sep] + c;
  }

  predicate IsDigit(c: char)
  {
    '0' <= c <= '9'
  }

  predicate AllDigits(s: string)
  {
    forall i :: 0 <= i < |s| ==> IsDigit(s[i])
  }

  /** The decimal rendering of a non-negative integer, as a template literal
      renders `Date.now()`. */
  function Decimal(n: nat): (r: string)
    ensures |r| >= 1 && AllDigits(r)
    ensures |r| > 1 ==> r[0] != '0'
  {
    if n < 10 then [('0' as int + n) as char]
    else Decimal(n / 10) + [('0' as int + n % 10) as char]
  }

  /** The number a string of decimal digits denotes. */
  function DigitsValue(s: string): nat
    requires AllDigits(s)
  {
    if |s| == 0 then 0
    else DigitsValue(s[..|s| - 1]) * 10 + (s[|s| - 1] as int - '0' as int)
  }

  /** `Decimal` loses nothing: reading its digits back gives the number. */
  lemma {:induction false} DecimalRoundTrip(n: nat)
    ensures DigitsValue(Decimal(n)) == n
  {
    if n >= 10 {
      DecimalRoundTrip(n / 10);
      var r := Decimal(n);
      assert r[..|r| - 1] == Decimal(n / 10);
    }
  }

  /** Distinct numbers render as distinct strings. */
  lemma DecimalInjective(m: nat, n: nat)
    requires Decimal(m) == Decimal(n)
    ensures m == n
  {
    DecimalRoundTrip(m);
    DecimalRoundTrip(n);
  }
}
