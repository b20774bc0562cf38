/** The month keys of src/lib/utils.ts and the API routes: the `YYYY-MM`
    shape, and how `monthStr.split('-').map(Number)` reads one. */
module MonthKeys {
  import opened Seqs

  predicate IsDigit(c: char)
  {
    '0' <= c <= '9'
  }

  predicate AllDigits(s: string)
  {
    forall i :: 0 <= i < |s| ==> IsDigit(s[i])
  }

  /** Decimal value of a string of digits, most significant first. */
  function DigitsValue(s: string): nat
    requires AllDigits(s)
  {
    if s == [] then 0 else DigitsValue(s[..|s| - 1]) * 10 + (s[|s| - 1] as int - '0' as int)
  }

  /** `Number(part)`: the empty string is 0, a string of digits is its
      decimal value, anything else is NaN (`None`). */
  function NumberOf(s: string): Option<int>
  {
    if AllDigits(s) then Some(DigitsValue(s)) else None
  }

  /** `s.split(sep)` for a one-character separator: the pieces between
      separators, always at least one (`"".split('-')` is `[""]`). */
  function Split(s: string, sep: char): (r: seq<string>)
    ensures |r| >= 1
  {
    if s == [] then [""]
    else
      var rest := Split(s[1..], sep);
      if s[0] == sep then [""] + rest else [[s[0]] + rest[0]] + rest[1..]
  }

  /** `const [year, month] = monthStr.split('-').map(Number)`: `None` when
      either is NaN, including a key without `-` (month is `undefined`).
      Pieces after the second are ignored. */
  function ParseMonthKey(s: string): Option<(int, int)>
  {
    var parts := Split(s, '-');
    if |parts| < 2 then None
    else
      match (NumberOf(parts[0]), NumberOf(parts[1]))
      case (Some(y), Some(m)) => Some((y, m))
      case _ => None
  }

  /** `n` written with exactly `width` digits, zero-padded (its last
      `width` digits if it is longer). */
  function PadDigits(n: nat, width: nat): (r: string)
    ensures |r| == width && AllDigits(r)
  {
    if width == 0 then "" else PadDigits(n / 10, width - 1) + [('0' as int + n % 10) as char]
  }

  function Pow10(k: nat): nat
  {
    if k == 0 then 1 else 10 * Pow10(k - 1)
  }

  /** The `yyyy-MM` key of a month (1-based), as `format(date, 'yyyy-MM')`
      and an HTML month input produce it. */
  function FormatMonthKey(year: nat, month: nat): string
    requires year < 10000 && 1 <= month <= 12
  {
    PadDigits(year, 4) + "-" + PadDigits(month, 2)
  }

  /** The shape a budget's month is meant to have: four digits, `-`, two digits. */
  predicate IsMonthKey(s: string)
  {
    |s| == 7 && s[4] == '-' && AllDigits(s[..4]) && AllDigits(s[5..])
    && 1 <= DigitsValue(s[5..]) <= 12
  }

  lemma {:induction false} PadDigitsValue(n: nat, width: nat)
    requires n < Pow10(width)
    ensures DigitsValue(PadDigits(n, width)) == n
  {
    if width > 0 {
      PadDigitsValue(n / 10, width - 1);
      var r := PadDigits(n, width);
      assert r[..|r| - 1] == PadDigits(n / 10, width - 1);
    }
  }

  /** `pieces.join(sep)`. */
  function Join(pieces: seq<string>, sep: char): string
    requires |pieces| >= 1
  {
    if |pieces| == 1 then pieces[0] else pieces[0] + [sep] + Join(pieces[1..], sep)
  }

  /** `split` cuts at every separator and only there: no piece holds the
      separator, and joining the pieces with it gives the string back. */
  lemma {:induction false} SplitJoin(s: string, sep: char)
    ensures forall i, j :: 0 <= i < |Split(s, sep)| && 0 <= j < |Split(s, sep)[i]| ==>
              Split(s, sep)[i][j] != sep
    ensures Join(Split(s, sep), sep) == s
  {
    if s != [] {
      SplitJoin(s[1..], sep);
      var rest := Split(s[1..], sep);
      if s[0] == sep {
        assert Split(s, sep) == [""] + rest;
        assert Join([""] + rest, sep) == [sep] + Join(rest, sep);
      } else {
        assert Split(s, sep) == [[s[0]] + rest[0]] + rest[1..];
        if |rest| > 1 {
          assert ([[s[0]] + rest[0]] + rest[1..])[1..] == rest[1..];
        }
      }
      assert [s[0]] + s[1..] == s;
    }
  }

  lemma {:induction false} SplitWithout(s: string, sep: char)
    requires forall i :: 0 <= i < |s| ==> s[i] != sep
    ensures Split(s, sep) == [s]
  {
    if s != [] {
      SplitWithout(s[1..], sep);
      assert [s[0]] + s[1..] == s;
    }
  }

  lemma {:induction false} SplitAround(a: string, b: string, sep: char)
    requires forall i :: 0 <= i < |a| ==> a[i] != sep
    requires forall i :: 0 <= i < |b| ==> b[i] != sep
    ensures Split(a + [sep] + b, sep) == [a, b]
  {
    if a == [] {
      assert a + [sep] + b == [sep] + b;
      SplitWithout(b, sep);
    } else {
      SplitAround(a[1..], b, sep);
      assert (a + [sep] + b)[1..] == a[1..] + [sep] + b;
      assert [a[0]] + a[1..] == a;
    }
  }

  /** Parsing the key of a month gives back its year and 1-based month. */
  lemma MonthKeyRoundTrip(year: nat, month: nat)
    requires year < 10000 && 1 <= month <= 12
    ensures IsMonthKey(FormatMonthKey(year, month))
    ensures ParseMonthKey(FormatMonthKey(year, month)) == Some((year, month))
  {
    var ys, ms := PadDigits(year, 4), PadDigits(month, 2);
    var key := FormatMonthKey(year, month);
    assert key == ys + ['-'] + ms;
    assert key[..4] == ys && key[5..] == ms;
    PadDigitsValue(year, 4);
    PadDigitsValue(month, 2);
    SplitAround(ys, ms, '-');
  }
}
