/** The few Python string operations the core relies on: `str.join`, `+=`
    concatenation, `str.lower` and `str(int)`, together with the `str.rfind`
    that pathlib's suffix rule is built on, each with the facts about it
    that the rest of the model uses. */
module Strings {

  // ---------- Concatenation and joining ----------

  /** `"".join(parts)`: the parts one after another, nothing in between. */
  function Concat(parts: seq<string>): string
  {
    if |parts| == 0 then "" else parts[0] + Concat(parts[1..])
  }

  /** The total number of characters in `parts`. */
  function SumLengths(parts: seq<string>): nat
  {
    if |parts| == 0 then 0 else |parts[0]| + SumLengths(parts[1..])
  }

  /** `sep.join(parts)`: the parts in order with `sep` between neighbours;
      no parts give "", and the text opens with the first part. */
  function Join(sep: string, parts: seq<string>): (r: string)
    ensures |parts| == 0 ==> r == ""
    ensures |parts| > 0 ==> parts[0] <= r
  {
    if |parts| == 0 then ""
    else if |parts| == 1 then parts[0]
    else
      var rest := Join(sep, parts[1..]);
      assert parts[0] <= parts[0] + (sep + rest);
      assert parts[0] + sep + rest == parts[0] + (sep + rest);
      parts[0] + sep + rest
  }

  /** One more part adds its length to the total. */
  lemma {:induction false} SumLengthsSnoc(parts: seq<string>, p: string)
    ensures SumLengths(parts + [p]) == SumLengths(parts) + |p|
  {
    if |parts| > 0 {
      assert (parts + [p])[1..] == parts[1..] + [p];
      SumLengthsSnoc(parts[1..], p);
    }
  }

  /** Concatenation distributes over appending lists of parts. */
  lemma {:induction false} ConcatAppend(a: seq<string>, b: seq<string>)
    ensures Concat(a + b) == Concat(a) + Concat(b)
  {
    if |a| == 0 {
      assert a + b == b;
    } else {
      assert (a + b)[1..] == a[1..] + b;
      ConcatAppend(a[1..], b);
    }
  }

  /** n parts joined carry exactly n - 1 copies of the separator: the length
      is the parts' lengths plus `|sep|` for every gap between neighbours. */
  lemma {:induction false} JoinLength(sep: string, parts: seq<string>)
    requires |parts| > 0
    ensures |Join(sep, parts)| == SumLengths(parts) + |sep| * (|parts| - 1)
  {
    if |parts| == 1 {
      assert parts[1..] == [];
    } else {
      JoinLength(sep, parts[1..]);
      calc {
        |Join(sep, parts)|;
        |parts[0]| + |sep| + |Join(sep, parts[1..])|;
        |parts[0]| + |sep| + SumLengths(parts[1..]) + |sep| * (|parts| - 2);
        { assert |sep| + |sep| * (|parts| - 2) == |sep| * (|parts| - 1); }
        SumLengths(parts) + |sep| * (|parts| - 1);
      }
    }
  }

  /** Joining one more part adds one separator and the part at the end. */
  lemma {:induction false} JoinSnoc(sep: string, parts: seq<string>, p: string)
    requires |parts| > 0
    ensures Join(sep, parts + [p]) == Join(sep, parts) + sep + p
  {
    if |parts| == 1 {
      assert (parts + [p])[1..] == [p];
    } else {
      assert (parts + [p])[1..] == parts[1..] + [p];
      JoinSnoc(sep, parts[1..], p);
    }
  }

  // ---------- Splitting at a character (the inverse of joining) ----------

  /** `s.split(c)` for a one-character separator: the pieces of `s` between
      occurrences of `c`; always at least one piece. */
  function Split(c: char, s: string): (r: seq<string>)
    ensures |r| > 0
    decreases |s|
  {
    if |s| == 0 then [""]
    else
      var rest := Split(c, s[1..]);
      if s[0] == c then [""] + rest else [[s[0]] + rest[0]] + rest[1..]
  }

  /** Joining the pieces back with the separator gives the original text. */
  lemma {:induction false} JoinSplit(c: char, s: string)
    ensures Join([c], Split(c, s)) == s
    decreases |s|
  {
    if |s| > 0 {
      var rest := Split(c, s[1..]);
      JoinSplit(c, s[1..]);
      if s[0] == c {
        assert ([""] + rest)[1..] == rest;
      } else {
        var parts := [[s[0]] + rest[0]] + rest[1..];
        if |rest| == 1 {
          assert parts == [[s[0]] + rest[0]];
        } else {
          assert parts[1..] == rest[1..];
          assert Join([c], rest) == rest[0] + [c] + Join([c], rest[1..]);
        }
      }
    }
  }

  /** Splitting `x + [c] + y` where `x` has no `c` yields `x` first. */
  lemma {:induction false} SplitAfterPiece(c: char, x: string, y: string)
    requires c !in x
    ensures Split(c, x + [c] + y) == [x] + Split(c, y)
    decreases |x|
  {
    if |x| == 0 {
      assert x + [c] + y == [c] + y;
      assert ([c] + y)[1..] == y;
    } else {
      assert (x + [c] + y)[1..] == x[1..] + [c] + y;
      SplitAfterPiece(c, x[1..], y);
      assert [x[0]] + x[1..] == x;
    }
  }

  /** Splitting a text without `c` gives the text itself. */
  lemma {:induction false} SplitNoSeparator(c: char, x: string)
    requires c !in x
    ensures Split(c, x) == [x]
    decreases |x|
  {
    if |x| > 0 {
      SplitNoSeparator(c, x[1..]);
      assert [x[0]] + x[1..] == x;
    }
  }

  /** When no part contains the separator, splitting the joined text gives
      back exactly the parts (for at least one part: `"".split(c)` is `[""]`). */
  lemma {:induction false} SplitJoin(c: char, parts: seq<string>)
    requires |parts| > 0
    requires forall i :: 0 <= i < |parts| ==> c !in parts[i]
    ensures Split(c, Join([c], parts)) == parts
  {
    if |parts| == 1 {
      SplitNoSeparator(c, parts[0]);
    } else {
      SplitJoin(c, parts[1..]);
      SplitAfterPiece(c, parts[0], Join([c], parts[1..]));
    }
  }

  // ---------- Case folding ----------

  /** `str.lower` on one character, for the ASCII letters. */
  function LowerChar(ch: char): char
  {
    if 'A' <= ch <= 'Z' then (ch as int + 32) as char else ch
  }

  /** `str.lower`, character by character, for the ASCII letters. */
  function Lower(s: string): (r: string)
    ensures |r| == |s|
    ensures forall i :: 0 <= i < |s| ==> r[i] == LowerChar(s[i])
  {
    if |s| == 0 then "" else [LowerChar(s[0])] + Lower(s[1..])
  }

  /** Lower-casing twice is lower-casing once. */
  lemma LowerIdempotent(s: string)
    ensures Lower(Lower(s)) == Lower(s)
  {
  }

  /** Lower-casing commutes with taking a suffix from a given position. */
  lemma LowerFrom(s: string, i: nat)
    requires i <= |s|
    ensures Lower(s[i..]) == Lower(s)[i..]
  {
  }

  // ---------- Searching from the right ----------

  /** `s.rfind(c)`: the last index holding `c`, or -1 when there is none. */
  function RFind(s: string, c: char): (r: int)
    ensures -1 <= r < |s|
    ensures 0 <= r ==> s[r] == c
    ensures forall j :: r < j < |s| ==> s[j] != c
    decreases |s|
  {
    if |s| == 0 then -1
    else if s[|s| - 1] == c then |s| - 1
    else RFind(s[..|s| - 1], c)
  }

  /** The conditions of `RFind`'s contract determine its result. */
  lemma RFindUnique(s: string, c: char, k: int)
    requires -1 <= k < |s|
    requires 0 <= k ==> s[k] == c
    requires forall j :: k < j < |s| ==> s[j] != c
    ensures RFind(s, c) == k
  {
  }

  /** A dot is found at the same place before and after lower-casing,
      because lower-casing maps exactly the dot to a dot. */
  lemma RFindDotLower(s: string)
    ensures RFind(Lower(s), '.') == RFind(s, '.')
  {
    var k := RFind(s, '.');
    var t := Lower(s);
    forall j | k < j < |t|
      ensures t[j] != '.'
    {
      assert s[j] != '.';
    }
    RFindUnique(t, '.', k);
  }

  // ---------- Decimal numerals ----------

  predicate IsDigit(ch: char)
  {
    '0' <= ch <= '9'
  }

  function DigitChar(d: nat): (ch: char)
    requires d < 10
    ensures IsDigit(ch)
  {
    ('0' as int + d) as char
  }

  function DigitValue(ch: char): nat
  {
    if IsDigit(ch) then ch as int - '0' as int else 0
  }

  /** `str(n)` for a natural number: its decimal digits, most significant
      first, with no leading zero. */
  function Decimal(n: nat): (r: string)
    ensures |r| > 0
    ensures forall i :: 0 <= i < |r| ==> IsDigit(r[i])
    ensures r[0] == '0' ==> n == 0
  {
    if n < 10 then [DigitChar(n)] else Decimal(n / 10) + [DigitChar(n % 10)]
  }

  /** The value of a string of decimal digits (`int(s)`). */
  function DecimalValue(s: string): nat
  {
    if |s| == 0 then 0 else DecimalValue(s[..|s| - 1]) * 10 + DigitValue(s[|s| - 1])
  }

  /** Reading back the numeral gives the number: `int(str(n)) == n`. */
  lemma {:induction false} DecimalRoundTrip(n: nat)
    ensures DecimalValue(Decimal(n)) == n
  {
    if n >= 10 {
      var d := Decimal(n / 10);
      var r := d + [DigitChar(n % 10)];
      assert r[..|r| - 1] == d;
      DecimalRoundTrip(n / 10);
    }
  }

  /** Different numbers have different numerals. */
  lemma DecimalInjective(m: nat, n: nat)
    requires Decimal(m) == Decimal(n)
    ensures m == n
  {
    DecimalRoundTrip(m);
    DecimalRoundTrip(n);
  }
}
