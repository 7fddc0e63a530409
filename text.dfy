/** JavaScript's rendering of integers as text, `Array.prototype.join`, and splitting back. */
module Text {

  predicate IsDigit(c: char) {
    '0' <= c <= '9'
  }

  predicate AllDigits(s: string) {
    forall i | 0 <= i < |s| :: IsDigit(s[i])
  }

  function DigitChar(d: nat): (c: char)
    requires d < 10
    ensures IsDigit(c) && c as int - '0' as int == d
  {
    (d + '0' as int) as char
  }

  /** Decimal digits of `n`, most significant first, with no leading zeros (`String(n)`). */
  function NatToString(n: nat): (s: string)
    ensures |s| >= 1 && AllDigits(s)
    ensures n >= 10 <==> |s| >= 2
    decreases n
  {
    if n < 10 then [DigitChar(n)] else NatToString(n / 10) + [DigitChar(n % 10)]
  }

  function ParseNat(s: string): nat
    requires AllDigits(s)
  {
    if s == [] then 0 else 10 * ParseNat(s[..|s| - 1]) + (s[|s| - 1] as int - '0' as int)
  }

  /** Reading the decimal text back yields the number it renders. */
  lemma {:induction false} ParseNatOfNatToString(n: nat)
    ensures ParseNat(NatToString(n)) == n
    decreases n
  {
    var s := NatToString(n);
    if n >= 10 {
      ParseNatOfNatToString(n / 10);
      assert s[..|s| - 1] == NatToString(n / 10);
    }
  }

  /** `String(i)` for an integer: a minus sign before the magnitude when negative. */
  function IntToString(i: int): (s: string)
    ensures |s| >= 1
    ensures i < 0 <==> s[0] == '-'
    ensures forall k | 0 <= k < |s| :: IsDigit(s[k]) || (k == 0 && s[k] == '-')
    ensures AllDigits(s[(if i < 0 then 1 else 0)..])
    ensures ParseNat(s[(if i < 0 then 1 else 0)..]) == if i < 0 then -i else i
  {
    if i < 0 then
      ParseNatOfNatToString(-i);
      assert ("-" + NatToString(-i))[1..] == NatToString(-i);
      "-" + NatToString(-i)
    else
      ParseNatOfNatToString(i);
      assert NatToString(i)[0..] == NatToString(i);
      NatToString(i)
  }

  /** `fields.join(sep)`. */
  function Join(fields: seq<string>, sep: char): string
    decreases |fields|
  {
    if |fields| == 0 then ""
    else if |fields| == 1 then fields[0]
    else fields[0] + [sep] + Join(fields[1..], sep)
  }

  /** Position of the first `c` in `s`, or |s| when there is none. */
  function IndexOf(s: string, c: char): (k: nat)
    ensures k <= |s|
    ensures k < |s| ==> s[k] == c
    ensures forall i | 0 <= i < k :: s[i] != c
  {
    if s == [] then 0 else if s[0] == c then 0 else 1 + IndexOf(s[1..], c)
  }

  /** `s.split(sep)`: the pieces between separators, at least one. */
  function Split(s: string, sep: char): (r: seq<string>)
    ensures |r| >= 1
    decreases |s|
  {
    var k := IndexOf(s, sep);
    if k == |s| then [s] else [s[..k]] + Split(s[k + 1..], sep)
  }

  /** The number of occurrences of `c` in `s`. */
  function Count(s: string, c: char): nat {
    if s == [] then 0 else (if s[0] == c then 1 else 0) + Count(s[1..], c)
  }

  lemma {:induction false} CountConcat(a: string, b: string, c: char)
    ensures Count(a + b, c) == Count(a, c) + Count(b, c)
    decreases |a|
  {
    if a == [] {
      assert a + b == b;
    } else {
      assert (a + b)[1..] == a[1..] + b;
      CountConcat(a[1..], b, c);
    }
  }

  lemma {:induction false} CountAbsent(s: string, c: char)
    requires c !in s
    ensures Count(s, c) == 0
    decreases |s|
  {
    if s != [] {
      assert c !in s[1..] by {
        forall i | 0 <= i < |s| - 1 ensures s[1..][i] != c {
          assert s[1..][i] == s[i + 1];
        }
      }
      CountAbsent(s[1..], c);
    }
  }

  /** A character that no field holds does not appear in their join, except as the separator. */
  lemma {:induction false} NotInJoin(fields: seq<string>, sep: char, c: char)
    requires c != sep
    requires forall i | 0 <= i < |fields| :: c !in fields[i]
    ensures c !in Join(fields, sep)
    decreases |fields|
  {
    if |fields| > 1 {
      NotInJoin(fields[1..], sep, c);
    }
  }

  /** Joining fields that hold no separator puts exactly one separator between neighbours. */
  lemma {:induction false} CountJoin(fields: seq<string>, sep: char)
    requires |fields| >= 1
    requires forall i | 0 <= i < |fields| :: sep !in fields[i]
    ensures Count(Join(fields, sep), sep) == |fields| - 1
    decreases |fields|
  {
    if |fields| == 1 {
      CountAbsent(fields[0], sep);
    } else {
      CountJoin(fields[1..], sep);
      CountAbsent(fields[0], sep);
      CountConcat(fields[0] + [sep], Join(fields[1..], sep), sep);
      CountConcat(fields[0], [sep], sep);
      assert Count([sep], sep) == 1;
    }
  }

  /** Splitting a join of separator-free fields gives back the fields. */
  lemma {:induction false} SplitJoin(fields: seq<string>, sep: char)
    requires |fields| >= 1
    requires forall i | 0 <= i < |fields| :: sep !in fields[i]
    ensures Split(Join(fields, sep), sep) == fields
    decreases |fields|
  {
    var s := Join(fields, sep);
    if |fields| == 1 {
      assert IndexOf(s, sep) == |s|;
    } else {
      var f := fields[0];
      assert s == f + [sep] + Join(fields[1..], sep);
      assert IndexOf(s, sep) == |f| by {
        IndexOfAfter(f, sep, Join(fields[1..], sep));
      }
      assert s[..|f|] == f;
      assert s[|f| + 1..] == Join(fields[1..], sep);
      SplitJoin(fields[1..], sep);
      assert fields == [f] + fields[1..];
    }
  }

  lemma {:induction false} IndexOfAfter(f: string, sep: char, rest: string)
    requires sep !in f
    ensures IndexOf(f + [sep] + rest, sep) == |f|
    decreases |f|
  {
    var s := f + [sep] + rest;
    if f != [] {
      assert s[1..] == f[1..] + [sep] + rest;
      assert sep !in f[1..] by {
        forall i | 0 <= i < |f| - 1 ensures f[1..][i] != sep {
          assert f[1..][i] == f[i + 1];
        }
      }
      IndexOfAfter(f[1..], sep, rest);
    }
  }
}
