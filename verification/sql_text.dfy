/** Text-building helpers shared by the three SQL-fragment compilers:
    separator joins (what the StringBuilder loops produce), character
    counting (placeholders and commas) and Java's decimal rendering of an
    `int`. */
module SqlText {

  /** The elements of `xs` in order, with `sep` between neighbours. Defined
      from the end so that it matches a builder that appends left to right. */
  function Join(xs: seq<string>, sep: string): string
    decreases |xs|
  {
    if |xs| == 0 then ""
    else if |xs| == 1 then xs[0]
    else Join(xs[..|xs| - 1], sep) + sep + xs[|xs| - 1]
  }

  /** What a builder holds after appending the first |done| of `total`
      elements, each one followed by `sep` unless it is the last. */
  function JoinedSoFar(done: seq<string>, total: nat, sep: string): string
  {
    Join(done, sep) + (if 0 < |done| < total then sep else "")
  }

  /** One more step of such a builder loop. */
  lemma JoinedSoFarStep(done: seq<string>, x: string, total: nat, sep: string)
    requires |done| < total
    ensures JoinedSoFar(done + [x], total, sep)
         == JoinedSoFar(done, total, sep) + x + (if |done| < total - 1 then sep else "")
  {
    assert (done + [x])[..|done|] == done;
  }

  /** Joining two non-empty lists is joining their joins. */
  lemma {:induction false} JoinAppend(a: seq<string>, b: seq<string>, sep: string)
    requires |a| > 0 && |b| > 0
    ensures Join(a + b, sep) == Join(a, sep) + sep + Join(b, sep)
    decreases |b|
  {
    var n := |a + b|;
    if |b| == 1 {
      assert (a + b)[..n - 1] == a;
    } else {
      var b' := b[..|b| - 1];
      assert (a + b)[..n - 1] == a + b';
      JoinAppend(a, b', sep);
    }
  }

  /** The groups of `gs`, one after another. */
  function Flatten<T>(gs: seq<seq<T>>): (r: seq<T>)
    decreases |gs|
  {
    if |gs| == 0 then [] else Flatten(gs[..|gs| - 1]) + gs[|gs| - 1]
  }

  /** A character absent from every element of every group is absent from
      every element of the flattened list. */
  lemma {:induction false} FlattenAvoids(gs: seq<seq<string>>, c: char)
    requires forall k, i :: 0 <= k < |gs| && 0 <= i < |gs[k]| ==> c !in gs[k][i]
    ensures forall m :: 0 <= m < |Flatten(gs)| ==> c !in Flatten(gs)[m]
    decreases |gs|
  {
    var n := |gs|;
    if n > 0 {
      FlattenAvoids(gs[..n - 1], c);
      var f' := Flatten(gs[..n - 1]);
      assert Flatten(gs) == f' + gs[n - 1];
      forall m | 0 <= m < |Flatten(gs)| ensures c !in Flatten(gs)[m] {
        if m >= |f'| {
          assert Flatten(gs)[m] == gs[n - 1][m - |f'|];
        }
      }
    }
  }

  /** Each group of `gs` joined on its own. */
  function JoinEach(gs: seq<seq<string>>, sep: string): (r: seq<string>)
    ensures |r| == |gs|
    ensures forall k :: 0 <= k < |gs| ==> r[k] == Join(gs[k], sep)
    decreases |gs|
  {
    if |gs| == 0 then [] else JoinEach(gs[..|gs| - 1], sep) + [Join(gs[|gs| - 1], sep)]
  }

  /** Joining the joins of non-empty groups with the same separator is
      joining the flattened list: the nesting leaves no trace in the text. */
  lemma {:induction false} JoinFlatten(gs: seq<seq<string>>, sep: string)
    requires forall k :: 0 <= k < |gs| ==> |gs[k]| > 0
    ensures Join(JoinEach(gs, sep), sep) == Join(Flatten(gs), sep)
    decreases |gs|
  {
    var n := |gs|;
    if n == 1 {
      assert gs[..0] == [];
      assert Flatten(gs) == gs[0];
      assert JoinEach(gs, sep) == [Join(gs[0], sep)];
    } else if n > 1 {
      var gs' := gs[..n - 1];
      var js := JoinEach(gs, sep);
      assert js == JoinEach(gs', sep) + [Join(gs[n - 1], sep)];
      assert js[..n - 1] == JoinEach(gs', sep);
      JoinFlatten(gs', sep);
      var f' := Flatten(gs');
      assert f' == Flatten(gs'[..n - 2]) + gs'[n - 2];
      JoinAppend(f', gs[n - 1], sep);
    }
  }

  /** Number of occurrences of `c` in `s`. */
  function CountChar(s: string, c: char): nat
    decreases |s|
  {
    if |s| == 0 then 0 else (if s[0] == c then 1 else 0) + CountChar(s[1..], c)
  }

  lemma {:induction false} CountCharAppend(a: string, b: string, c: char)
    ensures CountChar(a + b, c) == CountChar(a, c) + CountChar(b, c)
    decreases |a|
  {
    if |a| > 0 {
      assert (a + b)[1..] == a[1..] + b;
      CountCharAppend(a[1..], b, c);
    } else {
      assert a + b == b;
    }
  }

  /** A character is counted zero times exactly when it does not occur. */
  lemma {:induction false} CountCharZero(s: string, c: char)
    ensures CountChar(s, c) == 0 <==> c !in s
    decreases |s|
  {
    if |s| > 0 {
      CountCharZero(s[1..], c);
      assert s == [s[0]] + s[1..];
    }
  }

  /** Joining comma-free texts with ", " leaves one comma per gap. */
  lemma {:induction false} CommasInJoin(xs: seq<string>)
    requires |xs| > 0
    requires forall k :: 0 <= k < |xs| ==> ',' !in xs[k]
    ensures CountChar(Join(xs, ", "), ',') == |xs| - 1
    decreases |xs|
  {
    var n := |xs|;
    CountCharZero(xs[n - 1], ',');
    if n > 1 {
      CommasInJoin(xs[..n - 1]);
      CountCharAppend(Join(xs[..n - 1], ", ") + ", ", xs[n - 1], ',');
      CountCharAppend(Join(xs[..n - 1], ", "), ", ", ',');
    }
  }

  predicate IsDigit(c: char) { '0' <= c <= '9' }

  /** The decimal digits of `n`, most significant first, no leading zero. */
  function Digits(n: nat): (r: string)
    ensures |r| > 0 && forall k :: 0 <= k < |r| ==> IsDigit(r[k])
    ensures r[0] == '0' <==> n == 0
    decreases n
  {
    var last := [('0' as int + n % 10) as char];
    if n < 10 then last else Digits(n / 10) + last
  }

  /** Java's `Integer.toString`: a minus sign for negative values, then the
      digits of the magnitude, in canonical form. */
  function DecimalString(n: int): (r: string)
    ensures |r| > 0 && forall k :: 0 <= k < |r| ==> IsDigit(r[k]) || r[k] == '-'
    ensures '?' !in r && ',' !in r
    ensures r[0] == '-' <==> n < 0
    ensures '-' !in r[1..]
    ensures n < 0 ==> |r| > 1
    ensures r[if n < 0 then 1 else 0] == '0' ==> n == 0
    ensures n == 0 ==> r == "0"
  {
    if n < 0 then "-" + Digits(-n) else Digits(n)
  }

  /** Reads back a string of decimal digits. */
  function DigitsValue(s: string): int
    decreases |s|
  {
    if |s| == 0 then 0
    else DigitsValue(s[..|s| - 1]) * 10 + (s[|s| - 1] as int - '0' as int)
  }

  /** Reads back what `DecimalString` writes. */
  function ParseDecimal(s: string): int
  {
    if |s| > 0 && s[0] == '-' then -DigitsValue(s[1..]) else DigitsValue(s)
  }

  lemma {:induction false} DigitsRoundTrip(n: nat)
    ensures DigitsValue(Digits(n)) == n
    decreases n
  {
    var d := Digits(n);
    if n >= 10 {
      assert d[..|d| - 1] == Digits(n / 10);
      DigitsRoundTrip(n / 10);
    }
  }

  /** Decimal text is faithful: reading it back gives the number. */
  lemma DecimalRoundTrip(n: int)
    ensures ParseDecimal(DecimalString(n)) == n
  {
    if n < 0 {
      DigitsRoundTrip(-n);
      assert DecimalString(n)[1..] == Digits(-n);
    } else {
      DigitsRoundTrip(n);
    }
  }
}
