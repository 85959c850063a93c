/**
 Text utilities the request builders rely on: joining with a separator
 (Swift's `joined(separator:)`), splitting on a separator (Foundation's
 `components(separatedBy:)`, used here only as the inverse that states what
 a joined string contains), and the decimal rendering Swift's string
 interpolation gives an `Int`.
 */
module Text {

  import opened Options
  import opened Seqs

  /** `parts` joined with `sep` between neighbours; no parts gives "". */
  function Join(sep: char, parts: seq<string>): (r: string)
    ensures |parts| == 0 ==> r == ""
    ensures |parts| == 1 ==> r == parts[0]
    decreases |parts|
  {
    if |parts| == 0 then ""
    else if |parts| == 1 then parts[0]
    else parts[0] + [sep] + Join(sep, parts[1..])
  }

  /** A joined string starts with its first part. */
  lemma JoinStartsWithFirst(sep: char, parts: seq<string>)
    requires |parts| >= 1
    ensures |Join(sep, parts)| >= |parts[0]| && Join(sep, parts)[..|parts[0]|] == parts[0]
  {
    if |parts| >= 2 {
      assert Join(sep, parts) == parts[0] + ([sep] + Join(sep, parts[1..]));
    }
  }

  /**
   The pieces of `s` between occurrences of `sep`, in order. Like
   `components(separatedBy:)` it never returns an empty list: "" splits into [""].
   */
  function Split(sep: char, s: string): (r: seq<string>)
    ensures |r| >= 1
    ensures forall i :: 0 <= i < |r| ==> sep !in r[i]
    decreases |s|
  {
    if |s| == 0 then [""]
    else
      var rest := Split(sep, s[1..]);
      if s[0] == sep then [""] + rest
      else [[s[0]] + rest[0]] + rest[1..]
  }

  /** Splitting a string that starts with a sep-free `a` extends the first piece by `a`. */
  lemma {:induction false} SplitPrepend(sep: char, a: string, t: string)
    requires sep !in a
    ensures Split(sep, a + t) == [a + Split(sep, t)[0]] + Split(sep, t)[1..]
    decreases |a|
  {
    if |a| == 0 {
      var r := Split(sep, t);
      assert a + t == t;
      assert a + r[0] == r[0];
      assert [r[0]] + r[1..] == r;
    } else {
      assert (a + t)[1..] == a[1..] + t;
      SplitPrepend(sep, a[1..], t);
      assert [a[0]] + (a[1..] + Split(sep, t)[0]) == a + Split(sep, t)[0];
    }
  }

  /** A string without `sep` is a single piece. */
  lemma SplitNone(sep: char, a: string)
    requires sep !in a
    ensures Split(sep, a) == [a]
  {
    SplitPrepend(sep, a, "");
    assert a + "" == a;
  }

  /** A sep-free piece followed by `sep` splits off as the first piece. */
  lemma SplitAtSep(sep: char, a: string, u: string)
    requires sep !in a
    ensures Split(sep, a + [sep] + u) == [a] + Split(sep, u)
  {
    assert a + [sep] + u == a + ([sep] + u);
    SplitPrepend(sep, a, [sep] + u);
    assert ([sep] + u)[0] == sep;
    assert ([sep] + u)[1..] == u;
    assert Split(sep, [sep] + u) == [""] + Split(sep, u);
    assert a + "" == a;
  }

  /** Splitting undoes joining when no part contains the separator. */
  lemma {:induction false} SplitJoin(sep: char, parts: seq<string>)
    requires |parts| >= 1
    requires forall i :: 0 <= i < |parts| ==> sep !in parts[i]
    ensures Split(sep, Join(sep, parts)) == parts
    decreases |parts|
  {
    if |parts| == 1 {
      SplitNone(sep, parts[0]);
    } else {
      SplitJoin(sep, parts[1..]);
      SplitAtSep(sep, parts[0], Join(sep, parts[1..]));
      assert [parts[0]] + parts[1..] == parts;
    }
  }

  /** Splitting a string one character at a time. */
  lemma SplitCons(sep: char, c: char, t: string)
    ensures var r := Split(sep, t);
            Split(sep, [c] + t) == if c == sep then [""] + r else [[c] + r[0]] + r[1..]
  {
    assert ([c] + t)[1..] == t;
  }

  /** Splitting `a`, `sep`, `b` gives the pieces of `a` followed by the pieces of `b`. */
  lemma {:induction false} SplitConcat(sep: char, a: string, b: string)
    ensures Split(sep, a + [sep] + b) == Split(sep, a) + Split(sep, b)
    decreases |a|
  {
    if |a| == 0 {
      assert a + [sep] + b == [sep] + b;
      SplitCons(sep, sep, b);
    } else {
      var t := a[1..] + [sep] + b;
      assert a + [sep] + b == [a[0]] + t;
      assert a == [a[0]] + a[1..];
      SplitConcat(sep, a[1..], b);
      SplitCons(sep, a[0], t);
      SplitCons(sep, a[0], a[1..]);
      ConsPieces(sep, a[0], Split(sep, a[1..]), Split(sep, b));
    }
  }

  /** The step of SplitCons commutes with appending further pieces. */
  lemma ConsPieces(sep: char, c: char, ra: seq<string>, rb: seq<string>)
    requires |ra| >= 1
    ensures var r := ra + rb;
            (if c == sep then [""] + r else [[c] + r[0]] + r[1..])
            == (if c == sep then [""] + ra else [[c] + ra[0]] + ra[1..]) + rb
  {
    assert (ra + rb)[0] == ra[0] && (ra + rb)[1..] == ra[1..] + rb;
  }

  /** Each part split on `sep`. */
  function SplitEach(sep: char, parts: seq<string>): (r: seq<seq<string>>)
    ensures |r| == |parts|
    ensures forall i :: 0 <= i < |parts| ==> r[i] == Split(sep, parts[i])
  {
    seq(|parts|, i requires 0 <= i < |parts| => Split(sep, parts[i]))
  }

  /** Whatever the parts hold, splitting their join gives the pieces of each part, in order. */
  lemma {:induction false} SplitJoinEach(sep: char, parts: seq<string>)
    requires |parts| >= 1
    ensures Split(sep, Join(sep, parts)) == Flatten(SplitEach(sep, parts))
    decreases |parts|
  {
    if |parts| >= 2 {
      SplitJoinEach(sep, parts[1..]);
      SplitConcat(sep, parts[0], Join(sep, parts[1..]));
      assert SplitEach(sep, parts)[1..] == SplitEach(sep, parts[1..]);
    }
  }

  /** Splitting the parts of two permutations of each other gives permutations of each other. */
  lemma SplitEachPermuted(sep: char, a: seq<string>, b: seq<string>)
    requires multiset(a) == multiset(b)
    ensures multiset(SplitEach(sep, a)) == multiset(SplitEach(sep, b))
  {
    var f := (p: string) => Split(sep, p);
    assert SplitEach(sep, a) == Map(f, a);
    assert SplitEach(sep, b) == Map(f, b);
    MapPermuted(f, a, b);
  }

  /** The character for a decimal digit. */
  function DigitChar(d: nat): (c: char)
    requires d < 10
    ensures '0' <= c <= '9'
  {
    ['0', '1', '2', '3', '4', '5', '6', '7', '8', '9'][d]
  }

  /** The value of a decimal digit character. */
  function DigitValue(c: char): (d: nat)
    requires '0' <= c <= '9'
    ensures d < 10
  {
    if c == '0' then 0 else if c == '1' then 1 else if c == '2' then 2
    else if c == '3' then 3 else if c == '4' then 4 else if c == '5' then 5
    else if c == '6' then 6 else if c == '7' then 7 else if c == '8' then 8
    else 9
  }

  predicate IsDigits(s: string) {
    forall i :: 0 <= i < |s| ==> '0' <= s[i] <= '9'
  }

  /** The value of a string of decimal digits, most significant first; "" has value 0. */
  function DigitsValue(s: string): nat
    requires IsDigits(s)
    decreases |s|
  {
    if |s| == 0 then 0 else DigitsValue(s[..|s| - 1]) * 10 + DigitValue(s[|s| - 1])
  }

  /** Decimal rendering of a natural number, without leading zeros. */
  function NatToString(n: nat): (r: string)
    ensures |r| >= 1 && IsDigits(r)
    ensures |r| > 1 ==> r[0] != '0'
    decreases n
  {
    if n < 10 then [DigitChar(n)] else NatToString(n / 10) + [DigitChar(n % 10)]
  }

  /** The rendering is read back as the same number. */
  lemma {:induction false} NatToStringValue(n: nat)
    ensures DigitsValue(NatToString(n)) == n
    decreases n
  {
    var r := NatToString(n);
    if n < 10 {
      assert r[..0] == "";
      DigitCharValue(n);
    } else {
      NatToStringValue(n / 10);
      assert r[..|r| - 1] == NatToString(n / 10);
      assert r[|r| - 1] == DigitChar(n % 10);
      DigitCharValue(n % 10);
      assert n == n / 10 * 10 + n % 10;
    }
  }

  /** A digit's character reads back as the digit. */
  lemma DigitCharValue(d: nat)
    requires d < 10
    ensures DigitValue(DigitChar(d)) == d
  {
  }

  /** `"\(i)"` for a Swift `Int`: a minus sign for negatives, then the digits. */
  function IntToString(i: int): (r: string)
    ensures |r| >= 1
    ensures i >= 0 ==> IsDigits(r)
    ensures i < 0 ==> r[0] == '-' && IsDigits(r[1..])
  {
    if i < 0 then "-" + NatToString(-i) else NatToString(i)
  }

  /**
   Read back a decimal rendering produced by IntToString: at least one digit,
   optionally after a minus sign.
   */
  function ParseInt(s: string): (r: Option<int>)
    ensures r.Some? <==> (|s| >= 1 && IsDigits(s)) || (|s| >= 2 && s[0] == '-' && IsDigits(s[1..]))
  {
    if |s| == 0 then None
    else if s[0] == '-' then
      (if |s| >= 2 && IsDigits(s[1..]) then Some(-(DigitsValue(s[1..]) as int)) else None)
    else if IsDigits(s) then Some(DigitsValue(s) as int)
    else None
  }

  /** Rendering an `Int` and reading it back gives the same `Int`. */
  lemma IntToStringRoundTrip(i: int)
    ensures ParseInt(IntToString(i)) == Some(i)
  {
    if i < 0 {
      ParseNegative(-i);
    } else {
      ParseDigits(i);
    }
  }

  lemma ParseDigits(n: nat)
    ensures ParseInt(NatToString(n)) == Some(n as int)
  {
    var t := NatToString(n);
    NatToStringValue(n);
    assert '0' <= t[0] <= '9';
  }

  lemma ParseNegative(n: nat)
    ensures ParseInt("-" + NatToString(n)) == Some(-(n as int))
  {
    var t := NatToString(n);
    NatToStringValue(n);
    assert ("-" + t)[1..] == t;
  }

  /** A rendered `Int` holds neither of the query separators `&` and `=`. */
  lemma IntToStringNoSeparators(i: int)
    ensures '&' !in IntToString(i) && '=' !in IntToString(i)
  {
    var r := IntToString(i);
    if i < 0 {
      assert r[1..] == NatToString(-i);
      assert forall k :: 0 <= k < |r| ==> r[k] == '-' || '0' <= r[k] <= '9' by {
        forall k | 0 <= k < |r| ensures r[k] == '-' || '0' <= r[k] <= '9' {
          if k > 0 { assert r[k] == r[1..][k - 1]; }
        }
      }
    }
  }
}
