/** The parts of Go's `strings`, `strconv` and `bufio.ScanLines` that the tool relies on,
    over strings taken as sequences of code points. */
module Text {

  /** Number of occurrences of `c` in `s`. */
  function Count(s: string, c: char): nat
  {
    if |s| == 0 then 0 else (if s[0] == c then 1 else 0) + Count(s[1..], c)
  }

  lemma {:induction false} CountZero(s: string, c: char)
    ensures Count(s, c) == 0 <==> c !in s
  {
    if |s| > 0 {
      CountZero(s[1..], c);
      assert s == [s[0]] + s[1..];
    }
  }

  lemma {:induction false} CountAppend(a: string, b: string, c: char)
    ensures Count(a + b, c) == Count(a, c) + Count(b, c)
  {
    if |a| == 0 {
      assert a + b == b;
    } else {
      assert (a + b)[1..] == a[1..] + b;
      CountAppend(a[1..], b, c);
    }
  }

  /** `strings.Index(s, string(c))`: the first position of `c`, or -1. */
  function IndexOf(s: string, c: char): (r: int)
    ensures -1 <= r < |s|
    ensures r >= 0 ==> s[r] == c
    ensures forall j :: 0 <= j < |s| && (r == -1 || j < r) ==> s[j] != c
  {
    if |s| == 0 then -1
    else if s[0] == c then 0
    else
      var k := IndexOf(s[1..], c);
      if k < 0 then -1 else k + 1
  }

  /** `strings.HasPrefix`. */
  predicate HasPrefix(s: string, prefix: string)
  {
    |prefix| <= |s| && s[..|prefix|] == prefix
  }

  /** `strings.Split(s, string(c))`: the pieces between the separators, never an empty list. */
  function Split(s: string, c: char): (r: seq<string>)
    ensures |r| == Count(s, c) + 1
    ensures forall i :: 0 <= i < |r| ==> c !in r[i]
    decreases |s|
  {
    var k := IndexOf(s, c);
    if k < 0 then
      CountZero(s, c);
      [s]
    else
      assert s == s[..k] + [c] + s[k + 1..];
      CountAppend(s[..k] + [c], s[k + 1..], c);
      CountAppend(s[..k], [c], c);
      CountZero(s[..k], c);
      [s[..k]] + Split(s[k + 1..], c)
  }

  /** The separators after the first one are those of the text that follows it. */
  lemma CountAtIndex(s: string, c: char)
    requires 0 <= IndexOf(s, c)
    ensures var k := IndexOf(s, c);
      Count(s, c) == 1 + Count(s[k + 1..], c)
  {
    var k := IndexOf(s, c);
    assert s == s[..k] + [c] + s[k + 1..];
    CountAppend(s[..k] + [c], s[k + 1..], c);
    CountAppend(s[..k], [c], c);
    CountZero(s[..k], c);
  }

  /** `s` has no separator exactly when `IndexOf` finds none. */
  lemma {:induction false} CountNone(s: string, c: char)
    ensures IndexOf(s, c) < 0 <==> Count(s, c) == 0
  {
    if |s| > 0 && s[0] != c {
      CountNone(s[1..], c);
    }
  }

  /** A split at the first separator: the piece before it, then the split of the rest. */
  lemma SplitAtIndex(s: string, c: char)
    requires 0 <= IndexOf(s, c)
    ensures var k := IndexOf(s, c);
      Split(s, c) == [s[..k]] + Split(s[k + 1..], c)
  {
  }

  /** `strings.Join(parts, string(c))`. */
  function JoinWith(parts: seq<string>, c: char): string
  {
    if |parts| == 0 then ""
    else if |parts| == 1 then parts[0]
    else parts[0] + [c] + JoinWith(parts[1..], c)
  }

  lemma JoinCons(first: string, rest: seq<string>, c: char)
    requires rest != []
    ensures JoinWith([first] + rest, c) == first + [c] + JoinWith(rest, c)
  {
    assert ([first] + rest)[1..] == rest;
  }

  /** The text before the first separator, the separator and the text after it make up `s`. */
  lemma CutAtIndex(s: string, c: char)
    requires 0 <= IndexOf(s, c)
    ensures var k := IndexOf(s, c);
      s[..k] + [c] + s[k + 1..] == s
  {
  }

  lemma {:induction false} IndexOfAfter(a: string, c: char, rest: string)
    requires c !in a
    ensures IndexOf(a + [c] + rest, c) == |a|
  {
    if |a| > 0 {
      assert (a + [c] + rest)[1..] == a[1..] + [c] + rest;
      IndexOfAfter(a[1..], c, rest);
    }
  }

  /** Splitting and joining again gives the original string back. */
  lemma {:induction false} JoinSplit(s: string, c: char)
    ensures JoinWith(Split(s, c), c) == s
    decreases |s|
  {
    var k := IndexOf(s, c);
    if k >= 0 {
      JoinSplit(s[k + 1..], c);
      assert s == s[..k] + [c] + s[k + 1..];
    }
  }

  /** Joining separator-free pieces and splitting again gives the pieces back. */
  lemma {:induction false} SplitJoin(parts: seq<string>, c: char)
    requires |parts| > 0
    requires forall i :: 0 <= i < |parts| ==> c !in parts[i]
    ensures Split(JoinWith(parts, c), c) == parts
  {
    if |parts| > 1 {
      var s := JoinWith(parts, c);
      var rest := JoinWith(parts[1..], c);
      assert s == parts[0] + [c] + rest;
      assert (parts[0] + [c] + rest)[..|parts[0]|] == parts[0];
      IndexOfAfter(parts[0], c, rest);
      assert s[|parts[0]| + 1..] == rest;
      SplitJoin(parts[1..], c);
      assert parts == [parts[0]] + parts[1..];
    }
  }

  /** Unicode simple case folding restricted to the code points that fold onto an ASCII letter:
      'A'..'Z', U+017F (long s, folds to 's') and U+212A (Kelvin sign, folds to 'k'). */
  function Fold(c: char): char
  {
    if 'A' <= c <= 'Z' then (c as int + 32) as char
    else if c == 'ſ' then 's'
    else if c == 'K' then 'k'
    else c
  }

  /** `strings.EqualFold`, exact whenever one side is ASCII (the only use made of it here). */
  predicate EqualFold(a: string, b: string)
  {
    |a| == |b| && forall i :: 0 <= i < |a| ==> Fold(a[i]) == Fold(b[i])
  }

  lemma EqualFoldCons(c: char, a: string, d: char, b: string)
    ensures EqualFold([c] + a, [d] + b) <==> Fold(c) == Fold(d) && EqualFold(a, b)
  {
    if EqualFold([c] + a, [d] + b) {
      assert ([c] + a)[0] == c && ([d] + b)[0] == d;
      forall i | 0 <= i < |a| ensures Fold(a[i]) == Fold(b[i]) {
        assert ([c] + a)[i + 1] == a[i] && ([d] + b)[i + 1] == b[i];
      }
    }
    if Fold(c) == Fold(d) && EqualFold(a, b) {
      forall i | 0 <= i < |a| + 1 ensures Fold(([c] + a)[i]) == Fold(([d] + b)[i]) {
        if i > 0 {
          assert ([c] + a)[i] == a[i - 1] && ([d] + b)[i] == b[i - 1];
        }
      }
    }
  }

  function Digit(d: nat): char
    requires d < 10
  {
    ('0' as int + d) as char
  }

  /** Decimal digits of a natural number, without leading zeros. */
  function NatDigits(n: nat): (r: string)
    ensures |r| > 0
    ensures IsDigits(r)
  {
    if n < 10 then [Digit(n)] else NatDigits(n / 10) + [Digit(n % 10)]
  }

  /** `strconv.Itoa` (also what `%d` prints). */
  function Itoa(n: int): string
  {
    if n < 0 then "-" + NatDigits(-n) else NatDigits(n)
  }

  predicate IsDigits(s: string)
  {
    forall i :: 0 <= i < |s| ==> '0' <= s[i] <= '9'
  }

  /** The value of a string of decimal digits. */
  function ParseDigits(s: string): nat
    requires IsDigits(s)
  {
    if |s| == 0 then 0 else ParseDigits(s[..|s| - 1]) * 10 + (s[|s| - 1] as int - '0' as int)
  }

  /** `strconv.Atoi` restricted to what `Itoa` produces. */
  function ParseDecimal(s: string): int
  {
    if |s| > 0 && s[0] == '-' && IsDigits(s[1..]) then 0 - ParseDigits(s[1..]) as int
    else if IsDigits(s) then ParseDigits(s)
    else 0
  }

  lemma {:induction false} DigitsRoundTrip(n: nat)
    ensures ParseDigits(NatDigits(n)) == n
  {
    if n >= 10 {
      DigitsRoundTrip(n / 10);
      var s := NatDigits(n);
      assert s[..|s| - 1] == NatDigits(n / 10);
    }
  }

  /** Printing an integer in decimal and reading it back gives the integer. */
  lemma ItoaRoundTrip(n: int)
    ensures ParseDecimal(Itoa(n)) == n
  {
    var s := Itoa(n);
    if n < 0 {
      DigitsRoundTrip(-n);
      assert s == "-" + NatDigits(-n);
      assert s[1..] == NatDigits(-n);
      assert IsDigits(s[1..]);
    } else {
      DigitsRoundTrip(n);
      assert s == NatDigits(n);
      assert IsDigits(s);
      assert s[0] != '-';
    }
  }

  /** Drops one trailing carriage return, as `bufio.ScanLines` does. */
  function DropCR(s: string): string
  {
    if |s| > 0 && s[|s| - 1] == '\r' then s[..|s| - 1] else s
  }

  /** The tokens of `bufio.ScanLines`: split at each '\n', drop a trailing '\r' from each line,
      and produce no final empty line after a trailing newline. */
  function Lines(b: string): (r: seq<string>)
    ensures forall i :: 0 <= i < |r| ==> '\n' !in r[i]
    decreases |b|
  {
    if |b| == 0 then []
    else
      var k := IndexOf(b, '\n');
      if k < 0 then [DropCR(b)] else [DropCR(b[..k])] + Lines(b[k + 1..])
  }

  /** One line per newline, plus one for a final unterminated line. */
  lemma {:induction false} LinesCount(b: string)
    ensures |Lines(b)| == Count(b, '\n') + (if |b| > 0 && b[|b| - 1] != '\n' then 1 else 0)
    decreases |b|
  {
    if |b| > 0 {
      var k := IndexOf(b, '\n');
      if k < 0 {
        CountZero(b, '\n');
        assert b[|b| - 1] in b;
      } else {
        var pre, rest := b[..k], b[k + 1..];
        assert |Lines(b)| == 1 + |Lines(rest)|;
        LinesCount(rest);
        assert b == (pre + ['\n']) + rest;
        CountAppend(pre + ['\n'], rest, '\n');
        CountAppend(pre, ['\n'], '\n');
        CountZero(pre, '\n');
        assert Count(b, '\n') == 1 + Count(rest, '\n');
        if |rest| > 0 {
          assert rest[|rest| - 1] == b[|b| - 1];
        } else {
          assert b[|b| - 1] == '\n';
        }
      }
    }
  }
}
