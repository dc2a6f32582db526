/**
 Strings as the log parsers take them apart, and as the collector puts them together.

 Find, Split and Lines are str.find, str.split with a separator and iteration over the lines of a
 file; StripLeft, Strip and Trim are lstrip and strip with and without a character. ReadInt and
 ReadSigned are int() for numbers in digits, Decimal and SignedDecimal are %lu, %d and %lld. The
 lemmas say where a text is split, that numbers come back as written, and what trimming takes off.
 */
module Text {
  import opened Wrappers

  ghost predicate Occurs(s: string, sep: string, j: nat) {
    j + |sep| <= |s| && s[j..j + |sep|] == sep
  }

  // The first occurrence of sep, -1 if there is none.
  function Find(s: string, sep: string): (i: int)
    requires sep != ""
    ensures i == -1 || 0 <= i <= |s| - |sep|
  {
    if |s| < |sep| then -1
    else if s[..|sep|] == sep then 0
    else
      var i := Find(s[1..], sep);
      if i < 0 then -1 else i + 1
  }

  lemma {:induction false} FindIsFirst(s: string, sep: string)
    requires sep != ""
    ensures Find(s, sep) >= 0 ==> Occurs(s, sep, Find(s, sep))
    ensures forall j: nat :: Occurs(s, sep, j) ==> 0 <= Find(s, sep) <= j
  {
    if |s| >= |sep| && s[..|sep|] != sep {
      FindIsFirst(s[1..], sep);
      var i := Find(s[1..], sep);
      if i >= 0 {
        assert s[1..][i..i + |sep|] == s[i + 1..i + 1 + |sep|];
      }
      forall j: nat | Occurs(s, sep, j) ensures 0 <= Find(s, sep) <= j {
        assert j > 0;
        assert s[1..][j - 1..j - 1 + |sep|] == s[j..j + |sep|];
        assert Occurs(s[1..], sep, j - 1);
      }
    }
  }

  // s.split(sep)
  function Split(s: string, sep: string): (parts: seq<string>)
    requires sep != ""
    ensures parts != []
    decreases |s|
  {
    var i := Find(s, sep);
    if i < 0 then [s] else [s[..i]] + Split(s[i + |sep|..], sep)
  }

  lemma SplitNone(s: string, sep: string)
    requires sep != "" && forall j: nat :: !Occurs(s, sep, j)
    ensures Split(s, sep) == [s]
  {
    FindIsFirst(s, sep);
  }

  lemma SplitFirst(a: string, sep: string, b: string)
    requires sep != "" && forall j: nat | j < |a| :: !Occurs(a + sep + b, sep, j)
    ensures Split(a + sep + b, sep) == [a] + Split(b, sep)
  {
    var s := a + sep + b;
    assert s[|a|..|a| + |sep|] == sep;
    assert Occurs(s, sep, |a|);
    FindIsFirst(s, sep);
    assert s[..|a|] == a && s[|a| + |sep|..] == b;
  }

  // The parts have no characters of their own.
  lemma {:induction false} PartsWithout(s: string, sep: string, c: char)
    requires sep != "" && (c !in s || sep == [c])
    ensures forall p <- Split(s, sep) :: c !in p
    decreases |s|
  {
    FindIsFirst(s, sep);
    var i := Find(s, sep);
    if sep == [c] {
      forall j: nat | j < |s| && s[j] == c ensures 0 <= i <= j {
        assert s[j..j + 1] == [c];
        assert Occurs(s, sep, j);
      }
    }
    if i >= 0 {
      PartsWithout(s[i + |sep|..], sep, c);
    }
  }

  // The lines, each after the first with its newline before it.
  function Tail(lines: seq<string>): string {
    if lines == [] then "" else "\n" + lines[0] + Tail(lines[1..])
  }

  predicate OneLine(s: string) { '\n' !in s }

  lemma SplitAtChar(a: string, c: char, b: string)
    requires c !in a
    ensures Split(a, [c]) == [a] && Split(a + [c] + b, [c]) == [a] + Split(b, [c])
  {
    forall j: nat ensures !Occurs(a, [c], j) {
      if j < |a| {
        assert a[j..j + 1][0] == a[j];
      }
    }
    SplitNone(a, [c]);
    var s := a + [c] + b;
    forall j: nat | j < |a| ensures !Occurs(s, [c], j) {
      assert s[j..j + 1][0] == s[j] == a[j];
    }
    SplitFirst(a, [c], b);
  }

  lemma {:induction false} AtFirst(a: string, c: char) returns (x: string, y: string)
    requires c in a
    ensures c !in x && a == x + [c] + y
  {
    if a[0] == c {
      x, y := "", a[1..];
    } else {
      x, y := AtFirst(a[1..], c);
      x := [a[0]] + x;
    }
  }

  // Splitting at a character takes a text apart at each of its occurrences.
  lemma {:induction false} SplitBoth(a: string, c: char, b: string)
    ensures Split(a + [c] + b, [c]) == Split(a, [c]) + Split(b, [c]) && (|Split(a, [c])| == 1 <==> c !in a)
    decreases |a|
  {
    if c !in a {
      SplitAtChar(a, c, b);
    } else {
      var x, y := AtFirst(a, c);
      SplitBoth(y, c, b);
      SplitAtChar(x, c, y);
      SplitAtChar(x, c, y + [c] + b);
      Regrouped(x + [c], y, [c], b);
      assert [x] + (Split(y, [c]) + Split(b, [c])) == [x] + Split(y, [c]) + Split(b, [c]);
    }
  }

  // A text that is cut has the same parts, but for the last.
  lemma {:induction false} SplitPrefix(x: string, y: string, c: char)
    requires x <= y
    ensures var n := |Split(x, [c])| - 1;
      n < |Split(y, [c])| && Split(x, [c])[..n] == Split(y, [c])[..n] && Split(x, [c])[n] <= Split(y, [c])[n]
    decreases |x|
  {
    if c in x {
      var a, b := AtFirst(x, c);
      var d := y[|a| + 1..];
      SameStart(a + [c], b, y);
      SplitPrefix(b, d, c);
      SplitAtChar(a, c, b);
      SplitAtChar(a, c, d);
      PartsBehind(a, Split(b, [c]), Split(d, [c]));
    } else {
      SplitAtChar(x, c, "");
      if c in y {
        var a, b := AtFirst(y, c);
        SplitAtChar(a, c, b);
        CutBefore(x, a, c, b);
      } else {
        SplitAtChar(y, c, "");
      }
    }
  }

  lemma SameStart(a: string, b: string, y: string)
    requires a + b <= y
    ensures y == a + y[|a|..] && b <= y[|a|..]
  {
    assert a + b == y[..|a| + |b|];
  }

  lemma CutBefore(x: string, a: string, c: char, b: string)
    requires x <= a + [c] + b && c !in x
    ensures x <= a
  {
    var y := a + [c] + b;
    assert y[|a|] == c && forall i :: 0 <= i < |x| ==> x[i] == y[i];
  }

  lemma PartsBehind(a: string, b: seq<string>, d: seq<string>)
    requires b != [] && |b| <= |d| && b[..|b| - 1] == d[..|b| - 1] && b[|b| - 1] <= d[|b| - 1]
    ensures ([a] + b)[..|b|] == ([a] + d)[..|b|] && ([a] + b)[|b|] <= ([a] + d)[|b|]
  {
    assert ([a] + b)[..|b|] == [a] + b[..|b| - 1] && ([a] + d)[..|b|] == [a] + d[..|b| - 1];
  }

  lemma Regrouped(a: string, b: string, c: string, d: string)
    ensures a + b + c + d == a + (b + c + d)
  {
  }

  lemma OneLineSplit(a: string, b: string)
    requires OneLine(a)
    ensures Split(a, "\n") == [a] && Split(a + "\n" + b, "\n") == [a] + Split(b, "\n")
  {
    SplitAtChar(a, '\n', b);
  }

  lemma TailFirst(a: string, lines: seq<string>)
    requires lines != []
    ensures a + Tail(lines) == a + "\n" + (lines[0] + Tail(lines[1..]))
  {
    Shift(a, "\n", lines[0], Tail(lines[1..]));
  }

  lemma Cat<X>(a: seq<X>, b: seq<X>, c: seq<X>)
    ensures a + b + c == a + (b + c)
  {
  }

  lemma Shift(a: string, b: string, c: string, d: string)
    ensures a + (b + c + d) == a + b + (c + d)
  {
  }

  lemma {:induction false} SplitLines(a: string, lines: seq<string>)
    requires OneLine(a) && forall l <- lines :: OneLine(l)
    ensures Split(a + Tail(lines), "\n") == [a] + lines
    decreases |lines|
  {
    OneLineSplit(a, if lines == [] then "" else lines[0] + Tail(lines[1..]));
    if lines == [] {
      assert a + Tail(lines) == a;
    } else {
      TailFirst(a, lines);
      SplitLines(lines[0], lines[1..]);
      assert [lines[0]] + lines[1..] == lines;
    }
  }

  // The lines of a file, each with its newline.
  function Lines(text: string): seq<string>
    decreases |text|
  {
    var i := Find(text, "\n");
    if i < 0 then if text == "" then [] else [text]
    else [text[..i + 1]] + Lines(text[i + 1..])
  }

  lemma LinesFirst(a: string, b: string)
    requires OneLine(a)
    ensures Lines(a + "\n" + b) == [a + "\n"] + Lines(b)
  {
    var s := a + "\n" + b;
    assert s[|a|..|a| + 1] == "\n";
    assert Occurs(s, "\n", |a|);
    FindIsFirst(s, "\n");
    var i := Find(s, "\n");
    assert s[i..i + 1][0] == s[i];
    assert s[..|a| + 1] == a + "\n" && s[|a| + 1..] == b;
  }

  // ---- str.lstrip(c), str.strip(c) -------------------------------------------------

  function StripLeft(s: string, c: char): string {
    if s != [] && s[0] == c then StripLeft(s[1..], c) else s
  }

  function StripRight(s: string, c: char): string {
    if s != [] && s[|s| - 1] == c then StripRight(s[..|s| - 1], c) else s
  }

  function Strip(s: string, c: char): string {
    StripRight(StripLeft(s, c), c)
  }

  // ---- str.strip() ---------------------------------------------------------------

  // what str.strip() takes off
  predicate Blank(c: char) {
    var n := c as int;
    || 9 <= n <= 13 || 28 <= n <= 32 || n == 0x85 || n == 0xa0 || n == 0x1680
    || 0x2000 <= n <= 0x200a || n == 0x2028 || n == 0x2029 || n == 0x202f || n == 0x205f || n == 0x3000
  }

  function TrimLeft(s: string): string {
    if s != "" && Blank(s[0]) then TrimLeft(s[1..]) else s
  }

  function TrimRight(s: string): string {
    if s != "" && Blank(s[|s| - 1]) then TrimRight(s[..|s| - 1]) else s
  }

  function Trim(s: string): string { TrimRight(TrimLeft(s)) }

  predicate Trimmed(s: string) {
    s == "" || (!Blank(s[0]) && !Blank(s[|s| - 1]))
  }

  lemma {:induction false} TrimRightKeepsHead(s: string)
    ensures TrimRight(s) <= s && (TrimRight(s) == "" || !Blank(TrimRight(s)[|TrimRight(s)| - 1]))
  {
    if s != "" && Blank(s[|s| - 1]) {
      TrimRightKeepsHead(s[..|s| - 1]);
    }
  }

  lemma {:induction false} TrimLeftHead(s: string)
    ensures TrimLeft(s) == "" || !Blank(TrimLeft(s)[0])
  {
    if s != "" && Blank(s[0]) {
      TrimLeftHead(s[1..]);
    }
  }

  lemma TrimTrims(s: string)
    ensures Trimmed(Trim(s))
  {
    TrimLeftHead(s);
    TrimRightKeepsHead(TrimLeft(s));
  }

  // A trimmed line comes back from its text without the newline.
  lemma TrimLine(s: string)
    requires Trimmed(s)
    ensures Trim(s + "\n") == s && Trim(s) == s
  {
    assert Blank('\n');
    if s == "" {
      assert s + "\n" == "\n" && "\n"[1..] == "";
    } else {
      var t := s + "\n";
      assert t[0] == s[0] && t[|t| - 1] == '\n' && t[..|t| - 1] == s;
      assert TrimLeft(t) == t && TrimLeft(s) == s && TrimRight(s) == s;
      assert TrimRight(t) == TrimRight(s);
    }
  }

  // ---- numbers -------------------------------------------------------------------

  predicate Digit(c: char) { '0' <= c <= '9' }

  function DigitValue(c: char): nat
    requires Digit(c)
  {
    c as int - '0' as int
  }

  predicate Digits(s: string) { s != "" && (forall i :: 0 <= i < |s| ==> Digit(s[i])) }

  function Value(s: string): nat
    requires forall i :: 0 <= i < |s| ==> Digit(s[i])
  {
    if s == "" then 0 else Value(s[..|s| - 1]) * 10 + DigitValue(s[|s| - 1])
  }

  // int(s), for a number written in digits
  function ReadInt(s: string): Option<nat> {
    if Digits(s) then Some(Value(s)) else None
  }

  function DigitOf(d: nat): (c: char)
    requires d < 10
    ensures Digit(c) && DigitValue(c) == d
  {
    ('0' as int + d) as char
  }

  // %lu, %d
  function Decimal(n: nat): string {
    (if n < 10 then "" else Decimal(n / 10)) + [DigitOf(n % 10)]
  }

  lemma {:induction false} DecimalDigits(n: nat)
    ensures Digits(Decimal(n)) && Value(Decimal(n)) == n
  {
    var s := Decimal(n);
    if n >= 10 {
      DecimalDigits(n / 10);
      assert s[..|s| - 1] == Decimal(n / 10);
    } else {
      assert s[..|s| - 1] == "";
    }
    assert s[|s| - 1] == DigitOf(n % 10);
  }

  lemma DecimalReads(n: nat)
    ensures ReadInt(Decimal(n)) == Some(n)
    ensures OneLine(Decimal(n)) && Trimmed(Decimal(n)) && Trim(Decimal(n) + "\n") == Decimal(n)
  {
    DecimalDigits(n);
    DigitsAreNeat(Decimal(n));
  }

  lemma DigitsAreNeat(s: string)
    requires Digits(s)
    ensures OneLine(s) && Trimmed(s) && Trim(s + "\n") == s
  {
    assert Digit(s[0]) && Digit(s[|s| - 1]);
    TrimLine(s);
  }

  // %d, %lld
  function SignedDecimal(n: int): string { if n < 0 then "-" + Decimal(-n) else Decimal(n) }

  function ReadSigned(s: string): Option<int> {
    var negative := s != "" && s[0] == '-';
    var digits := if negative then s[1..] else s;
    if Digits(digits) then Some(if negative then 0 - Value(digits) else Value(digits)) else None
  }

  lemma ReadDigits(d: string)
    requires Digits(d)
    ensures ReadSigned(d) == Some(Value(d)) && ' ' !in d && OneLine(d)
    ensures ReadSigned("-" + d) == Some(0 - Value(d)) && ' ' !in "-" + d && OneLine("-" + d)
  {
    assert Digit(d[0]);
    var s := "-" + d;
    assert s[0] == '-' && s[1..] == d;
  }

  lemma SignAndDigits(n: int) returns (d: string)
    ensures Digits(d) && Value(d) == (if n < 0 then -n else n) && SignedDecimal(n) == if n < 0 then "-" + d else d
  {
    d := Decimal(if n < 0 then -n else n);
    DecimalDigits(if n < 0 then -n else n);
  }

  // A text that is read as the number n and fits into a line of several.
  ghost predicate NumberText(s: string, n: int) {
    ReadSigned(s) == Some(n) && ' ' !in s && OneLine(s)
  }

  lemma SignedReads(n: int)
    ensures NumberText(SignedDecimal(n), n)
  {
    var d := SignAndDigits(n);
    ReadDigits(d);
    if n < 0 {
      assert NumberText("-" + d, n);
    } else {
      assert NumberText(d, n);
    }
  }

  lemma {:induction false} ValueGrows(s: string, k: nat)
    requires k <= |s| && forall i :: 0 <= i < |s| ==> Digit(s[i])
    ensures Value(s[..k]) <= Value(s)
  {
    if k == |s| {
      assert s[..k] == s;
    } else {
      assert s[..|s| - 1][..k] == s[..k];
      ValueGrows(s[..|s| - 1], k);
    }
  }
}
