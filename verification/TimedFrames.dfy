/**
 The timestamped frames that the collector writes to its logs, and what the two splitters that read
 them, `_parse_timed_blocks` on a whole file and `_iter_parse_timed_blocks` line by line, do with
 them, as functions.

 The lemmas prepare those of TimedBlocks: a frame is a piece without two newlines in a row and an
 empty line behind it (FrameIsPiece, PieceIsTight), so that splitting a log at empty lines takes it
 apart frame by frame (SplitPiece, FrameFirst). What is left of a frame that was cut off is a part of
 its time, or its time, some lines and a part of the next one (FrameShape); either is one piece again
 (TornIsOnePiece), and HeadParses says what is read of it. In a text that ends in an empty line no
 block has an empty line (ParsedLinesAreNotEmpty). For the streaming splitter, a block of trimmed
 lines comes back whole (BlockIsStreamed), and whatever comes out of it is trimmed (StreamedLines).
 */
module TimedFrames {
  import opened Wrappers
  import opened Text

  datatype Frame = Frame(time: nat, lines: seq<string>)

  // ---- the writer ----------------------------------------------------------------

  function Body(lines: seq<string>): string {
    if lines == [] then "" else lines[0] + "\n" + Body(lines[1..])
  }

  // buffer_file_dump_frame_with_timestamp, and a turn of the main loop for the processes
  function FrameText(f: Frame): string {
    Decimal(f.time) + "\n" + Body(f.lines) + "\n"
  }

  function LogText(fs: seq<Frame>): string {
    if fs == [] then "" else FrameText(fs[0]) + LogText(fs[1..])
  }

  // ---- _parse_timed_blocks -------------------------------------------------------

  const STOPPED: string := " not running\n"

  predicate EndsWith(s: string, end: string) {
    |s| >= |end| && s[|s| - |end|..] == end
  }

  predicate Kept(piece: string) { Trim(piece) != "" && !EndsWith(piece, STOPPED) }

  function ParseLines(lines: seq<string>): Result<Frame>
    requires lines != []
  {
    match ReadInt(lines[0])
    case None => Err
    case Some(n) => Ok(Frame(n, lines[1..]))
  }

  function Prepend(f: Result<Frame>, fs: Result<seq<Frame>>): Result<seq<Frame>> {
    match f
    case Err => Err
    case Ok(x) => match fs case Err => Err case Ok(xs) => Ok([x] + xs)
  }

  function ParsePieces(pieces: seq<string>): Result<seq<Frame>> {
    if pieces == [] then Ok([])
    else if Kept(pieces[0]) then Prepend(ParseLines(Split(pieces[0], "\n")), ParsePieces(pieces[1..]))
    else ParsePieces(pieces[1..])
  }

  function Parse(text: string): Result<seq<Frame>> {
    ParsePieces(Split(text, "\n\n"))
  }

  // ---- frames as the splitter sees them -------------------------------------------

  predicate Sound(f: Frame) { forall l <- f.lines :: OneLine(l) && l != "" }

  ghost predicate AllOneLine(fs: seq<Frame>) { forall f <- fs :: forall l <- f.lines :: OneLine(l) }

  ghost predicate AllSound(fs: seq<Frame>) { forall f <- fs :: Sound(f) }

  // A frame without the empty line that ends it.
  function Piece(f: Frame): string { Decimal(f.time) + Tail(f.lines) }

  lemma {:induction false} BodyIsTail(lines: seq<string>)
    ensures "\n" + Body(lines) == Tail(lines) + "\n"
  {
    if lines != [] {
      BodyIsTail(lines[1..]);
      calc {
        "\n" + Body(lines);
        "\n" + lines[0] + ("\n" + Body(lines[1..]));
        "\n" + lines[0] + (Tail(lines[1..]) + "\n");
        Tail(lines) + "\n";
      }
    }
  }

  lemma FrameIsPiece(f: Frame)
    ensures FrameText(f) == Piece(f) + "\n\n"
  {
    BodyIsTail(f.lines);
    calc {
      FrameText(f);
      Decimal(f.time) + ("\n" + Body(f.lines)) + "\n";
      Decimal(f.time) + (Tail(f.lines) + "\n") + "\n";
      Piece(f) + ("\n" + "\n");
      { assert "\n" + "\n" == "\n\n"; }
      Piece(f) + "\n\n";
    }
  }

  // No two newlines in a row, and none at the end.
  ghost predicate Tight(s: string) {
    && (forall j :: 0 < j < |s| && s[j] == '\n' ==> s[j - 1] != '\n')
    && (s != "" ==> s[|s| - 1] != '\n')
  }

  lemma {:induction false} TailIsTight(a: string, lines: seq<string>)
    requires a != "" && OneLine(a) && forall l <- lines :: OneLine(l) && l != ""
    ensures Tight(a + Tail(lines))
    decreases |lines|
  {
    if lines == [] {
      assert a + Tail(lines) == a;
    } else {
      var rest := lines[0] + Tail(lines[1..]);
      assert lines[0] in lines;
      TailIsTight(lines[0], lines[1..]);
      TailFirst(a, lines);
      assert a + Tail(lines) == a + "\n" + rest;
      TightJoin(a, rest);
    }
  }

  lemma TightJoin(a: string, rest: string)
    requires a != "" && OneLine(a) && rest != "" && rest[0] != '\n' && Tight(rest)
    ensures Tight(a + "\n" + rest)
  {
    var s := a + "\n" + rest;
    forall j | 0 < j < |s| && s[j] == '\n' ensures s[j - 1] != '\n' {
      if j > |a| + 1 {
        assert s[j] == rest[j - |a| - 1] && s[j - 1] == rest[j - |a| - 2];
      } else if j <= |a| {
        assert s[j - 1] == a[j - 1];
      }
    }
    assert s[|s| - 1] == rest[|rest| - 1];
  }

  lemma PieceIsTight(f: Frame)
    requires Sound(f)
    ensures Tight(Piece(f)) && Piece(f) != "" && Digit(Piece(f)[0])
  {
    DecimalDigits(f.time);
    DecimalReads(f.time);
    TailIsTight(Decimal(f.time), f.lines);
  }

  lemma PairAt(s: string, j: nat)
    ensures Occurs(s, "\n\n", j) <==> j + 2 <= |s| && s[j] == '\n' && s[j + 1] == '\n'
  {
    if j + 2 <= |s| {
      assert s[j..j + 2] == [s[j], s[j + 1]];
    }
  }

  lemma SplitPiece(p: string, rest: string)
    requires Tight(p)
    ensures Split(p + "\n\n" + rest, "\n\n") == [p] + Split(rest, "\n\n")
  {
    var s := p + "\n\n" + rest;
    forall j: nat | j < |p| ensures !Occurs(s, "\n\n", j) {
      PairAt(s, j);
      assert s[j] == p[j] && (j + 1 < |p| ==> s[j + 1] == p[j + 1]);
    }
    SplitFirst(p, "\n\n", rest);
  }

  lemma TrimOfDigit(s: string)
    requires s != "" && Digit(s[0])
    ensures Trim(s) != ""
  {
    TrimRightStops(s);
  }

  lemma {:induction false} TrimRightStops(s: string)
    requires s != "" && !Blank(s[0])
    ensures TrimRight(s) != ""
  {
    if Blank(s[|s| - 1]) {
      TrimRightStops(s[..|s| - 1]);
    }
  }

  lemma PieceParses(f: Frame)
    requires Sound(f)
    ensures Kept(Piece(f)) && ParseLines(Split(Piece(f), "\n")) == Ok(f)
  {
    PieceIsTight(f);
    TrimOfDigit(Piece(f));
    DecimalReads(f.time);
    SplitLines(Decimal(f.time), f.lines);
  }

  lemma PiecesFirst(p: string, pieces: seq<string>)
    ensures ParsePieces([p] + pieces) ==
      if Kept(p) then Prepend(ParseLines(Split(p, "\n")), ParsePieces(pieces)) else ParsePieces(pieces)
  {
    assert ([p] + pieces)[1..] == pieces;
  }

  lemma FrameFirst(f: Frame, rest: string)
    requires Sound(f)
    ensures Parse(FrameText(f) + rest) == Prepend(Ok(f), Parse(rest))
  {
    FrameIsPiece(f);
    PieceIsTight(f);
    PieceParses(f);
    SplitPiece(Piece(f), rest);
    PiecesFirst(Piece(f), Split(rest, "\n\n"));
  }

  function Behind(fs: seq<Frame>, more: Result<seq<Frame>>): Result<seq<Frame>> {
    match more case Err => Err case Ok(xs) => Ok(fs + xs)
  }

  lemma BehindFirst(fs: seq<Frame>, more: Result<seq<Frame>>)
    requires fs != []
    ensures Prepend(Ok(fs[0]), Behind(fs[1..], more)) == Behind(fs, more)
  {
    if more.Ok? {
      assert [fs[0]] + (fs[1..] + more.value) == fs + more.value;
    }
  }

  lemma NothingLeft(s: string)
    requires s == "" || s == "\n"
    ensures Parse(s) == Ok([])
  {
    assert Split(s, "\n\n") == [s];
    assert Blank('\n');
    assert TrimLeft(s) == "";
    assert ParsePieces([s]) == ParsePieces([s][1..]);
  }

  // ---- a log cut off anywhere ------------------------------------------------------

  // A frame as far as m lines and x.
  function Head(f: Frame, m: nat, x: string): string
    requires m <= |f.lines|
  {
    Decimal(f.time) + "\n" + (Body(f.lines[..m]) + x)
  }

  // What stands behind m lines, without its newline.
  function Next(f: Frame, m: nat): string { if m < |f.lines| then f.lines[m] else "" }

  // The first k frames, and x of the time of the next one.
  ghost predicate InTime(fs: seq<Frame>, p: string, k: nat, x: string) {
    k <= |fs| && p == LogText(fs[..k]) + x && x <= if k < |fs| then Decimal(fs[k].time) else ""
  }

  // The first k frames, m lines of the next one, and x of what comes then.
  ghost predicate InLines(fs: seq<Frame>, p: string, k: nat, m: nat, x: string) {
    k < |fs| && m <= |fs[k].lines| && p == LogText(fs[..k]) + Head(fs[k], m, x) && x <= Next(fs[k], m)
  }

  lemma {:induction false} BodyShape(lines: seq<string>, t: string) returns (m: nat, x: string)
    requires t <= Body(lines)
    ensures m <= |lines| && t == Body(lines[..m]) + x && x <= if m < |lines| then lines[m] else ""
  {
    if lines == [] || |t| <= |lines[0]| {
      m, x := 0, t;
      assert lines == [] || t == (lines[0] + ("\n" + Body(lines[1..])))[..|t|];
      assert Body(lines[..0]) + t == t;
    } else {
      var t' := t[|lines[0]| + 1..];
      PastFirst(lines[0], Body(lines[1..]), t);
      m, x := BodyShape(lines[1..], t');
      BodyNext(lines, m, x);
      m := m + 1;
    }
  }

  lemma BodyNext(lines: seq<string>, m: nat, x: string)
    requires m < |lines|
    ensures lines[0] + "\n" + (Body(lines[1..][..m]) + x) == Body(lines[..m + 1]) + x
  {
    assert lines[..m + 1][1..] == lines[1..][..m];
  }

  lemma PastFirst(a: string, rest: string, t: string)
    requires t <= a + "\n" + rest && |t| > |a|
    ensures t == a + "\n" + t[|a| + 1..] && t[|a| + 1..] <= rest
  {
    var all := a + "\n" + rest;
    assert t == all[..|t|];
  }

  lemma {:induction false} FrameShape(f: Frame, t: string) returns (m: nat, x: string)
    requires t <= FrameText(f) && t != FrameText(f)
    ensures (m == 0 && x == t <= Decimal(f.time)) || (m <= |f.lines| && t == Head(f, m, x) && x <= Next(f, m))
  {
    var a, rest := Decimal(f.time), Body(f.lines) + "\n";
    Cat(a + "\n", Body(f.lines), "\n");
    if |t| <= |a| {
      m, x := 0, t;
      assert t == (a + ("\n" + rest))[..|t|];
    } else {
      PastFirst(a, rest, t);
      var t' := t[|a| + 1..];
      assert t' <= Body(f.lines) by {
        assert t' == rest[..|t'|];
      }
      m, x := BodyShape(f.lines, t');
    }
  }

  lemma ShapeNext(fs: seq<Frame>, p: string, k: nat, m: nat, x: string)
    requires fs != []
    ensures InTime(fs[1..], p, k, x) ==> InTime(fs, FrameText(fs[0]) + p, k + 1, x)
    ensures InLines(fs[1..], p, k, m, x) ==> InLines(fs, FrameText(fs[0]) + p, k + 1, m, x)
  {
    if k < |fs| {
      LogFirst(fs, k);
      Cat(FrameText(fs[0]), LogText(fs[1..][..k]), x);
      if InLines(fs[1..], p, k, m, x) {
        Cat(FrameText(fs[0]), LogText(fs[1..][..k]), Head(fs[1..][k], m, x));
      }
    }
  }

  lemma LogFirst(fs: seq<Frame>, k: nat)
    requires k < |fs|
    ensures LogText(fs[..k + 1]) == FrameText(fs[0]) + LogText(fs[1..][..k])
  {
    assert fs[..k + 1][1..] == fs[1..][..k];
  }

  // ---- and what is read of it --------------------------------------------------------

  lemma HeadIsTail(f: Frame, m: nat, x: string)
    requires m <= |f.lines|
    ensures Head(f, m, x) == Decimal(f.time) + Tail(f.lines[..m] + [x])
  {
    var lines := f.lines[..m];
    BodyIsTail(lines);
    TailSnoc(lines, x);
    calc {
      Head(f, m, x);
      Decimal(f.time) + (("\n" + Body(lines)) + x);
      Decimal(f.time) + ((Tail(lines) + "\n") + x);
      { Cat(Tail(lines), "\n", x); }
      Decimal(f.time) + Tail(lines + [x]);
    }
  }

  lemma {:induction false} TailSnoc(lines: seq<string>, x: string)
    ensures Tail(lines + [x]) == Tail(lines) + ("\n" + x)
  {
    if lines == [] {
      assert [] + [x] == [x] && [x][1..] == [];
      assert Tail([x]) == "\n" + x + "";
    } else {
      assert (lines + [x])[1..] == lines[1..] + [x];
      TailSnoc(lines[1..], x);
      Cat("\n" + lines[0], Tail(lines[1..]), "\n" + x);
    }
  }

  lemma TornIsOnePiece(f: Frame, t: string)
    requires Sound(f) && t <= Piece(f) + "\n"
    ensures Split(t, "\n\n") == [t]
  {
    PieceIsTight(f);
    var p := Piece(f);
    assert t == (p + "\n")[..|t|];
    forall j: nat ensures !Occurs(t, "\n\n", j) {
      PairAt(t, j);
      if j + 2 <= |t| {
        assert t[j] == p[j] && (j + 1 < |p| ==> t[j + 1] == p[j + 1]);
      }
    }
    SplitNone(t, "\n\n");
  }

  lemma TimeShort(f: Frame, x: string)
    requires x <= Decimal(f.time)
    ensures x <= Piece(f) + "\n"
  {
  }

  lemma HeadShort(f: Frame, m: nat, x: string)
    requires m <= |f.lines| && x <= Next(f, m)
    ensures Head(f, m, x) <= Piece(f) + "\n"
  {
    BodyIsTail(f.lines);
    BodyTake(f.lines, m, x);
    var (a, b, rest) := (Decimal(f.time) + "\n", Body(f.lines[..m]) + x, Body(f.lines));
    calc {
      Piece(f) + "\n";
      Decimal(f.time) + (Tail(f.lines) + "\n");
      a + rest;
    }
    SameFront(a, b, rest);
  }

  lemma SameFront(a: string, b: string, c: string)
    requires b <= c
    ensures a + b <= a + c
  {
  }

  lemma SamePrefix(a: string, x: string, y: string)
    requires a + x <= a + y
    ensures x <= y
  {
    forall i | 0 <= i < |x| ensures x[i] == y[i] {
      assert (a + x)[|a| + i] == (a + y)[|a| + i];
    }
  }

  lemma {:induction false} BodyTake(lines: seq<string>, m: nat, x: string)
    requires m <= |lines| && x <= if m < |lines| then lines[m] else ""
    ensures Body(lines[..m]) + x <= Body(lines)
  {
    if m == 0 {
      assert Body(lines[..0]) + x == x;
      if lines != [] {
        assert Body(lines) == lines[0] + ("\n" + Body(lines[1..]));
      }
    } else {
      BodyTake(lines[1..], m - 1, x);
      BodyNext(lines, m - 1, x);
      SameFront(lines[0] + "\n", Body(lines[1..][..m - 1]) + x, Body(lines[1..]));
    }
  }

  lemma OnePiece(t: string, f: Frame)
    requires Split(t, "\n\n") == [t] && Kept(t) && ParseLines(Split(t, "\n")) == Ok(f)
    ensures Parse(t) == Ok([f])
  {
    assert [t] + [] == [t] && [f] + [] == [f];
    PiecesFirst(t, []);
  }

  lemma TimeHead(n: nat, x: string)
    requires x <= Decimal(n) && x != ""
    ensures Digit(x[0]) && OneLine(x) && !EndsWith(x, STOPPED) && ReadInt(x).Some? && ReadInt(x).value <= n
  {
    DecimalDigits(n);
    var a := Decimal(n);
    assert x == a[..|x|] && forall i :: 0 <= i < |x| ==> x[i] == a[i];
    ValueGrows(a, |x|);
    DigitsAreNeat(x);
    NotStopped(x);
  }

  lemma HeadParses(f: Frame, m: nat, x: string)
    requires Sound(f) && m <= |f.lines| && x <= Next(f, m)
    ensures Parse(Head(f, m, x)) == Ok(if EndsWith(Head(f, m, x), STOPPED) then [] else [Frame(f.time, f.lines[..m] + [x])])
  {
    var t := Head(f, m, x);
    HeadShort(f, m, x);
    TornIsOnePiece(f, t);
    HeadStarts(f, m, x);
    TrimOfDigit(t);
    if EndsWith(t, STOPPED) {
      NoPiece(t);
    } else {
      HeadLines(f, m, x);
      OnePiece(t, Frame(f.time, f.lines[..m] + [x]));
    }
  }

  lemma HeadStarts(f: Frame, m: nat, x: string)
    requires m <= |f.lines|
    ensures Head(f, m, x) != "" && Digit(Head(f, m, x)[0])
  {
    DecimalDigits(f.time);
    Starts(Decimal(f.time), "\n" + (Body(f.lines[..m]) + x));
    Cat(Decimal(f.time), "\n", Body(f.lines[..m]) + x);
  }

  lemma Starts(a: string, b: string)
    requires a != ""
    ensures (a + b)[0] == a[0]
  {
  }

  lemma NoPiece(t: string)
    requires Split(t, "\n\n") == [t] && !Kept(t)
    ensures Parse(t) == Ok([])
  {
    assert [t] + [] == [t];
    PiecesFirst(t, []);
  }

  lemma HeadSplits(f: Frame, m: nat, x: string)
    requires Sound(f) && m <= |f.lines| && x <= Next(f, m)
    ensures Split(Head(f, m, x), "\n") == [Decimal(f.time)] + (f.lines[..m] + [x])
  {
    var lines := f.lines[..m] + [x];
    forall l <- lines ensures OneLine(l) {
      if m < |f.lines| {
        assert f.lines[m] in f.lines;
      }
      assert l == x || l in f.lines;
    }
    HeadIsTail(f, m, x);
    DecimalReads(f.time);
    SplitLines(Decimal(f.time), lines);
  }

  lemma HeadLines(f: Frame, m: nat, x: string)
    requires Sound(f) && m <= |f.lines| && x <= Next(f, m)
    ensures ParseLines(Split(Head(f, m, x), "\n")) == Ok(Frame(f.time, f.lines[..m] + [x]))
  {
    var lines := f.lines[..m] + [x];
    HeadSplits(f, m, x);
    DecimalReads(f.time);
    assert ([Decimal(f.time)] + lines)[1..] == lines;
  }

  // The first of the lines, the last one possibly cut short.
  ghost predicate LinesTorn(torn: seq<string>, lines: seq<string>) {
    torn == [] ||
    var m := |torn| - 1;
    m <= |lines| && torn[..m] == lines[..m] && torn[m] <= if m < |lines| then lines[m] else ""
  }

  // What can be left of a frame: the right time unless not even its line is complete.
  ghost predicate Torn(d: Frame, f: Frame) {
    d.time <= f.time && (d.lines != [] ==> d.time == f.time) && LinesTorn(d.lines, f.lines)
  }

  lemma {:induction false} LogNext(fs: seq<Frame>, k: nat)
    requires k < |fs|
    ensures LogText(fs[..k + 1]) == LogText(fs[..k]) + FrameText(fs[k])
  {
    LogFirst(fs, k);
    if k > 0 {
      LogFirst(fs, k - 1);
      LogNext(fs[1..], k - 1);
      Cat(FrameText(fs[0]), LogText(fs[1..][..k - 1]), FrameText(fs[k]));
    } else {
      assert LogText(fs[1..][..0]) == "" && LogText(fs[..0]) == "";
      assert FrameText(fs[0]) + "" == FrameText(fs[0]) == "" + FrameText(fs[0]);
    }
  }

  // ---- the whole log comes back exactly when no line is empty ------------------------

  ghost predicate NoEmptyLine(fs: seq<Frame>) { forall f <- fs :: forall l <- f.lines :: l != "" }

  lemma {:induction false} TightLines(s: string)
    requires Tight(s)
    ensures forall i :: 0 < i < |Split(s, "\n")| ==> Split(s, "\n")[i] != ""
    ensures s != "" && s[0] != '\n' ==> Split(s, "\n")[0] != ""
    decreases |s|
  {
    FindIsFirst(s, "\n");
    var i := Find(s, "\n");
    if i >= 0 {
      assert s[i..i + 1][0] == s[i];
      TightLines(s[i + 1..]);
    }
  }

  lemma FirstPieceIsTight(s: string)
    requires Find(s, "\n\n") >= 0
    ensures Tight(s[..Find(s, "\n\n")]) && Occurs(s, "\n\n", Find(s, "\n\n"))
  {
    FindIsFirst(s, "\n\n");
    var i := Find(s, "\n\n");
    var piece := s[..i];
    forall j | 0 < j < |piece| && piece[j] == '\n' ensures piece[j - 1] != '\n' {
      PairAt(s, j - 1);
    }
    PairAt(s, i);
    if i > 0 {
      PairAt(s, i - 1);
    }
  }

  lemma PieceHasNoEmptyLine(piece: string)
    requires Tight(piece)
    ensures var f := ParseLines(Split(piece, "\n")); f.Ok? ==> forall l <- f.value.lines :: l != ""
  {
    TightLines(piece);
  }

  // In a text that ends in an empty line no block has an empty line.
  lemma {:induction false} ParsedLinesAreNotEmpty(s: string)
    requires s == "" || s == "\n" || EndsWith(s, "\n\n")
    ensures Parse(s).Ok? ==> NoEmptyLine(Parse(s).value)
    decreases |s|
  {
    var i := Find(s, "\n\n");
    if i < 0 {
      FindIsFirst(s, "\n\n");
      assert EndsWith(s, "\n\n") ==> Occurs(s, "\n\n", |s| - 2);
      NothingLeft(s);
    } else {
      FirstPieceIsTight(s);
      PieceHasNoEmptyLine(s[..i]);
      RestEnds(s, i);
      ParsedLinesAreNotEmpty(s[i + 2..]);
      ParseFirst(s, i);
      NoEmptyLineBehind(ParseLines(Split(s[..i], "\n")), Parse(s[i + 2..]));
    }
  }

  lemma ParseFirst(s: string, i: nat)
    requires i == Find(s, "\n\n")
    ensures Parse(s) ==
      if Kept(s[..i]) then Prepend(ParseLines(Split(s[..i], "\n")), Parse(s[i + 2..])) else Parse(s[i + 2..])
  {
    PiecesFirst(s[..i], Split(s[i + 2..], "\n\n"));
  }

  lemma NoEmptyLineBehind(f: Result<Frame>, more: Result<seq<Frame>>)
    requires f.Ok? ==> forall l <- f.value.lines :: l != ""
    requires more.Ok? ==> NoEmptyLine(more.value)
    ensures Prepend(f, more).Ok? ==> NoEmptyLine(Prepend(f, more).value)
  {
  }

  lemma RestEnds(s: string, i: nat)
    requires Occurs(s, "\n\n", i) && EndsWith(s, "\n\n")
    ensures var rest := s[i + 2..]; rest == "" || rest == "\n" || EndsWith(rest, "\n\n")
  {
    var rest := s[i + 2..];
    assert s[|s| - 2..][1] == s[|s| - 1];
    if |rest| >= 2 {
      assert rest[|rest| - 2..] == s[|s| - 2..];
    } else if |rest| == 1 {
      assert rest == [s[|s| - 1]];
    }
  }

  lemma {:induction false} LogEnds(fs: seq<Frame>)
    ensures fs == [] || EndsWith(LogText(fs), "\n\n")
  {
    if fs != [] {
      LogEnds(fs[1..]);
      FrameIsPiece(fs[0]);
      if fs[1..] == [] {
        assert LogText(fs) == FrameText(fs[0]);
      } else {
        var (all, more) := (LogText(fs), LogText(fs[1..]));
        assert all[|all| - 2..] == more[|more| - 2..];
      }
    }
  }

  // ---- _iter_parse_timed_blocks ----------------------------------------------------

  // itertools.takewhile(lambda s: s != "\n", lines), and what it leaves
  function Until(lines: seq<string>): seq<string> {
    if lines == [] || lines[0] == "\n" then [] else [lines[0]] + Until(lines[1..])
  }

  function Rest(lines: seq<string>): (r: seq<string>)
    ensures lines != [] ==> |r| < |lines|
  {
    if lines == [] then [] else if lines[0] == "\n" then lines[1..] else Rest(lines[1..])
  }

  function TrimAll(lines: seq<string>): seq<string> {
    seq(|lines|, i requires 0 <= i < |lines| => Trim(lines[i]))
  }

  function Stream(lines: seq<string>): Result<seq<Frame>>
    decreases |lines|, 0
  {
    if lines == [] then Ok([]) else StreamOn(TrimAll(Until(lines)), Rest(lines))
  }

  function StreamOn(block: seq<string>, lines: seq<string>): Result<seq<Frame>>
    decreases |lines|, 1
  {
    if block == [] then Ok([])
    else if EndsWith(block[|block| - 1], STOPPED) then Stream(lines)
    else Prepend(ParseLines(block), Stream(lines))
  }

  lemma BehindNothing(more: Result<seq<Frame>>)
    ensures Behind([], more) == more
  {
    if more.Ok? {
      assert [] + more.value == more.value;
    }
  }

  lemma BehindNext(fs: seq<Frame>, f: Frame, more: Result<seq<Frame>>)
    ensures Behind(fs, Prepend(Ok(f), more)) == Behind(fs + [f], more)
  {
    if more.Ok? {
      assert fs + ([f] + more.value) == fs + [f] + more.value;
    }
  }

  function WithNewlines(lines: seq<string>): seq<string> {
    seq(|lines|, i requires 0 <= i < |lines| => lines[i] + "\n")
  }

  lemma BodyFirst(lines: seq<string>, rest: string, more: seq<string>)
    requires lines != []
    ensures Body(lines) + rest == lines[0] + "\n" + (Body(lines[1..]) + rest)
    ensures WithNewlines(lines) + more == [lines[0] + "\n"] + (WithNewlines(lines[1..]) + more)
  {
    Cat(lines[0] + "\n", Body(lines[1..]), rest);
    WithNewlinesFirst(lines);
    Cat([lines[0] + "\n"], WithNewlines(lines[1..]), more);
  }

  lemma WithNewlinesFirst(lines: seq<string>)
    requires lines != []
    ensures WithNewlines(lines) == [lines[0] + "\n"] + WithNewlines(lines[1..])
  {
  }

  lemma {:induction false} LinesOfBody(lines: seq<string>, rest: string)
    requires forall l <- lines :: OneLine(l)
    ensures Lines(Body(lines) + rest) == WithNewlines(lines) + Lines(rest)
  {
    if lines == [] {
      assert Body(lines) + rest == rest;
    } else {
      assert lines[0] in lines;
      LinesOfBody(lines[1..], rest);
      LinesFirst(lines[0], Body(lines[1..]) + rest);
      BodyFirst(lines, rest, Lines(rest));
    }
  }

  function RawLines(f: Frame): seq<string> {
    WithNewlines([Decimal(f.time)] + f.lines)
  }

  lemma LinesOfFrame(f: Frame, rest: string)
    requires forall l <- f.lines :: OneLine(l)
    ensures Lines(FrameText(f) + rest) == RawLines(f) + ["\n"] + Lines(rest)
  {
    var lines := [Decimal(f.time)] + f.lines;
    DecimalReads(f.time);
    FrameIsBody(f, rest);
    LinesOfBlock(lines, rest);
  }

  lemma FrameIsBody(f: Frame, rest: string)
    ensures FrameText(f) + rest == Body([Decimal(f.time)] + f.lines) + "\n" + rest
  {
    assert ([Decimal(f.time)] + f.lines)[1..] == f.lines;
  }

  lemma {:induction false} UntilBlank(raw: seq<string>, rest: seq<string>)
    requires "\n" !in raw
    ensures Until(raw + ["\n"] + rest) == raw && Rest(raw + ["\n"] + rest) == rest
  {
    var all := raw + ["\n"] + rest;
    if raw != [] {
      assert all[1..] == raw[1..] + ["\n"] + rest;
      UntilBlank(raw[1..], rest);
    }
  }

  predicate Neat(l: string) { Trimmed(l) && l != "" }

  ghost predicate AllNeat(fs: seq<Frame>) { forall f <- fs :: forall l <- f.lines :: Neat(l) }

  // Trimmed lines without an empty one.
  ghost predicate Block(block: seq<string>) {
    block != [] && forall l <- block :: OneLine(l) && Neat(l)
  }

  lemma BlockIsStreamed(block: seq<string>, rest: string)
    requires Block(block)
    ensures Stream(Lines(Body(block) + "\n" + rest)) == Prepend(ParseLines(block), Stream(Lines(rest)))
  {
    var raw := WithNewlines(block);
    LinesOfBlock(block, rest);
    BlockIsRaw(block);
    UntilBlank(raw, Lines(rest));
    assert block[|block| - 1] in block;
    NotStopped(block[|block| - 1]);
    StreamStep(raw + ["\n"] + Lines(rest), block, Lines(rest));
  }

  lemma StreamStep(lines: seq<string>, block: seq<string>, rest: seq<string>)
    requires lines != [] && block != [] && TrimAll(Until(lines)) == block && Rest(lines) == rest
    requires !EndsWith(block[|block| - 1], STOPPED)
    ensures Stream(lines) == Prepend(ParseLines(block), Stream(rest))
  {
  }

  lemma LinesOfBlock(block: seq<string>, rest: string)
    requires forall l <- block :: OneLine(l)
    ensures Lines(Body(block) + "\n" + rest) == WithNewlines(block) + ["\n"] + Lines(rest)
  {
    LinesOfBody(block, "\n" + rest);
    LinesFirst("", rest);
    assert "" + "\n" == "\n";
    Cat(Body(block), "\n", rest);
    Cat(WithNewlines(block), ["\n"], Lines(rest));
  }

  lemma BlockIsRaw(block: seq<string>)
    requires Block(block)
    ensures TrimAll(WithNewlines(block)) == block && "\n" !in WithNewlines(block)
  {
    var raw := WithNewlines(block);
    forall i | 0 <= i < |block| ensures raw[i] != "\n" && Trim(raw[i]) == block[i] {
      assert block[i] in block;
      TrimLine(block[i]);
      assert |raw[i]| > 1;
    }
  }

  lemma NeatFrameStreams(f: Frame, rest: string)
    requires forall l <- f.lines :: OneLine(l) && Neat(l)
    ensures Stream(Lines(FrameText(f) + rest)) == Prepend(Ok(f), Stream(Lines(rest)))
  {
    FrameIsBody(f, rest);
    DecimalReads(f.time);
    DecimalDigits(f.time);
    BlockIsStreamed([Decimal(f.time)] + f.lines, rest);
    assert ([Decimal(f.time)] + f.lines)[1..] == f.lines;
  }

  lemma NotStopped(l: string)
    requires Trimmed(l)
    ensures !EndsWith(l, STOPPED)
  {
    assert Blank('\n');
    if |l| >= |STOPPED| {
      assert l[|l| - |STOPPED|..][|STOPPED| - 1] == l[|l| - 1];
    }
  }

  lemma {:induction false} NeatLogStreams(fs: seq<Frame>)
    requires AllOneLine(fs) && AllNeat(fs)
    ensures Stream(Lines(LogText(fs))) == Ok(fs)
  {
    if fs != [] {
      NeatLogStreams(fs[1..]);
      assert fs[0] in fs;
      NeatFrameStreams(fs[0], LogText(fs[1..]));
      PrependRest(fs);
    }
  }

  lemma PrependRest(fs: seq<Frame>)
    requires fs != []
    ensures Prepend(Ok(fs[0]), Ok(fs[1..])) == Ok(fs)
  {
    assert [fs[0]] + fs[1..] == fs;
  }

  // Every line that comes out of the streaming splitter is trimmed, and was not just a newline.
  lemma {:induction false} StreamedLines(lines: seq<string>, f: Frame, l: string) returns (raw: string)
    requires Stream(lines).Ok? && f in Stream(lines).value && l in f.lines
    ensures raw in lines && raw != "\n" && l == Trim(raw)
    decreases |lines|
  {
    var block := TrimAll(Until(lines));
    if !EndsWith(block[|block| - 1], STOPPED) && Ok(f) == ParseLines(block) {
      var i :| 0 <= i < |f.lines| && f.lines[i] == l;
      raw := Until(lines)[i + 1];
      UntilIsPart(lines, i + 1);
    } else {
      raw := StreamedLines(Rest(lines), f, l);
      RestIsPart(lines, raw);
    }
  }

  lemma {:induction false} UntilIsPart(lines: seq<string>, i: nat)
    requires i < |Until(lines)|
    ensures Until(lines)[i] in lines && Until(lines)[i] != "\n"
  {
    if i > 0 {
      UntilIsPart(lines[1..], i - 1);
    }
  }

  lemma {:induction false} RestIsPart(lines: seq<string>, l: string)
    requires l in Rest(lines)
    ensures l in lines
  {
    if lines != [] && lines[0] != "\n" {
      RestIsPart(lines[1..], l);
    }
  }

  lemma {:induction false} LinesOfLog(fs: seq<Frame>, raw: string) returns (x: string)
    requires AllOneLine(fs) && raw in Lines(LogText(fs)) && raw != "\n"
    ensures raw == x + "\n" && ((exists f <- fs :: x in f.lines) || Trimmed(x))
  {
    var more := LogText(fs[1..]);
    assert fs[0] in fs;
    LinesOfFrame(fs[0], more);
    assert raw in RawLines(fs[0]) || raw in Lines(more);
    if raw in RawLines(fs[0]) {
      x := LineOfRaw(fs[0], raw);
    } else {
      x := LinesOfLog(fs[1..], raw);
      assert forall g <- fs[1..] :: g in fs;
    }
  }

  lemma LineOfRaw(f: Frame, raw: string) returns (x: string)
    requires raw in RawLines(f)
    ensures raw == x + "\n" && (x in f.lines || Trimmed(x))
  {
    x := WithoutNewline([Decimal(f.time)] + f.lines, raw);
    if x !in f.lines {
      assert x == Decimal(f.time);
      DecimalReads(f.time);
    }
  }

  lemma WithoutNewline(lines: seq<string>, raw: string) returns (x: string)
    requires raw in WithNewlines(lines)
    ensures x in lines && raw == x + "\n"
  {
    var i :| 0 <= i < |lines| && WithNewlines(lines)[i] == raw;
    x := lines[i];
  }

}
