/**
 Word wrapping of the fixed screen prose (`crates/seed-flow/src/text.rs`).

 Text is ASCII, so one `char` is one glyph cell. `WrapWords` is the iterator the
 source consumes in place. `NextLine` says what one call of its `Next` yields from a
 position of the text, and `Wrap` is everything it yields. The theorems at the end are
 about `Wrap`: the shape of every line, what becomes of every word, and that no
 word-boundary wrap of the same text uses fewer lines.
 */
module WordWrap {
  import opened Wrappers

  const LINE_CAPACITY := 160
  const PROSE_WRAP_COLS := 80

  // ---------------------------------------------------------------- the lines

  /** The first index at or after `i` that holds no space. */
  function Lead(s: string, i: nat): (r: nat)
    requires i <= |s|
    ensures i <= r <= |s|
    ensures forall j :: i <= j < r ==> s[j] == ' '
    ensures r < |s| ==> s[r] != ' '
    decreases |s| - i
  {
    if i < |s| && s[i] == ' ' then Lead(s, i + 1) else i
  }

  /** One past the last index below `end` that holds no space. */
  function Trail(s: string, end: nat): (r: nat)
    requires end <= |s|
    ensures r <= end
    ensures forall j :: r <= j < end ==> s[j] == ' '
    ensures r > 0 ==> s[r - 1] != ' '
  {
    if end > 0 && s[end - 1] == ' ' then Trail(s, end - 1) else end
  }

  /** The largest index in `lo..=i` that holds a space. */
  function LastSpace(s: string, lo: nat, i: nat): (r: Option<nat>)
    requires lo <= i < |s|
    ensures r.Some? ==> lo <= r.value <= i && s[r.value] == ' '
    ensures forall j :: (if r.Some? then r.value + 1 else lo) <= j <= i ==> s[j] != ' '
  {
    if s[i] == ' ' then Some(i) else if i == lo then None else LastSpace(s, lo, i - 1)
  }

  /** No space in `s[i..j]`. */
  ghost predicate Run(s: string, i: nat, j: nat) {
    j <= |s| && forall p :: i <= p < j ==> s[p] != ' '
  }

  /**
   Where the line that begins at `a` stops: at the end of a tail that fits, else at the
   last space among the next `cols + 1` cells, else (no such space) after `cols` cells.
   */
  function Break(s: string, a: nat, cols: nat): (b: nat)
    requires 1 <= cols && a < |s| && s[a] != ' '
    ensures a < b <= |s| && b - a <= cols
    ensures b == |s| || s[b] == ' ' || (b == a + cols && Run(s, a, a + cols + 1))
    ensures forall j :: b < j <= a + cols && j < |s| ==> s[j] != ' '
  {
    if |s| - a <= cols then |s|
    else match LastSpace(s, a, a + cols) case Some(i) => i case None => a + cols
  }

  /** The next line from `pos` and where the following one starts looking, if any. */
  function NextLine(s: string, pos: nat, cols: nat): (r: Option<(string, nat)>)
    requires 1 <= cols && pos <= |s|
    ensures r.Some? ==> pos < r.value.1 <= |s|
  {
    var a := Lead(s, pos);
    if a == |s| then None
    else var b := Break(s, a, cols); assert Trail(s, b) > a; Some((s[a..Trail(s, b)], b))
  }

  /** Every line the iterator yields from `pos`. */
  function Wrap(s: string, pos: nat, cols: nat): seq<string>
    requires 1 <= cols && pos <= |s|
    decreases |s| - pos
  {
    match NextLine(s, pos, cols)
    case None => []
    case Some(p) => [p.0] + Wrap(s, p.1, cols)
  }

  // ------------------------------------------------------------- the iterator

  class WrapWords {
    var rest: string
    const cols: nat
    /** The whole text, and how much of it has been consumed: `rest` is what follows. */
    ghost const text: string
    ghost var pos: nat

    ghost predicate Valid()
      reads this
    {
      1 <= cols <= LINE_CAPACITY && pos <= |text| && rest == text[pos..]
    }

    /** `wrap_words`: the column count is clamped into `1..=LINE_CAPACITY`. */
    constructor (text: string, cols: nat)
      ensures Valid() && this.text == text && pos == 0
      ensures this.cols == if cols == 0 then 1 else if cols > 160 then 160 else cols
    {
      rest := text;
      var c := if cols < LINE_CAPACITY then cols else LINE_CAPACITY;
      this.cols := if c > 1 then c else 1;
      this.text, this.pos := text, 0;
    }

    method Next() returns (line: Option<string>)
      requires Valid()
      modifies this
      ensures Valid()
      ensures match NextLine(text, old(pos), cols)
              case None => line == None && rest == ""
              case Some(p) => line == Some(p.0) && pos == p.1
    {
      hide Break, Trail;
      var start := SkipSpaces(rest, text, pos);
      if start >= |rest| {
        rest, pos := "", |text|;
        return None;
      }
      TailOfTail(text, pos, start);
      pos := Break(text, pos + start, cols);
      var l;
      l, rest := TakeLine(rest[start..], cols, text, old(pos) + start);
      line := Some(l);
    }
  }

  /** How many spaces `rest`, the tail of `text` from `pos`, begins with. */
  method SkipSpaces(rest: string, ghost text: string, ghost pos: nat) returns (start: nat)
    requires pos <= |text| && rest == text[pos..]
    ensures pos + start == Lead(text, pos)
  {
    start := 0;
    while start < |rest| && rest[start] == ' '
      invariant 0 <= start <= |rest|
      invariant Lead(text, pos) == Lead(text, pos + start)
    {
      start := start + 1;
    }
  }

  /** Splits the tail `s` of `text` that begins at `a`, no space there, into a line and the rest. */
  method TakeLine(s: string, cols: nat, ghost text: string, ghost a: nat) returns (line: string, rest: string)
    requires 1 <= cols && a < |text| && text[a] != ' ' && s == text[a..]
    ensures a < Trail(text, Break(text, a, cols))
    ensures line == text[a..Trail(text, Break(text, a, cols))]
    ensures rest == text[Break(text, a, cols)..]
  {
    var at, trim := FindEnd(s, text, a, cols);
    line, rest := s[..at], s[at..];
    hide Break;
    TailSlices(text, a, at);
    if trim {
      TrailOfPiece(text, a, a + at, line);
      line := TrimAsciiEnd(line);
    }
  }

  /** Where the line at the front of `s` stops, and whether spaces can stand before that. */
  method FindEnd(s: string, ghost text: string, ghost a: nat, cols: nat) returns (at: nat, trim: bool)
    requires 1 <= cols && a < |text| && text[a] != ' ' && s == text[a..]
    ensures a + at == Break(text, a, cols)
    ensures trim || Trail(text, a + at) == a + at
  {
    if |s| <= cols { return |s|, true; }
    var brk := FindBreak(s, text, a, cols);
    match brk {
      case Some(i) => return i, true;
      case None => return cols, false;
    }
  }

  lemma TailOfTail(text: string, pos: nat, start: nat)
    requires pos + start <= |text|
    ensures text[pos..][start..] == text[pos + start..]
  {
  }

  lemma TailSlices(s: string, a: nat, i: nat)
    requires a + i <= |s|
    ensures s[a..][..i] == s[a..a + i] && s[a..][i..] == s[a + i..]
  {
  }

  /** The backward search of `next`; a space exactly at `cols` is a valid break. */
  method FindBreak(s: string, ghost text: string, ghost a: nat, cols: nat) returns (brk: Option<nat>)
    requires a + |s| == |text| && s == text[a..] && cols < |s|
    ensures brk.Some? ==> brk.value <= cols && LastSpace(text, a, a + cols) == Some(a + brk.value)
    ensures brk.None? ==> LastSpace(text, a, a + cols) == None
  {
    var i := cols;
    while true
      invariant 0 <= i <= cols
      invariant LastSpace(text, a, a + cols) == LastSpace(text, a, a + i)
      decreases i
    {
      if s[i] == ' ' {
        return Some(i);
      }
      if i == 0 {
        return None;
      }
      i := i - 1;
    }
  }

  /** `s` without its trailing spaces. */
  method TrimAsciiEnd(s: string) returns (r: string)
    ensures r == s[..Trail(s, |s|)]
  {
    var end := |s|;
    while end > 0 && s[end - 1] == ' '
      invariant 0 <= end <= |s| && Trail(s, end) == Trail(s, |s|)
    {
      end := end - 1;
    }
    r := s[..end];
  }

  /** Trimming a piece of a text, no space in front, trims the text there. */
  lemma TrailOfPiece(text: string, a: nat, b: nat, piece: string)
    requires a < b <= |text| && piece == text[a..b] && text[a] != ' '
    ensures a < Trail(text, b) && piece[..Trail(piece, |piece|)] == text[a..Trail(text, b)]
  {
    TrailAt(text, a, b, piece, |piece|);
  }

  lemma {:induction false} TrailAt(text: string, a: nat, b: nat, piece: string, n: nat)
    requires a < b <= |text| && piece == text[a..b] && text[a] != ' ' && 0 < n <= |piece|
    ensures Trail(text, a + n) == a + Trail(piece, n) && 0 < Trail(piece, n)
  {
    assert piece[n - 1] == text[a + (n - 1)];
    assert piece[0] == text[a];
    if piece[n - 1] == ' ' { TrailAt(text, a, b, piece, n - 1); }
  }

  /** `write_wrapped_prose`: the lines written, one per call of the iterator. */
  method WriteWrappedProse(prose: string) returns (written: seq<string>)
    ensures written == Wrap(prose, 0, 80)
  {
    written := [];
    var lines := new WrapWords(prose, PROSE_WRAP_COLS);
    while true
      invariant lines.Valid() && lines.cols == PROSE_WRAP_COLS && lines.text == prose
      invariant Wrap(prose, 0, PROSE_WRAP_COLS) == written + Wrap(prose, lines.pos, PROSE_WRAP_COLS)
      decreases |prose| - lines.pos
    {
      var line := lines.Next();
      match line {
        case None => return;
        case Some(l) =>
          Assoc(written, [l], Wrap(prose, lines.pos, PROSE_WRAP_COLS));
          written := written + [l];
      }
    }
  }

  // ----------------------------------------------------------- every line

  /** A line fits, is not empty, and neither starts nor ends with a space. */
  ghost predicate GoodLine(l: string, cols: nat) {
    0 < |l| <= cols && l[0] != ' ' && l[|l| - 1] != ' '
  }

  lemma {:induction false} EveryLineIsGood(s: string, pos: nat, cols: nat)
    requires 1 <= cols && pos <= |s|
    ensures forall l :: l in Wrap(s, pos, cols) ==> GoodLine(l, cols)
    decreases |s| - pos
  {
    match NextLine(s, pos, cols)
    case None =>
    case Some(p) => EveryLineIsGood(s, p.1, cols);
  }

  // ------------------------------------------------------------ every word

  /** One past the last cell of the space-free run that begins at `i`, looking below `j`. */
  function WordEnd(s: string, i: nat, j: nat): (e: nat)
    requires i <= j <= |s|
    ensures i <= e <= j && Run(s, i, e) && (e == j || s[e] == ' ')
    decreases j - i
  {
    if i < j && s[i] != ' ' then WordEnd(s, i + 1, j) else i
  }

  /** The maximal space-free runs of `s[i..j]`, in order. */
  function Words(s: string, i: nat, j: nat): seq<string>
    requires i <= j <= |s|
    decreases j - i
  {
    if i == j then []
    else if s[i] == ' ' then Words(s, i + 1, j)
    else var e := WordEnd(s, i + 1, j); [s[i..e]] + Words(s, e, j)
  }

  /** All words of all lines, in order. */
  function WordsOfLines(lines: seq<string>): seq<string> {
    if lines == [] then [] else Words(lines[0], 0, |lines[0]|) + WordsOfLines(lines[1..])
  }

  /** A word cut into `cols`-cell pieces from its front; a word that fits is left whole. */
  function Chop(w: string, cols: nat): seq<string>
    requires 1 <= cols
  {
    if |w| <= cols then [w] else [w[..cols]] + Chop(w[cols..], cols)
  }

  function ChopAll(ws: seq<string>, cols: nat): seq<string>
    requires 1 <= cols
  {
    if ws == [] then [] else Chop(ws[0], cols) + ChopAll(ws[1..], cols)
  }

  lemma Assoc<T>(a: seq<T>, b: seq<T>, c: seq<T>)
    ensures (a + b) + c == a + (b + c)
  {
  }

  lemma WordEndIs(s: string, i: nat, j: nat, e: nat)
    requires i <= e <= j <= |s| && Run(s, i, e) && (e == j || s[e] == ' ')
    ensures WordEnd(s, i, j) == e
  {
    var f := WordEnd(s, i, j);
    var (atE, atF) := (e < |s| && s[e] == ' ', f < |s| && s[f] == ' ');
  }

  /** Cutting at a space (or at the end) cuts between two words. */
  lemma {:induction false} WordsAtBoundary(s: string, i: nat, b: nat, j: nat)
    requires i <= b <= j <= |s| && (b == j || s[b] == ' ')
    ensures Words(s, i, j) == Words(s, i, b) + Words(s, b, j)
    decreases b - i
  {
    if i < b {
      if s[i] == ' ' {
        WordsAtBoundary(s, i + 1, b, j);
      } else {
        var e := WordEnd(s, i + 1, j);
        WordEndIs(s, i + 1, b, e);
        WordsAtBoundary(s, e, b, j);
        Assoc([s[i..e]], Words(s, e, b), Words(s, b, j));
      }
    }
  }

  /** Cutting inside the first word: the front piece joins the first word of what follows. */
  lemma WordsInside(s: string, i: nat, b: nat, j: nat)
    requires i < b < j <= |s| && Run(s, i, b + 1)
    ensures Words(s, b, j) != [] && Words(s, b, j)[0] != ""
    ensures Words(s, i, j) == [s[i..b] + Words(s, b, j)[0]] + Words(s, b, j)[1..]
  {
    var e := WordEnd(s, b + 1, j);
    WordEndIs(s, i + 1, j, e);
    assert s[i..e] == s[i..b] + s[b..e];
  }

  lemma {:induction false} WordsOfBlank(s: string, i: nat, j: nat)
    requires i <= j <= |s| && forall p :: i <= p < j ==> s[p] == ' '
    ensures Words(s, i, j) == []
    decreases j - i
  {
    if i < j { WordsOfBlank(s, i + 1, j); }
  }

  /** `l` is the piece of `s` that begins at `a`. */
  ghost predicate PieceAt(l: string, s: string, a: nat) {
    a + |l| <= |s| && forall k :: 0 <= k < |l| ==> l[k] == s[a + k]
  }

  lemma {:induction false} WordEndShift(l: string, s: string, a: nat, i: nat)
    requires PieceAt(l, s, a) && i <= |l|
    ensures a + WordEnd(l, i, |l|) == WordEnd(s, a + i, a + |l|)
    decreases |l| - i
  {
    if i < |l| { WordEndShift(l, s, a, i + 1); }
  }

  lemma SliceOfPiece(l: string, s: string, a: nat, i: nat, e: nat)
    requires PieceAt(l, s, a) && i <= e <= |l|
    ensures l[i..e] == s[a + i..a + e]
  {
  }

  lemma WordsFromSpace(s: string, i: nat, j: nat)
    requires i < j <= |s| && s[i] == ' '
    ensures Words(s, i, j) == Words(s, i + 1, j)
  {
  }

  lemma WordsFromWord(s: string, i: nat, j: nat, e: nat)
    requires i < j <= |s| && s[i] != ' ' && e == WordEnd(s, i + 1, j)
    ensures Words(s, i, j) == [s[i..e]] + Words(s, e, j)
  {
  }

  /** The words of a piece of the text are the words the text has there. */
  lemma {:induction false} WordsShift(l: string, s: string, a: nat, i: nat)
    requires PieceAt(l, s, a) && i <= |l|
    ensures Words(l, i, |l|) == Words(s, a + i, a + |l|)
    decreases |l| - i, 1
  {
    if i == |l| {
    } else if l[i] == ' ' {
      WordsShiftSpace(l, s, a, i);
    } else {
      WordsShiftWord(l, s, a, i);
    }
  }

  lemma {:induction false} WordsShiftSpace(l: string, s: string, a: nat, i: nat)
    requires PieceAt(l, s, a) && i < |l| && l[i] == ' '
    ensures Words(l, i, |l|) == Words(s, a + i, a + |l|)
    decreases |l| - i, 0
  {
    assert s[a + i] == ' ';
    hide PieceAt, Words;
    WordsFromSpace(l, i, |l|);
    WordsFromSpace(s, a + i, a + |l|);
    WordsShift(l, s, a, i + 1);
  }

  lemma {:induction false} WordsShiftWord(l: string, s: string, a: nat, i: nat)
    requires PieceAt(l, s, a) && i < |l| && l[i] != ' '
    ensures Words(l, i, |l|) == Words(s, a + i, a + |l|)
    decreases |l| - i, 0
  {
    assert s[a + i] != ' ';
    hide PieceAt, WordEnd, Run, Words;
    var e := WordEnd(l, i + 1, |l|);
    WordEndShift(l, s, a, i + 1);
    WordsFromWord(l, i, |l|, e);
    WordsFromWord(s, a + i, a + |l|, a + e);
    SliceOfPiece(l, s, a, i, e);
    WordsShift(l, s, a, e);
  }

  lemma {:induction false} WordsAreShort(s: string, i: nat, j: nat)
    requires i <= j <= |s|
    ensures forall w :: w in Words(s, i, j) ==> 0 < |w| <= j - i
    decreases j - i
  {
    if i < j {
      WordsAreShort(s, if s[i] == ' ' then i + 1 else WordEnd(s, i + 1, j), j);
    }
  }

  lemma {:induction false} ChopAllAppend(a: seq<string>, b: seq<string>, cols: nat)
    requires 1 <= cols
    ensures ChopAll(a + b, cols) == ChopAll(a, cols) + ChopAll(b, cols)
  {
    if a == [] {
      assert a + b == b;
    } else {
      assert (a + b)[1..] == a[1..] + b;
      ChopAllAppend(a[1..], b, cols);
    }
  }

  lemma {:induction false} ChopAllOfShort(ws: seq<string>, cols: nat)
    requires 1 <= cols
    requires forall w :: w in ws ==> |w| <= cols
    ensures ChopAll(ws, cols) == ws
  {
    if ws != [] {
      ChopAllOfShort(ws[1..], cols);
      assert ws == [ws[0]] + ws[1..];
    }
  }

  lemma ChopGlued(l: string, ws: seq<string>, cols: nat)
    requires 1 <= cols == |l| && ws != [] && ws[0] != ""
    ensures ChopAll([l + ws[0]] + ws[1..], cols) == [l] + ChopAll(ws, cols)
  {
    var w := l + ws[0];
    assert w[..cols] == l && w[cols..] == ws[0];
    assert ([w] + ws[1..])[1..] == ws[1..];
  }

  /** A line that stops between words takes the words before its break. */
  lemma LineAtBoundary(s: string, a: nat, b: nat, cols: nat)
    requires 1 <= cols && a < b <= |s| && b - a <= cols && (b == |s| || s[b] == ' ')
    ensures ChopAll(Words(s, a, |s|), cols) == Words(s, a, b) + ChopAll(Words(s, b, |s|), cols)
  {
    WordsAtBoundary(s, a, b, |s|);
    WordsAreShort(s, a, b);
    ChopAllOfShort(Words(s, a, b), cols);
    ChopAllAppend(Words(s, a, b), Words(s, b, |s|), cols);
  }

  /** A line that stops inside a word takes one piece off that over-long word. */
  lemma LineInsideWord(s: string, a: nat, b: nat, cols: nat)
    requires 1 <= cols && a < b < |s| && b == a + cols && Run(s, a, b + 1)
    ensures Words(s, a, b) == [s[a..b]]
    ensures ChopAll(Words(s, a, |s|), cols) == Words(s, a, b) + ChopAll(Words(s, b, |s|), cols)
  {
    WordsInside(s, a, b, |s|);
    WordEndIs(s, a + 1, b, b);
    ChopGlued(s[a..b], Words(s, b, |s|), cols);
  }

  lemma WordsToTrail(s: string, a: nat, b: nat)
    requires b <= |s| && a <= Trail(s, b)
    ensures Words(s, a, Trail(s, b)) == Words(s, a, b)
  {
    WordsAtBoundary(s, a, Trail(s, b), b);
    WordsOfBlank(s, Trail(s, b), b);
  }

  lemma LineWords(s: string, a: nat, b: nat, cols: nat)
    requires 1 <= cols && a < |s| && s[a] != ' ' && b == Break(s, a, cols)
    ensures a <= Trail(s, b)
    ensures var l := s[a..Trail(s, b)];
            ChopAll(Words(s, a, |s|), cols) == Words(l, 0, |l|) + ChopAll(Words(s, b, |s|), cols)
  {
    hide Break, ChopAll;
    if b == |s| || s[b] == ' ' {
      LineAtBoundary(s, a, b, cols);
    } else {
      LineInsideWord(s, a, b, cols);
    }
    WordsToTrail(s, a, b);
    hide Run, Words;
    WordsShift(s[a..Trail(s, b)], s, a, 0);
  }

  /**
   What becomes of the words: the words of the lines, in order, are the words of the
   text with each over-long one cut at `cols`-cell offsets from its own start. In
   particular a word that fits is never split, dropped, duplicated or reordered.
   */
  lemma {:induction false} WordsSurvive(s: string, pos: nat, cols: nat)
    requires 1 <= cols && pos <= |s|
    ensures WordsOfLines(Wrap(s, pos, cols)) == ChopAll(Words(s, pos, |s|), cols)
    decreases |s| - pos
  {
    var a := Lead(s, pos);
    WordsOfBlank(s, pos, a);
    if a < |s| {
      WordsSkip(s, pos, a);
      var b := Break(s, a, cols);
      LineWords(s, a, b, cols);
      WordsSurvive(s, b, cols);
      var l := s[a..Trail(s, b)];
      WordsOfCons(l, Wrap(s, b, cols));
    }
  }

  lemma WordsOfCons(l: string, lines: seq<string>)
    ensures WordsOfLines([l] + lines) == Words(l, 0, |l|) + WordsOfLines(lines)
  {
    assert ([l] + lines)[1..] == lines;
  }

  lemma {:induction false} WordsSkip(s: string, i: nat, a: nat)
    requires i <= a <= |s| && forall p :: i <= p < a ==> s[p] == ' '
    ensures Words(s, i, |s|) == Words(s, a, |s|)
    decreases a - i
  {
    if i < a { WordsSkip(s, i + 1, a); }
  }

  // -------------------------------------------------------- every character

  function NonSpaces(s: string): string {
    if s == "" then "" else (if s[0] == ' ' then "" else [s[0]]) + NonSpaces(s[1..])
  }

  function Concat(ss: seq<string>): string {
    if ss == [] then "" else ss[0] + Concat(ss[1..])
  }

  lemma {:induction false} NonSpacesAppend(a: string, b: string)
    ensures NonSpaces(a + b) == NonSpaces(a) + NonSpaces(b)
  {
    if a == "" {
      assert a + b == b;
    } else {
      assert (a + b)[1..] == a[1..] + b;
      NonSpacesAppend(a[1..], b);
    }
  }

  lemma {:induction false} NonSpacesOfRun(w: string)
    requires Run(w, 0, |w|)
    ensures NonSpaces(w) == w
  {
    if w != "" {
      assert Run(w[1..], 0, |w| - 1) by { assert forall p :: 0 <= p < |w| - 1 ==> w[1..][p] == w[p + 1]; }
      NonSpacesOfRun(w[1..]);
    }
  }

  lemma {:induction false} NonSpacesOfWords(s: string, i: nat, j: nat)
    requires i <= j <= |s|
    ensures Concat(Words(s, i, j)) == NonSpaces(s[i..j])
    decreases j - i
  {
    if i < j {
      if s[i] == ' ' {
        assert s[i..j][1..] == s[i + 1..j];
        NonSpacesOfWords(s, i + 1, j);
      } else {
        var e := WordEnd(s, i + 1, j);
        NonSpacesOfWords(s, e, j);
        assert s[i..j] == s[i..e] + s[e..j];
        NonSpacesAppend(s[i..e], s[e..j]);
        NonSpacesOfRun(s[i..e]);
      }
    }
  }

  lemma {:induction false} ConcatAppend(a: seq<string>, b: seq<string>)
    ensures Concat(a + b) == Concat(a) + Concat(b)
  {
    if a == [] {
      assert a + b == b;
    } else {
      assert (a + b)[1..] == a[1..] + b;
      ConcatAppend(a[1..], b);
    }
  }

  lemma {:induction false} ConcatChop(w: string, cols: nat)
    requires 1 <= cols
    ensures Concat(Chop(w, cols)) == w
    decreases |w|
  {
    if |w| > cols {
      ConcatChop(w[cols..], cols);
      assert Chop(w, cols)[1..] == Chop(w[cols..], cols);
      assert w == w[..cols] + w[cols..];
    }
  }

  lemma {:induction false} ConcatChopAll(ws: seq<string>, cols: nat)
    requires 1 <= cols
    ensures Concat(ChopAll(ws, cols)) == Concat(ws)
  {
    if ws != [] {
      ConcatAppend(Chop(ws[0], cols), ChopAll(ws[1..], cols));
      ConcatChop(ws[0], cols);
      ConcatChopAll(ws[1..], cols);
    }
  }

  lemma {:induction false} NonSpacesOfLines(lines: seq<string>)
    ensures Concat(WordsOfLines(lines)) == NonSpaces(Concat(lines))
  {
    if lines != [] {
      var l := lines[0];
      NonSpacesOfLines(lines[1..]);
      ConcatAppend(Words(l, 0, |l|), WordsOfLines(lines[1..]));
      NonSpacesOfWords(l, 0, |l|);
      assert l[0..|l|] == l;
      NonSpacesAppend(l, Concat(lines[1..]));
    }
  }

  /** Every non-space character of the text comes out once, in order. */
  lemma CharactersSurvive(s: string, cols: nat)
    requires 1 <= cols
    ensures NonSpaces(Concat(Wrap(s, 0, cols))) == NonSpaces(s)
  {
    WordsSurvive(s, 0, cols);
    NonSpacesOfLines(Wrap(s, 0, cols));
    NonSpacesOfWords(s, 0, |s|);
    assert s[0..|s|] == s;
    ConcatChopAll(Words(s, 0, |s|), cols);
  }

  // ------------------------------------------------------------- optimality

  /** One line of a wrap: the cells `start..end` of the text. */
  datatype Span = Span(start: nat, end: nat)

  ghost predicate BlankBetween(s: string, i: nat, j: nat) {
    i <= j <= |s| && forall p :: i <= p < j ==> s[p] == ' '
  }

  /** `spans` cover all of `s[pos..]` but spaces, each fits, and none ends inside a word. */
  ghost predicate IsWrap(s: string, pos: nat, cols: nat, spans: seq<Span>)
    decreases |spans|
  {
    if spans == [] then BlankBetween(s, pos, |s|)
    else
      var line := spans[0];
      && BlankBetween(s, pos, line.start)
      && line.start <= line.end <= |s|
      && line.end - line.start <= cols
      && (line.end == |s| || s[line.end] == ' ')
      && IsWrap(s, line.end, cols, spans[1..])
  }

  /**
   Greedy stays ahead: from any point `k` at or after `pos`, wrapping what follows needs
   no more lines than any word-boundary wrap of the text from `pos`.
   */
  lemma {:induction false} GreedyStaysAhead(s: string, pos: nat, k: nat, cols: nat, alt: seq<Span>)
    requires 1 <= cols && pos <= k <= |s|
    requires IsWrap(s, pos, cols, alt)
    ensures |Wrap(s, k, cols)| <= |alt|
    decreases |alt|
  {
    var p := Lead(s, k);
    if p < |s| {
      var e := alt[0].end;
      if p >= e {
        GreedyStaysAhead(s, e, p, cols, alt[1..]);
        assert Lead(s, p) == p;
        assert NextLine(s, p, cols) == NextLine(s, k, cols);
      } else {
        GreedyStaysAhead(s, e, Break(s, p, cols), cols, alt[1..]);
      }
    }
  }

  /** No word-boundary wrap of `s` into lines of `cols` cells has fewer lines. */
  lemma WrapUsesFewestLines(s: string, cols: nat, alt: seq<Span>)
    requires 1 <= cols
    requires IsWrap(s, 0, cols, alt)
    ensures |Wrap(s, 0, cols)| <= |alt|
  {
    GreedyStaysAhead(s, 0, 0, cols, alt);
  }

  /** No `cols + 1` adjacent cells from `pos` on are free of spaces. */
  ghost predicate WordsFit(s: string, pos: nat, cols: nat) {
    forall i :: pos <= i ==> !LongRunAt(s, i, cols)
  }

  ghost predicate LongRunAt(s: string, i: nat, cols: nat) {
    Run(s, i, i + cols + 1)
  }

  /** The wrapper's own lines as spans of the text. */
  function GreedySpans(s: string, pos: nat, cols: nat): seq<Span>
    requires 1 <= cols && pos <= |s|
    decreases |s| - pos
  {
    var a := Lead(s, pos);
    if a == |s| then []
    else var b := Break(s, a, cols); [Span(a, Trail(s, b))] + GreedySpans(s, b, cols)
  }

  /** The pieces of `s` that `spans` mark out. */
  ghost predicate SpansOf(s: string, spans: seq<Span>, lines: seq<string>) {
    |spans| == |lines| && forall i :: 0 <= i < |spans| ==> IsSlice(s, spans[i], lines[i])
  }

  ghost predicate IsSlice(s: string, at: Span, line: string) {
    at.start <= at.end <= |s| && s[at.start..at.end] == line
  }

  lemma {:induction false} GreedySpansOfWrap(s: string, pos: nat, cols: nat)
    requires 1 <= cols && pos <= |s|
    ensures SpansOf(s, GreedySpans(s, pos, cols), Wrap(s, pos, cols))
    decreases |s| - pos
  {
    var a := Lead(s, pos);
    if a < |s| {
      GreedySpansOfWrap(s, Break(s, a, cols), cols);
    }
  }

  /**
   If every word fits, the wrapper's own lines are one of those word-boundary wraps, so
   the bound of `WrapUsesFewestLines` is met.
   */
  lemma {:induction false} GreedySpansAreWrap(s: string, pos: nat, cols: nat)
    requires 1 <= cols && pos <= |s| && WordsFit(s, pos, cols)
    ensures IsWrap(s, pos, cols, GreedySpans(s, pos, cols))
    decreases |s| - pos
  {
    var a := Lead(s, pos);
    if a < |s| {
      var b := Break(s, a, cols);
      assert !LongRunAt(s, a, cols);
      GreedySpansAreWrap(s, b, cols);
      var spans := GreedySpans(s, pos, cols);
      assert spans[0] == Span(a, Trail(s, b)) && spans[1..] == GreedySpans(s, b, cols);
      WrapSkips(s, Trail(s, b), b, cols, spans[1..]);
    }
  }

  lemma WrapSkips(s: string, i: nat, j: nat, cols: nat, spans: seq<Span>)
    requires BlankBetween(s, i, j)
    requires IsWrap(s, j, cols, spans)
    ensures IsWrap(s, i, cols, spans)
  {
  }

  // ------------------------------------------------------------- round trip

  function Join(lines: seq<string>): string {
    if lines == [] then "" else if |lines| == 1 then lines[0] else lines[0] + " " + Join(lines[1..])
  }

  /** From `pos` on: no leading, trailing or doubled space. */
  ghost predicate SingleSpaced(s: string, pos: nat) {
    && (pos < |s| ==> s[pos] != ' ' && s[|s| - 1] != ' ')
    && forall i :: pos < i < |s| && s[i] == ' ' ==> s[i - 1] != ' '
  }

  /** Joining the lines with one space gives back single-spaced text whose words fit. */
  lemma {:induction false} JoinInvertsWrap(s: string, pos: nat, cols: nat)
    requires 1 <= cols && pos <= |s| && SingleSpaced(s, pos) && WordsFit(s, pos, cols)
    ensures Join(Wrap(s, pos, cols)) == s[pos..]
    decreases |s| - pos
  {
    if pos < |s| {
      assert Lead(s, pos) == pos;
      var b := Break(s, pos, cols);
      assert !LongRunAt(s, pos, cols);
      assert Trail(s, b) == b;
      assert Wrap(s, pos, cols) == [s[pos..b]] + Wrap(s, b, cols);
      if b < |s| {
        assert s[b] == ' ' && b + 1 < |s|;
        WrapAfterSpace(s, b, cols);
        JoinInvertsWrap(s, b + 1, cols);
        JoinCons(s[pos..b], Wrap(s, b + 1, cols));
        SplitAtSpace(s, pos, b);
      } else {
        assert Wrap(s, b, cols) == [];
      }
    }
  }

  lemma WrapAfterSpace(s: string, b: nat, cols: nat)
    requires 1 <= cols && b + 1 < |s| && s[b] == ' ' && s[b + 1] != ' '
    ensures Wrap(s, b, cols) == Wrap(s, b + 1, cols) != []
  {
    assert Lead(s, b) == b + 1 == Lead(s, b + 1);
  }

  lemma JoinCons(l: string, rest: seq<string>)
    requires rest != []
    ensures Join([l] + rest) == l + " " + Join(rest)
  {
    assert ([l] + rest)[1..] == rest;
  }

  lemma SplitAtSpace(s: string, pos: nat, b: nat)
    requires pos <= b < |s| && s[b] == ' '
    ensures s[pos..] == s[pos..b] + " " + s[b + 1..]
  {
  }
}
