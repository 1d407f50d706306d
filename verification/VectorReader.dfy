/**
 The reader of the frozen test vectors (`crates/seed-desktop-test/src/vectors.rs`): a
 recursive-descent parser of a JSON subset over a position that only moves forward. A
 panic of the source is the result `None` here, and a byte is the character of its code.

 `ParseValue` and its companions say what each method of `Parser` reads from a position
 and where it stops. The grammar is given independently, as concrete syntax trees and the
 text each one renders to; the parser accepts exactly those texts, with that meaning.
 */
module VectorReader {
  import opened Wrappers

  datatype Json = Obj(pairs: seq<(string, Json)>) | Arr(items: seq<Json>) | Str(text: string) | Num(n: int)

  const I64_MIN: int := -0x8000_0000_0000_0000
  const I64_MAX: int := 0x7FFF_FFFF_FFFF_FFFF

  predicate IsWs(c: char) { c == ' ' || c == '\t' || c == '\n' || c == '\r' }

  predicate IsDigit(c: char) { '0' <= c <= '9' }

  // ------------------------------------------------------------ what is read

  /** The first index from `i` on that holds no whitespace. */
  function AfterWs(s: string, i: nat): (r: nat)
    requires i <= |s|
    ensures i <= r <= |s|
    ensures r < |s| ==> !IsWs(s[r])
    ensures forall k :: i <= k < r ==> IsWs(s[k])
    decreases |s| - i
  {
    if i < |s| && IsWs(s[i]) then AfterWs(s, i + 1) else i
  }

  /** The closing quote of a string whose text begins at `i`. */
  function StringEnd(s: string, i: nat): (r: Option<nat>)
    requires i <= |s|
    ensures r.Some? ==> i <= r.value < |s| && s[r.value] == '"'
    ensures r.Some? ==> forall k :: i <= k < r.value ==> s[k] != '"' && s[k] != '\\'
    decreases |s| - i
  {
    if i == |s| || s[i] == '\\' then None else if s[i] == '"' then Some(i) else StringEnd(s, i + 1)
  }

  function DigitsEnd(s: string, i: nat): (r: nat)
    requires i <= |s|
    ensures i <= r <= |s|
    ensures r < |s| ==> !IsDigit(s[r])
    ensures forall k :: i <= k < r ==> IsDigit(s[k])
    decreases |s| - i
  {
    if i < |s| && IsDigit(s[i]) then DigitsEnd(s, i + 1) else i
  }

  predicate AllDigits(s: string, i: nat, j: nat)
    requires j <= |s|
  {
    forall k :: i <= k < j ==> IsDigit(s[k])
  }

  /** The number the decimal digits from `i` to `j` spell. */
  function Decimal(s: string, i: nat, j: nat): nat
    requires i <= j <= |s| && AllDigits(s, i, j)
    decreases j - i
  {
    if i == j then 0
    else
      assert IsDigit(s[j - 1]);
      10 * Decimal(s, i, j - 1) + (s[j - 1] as int - '0' as int)
  }

  /** From `i` to `j` stand an optional minus sign and one or more digits. */
  predicate IsNumeral(s: string, i: nat, j: nat)
    requires j <= |s|
  {
    i < j && (if s[i] == '-' then i + 1 < j && AllDigits(s, i + 1, j) else AllDigits(s, i, j))
  }

  function Numeral(s: string, i: nat, j: nat): int
    requires j <= |s| && IsNumeral(s, i, j)
  {
    if s[i] == '-' then 0 - (Decimal(s, i + 1, j) as int) else Decimal(s, i, j)
  }

  predicate IsI64(n: int) { I64_MIN <= n <= I64_MAX }

  /** `parse::<i64>` on a text that does not start with a plus sign. */
  function ParseI64(s: string, i: nat, j: nat): Option<int>
    requires j <= |s|
  {
    if IsNumeral(s, i, j) && IsI64(Numeral(s, i, j)) then Some(Numeral(s, i, j)) else None
  }

  /** The characters from `i` to `j`. */
  function Span(s: string, i: nat, j: nat): string
    requires i <= j <= |s|
    decreases j - i
  {
    if i == j then "" else Span(s, i, j - 1) + [s[j - 1]]
  }

  type Read<T> = Option<(T, nat)>

  function ParseString(s: string, p: nat): (r: Read<string>)
    requires p < |s| && s[p] == '"'
    ensures r.Some? ==> p < r.value.1 <= |s|
  {
    match StringEnd(s, p + 1)
    case None => None
    case Some(e) => Some((Span(s, p + 1, e), e + 1))
  }

  function ParseNumber(s: string, p: nat): (r: Read<Json>)
    requires p < |s| && (s[p] == '-' || IsDigit(s[p]))
    ensures r.Some? ==> p < r.value.1 <= |s|
  {
    var e := DigitsEnd(s, p + 1);
    match ParseI64(s, p, e)
    case None => None
    case Some(n) => Some((Num(n), e))
  }

  function ParseValue(s: string, pos: nat): (r: Read<Json>)
    requires pos <= |s|
    ensures r.Some? ==> pos < r.value.1 <= |s|
    decreases |s| - pos, 2
  {
    var p := AfterWs(s, pos);
    if p == |s| then None
    else if s[p] == '{' then ParseObject(s, p)
    else if s[p] == '[' then ParseArray(s, p)
    else if s[p] == '"' then (match ParseString(s, p) case None => None case Some(t) => Some((Str(t.0), t.1)))
    else if s[p] == '-' || IsDigit(s[p]) then ParseNumber(s, p)
    else None
  }

  function ParseArray(s: string, p: nat): (r: Read<Json>)
    requires p < |s|
    ensures r.Some? ==> p < r.value.1 <= |s|
    decreases |s| - p, 1
  {
    var q := AfterWs(s, p + 1);
    if q == |s| then None
    else if s[q] == ']' then Some((Arr([]), q + 1))
    else
      match ParseItems(s, q)
      case None => None
      case Some(t) => Some((Arr(t.0), t.1))
  }

  /** One or more values separated by commas, and the closing bracket. */
  function ParseItems(s: string, pos: nat): (r: Read<seq<Json>>)
    requires pos <= |s|
    ensures r.Some? ==> pos < r.value.1 <= |s|
    decreases |s| - pos, 3
  {
    match ParseValue(s, pos)
    case None => None
    case Some(v) =>
      var q := AfterWs(s, v.1);
      if q == |s| then None
      else if s[q] == ',' then Prepend(v.0, ParseItems(s, q + 1))
      else if s[q] == ']' then Some(([v.0], q + 1))
      else None
  }

  function Prepend<T>(v: T, r: Read<seq<T>>): Read<seq<T>> {
    match r case None => None case Some(t) => Some(([v] + t.0, t.1))
  }

  function ParseObject(s: string, p: nat): (r: Read<Json>)
    requires p < |s|
    ensures r.Some? ==> p < r.value.1 <= |s|
    decreases |s| - p, 1
  {
    var q := AfterWs(s, p + 1);
    if q == |s| then None
    else if s[q] == '}' then Some((Obj([]), q + 1))
    else
      match ParsePairs(s, q)
      case None => None
      case Some(t) => Some((Obj(t.0), t.1))
  }

  /** A key, a colon and a value. */
  function ParsePair(s: string, pos: nat): (r: Read<(string, Json)>)
    requires pos <= |s|
    ensures r.Some? ==> pos < r.value.1 <= |s|
    decreases |s| - pos, 2
  {
    var p := AfterWs(s, pos);
    if p == |s| || s[p] != '"' then None
    else
      match ParseString(s, p)
      case None => None
      case Some(key) =>
        var c := AfterWs(s, key.1);
        if c == |s| || s[c] != ':' then None
        else
          match ParseValue(s, c + 1)
          case None => None
          case Some(v) => Some(((key.0, v.0), v.1))
  }

  /** One or more pairs separated by commas, and the closing brace. */
  function ParsePairs(s: string, pos: nat): (r: Read<seq<(string, Json)>>)
    requires pos <= |s|
    ensures r.Some? ==> pos < r.value.1 <= |s|
    decreases |s| - pos, 3
  {
    match ParsePair(s, pos)
    case None => None
    case Some(v) =>
      var q := AfterWs(s, v.1);
      if q == |s| then None
      else if s[q] == ',' then Prepend(v.0, ParsePairs(s, q + 1))
      else if s[q] == '}' then Some(([v.0], q + 1))
      else None
  }

  /** A whole document: one value, then nothing but whitespace. */
  function ParseDocument(s: string): Option<Json> {
    match ParseValue(s, 0)
    case None => None
    case Some(v) => if AfterWs(s, v.1) == |s| then Some(v.0) else None
  }

  // ------------------------------------------------------------ the grammar

  /** Nothing but spaces, tabs, line feeds and carriage returns. */
  predicate AllWs(t: string) {
    forall k :: 0 <= k < |t| ==> t[k] == ' ' || t[k] == '\t' || t[k] == '\n' || t[k] == '\r'
  }

  /** What a string literal may hold: anything but a quote or a backslash. */
  predicate Plain(t: string) { forall k :: 0 <= k < |t| ==> t[k] != '"' && t[k] != '\\' }

  /** A spelling of a value, with the whitespace in front of each of its tokens. */
  datatype Text =
    | StrText(ws: string, body: string)
    | NumText(ws: string, lexeme: string)
    | EmptyArr(ws: string, inner: string)
    | ArrText(ws: string, items: Items)
    | EmptyObj(ws: string, inner: string)
    | ObjText(ws: string, pairs: Pairs)

  datatype Items = LastItem(v: Text, gap: string) | MoreItems(v: Text, gap: string, rest: Items)

  datatype Pairs = LastPair(p: Pair, gap: string) | MorePairs(p: Pair, gap: string, rest: Pairs)

  datatype Pair = Pair(kws: string, key: string, cws: string, v: Text)

  predicate WellFormed(c: Text)
    decreases c
  {
    && AllWs(c.ws)
    && match c
       case StrText(_, body) => Plain(body)
       case NumText(_, lexeme) => IsNumeral(lexeme, 0, |lexeme|) && IsI64(Numeral(lexeme, 0, |lexeme|))
       case EmptyArr(_, inner) => AllWs(inner)
       case ArrText(_, items) => WellFormedItems(items)
       case EmptyObj(_, inner) => AllWs(inner)
       case ObjText(_, pairs) => WellFormedPairs(pairs)
  }

  predicate WellFormedItems(c: Items)
    decreases c
  {
    WellFormed(c.v) && AllWs(c.gap) && (c.MoreItems? ==> WellFormedItems(c.rest))
  }

  predicate WellFormedPair(c: Pair)
    decreases c
  {
    AllWs(c.kws) && Plain(c.key) && AllWs(c.cws) && WellFormed(c.v)
  }

  predicate WellFormedPairs(c: Pairs)
    decreases c
  {
    WellFormedPair(c.p) && AllWs(c.gap) && (c.MorePairs? ==> WellFormedPairs(c.rest))
  }

  // The length of each spelling, and where its parts stand.

  function Size(c: Text): nat
    decreases c
  {
    |c.ws| + match c
      case StrText(_, body) => |body| + 2
      case NumText(_, lexeme) => |lexeme|
      case EmptyArr(_, inner) => |inner| + 2
      case ArrText(_, items) => 1 + ItemsSize(items)
      case EmptyObj(_, inner) => |inner| + 2
      case ObjText(_, pairs) => 1 + PairsSize(pairs)
  }

  function ItemsSize(c: Items): nat
    decreases c
  {
    Size(c.v) + |c.gap| + 1 + if c.LastItem? then 0 else ItemsSize(c.rest)
  }

  function PairSize(c: Pair): nat
    decreases c
  {
    |c.kws| + |c.key| + 2 + |c.cws| + 1 + Size(c.v)
  }

  function PairsSize(c: Pairs): nat
    decreases c
  {
    PairSize(c.p) + |c.gap| + 1 + if c.LastPair? then 0 else PairsSize(c.rest)
  }

  function Render(c: Text): (t: string)
    ensures |t| == Size(c)
    decreases c, 1
  {
    c.ws + Body(c)
  }

  function Body(c: Text): (t: string)
    ensures |c.ws| + |t| == Size(c)
    decreases c, 0
  {
    match c
    case StrText(_, body) => "\"" + (body + "\"")
    case NumText(_, lexeme) => lexeme
    case EmptyArr(_, inner) => "[" + (inner + "]")
    case ArrText(_, items) => "[" + RenderItems(items)
    case EmptyObj(_, inner) => "{" + (inner + "}")
    case ObjText(_, pairs) => "{" + RenderPairs(pairs)
  }

  function RenderItems(c: Items): (t: string)
    ensures |t| == ItemsSize(c)
    decreases c, 0
  {
    if c.LastItem? then Render(c.v) + (c.gap + "]") else Render(c.v) + (c.gap + ("," + RenderItems(c.rest)))
  }

  function RenderPair(c: Pair): (t: string)
    ensures |t| == PairSize(c)
    decreases c, 0
  {
    c.kws + ("\"" + (c.key + ("\"" + (c.cws + (":" + Render(c.v))))))
  }

  function RenderPairs(c: Pairs): (t: string)
    ensures |t| == PairsSize(c)
    decreases c, 0
  {
    if c.LastPair? then RenderPair(c.p) + (c.gap + "}") else RenderPair(c.p) + (c.gap + ("," + RenderPairs(c.rest)))
  }

  /** The value a spelling stands for. */
  function Meaning(c: Text): Json
    requires WellFormed(c)
    decreases c
  {
    match c
    case StrText(_, body) => Str(body)
    case NumText(_, lexeme) => Num(Numeral(lexeme, 0, |lexeme|))
    case EmptyArr(_, _) => Arr([])
    case ArrText(_, items) => Arr(ItemsMeaning(items))
    case EmptyObj(_, _) => Obj([])
    case ObjText(_, pairs) => Obj(PairsMeaning(pairs))
  }

  function ItemsMeaning(c: Items): seq<Json>
    requires WellFormedItems(c)
    decreases c
  {
    if c.LastItem? then [Meaning(c.v)] else [Meaning(c.v)] + ItemsMeaning(c.rest)
  }

  function PairMeaning(c: Pair): (string, Json)
    requires WellFormedPair(c)
    decreases c
  {
    (c.key, Meaning(c.v))
  }

  function PairsMeaning(c: Pairs): seq<(string, Json)>
    requires WellFormedPairs(c)
    decreases c
  {
    if c.LastPair? then [PairMeaning(c.p)] else [PairMeaning(c.p)] + PairsMeaning(c.rest)
  }

  // What numerals are, said again on whole texts.

  /** One or more decimal digits, behind at most one minus sign. */
  predicate IsNumberText(t: string) {
    if t != "" && t[0] == '-' then AreDigits(t[1..]) else AreDigits(t)
  }

  predicate AreDigits(t: string) { t != "" && forall k :: 0 <= k < |t| ==> t[k] in "0123456789" }

  /** The number the digits of `t` spell in base ten. */
  function Worth(t: string): int {
    if t == "" then 0 else 10 * Worth(t[..|t| - 1]) + (t[|t| - 1] as int - 48)
  }

  function NumberOf(t: string): int {
    if t != "" && t[0] == '-' then -Worth(t[1..]) else Worth(t)
  }

  /** A numeral is such a text, stands for its number, and is read when that fits 64 bits. */
  lemma NumeralsAreNumbers(t: string)
    ensures IsNumeral(t, 0, |t|) <==> IsNumberText(t)
    ensures IsNumberText(t) ==> Numeral(t, 0, |t|) == NumberOf(t)
    ensures ParseI64(t, 0, |t|) == if IsNumberText(t) && -0x8000_0000_0000_0000 <= NumberOf(t) <= 0x7FFF_FFFF_FFFF_FFFF
                                   then Some(NumberOf(t)) else None
  {
    var from := if t != "" && t[0] == '-' then 1 else 0;
    var digits := t[from..];
    assert t[0..] == t && t[from..|t|] == digits;
    assert IsNumberText(t) <==> AreDigits(digits);
    hide IsDigit;
    if IsNumeral(t, 0, |t|) {
      assert AllDigits(t, from, |t|);
      forall k | 0 <= k < |digits| ensures digits[k] in "0123456789" {
        assert digits[k] == t[from + k];
        DigitLetter(t[from + k]);
      }
    }
    if IsNumberText(t) {
      forall k | from <= k < |t| ensures IsDigit(t[k]) {
        var d := digits[k - from];
        assert t[k] == d && d in "0123456789";
        DigitLetter(d);
      }
      WorthAt(t, from, |t|);
    }
  }

  lemma DigitLetter(c: char)
    ensures c in "0123456789" <==> IsDigit(c)
  {
  }

  lemma {:induction false} WorthAt(t: string, i: nat, j: nat)
    requires i <= j <= |t| && AllDigits(t, i, j)
    ensures Decimal(t, i, j) == Worth(t[i..j])
  {
    if i < j {
      assert t[i..j][..j - 1 - i] == t[i..j - 1];
      WorthAt(t, i, j - 1);
    }
  }

  // ------------------------------------------------------------ text at a position

  /** The text `t` stands in `s` at `pos`. */
  predicate At(s: string, pos: nat, t: string) {
    pos + |t| <= |s| && forall k :: 0 <= k < |t| ==> s[pos + k] == t[k]
  }

  predicate CharAt(s: string, pos: nat, c: char) { pos < |s| && s[pos] == c }

  /** A spelling stands in `s` at `pos`, said part by part. */
  predicate Stands(s: string, pos: nat, c: Text)
    decreases c
  {
    var p := pos + |c.ws|;
    && At(s, pos, c.ws)
    && match c
       case StrText(_, body) => CharAt(s, p, '"') && At(s, p + 1, body) && CharAt(s, p + 1 + |body|, '"')
       case NumText(_, lexeme) => At(s, p, lexeme)
       case EmptyArr(_, inner) => CharAt(s, p, '[') && At(s, p + 1, inner) && CharAt(s, p + 1 + |inner|, ']')
       case ArrText(_, items) => CharAt(s, p, '[') && StandItems(s, p + 1, items)
       case EmptyObj(_, inner) => CharAt(s, p, '{') && At(s, p + 1, inner) && CharAt(s, p + 1 + |inner|, '}')
       case ObjText(_, pairs) => CharAt(s, p, '{') && StandPairs(s, p + 1, pairs)
  }

  predicate StandItems(s: string, pos: nat, c: Items)
    decreases c
  {
    var q := pos + Size(c.v);
    var r := q + |c.gap|;
    && Stands(s, pos, c.v) && At(s, q, c.gap)
    && if c.LastItem? then CharAt(s, r, ']') else CharAt(s, r, ',') && StandItems(s, r + 1, c.rest)
  }

  predicate StandsPair(s: string, pos: nat, c: Pair)
    decreases c
  {
    var p := pos + |c.kws|;
    var q := p + |c.key| + 2;
    && At(s, pos, c.kws) && CharAt(s, p, '"') && At(s, p + 1, c.key) && CharAt(s, p + 1 + |c.key|, '"')
    && At(s, q, c.cws) && CharAt(s, q + |c.cws|, ':') && Stands(s, q + |c.cws| + 1, c.v)
  }

  predicate StandPairs(s: string, pos: nat, c: Pairs)
    decreases c
  {
    var q := pos + PairSize(c.p);
    var r := q + |c.gap|;
    && StandsPair(s, pos, c.p) && At(s, q, c.gap)
    && if c.LastPair? then CharAt(s, r, '}') else CharAt(s, r, ',') && StandPairs(s, r + 1, c.rest)
  }

  lemma AtSplit(s: string, pos: nat, a: string, b: string)
    ensures At(s, pos, a + b) <==> At(s, pos, a) && At(s, pos + |a|, b)
  {
    var t := a + b;
    if At(s, pos, t) {
      forall k | 0 <= k < |a| ensures s[pos + k] == a[k] { assert t[k] == a[k]; }
      forall k | 0 <= k < |b| ensures s[pos + |a| + k] == b[k] { assert t[|a| + k] == b[k]; }
    }
    if At(s, pos, a) && At(s, pos + |a|, b) {
      forall k | 0 <= k < |t| ensures s[pos + k] == t[k] {
        if k >= |a| { assert t[k] == b[k - |a|]; }
      }
    }
  }

  lemma AtChar(s: string, pos: nat, c: char)
    ensures At(s, pos, [c]) <==> CharAt(s, pos, c)
  {
    if At(s, pos, [c]) { assert [c][0] == s[pos + 0]; }
  }

  /** A character and a text behind it. */
  lemma AtCons(s: string, pos: nat, c: char, t: string)
    ensures At(s, pos, [c] + t) <==> CharAt(s, pos, c) && At(s, pos + 1, t)
  {
    AtSplit(s, pos, [c], t);
    AtChar(s, pos, c);
  }

  /** A text between two single characters. */
  lemma AtQuoted(s: string, pos: nat, open: char, t: string, close: char)
    ensures At(s, pos, [open] + (t + [close]))
      <==> CharAt(s, pos, open) && At(s, pos + 1, t) && CharAt(s, pos + 1 + |t|, close)
  {
    AtCons(s, pos, open, t + [close]);
    AtSplit(s, pos + 1, t, [close]);
    AtChar(s, pos + 1 + |t|, close);
  }

  /** A text, a character and a text. */
  lemma AtThen(s: string, pos: nat, a: string, c: char, b: string)
    ensures At(s, pos, a + ([c] + b)) <==> At(s, pos, a) && CharAt(s, pos + |a|, c) && At(s, pos + |a| + 1, b)
  {
    AtSplit(s, pos, a, [c] + b);
    AtCons(s, pos + |a|, c, b);
  }

  lemma AtLast(s: string, pos: nat, a: string, gap: string, close: char)
    ensures
      var q := pos + |a|;
      At(s, pos, a + (gap + [close])) <==> At(s, pos, a) && At(s, q, gap) && CharAt(s, q + |gap|, close)
  {
    AtSplit(s, pos, a, gap + [close]);
    AtSplit(s, pos + |a|, gap, [close]);
    AtChar(s, pos + |a| + |gap|, close);
  }

  lemma AtMore(s: string, pos: nat, a: string, gap: string, sep: char, rest: string)
    ensures
      var q := pos + |a|;
      var r := q + |gap|;
      At(s, pos, a + (gap + ([sep] + rest))) <==>
        At(s, pos, a) && At(s, q, gap) && CharAt(s, r, sep) && At(s, r + 1, rest)
  {
    AtSplit(s, pos, a, gap + ([sep] + rest));
    AtThen(s, pos + |a|, gap, sep, rest);
  }

  /** The parts of a spelling stand in place exactly where its text does. */
  lemma {:induction false} StandsIsText(s: string, pos: nat, c: Text)
    ensures Stands(s, pos, c) <==> At(s, pos, Render(c))
    decreases c
  {
    hide At;
    var p := pos + |c.ws|;
    AtSplit(s, pos, c.ws, Body(c));
    match c
    case StrText(_, body) => AtQuoted(s, p, '"', body, '"');
    case NumText(_, _) =>
    case EmptyArr(_, inner) => AtQuoted(s, p, '[', inner, ']');
    case ArrText(_, items) =>
      AtCons(s, p, '[', RenderItems(items));
      ItemsStandIsText(s, p + 1, items);
    case EmptyObj(_, inner) => AtQuoted(s, p, '{', inner, '}');
    case ObjText(_, pairs) =>
      AtCons(s, p, '{', RenderPairs(pairs));
      PairsStandIsText(s, p + 1, pairs);
  }

  lemma {:induction false} ItemsStandIsText(s: string, pos: nat, c: Items)
    ensures StandItems(s, pos, c) <==> At(s, pos, RenderItems(c))
    decreases c
  {
    hide At;
    StandsIsText(s, pos, c.v);
    if c.LastItem? {
      AtLast(s, pos, Render(c.v), c.gap, ']');
    } else {
      AtMore(s, pos, Render(c.v), c.gap, ',', RenderItems(c.rest));
      ItemsStandIsText(s, pos + Size(c.v) + |c.gap| + 1, c.rest);
    }
  }

  lemma PairText(s: string, pos: nat, kws: string, key: string, cws: string, value: string)
    ensures var p := pos + |kws|;
      var q := p + |key| + 2;
      At(s, pos, kws + ("\"" + (key + ("\"" + (cws + (":" + value)))))) <==>
      && At(s, pos, kws) && CharAt(s, p, '"') && At(s, p + 1, key) && CharAt(s, p + 1 + |key|, '"')
      && At(s, q, cws) && CharAt(s, q + |cws|, ':') && At(s, q + |cws| + 1, value)
  {
    var p := pos + |kws|;
    var tail := cws + (":" + value);
    AtThen(s, pos, kws, '"', key + ("\"" + tail));
    AtThen(s, p + 1, key, '"', tail);
    AtThen(s, p + |key| + 2, cws, ':', value);
  }

  lemma {:induction false} PairStandsIsText(s: string, pos: nat, c: Pair)
    ensures StandsPair(s, pos, c) <==> At(s, pos, RenderPair(c))
    decreases c
  {
    hide At;
    var q := pos + |c.kws| + |c.key| + 2;
    PairText(s, pos, c.kws, c.key, c.cws, Render(c.v));
    StandsIsText(s, q + |c.cws| + 1, c.v);
  }

  lemma {:induction false} PairsStandIsText(s: string, pos: nat, c: Pairs)
    ensures StandPairs(s, pos, c) <==> At(s, pos, RenderPairs(c))
    decreases c
  {
    hide At;
    PairStandsIsText(s, pos, c.p);
    if c.LastPair? {
      AtLast(s, pos, RenderPair(c.p), c.gap, '}');
    } else {
      AtMore(s, pos, RenderPair(c.p), c.gap, ',', RenderPairs(c.rest));
      PairsStandIsText(s, pos + PairSize(c.p) + |c.gap| + 1, c.rest);
    }
  }

  // ------------------------------------------------------------ every spelling is read

  lemma DigitsAt(s: string, pos: nat, t: string, i: nat)
    requires At(s, pos, t) && i <= |t|
    ensures AllDigits(s, pos + i, pos + |t|) <==> AllDigits(t, i, |t|)
  {
    if AllDigits(s, pos + i, pos + |t|) {
      forall k | i <= k < |t| ensures IsDigit(t[k]) { assert IsDigit(s[pos + k]); }
    }
    if AllDigits(t, i, |t|) {
      forall k | pos + i <= k < pos + |t| ensures IsDigit(s[k]) { assert t[k - pos] == s[pos + (k - pos)]; }
    }
  }

  lemma {:induction false} DecimalAt(s: string, pos: nat, t: string, i: nat, j: nat)
    requires At(s, pos, t) && i <= j <= |t| && AllDigits(t, i, j) && AllDigits(s, pos + i, pos + j)
    ensures Decimal(s, pos + i, pos + j) == Decimal(t, i, j)
  {
    if i < j {
      DecimalAt(s, pos, t, i, j - 1);
      assert t[j - 1] == s[pos + (j - 1)];
    }
  }

  lemma NumeralAt(s: string, pos: nat, t: string)
    requires At(s, pos, t)
    ensures ParseI64(s, pos, pos + |t|) == ParseI64(t, 0, |t|)
  {
    if t != "" {
      assert t[0] == s[pos + 0];
      DigitsAt(s, pos, t, 0);
      DigitsAt(s, pos, t, 1);
      if t[0] == '-' {
        if AllDigits(t, 1, |t|) { DecimalAt(s, pos, t, 1, |t|); }
      } else if AllDigits(t, 0, |t|) {
        DecimalAt(s, pos, t, 0, |t|);
      }
    }
  }

  lemma SkipPast(s: string, pos: nat, ws: string)
    requires At(s, pos, ws) && AllWs(ws)
    requires pos + |ws| < |s| ==> !IsWs(s[pos + |ws|])
    ensures AfterWs(s, pos) == pos + |ws|
  {
    forall k | pos <= k < pos + |ws| ensures IsWs(s[k]) { assert ws[k - pos] == s[pos + (k - pos)]; }
  }

  lemma {:induction false} StringEndIs(s: string, i: nat, e: nat)
    requires i <= e < |s| && s[e] == '"'
    requires forall k :: i <= k < e ==> s[k] != '"' && s[k] != '\\'
    ensures StringEnd(s, i) == Some(e)
    decreases e - i
  {
    if i < e { StringEndIs(s, i + 1, e); }
  }

  /** A value read after whitespace is the value read from its first character. */
  lemma ValueAfterGap(s: string, pos: nat)
    requires pos <= |s|
    ensures ParseValue(s, pos) == ParseValue(s, AfterWs(s, pos))
    ensures ParseValue(s, pos).Some? ==> AfterWs(s, pos) < |s| && s[AfterWs(s, pos)] != ']'
  {
    SkipPast(s, AfterWs(s, pos), "");
  }

  lemma ItemsAfterGap(s: string, pos: nat)
    requires pos <= |s|
    ensures ParseItems(s, pos) == ParseItems(s, AfterWs(s, pos))
    ensures ParseItems(s, pos).Some? ==> AfterWs(s, pos) < |s| && s[AfterWs(s, pos)] != ']'
  {
    hide ParseValue;
    ValueAfterGap(s, pos);
  }

  lemma PairAfterGap(s: string, pos: nat)
    requires pos <= |s|
    ensures ParsePair(s, pos) == ParsePair(s, AfterWs(s, pos))
    ensures ParsePair(s, pos).Some? ==> AfterWs(s, pos) < |s| && s[AfterWs(s, pos)] == '"'
  {
    SkipPast(s, AfterWs(s, pos), "");
  }

  lemma PairsAfterGap(s: string, pos: nat)
    requires pos <= |s|
    ensures ParsePairs(s, pos) == ParsePairs(s, AfterWs(s, pos))
    ensures ParsePairs(s, pos).Some? ==> AfterWs(s, pos) < |s| && s[AfterWs(s, pos)] == '"'
  {
    hide ParsePair;
    PairAfterGap(s, pos);
  }

  lemma StringAt(s: string, pos: nat, body: string)
    requires At(s, pos, body) && Plain(body)
    ensures forall k :: pos <= k < pos + |body| ==> s[k] != '"' && s[k] != '\\'
  {
    forall k | pos <= k < pos + |body| ensures s[k] != '"' && s[k] != '\\' {
      assert body[k - pos] == s[pos + (k - pos)];
    }
  }

  lemma {:induction false} SpanAt(s: string, pos: nat, t: string, j: nat)
    requires At(s, pos, t) && j <= |t|
    ensures Span(s, pos, pos + j) == t[..j]
  {
    if j > 0 {
      SpanAt(s, pos, t, j - 1);
      assert t[j - 1] == s[pos + (j - 1)];
    }
  }

  /** Past whitespace stands the next token, and a digit follows nothing but a token. */
  lemma PastGap(s: string, pos: nat, gap: string, c: char)
    requires At(s, pos, gap) && AllWs(gap) && CharAt(s, pos + |gap|, c) && !IsWs(c)
    ensures AfterWs(s, pos) == pos + |gap|
    ensures !IsDigit(c) ==> !IsDigit(s[pos])
  {
    SkipPast(s, pos, gap);
    if gap != "" { assert gap[0] == s[pos + 0] && IsWs(gap[0]); }
  }

  lemma ReadsString(s: string, p: nat, body: string)
    requires CharAt(s, p, '"') && At(s, p + 1, body) && CharAt(s, p + 1 + |body|, '"') && Plain(body)
    ensures ParseString(s, p) == Some((body, p + |body| + 2))
  {
    StringAt(s, p + 1, body);
    StringEndIs(s, p + 1, p + 1 + |body|);
    SpanAt(s, p + 1, body, |body|);
    assert body[..|body|] == body;
  }

  /** A number is read to its end when no further digit follows it. */
  lemma ReadsNumber(s: string, p: nat, t: string)
    requires At(s, p, t) && IsNumeral(t, 0, |t|) && IsI64(Numeral(t, 0, |t|))
    requires p + |t| < |s| ==> !IsDigit(s[p + |t|])
    ensures p < |s| && (s[p] == '-' || IsDigit(s[p]))
    ensures ParseNumber(s, p) == Some((Num(Numeral(t, 0, |t|)), p + |t|))
  {
    assert t[0] == s[p + 0];
    var e := DigitsEnd(s, p + 1);
    forall k | p < k < p + |t| ensures IsDigit(s[k]) { assert t[k - p] == s[p + (k - p)]; }
    assert e == p + |t|;
    NumeralAt(s, p, t);
  }

  lemma ArrayStep(s: string, p: nat, vs: seq<Json>, e: nat)
    requires p < |s| && ParseItems(s, p + 1) == Some((vs, e))
    ensures ParseArray(s, p) == Some((Arr(vs), e))
  {
    hide ParseItems;
    ItemsAfterGap(s, p + 1);
  }

  lemma ObjectStep(s: string, p: nat, vs: seq<(string, Json)>, e: nat)
    requires p < |s| && ParsePairs(s, p + 1) == Some((vs, e))
    ensures ParseObject(s, p) == Some((Obj(vs), e))
  {
    hide ParsePairs;
    PairsAfterGap(s, p + 1);
  }

  lemma ItemsStep(s: string, pos: nat, v: Json, q: nat, gap: string)
    requires pos <= |s| && ParseValue(s, pos) == Some((v, q)) && At(s, q, gap) && AllWs(gap)
    ensures CharAt(s, q + |gap|, ']') ==> ParseItems(s, pos) == Some(([v], q + |gap| + 1))
    ensures CharAt(s, q + |gap|, ',') ==> ParseItems(s, pos) == Prepend(v, ParseItems(s, q + |gap| + 1))
  {
    hide ParseValue;
    var r := q + |gap|;
    if CharAt(s, r, ']') || CharAt(s, r, ',') { SkipPast(s, q, gap); }
  }

  lemma PairStep(s: string, pos: nat, c: Pair, v: Json, e: nat)
    requires pos <= |s| && WellFormedPair(c) && StandsPair(s, pos, c)
    requires ParseValue(s, pos + PairSize(c) - Size(c.v)) == Some((v, e))
    ensures ParsePair(s, pos) == Some(((c.key, v), e))
  {
    hide ParseValue, ParseString;
    var p := pos + |c.kws|;
    PastGap(s, pos, c.kws, '"');
    ReadsString(s, p, c.key);
    PastGap(s, p + |c.key| + 2, c.cws, ':');
  }

  lemma PairsStep(s: string, pos: nat, v: (string, Json), q: nat, gap: string)
    requires pos <= |s| && ParsePair(s, pos) == Some((v, q)) && At(s, q, gap) && AllWs(gap)
    ensures CharAt(s, q + |gap|, '}') ==> ParsePairs(s, pos) == Some(([v], q + |gap| + 1))
    ensures CharAt(s, q + |gap|, ',') ==> ParsePairs(s, pos) == Prepend(v, ParsePairs(s, q + |gap| + 1))
  {
    hide ParsePair;
    var r := q + |gap|;
    if CharAt(s, r, '}') || CharAt(s, r, ',') { SkipPast(s, q, gap); }
  }

  /** What is read at the first character of a value is the value. */
  lemma ValueStep(s: string, pos: nat, ws: string, p: nat)
    requires At(s, pos, ws) && AllWs(ws) && p == pos + |ws| < |s| && !IsWs(s[p])
    ensures ParseValue(s, pos) ==
      match s[p]
      case '{' => ParseObject(s, p)
      case '[' => ParseArray(s, p)
      case '"' => (match ParseString(s, p) case None => None case Some(t) => Some((Str(t.0), t.1)))
      case c => if c == '-' || IsDigit(c) then ParseNumber(s, p) else None
  {
    hide ParseObject, ParseArray, ParseString, ParseNumber;
    SkipPast(s, pos, ws);
  }

  lemma ReadsEmpty(s: string, p: nat, inner: string)
    requires p < |s| && At(s, p + 1, inner) && AllWs(inner)
    ensures CharAt(s, p + 1 + |inner|, ']') ==> ParseArray(s, p) == Some((Arr([]), p + 2 + |inner|))
    ensures CharAt(s, p + 1 + |inner|, '}') ==> ParseObject(s, p) == Some((Obj([]), p + 2 + |inner|))
  {
    var q := p + 1 + |inner|;
    if CharAt(s, q, ']') || CharAt(s, q, '}') { SkipPast(s, p + 1, inner); }
  }

  /** No digit stands where a gap and a token that is none stand. */
  lemma NoDigit(s: string, pos: nat, gap: string)
    requires At(s, pos, gap) && AllWs(gap)
    requires pos + |gap| < |s| && !IsDigit(s[pos + |gap|])
    ensures !IsDigit(s[pos])
  {
    if gap != "" { assert gap[0] == s[pos + 0] && IsWs(gap[0]); }
  }

  /** A spelling is read in full and for its meaning wherever no digit follows it. */
  lemma {:induction false} Reads(s: string, pos: nat, c: Text)
    requires WellFormed(c) && Stands(s, pos, c)
    requires pos + Size(c) < |s| ==> !IsDigit(s[pos + Size(c)])
    ensures pos <= |s| && ParseValue(s, pos) == Some((Meaning(c), pos + Size(c)))
    decreases c
  {
    hide ParseValue, ParseObject, ParseArray, ParseString, ParseNumber, ParseItems, ParsePairs, At;
    var p := pos + |c.ws|;
    match c
    case StrText(_, body) =>
      ValueStep(s, pos, c.ws, p);
      ReadsString(s, p, body);
    case NumText(_, lexeme) =>
      ReadsNumber(s, p, lexeme);
      ValueStep(s, pos, c.ws, p);
    case EmptyArr(_, inner) =>
      ValueStep(s, pos, c.ws, p);
      ReadsEmpty(s, p, inner);
    case ArrText(_, items) =>
      ValueStep(s, pos, c.ws, p);
      ReadsItems(s, p + 1, items);
      ArrayStep(s, p, ItemsMeaning(items), p + 1 + ItemsSize(items));
    case EmptyObj(_, inner) =>
      ValueStep(s, pos, c.ws, p);
      ReadsEmpty(s, p, inner);
    case ObjText(_, pairs) =>
      ValueStep(s, pos, c.ws, p);
      ReadsPairs(s, p + 1, pairs);
      ObjectStep(s, p, PairsMeaning(pairs), p + 1 + PairsSize(pairs));
  }

  lemma {:induction false} ReadsItems(s: string, pos: nat, c: Items)
    requires WellFormedItems(c) && StandItems(s, pos, c)
    ensures pos <= |s| && ParseItems(s, pos) == Some((ItemsMeaning(c), pos + ItemsSize(c)))
    decreases c
  {
    hide ParseValue, ParseItems, At;
    var q := pos + Size(c.v);
    NoDigit(s, q, c.gap);
    Reads(s, pos, c.v);
    ItemsStep(s, pos, Meaning(c.v), q, c.gap);
    if c.MoreItems? { ReadsItems(s, q + |c.gap| + 1, c.rest); }
  }

  lemma {:induction false} ReadsPairs(s: string, pos: nat, c: Pairs)
    requires WellFormedPairs(c) && StandPairs(s, pos, c)
    ensures pos <= |s| && ParsePairs(s, pos) == Some((PairsMeaning(c), pos + PairsSize(c)))
    decreases c
  {
    hide ParseValue, ParsePair, ParsePairs, At;
    var q := pos + PairSize(c.p);
    NoDigit(s, q, c.gap);
    Reads(s, q - Size(c.p.v), c.p.v);
    PairStep(s, pos, c.p, Meaning(c.p.v), q);
    PairsStep(s, pos, PairMeaning(c.p), q, c.gap);
    if c.MorePairs? { ReadsPairs(s, q + |c.gap| + 1, c.rest); }
  }

  // ------------------------------------------------------------ only spellings are read

  /** A span stands where it was taken. */
  lemma {:induction false} SpanStands(s: string, i: nat, j: nat)
    requires i <= j <= |s|
    ensures |Span(s, i, j)| == j - i && At(s, i, Span(s, i, j))
    decreases j - i
  {
    if i < j { SpanStands(s, i, j - 1); }
  }

  /** The whitespace that is skipped. */
  lemma Gap(s: string, pos: nat) returns (ws: string)
    requires pos <= |s|
    ensures AllWs(ws) && At(s, pos, ws) && pos + |ws| == AfterWs(s, pos)
  {
    ws := Span(s, pos, AfterWs(s, pos));
    SpanStands(s, pos, AfterWs(s, pos));
  }

  lemma StringSource(s: string, p: nat)
    requires p < |s| && s[p] == '"' && ParseString(s, p).Some?
    ensures var (t, e) := ParseString(s, p).value;
      Plain(t) && At(s, p + 1, t) && CharAt(s, p + 1 + |t|, '"') && e == p + |t| + 2
  {
    SpanStands(s, p + 1, StringEnd(s, p + 1).value);
  }

  lemma NumberSource(s: string, p: nat) returns (t: string)
    requires p < |s| && (s[p] == '-' || IsDigit(s[p])) && ParseNumber(s, p).Some?
    ensures At(s, p, t) && IsNumeral(t, 0, |t|) && IsI64(Numeral(t, 0, |t|))
    ensures ParseNumber(s, p) == Some((Num(Numeral(t, 0, |t|)), p + |t|))
  {
    var e := DigitsEnd(s, p + 1);
    t := Span(s, p, e);
    SpanStands(s, p, e);
    NumeralAt(s, p, t);
  }

  /** A value that is read has a spelling there, which ends where the reading stops. */
  lemma {:induction false} Source(s: string, pos: nat) returns (c: Text)
    requires pos <= |s| && ParseValue(s, pos).Some?
    ensures WellFormed(c) && Stands(s, pos, c)
    ensures ParseValue(s, pos) == Some((Meaning(c), pos + Size(c)))
    decreases |s| - pos, 2
  {
    hide ParseObject, ParseArray, ParseString, ParseNumber, At, AfterWs;
    var p := AfterWs(s, pos);
    var ws := Gap(s, pos);
    if s[p] == '{' {
      c := ObjectSource(s, p, ws);
    } else if s[p] == '[' {
      c := ArraySource(s, p, ws);
    } else if s[p] == '"' {
      c := StrText(ws, ParseString(s, p).value.0);
      StringSource(s, p);
    } else {
      var t := NumberSource(s, p);
      c := NumText(ws, t);
    }
    assert ParseValue(s, pos) == Some((Meaning(c), pos + Size(c)));
  }

  lemma {:induction false} ArraySource(s: string, p: nat, ws: string) returns (c: Text)
    requires |ws| <= p < |s| && s[p] == '[' && ParseArray(s, p).Some?
    requires AllWs(ws) && At(s, p - |ws|, ws)
    ensures WellFormed(c) && Stands(s, p - |ws|, c) && c.ws == ws
    ensures ParseArray(s, p) == Some((Meaning(c), p - |ws| + Size(c)))
    decreases |s| - p, 1
  {
    hide ParseItems, At, AfterWs;
    var inner := Gap(s, p + 1);
    ItemsAfterGap(s, p + 1);
    if s[AfterWs(s, p + 1)] == ']' {
      c := EmptyArr(ws, inner);
    } else {
      var items := ItemsSource(s, p + 1);
      c := ArrText(ws, items);
    }
  }

  lemma {:induction false} ItemsSource(s: string, pos: nat) returns (c: Items)
    requires pos <= |s| && ParseItems(s, pos).Some?
    ensures WellFormedItems(c) && StandItems(s, pos, c)
    ensures ParseItems(s, pos) == Some((ItemsMeaning(c), pos + ItemsSize(c)))
    decreases |s| - pos, 3
  {
    hide ParseValue, At, AfterWs;
    var v := Source(s, pos);
    var q := pos + Size(v);
    var gap := Gap(s, q);
    if s[q + |gap|] == ']' {
      c := LastItem(v, gap);
    } else {
      var rest := ItemsSource(s, q + |gap| + 1);
      c := MoreItems(v, gap, rest);
    }
  }

  lemma {:induction false} ObjectSource(s: string, p: nat, ws: string) returns (c: Text)
    requires |ws| <= p < |s| && s[p] == '{' && ParseObject(s, p).Some?
    requires AllWs(ws) && At(s, p - |ws|, ws)
    ensures WellFormed(c) && Stands(s, p - |ws|, c) && c.ws == ws
    ensures ParseObject(s, p) == Some((Meaning(c), p - |ws| + Size(c)))
    decreases |s| - p, 1
  {
    hide ParsePairs, At, AfterWs;
    var inner := Gap(s, p + 1);
    PairsAfterGap(s, p + 1);
    if s[AfterWs(s, p + 1)] == '}' {
      c := EmptyObj(ws, inner);
    } else {
      var pairs := PairsSource(s, p + 1);
      c := ObjText(ws, pairs);
    }
  }

  lemma {:induction false} PairSource(s: string, pos: nat) returns (c: Pair)
    requires pos <= |s| && ParsePair(s, pos).Some?
    ensures WellFormedPair(c) && StandsPair(s, pos, c)
    ensures ParsePair(s, pos) == Some((PairMeaning(c), pos + PairSize(c)))
    decreases |s| - pos, 2
  {
    hide ParseValue, ParseString, At, AfterWs;
    var p := AfterWs(s, pos);
    var kws := Gap(s, pos);
    StringSource(s, p);
    var key := ParseString(s, p).value.0;
    var cws := Gap(s, p + |key| + 2);
    var v := Source(s, p + |key| + 2 + |cws| + 1);
    c := Pair(kws, key, cws, v);
  }

  lemma {:induction false} PairsSource(s: string, pos: nat) returns (c: Pairs)
    requires pos <= |s| && ParsePairs(s, pos).Some?
    ensures WellFormedPairs(c) && StandPairs(s, pos, c)
    ensures ParsePairs(s, pos) == Some((PairsMeaning(c), pos + PairsSize(c)))
    decreases |s| - pos, 3
  {
    hide ParsePair, At, AfterWs;
    var v := PairSource(s, pos);
    var q := pos + PairSize(v);
    var gap := Gap(s, q);
    if s[q + |gap|] == '}' {
      c := LastPair(v, gap);
    } else {
      var rest := PairsSource(s, q + |gap| + 1);
      c := MorePairs(v, gap, rest);
    }
  }

  // ------------------------------------------------------------ whole documents

  /** The document is a spelling and the whitespace behind it. */
  predicate IsDocument(s: string, c: Text, tail: string) {
    WellFormed(c) && AllWs(tail) && s == Render(c) + tail
  }

  lemma DocumentParts(s: string, c: Text, tail: string)
    requires IsDocument(s, c, tail)
    ensures At(s, 0, Render(c)) && AfterWs(s, Size(c)) == |s|
    ensures Size(c) < |s| ==> !IsDigit(s[Size(c)])
  {
    assert At(s, 0, s);
    hide Render, Size, WellFormed, At, AfterWs, AllWs, IsDigit;
    AtSplit(s, 0, Render(c), tail);
    SkipPast(s, Size(c), tail);
    NoDigitInWs(s, Size(c), tail);
  }

  lemma NoDigitInWs(s: string, pos: nat, ws: string)
    requires At(s, pos, ws) && AllWs(ws) && pos + |ws| == |s|
    ensures pos < |s| ==> !IsDigit(s[pos])
  {
    assert ws != "" ==> ws[0] == s[pos + 0];
  }

  lemma DocumentReads(s: string, c: Text, tail: string)
    requires IsDocument(s, c, tail)
    ensures ParseDocument(s) == Some(Meaning(c))
  {
    hide ParseValue, Render, Stands, Size, WellFormed, Meaning, At;
    DocumentParts(s, c, tail);
    StandsIsText(s, 0, c);
    Reads(s, 0, c);
  }

  /**
   The reader accepts a document exactly when it spells a value, and the value it returns is
   the one that is spelled.
   */
  lemma DocumentsAreSpellings(s: string, v: Json)
    ensures ParseDocument(s) == Some(v) <==> exists c, tail :: IsDocument(s, c, tail) && Meaning(c) == v
  {
    if ParseDocument(s) == Some(v) {
      hide ParseValue, Render, Stands, Size, WellFormed, Meaning, At;
      var c := Source(s, 0);
      var tail := Gap(s, Size(c));
      StandsIsText(s, 0, c);
      AtSplit(s, 0, Render(c), tail);
      AtAll(s, Render(c) + tail);
      assert IsDocument(s, c, tail);
    }
    forall c, tail | IsDocument(s, c, tail) && Meaning(c) == v ensures ParseDocument(s) == Some(v) {
      DocumentReads(s, c, tail);
    }
  }

  lemma AtAll(s: string, t: string)
    requires At(s, 0, t) && |t| == |s|
    ensures s == t
  {
    assert forall k :: 0 <= k < |t| ==> t[k] == s[0 + k];
  }

  // ------------------------------------------------------------ every value can be written

  predicate Ascii(t: string) { forall k :: 0 <= k < |t| ==> t[k] as int < 128 }

  /** What an ASCII document can hold: 64-bit numbers, and ASCII strings without a quote or a backslash. */
  predicate Printable(v: Json)
    decreases v
  {
    match v
    case Obj(pairs) => forall i :: 0 <= i < |pairs| ==> Plain(pairs[i].0) && Ascii(pairs[i].0) && Printable(pairs[i].1)
    case Arr(items) => forall i :: 0 <= i < |items| ==> Printable(items[i])
    case Str(text) => Plain(text) && Ascii(text)
    case Num(n) => -0x8000_0000_0000_0000 <= n <= 0x7FFF_FFFF_FFFF_FFFF
  }

  /** The decimal digits of a number, without leading zeros. */
  function Digits(n: nat): (t: string)
    ensures t != "" && AllDigits(t, 0, |t|)
  {
    var low := ('0' as int + n % 10) as char;
    if n < 10 then [low] else Digits(n / 10) + [low]
  }

  lemma {:induction false} DigitsSpell(n: nat)
    ensures Decimal(Digits(n), 0, |Digits(n)|) == n
  {
    if n >= 10 {
      DigitsSpell(n / 10);
      DecimalAt(Digits(n), 0, Digits(n / 10), 0, |Digits(n / 10)|);
    } else {
      assert Decimal(Digits(n), 0, 0) == 0;
    }
  }

  function Decimals(n: int): string { if n < 0 then "-" + Digits(0 - n) else Digits(n) }

  lemma DecimalsSpell(n: int)
    ensures var t := Decimals(n); IsNumeral(t, 0, |t|) && Numeral(t, 0, |t|) == n
  {
    if n < 0 {
      DigitsSpell(0 - n);
      DigitsAt("-" + Digits(0 - n), 1, Digits(0 - n), 0);
      DecimalAt("-" + Digits(0 - n), 1, Digits(0 - n), 0, |Digits(0 - n)|);
    } else {
      DigitsSpell(n);
      assert IsDigit(Digits(n)[0]);
    }
  }

  /** The spelling of a value without any whitespace. */
  function Compact(v: Json): Text
    decreases v
  {
    match v
    case Obj(pairs) => if pairs == [] then EmptyObj("", "") else ObjText("", CompactPairs(v, 0))
    case Arr(items) => if items == [] then EmptyArr("", "") else ArrText("", CompactItems(v, 0))
    case Str(text) => StrText("", text)
    case Num(n) => NumText("", Decimals(n))
  }

  function CompactItems(v: Json, i: nat): Items
    requires v.Arr? && i < |v.items|
    decreases v, |v.items| - i
  {
    var item := Compact(v.items[i]);
    if i + 1 == |v.items| then LastItem(item, "") else MoreItems(item, "", CompactItems(v, i + 1))
  }

  function CompactPairs(v: Json, i: nat): Pairs
    requires v.Obj? && i < |v.pairs|
    decreases v, |v.pairs| - i
  {
    var pair := Pair("", v.pairs[i].0, "", Compact(v.pairs[i].1));
    if i + 1 == |v.pairs| then LastPair(pair, "") else MorePairs(pair, "", CompactPairs(v, i + 1))
  }

  lemma {:induction false} CompactMeans(v: Json)
    requires Printable(v)
    ensures WellFormed(Compact(v)) && Meaning(Compact(v)) == v
    decreases v
  {
    match v
    case Obj(pairs) => if pairs != [] { CompactPairsMean(v, 0); }
    case Arr(items) => if items != [] { CompactItemsMean(v, 0); }
    case Str(_) =>
    case Num(n) => DecimalsSpell(n);
  }

  lemma {:induction false} CompactItemsMean(v: Json, i: nat)
    requires Printable(v) && v.Arr? && i < |v.items|
    ensures WellFormedItems(CompactItems(v, i)) && ItemsMeaning(CompactItems(v, i)) == v.items[i..]
    decreases v, |v.items| - i
  {
    CompactMeans(v.items[i]);
    if i + 1 < |v.items| { CompactItemsMean(v, i + 1); }
  }

  lemma {:induction false} CompactPairsMean(v: Json, i: nat)
    requires Printable(v) && v.Obj? && i < |v.pairs|
    ensures WellFormedPairs(CompactPairs(v, i)) && PairsMeaning(CompactPairs(v, i)) == v.pairs[i..]
    decreases v, |v.pairs| - i
  {
    CompactMeans(v.pairs[i].1);
    if i + 1 < |v.pairs| { CompactPairsMean(v, i + 1); }
  }

  /** Writing a value and reading the text back gives the value. */
  lemma PrintParses(v: Json)
    requires Printable(v)
    ensures ParseDocument(Render(Compact(v))) == Some(v)
  {
    hide ParseValue, Render, Compact;
    CompactMeans(v);
    assert Render(Compact(v)) + "" == Render(Compact(v));
    DocumentReads(Render(Compact(v)), Compact(v), "");
  }

  lemma AsciiPart(s: string, pos: nat, t: string)
    requires Ascii(s) && At(s, pos, t)
    ensures Ascii(t)
  {
    forall k | 0 <= k < |t| ensures t[k] as int < 128 { assert t[k] == s[pos + k]; }
  }

  lemma {:induction false} MeaningPrintable(s: string, pos: nat, c: Text)
    requires WellFormed(c) && Stands(s, pos, c) && Ascii(s)
    ensures Printable(Meaning(c))
    decreases c
  {
    var p := pos + |c.ws|;
    match c
    case StrText(_, body) => AsciiPart(s, p + 1, body);
    case ArrText(_, items) => ItemsPrintable(s, p + 1, items);
    case ObjText(_, pairs) => PairsPrintable(s, p + 1, pairs);
    case _ =>
  }

  lemma {:induction false} ItemsPrintable(s: string, pos: nat, c: Items)
    requires WellFormedItems(c) && StandItems(s, pos, c) && Ascii(s)
    ensures forall i :: 0 <= i < |ItemsMeaning(c)| ==> Printable(ItemsMeaning(c)[i])
    decreases c
  {
    hide At, Ascii;
    MeaningPrintable(s, pos, c.v);
    if c.MoreItems? { ItemsPrintable(s, pos + Size(c.v) + |c.gap| + 1, c.rest); }
  }

  lemma {:induction false} PairsPrintable(s: string, pos: nat, c: Pairs)
    requires WellFormedPairs(c) && StandPairs(s, pos, c) && Ascii(s)
    ensures forall i :: 0 <= i < |PairsMeaning(c)| ==>
      var (key, v) := PairsMeaning(c)[i]; Plain(key) && Ascii(key) && Printable(v)
    decreases c
  {
    hide At, Ascii, Plain;
    var q := pos + PairSize(c.p);
    AsciiPart(s, pos + |c.p.kws| + 1, c.p.key);
    MeaningPrintable(s, q - Size(c.p.v), c.p.v);
    if c.MorePairs? { PairsPrintable(s, q + |c.gap| + 1, c.rest); }
  }

  lemma {:induction false} CompactAscii(v: Json)
    requires Printable(v)
    ensures Ascii(Render(Compact(v))) && Ascii(Body(Compact(v)))
    decreases v
  {
    match v
    case Obj(pairs) => if pairs != [] { CompactPairsAscii(v, 0); }
    case Arr(items) => if items != [] { CompactItemsAscii(v, 0); }
    case Str(_) =>
    case Num(n) => DecimalsSpell(n);
  }

  lemma {:induction false} CompactItemsAscii(v: Json, i: nat)
    requires Printable(v) && v.Arr? && i < |v.items|
    ensures Ascii(RenderItems(CompactItems(v, i)))
    decreases v, |v.items| - i
  {
    CompactAscii(v.items[i]);
    if i + 1 < |v.items| { CompactItemsAscii(v, i + 1); }
  }

  lemma {:induction false} CompactPairsAscii(v: Json, i: nat)
    requires Printable(v) && v.Obj? && i < |v.pairs|
    ensures Ascii(RenderPairs(CompactPairs(v, i)))
    decreases v, |v.pairs| - i
  {
    CompactAscii(v.pairs[i].1);
    if i + 1 < |v.pairs| { CompactPairsAscii(v, i + 1); }
  }

  /** A value is the content of some ASCII document exactly when it is printable. */
  lemma ReadableIsPrintable(v: Json)
    ensures (exists s :: Ascii(s) && ParseDocument(s) == Some(v)) <==> Printable(v)
  {
    forall s | Ascii(s) && ParseDocument(s) == Some(v) ensures Printable(v) {
      DocumentPrintable(s, v);
    }
    if Printable(v) {
      PrintParses(v);
      CompactAscii(v);
    }
  }

  lemma DocumentPrintable(s: string, v: Json)
    requires Ascii(s) && ParseDocument(s) == Some(v)
    ensures Printable(v)
  {
    hide ParseValue, Meaning, Printable, Stands, Ascii;
    var c := Source(s, 0);
    MeaningPrintable(s, 0, c);
  }

  // ------------------------------------------------------------ the parser

  /** The method gave the value that is read and stopped behind it, or failed where nothing is read. */
  ghost predicate Gives<T>(r: Read<T>, v: Option<T>, pos: nat) {
    match r case None => v.None? case Some(t) => v == Some(t.0) && pos == t.1
  }

  function PrependAll<T>(vs: seq<T>, r: Read<seq<T>>): Read<seq<T>> {
    match r case None => None case Some(t) => Some((vs + t.0, t.1))
  }

  lemma PrependStep<T>(vs: seq<T>, v: T, r: Read<seq<T>>)
    ensures PrependAll(vs, Prepend(v, r)) == PrependAll(vs + [v], r)
  {
    if r.Some? { assert vs + ([v] + r.value.0) == vs + [v] + r.value.0; }
  }

  lemma PrependNothing<T>(r: Read<seq<T>>)
    ensures PrependAll([], r) == r
  {
    if r.Some? { assert [] + r.value.0 == r.value.0; }
  }

  lemma ItemsNext(s: string, pos: nat)
    requires pos <= |s|
    ensures ParseItems(s, pos) ==
      match ParseValue(s, pos)
      case None => None
      case Some(t) =>
        var q := AfterWs(s, t.1);
        if CharAt(s, q, ',') then Prepend(t.0, ParseItems(s, q + 1))
        else if CharAt(s, q, ']') then Some(([t.0], q + 1)) else None
  {
    hide ParseValue;
  }

  lemma PairsNext(s: string, pos: nat)
    requires pos <= |s|
    ensures ParsePairs(s, pos) ==
      match ParsePair(s, pos)
      case None => None
      case Some(t) =>
        var q := AfterWs(s, t.1);
        if CharAt(s, q, ',') then Prepend(t.0, ParsePairs(s, q + 1))
        else if CharAt(s, q, '}') then Some(([t.0], q + 1)) else None
  {
    hide ParsePair;
  }

  class Parser {
    const bytes: string
    var pos: nat

    ghost predicate Valid() reads this { pos <= |bytes| }

    constructor (text: string)
      ensures Valid() && bytes == text && pos == 0
    {
      bytes := text;
      pos := 0;
    }

    method SkipWs()
      requires Valid()
      modifies this
      ensures Valid() && pos == AfterWs(bytes, old(pos))
    {
      while pos < |bytes| && (bytes[pos] == ' ' || bytes[pos] == '\t' || bytes[pos] == '\n' || bytes[pos] == '\r')
        invariant Valid() && AfterWs(bytes, pos) == AfterWs(bytes, old(pos))
        decreases |bytes| - pos
      {
        pos := pos + 1;
      }
    }

    /** The next byte that is no whitespace; the end of the text is a failure. */
    method Peek() returns (b: Option<char>)
      requires Valid()
      modifies this
      ensures Valid() && pos == AfterWs(bytes, old(pos))
      ensures b == if pos < |bytes| then Some(bytes[pos]) else None
    {
      SkipWs();
      if pos == |bytes| { return None; }
      b := Some(bytes[pos]);
    }

    method Expect(b: char) returns (ok: bool)
      requires Valid()
      modifies this
      ensures Valid()
      ensures var p := AfterWs(bytes, old(pos)); ok == CharAt(bytes, p, b) && (ok ==> pos == p + 1)
    {
      var got := Peek();
      ok := got == Some(b);
      if ok { pos := pos + 1; }
    }

    method Value() returns (v: Option<Json>)
      requires Valid()
      modifies this
      ensures Valid() && Gives(ParseValue(bytes, old(pos)), v, pos)
      decreases |bytes| - pos, 2
    {
      hide ParseObject, ParseArray, ParseString, ParseNumber;
      var b := Peek();
      match b
      case None => return None;
      case Some(c) =>
        if c == '{' {
          v := Object();
        } else if c == '[' {
          v := Array();
        } else if c == '"' {
          var t := String();
          v := if t.Some? then Some(Str(t.value)) else None;
        } else if c == '-' || IsDigit(c) {
          v := Number();
        } else {
          return None;
        }
    }

    method Object() returns (v: Option<Json>)
      requires Valid() && CharAt(bytes, pos, '{')
      modifies this
      ensures Valid() && Gives(ParseObject(bytes, old(pos)), v, pos)
      decreases |bytes| - pos, 1
    {
      hide ParseValue, ParsePair, ParsePairs, ParseString, AfterWs;
      var ok := Expect('{');
      var pairs: seq<(string, Json)> := [];
      var b := Peek();
      if b == None { return None; }
      if b == Some('}') {
        pos := pos + 1;
        return Some(Obj(pairs));
      }
      ghost var q := pos;
      PrependNothing(ParsePairs(bytes, q));
      while true
        invariant old(pos) < q <= pos <= |bytes|
        invariant ParsePairs(bytes, q) == PrependAll(pairs, ParsePairs(bytes, pos))
        decreases |bytes| - pos
      {
        ghost var before := pairs;
        PairsNext(bytes, pos);
        var pair := Member();
        if pair == None { return None; }
        pairs := pairs + [pair.value];
        var c := Peek();
        if c == Some(',') {
          pos := pos + 1;
          PrependStep(before, pair.value, ParsePairs(bytes, pos));
        } else if c == Some('}') {
          pos := pos + 1;
          break;
        } else {
          return None;
        }
      }
      v := Some(Obj(pairs));
    }

    /** One key and its value: what the loop of `object` reads before it pushes the pair. */
    method Member() returns (m: Option<(string, Json)>)
      requires Valid()
      modifies this
      ensures Valid() && Gives(ParsePair(bytes, old(pos)), m, pos)
      decreases |bytes| - pos, 3
    {
      hide ParseValue, ParseString;
      var b := Peek();
      if b != Some('"') { return None; }
      var key := String();
      if key == None { return None; }
      var ok := Expect(':');
      if !ok { return None; }
      var val := Value();
      if val == None { return None; }
      m := Some((key.value, val.value));
    }

    method Array() returns (v: Option<Json>)
      requires Valid() && CharAt(bytes, pos, '[')
      modifies this
      ensures Valid() && Gives(ParseArray(bytes, old(pos)), v, pos)
      decreases |bytes| - pos, 1
    {
      hide ParseValue, ParseItems, AfterWs;
      var ok := Expect('[');
      var items: seq<Json> := [];
      var b := Peek();
      if b == None { return None; }
      if b == Some(']') {
        pos := pos + 1;
        return Some(Arr(items));
      }
      ghost var q := pos;
      PrependNothing(ParseItems(bytes, q));
      while true
        invariant old(pos) < q <= pos <= |bytes|
        invariant ParseItems(bytes, q) == PrependAll(items, ParseItems(bytes, pos))
        decreases |bytes| - pos
      {
        ghost var before := items;
        ItemsNext(bytes, pos);
        var item := Value();
        if item == None { return None; }
        items := items + [item.value];
        var c := Peek();
        if c == Some(',') {
          pos := pos + 1;
          PrependStep(before, item.value, ParseItems(bytes, pos));
        } else if c == Some(']') {
          pos := pos + 1;
          break;
        } else {
          return None;
        }
      }
      v := Some(Arr(items));
    }

    method String() returns (t: Option<string>)
      requires Valid() && CharAt(bytes, pos, '"')
      modifies this
      ensures Valid() && Gives(ParseString(bytes, old(pos)), t, pos)
    {
      var ok := Expect('"');
      var out := "";
      while true
        invariant old(pos) < pos <= |bytes| && out == Span(bytes, old(pos) + 1, pos)
        invariant StringEnd(bytes, old(pos) + 1) == StringEnd(bytes, pos)
        decreases |bytes| - pos
      {
        if pos == |bytes| { return None; }
        var b := bytes[pos];
        pos := pos + 1;
        if b == '"' {
          break;
        } else if b == '\\' {
          return None;
        } else {
          out := out + [b];
        }
      }
      t := Some(out);
    }

    method Number() returns (v: Option<Json>)
      requires Valid() && pos < |bytes| && (bytes[pos] == '-' || IsDigit(bytes[pos]))
      modifies this
      ensures Valid() && Gives(ParseNumber(bytes, old(pos)), v, pos)
    {
      SkipWs();
      var start := pos;
      if bytes[pos] == '-' { pos := pos + 1; }
      while pos < |bytes| && IsDigit(bytes[pos])
        invariant start <= pos <= |bytes|
        invariant pos == start ==> IsDigit(bytes[start])
        invariant pos > start ==> DigitsEnd(bytes, start + 1) == DigitsEnd(bytes, pos)
        decreases |bytes| - pos
      {
        pos := pos + 1;
      }
      var n := ParseI64(bytes, start, pos);
      v := if n.Some? then Some(Num(n.value)) else None;
    }
  }

  /** `parse_document`: the value, when the whole text is one. */
  method ReadDocument(text: string) returns (v: Option<Json>)
    ensures v == ParseDocument(text)
  {
    var p := new Parser(text);
    v := p.Value();
    if v.Some? {
      p.SkipWs();
      if p.pos != |p.bytes| { v := None; }
    }
  }
}
