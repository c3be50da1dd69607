/**
 * The file-free image reader used by the test suite: it "reads" an image
 * whose whole description is its pseudo file name,
 *
 *     FileFreeIO::Size=64,32:Spacing=0.5,0.5:Origin=1,2:Direction=1,0,0,1
 *
 * and fills the pixel buffer with one constant byte.
 */
module FileFreeImageIO {
  import opened Wrappers
  import Decimal

  /* ---------------------------------------------------------------------
   * std::string searching
   * ------------------------------------------------------------------- */

  /** `std::string::npos` for a 64-bit `size_t`; no string is this long. */
  const NPOS: nat := 0xFFFF_FFFF_FFFF_FFFF

  /** Is `c` one of the characters of `chars`? */
  predicate IsOneOf(c: char, chars: string) {
    c in chars
  }

  /** `s.find_first_of(chars, pos)`: the first index at or after `pos` holding one of `chars`. */
  function FindFirstOf(s: string, chars: string, pos: nat): (r: nat)
    requires |s| < NPOS
    ensures r == NPOS || (pos <= r < |s| && IsOneOf(s[r], chars))
    ensures forall k :: pos <= k < |s| && k < r ==> !IsOneOf(s[k], chars)
    decreases |s| - pos
  {
    if pos >= |s| then NPOS
    else if IsOneOf(s[pos], chars) then pos
    else FindFirstOf(s, chars, pos + 1)
  }

  /** `s.find_first_not_of(chars, pos)`: the first index at or after `pos` holding none of `chars`. */
  function FindFirstNotOf(s: string, chars: string, pos: nat): (r: nat)
    requires |s| < NPOS
    ensures r == NPOS || (pos <= r < |s| && !IsOneOf(s[r], chars))
    ensures forall k :: pos <= k < |s| && k < r ==> IsOneOf(s[k], chars)
    decreases |s| - pos
  {
    if pos >= |s| then NPOS
    else if !IsOneOf(s[pos], chars) then pos
    else FindFirstNotOf(s, chars, pos + 1)
  }

  /** Does `pat` occur in `s` starting at index `i`? */
  predicate OccursAt(s: string, pat: string, i: nat) {
    i + |pat| <= |s| && s[i..i + |pat|] == pat
  }

  /** `pat` occurs at `i` and nowhere before it. */
  predicate FirstOccurrence(s: string, pat: string, i: nat) {
    OccursAt(s, pat, i) && forall j :: 0 <= j < i ==> !OccursAt(s, pat, j)
  }

  /** Leftmost occurrence of `pat` in `s` at or after `from`: the match position of an unanchored search. */
  function FindFrom(s: string, pat: string, from: nat): (r: Option<nat>)
    ensures r.Some? ==> from <= r.value && OccursAt(s, pat, r.value)
    ensures r.Some? ==> forall j :: from <= j < r.value ==> !OccursAt(s, pat, j)
    ensures r.None? ==> forall j :: from <= j ==> !OccursAt(s, pat, j)
    decreases |s| - from
  {
    if from + |pat| > |s| then None
    else if OccursAt(s, pat, from) then Some(from)
    else FindFrom(s, pat, from + 1)
  }

  /** A character of `pat` that `s` lacks rules out every occurrence of `pat`. */
  lemma AbsentCharacter(s: string, pat: string, k: nat)
    requires k < |pat| && pat[k] !in s
    ensures FindFrom(s, pat, 0).None?
  {
  }

  /* ---------------------------------------------------------------------
   * CanReadFile / CanWriteFile
   * ------------------------------------------------------------------- */

  const Prefix: string := "FileFreeIO::"

  /** The regular expression `^FileFreeIO::`: a match of the prefix anchored at index 0. */
  function CanReadFile(filename: string): (r: bool)
    ensures r <==> Prefix <= filename
  {
    var m := FindFrom(filename, Prefix, 0);
    m.Some? && m.value == 0
  }

  /** This reader never writes. */
  function CanWriteFile(filename: string): (r: bool)
    ensures !r
  {
    false
  }

  /* ---------------------------------------------------------------------
   * Key=value fields: the regular expression `Key=([^:$]*)`
   * ------------------------------------------------------------------- */

  /** The characters that end a field value (`$` is literal inside brackets). */
  predicate IsStop(c: char) {
    c == ':' || c == '$'
  }

  predicate NoStop(s: string) {
    forall i :: 0 <= i < |s| ==> !IsStop(s[i])
  }

  /** The greedy run `[^:$]*` at the start of `s`. */
  function TakeValue(s: string): (v: string)
    ensures v <= s && NoStop(v)
    ensures |v| < |s| ==> IsStop(s[|v|])
  {
    if s == [] || IsStop(s[0]) then [] else [s[0]] + TakeValue(s[1..])
  }

  /**
   * Group 1 of `Key=([^:$]*)` searched in `name`: the characters after the
   * first occurrence of `Key=` up to the next `:` or `$` or the end.
   */
  function FieldValue(name: string, key: string): (r: Option<string>)
    ensures r.Some? ==> |r.value| + |key| < |name|
  {
    var pat := key + "=";
    match FindFrom(name, pat, 0)
    case None => None
    case Some(i) => Some(TakeValue(name[i + |pat|..]))
  }

  /**
   * The field is absent exactly when `Key=` occurs nowhere; otherwise its
   * value is the maximal run without `:` or `$` right after the first
   * occurrence of `Key=`.
   */
  lemma FieldValueSpec(name: string, key: string)
    ensures FieldValue(name, key).None? <==> forall j :: !OccursAt(name, key + "=", j)
    ensures FieldValue(name, key).Some? ==>
      exists i: nat :: FirstOccurrence(name, key + "=", i) && ValueAt(name, i + |key| + 1, FieldValue(name, key).value)
  {
    var pat := key + "=";
    var m := FindFrom(name, pat, 0);
    if m.Some? {
      var i := m.value;
      assert FirstOccurrence(name, pat, i) && ValueAt(name, i + |key| + 1, TakeValue(name[i + |pat|..]));
    }
  }

  /** `v` is the maximal run free of `:` and `$` that starts at index `b` of `name`. */
  predicate ValueAt(name: string, b: nat, v: string) {
    b + |v| <= |name| && name[b..b + |v|] == v && NoStop(v) &&
    (b + |v| == |name| || IsStop(name[b + |v|]))
  }

  /* ---------------------------------------------------------------------
   * SplitString
   * ------------------------------------------------------------------- */

  /** End of the word that starts at `p`: the next separator at or after `p`, or the end of `t`. */
  function WordEnd(t: string, seps: string, p: nat): (k: nat)
    requires p <= |t|
    ensures p <= k <= |t|
    ensures forall i :: p <= i < k ==> !IsOneOf(t[i], seps)
    ensures k < |t| ==> IsOneOf(t[k], seps)
    ensures p < |t| && !IsOneOf(t[p], seps) ==> p < k
    decreases |t| - p
  {
    if p == |t| || IsOneOf(t[p], seps) then p else WordEnd(t, seps, p + 1)
  }

  /** The words of `t` from index `p` on: its maximal runs of characters not in `seps`, in order. */
  function WordsFrom(t: string, seps: string, p: nat): seq<string>
    requires p <= |t|
    decreases |t| - p
  {
    if p == |t| then []
    else if IsOneOf(t[p], seps) then WordsFrom(t, seps, p + 1)
    else
      var k := WordEnd(t, seps, p);
      [t[p..k]] + WordsFrom(t, seps, k)
  }

  /** The words SplitString finds in `t`. */
  function Tokens(t: string, seps: string): seq<string> {
    WordsFrom(t, seps, 0)
  }

  /** `t` with every separator character deleted. */
  function Strip(t: string, seps: string): (r: string)
    ensures |r| <= |t|
  {
    if t == [] then [] else (if IsOneOf(t[0], seps) then [] else [t[0]]) + Strip(t[1..], seps)
  }

  function Concat(ws: seq<string>): string {
    if ws == [] then [] else ws[0] + Concat(ws[1..])
  }

  function Min(a: nat, b: nat): nat {
    if a < b then a else b
  }

  /** Skipping separators with `find_first_not_of` does not change the words that follow. */
  lemma {:induction false} SkipSeparators(t: string, seps: string, p: nat)
    requires |t| < NPOS && p <= |t|
    ensures WordsFrom(t, seps, p) == WordsFrom(t, seps, Min(FindFirstNotOf(t, seps, p), |t|))
    decreases |t| - p
  {
    if p < |t| && IsOneOf(t[p], seps) {
      SkipSeparators(t, seps, p + 1);
    }
  }

  /** `find_first_of`, with npos clamped to the length, finds the end of the word. */
  lemma {:induction false} WordEndFind(t: string, seps: string, p: nat)
    requires |t| < NPOS && p <= |t|
    ensures WordEnd(t, seps, p) == Min(FindFirstOf(t, seps, p), |t|)
    decreases |t| - p
  {
    if p < |t| && !IsOneOf(t[p], seps) {
      WordEndFind(t, seps, p + 1);
    }
  }

  /**
   * One round of SplitString: from a word start, the word runs to the next
   * separator (or the end), and the words after it begin at the next
   * non-separator after that.
   */
  lemma NextWord(t: string, seps: string, start: nat)
    requires |t| < NPOS && start < |t| && !IsOneOf(t[start], seps)
    ensures var stop := Min(FindFirstOf(t, seps, start), |t|);
      start < stop &&
      WordsFrom(t, seps, start) == [t[start..stop]] + WordsFrom(t, seps, Min(FindFirstNotOf(t, seps, stop + 1), |t|))
  {
    var stop := Min(FindFirstOf(t, seps, start), |t|);
    WordEndFind(t, seps, start);
    if stop < |t| {
      SkipSeparators(t, seps, stop + 1);
    }
  }

  /**
   * Appends to `words` the words of `text`, the maximal runs of characters
   * not in `separators`; `words` is not cleared first.
   */
  method SplitString(text: string, separators: string, words: seq<string>) returns (result: seq<string>)
    requires |text| < NPOS
    ensures result == words + Tokens(text, separators)
  {
    var n := |text|;
    result := words;
    var start := FindFirstNotOf(text, separators, 0);
    SkipSeparators(text, separators, 0);
    while start < n
      invariant start == NPOS || start <= n
      invariant start < n ==> !IsOneOf(text[start], separators)
      invariant result + WordsFrom(text, separators, Min(start, n)) == words + Tokens(text, separators)
      decreases if start <= n then n + 1 - start else 0
    {
      var stop := FindFirstOf(text, separators, start);
      if stop > n {
        stop := n;
      }
      NextWord(text, separators, start);
      result := result + [text[start..stop]];
      start := FindFirstNotOf(text, separators, stop + 1);
    }
  }

  /** Every word is non-empty and holds no separator. */
  lemma {:induction false} WordsWellFormed(t: string, seps: string, p: nat)
    requires p <= |t|
    ensures forall w :: w in WordsFrom(t, seps, p) ==> |w| > 0 && forall c :: c in w ==> !IsOneOf(c, seps)
    decreases |t| - p
  {
    if p < |t| {
      if IsOneOf(t[p], seps) {
        WordsWellFormed(t, seps, p + 1);
      } else {
        var k := WordEnd(t, seps, p);
        WordsWellFormed(t, seps, k);
        assert forall c :: c in t[p..k] ==> !IsOneOf(c, seps);
      }
    }
  }

  lemma {:induction false} StripAppend(a: string, b: string, seps: string)
    ensures Strip(a + b, seps) == Strip(a, seps) + Strip(b, seps)
    decreases |a|
  {
    if a == [] {
      assert a + b == b;
    } else {
      assert (a + b)[1..] == a[1..] + b;
      StripAppend(a[1..], b, seps);
    }
  }

  lemma {:induction false} StripNoSeparators(a: string, seps: string)
    requires forall i :: 0 <= i < |a| ==> !IsOneOf(a[i], seps)
    ensures Strip(a, seps) == a
    decreases |a|
  {
    if a != [] {
      StripNoSeparators(a[1..], seps);
    }
  }

  /** The words, joined back together, are the text with its separators deleted. */
  lemma {:induction false} WordsConcat(t: string, seps: string, p: nat)
    requires p <= |t|
    ensures Concat(WordsFrom(t, seps, p)) == Strip(t[p..], seps)
    decreases |t| - p
  {
    if p < |t| {
      if IsOneOf(t[p], seps) {
        WordsConcat(t, seps, p + 1);
        assert t[p..][1..] == t[p + 1..];
      } else {
        var k := WordEnd(t, seps, p);
        var ws := WordsFrom(t, seps, p);
        assert ws[1..] == WordsFrom(t, seps, k);
        WordsConcat(t, seps, k);
        assert t[p..] == t[p..k] + t[k..];
        StripAppend(t[p..k], t[k..], seps);
        StripNoSeparators(t[p..k], seps);
      }
    }
  }

  /** There are no words from `p` on exactly when every character from `p` on is a separator. */
  lemma {:induction false} WordsEmpty(t: string, seps: string, p: nat)
    requires p <= |t|
    ensures WordsFrom(t, seps, p) == [] <==> forall i :: p <= i < |t| ==> IsOneOf(t[i], seps)
    decreases |t| - p
  {
    if p < |t| && IsOneOf(t[p], seps) {
      WordsEmpty(t, seps, p + 1);
    }
  }

  /**
   * The words of a whole text: each is non-empty and separator-free, joined
   * they give the text without its separators, and there are none exactly
   * when the text is empty or all separators.
   */
  lemma TokensProperties(t: string, seps: string)
    ensures forall w :: w in Tokens(t, seps) ==> |w| > 0 && forall c :: c in w ==> !IsOneOf(c, seps)
    ensures Concat(Tokens(t, seps)) == Strip(t, seps)
    ensures Tokens(t, seps) == [] <==> forall i :: 0 <= i < |t| ==> IsOneOf(t[i], seps)
  {
    WordsWellFormed(t, seps, 0);
    WordsConcat(t, seps, 0);
    assert t[0..] == t;
    WordsEmpty(t, seps, 0);
  }

  /* ---------------------------------------------------------------------
   * ReadImageInformation: the image description as ImageIOBase holds it
   * ------------------------------------------------------------------- */

  datatype IOPixelType = UnknownPixelType | Scalar

  datatype IOComponentType = UnknownComponentType | UChar

  /**
   * One number of a Spacing, Origin or Direction entry: `atof` of a token
   * of the name, or a default the reader supplies itself.
   */
  datatype Coordinate = Parsed(token: string) | Literal(value: real)

  /** What the ImageIOBase setters record about the image. */
  datatype ImageInformation = ImageInformation(
    numberOfDimensions: nat,
    dimensions: seq<nat>,
    spacing: seq<Coordinate>,
    origin: seq<Coordinate>,
    direction: seq<seq<Coordinate>>,
    numberOfComponents: nat,
    pixelType: IOPixelType,
    componentType: IOComponentType)

  /**
   * The description before ReadImageInformation has run: the defaults the
   * image-IO base class constructor sets, assumed here (that class is not
   * part of this model).
   */
  const Unread := ImageInformation(0, [], [], [], [], 1, UnknownPixelType, UnknownComponentType)

  /** The comma-separated tokens of the `Key=` field; none when the key is absent. */
  function FieldTokens(name: string, key: string): seq<string> {
    match FieldValue(name, key)
    case None => []
    case Some(v) => Tokens(v, ",")
  }

  /** `atoi` of every token. */
  function Sizes(tokens: seq<string>): (r: seq<nat>)
    ensures |r| == |tokens|
  {
    seq(|tokens|, i requires 0 <= i < |tokens| => Decimal.Atoi(tokens[i]))
  }

  /** `d` copies of one literal. */
  function Filled(d: nat, value: real): (r: seq<Coordinate>)
    ensures |r| == d
  {
    seq(d, _ => Literal(value))
  }

  /** The first `d` coordinates of a Spacing or Origin field, or `d` copies of `fill` when it gave none. */
  function CoordinatesOrDefault(tokens: seq<string>, d: nat, fill: real): (c: seq<Coordinate>)
    requires |tokens| == 0 || d <= |tokens|
    ensures |c| == d
  {
    if |tokens| == 0 then Filled(d, fill) else ParsedAll(tokens)[..d]
  }

  /** `atof` of every token. */
  function ParsedAll(tokens: seq<string>): (r: seq<Coordinate>)
    ensures |r| == |tokens|
  {
    seq(|tokens|, i requires 0 <= i < |tokens| => Parsed(tokens[i]))
  }

  /** The `d` by `d` identity matrix. */
  function Identity(d: nat): (m: seq<seq<Coordinate>>)
    ensures |m| == d
  {
    seq(d, i => seq(d, j => if i == j then Literal(1.0) else Literal(0.0)))
  }

  /**
   * The explicit Direction parse reads `t / 2` rows of `t / 2` tokens each
   * into a `d`-row matrix; it stays inside both vectors only when this holds.
   */
  predicate DirectionIndexable(t: nat, d: nat) {
    var h := t / 2;
    h == 0 || (h <= d && h * h <= t)
  }

  lemma RowMajorBound(i: nat, j: nat, h: nat)
    requires i < h && j < h
    ensures i * h + j < h * h
  {
    var k: nat := h - 1 - i;
    assert k * h >= 0;
    assert h * h == i * h + h + k * h;
  }

  /** Row `i` of the explicit Direction matrix: `h` tokens from index `i * h` on. */
  function DirectionRow(tokens: seq<string>, h: nat, i: nat): (row: seq<Coordinate>)
    requires i < h && h * h <= |tokens|
    ensures |row| == h
  {
    seq(h, j requires 0 <= j < h => RowMajorBound(i, j, h); Parsed(tokens[i * h + j]))
  }

  /**
   * The matrix the Direction field gives: rows below `t / 2` hold `t / 2`
   * tokens each, read row by row; the remaining rows stay empty.
   */
  function ExplicitDirection(tokens: seq<string>, d: nat): (m: seq<seq<Coordinate>>)
    requires DirectionIndexable(|tokens|, d)
    ensures |m| == d
  {
    var h := |tokens| / 2;
    seq(d, i requires 0 <= i < d => if i < h then DirectionRow(tokens, h, i) else [])
  }

  /**
   * The explicit Direction parse stays in range exactly when it reads no
   * row (fewer than two values), or when there are two to five values and
   * half their number does not exceed the dimension count: six or more
   * values always index out of range.
   */
  lemma DirectionIndexableExactly(t: nat, d: nat)
    ensures DirectionIndexable(t, d) <==> t < 2 || (t < 6 && t / 2 <= d)
  {
    var h := t / 2;
    if t >= 6 {
      var k: nat := h - 3;
      assert h * h == 3 * h + h * k;
      assert h * k >= 0;
    } else if t >= 4 {
      assert h == 2;
    } else if t >= 2 {
      assert h == 1;
    }
  }

  /**
   * As written, a full Direction matrix of three or more dimensions is read
   * out of range: `d * d` values give `d * d / 2` rows, more than the `d`
   * the direction vector holds.
   */
  lemma FullDirectionUndefined(d: nat)
    requires d >= 3
    ensures !DirectionIndexable(d * d, d)
  {
    var k: nat := d - 3;
    assert d * d == 3 * d + d * k;
    assert d * k >= 0;
    DirectionIndexableExactly(d * d, d);
  }

  /**
   * The Direction matrix as evidently intended: `d` rows of `d` values each,
   * read row by row, the side of the matrix being the number of dimensions.
   */
  function SquareDirection(tokens: seq<string>, d: nat): (m: seq<seq<Coordinate>>)
    requires d * d <= |tokens|
    ensures |m| == d && forall i :: 0 <= i < d ==> |m[i]| == d
  {
    seq(d, i requires 0 <= i < d => DirectionRow(tokens, d, i))
  }

  /**
   * A full matrix of `d * d` values is read in range for every dimension
   * count, entry `(i, j)` being value `i * d + j`.
   */
  lemma SquareDirectionReadsFullMatrix(tokens: seq<string>, d: nat, i: nat, j: nat)
    requires |tokens| == d * d && i < d && j < d
    ensures i * d + j < |tokens| && SquareDirection(tokens, d)[i][j] == Parsed(tokens[i * d + j])
  {
    RowMajorBound(i, j, d);
    assert SquareDirection(tokens, d)[i] == DirectionRow(tokens, d, i);
  }

  /**
   * As written, a full one-dimensional Direction is dropped: one value gives
   * `1 / 2 == 0` rows, so the single row stays empty instead of holding it.
   */
  lemma OneDimensionalDirectionDropped(tokens: seq<string>)
    requires |tokens| == 1
    ensures DirectionIndexable(1, 1) && ExplicitDirection(tokens, 1) == [[]]
    ensures SquareDirection(tokens, 1) == [[Parsed(tokens[0])]]
  {
    assert 1 / 2 == 0;
    RowMajorBound(0, 0, 1);
    assert DirectionRow(tokens, 1, 0)[0] == Parsed(tokens[0]);
    assert DirectionRow(tokens, 1, 0) == [Parsed(tokens[0])];
    assert SquareDirection(tokens, 1)[0] == DirectionRow(tokens, 1, 0);
  }

  /** In two dimensions the reading as written gives the intended matrix. */
  lemma TwoDimensionalDirectionAgrees(tokens: seq<string>)
    requires |tokens| == 4
    ensures DirectionIndexable(4, 2) && ExplicitDirection(tokens, 2) == SquareDirection(tokens, 2)
  {
    assert 4 / 2 == 2 && 2 * 2 == 4;
  }

  /**
   * The names ReadImageInformation handles without indexing a vector out of
   * range: Spacing and Origin give no tokens or at least one per dimension,
   * and the Direction parse stays inside its vectors.
   */
  predicate WellDefined(name: string) {
    var d := |FieldTokens(name, "Size")|;
    var s := |FieldTokens(name, "Spacing")|;
    var o := |FieldTokens(name, "Origin")|;
    (s == 0 || d <= s) && (o == 0 || d <= o) && DirectionIndexable(|FieldTokens(name, "Direction")|, d)
  }

  /** The image description ReadImageInformation derives from a name. */
  function Describe(name: string): (info: ImageInformation)
    requires WellDefined(name)
  {
    var sizes := FieldTokens(name, "Size");
    var d := |sizes|;
    ImageInformation(
      d,
      Sizes(sizes),
      CoordinatesOrDefault(FieldTokens(name, "Spacing"), d, 1.0),
      CoordinatesOrDefault(FieldTokens(name, "Origin"), d, 0.0),
      if FieldValue(name, "Direction").Some? then ExplicitDirection(FieldTokens(name, "Direction"), d) else Identity(d),
      1, Scalar, UChar)
  }

  /** `atoi` of each token, pushed one by one. */
  method ParseSizes(tokens: seq<string>) returns (sizes: seq<nat>)
    ensures sizes == Sizes(tokens)
  {
    sizes := [];
    var i := 0;
    while i < |tokens|
      invariant 0 <= i <= |tokens|
      invariant sizes == Sizes(tokens[..i])
    {
      sizes := sizes + [Decimal.Atoi(tokens[i])];
      i := i + 1;
    }
    assert tokens[..i] == tokens;
  }

  /** `atof` of each token, pushed one by one. */
  method ParseCoordinates(tokens: seq<string>) returns (cs: seq<Coordinate>)
    ensures cs == ParsedAll(tokens)
  {
    cs := [];
    var i := 0;
    while i < |tokens|
      invariant 0 <= i <= |tokens|
      invariant cs == ParsedAll(tokens[..i])
    {
      cs := cs + [Parsed(tokens[i])];
      i := i + 1;
    }
    assert tokens[..i] == tokens;
  }

  /** `d` pushes of one default value. */
  method FillCoordinates(d: nat, value: real) returns (cs: seq<Coordinate>)
    ensures cs == Filled(d, value)
  {
    cs := [];
    var i := 0;
    while i < d
      invariant 0 <= i <= d
      invariant cs == Filled(i, value)
    {
      cs := cs + [Literal(value)];
      i := i + 1;
    }
  }

  /** The explicit Direction parse: resize to `d` empty rows, then push `t / 2` tokens onto each of the first `t / 2` rows. */
  method ParseDirection(tokens: seq<string>, d: nat) returns (m: seq<seq<Coordinate>>)
    requires DirectionIndexable(|tokens|, d)
    ensures m == ExplicitDirection(tokens, d)
  {
    var h := |tokens| / 2;
    ghost var target := ExplicitDirection(tokens, d);
    m := seq(d, _ => []);
    var ii := 0;
    var i := 0;
    while i < h
      invariant 0 <= i <= h && ii == i * h && |m| == d
      invariant forall r :: i <= r < d ==> m[r] == []
      invariant forall r :: 0 <= r < i ==> m[r] == target[r]
    {
      ghost var row := DirectionRow(tokens, h, i);
      var j := 0;
      while j < h
        invariant 0 <= j <= h && ii == i * h + j && |m| == d
        invariant m[i] == row[..j]
        invariant forall r :: i < r < d ==> m[r] == []
        invariant forall r :: 0 <= r < i ==> m[r] == target[r]
      {
        RowMajorBound(i, j, h);
        m := m[i := m[i] + [Parsed(tokens[ii])]];
        ii := ii + 1;
        j := j + 1;
      }
      assert m[i] == row == target[i];
      i := i + 1;
    }
    assert forall r :: 0 <= r < d ==> m[r] == target[r];
  }

  /** The default direction: resize to `d` empty rows, then push 1 on the diagonal and 0 elsewhere. */
  method IdentityDirection(d: nat) returns (m: seq<seq<Coordinate>>)
    ensures m == Identity(d)
  {
    m := seq(d, _ => []);
    var i := 0;
    while i < d
      invariant 0 <= i <= d && |m| == d
      invariant forall r :: 0 <= r < i ==> m[r] == Identity(d)[r]
      invariant forall r :: i <= r < d ==> m[r] == []
    {
      var j := 0;
      while j < d
        invariant 0 <= j <= d && |m| == d && |m[i]| == j
        invariant forall c :: 0 <= c < j ==> m[i][c] == if i == c then Literal(1.0) else Literal(0.0)
        invariant forall r :: 0 <= r < i ==> m[r] == Identity(d)[r]
        invariant forall r :: i < r < d ==> m[r] == []
      {
        if i == j {
          m := m[i := m[i] + [Literal(1.0)]];
        } else {
          m := m[i := m[i] + [Literal(0.0)]];
        }
        j := j + 1;
      }
      i := i + 1;
    }
  }

  /** One regular-expression search and SplitString of its group: the tokens of the `Key=` field. */
  method SplitField(name: string, key: string) returns (found: bool, tempVector: seq<string>)
    requires |name| < NPOS
    ensures found <==> FieldValue(name, key).Some?
    ensures tempVector == FieldTokens(name, key)
  {
    var m := FieldValue(name, key);
    found := m.Some?;
    tempVector := [];
    if found {
      tempVector := SplitString(m.value, ",", []);
    }
  }

  /**
   * The four vectors ReadImageInformation fills from the name: the sizes,
   * and the spacing, origin and direction with their defaults; spacing and
   * origin may hold more entries than there are dimensions.
   */
  method ParseFields(name: string) returns (sizeVector: seq<nat>, spacingVector: seq<Coordinate>,
                                            originVector: seq<Coordinate>, directionVector: seq<seq<Coordinate>>)
    requires |name| < NPOS && WellDefined(name)
    ensures sizeVector == Sizes(FieldTokens(name, "Size"))
    ensures var d := |sizeVector|;
      d <= |spacingVector| && spacingVector[..d] == CoordinatesOrDefault(FieldTokens(name, "Spacing"), d, 1.0)
    ensures var d := |sizeVector|;
      d <= |originVector| && originVector[..d] == CoordinatesOrDefault(FieldTokens(name, "Origin"), d, 0.0)
    ensures directionVector ==
      if FieldValue(name, "Direction").Some? then ExplicitDirection(FieldTokens(name, "Direction"), |sizeVector|)
      else Identity(|sizeVector|)
  {
    spacingVector, originVector, directionVector := [], [], [];

    var found, tempVector := SplitField(name, "Size");
    sizeVector := ParseSizes(tempVector);
    var d := |sizeVector|;

    found, tempVector := SplitField(name, "Spacing");
    if found {
      spacingVector := ParseCoordinates(tempVector);
    }
    found, tempVector := SplitField(name, "Origin");
    if found {
      originVector := ParseCoordinates(tempVector);
    }
    found, tempVector := SplitField(name, "Direction");
    if found {
      directionVector := ParseDirection(tempVector, d);
    }

    spacingVector, originVector, directionVector := FillDefaults(d, spacingVector, originVector, directionVector);
    assert |directionVector| == 0 ==> d == 0;
  }

  /** The defaults for `d` dimensions: zero origin, unit spacing and identity direction where a vector is still empty. */
  method FillDefaults(d: nat, spacing: seq<Coordinate>, origin: seq<Coordinate>, direction: seq<seq<Coordinate>>)
    returns (spacingVector: seq<Coordinate>, originVector: seq<Coordinate>, directionVector: seq<seq<Coordinate>>)
    ensures spacingVector == if |spacing| == 0 then Filled(d, 1.0) else spacing
    ensures originVector == if |origin| == 0 then Filled(d, 0.0) else origin
    ensures directionVector == if |direction| == 0 then Identity(d) else direction
  {
    spacingVector, originVector, directionVector := spacing, origin, direction;
    if |originVector| == 0 {
      originVector := FillCoordinates(d, 0.0);
    }
    if |spacingVector| == 0 {
      spacingVector := FillCoordinates(d, 1.0);
    }
    if |directionVector| == 0 {
      directionVector := IdentityDirection(d);
    }
  }

  /**
   * The number of dimensions is the number of comma-separated tokens of the
   * Size value, 0 without a Size field; every per-axis vector has that length.
   */
  lemma DimensionCount(name: string)
    requires WellDefined(name)
    ensures var info := Describe(name);
      info.numberOfDimensions == |info.dimensions| == |info.spacing| == |info.origin| == |info.direction| &&
      info.numberOfDimensions == match FieldValue(name, "Size") case None => 0 case Some(v) => |Tokens(v, ",")|
  {
  }

  /**
   * A Spacing or Origin field that gives no values, absent or not, gets the
   * default on every axis; an absent Direction gets the identity.
   */
  lemma DefaultsWhenNoValues(name: string)
    requires WellDefined(name)
    ensures var info := Describe(name); var d := info.numberOfDimensions;
      (FieldTokens(name, "Origin") == [] ==> forall i :: 0 <= i < d ==> info.origin[i] == Literal(0.0)) &&
      (FieldTokens(name, "Spacing") == [] ==> forall i :: 0 <= i < d ==> info.spacing[i] == Literal(1.0)) &&
      (FieldValue(name, "Direction").None? ==>
        forall i, j :: 0 <= i < d && 0 <= j < d ==>
          |info.direction[i]| == d && info.direction[i][j] == if i == j then Literal(1.0) else Literal(0.0))
  {
  }

  /**
   * A Direction field that is present but gives fewer than two values reads
   * no row, and suppresses the identity: every axis gets an empty direction.
   */
  lemma DirectionWithoutValues(name: string)
    requires WellDefined(name)
    requires FieldValue(name, "Direction").Some? && |FieldTokens(name, "Direction")| < 2
    ensures forall i :: 0 <= i < Describe(name).numberOfDimensions ==> Describe(name).direction[i] == []
  {
  }

  /** Whatever the name, the pixel is a scalar of one unsigned-char component. */
  lemma PixelInformationFixed(name: string)
    requires WellDefined(name)
    ensures Describe(name).numberOfComponents == 1
    ensures Describe(name).pixelType == Scalar && Describe(name).componentType == UChar
  {
  }

  /* A name that describes only a size, written from the dimensions. */

  /** The dimensions in decimal, separated by commas. */
  function JoinDecimal(dims: seq<nat>): string {
    if |dims| == 0 then ""
    else if |dims| == 1 then Decimal.Decimal(dims[0])
    else Decimal.Decimal(dims[0]) + "," + JoinDecimal(dims[1..])
  }

  /** `FileFreeIO::Size=` followed by the dimensions. */
  function SizeOnlyName(dims: seq<nat>): string {
    Prefix + "Size=" + JoinDecimal(dims)
  }

  lemma {:induction false} JoinDecimalCharacters(dims: seq<nat>)
    ensures forall i :: 0 <= i < |JoinDecimal(dims)| ==> Decimal.IsDigit(JoinDecimal(dims)[i]) || JoinDecimal(dims)[i] == ','
    decreases |dims|
  {
    if |dims| > 1 {
      JoinDecimalCharacters(dims[1..]);
      var ds := Decimal.Decimal(dims[0]);
      var j := JoinDecimal(dims);
      assert j == ds + "," + JoinDecimal(dims[1..]);
      forall i | |ds| + 1 <= i < |j|
        ensures Decimal.IsDigit(j[i]) || j[i] == ','
      {
        assert j[i] == JoinDecimal(dims[1..])[i - |ds| - 1];
      }
    }
  }

  /** The words of `a + b` from index `|a| + p` are those of `b` from `p`. */
  lemma {:induction false} WordsShift(a: string, b: string, seps: string, p: nat)
    requires p <= |b|
    ensures WordsFrom(a + b, seps, |a| + p) == WordsFrom(b, seps, p)
    decreases |b| - p
  {
    var t := a + b;
    if p < |b| {
      if IsOneOf(b[p], seps) {
        WordsShift(a, b, seps, p + 1);
      } else {
        WordEndShift(a, b, seps, p);
        var k := WordEnd(b, seps, p);
        assert t[|a| + p..|a| + k] == b[p..k];
        WordsShift(a, b, seps, k);
      }
    }
  }

  lemma {:induction false} WordEndShift(a: string, b: string, seps: string, p: nat)
    requires p <= |b|
    ensures WordEnd(a + b, seps, |a| + p) == |a| + WordEnd(b, seps, p)
    decreases |b| - p
  {
    if p < |b| && !IsOneOf(b[p], seps) {
      WordEndShift(a, b, seps, p + 1);
    }
  }

  /** A run of digits is one word, which ends where the digits end. */
  lemma {:induction false} DigitsWordEnd(t: string, p: nat, n: nat)
    requires p + n <= |t|
    requires forall i :: p <= i < p + n ==> Decimal.IsDigit(t[i])
    requires p + n == |t| || t[p + n] == ','
    ensures WordEnd(t, ",", p) == p + n
    decreases n
  {
    if n > 0 {
      assert !IsOneOf(t[p], ",");
      DigitsWordEnd(t, p + 1, n - 1);
    }
  }

  /** Splitting the joined dimensions on commas gives each dimension's decimal spelling. */
  lemma {:induction false} TokensOfJoinDecimal(dims: seq<nat>)
    ensures Tokens(JoinDecimal(dims), ",") == seq(|dims|, i requires 0 <= i < |dims| => Decimal.Decimal(dims[i]))
    decreases |dims|
  {
    var t := JoinDecimal(dims);
    if |dims| == 1 {
      var ds := Decimal.Decimal(dims[0]);
      DigitsWordEnd(t, 0, |ds|);
      assert t[0..|ds|] == ds;
    } else if |dims| > 1 {
      var ds := Decimal.Decimal(dims[0]);
      var rest := JoinDecimal(dims[1..]);
      assert t == (ds + ",") + rest;
      assert t[|ds|] == ',';
      DigitsWordEnd(t, 0, |ds|);
      assert t[0..|ds|] == ds;
      assert IsOneOf(t[|ds|], ",");
      assert WordsFrom(t, ",", 0) == [ds] + WordsFrom(t, ",", |ds|);
      assert WordsFrom(t, ",", |ds|) == WordsFrom(t, ",", |ds| + 1);
      WordsShift(ds + ",", rest, ",", 0);
      TokensOfJoinDecimal(dims[1..]);
      assert Tokens(t, ",") == [ds] + Tokens(rest, ",");
    }
  }

  /** A character the name does not contain rules out the key it belongs to. */
  lemma KeyAbsent(dims: seq<nat>, key: string, k: nat)
    requires k < |key| && key[k] !in "FileFreeIO::Size=" && !Decimal.IsDigit(key[k]) && key[k] != ','
    ensures FieldValue(SizeOnlyName(dims), key).None?
  {
    var name := SizeOnlyName(dims);
    var head := "FileFreeIO::Size=";
    var j := JoinDecimal(dims);
    JoinDecimalCharacters(dims);
    assert name == head + j;
    forall i | 0 <= i < |name|
      ensures name[i] != key[k]
    {
      if i < |head| {
        assert name[i] == head[i] && head[i] in head;
      } else {
        var c := j[i - |head|];
        assert name[i] == c;
        assert Decimal.IsDigit(c) || c == ',';
      }
    }
    assert (key + "=")[k] == key[k];
    AbsentCharacter(name, key + "=", k);
  }

  /** The joined dimensions hold no stop character. */
  lemma JoinDecimalNoStop(dims: seq<nat>)
    ensures NoStop(JoinDecimal(dims))
  {
    JoinDecimalCharacters(dims);
  }

  /** The first `Size=` of a size-only name follows the prefix. */
  lemma SizeKeyFound(dims: seq<nat>)
    ensures FindFrom(SizeOnlyName(dims), "Size=", 0) == Some(12)
  {
    var name := SizeOnlyName(dims);
    var pat := "Size=";
    assert name == Prefix + pat + JoinDecimal(dims);
    assert OccursAt(name, pat, 12);
    forall i | 0 <= i < 12
      ensures !OccursAt(name, pat, i)
    {
      assert name[i] == Prefix[i] && Prefix[i] in Prefix;
      assert 'S' !in Prefix;
      assert name[i..i + 5][0] == name[i];
    }
  }

  /** The Size field of a size-only name is the joined dimensions. */
  lemma SizeField(dims: seq<nat>)
    ensures FieldValue(SizeOnlyName(dims), "Size") == Some(JoinDecimal(dims))
    ensures FieldTokens(SizeOnlyName(dims), "Size") == Tokens(JoinDecimal(dims), ",")
  {
    var name := SizeOnlyName(dims);
    var j := JoinDecimal(dims);
    assert "Size" + "=" == "Size=";
    SizeKeyFound(dims);
    assert name[17..] == j;
    JoinDecimalNoStop(dims);
    var v := TakeValue(j);
    assert |v| == |j| && v == j;
  }

  /** The fields of a size-only name: the decimal sizes, and no Spacing, Origin or Direction. */
  lemma SizeOnlyNameFields(dims: seq<nat>)
    ensures FieldTokens(SizeOnlyName(dims), "Size") == seq(|dims|, i requires 0 <= i < |dims| => Decimal.Decimal(dims[i]))
    ensures FieldValue(SizeOnlyName(dims), "Spacing").None?
    ensures FieldValue(SizeOnlyName(dims), "Origin").None?
    ensures FieldValue(SizeOnlyName(dims), "Direction").None?
  {
    SizeField(dims);
    TokensOfJoinDecimal(dims);
    assert FieldTokens(SizeOnlyName(dims), "Size") == Tokens(JoinDecimal(dims), ",");
    KeyAbsent(dims, "Spacing", 1);
    KeyAbsent(dims, "Origin", 3);
    KeyAbsent(dims, "Direction", 4);
  }

  /** `atoi` reads back every decimal spelling. */
  lemma SizesOfDecimals(dims: seq<nat>)
    ensures Sizes(seq(|dims|, i requires 0 <= i < |dims| => Decimal.Decimal(dims[i]))) == dims
  {
    forall i | 0 <= i < |dims|
      ensures Decimal.Atoi(Decimal.Decimal(dims[i])) == dims[i]
    {
      Decimal.AtoiDecimal(dims[i], []);
      assert Decimal.Decimal(dims[i]) + [] == Decimal.Decimal(dims[i]);
    }
  }

  /**
   * Writing the dimensions into a name and reading its description gives
   * them back, with unit spacing, zero origin and identity direction.
   */
  lemma SizeOnlyNameRoundTrip(dims: seq<nat>)
    ensures var name := SizeOnlyName(dims);
      CanReadFile(name) && WellDefined(name) &&
      Describe(name) == ImageInformation(|dims|, dims, Filled(|dims|, 1.0), Filled(|dims|, 0.0),
                                         Identity(|dims|), 1, Scalar, UChar)
  {
    var name := SizeOnlyName(dims);
    assert Prefix <= name;
    SizeOnlyNameFields(dims);
    SizesOfDecimals(dims);
  }

  /** `v` resized to `d` entries: the prefix kept, new entries `fill`. */
  function Resize<T>(v: seq<T>, d: nat, fill: T): (r: seq<T>)
    ensures |r| == d
  {
    if d <= |v| then v[..d] else v + seq(d - |v|, _ => fill)
  }

  /** Number of pixels: the product of the dimensions. */
  function Product(s: seq<nat>): nat {
    if s == [] then 1 else s[0] * Product(s[1..])
  }

  /** GetImageSizeInBytes: pixels times components times the size of one component. */
  function ImageSizeInBytes(info: ImageInformation): nat
    requires info.componentType == UChar
  {
    Product(info.dimensions) * info.numberOfComponents * 1
  }

  /** The constant byte every pixel of a file-free image holds. */
  const PixelValue: bv8 := 175

  class FileFreeImageIO {
    var fileName: string
    var info: ImageInformation

    /** A reader of `fileName` (construction followed by SetFileName). */
    constructor (fileName: string)
      ensures this.fileName == fileName && info == Unread
    {
      this.fileName := fileName;
      info := Unread;
    }

    /** ImageIOBase::SetNumberOfDimensions: every per-axis vector resized to `d`. */
    method SetNumberOfDimensions(d: nat)
      modifies this
      ensures fileName == old(fileName)
      ensures info == old(info).(numberOfDimensions := d,
        dimensions := Resize(old(info).dimensions, d, 0),
        spacing := Resize(old(info).spacing, d, Literal(1.0)),
        origin := Resize(old(info).origin, d, Literal(0.0)),
        direction := Resize(old(info).direction, d, []))
    {
      info := info.(numberOfDimensions := d,
        dimensions := Resize(info.dimensions, d, 0),
        spacing := Resize(info.spacing, d, Literal(1.0)),
        origin := Resize(info.origin, d, Literal(0.0)),
        direction := Resize(info.direction, d, []));
    }

    /**
     * Parses the Size, Spacing, Origin and Direction fields of the name,
     * supplies the defaults, and records the result with the setters.
     */
    method ReadImageInformation()
      requires |fileName| < NPOS && WellDefined(fileName)
      modifies this
      ensures fileName == old(fileName)
      ensures info == Describe(fileName)
    {
      var name := fileName;
      var sizeVector, spacingVector, originVector, directionVector := ParseFields(name);
      var d := |sizeVector|;
      ghost var target := Describe(name);

      SetNumberOfDimensions(d);
      info := info.(numberOfComponents := 1, pixelType := Scalar, componentType := UChar);
      SetAxes(sizeVector, spacingVector, originVector, directionVector);
      assert spacingVector[..d] == target.spacing;
      assert originVector[..d] == target.origin;
    }

    /**
     * The final loop of ReadImageInformation: SetDimensions, SetSpacing,
     * SetOrigin and SetDirection for every axis `i < d`.
     */
    method SetAxes(sizeVector: seq<nat>, spacingVector: seq<Coordinate>,
                   originVector: seq<Coordinate>, directionVector: seq<seq<Coordinate>>)
      requires var d := |sizeVector|;
        d <= |spacingVector| && d <= |originVector| && d <= |directionVector| &&
        |info.dimensions| == |info.spacing| == |info.origin| == |info.direction| == d
      modifies this
      ensures fileName == old(fileName)
      ensures var d := |sizeVector|;
        info == old(info).(dimensions := sizeVector, spacing := spacingVector[..d],
                           origin := originVector[..d], direction := directionVector[..d])
    {
      var d := |sizeVector|;
      var i := 0;
      while i < d
        invariant 0 <= i <= d && fileName == old(fileName)
        invariant info == old(info).(dimensions := info.dimensions, spacing := info.spacing,
                                     origin := info.origin, direction := info.direction)
        invariant |info.dimensions| == |info.spacing| == |info.origin| == |info.direction| == d
        invariant info.dimensions[..i] == sizeVector[..i]
        invariant info.spacing[..i] == spacingVector[..i]
        invariant info.origin[..i] == originVector[..i]
        invariant info.direction[..i] == directionVector[..i]
      {
        info := info.(dimensions := info.dimensions[i := sizeVector[i]],
          spacing := info.spacing[i := spacingVector[i]],
          origin := info.origin[i := originVector[i]],
          direction := info.direction[i := directionVector[i]]);
        i := i + 1;
      }
      assert info.dimensions == info.dimensions[..d] && sizeVector == sizeVector[..d];
      assert info.spacing == info.spacing[..d];
      assert info.origin == info.origin[..d];
      assert info.direction == info.direction[..d];
    }

    /** `memset` of the first GetImageSizeInBytes bytes of the buffer to 175. */
    method Read(buffer: array<bv8>)
      requires info.componentType == UChar && ImageSizeInBytes(info) <= buffer.Length
      modifies buffer
      ensures forall k :: 0 <= k < ImageSizeInBytes(info) ==> buffer[k] == PixelValue
      ensures forall k :: ImageSizeInBytes(info) <= k < buffer.Length ==> buffer[k] == old(buffer[k])
    {
      var n := ImageSizeInBytes(info);
      var k := 0;
      while k < n
        invariant 0 <= k <= n
        invariant forall j :: 0 <= j < k ==> buffer[j] == PixelValue
        invariant forall j :: n <= j < buffer.Length ==> buffer[j] == old(buffer[j])
      {
        buffer[k] := PixelValue;
        k := k + 1;
      }
    }

    /** Writing is not supported: nothing changes. */
    method WriteImageInformation()
      ensures unchanged(this)
    {
    }

    /** Writing is not supported: nothing changes. */
    method Write(buffer: seq<bv8>)
      ensures unchanged(this)
    {
    }
  }
}
