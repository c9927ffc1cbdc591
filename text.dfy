/**
 * Characters and strings as Python's and JavaScript's string methods see
 * them. Unicode is modelled on ASCII plus the accented letters of Spanish
 * (á é í ó ú ü ñ in both cases); see the README for what that leaves out.
 */
module Text {

  predicate IsAsciiLower(c: char) { 'a' <= c <= 'z' }
  predicate IsAsciiUpper(c: char) { 'A' <= c <= 'Z' }
  predicate IsDigit(c: char) { '0' <= c <= '9' }
  predicate IsAsciiAlnum(c: char) { IsAsciiLower(c) || IsAsciiUpper(c) || IsDigit(c) }

  /** The accented Spanish letters the model knows, lower case. */
  predicate IsAccentedLower(c: char) {
    c == 'á' || c == 'é' || c == 'í' || c == 'ó' || c == 'ú' || c == 'ü' || c == 'ñ'
  }
  predicate IsAccentedUpper(c: char) {
    c == 'Á' || c == 'É' || c == 'Í' || c == 'Ó' || c == 'Ú' || c == 'Ü' || c == 'Ñ'
  }

  /** Python's `str.isspace` (also the `\s` class of a `str` regular expression). */
  predicate IsPySpace(c: char) {
    c == ' ' || ('\t' <= c <= '\r') || ('\U{1C}' <= c <= '\U{1F}') || c == '\U{85}' || c == '\U{A0}'
    || c == '\U{1680}' || ('\U{2000}' <= c <= '\U{200A}') || c == '\U{2028}' || c == '\U{2029}'
    || c == '\U{202F}' || c == '\U{205F}' || c == '\U{3000}'
  }

  /** ECMAScript WhiteSpace and LineTerminator: `\s` and what `String.prototype.trim` removes. */
  predicate IsJsSpace(c: char) {
    c == ' ' || ('\t' <= c <= '\r') || c == '\U{A0}' || c == '\U{1680}' || ('\U{2000}' <= c <= '\U{200A}')
    || c == '\U{2028}' || c == '\U{2029}' || c == '\U{202F}' || c == '\U{205F}' || c == '\U{3000}'
    || c == '\U{FEFF}'
  }

  /** A regular-expression word character (`\w`): letters, digits and underscore. */
  predicate IsWordChar(c: char) {
    IsAsciiAlnum(c) || c == '_' || IsAccentedLower(c) || IsAccentedUpper(c)
  }

  /** Python's `str.lower` on one character. */
  function Lower(c: char): (r: char)
    ensures IsAsciiUpper(c) ==> IsAsciiLower(r)
    ensures !IsAsciiUpper(c) && !IsAccentedUpper(c) ==> r == c
  {
    if IsAsciiUpper(c) then (c as int + 32) as char
    else if c == 'Á' then 'á' else if c == 'É' then 'é' else if c == 'Í' then 'í'
    else if c == 'Ó' then 'ó' else if c == 'Ú' then 'ú' else if c == 'Ü' then 'ü'
    else if c == 'Ñ' then 'ñ'
    else c
  }

  /** Python's `str.upper` on one character. */
  function Upper(c: char): (r: char)
    ensures IsAsciiLower(c) ==> IsAsciiUpper(r)
    ensures !IsAsciiLower(c) && !IsAccentedLower(c) ==> r == c
  {
    if IsAsciiLower(c) then (c as int - 32) as char
    else if c == 'á' then 'Á' else if c == 'é' then 'É' else if c == 'í' then 'Í'
    else if c == 'ó' then 'Ó' else if c == 'ú' then 'Ú' else if c == 'ü' then 'Ü'
    else if c == 'ñ' then 'Ñ'
    else c
  }

  /**
   * Lower-casing followed by NFD decomposition with the combining marks
   * dropped: every accented letter becomes its unaccented lower-case base.
   */
  function Fold(c: char): (r: char)
    ensures !IsAsciiUpper(c) && !IsAccentedLower(c) && !IsAccentedUpper(c) ==> r == c
    ensures IsAsciiUpper(c) || IsAccentedLower(c) || IsAccentedUpper(c) ==> IsAsciiLower(r)
  {
    var l := Lower(c);
    if l == 'á' then 'a' else if l == 'é' then 'e' else if l == 'í' then 'i'
    else if l == 'ó' then 'o' else if l == 'ú' || l == 'ü' then 'u' else if l == 'ñ' then 'n'
    else l
  }

  function MapChars(f: char -> char, s: string): (r: string)
    ensures |r| == |s| && forall i :: 0 <= i < |s| ==> r[i] == f(s[i])
  {
    if s == [] then [] else [f(s[0])] + MapChars(f, s[1..])
  }

  /** `s.strip()` with `ws` as the whitespace class: the slice left after dropping ws at both ends. */
  function TrimStart(s: string, ws: char -> bool): (r: string)
    ensures |r| <= |s| && r == s[|s| - |r|..]
    ensures r != [] ==> !ws(r[0])
    ensures forall k :: 0 <= k < |s| - |r| ==> ws(s[k])
  {
    if s != [] && ws(s[0]) then TrimStart(s[1..], ws) else s
  }

  function TrimEnd(s: string, ws: char -> bool): (r: string)
    ensures |r| <= |s| && r == s[..|r|]
    ensures r != [] ==> !ws(r[|r| - 1])
    ensures forall k :: |r| <= k < |s| ==> ws(s[k])
  {
    if s != [] && ws(s[|s| - 1]) then TrimEnd(s[..|s| - 1], ws) else s
  }

  function Trim(s: string, ws: char -> bool): (r: string)
    ensures r != [] ==> !ws(r[0]) && !ws(r[|r| - 1])
    ensures var a := |s| - |TrimStart(s, ws)|; a + |r| <= |s| && r == s[a..a + |r|]
  {
    TrimEnd(TrimStart(s, ws), ws)
  }

  /** Python's `str.strip()`. */
  function PyStrip(s: string): string { Trim(s, IsPySpace) }

  /** Stripping does nothing to a string whose ends are not whitespace. */
  lemma StripNoop(s: string)
    requires s != [] ==> !IsPySpace(s[0]) && !IsPySpace(s[|s| - 1])
    ensures PyStrip(s) == s
  {
  }

  /** JavaScript's `String.prototype.trim()`. */
  function JsTrim(s: string): string { Trim(s, IsJsSpace) }

  /** The number of characters from `q` on that satisfy `p`. */
  function RunFrom(text: string, q: nat, p: char -> bool): (n: nat)
    ensures q + n <= |text| || n == 0
    ensures forall k :: q <= k < q + n ==> p(text[k])
    ensures q + n < |text| ==> !p(text[q + n])
    decreases |text| - q
  {
    if q < |text| && p(text[q]) then 1 + RunFrom(text, q + 1, p) else 0
  }

  /** A run bounded by a character outside the class has exactly its own length. */
  lemma RunFromExact(text: string, q: nat, p: char -> bool, n: nat)
    requires q + n <= |text| && forall k :: q <= k < q + n ==> p(text[k])
    requires q + n < |text| ==> !p(text[q + n])
    ensures RunFrom(text, q, p) == n
  {
  }

  /** The rest of `s` after its leading characters that satisfy `p`. */
  function DropWhile(s: string, p: char -> bool): (r: string)
    ensures |r| <= |s| && r == s[|s| - |r|..]
    ensures r != [] ==> !p(r[0])
    ensures s != [] && p(s[0]) ==> |r| < |s|
  {
    if s != [] && p(s[0]) then DropWhile(s[1..], p) else s
  }

  /** `re.sub(r"[P]+", rep, s)`: every maximal run of characters in `p` becomes one `rep`. */
  function CollapseRuns(s: string, p: char -> bool, rep: char): (r: string)
    ensures s != [] ==> r != [] && r[0] == (if p(s[0]) then rep else s[0])
    decreases |s|
  {
    if s == [] then []
    else if p(s[0]) then [rep] + CollapseRuns(DropWhile(s, p), p, rep)
    else [s[0]] + CollapseRuns(s[1..], p, rep)
  }

  /** What `CollapseRuns(_, p, rep)` leaves: `rep` is the only character of `p`, never twice in a row. */
  ghost predicate Collapsed(s: string, p: char -> bool, rep: char) {
    && (forall i :: 0 <= i < |s| && p(s[i]) ==> s[i] == rep)
    && (forall i :: 0 <= i < |s| - 1 ==> !(s[i] == rep && s[i + 1] == rep))
  }

  /**
   * After collapsing, the only character of the class left is `rep` (when
   * `rep` is itself in the class), and no two of them are adjacent.
   */
  lemma {:induction false} CollapseRunsClean(s: string, p: char -> bool, rep: char)
    requires p(rep)
    ensures Collapsed(CollapseRuns(s, p, rep), p, rep)
    decreases |s|
  {
    if s != [] {
      var r := CollapseRuns(s, p, rep);
      if p(s[0]) {
        var d := DropWhile(s, p);
        CollapseRunsClean(d, p, rep);
        assert r == [rep] + CollapseRuns(d, p, rep);
        assert d != [] ==> CollapseRuns(d, p, rep)[0] == d[0] && d[0] != rep;
      } else {
        CollapseRunsClean(s[1..], p, rep);
        assert r == [s[0]] + CollapseRuns(s[1..], p, rep);
        assert s[0] != rep;
      }
    }
  }

  /** Python's `needle in hay` on strings: `needle` occurs as a contiguous part of `hay`. */
  predicate Contains(hay: string, needle: string)
    decreases |hay|
  {
    needle <= hay || (hay != [] && Contains(hay[1..], needle))
  }

  /** Every string contains itself. */
  lemma ContainsSelf(s: string)
    ensures Contains(s, s)
  {
  }

  /** `sep.join(xs)` */
  function Join(sep: string, xs: seq<string>): string
  {
    if xs == [] then "" else if |xs| == 1 then xs[0] else xs[0] + sep + Join(sep, xs[1..])
  }

  /** Python's `a < b` on strings: lexicographic by code point. */
  predicate LexLess(a: string, b: string)
  {
    if a == [] then b != []
    else if b == [] then false
    else if a[0] != b[0] then a[0] < b[0]
    else LexLess(a[1..], b[1..])
  }

  lemma {:induction false} LexLessIrreflexive(a: string)
    ensures !LexLess(a, a)
  {
    if a != [] { LexLessIrreflexive(a[1..]); }
  }

  lemma {:induction false} LexLessTransitive(a: string, b: string, c: string)
    requires LexLess(a, b) && LexLess(b, c)
    ensures LexLess(a, c)
  {
    if a != [] && b != [] && c != [] && a[0] == b[0] && b[0] == c[0] {
      LexLessTransitive(a[1..], b[1..], c[1..]);
    }
  }

  /** Distinct strings are ordered one way or the other. */
  lemma {:induction false} LexLessTotal(a: string, b: string)
    requires a != b
    ensures LexLess(a, b) || LexLess(b, a)
  {
    if a != [] && b != [] && a[0] == b[0] {
      assert a == [a[0]] + a[1..] && b == [b[0]] + b[1..];
      LexLessTotal(a[1..], b[1..]);
    }
  }

  /** `int(s)` for a string of ASCII digits. */
  function DigitsValue(s: string): (r: nat)
    requires forall i :: 0 <= i < |s| ==> IsDigit(s[i])
    ensures r < Pow10(|s|)
  {
    if s == [] then 0
    else
      var h := DigitsValue(s[..|s| - 1]);
      assert IsDigit(s[|s| - 1]);
      var d := s[|s| - 1] as int - '0' as int;
      assert h <= Pow10(|s| - 1) - 1 && 0 <= d <= 9;
      assert h * 10 + d <= (Pow10(|s| - 1) - 1) * 10 + 9;
      h * 10 + d
  }

  function Pow10(n: nat): (r: nat)
    ensures r >= 1
  {
    if n == 0 then 1 else 10 * Pow10(n - 1)
  }
}
