/**
 * Text normalisation and tokenisation of the search engine
 * (`_norm`, `_tok` and `_STOPWORDS_ES` in backend/services/search_service.py).
 */
module Tokenizer {
  import opened Text

  /** Characters `_norm` keeps as they are: `\w`, `\s` and `-`. */
  predicate Kept(c: char) { IsWordChar(c) || IsPySpace(c) || c == '-' }

  predicate NotKept(c: char) { !Kept(c) }

  predicate SpaceOrUnderscore(c: char) { IsPySpace(c) || c == '_' }

  /**
   * `_norm`: fold case and accents, turn every run of other characters
   * into one space, then every run of whitespace and underscores into one
   * space, and strip.
   */
  function Norm(s: string): string
  {
    var folded := MapChars(Fold, s);
    var punct := CollapseRuns(folded, NotKept, ' ');
    var spaced := CollapseRuns(punct, SpaceOrUnderscore, ' ');
    PyStrip(spaced)
  }

  /** The shape `_norm` promises: single inner spaces only, no underscore, nothing at the ends. */
  ghost predicate Clean(r: string) {
    && (forall i :: 0 <= i < |r| ==> r[i] != '_' && (IsPySpace(r[i]) ==> r[i] == ' '))
    && (forall i :: 0 <= i < |r| - 1 ==> !(r[i] == ' ' && r[i + 1] == ' '))
    && (r != [] ==> r[0] != ' ' && r[|r| - 1] != ' ')
  }

  lemma StripCollapsedIsClean(s: string)
    requires Collapsed(s, SpaceOrUnderscore, ' ')
    ensures Clean(PyStrip(s))
  {
    var t := TrimStart(s, IsPySpace);
    var r := TrimEnd(t, IsPySpace);
    var a := |s| - |t|;
    assert r == s[a..a + |r|];
    assert forall i :: 0 <= i < |r| ==> r[i] == s[a + i];
    forall i | 0 <= i < |r|
      ensures r[i] != '_' && (IsPySpace(r[i]) ==> r[i] == ' ')
    {
      assert SpaceOrUnderscore(s[a + i]) ==> s[a + i] == ' ';
    }
    forall i | 0 <= i < |r| - 1
      ensures !(r[i] == ' ' && r[i + 1] == ' ')
    {
      assert !(s[a + i] == ' ' && s[a + i + 1] == ' ');
    }
    assert r == PyStrip(s);
  }

  /** The output of `_norm` has no leading, trailing or repeated whitespace and no underscore. */
  lemma NormIsClean(s: string)
    ensures Clean(Norm(s))
  {
    var punct := CollapseRuns(MapChars(Fold, s), NotKept, ' ');
    CollapseRunsClean(punct, SpaceOrUnderscore, ' ');
    StripCollapsedIsClean(CollapseRuns(punct, SpaceOrUnderscore, ' '));
  }

  /** `re.sub(r"([0-9]+)([a-z]+)", r"\1 \2", s)`: a space at every digit-to-letter boundary. */
  function SplitDigitLetter(s: string): (r: string)
    ensures s != [] ==> r != [] && r[0] == s[0]
  {
    if |s| < 2 then s
    else if IsDigit(s[0]) && IsAsciiLower(s[1]) then [s[0], ' '] + SplitDigitLetter(s[1..])
    else [s[0]] + SplitDigitLetter(s[1..])
  }

  /** `re.sub(r"([a-z]+)([0-9]+)", r"\1 \2", s)`: a space at every letter-to-digit boundary. */
  function SplitLetterDigit(s: string): (r: string)
    ensures s != [] ==> r != [] && r[0] == s[0]
  {
    if |s| < 2 then s
    else if IsAsciiLower(s[0]) && IsDigit(s[1]) then [s[0], ' '] + SplitLetterDigit(s[1..])
    else [s[0]] + SplitLetterDigit(s[1..])
  }

  /** The characters a token is made of: `[a-z0-9]`. */
  predicate IsTokChar(c: char) { IsAsciiLower(c) || IsDigit(c) }

  /** Length of the leading run of token characters. */
  function RunLen(s: string): (n: nat)
    ensures n <= |s|
    ensures forall i :: 0 <= i < n ==> IsTokChar(s[i])
    ensures n < |s| ==> !IsTokChar(s[n])
  {
    if s != [] && IsTokChar(s[0]) then 1 + RunLen(s[1..]) else 0
  }

  /**
   * `re.split(r"[^a-z0-9]+", s)` without the empty pieces (the ones the
   * `if t` filter of `_tok` drops): the maximal runs of token characters.
   */
  function Runs(s: string): (r: seq<string>)
    ensures forall k :: 0 <= k < |r| ==> r[k] != [] && forall i :: 0 <= i < |r[k]| ==> IsTokChar(r[k][i])
    decreases |s|
  {
    if s == [] then []
    else if !IsTokChar(s[0]) then Runs(s[1..])
    else
      var n := RunLen(s);
      [s[..n]] + Runs(s[n..])
  }

  /** `[t for t in toks if t and len(t) >= 2]` */
  function KeepLong(ts: seq<string>): (r: seq<string>)
    ensures forall k :: 0 <= k < |r| ==> r[k] in ts && |r[k]| >= 2
  {
    if ts == [] then []
    else if |ts[0]| >= 2 then [ts[0]] + KeepLong(ts[1..])
    else KeepLong(ts[1..])
  }

  /** `_tok` */
  function Tok(s: string): (r: seq<string>)
    ensures forall k :: 0 <= k < |r| ==> |r[k]| >= 2 && forall i :: 0 <= i < |r[k]| ==> IsTokChar(r[k][i])
  {
    KeepLong(Runs(SplitLetterDigit(SplitDigitLetter(Norm(s)))))
  }

  /** A letter and a digit side by side. */
  predicate Mixed(a: char, b: char) {
    (IsDigit(a) && IsAsciiLower(b)) || (IsAsciiLower(a) && IsDigit(b))
  }

  ghost predicate NoDigitLetter(s: string) {
    forall i :: 0 <= i < |s| - 1 ==> !(IsDigit(s[i]) && IsAsciiLower(s[i + 1]))
  }

  ghost predicate NoMixed(s: string) {
    forall i :: 0 <= i < |s| - 1 ==> !Mixed(s[i], s[i + 1])
  }

  lemma {:induction false} SplitDigitLetterSeparates(s: string)
    ensures NoDigitLetter(SplitDigitLetter(s))
  {
    if |s| >= 2 {
      SplitDigitLetterSeparates(s[1..]);
    }
  }

  lemma {:induction false} SplitLetterDigitSeparates(s: string)
    requires NoDigitLetter(s)
    ensures NoMixed(SplitLetterDigit(s))
  {
    if |s| >= 2 {
      assert NoDigitLetter(s[1..]) by {
        forall i | 0 <= i < |s[1..]| - 1 ensures !(IsDigit(s[1..][i]) && IsAsciiLower(s[1..][i + 1])) {
          assert s[1..][i] == s[i + 1] && s[1..][i + 1] == s[i + 2];
        }
      }
      SplitLetterDigitSeparates(s[1..]);
    }
  }

  /** All letters or all digits. */
  ghost predicate OneClass(t: string) {
    (forall i :: 0 <= i < |t| ==> IsAsciiLower(t[i])) || (forall i :: 0 <= i < |t| ==> IsDigit(t[i]))
  }

  lemma {:induction false} RunIsOneClass(s: string, n: nat)
    requires n <= |s| && NoMixed(s)
    requires forall i :: 0 <= i < n ==> IsTokChar(s[i])
    ensures OneClass(s[..n])
  {
    if n >= 2 {
      RunIsOneClass(s, n - 1);
      assert !Mixed(s[n - 2], s[n - 1]);
      assert s[..n] == s[..n - 1] + [s[n - 1]];
    }
  }

  lemma {:induction false} RunsAreOneClass(s: string)
    requires NoMixed(s)
    ensures forall k :: 0 <= k < |Runs(s)| ==> OneClass(Runs(s)[k])
    decreases |s|
  {
    if s != [] {
      if !IsTokChar(s[0]) {
        RunsAreOneClass(s[1..]);
      } else {
        var n := RunLen(s);
        RunIsOneClass(s, n);
        RunsAreOneClass(s[n..]);
      }
    }
  }

  /** Letters and digits never share a token: "ip65" gives "ip" and "65". */
  lemma TokensAreOneClass(s: string)
    ensures forall k :: 0 <= k < |Tok(s)| ==> OneClass(Tok(s)[k])
  {
    var n := Norm(s);
    SplitDigitLetterSeparates(n);
    SplitLetterDigitSeparates(SplitDigitLetter(n));
    RunsAreOneClass(SplitLetterDigit(SplitDigitLetter(n)));
  }

  lemma {:induction false} CollapseRunsNoop(s: string, p: char -> bool, rep: char)
    requires forall i :: 0 <= i < |s| ==> !p(s[i])
    ensures CollapseRuns(s, p, rep) == s
  {
    if s != [] {
      CollapseRunsNoop(s[1..], p, rep);
      assert s == [s[0]] + s[1..];
    }
  }

  /** A string made of token characters only is its own normal form. */
  lemma NormKeepsTokenText(s: string)
    requires forall i :: 0 <= i < |s| ==> IsTokChar(s[i])
    ensures Norm(s) == s
  {
    var folded := MapChars(Fold, s);
    assert folded == s;
    CollapseRunsNoop(s, NotKept, ' ');
    CollapseRunsNoop(s, SpaceOrUnderscore, ' ');
    assert TrimStart(s, IsPySpace) == s;
    assert TrimEnd(s, IsPySpace) == s;
  }

  /** On token text `_tok` only splits and filters: normalisation has nothing to do. */
  lemma TokOfTokenText(s: string)
    requires forall i :: 0 <= i < |s| ==> IsTokChar(s[i])
    ensures Tok(s) == KeepLong(Runs(SplitLetterDigit(SplitDigitLetter(s))))
  {
    NormKeepsTokenText(s);
  }

  lemma SplitIp65()
    ensures SplitLetterDigit(SplitDigitLetter("ip65")) == "ip 65"
  {
    assert SplitDigitLetter("65") == "65";
    assert SplitDigitLetter("p65") == "p65";
    assert SplitLetterDigit("65") == "65";
    assert SplitLetterDigit("p65") == "p 65";
  }

  lemma TokensOfIp65()
    ensures KeepLong(Runs("ip 65")) == ["ip", "65"]
  {
    var b := "ip 65";
    RunsOf65();
    assert RunLen(b) == 2 && b[..2] == "ip" && b[2..] == " 65";
    assert Runs(b) == ["ip", "65"];
  }

  /** The piece after the space is "65". */
  lemma RunsOf65()
    ensures Runs(" 65") == ["65"]
  {
    var a := "65";
    assert RunLen(a) == 2 && a[..2] == "65" && a[2..] == [];
    assert Runs(a) == ["65"];
    assert " 65"[1..] == a;
  }

  /** "ip65" gives the two tokens "ip" and "65". */
  lemma TokSplitsLetterDigit()
    ensures Tok("ip65") == ["ip", "65"]
  {
    TokOfTokenText("ip65");
    SplitIp65();
    TokensOfIp65();
  }

  lemma Split3000k()
    ensures SplitLetterDigit(SplitDigitLetter("3000k")) == "3000 k"
  {
    assert SplitDigitLetter("0k") == "0 k";
    assert SplitDigitLetter("00k") == "00 k";
    assert SplitDigitLetter("000k") == "000 k";
    assert SplitDigitLetter("3000k") == "3000 k";
    assert SplitLetterDigit(" k") == " k";
    assert SplitLetterDigit("0 k") == "0 k";
    assert SplitLetterDigit("00 k") == "00 k";
    assert SplitLetterDigit("000 k") == "000 k";
  }

  lemma TokensOf3000k()
    ensures KeepLong(Runs("3000 k")) == ["3000"]
  {
    var b := "3000 k";
    RunsOfK();
    assert RunLen(b) == 4 && b[..4] == "3000" && b[4..] == " k";
    assert Runs(b) == ["3000", "k"];
  }

  /** The piece after the space is the single letter "k". */
  lemma RunsOfK()
    ensures Runs(" k") == ["k"]
  {
    var a := "k";
    assert RunLen(a) == 1 && a[..1] == "k" && a[1..] == [];
    assert Runs(a) == ["k"];
    assert " k"[1..] == a;
  }

  /** "3000k" gives "3000" only: the one-letter piece "k" is dropped. */
  lemma TokDropsShortPieces()
    ensures Tok("3000k") == ["3000"]
  {
    TokOfTokenText("3000k");
    Split3000k();
    TokensOf3000k();
  }

  /** `_STOPWORDS_ES` */
  const Stopwords: set<string> := {
    "de", "del", "la", "el", "los", "las", "un", "una", "unos", "unas", "y", "o", "u", "a", "en",
    "por", "para", "con", "sin", "que", "quien", "quién", "cuando", "cuándo", "donde", "dónde",
    "como", "cómo", "cual", "cuál", "cuáles", "es", "son", "ser", "estar", "haber", "hay", "hace",
    "al", "este", "esta", "esto", "estas", "estos", "lo", "le", "les", "mi", "tu", "su", "sus",
    "hola", "buenas", "buenos", "dias", "días", "tardes", "noches", "quiero", "necesito"
  }

  /** `[t for t in toks if t not in _STOPWORDS_ES]` */
  function NonStop(toks: seq<string>): (r: seq<string>)
    ensures forall k :: 0 <= k < |r| ==> r[k] in toks && r[k] !in Stopwords
    ensures forall t :: t in toks && t !in Stopwords ==> t in r
  {
    if toks == [] then []
    else if toks[0] in Stopwords then NonStop(toks[1..])
    else [toks[0]] + NonStop(toks[1..])
  }
}
