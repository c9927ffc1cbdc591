/**
 * Character-trigram similarity of the query expansion
 * (`_ngrams` and `_char_sim` in backend/services/search_service.py).
 */
module Trigram {

  /** `p[i:i+3]` */
  function Window(p: string, i: nat): string
    requires i + 3 <= |p|
  {
    p[i..i + 3]
  }

  /** The three-character windows of `p` starting before position `k`. */
  function Windows(p: string, k: nat): (r: set<string>)
    requires k + 2 <= |p|
    ensures |r| <= k
    ensures forall w :: w in r ==> |w| == 3
    ensures k > 0 ==> Window(p, k - 1) in r
  {
    if k == 0 then {} else Windows(p, k - 1) + {Window(p, k - 1)}
  }

  lemma {:induction false} WindowsMember(p: string, k: nat, w: string)
    requires k + 2 <= |p|
    ensures w in Windows(p, k) <==> exists i :: 0 <= i < k && Window(p, i) == w
  {
    if k > 0 {
      WindowsMember(p, k - 1, w);
    }
  }

  /** `_ngrams(s)`: the trigrams of `s` padded with one space on each side. */
  function Ngrams(s: string): (r: set<string>)
    ensures s == "" ==> r == {}
    ensures s != "" ==> 1 <= |r| <= |s|
    ensures forall w :: w in r ==> |w| == 3
  {
    var p := " " + s + " ";
    // range(max(0, len(p) - 3 + 1)) has |s| elements
    Windows(p, |s|)
  }

  /** The trigrams are exactly the windows `p[i:i+3]` for `i` in `range(len(s))`. */
  lemma NgramsAreWindows(s: string, w: string)
    ensures w in Ngrams(s) <==> exists i :: 0 <= i < |s| && Window(" " + s + " ", i) == w
  {
    WindowsMember(" " + s + " ", |s|, w);
  }

  /** `_char_sim(a, b)`: the Jaccard index of the two trigram sets. */
  function CharSim(a: string, b: string): (r: real)
    ensures 0.0 <= r <= 1.0
    ensures Ngrams(a) == {} || Ngrams(b) == {} ==> r == 0.0
  {
    var x, y := Ngrams(a), Ngrams(b);
    if x == {} || y == {} then 0.0
    else
      SubsetCard(x * y, x + y);
      (|x * y| as real) / (|x + y| as real)
  }

  lemma SubsetCard<T>(a: set<T>, b: set<T>)
    requires a <= b
    ensures |a| <= |b|
  {
    assert b == a + (b - a);
  }

  /** The similarity does not depend on the order of its arguments. */
  lemma CharSimSymmetric(a: string, b: string)
    ensures CharSim(a, b) == CharSim(b, a)
  {
    var x, y := Ngrams(a), Ngrams(b);
    assert x * y == y * x && x + y == y + x;
  }

  /** A nonempty string is fully similar to itself. */
  lemma CharSimSelf(s: string)
    requires s != ""
    ensures CharSim(s, s) == 1.0
  {
    var x := Ngrams(s);
    assert x * x == x && x + x == x;
  }

  /** The similarity is zero as soon as one side is empty. */
  lemma CharSimEmpty(s: string)
    ensures CharSim("", s) == 0.0 && CharSim(s, "") == 0.0
  {
  }

  /** A similarity above zero means the two strings share a trigram. */
  lemma CharSimPositive(a: string, b: string)
    requires CharSim(a, b) > 0.0
    ensures exists w :: w in Ngrams(a) && w in Ngrams(b)
  {
    var x, y := Ngrams(a), Ngrams(b);
    assert x * y != {};
    var w :| w in x * y;
  }
}
