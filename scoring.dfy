/**
 * The weighted multi-field score of one product (`_idf` and
 * `_score_product` with its inner `field_match` in
 * backend/services/search_service.py).
 */
module Scoring {
  import opened Text
  import opened Tokenizer
  import opened OrderedDict
  import opened SearchIndex

  /** `_idf(t)`: the table's value, 0.5 for a term the index never saw. */
  function Idf(tbl: map<string, real>, t: string): (r: real)
    ensures t !in tbl ==> r == 0.5
  {
    if t in tbl then tbl[t] else 0.5
  }

  /** Every IDF the table holds is positive (so every `_idf` is). */
  ghost predicate PositiveIdf(tbl: map<string, real>) {
    forall t :: t in tbl ==> tbl[t] > 0.0
  }

  /** `any(t in ft or ft in t for ft in field)`: `t` is a substring or a superstring of some field token. */
  predicate Related(t: string, field: set<string>) {
    exists ft :: ft in field && (Contains(ft, t) || Contains(t, ft))
  }

  /** An exact hit is also a substring hit. */
  lemma ExactIsRelated(t: string, field: set<string>)
    requires t in field
    ensures Related(t, field)
  {
    ContainsSelf(t);
  }

  /** What one query term adds to `score` in the first loop of `field_match`. */
  function Gain(tbl: map<string, real>, t: string, field: set<string>): real {
    if t in field then Idf(tbl, t) * 1.0
    else if Related(t, field) then Idf(tbl, t) * 0.5
    else 0.0
  }

  function GainSum(tbl: map<string, real>, q: seq<string>, field: set<string>): real {
    if q == [] then 0.0 else GainSum(tbl, q[..|q| - 1], field) + Gain(tbl, q[|q| - 1], field)
  }

  /** `sum(1 for t in q if t in field)` */
  function ExactCount(q: seq<string>, field: set<string>): nat {
    if q == [] then 0 else ExactCount(q[..|q| - 1], field) + (if q[|q| - 1] in field then 1 else 0)
  }

  /** The `sub` counter: query terms related to some field token, exact hits included. */
  function RelatedCount(q: seq<string>, field: set<string>): nat {
    if q == [] then 0 else RelatedCount(q[..|q| - 1], field) + (if Related(q[|q| - 1], field) then 1 else 0)
  }

  /** The value of `field_match(field)`: every exact hit earns the 0.15 bonus twice. */
  function FieldScore(tbl: map<string, real>, q: seq<string>, field: set<string>): real {
    GainSum(tbl, q, field) + 0.15 * ((ExactCount(q, field) + RelatedCount(q, field)) as real)
  }

  /** `field_match(field)`, with its two loops. */
  method FieldMatch(tbl: map<string, real>, q: seq<string>, field: set<string>) returns (r: real)
    ensures r == FieldScore(tbl, q, field)
  {
    var score := 0.0;
    var i := 0;
    while i < |q|
      invariant 0 <= i <= |q|
      invariant score == GainSum(tbl, q[..i], field)
    {
      assert q[..i + 1][..i] == q[..i];
      var t := q[i];
      if t in field {
        score := score + Idf(tbl, t) * 1.0;
      } else if exists ft :: ft in field && (Contains(ft, t) || Contains(t, ft)) {
        score := score + Idf(tbl, t) * 0.5;
      }
      i := i + 1;
    }
    var exact := ExactCount(q, field);
    var sub := 0;
    i := 0;
    while i < |q|
      invariant 0 <= i <= |q|
      invariant sub == RelatedCount(q[..i], field)
    {
      assert q[..i + 1][..i] == q[..i];
      var t := q[i];
      if exists ft :: ft in field && (Contains(ft, t) || Contains(t, ft)) {
        sub := sub + 1;
      }
      i := i + 1;
    }
    assert q[..|q|] == q;
    r := score + 0.15 * ((exact + sub) as real);
  }

  /** `field_match` of an empty field is 0. */
  lemma {:induction false} FieldScoreEmpty(tbl: map<string, real>, q: seq<string>)
    ensures FieldScore(tbl, q, {}) == 0.0
  {
    if q != [] {
      FieldScoreEmpty(tbl, q[..|q| - 1]);
    }
  }

  /**
   * With positive IDF, `field_match` is never negative, and it is positive
   * exactly when some query term is a substring or a superstring of a
   * field token.
   */
  lemma {:induction false} FieldScoreSign(tbl: map<string, real>, q: seq<string>, field: set<string>)
    requires PositiveIdf(tbl)
    ensures GainSum(tbl, q, field) >= 0.0
    ensures FieldScore(tbl, q, field) >= 0.0
    ensures FieldScore(tbl, q, field) > 0.0 <==> exists k :: 0 <= k < |q| && Related(q[k], field)
  {
    if q != [] {
      var pre, t := q[..|q| - 1], q[|q| - 1];
      FieldScoreSign(tbl, pre, field);
      assert forall k :: 0 <= k < |pre| ==> pre[k] == q[k];
      assert Idf(tbl, t) > 0.0;
      if t in field {
        ExactIsRelated(t, field);
      }
      if exists k :: 0 <= k < |q| && Related(q[k], field) {
        var k :| 0 <= k < |q| && Related(q[k], field);
        if k < |pre| {
          assert Related(pre[k], field);
        }
      }
    }
  }

  /** `[e for e in expand if e not in q]` */
  function NotIn(expand: seq<string>, q: seq<string>): (r: seq<string>)
    ensures forall x :: x in r <==> x in expand && x !in q
  {
    if expand == [] then []
    else (if expand[0] !in q then [expand[0]] else []) + NotIn(expand[1..], q)
  }

  /** The query terms `_score_product` scores: the non-stopword tokens, then the expansions, once each. */
  function QueryTerms(qToks: seq<string>, expand: seq<string>): (q: seq<string>)
    ensures Distinct(q)
    ensures forall x :: x in q <==> (x in qToks && x !in Stopwords) || x in expand
  {
    var base := NonStop(qToks);
    Dedupe(base + NotIn(expand, base))
  }

  /** `_score_product(code, q_toks, expand)` over the product's index entry `f`. */
  function Score(tbl: map<string, real>, f: Fields, qToks: seq<string>, expand: seq<string>): real {
    var q := QueryTerms(qToks, expand);
    if q == [] then 0.0
    else
      var sName := FieldScore(tbl, q, f.name);
      var sTags := FieldScore(tbl, q, f.tags);
      var sCats := FieldScore(tbl, q, f.cats);
      var sSlug := FieldScore(tbl, q, f.slug);
      var sCode := FieldScore(tbl, q, f.code);
      var sBlob := FieldScore(tbl, q, f.blob) * 0.6;
      (1.6 * sName) + (1.0 * sCats) + (0.9 * sSlug) + (0.7 * sTags) + (0.5 * sCode) + (1.2 * sBlob)
  }

  /** Some query term is a substring or a superstring of a token of one of the six fields. */
  ghost predicate AnyRelated(q: seq<string>, f: Fields) {
    exists k :: 0 <= k < |q| &&
      (Related(q[k], f.name) || Related(q[k], f.tags) || Related(q[k], f.cats)
       || Related(q[k], f.slug) || Related(q[k], f.code) || Related(q[k], f.blob))
  }

  /** Without a non-stopword token and without expansions the score is 0. */
  lemma ScoreWithoutTerms(tbl: map<string, real>, f: Fields, qToks: seq<string>)
    requires forall k :: 0 <= k < |qToks| ==> qToks[k] in Stopwords
    ensures Score(tbl, f, qToks, []) == 0.0
  {
    var q := QueryTerms(qToks, []);
    assert forall x :: x !in q;
  }

  /**
   * With positive IDF the score is never negative, and it is positive
   * exactly when some query term is a substring or a superstring of a token
   * of some field.
   */
  lemma ScoreSign(tbl: map<string, real>, f: Fields, qToks: seq<string>, expand: seq<string>)
    requires PositiveIdf(tbl)
    ensures Score(tbl, f, qToks, expand) >= 0.0
    ensures Score(tbl, f, qToks, expand) > 0.0 <==> AnyRelated(QueryTerms(qToks, expand), f)
  {
    var q := QueryTerms(qToks, expand);
    FieldScoreSign(tbl, q, f.name);
    FieldScoreSign(tbl, q, f.tags);
    FieldScoreSign(tbl, q, f.cats);
    FieldScoreSign(tbl, q, f.slug);
    FieldScoreSign(tbl, q, f.code);
    FieldScoreSign(tbl, q, f.blob);
  }
}
