/**
 * Query expansion by trigram similarity (`_expand_query_tokens` in
 * backend/services/search_service.py): every vocabulary term at least
 * 0.35-similar to a query term is a candidate, ranked by similarity and
 * then by IDF, and the first `k_fallback` are kept.
 */
module Expansion {
  import opened Text
  import opened Tokenizer
  import opened OrderedDict
  import opened Trigram
  import opened Sorting
  import opened Scoring

  /** The similarity threshold. */
  const Threshold: real := 0.35

  /** `k_fallback`'s default. */
  const DefaultK: nat := 6

  function Max(a: real, b: real): (r: real)
    ensures r >= a && r >= b && (r == a || r == b)
  {
    if a >= b then a else b
  }

  /** The best similarity of `v` to a term of `ts` that reaches the threshold (0 when none does). */
  function QualMax(sim: (string, string) -> real, ts: seq<string>, v: string): (r: real)
    ensures r == 0.0 || r >= Threshold
  {
    if ts == [] then 0.0
    else
      var s := sim(ts[|ts| - 1], v);
      Max(QualMax(sim, ts[..|ts| - 1], v), if s >= Threshold then s else 0.0)
  }

  /** `QualMax` is the largest qualifying similarity, and is one of them when positive. */
  lemma {:induction false} QualMaxIsBest(sim: (string, string) -> real, ts: seq<string>, v: string)
    ensures forall k :: 0 <= k < |ts| && sim(ts[k], v) >= Threshold ==> sim(ts[k], v) <= QualMax(sim, ts, v)
    ensures QualMax(sim, ts, v) > 0.0 ==> exists k :: 0 <= k < |ts| && sim(ts[k], v) == QualMax(sim, ts, v)
  {
    if ts != [] {
      var pre := ts[..|ts| - 1];
      QualMaxIsBest(sim, pre, v);
      assert forall k :: 0 <= k < |pre| ==> pre[k] == ts[k];
      if QualMax(sim, ts, v) > 0.0 && QualMax(sim, ts, v) == QualMax(sim, pre, v) {
        var k :| 0 <= k < |pre| && sim(pre[k], v) == QualMax(sim, pre, v);
        assert sim(ts[k], v) == QualMax(sim, ts, v);
      }
    }
  }

  /** One pass of the inner loop: the vocabulary terms `vs` against the query term `t`. */
  function Scan(sim: (string, string) -> real, d: Dict<string, real>, t: string, vs: seq<string>): (r: Dict<string, real>)
    requires Valid(d)
    ensures Valid(r)
  {
    if vs == [] then d
    else
      var prev := Scan(sim, d, t, vs[..|vs| - 1]);
      var v := vs[|vs| - 1];
      var s := sim(t, v);
      if s >= Threshold then Put(prev, v, Max(GetOr(prev, v, 0.0), s)) else prev
  }

  /** `cand` after the outer loop has seen the query terms `ts`. */
  function Cands(sim: (string, string) -> real, ts: seq<string>, vocab: seq<string>): (r: Dict<string, real>)
    ensures Valid(r)
  {
    if ts == [] then Empty() else Scan(sim, Cands(sim, ts[..|ts| - 1], vocab), ts[|ts| - 1], vocab)
  }

  /** What one pass of the inner loop does to each key. */
  lemma {:induction false} ScanEffect(sim: (string, string) -> real, d: Dict<string, real>, t: string, vs: seq<string>, v: string)
    requires Valid(d)
    ensures v in Scan(sim, d, t, vs).vals <==> v in d.vals || (v in vs && sim(t, v) >= Threshold)
    ensures v in Scan(sim, d, t, vs).vals ==>
      Scan(sim, d, t, vs).vals[v] == (if v in vs && sim(t, v) >= Threshold then Max(GetOr(d, v, 0.0), sim(t, v)) else d.vals[v])
  {
    if vs != [] {
      var pre := vs[..|vs| - 1];
      ScanEffect(sim, d, t, pre, v);
      assert v in vs <==> v in pre || v == vs[|vs| - 1];
    }
  }

  /**
   * A term is a candidate exactly when it is in the vocabulary and some
   * query term is at least 0.35-similar to it; its value is its best such
   * similarity.
   */
  lemma {:induction false} CandsSpec(sim: (string, string) -> real, ts: seq<string>, vocab: seq<string>, v: string)
    ensures v in Cands(sim, ts, vocab).vals <==> v in vocab && QualMax(sim, ts, v) >= Threshold
    ensures v in Cands(sim, ts, vocab).vals ==> Cands(sim, ts, vocab).vals[v] == QualMax(sim, ts, v)
  {
    if ts != [] {
      var pre := ts[..|ts| - 1];
      CandsSpec(sim, pre, vocab, v);
      ScanEffect(sim, Cands(sim, pre, vocab), ts[|ts| - 1], vocab, v);
    }
  }

  /** The sort key `(-cand[x], -_idf(x))` as "x comes strictly before y". */
  function Before(cand: Dict<string, real>, tbl: map<string, real>): (string, string) -> bool {
    (x: string, y: string) =>
      var sx, sy := GetOr(cand, x, 0.0), GetOr(cand, y, 0.0);
      sx > sy || (sx == sy && Idf(tbl, x) > Idf(tbl, y))
  }

  lemma BeforeIsStrict(cand: Dict<string, real>, tbl: map<string, real>)
    ensures StrictOrder(Before(cand, tbl))
  {
  }

  /**
   * `_expand_query_tokens(q_toks, k)` over the vocabulary keys `vocab` and
   * the IDF table, for a similarity `sim`; the engine uses `CharSim`.
   */
  function ExpandBy(sim: (string, string) -> real, qToks: seq<string>, vocab: seq<string>, tbl: map<string, real>, k: nat): seq<string> {
    var base := NonStop(qToks);
    if base == [] then []
    else
      var cand := Cands(sim, base, vocab);
      TopK(Before(cand, tbl), cand.keys, k)
  }

  /** The expansion with trigram similarity. */
  function Expand(qToks: seq<string>, vocab: seq<string>, tbl: map<string, real>, k: nat): seq<string> {
    ExpandBy(CharSim, qToks, vocab, tbl, k)
  }

  /** When every query token is a stopword nothing is expanded. */
  lemma ExpandAllStopwords(sim: (string, string) -> real, qToks: seq<string>, vocab: seq<string>, tbl: map<string, real>, k: nat)
    requires forall i :: 0 <= i < |qToks| ==> qToks[i] in Stopwords
    ensures ExpandBy(sim, qToks, vocab, tbl, k) == []
  {
    assert forall t :: t !in NonStop(qToks);
  }

  /**
   * At most `k` terms come back, each once, each a vocabulary term at least
   * 0.35-similar to some non-stopword query token.
   */
  lemma ExpandShape(sim: (string, string) -> real, qToks: seq<string>, vocab: seq<string>, tbl: map<string, real>, k: nat)
    ensures var r := ExpandBy(sim, qToks, vocab, tbl, k);
      && |r| <= k
      && Distinct(r)
      && forall i :: 0 <= i < |r| ==> r[i] in vocab && QualMax(sim, NonStop(qToks), r[i]) >= Threshold
  {
    var base := NonStop(qToks);
    if base != [] {
      var cand := Cands(sim, base, vocab);
      var r := TopK(Before(cand, tbl), cand.keys, k);
      TopKShape(Before(cand, tbl), cand.keys, k);
      forall i | 0 <= i < |r| ensures r[i] in vocab && QualMax(sim, base, r[i]) >= Threshold {
        CandsSpec(sim, base, vocab, r[i]);
      }
    }
  }

  /**
   * The terms come best first: by similarity descending, equal similarities
   * by IDF descending; and no candidate that was cut off ranks strictly
   * above one that was kept.
   */
  lemma ExpandRanked(sim: (string, string) -> real, qToks: seq<string>, vocab: seq<string>, tbl: map<string, real>, k: nat)
    ensures var r := ExpandBy(sim, qToks, vocab, tbl, k); var base := NonStop(qToks);
      forall i, j :: 0 <= i < j < |r| ==>
        QualMax(sim, base, r[i]) > QualMax(sim, base, r[j])
        || (QualMax(sim, base, r[i]) == QualMax(sim, base, r[j]) && Idf(tbl, r[i]) >= Idf(tbl, r[j]))
    ensures var r := ExpandBy(sim, qToks, vocab, tbl, k); var base := NonStop(qToks);
      forall v, i :: v in vocab && QualMax(sim, base, v) >= Threshold && v !in r && 0 <= i < |r| ==>
        QualMax(sim, base, v) < QualMax(sim, base, r[i])
        || (QualMax(sim, base, v) == QualMax(sim, base, r[i]) && Idf(tbl, v) <= Idf(tbl, r[i]))
  {
    var base := NonStop(qToks);
    if base != [] {
      var cand := Cands(sim, base, vocab);
      var lt := Before(cand, tbl);
      var r := TopK(lt, cand.keys, k);
      BeforeIsStrict(cand, tbl);
      TopKShape(lt, cand.keys, k);
      TopKOrder(lt, cand.keys, k);
      forall i | 0 <= i < |r| ensures GetOr(cand, r[i], 0.0) == QualMax(sim, base, r[i]) {
        CandsSpec(sim, base, vocab, r[i]);
      }
      forall v | v in vocab && QualMax(sim, base, v) >= Threshold ensures v in cand.keys && GetOr(cand, v, 0.0) == QualMax(sim, base, v) {
        CandsSpec(sim, base, vocab, v);
      }
    }
  }

  /** `_expand_query_tokens`, with the two loops that fill `cand`. */
  method ExpandTokens(sim: (string, string) -> real, qToks: seq<string>, vocab: seq<string>, tbl: map<string, real>, k: nat) returns (r: seq<string>)
    ensures r == ExpandBy(sim, qToks, vocab, tbl, k)
  {
    var base := NonStop(qToks);
    if base == [] {
      return [];
    }
    var cand: Dict<string, real> := Empty();
    var i := 0;
    while i < |base|
      invariant 0 <= i <= |base|
      invariant cand == Cands(sim, base[..i], vocab)
    {
      var t := base[i];
      assert base[..i + 1][..i] == base[..i];
      ghost var start := cand;
      var j := 0;
      while j < |vocab|
        invariant 0 <= j <= |vocab|
        invariant Valid(start) && cand == Scan(sim, start, t, vocab[..j])
      {
        var v := vocab[j];
        assert vocab[..j + 1][..j] == vocab[..j];
        var s := sim(t, v);
        if s >= Threshold {
          cand := Put(cand, v, Max(GetOr(cand, v, 0.0), s));
        }
        j := j + 1;
      }
      assert vocab[..|vocab|] == vocab;
      i := i + 1;
    }
    assert base[..|base|] == base;
    r := TopK(Before(cand, tbl), cand.keys, k);
  }
}
