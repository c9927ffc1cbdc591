/**
 * The result side of `search_candidates` in
 * backend/services/search_service.py: the `scored` list with its jitter,
 * the sort by (score descending, code ascending) and `_paginate`.
 */
module Ranking {
  import opened Text
  import opened Tokenizer
  import opened OrderedDict
  import opened ProductLoader
  import opened SearchIndex
  import opened Sorting
  import opened Scoring
  import opened Expansion

  /** The dict `search_candidates` returns for one product. */
  datatype Payload = Payload(code: string, name: string, price: string, url: string, imgUrl: string)

  function PayloadOf(code: string, p: Product): Payload {
    Payload(code, p.name, p.price, p.url, p.imgUrl)
  }

  /* ---------- _paginate ---------- */

  /** `[it for it in items if it["code"] not in exclude_codes]` */
  function Filter(items: seq<Payload>, exclude: set<string>): (r: seq<Payload>)
    ensures |r| <= |items|
    ensures forall i :: 0 <= i < |r| ==> r[i] in items && r[i].code !in exclude
    ensures forall x :: x in items && x.code !in exclude ==> x in r
  {
    if items == [] then []
    else
      var last := items[|items| - 1];
      assert forall x :: x in items <==> x in items[..|items| - 1] || x == last;
      Filter(items[..|items| - 1], exclude) + (if last.code in exclude then [] else [last])
  }

  /** `r` is `s` with some elements left out, the others in their order. */
  predicate IsSubseq<T(==)>(r: seq<T>, s: seq<T>)
    decreases |s|
  {
    if r == [] then true
    else if s == [] then false
    else if r[|r| - 1] == s[|s| - 1] then IsSubseq(r[..|r| - 1], s[..|s| - 1])
    else IsSubseq(r, s[..|s| - 1])
  }

  /** `s[offset:offset + limit]` for non-negative bounds. */
  function Slice<T>(s: seq<T>, offset: nat, limit: nat): (r: seq<T>)
    ensures |r| == if offset >= |s| then 0 else if limit < |s| - offset then limit else |s| - offset
    ensures forall i :: 0 <= i < |r| ==> offset + i < |s| && r[i] == s[offset + i]
  {
    if offset >= |s| then [] else s[offset..if offset + limit < |s| then offset + limit else |s|]
  }

  /** `_paginate(items, limit, offset, exclude_codes)` */
  function Paginate(items: seq<Payload>, limit: nat, offset: nat, exclude: set<string>): seq<Payload> {
    Slice(Filter(items, exclude), offset, limit)
  }

  /** Filtering keeps the survivors in their input order. */
  lemma {:induction false} FilterIsSubseq(items: seq<Payload>, exclude: set<string>)
    ensures IsSubseq(Filter(items, exclude), items)
  {
    if items != [] {
      var pre := items[..|items| - 1];
      FilterIsSubseq(pre, exclude);
      var last := items[|items| - 1];
      var f := Filter(pre, exclude);
      if last.code in exclude {
        assert Filter(items, exclude) == f;
        if f != [] {
          assert f[|f| - 1] in f;
          assert f[|f| - 1] != last;
        }
      } else {
        var r := f + [last];
        assert Filter(items, exclude) == r;
        assert r[..|r| - 1] == f && r[|r| - 1] == last;
      }
    }
  }

  /** Filtering twice by the same codes is filtering once. */
  lemma {:induction false} FilterIdempotent(items: seq<Payload>, exclude: set<string>)
    ensures Filter(Filter(items, exclude), exclude) == Filter(items, exclude)
  {
    if items != [] {
      var pre := items[..|items| - 1];
      var last := items[|items| - 1];
      FilterIdempotent(pre, exclude);
      var f := Filter(pre, exclude);
      if last.code in exclude {
        assert Filter(items, exclude) == f;
      } else {
        var r := f + [last];
        assert Filter(items, exclude) == r;
        assert r[..|r| - 1] == f && r[|r| - 1] == last;
        assert Filter(r, exclude) == Filter(f, exclude) + [last];
      }
    }
  }

  /** With nothing to exclude, filtering keeps every item. */
  lemma {:induction false} FilterNothing(items: seq<Payload>)
    ensures Filter(items, {}) == items
  {
    if items != [] {
      FilterNothing(items[..|items| - 1]);
    }
  }

  /**
   * At most `limit` items come back, none with an excluded code, and they
   * are the window `filtered[offset:offset + limit]` of the filtered list,
   * which keeps the input order.
   */
  lemma PaginateSpec(items: seq<Payload>, limit: nat, offset: nat, exclude: set<string>)
    ensures var r := Paginate(items, limit, offset, exclude); var f := Filter(items, exclude);
      && |r| <= limit
      && (forall i :: 0 <= i < |r| ==> r[i].code !in exclude && r[i] in items)
      && (forall i :: 0 <= i < |r| ==> offset + i < |f| && r[i] == f[offset + i])
      && (offset + limit <= |f| ==> |r| == limit)
      && IsSubseq(f, items)
  {
    FilterIsSubseq(items, exclude);
  }

  /* ---------- the scored list and its order ---------- */

  /** One tuple of `scored`: the jittered score and the payload. */
  type Entry = (real, Payload)

  /**
   * `scored` after the loop has seen the catalog keys `ks`: every product
   * with a positive `score` is appended with `score + rng.random() * 0.01`,
   * where `rand(n)` is the n-th number the seeded generator draws; products
   * scoring 0 or less draw nothing.
   */
  function Scored(cat: Catalog, score: string -> real, rand: nat -> real, ks: seq<string>): (r: seq<Entry>)
    ensures |r| <= |ks|
  {
    if ks == [] then []
    else
      var prev := Scored(cat, score, rand, ks[..|ks| - 1]);
      var code := ks[|ks| - 1];
      // every key of a dict has a value, so the second test only keeps the lookup defined
      if score(code) <= 0.0 || code !in cat.vals then prev
      else prev + [(score(code) + rand(|prev|) * 0.01, PayloadOf(code, cat.vals[code]))]
  }

  /** One turn of the loop that fills `scored`, with `s` the product's score. */
  lemma ScoredStep(cat: Catalog, score: string -> real, rand: nat -> real, ks: seq<string>, i: nat, s: real)
    requires i < |ks| && ks[i] in cat.vals && s == score(ks[i])
    ensures var prev := Scored(cat, score, rand, ks[..i]);
      Scored(cat, score, rand, ks[..i + 1]) ==
        if s > 0.0 then prev + [(s + rand(|prev|) * 0.01, PayloadOf(ks[i], cat.vals[ks[i]]))] else prev
  {
    assert ks[..i + 1][..i] == ks[..i];
  }

  /**
   * Every tuple comes from a catalog product under one of the keys `ks`
   * with a positive score: its payload copies the product's five fields,
   * and its sort key is the product's score plus a jitter below 0.01.
   */
  ghost predicate FromCatalog(cat: Catalog, score: string -> real, ks: seq<string>, es: seq<Entry>) {
    forall i :: 0 <= i < |es| ==>
      && es[i].1.code in ks && es[i].1.code in cat.vals
      && es[i].1 == PayloadOf(es[i].1.code, cat.vals[es[i].1.code])
      && score(es[i].1.code) > 0.0
      && score(es[i].1.code) <= es[i].0 < score(es[i].1.code) + 0.01
  }

  /** `scored` holds only tuples of catalog products with a positive score. */
  lemma {:induction false} ScoredFrom(cat: Catalog, score: string -> real, rand: nat -> real, ks: seq<string>)
    requires forall n :: 0.0 <= rand(n) < 1.0
    ensures FromCatalog(cat, score, ks, Scored(cat, score, rand, ks))
  {
    if ks != [] {
      var pre := ks[..|ks| - 1];
      ScoredFrom(cat, score, rand, pre);
      var prev := Scored(cat, score, rand, pre);
      var code := ks[|ks| - 1];
      var r := Scored(cat, score, rand, ks);
      assert forall x :: x in pre ==> x in ks;
      if score(code) > 0.0 && code in cat.vals {
        var e := (score(code) + rand(|prev|) * 0.01, PayloadOf(code, cat.vals[code]));
        assert r == prev + [e];
        assert 0.0 <= rand(|prev|) * 0.01 < 0.01;
        assert forall i :: 0 <= i < |prev| ==> r[i] == prev[i];
        assert r[|prev|] == e;
      } else {
        assert r == prev;
      }
    }
  }

  /** Every catalog product with a positive score is in `scored`. */
  lemma {:induction false} ScoredComplete(cat: Catalog, score: string -> real, rand: nat -> real, ks: seq<string>, code: string)
    requires code in ks && code in cat.vals && score(code) > 0.0
    ensures exists i :: 0 <= i < |Scored(cat, score, rand, ks)| && Scored(cat, score, rand, ks)[i].1.code == code
  {
    var pre := ks[..|ks| - 1];
    var prev := Scored(cat, score, rand, pre);
    if ks[|ks| - 1] == code {
      var r := Scored(cat, score, rand, ks);
      assert r[|prev|].1.code == code;
    } else {
      assert code in pre;
      ScoredComplete(cat, score, rand, pre, code);
      var i :| 0 <= i < |prev| && prev[i].1.code == code;
      assert Scored(cat, score, rand, ks)[i] == prev[i];
    }
  }

  /** The sort key `(-score, code)` as "x comes strictly before y". */
  predicate RankBefore(x: Entry, y: Entry) {
    x.0 > y.0 || (x.0 == y.0 && LexLess(x.1.code, y.1.code))
  }

  lemma RankBeforeIsStrict()
    ensures StrictOrder(RankBefore)
  {
    forall x: Entry ensures !RankBefore(x, x) {
      LexLessIrreflexive(x.1.code);
    }
    forall x: Entry, y: Entry, z: Entry | RankBefore(x, y) && RankBefore(y, z) ensures RankBefore(x, z) {
      if x.0 == y.0 && y.0 == z.0 {
        LexLessTransitive(x.1.code, y.1.code, z.1.code);
      }
    }
  }

  /** `scored` after `scored.sort(key=lambda x: (-x[0], x[1]["code"]))` */
  function Ranked(cat: Catalog, score: string -> real, rand: nat -> real): seq<Entry> {
    SortBy(RankBefore, Scored(cat, score, rand, cat.keys))
  }

  /** `[it for _, it in scored]` */
  function Payloads(es: seq<Entry>): (r: seq<Payload>)
    ensures |r| == |es| && forall i :: 0 <= i < |es| ==> r[i] == es[i].1
  {
    seq(|es|, i requires 0 <= i < |es| => es[i].1)
  }

  /**
   * The sorted list holds the `scored` tuples, by jittered score
   * descending and, on equal keys, by code ascending; since the jitter is
   * below 0.01, a product that outscores another by 0.01 or more comes
   * first.
   */
  lemma RankedOrder(cat: Catalog, score: string -> real, rand: nat -> real)
    requires forall n :: 0.0 <= rand(n) < 1.0
    ensures multiset(Ranked(cat, score, rand)) == multiset(Scored(cat, score, rand, cat.keys))
    ensures var r := Ranked(cat, score, rand);
      forall i, j :: 0 <= i < j < |r| ==>
        r[i].0 > r[j].0 || (r[i].0 == r[j].0 && !LexLess(r[j].1.code, r[i].1.code))
    ensures var r := Ranked(cat, score, rand);
      forall i, j :: 0 <= i < j < |r| ==> score(r[j].1.code) < score(r[i].1.code) + 0.01
  {
    var s := Scored(cat, score, rand, cat.keys);
    var r := Ranked(cat, score, rand);
    RankBeforeIsStrict();
    SortBySorted(RankBefore, s);
    ScoredFrom(cat, score, rand, cat.keys);
    forall i | 0 <= i < |r|
      ensures score(r[i].1.code) <= r[i].0 < score(r[i].1.code) + 0.01
    {
      assert r[i] in multiset(s);
      var k :| 0 <= k < |s| && s[k] == r[i];
    }
  }

  /* ---------- search_candidates ---------- */

  /** What `_score_product` gives each catalog code, for the query tokens and their expansion. */
  function ScoreFn(fields: Product -> Fields, cat: Catalog, tbl: map<string, real>, qToks: seq<string>, expand: seq<string>): string -> real {
    (code: string) => if code in cat.vals then Score(tbl, fields(cat.vals[code]), qToks, expand) else 0.0
  }

  /** The query tokens of a message: `_tok(_norm(user_msg))`, with `tok` for `_tok`. */
  function QueryTokens(tok: string -> seq<string>, msg: string): seq<string> {
    tok(Norm(msg))
  }

  /** Whether the message has a token that is not a stopword. */
  predicate HasTerms(tok: string -> seq<string>, msg: string) {
    NonStop(QueryTokens(tok, msg)) != []
  }

  /**
   * `search_candidates(user_msg, state, limit, offset, exclude_codes)`
   * over the catalog, the IDF table, the vocabulary keys in their order and
   * the generator `rand` seeded from the session's `result_seed`.
   */
  function SearchResult(tok: string -> seq<string>, fields: Product -> Fields, cat: Catalog, tbl: map<string, real>, vocab: seq<string>, rand: nat -> real,
                        msg: string, limit: nat, offset: nat, exclude: set<string>): seq<Payload>
  {
    var qToks := QueryTokens(tok, msg);
    if NonStop(qToks) == [] then []
    else
      var expand := Expand(qToks, vocab, tbl, DefaultK);
      Paginate(Payloads(Ranked(cat, ScoreFn(fields, cat, tbl, qToks, expand), rand)), limit, offset, exclude)
  }

  /** For a message with terms, the result is the page of the ranked payloads. */
  lemma SearchUnfold(tok: string -> seq<string>, fields: Product -> Fields, cat: Catalog, tbl: map<string, real>, vocab: seq<string>, rand: nat -> real,
                     msg: string, limit: nat, offset: nat, exclude: set<string>)
    requires HasTerms(tok, msg)
    ensures var qToks := QueryTokens(tok, msg); var expand := Expand(qToks, vocab, tbl, DefaultK);
      SearchResult(tok, fields, cat, tbl, vocab, rand, msg, limit, offset, exclude)
        == Paginate(Payloads(SortBy(RankBefore, Scored(cat, ScoreFn(fields, cat, tbl, qToks, expand), rand, cat.keys))), limit, offset, exclude)
  {
  }

  /** A message without a non-stopword token finds nothing. */
  lemma SearchWithoutTerms(tok: string -> seq<string>, fields: Product -> Fields, cat: Catalog, tbl: map<string, real>, vocab: seq<string>, rand: nat -> real,
                           msg: string, limit: nat, offset: nat, exclude: set<string>)
    requires !HasTerms(tok, msg)
    ensures SearchResult(tok, fields, cat, tbl, vocab, rand, msg, limit, offset, exclude) == []
  {
  }

  /** An empty catalog finds nothing. */
  lemma SearchEmptyCatalog(tok: string -> seq<string>, fields: Product -> Fields, tbl: map<string, real>, vocab: seq<string>, rand: nat -> real,
                           msg: string, limit: nat, offset: nat, exclude: set<string>)
    ensures SearchResult(tok, fields, Empty(), tbl, vocab, rand, msg, limit, offset, exclude) == []
  {
  }

  /** The pages of the ranked list hold only payloads of positively scored catalog products. */
  lemma PageItems(cat: Catalog, score: string -> real, rand: nat -> real, limit: nat, offset: nat, exclude: set<string>)
    requires forall n :: 0.0 <= rand(n) < 1.0
    ensures var r := Paginate(Payloads(Ranked(cat, score, rand)), limit, offset, exclude);
      && |r| <= limit
      && forall i :: 0 <= i < |r| ==>
        r[i].code !in exclude && r[i].code in cat.vals && r[i] == PayloadOf(r[i].code, cat.vals[r[i].code]) && score(r[i].code) > 0.0
  {
    var ps := Payloads(Ranked(cat, score, rand));
    var r := Paginate(ps, limit, offset, exclude);
    PaginateSpec(ps, limit, offset, exclude);
    forall i | 0 <= i < |r|
      ensures r[i].code in cat.vals && r[i] == PayloadOf(r[i].code, cat.vals[r[i].code]) && score(r[i].code) > 0.0
    {
      var j :| 0 <= j < |ps| && ps[j] == r[i];
      RankedPayloadFrom(cat, score, rand, j);
    }
  }

  /** Every payload of the ranked list is that of a positively scored catalog product. */
  lemma RankedPayloadFrom(cat: Catalog, score: string -> real, rand: nat -> real, j: nat)
    requires forall n :: 0.0 <= rand(n) < 1.0
    requires j < |Ranked(cat, score, rand)|
    ensures var p := Ranked(cat, score, rand)[j].1;
      p.code in cat.vals && p == PayloadOf(p.code, cat.vals[p.code]) && score(p.code) > 0.0
  {
    var ranked := Ranked(cat, score, rand);
    var s := Scored(cat, score, rand, cat.keys);
    ScoredFrom(cat, score, rand, cat.keys);
    assert ranked[j] in multiset(s);
    var k :| 0 <= k < |s| && s[k] == ranked[j];
  }

  /**
   * At most `limit` items come back, none with an excluded code, each the
   * five fields of a catalog product whose `_score_product` is positive.
   */
  lemma SearchItems(tok: string -> seq<string>, fields: Product -> Fields, cat: Catalog, tbl: map<string, real>, vocab: seq<string>, rand: nat -> real,
                    msg: string, limit: nat, offset: nat, exclude: set<string>)
    requires forall n :: 0.0 <= rand(n) < 1.0
    ensures var r := SearchResult(tok, fields, cat, tbl, vocab, rand, msg, limit, offset, exclude);
      var score := ScoreFn(fields, cat, tbl, QueryTokens(tok, msg), Expand(QueryTokens(tok, msg), vocab, tbl, DefaultK));
      && |r| <= limit
      && forall i :: 0 <= i < |r| ==>
        r[i].code !in exclude && r[i].code in cat.vals && r[i] == PayloadOf(r[i].code, cat.vals[r[i].code]) && score(r[i].code) > 0.0
  {
    var qToks := QueryTokens(tok, msg);
    if NonStop(qToks) != [] {
      var expand := Expand(qToks, vocab, tbl, DefaultK);
      PageItems(cat, ScoreFn(fields, cat, tbl, qToks, expand), rand, limit, offset, exclude);
    }
  }

  /**
   * With nothing excluded the result is the window `[offset:offset + limit]`
   * of the ranked payloads.
   */
  lemma SearchWindow(tok: string -> seq<string>, fields: Product -> Fields, cat: Catalog, tbl: map<string, real>, vocab: seq<string>, rand: nat -> real,
                     msg: string, limit: nat, offset: nat)
    requires HasTerms(tok, msg)
    ensures var qToks := QueryTokens(tok, msg); var expand := Expand(qToks, vocab, tbl, DefaultK);
      SearchResult(tok, fields, cat, tbl, vocab, rand, msg, limit, offset, {})
        == Slice(Payloads(Ranked(cat, ScoreFn(fields, cat, tbl, qToks, expand), rand)), offset, limit)
  {
    var qToks := QueryTokens(tok, msg);
    var expand := Expand(qToks, vocab, tbl, DefaultK);
    FilterNothing(Payloads(Ranked(cat, ScoreFn(fields, cat, tbl, qToks, expand), rand)));
  }
}
