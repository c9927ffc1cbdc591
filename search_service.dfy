/**
 * The search engine of backend/services/search_service.py as an object:
 * the module globals `_INDEX_READY`, `_INDEX`, `_VOCAB`, `_IDF` and
 * `_ALL_CATEGORY_TERMS` are its fields, and the catalog it indexes is
 * given to it.
 */
module SearchService {
  import opened Text
  import opened Tokenizer
  import opened OrderedDict
  import opened ProductLoader
  import opened SearchIndex
  import opened Trigram
  import opened Scoring
  import opened Expansion
  import opened Ranking

  /** `term in msg or any(term in t or t in term for t in toks)` */
  predicate Mentions(term: string, msg: string, toks: set<string>) {
    Contains(msg, term) || Related(term, toks)
  }

  /**
   * The loop of `_detect_categories_from_text` over the category terms:
   * terms named by the message are collected until there are six.
   */
  method Detect(tok: string -> seq<string>, terms: set<string>, userMsg: string) returns (detected: set<string>)
    ensures detected <= terms && |detected| <= 6
    ensures forall t :: t in detected ==> Mentions(t, Norm(userMsg), SetOf(tok(userMsg)))
    ensures |detected| < 6 ==> forall t :: t in terms && Mentions(t, Norm(userMsg), SetOf(tok(userMsg))) ==> t in detected
  {
    var msg := Norm(userMsg);
    var toks := SetOf(tok(userMsg));
    detected := {};
    var rest := terms;
    while rest != {}
      invariant rest <= terms && detected <= terms - rest
      invariant |detected| < 6
      invariant forall t :: t in detected ==> Mentions(t, msg, toks)
      invariant forall t :: t in terms - rest && Mentions(t, msg, toks) ==> t in detected
      decreases |rest|
    {
      var term :| term in rest;
      rest := rest - {term};
      if Contains(msg, term) || exists t :: t in toks && (Contains(term, t) || Contains(t, term)) {
        detected := detected + {term};
        if |detected| >= 6 {
          break;
        }
      }
    }
  }

  /** `for t in terms: _VOCAB[t] = _VOCAB.get(t, 0) + 1` */
  method AddTerms(v: Dict<string, nat>, terms: set<string>) returns (r: Dict<string, nat>)
    requires Valid(v)
    ensures Valid(r)
    ensures forall t :: t in r.vals <==> t in v.vals || t in terms
    ensures forall t :: t in r.vals ==> r.vals[t] == GetOr(v, t, 0) + (if t in terms then 1 else 0)
  {
    r := v;
    var rest := terms;
    while rest != {}
      invariant rest <= terms
      invariant Valid(r)
      invariant forall t :: t in r.vals <==> t in v.vals || t in terms - rest
      invariant forall t :: t in r.vals ==> r.vals[t] == GetOr(v, t, 0) + (if t in terms - rest then 1 else 0)
      decreases |rest|
    {
      var t :| t in rest;
      r := Put(r, t, GetOr(r, t, 0) + 1);
      rest := rest - {t};
    }
  }

  /**
   * The loop of `_ensure_index` over the catalog: the field sets of every
   * product, the document frequency of every term and the union of the
   * category sets.
   */
  method BuildIndex(fields: Product -> Fields, cat: Catalog)
    returns (index: map<string, Fields>, vocab: Dict<string, nat>, cats: set<string>)
    requires Valid(cat)
    ensures index == IndexOf(fields, cat)
    ensures Valid(vocab) && vocab.vals == Vocab(fields, cat, cat.keys)
    ensures cats == CategoryTerms(fields, cat, cat.keys)
  {
    index := map[];
    vocab := Empty();
    cats := {};
    var ks := cat.keys;
    var i := 0;
    assert index == KeyIndex(fields, cat, ks[..0]);
    assert vocab.vals == Vocab(fields, cat, ks[..0]);
    while i < |ks|
      invariant 0 <= i <= |ks|
      invariant Valid(vocab)
      invariant index == KeyIndex(fields, cat, ks[..i])
      invariant vocab.vals == Vocab(fields, cat, ks[..i])
      invariant cats == CategoryTerms(fields, cat, ks[..i])
    {
      var code := ks[i];
      assert code in cat.vals;
      var f := fields(cat.vals[code]);
      var next := AddTerms(vocab, TermsOfKey(fields, cat, code));
      IndexStep(fields, cat, ks, i);
      IndexMapStep(fields, cat, ks, i);
      VocabStep(fields, cat, ks, i, vocab, next);
      index := index[code := f];
      vocab := next;
      cats := cats + f.cats;
      i := i + 1;
    }
    assert ks[..|ks|] == ks;
    IndexComplete(fields, cat);
  }

  /** The field sets of the catalog's products under the keys `ks`. */
  ghost function KeyIndex(fields: Product -> Fields, cat: Catalog, ks: seq<string>): map<string, Fields> {
    map c | c in ks && c in cat.vals :: fields(cat.vals[c])
  }

  /** Adding the next key's field sets gives the index of one key more. */
  lemma IndexMapStep(fields: Product -> Fields, cat: Catalog, ks: seq<string>, i: nat)
    requires i < |ks| && ks[i] in cat.vals
    ensures KeyIndex(fields, cat, ks[..i + 1]) == KeyIndex(fields, cat, ks[..i])[ks[i] := fields(cat.vals[ks[i]])]
  {
    assert forall c :: c in ks[..i + 1] <==> c in ks[..i] || c == ks[i];
  }

  /** Counting the terms of the next key once more gives the document frequencies of one key more. */
  lemma VocabStep(fields: Product -> Fields, cat: Catalog, ks: seq<string>, i: nat, v: Dict<string, nat>, w: Dict<string, nat>)
    requires i < |ks|
    requires v.vals == Vocab(fields, cat, ks[..i])
    requires forall t :: t in w.vals <==> t in v.vals || t in TermsOfKey(fields, cat, ks[i])
    requires forall t :: t in w.vals ==> w.vals[t] == GetOr(v, t, 0) + (if t in TermsOfKey(fields, cat, ks[i]) then 1 else 0)
    ensures w.vals == Vocab(fields, cat, ks[..i + 1])
  {
    IndexStep(fields, cat, ks, i);
    var m := Vocab(fields, cat, ks[..i + 1]);
    assert w.vals.Keys == m.Keys;
    forall t | t in w.vals ensures w.vals[t] == m[t] {
      TermsHeld(fields, cat, ks[..i], t);
    }
  }

  /** The map built key by key over all of the catalog's keys is `_INDEX`. */
  lemma IndexComplete(fields: Product -> Fields, cat: Catalog)
    requires Valid(cat)
    ensures KeyIndex(fields, cat, cat.keys) == IndexOf(fields, cat)
  {
    var m := IndexOf(fields, cat);
    assert KeyIndex(fields, cat, cat.keys).Keys == m.Keys;
  }

  /**
   * The body of `_ensure_index` once it is not ready: the index, the
   * document frequencies and the category terms of the catalog, and
   * `_IDF` with the new values merged in.
   */
  method Rebuild(ln: real -> real, fields: Product -> Fields, cat: Catalog, idf0: map<string, real>)
    returns (index: map<string, Fields>, vocab: Dict<string, nat>, cats: set<string>, idf: map<string, real>)
    requires Valid(cat)
    ensures index == IndexOf(fields, cat)
    ensures Valid(vocab) && vocab.vals == Vocab(fields, cat, cat.keys)
    ensures cats == CategoryTerms(fields, cat, cat.keys)
    ensures idf == idf0 + IdfTable(ln, fields, cat)
  {
    index, vocab, cats := BuildIndex(fields, cat);
    var n: nat := if |index| > 1 then |index| else 1;
    var update := map t | t in vocab.vals :: IdfValue(ln, n, vocab.vals[t]);
    UpdateIsTable(ln, fields, cat, index, vocab, n, update);
    idf := idf0 + update;
  }

  /** The IDF values `_ensure_index` computes from the index it built are the table of the catalog. */
  lemma UpdateIsTable(ln: real -> real, fields: Product -> Fields, cat: Catalog, index: map<string, Fields>,
                      vocab: Dict<string, nat>, n: nat, update: map<string, real>)
    requires index == IndexOf(fields, cat) && vocab.vals == Vocab(fields, cat, cat.keys)
    requires n == (if |index| > 1 then |index| else 1)
    requires update == map t | t in vocab.vals :: IdfValue(ln, n, vocab.vals[t])
    ensures update == IdfTable(ln, fields, cat)
  {
    assert index.Keys == cat.vals.Keys;
    assert n == DocCount(cat);
  }

  /** Merging `b` into `a` gives every key of `b` its value in `b`. */
  lemma MergeCovers(a: map<string, real>, b: map<string, real>)
    ensures forall t :: t in b ==> t in a + b && (a + b)[t] == b[t]
  {
  }

  class SearchEngine {
    /** The catalog the index is built from. */
    const productos: Catalog
    /** `math.log` */
    const ln: real -> real
    /** `_tok` */
    const tok: string -> seq<string>
    /** The field sets `_ensure_index` takes from a product, with `_tok`. */
    const fields: Product -> Fields

    var ready: bool
    var index: map<string, Fields>
    var vocab: Dict<string, nat>
    var idf: map<string, real>
    var allCategoryTerms: set<string>

    /** The index describes the catalog. */
    ghost predicate Indexed()
      reads this
    {
      && index == IndexOf(fields, productos)
      && Valid(vocab) && vocab.vals == Vocab(fields, productos, productos.keys)
      && allCategoryTerms == CategoryTerms(fields, productos, productos.keys)
      && forall t :: t in IdfTable(ln, fields, productos) ==> t in idf && idf[t] == IdfTable(ln, fields, productos)[t]
    }

    ghost predicate Inv()
      reads this
    {
      Valid(productos) && (ready ==> Indexed())
    }

    /** After `_ensure_index`: the index is built, and it was rebuilt only if it was not ready. */
    twostate predicate Refreshed()
      reads this
    {
      && Inv() && ready
      && (old(ready) ==>
            index == old(index) && vocab == old(vocab) && idf == old(idf) && allCategoryTerms == old(allCategoryTerms))
      && (!old(ready) ==> idf == old(idf) + IdfTable(ln, fields, productos))
    }

    /** At import every global is empty and the index is not ready. */
    constructor (productos: Catalog, ln: real -> real, tok: string -> seq<string>)
      requires Valid(productos)
      ensures Inv() && !ready
      ensures this.productos == productos && this.ln == ln && this.tok == tok
      ensures forall p :: this.fields(p) == FieldsOf(tok, p)
      ensures index == map[] && vocab == Empty() && idf == map[] && allCategoryTerms == {}
    {
      this.productos := productos;
      this.ln := ln;
      this.tok := tok;
      this.fields := FieldsBy(tok);
      ready := false;
      index := map[];
      vocab := Empty();
      idf := map[];
      allCategoryTerms := {};
    }

    /**
     * `_ensure_index()`: once ready it does nothing; otherwise it clears and
     * rebuilds the index, the document frequencies and the category terms,
     * and merges the new IDF values into `_IDF`, which is never cleared.
     */
    method EnsureIndex()
      requires Inv()
      modifies this
      ensures Refreshed()
    {
      if ready {
        return;
      }
      MergeCovers(idf, IdfTable(ln, fields, productos));
      index, vocab, allCategoryTerms, idf := Rebuild(ln, fields, productos, idf);
      ready := true;
    }

    /** `_expand_query_tokens(q_toks, k_fallback)` */
    method ExpandQueryTokens(qToks: seq<string>, k: nat) returns (r: seq<string>)
      requires Inv()
      modifies this
      ensures Refreshed()
      ensures r == Expand(qToks, vocab.keys, idf, k)
    {
      EnsureIndex();
      r := ExpandTokens(CharSim, qToks, vocab.keys, idf, k);
    }

    /** `_score_product(code, q_toks, expand)`; the code must be indexed. */
    method ScoreProduct(code: string, qToks: seq<string>, expand: seq<string>) returns (r: real)
      requires code in index
      ensures r == Score(idf, index[code], qToks, expand)
    {
      var f := index[code];
      var q := QueryTerms(qToks, expand);
      if q == [] {
        return 0.0;
      }
      var sName := FieldMatch(idf, q, f.name);
      var sTags := FieldMatch(idf, q, f.tags);
      var sCats := FieldMatch(idf, q, f.cats);
      var sSlug := FieldMatch(idf, q, f.slug);
      var sCode := FieldMatch(idf, q, f.code);
      var sBlob := FieldMatch(idf, q, f.blob);
      sBlob := sBlob * 0.6;
      r := (1.6 * sName) + (1.0 * sCats) + (0.9 * sSlug) + (0.7 * sTags) + (0.5 * sCode) + (1.2 * sBlob);
    }

    /** What `_score_product` gives the indexed code `c`. */
    ghost function IndexedScore(c: string, qToks: seq<string>, expand: seq<string>): real
      reads this
      requires c in index
    {
      Score(idf, index[c], qToks, expand)
    }

    /** `score` gives every indexed code its `_score_product`. */
    ghost predicate ScoresAgree(score: string -> real, qToks: seq<string>, expand: seq<string>)
      reads this
    {
      forall c {:trigger IndexedScore(c, qToks, expand)} :: c in index ==> score(c) == IndexedScore(c, qToks, expand)
    }

    /** `_score_product(code, q_toks, expand)`, seen through `score`. */
    method ScoreOf(code: string, qToks: seq<string>, expand: seq<string>, ghost score: string -> real) returns (s: real)
      requires code in index && ScoresAgree(score, qToks, expand)
      ensures s == score(code)
    {
      s := ScoreProduct(code, qToks, expand);
      assert s == IndexedScore(code, qToks, expand);
    }

    /** The loop of `search_candidates` that fills `scored`. */
    method ScoreAll(qToks: seq<string>, expand: seq<string>, rand: nat -> real, ghost score: string -> real)
      returns (scored: seq<Entry>)
      requires Valid(productos) && index.Keys == productos.vals.Keys
      requires ScoresAgree(score, qToks, expand)
      ensures scored == Scored(productos, score, rand, productos.keys)
    {
      var ks := productos.keys;
      scored := [];
      var i := 0;
      while i < |ks|
        invariant 0 <= i <= |ks|
        invariant scored == Scored(productos, score, rand, ks[..i])
      {
        var code := ks[i];
        assert code in productos.vals;
        var s := ScoreOf(code, qToks, expand, score);
        ScoredStep(productos, score, rand, ks, i, s);
        if s > 0.0 {
          var payload := PayloadOf(code, productos.vals[code]);
          var jitter := rand(|scored|) * 0.01;
          scored := scored + [(s + jitter, payload)];
        }
        i := i + 1;
      }
      assert ks[..|ks|] == ks;
    }

    /**
     * `search_candidates(user_msg, state, limit, offset, exclude_codes)`,
     * where `rand(n)` is the n-th draw of the generator seeded from the
     * session's `result_seed`.
     */
    method SearchCandidates(userMsg: string, rand: nat -> real, limit: nat, offset: nat, exclude: seq<string>)
      returns (r: seq<Payload>)
      requires Inv()
      modifies this
      ensures Refreshed()
      ensures r == SearchResult(tok, fields, productos, idf, vocab.keys, rand, userMsg, limit, offset, SetOf(exclude))
    {
      EnsureIndex();
      var text := Norm(userMsg);
      var qToks := tok(text);
      if NonStop(qToks) == [] {
        return [];
      }
      var expand := ExpandQueryTokens(qToks, DefaultK);
      ghost var score := ScoreFn(fields, productos, idf, qToks, expand);
      IndexedScores(qToks, expand);
      var scored := ScoreAll(qToks, expand, rand, score);
      var ranked := Sorting.SortBy(RankBefore, scored);
      var flattened := Payloads(ranked);
      r := Paginate(flattened, limit, offset, SetOf(exclude));
      SearchUnfold(tok, fields, productos, idf, vocab.keys, rand, userMsg, limit, offset, SetOf(exclude));
    }

    /** On the built index, `ScoreFn` gives every indexed code its `_score_product`. */
    lemma IndexedScores(qToks: seq<string>, expand: seq<string>)
      requires index == IndexOf(fields, productos)
      ensures ScoresAgree(ScoreFn(fields, productos, idf, qToks, expand), qToks, expand)
    {
      forall c | c in index
        ensures ScoreFn(fields, productos, idf, qToks, expand)(c) == IndexedScore(c, qToks, expand)
      {
        assert index[c] == fields(productos.vals[c]);
      }
    }

    /**
     * `_detect_categories_from_text(user_msg)`: at most six category terms,
     * each named by the message, and every such term when fewer than six
     * came back.
     */
    method DetectCategoriesFromText(userMsg: string) returns (r: set<string>)
      requires Inv()
      modifies this
      ensures Refreshed()
      ensures r <= allCategoryTerms && |r| <= 6
      ensures forall t :: t in r ==> Mentions(t, Norm(userMsg), SetOf(tok(userMsg)))
      ensures |r| < 6 ==> forall t :: t in allCategoryTerms && Mentions(t, Norm(userMsg), SetOf(tok(userMsg))) ==> t in r
    {
      EnsureIndex();
      r := Detect(tok, allCategoryTerms, userMsg);
    }
  }
}
