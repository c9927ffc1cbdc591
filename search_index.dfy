/**
 * The catalog-derived index of the search engine (`_INDEX`, `_VOCAB`,
 * `_IDF` and `_ALL_CATEGORY_TERMS`, built by `_ensure_index` in
 * backend/services/search_service.py), as functions of the catalog and
 * of the field extractor `fields`; the engine builds them with
 * `FieldsOf` over the tokenizer it is given. Every fact here holds for
 * any tokenizer; the start-up wiring passes `Tokenizer.Tok`, the model of
 * `_tok`.
 */
module SearchIndex {
  import opened Text
  import opened Tokenizer
  import opened OrderedDict
  import opened ProductLoader

  /** The token sets of one product, field by field. */
  datatype Fields = Fields(
    name: set<string>,
    tags: set<string>,
    cats: set<string>,
    slug: set<string>,
    code: set<string>,
    blob: set<string>)

  function SetOf(s: seq<string>): (r: set<string>)
    ensures forall x :: x in r <==> x in s
  {
    set x | x in s
  }

  /**
   * The field sets of a loader record. The loader emits no `name_norm`,
   * `tags_norm`, `slug_toks` or `search_blob`, so the name comes from the
   * raw name, the tags from the raw tags, the slug is empty and the blob
   * holds only the normalised categories and the code.
   */
  function FieldsOf(tok: string -> seq<string>, p: Product): (f: Fields)
    ensures f.slug == {}
    ensures f.name == SetOf(tok(p.name)) && f.code == SetOf(tok(p.code))
  {
    var cats := if p.categoriesNorm != [] then p.categoriesNorm else p.categories;
    Fields(
      SetOf(tok(p.name)),
      SetOf(tok(Join(" ", p.tags))),
      SetOf(tok(Join(" ", cats))),
      {},
      SetOf(tok(p.code)),
      SetOf(tok(Join(" ", ["", "", Join(" ", p.categoriesNorm), "", "", p.code]))))
  }

  /** The field extractor the engine indexes with. */
  function FieldsBy(tok: string -> seq<string>): (fields: Product -> Fields)
    ensures forall p :: fields(p) == FieldsOf(tok, p)
  {
    p => FieldsOf(tok, p)
  }

  /** `set().union(name, tags, cats, slug, codef, blob)` */
  function Union(f: Fields): (r: set<string>)
    ensures f.name <= r && f.tags <= r && f.cats <= r && f.slug <= r && f.code <= r && f.blob <= r
  {
    f.name + f.tags + f.cats + f.slug + f.code + f.blob
  }

  type Catalog = Dict<string, Product>

  /** The terms the product under `k` contributes to the vocabulary. */
  function TermsOfKey(fields: Product -> Fields, cat: Catalog, k: string): set<string> {
    if k in cat.vals then Union(fields(cat.vals[k])) else {}
  }

  /** `_INDEX`: the field sets of every product, by code. */
  function IndexOf(fields: Product -> Fields, cat: Catalog): (r: map<string, Fields>)
    ensures r.Keys == cat.vals.Keys
    ensures forall c :: c in r ==> r[c] == fields(cat.vals[c])
  {
    map c | c in cat.vals :: fields(cat.vals[c])
  }

  /** The number of keys among `ks` whose product has `t` in one of its fields. */
  function DF(fields: Product -> Fields, cat: Catalog, ks: seq<string>, t: string): (n: nat)
    ensures n <= |ks|
  {
    if ks == [] then 0
    else DF(fields, cat, ks[..|ks| - 1], t) + (if t in TermsOfKey(fields, cat, ks[|ks| - 1]) then 1 else 0)
  }

  /** All terms of the products under the keys `ks`. */
  function Terms(fields: Product -> Fields, cat: Catalog, ks: seq<string>): set<string> {
    if ks == [] then {} else Terms(fields, cat, ks[..|ks| - 1]) + TermsOfKey(fields, cat, ks[|ks| - 1])
  }

  /** `_VOCAB` after the products under `ks` are indexed: term to document frequency. */
  function Vocab(fields: Product -> Fields, cat: Catalog, ks: seq<string>): (r: map<string, nat>)
    ensures r.Keys == Terms(fields, cat, ks)
  {
    map t | t in Terms(fields, cat, ks) :: DF(fields, cat, ks, t)
  }

  /** The union of the category sets of the products under `ks`. */
  function CategoryTerms(fields: Product -> Fields, cat: Catalog, ks: seq<string>): set<string> {
    if ks == [] then {}
    else
      var k := ks[|ks| - 1];
      CategoryTerms(fields, cat, ks[..|ks| - 1]) + (if k in cat.vals then fields(cat.vals[k]).cats else {})
  }

  /** `_ALL_CATEGORY_TERMS` holds exactly the category tokens of the products under `ks`. */
  lemma {:induction false} CategoryTermsHeld(fields: Product -> Fields, cat: Catalog, ks: seq<string>, t: string)
    ensures t in CategoryTerms(fields, cat, ks) <==> exists i :: 0 <= i < |ks| && ks[i] in cat.vals && t in fields(cat.vals[ks[i]]).cats
  {
    if ks != [] {
      var pre := ks[..|ks| - 1];
      CategoryTermsHeld(fields, cat, pre, t);
      assert forall i :: 0 <= i < |pre| ==> pre[i] == ks[i];
    }
  }

  /** Indexing the key `ks[i]` after the keys before it. */
  lemma IndexStep(fields: Product -> Fields, cat: Catalog, ks: seq<string>, i: nat)
    requires i < |ks|
    ensures Terms(fields, cat, ks[..i + 1]) == Terms(fields, cat, ks[..i]) + TermsOfKey(fields, cat, ks[i])
    ensures forall t :: DF(fields, cat, ks[..i + 1], t) == DF(fields, cat, ks[..i], t) + (if t in TermsOfKey(fields, cat, ks[i]) then 1 else 0)
    ensures CategoryTerms(fields, cat, ks[..i + 1])
      == CategoryTerms(fields, cat, ks[..i]) + (if ks[i] in cat.vals then fields(cat.vals[ks[i]]).cats else {})
  {
    assert ks[..i + 1][..i] == ks[..i];
  }

  /** The keys among `ks` whose product has the term `t`. */
  function Holders(fields: Product -> Fields, cat: Catalog, ks: seq<string>, t: string): set<string> {
    set k | k in ks && t in TermsOfKey(fields, cat, k)
  }

  /** The document frequency is the number of products that hold the term. */
  lemma {:induction false} DFCountsHolders(fields: Product -> Fields, cat: Catalog, ks: seq<string>, t: string)
    requires Distinct(ks)
    ensures DF(fields, cat, ks, t) == |Holders(fields, cat, ks, t)|
  {
    if ks != [] {
      var pre, k := ks[..|ks| - 1], ks[|ks| - 1];
      assert Distinct(pre);
      DFCountsHolders(fields, cat, pre, t);
      assert k !in pre;
      if t in TermsOfKey(fields, cat, k) {
        assert Holders(fields, cat, ks, t) == Holders(fields, cat, pre, t) + {k};
      } else {
        assert Holders(fields, cat, ks, t) == Holders(fields, cat, pre, t);
      }
    }
  }

  /** A term is in the vocabulary exactly when some product holds it. */
  lemma {:induction false} TermsHeld(fields: Product -> Fields, cat: Catalog, ks: seq<string>, t: string)
    ensures t in Terms(fields, cat, ks) <==> DF(fields, cat, ks, t) >= 1
  {
    if ks != [] {
      TermsHeld(fields, cat, ks[..|ks| - 1], t);
    }
  }

  /** Every vocabulary term has a document frequency between 1 and the size of the catalog. */
  lemma DFBounds(fields: Product -> Fields, cat: Catalog, t: string)
    requires Valid(cat) && t in Vocab(fields, cat, cat.keys)
    ensures 1 <= Vocab(fields, cat, cat.keys)[t] <= |cat.vals|
  {
    TermsHeld(fields, cat, cat.keys, t);
    DistinctCard(cat.keys);
  }

  /** `N = max(1, len(_INDEX))` */
  function DocCount(cat: Catalog): (n: nat)
    ensures n >= 1
  {
    if |cat.vals| > 1 then |cat.vals| else 1
  }

  /** `math.log((N + 1) / (df + 0.5)) + 1.0`, with `ln` standing for `math.log`. */
  function IdfValue(ln: real -> real, n: nat, df: nat): real {
    ln((n + 1) as real / (df as real + 0.5)) + 1.0
  }

  /** The table `_ensure_index` merges into `_IDF`. */
  function IdfTable(ln: real -> real, fields: Product -> Fields, cat: Catalog): (r: map<string, real>)
    ensures r.Keys == Terms(fields, cat, cat.keys)
  {
    var voc := Vocab(fields, cat, cat.keys);
    map t | t in voc :: IdfValue(ln, DocCount(cat), voc[t])
  }

  lemma RatioAboveOne(n: nat, df: nat)
    requires df <= n
    ensures (n + 1) as real / (df as real + 0.5) > 1.0
  {
  }

  lemma IdfValueAboveOne(ln: real -> real, n: nat, df: nat)
    requires forall x :: x > 1.0 ==> ln(x) > 0.0
    requires df <= n
    ensures IdfValue(ln, n, df) > 1.0
  {
    RatioAboveOne(n, df);
  }

  /** When the logarithm is positive above 1, every indexed term has an IDF above 1. */
  lemma IdfAboveOne(ln: real -> real, fields: Product -> Fields, cat: Catalog, t: string)
    requires forall x :: x > 1.0 ==> ln(x) > 0.0
    requires Valid(cat) && t in IdfTable(ln, fields, cat)
    ensures IdfTable(ln, fields, cat)[t] > 1.0
  {
    var voc := Vocab(fields, cat, cat.keys);
    DFBounds(fields, cat, t);
    IdfValueAboveOne(ln, DocCount(cat), voc[t]);
  }
}
