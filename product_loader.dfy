/**
 * The catalog loader (backend/services/product_loader.py): canonical
 * product records built from the decoded JSON catalog, the record loop of
 * `_load_from_disk`, and the `PRODUCTOS` cache behind `load_products` and
 * `reload_products`.
 */
module ProductLoader {
  import opened Wrappers
  import opened Text
  import opened OrderedDict

  /** A value decoded by `json.load` (JSON numbers with a fraction are not modelled). */
  datatype Json =
    | JNull
    | JBool(b: bool)
    | JInt(i: int)
    | JStr(s: string)
    | JList(items: seq<Json>)
    | JObj(fields: Dict<string, Json>)

  /** Python truthiness, as `or` uses it. */
  predicate Truthy(v: Json) {
    match v
    case JNull => false
    case JBool(b) => b
    case JInt(i) => i != 0
    case JStr(s) => s != ""
    case JList(xs) => xs != []
    case JObj(d) => d.vals != map[]
  }

  /** Python's `a or b`. */
  function Or(a: Json, b: Json): (r: Json)
    ensures Truthy(a) ==> r == a
    ensures !Truthy(a) ==> r == b
  {
    if Truthy(a) then a else b
  }

  /** `rec.get(key)`: `None` when the key is absent. */
  function Get(rec: Dict<string, Json>, key: string): (r: Json)
    ensures key !in rec.vals ==> r == JNull
  {
    if key in rec.vals then rec.vals[key] else JNull
  }

  function DigitChar(d: nat): (c: char)
    requires d < 10
    ensures IsDigit(c)
  {
    ('0' as int + d) as char
  }

  /** The decimal digits of a natural number, most significant first. */
  function NatToString(n: nat): (r: string)
    ensures r != [] && forall i :: 0 <= i < |r| ==> IsDigit(r[i])
  {
    if n < 10 then [DigitChar(n)] else NatToString(n / 10) + [DigitChar(n % 10)]
  }

  /** `str(i)` for a Python int. */
  function IntToString(i: int): string {
    if i < 0 then "-" + NatToString(-i) else NatToString(i)
  }

  /** `repr` of a string: the quoting and escaping of backslash, quotes, tab, newline and carriage return. */
  function ReprStr(s: string): string {
    var q := if '\'' in s && '"' !in s then '"' else '\'';
    [q] + ReprBody(s, q) + [q]
  }

  function ReprBody(s: string, q: char): string {
    if s == [] then ""
    else
      var c := s[0];
      var e := if c == '\\' then "\\\\" else if c == q then ['\\', q]
               else if c == '\n' then "\\n" else if c == '\r' then "\\r" else if c == '\t' then "\\t"
               else [c];
      e + ReprBody(s[1..], q)
  }

  /** Python's `repr` of a value inside a container. */
  function Repr(v: Json): string {
    match v
    case JStr(s) => ReprStr(s)
    case JList(xs) => "[" + ReprItems(xs) + "]"
    case JObj(d) => "{" + ReprFields(d, d.keys) + "}"
    case _ => ScalarStr(v)
  }

  function ReprItems(xs: seq<Json>): string {
    if xs == [] then ""
    else if |xs| == 1 then Repr(xs[0])
    else Repr(xs[0]) + ", " + ReprItems(xs[1..])
  }

  function ReprFields(d: Dict<string, Json>, ks: seq<string>): string
    decreases d, |ks|
  {
    if ks == [] then ""
    else
      var item := ReprStr(ks[0]) + ": " + (if ks[0] in d.vals then Repr(d.vals[ks[0]]) else "None");
      if |ks| == 1 then item else item + ", " + ReprFields(d, ks[1..])
  }

  /** `str` of `None`, a bool, an int or a string. */
  function ScalarStr(v: Json): string {
    match v
    case JNull => "None"
    case JBool(b) => if b then "True" else "False"
    case JInt(i) => IntToString(i)
    case JStr(s) => s
    case _ => ""
  }

  /** Python's `str` of a decoded value. */
  function Str(v: Json): (r: string)
    ensures v.JStr? ==> r == v.s
    ensures v == JNull ==> r == "None"
  {
    if v.JList? || v.JObj? then Repr(v) else ScalarStr(v)
  }

  /** `_norm` of the loader: fold case and accents, strip, collapse whitespace runs to one space. */
  function LNorm(s: string): (r: string)
    ensures Collapsed(r, IsPySpace, ' ')
  {
    var folded := MapChars(Fold, s);
    CollapseRunsClean(PyStrip(folded), IsPySpace, ' ');
    CollapseRuns(PyStrip(folded), IsPySpace, ' ')
  }

  /** `[str(x).strip() for x in v if str(x).strip()]` */
  function StrippedItems(xs: seq<Json>): (r: seq<string>)
    ensures forall k :: 0 <= k < |r| ==> r[k] != ""
    ensures |r| <= |xs|
  {
    if xs == [] then []
    else
      var t := PyStrip(Str(xs[0]));
      (if t != "" then [t] else []) + StrippedItems(xs[1..])
  }

  /** `_to_list` */
  function ToList(v: Json): (r: seq<string>)
    ensures v == JNull || v == JStr("") ==> r == []
    ensures v.JList? ==> r == StrippedItems(v.items)
    ensures v != JNull && v != JStr("") && !v.JList? ==> r == [PyStrip(Str(v))]
  {
    if v == JNull || v == JStr("") then []
    else if v.JList? then StrippedItems(v.items)
    else [PyStrip(Str(v))]
  }

  /** `semantic_rules`, in the order the dict literal lists them. */
  const SemanticRules: seq<(string, seq<string>)> := [
    ("piscina", ["jacuzzi", "acuática", "acuaticas", "sumergible"]),
    ("decorativa", ["cuarto", "habitacion", "habitación", "alcoba", "pieza", "dormitorio", "sala", "comedor", "living"]),
    ("interior", ["oficina", "consultorio", "estudio", "recepcion", "recepción"]),
    ("industrial", ["bodega", "taller", "fabrica", "fábrica", "planta", "nave", "galpon", "galpón"])
  ]

  /** `any(base in c for c in categories_norm)` */
  predicate BaseHit(base: string, cats: seq<string>) {
    exists c :: c in cats && Contains(c, base)
  }

  /** The `extra_norms` loop: the synonyms of every rule whose base occurs in a category. */
  function Extras(rules: seq<(string, seq<string>)>, cats: seq<string>): (r: seq<string>)
    ensures forall x :: x in r <==> exists k :: 0 <= k < |rules| && BaseHit(rules[k].0, cats) && x in rules[k].1
  {
    if rules == [] then []
    else
      var rest := Extras(rules[1..], cats);
      assert forall k :: 1 <= k < |rules| ==> rules[k] == rules[1..][k - 1];
      (if BaseHit(rules[0].0, cats) then rules[0].1 else []) + rest
  }

  function MapLNorm(xs: seq<string>): (r: seq<string>)
    ensures |r| == |xs| && forall k :: 0 <= k < |xs| ==> r[k] == LNorm(xs[k])
  {
    if xs == [] then [] else [LNorm(xs[0])] + MapLNorm(xs[1..])
  }

  /** `[_norm(c) for c in categories if c]` */
  function NormCats(cats: seq<string>): (r: seq<string>)
    ensures forall x :: x in r <==> exists k :: 0 <= k < |cats| && cats[k] != "" && LNorm(cats[k]) == x
  {
    if cats == [] then []
    else
      var rest := NormCats(cats[1..]);
      var r := (if cats[0] != "" then [LNorm(cats[0])] else []) + rest;
      NormCatsStep(LNorm, cats, rest, r);
      r
  }

  /** One step of `NormCats`, for any `f`: the head's image, if it is kept, before those of the tail. */
  lemma NormCatsStep(f: string -> string, cats: seq<string>, rest: seq<string>, r: seq<string>)
    requires cats != [] && r == (if cats[0] != "" then [f(cats[0])] else []) + rest
    requires forall x :: x in rest <==> exists k :: 0 <= k < |cats[1..]| && cats[1..][k] != "" && f(cats[1..][k]) == x
    ensures forall x :: x in r <==> exists k :: 0 <= k < |cats| && cats[k] != "" && f(cats[k]) == x
  {
    forall x ensures x in r <==> exists k :: 0 <= k < |cats| && cats[k] != "" && f(cats[k]) == x {
      if exists k :: 0 <= k < |cats| && cats[k] != "" && f(cats[k]) == x {
        var k :| 0 <= k < |cats| && cats[k] != "" && f(cats[k]) == x;
        if k > 0 { assert cats[1..][k - 1] == cats[k]; }
      }
      if x in rest {
        var k :| 0 <= k < |cats[1..]| && cats[1..][k] != "" && f(cats[1..][k]) == x;
        assert cats[k + 1] == cats[1..][k];
      }
    }
  }

  /** The canonical record `_normalize_product` returns. */
  datatype Product = Product(
    code: string,
    name: string,
    price: string,
    url: string,
    imgUrl: string,
    categories: seq<string>,
    categoriesNorm: seq<string>,
    tags: seq<string>,
    category: Option<string>)

  /** Why `_normalize_product` raises. */
  datatype NormError =
    | EmptyKey                       // RuntimeError("Producto con clave vacía")
    | StripOnNonString(field: string) // AttributeError: `.strip()` on a truthy non-string

  /** `(v or "").strip()`, which fails when `v` is truthy and not a string. */
  function StripField(v: Json, field: string): (r: Result<string, NormError>)
    ensures !Truthy(v) ==> r == Success("")
    ensures v.JStr? ==> r == Success(PyStrip(v.s))
    ensures Truthy(v) && !v.JStr? ==> r == Failure(StripOnNonString(field))
  {
    var w := Or(v, JStr(""));
    if w.JStr? then Success(PyStrip(w.s)) else Failure(StripOnNonString(field))
  }

  /** `(code or "").strip().upper()` */
  function CleanCode(code: string): string {
    MapChars(Upper, PyStrip(code))
  }

  /** `rec.get("name") or rec.get("title") or code_up`, through `str(...).strip()`. */
  function NameOf(rec: Dict<string, Json>, codeUp: string): string {
    PyStrip(Str(Or(Get(rec, "name"), Or(Get(rec, "title"), JStr(codeUp)))))
  }

  /** `list(set(categories_norm + [_norm(e) for e in extra_norms]))`, in first-occurrence order. */
  function Enrich(categories: seq<string>): seq<string> {
    var catsNorm := NormCats(categories);
    Dedupe(catsNorm + MapLNorm(Extras(SemanticRules, catsNorm)))
  }

  /** `(rec.get("price") or rec.get("precio") or "").strip()` */
  function PriceOf(rec: Dict<string, Json>): Result<string, NormError> {
    StripField(Or(Get(rec, "price"), Get(rec, "precio")), "price")
  }

  /** `(rec.get("url") or "").strip()` */
  function UrlOf(rec: Dict<string, Json>): Result<string, NormError> {
    StripField(Get(rec, "url"), "url")
  }

  /** `(rec.get("img_url") or rec.get("image") or "").strip()` */
  function ImgOf(rec: Dict<string, Json>): Result<string, NormError> {
    StripField(Or(Get(rec, "img_url"), Get(rec, "image")), "img_url")
  }

  /** `_normalize_product(code, rec)` */
  function NormalizeProduct(code: string, rec: Dict<string, Json>): (r: Result<Product, NormError>)
    ensures PyStrip(code) == "" <==> r == Failure(EmptyKey)
    ensures r.Success? ==> r.value.code == CleanCode(code) && r.value.code != ""
    ensures r.Success? ==> r.value.category == (if Get(rec, "category").JStr? then Some(Get(rec, "category").s) else None)
    ensures r.Success? ==> r.value.categories == ToList(Or(Get(rec, "categories"), Get(rec, "category")))
    ensures r.Success? ==> r.value.tags == ToList(Get(rec, "tags"))
    ensures r.Success? ==> r.value.name == NameOf(rec, r.value.code)
    ensures r.Success? ==> r.value.categoriesNorm == Enrich(r.value.categories)
    ensures r.Failure? <==>
      PyStrip(code) == "" || PriceOf(rec).Failure? || UrlOf(rec).Failure? || ImgOf(rec).Failure?
    ensures r.Success? ==> r.value.price == PriceOf(rec).value
    ensures r.Success? ==> r.value.url == UrlOf(rec).value
    ensures r.Success? ==> r.value.imgUrl == ImgOf(rec).value
  {
    var codeUp := CleanCode(code);
    CleanCodeEmpty(code);
    if codeUp == "" then Failure(EmptyKey)
    else
      var price := PriceOf(rec);
      var url := UrlOf(rec);
      var img := ImgOf(rec);
      if price.Failure? then Failure(price.error)
      else if url.Failure? then Failure(url.error)
      else if img.Failure? then Failure(img.error)
      else
        var categories := ToList(Or(Get(rec, "categories"), Get(rec, "category")));
        var tags := ToList(Get(rec, "tags"));
        Success(Product(
          codeUp,
          NameOf(rec, codeUp),
          price.value,
          url.value,
          img.value,
          categories,
          Enrich(categories),
          tags,
          var c := Get(rec, "category"); if c.JStr? then Some(c.s) else None))
  }

  /** The cleaned code is empty exactly when the stripped one is. */
  lemma CleanCodeEmpty(code: string)
    ensures CleanCode(code) == "" <==> PyStrip(code) == ""
  {
  }

  /** Upper-casing keeps whitespace whitespace and everything else not. */
  lemma UpperKeepsSpace(c: char)
    ensures IsPySpace(Upper(c)) == IsPySpace(c)
  {
  }

  /** A cleaned code has no whitespace at either end. */
  lemma CleanCodeStripped(code: string)
    ensures PyStrip(CleanCode(code)) == CleanCode(code)
  {
    var t := PyStrip(code);
    var u := CleanCode(code);
    if u != [] {
      UpperKeepsSpace(t[0]);
      UpperKeepsSpace(t[|t| - 1]);
    }
    StripNoop(u);
  }

  /**
   * The name falls back from `name` to `title` to the cleaned code, and is
   * stripped in every case.
   */
  lemma NameFallback(code: string, rec: Dict<string, Json>)
    ensures var n := NameOf(rec, CleanCode(code));
      && (Truthy(Get(rec, "name")) ==> n == PyStrip(Str(Get(rec, "name"))))
      && (!Truthy(Get(rec, "name")) && Truthy(Get(rec, "title")) ==> n == PyStrip(Str(Get(rec, "title"))))
      && (!Truthy(Get(rec, "name")) && !Truthy(Get(rec, "title")) ==> n == CleanCode(code))
  {
    var nm, ti, cu := Get(rec, "name"), Get(rec, "title"), CleanCode(code);
    var pick := Or(nm, Or(ti, JStr(cu)));
    assert NameOf(rec, cu) == PyStrip(Str(pick));
    if !Truthy(nm) && !Truthy(ti) {
      assert pick == JStr(cu);
      assert Str(pick) == cu;
      CleanCodeStripped(code);
    }
  }

  /**
   * `categories_norm` has no duplicates; it holds every normalised category,
   * and the normalised synonyms of a rule exactly when the rule's base is a
   * substring of one of those categories.
   */
  lemma CategoryEnrichment(categories: seq<string>, x: string)
    ensures Distinct(Enrich(categories))
    ensures var cn := NormCats(categories);
      x in Enrich(categories) <==>
        || x in cn
        || exists k, y :: 0 <= k < |SemanticRules| && BaseHit(SemanticRules[k].0, cn)
             && y in SemanticRules[k].1 && LNorm(y) == x
  {
    var cn := NormCats(categories);
    var ex := Extras(SemanticRules, cn);
    var ml := MapLNorm(ex);
    if x in ml {
      var i :| 0 <= i < |ml| && ml[i] == x;
      assert ex[i] in ex;
      var k :| 0 <= k < |SemanticRules| && BaseHit(SemanticRules[k].0, cn) && ex[i] in SemanticRules[k].1;
      assert LNorm(ex[i]) == x;
    }
    if exists k, y :: 0 <= k < |SemanticRules| && BaseHit(SemanticRules[k].0, cn) && y in SemanticRules[k].1 && LNorm(y) == x {
      var k, y :| 0 <= k < |SemanticRules| && BaseHit(SemanticRules[k].0, cn) && y in SemanticRules[k].1 && LNorm(y) == x;
      assert y in ex;
      var i :| 0 <= i < |ex| && ex[i] == y;
      assert ml[i] == x;
    }
  }

  /** A normalised category mentioning "piscina" brings in "jacuzzi". */
  lemma PoolCategoryEnriched()
    ensures "jacuzzi" in Extras(SemanticRules, ["luz piscina"])
  {
    var h := "luz piscina";
    assert Contains(h, "piscina") by {
      assert "piscina" <= h[4..];
      assert h[4..] == h[1..][1..][1..][1..];
    }
    assert BaseHit(SemanticRules[0].0, [h]);
    assert "jacuzzi" in SemanticRules[0].1;
  }

  // ---------------------------------------------------------------------
  // `_load_from_disk`: the record loop over the decoded root object.
  // ---------------------------------------------------------------------

  /** Why `_load_from_disk` raises. */
  datatype LoadError =
    | CatalogMissing    // the file does not exist
    | RootNotObject     // "productos.json debe ser un objeto {code: {...}}"
    | CatalogEmpty      // "productos.json cargó vacío o inválido"

  /** The record stored under `key`, normalised, or nothing when it is skipped. */
  function Normalized(data: Dict<string, Json>, key: string): (r: Option<Product>)
    ensures r.Some? ==>
      key in data.vals && data.vals[key].JObj? && NormalizeProduct(key, data.vals[key].fields) == Success(r.value)
  {
    if key in data.vals && data.vals[key].JObj? then
      match NormalizeProduct(key, data.vals[key].fields)
      case Success(p) => Some(p)
      case Failure(_) => None
    else None
  }

  /** What the loop makes of each key of `ks`, in order. */
  function Outcomes(data: Dict<string, Json>, ks: seq<string>): (r: seq<Option<Product>>)
    ensures |r| == |ks| && forall i :: 0 <= i < |ks| ==> r[i] == Normalized(data, ks[i])
  {
    if ks == [] then [] else [Normalized(data, ks[0])] + Outcomes(data, ks[1..])
  }

  /** The outcome keeps a record that lands under the code `c`. */
  predicate Lands(o: Option<Product>, c: string) {
    o.Some? && o.value.code == c
  }

  /** `out` after the loop has seen the outcomes `os`, in order. */
  function Gather(os: seq<Option<Product>>): (out: Dict<string, Product>)
    ensures Valid(out)
  {
    if os == [] then Empty()
    else
      var prev := Gather(os[..|os| - 1]);
      match os[|os| - 1]
      case Some(p) => Put(prev, p.code, p)
      case None => prev
  }

  /** The whole of `_load_from_disk` on the file's decoded content (`None`: no file). */
  function Load(file: Option<Json>): Result<Dict<string, Product>, LoadError> {
    match file
    case None => Failure(CatalogMissing)
    case Some(raw) =>
      if !raw.JObj? then Failure(RootNotObject)
      else
        var out := Gather(Outcomes(raw.fields, raw.fields.keys));
        if out.keys == [] then Failure(CatalogEmpty) else Success(out)
  }

  /**
   * The catalog is keyed by the cleaned code: a code is present exactly when
   * some record is kept and normalises to it, and it holds a record with
   * that code.
   */
  lemma {:induction false} GatherKeyed(os: seq<Option<Product>>, c: string)
    ensures c in Gather(os).vals <==> exists i :: 0 <= i < |os| && Lands(os[i], c)
    ensures c in Gather(os).vals ==> Gather(os).vals[c].code == c
  {
    if os != [] {
      GatherKeyed(os[..|os| - 1], c);
      LandsSplit(os, os[..|os| - 1], c);
    }
  }

  /** Some outcome lands on `c` exactly when one before the last does or the last one does. */
  lemma LandsSplit(os: seq<Option<Product>>, pre: seq<Option<Product>>, c: string)
    requires os != [] && pre == os[..|os| - 1]
    ensures (exists i :: 0 <= i < |os| && Lands(os[i], c))
        <==> (exists i :: 0 <= i < |pre| && Lands(pre[i], c)) || Lands(os[|os| - 1], c)
  {
    if exists i :: 0 <= i < |os| && Lands(os[i], c) {
      var i :| 0 <= i < |os| && Lands(os[i], c);
      if i < |pre| { assert Lands(pre[i], c); }
    }
    if exists i :: 0 <= i < |pre| && Lands(pre[i], c) {
      var i :| 0 <= i < |pre| && Lands(pre[i], c);
      assert Lands(os[i], c);
    }
  }

  /** On a code collision the record seen last wins. */
  lemma {:induction false} GatherLastWins(os: seq<Option<Product>>, i: nat, c: string)
    requires i < |os| && Lands(os[i], c)
    requires forall j :: i < j < |os| ==> !Lands(os[j], c)
    ensures c in Gather(os).vals && Gather(os).vals[c] == os[i].value
  {
    var pre := os[..|os| - 1];
    if i < |os| - 1 {
      assert forall j :: i < j < |pre| ==> pre[j] == os[j];
      GatherLastWins(pre, i, c);
    }
  }

  /**
   * A loaded catalog holds the code `c` exactly when some record of the root
   * object is an object whose normalisation succeeds with that code.
   */
  lemma LoadKeyed(raw: Json, c: string)
    requires raw.JObj? && Load(Some(raw)).Success?
    ensures var d := raw.fields;
      c in Load(Some(raw)).value.vals <==> exists i :: 0 <= i < |d.keys| && Lands(Normalized(d, d.keys[i]), c)
  {
    var os := Outcomes(raw.fields, raw.fields.keys);
    GatherKeyed(os, c);
  }

  /**
   * The loop of `_load_from_disk`: a non-object root is an error, records
   * that are not objects or whose normalisation raises are skipped, every
   * kept record is stored under its cleaned code (overwriting an earlier
   * one), and an empty result is an error.
   */
  method LoadFromDisk(file: Option<Json>) returns (r: Result<Dict<string, Product>, LoadError>)
    ensures r == Load(file)
    ensures r.Success? ==> r.value.keys != [] && forall c :: c in r.value.vals ==> r.value.vals[c].code == c
  {
    if file.None? {
      return Failure(CatalogMissing);
    }
    var raw := file.value;
    if !raw.JObj? {
      return Failure(RootNotObject);
    }
    var data := raw.fields;
    ghost var os := Outcomes(data, data.keys);
    var out: Dict<string, Product> := Empty();
    var i := 0;
    while i < |data.keys|
      invariant 0 <= i <= |data.keys|
      invariant out == Gather(os[..i])
    {
      var code := data.keys[i];
      assert os[..i + 1][..i] == os[..i];
      var rec := if code in data.vals then data.vals[code] else JNull;
      if rec.JObj? {
        var normalized := NormalizeProduct(code, rec.fields);
        if normalized.Success? {
          out := Put(out, normalized.value.code, normalized.value);
        }
      }
      i := i + 1;
    }
    assert os[..|data.keys|] == os;
    if out.keys == [] {
      return Failure(CatalogEmpty);
    }
    forall c | c in out.vals ensures out.vals[c].code == c {
      GatherKeyed(os, c);
    }
    return Success(out);
  }

  /** What `load_products` returns, and the catalog the cache holds afterwards. */
  type CacheStep = (Result<Dict<string, Product>, LoadError>, Dict<string, Product>)

  /**
   * `load_products` with the cache holding `cache`: a non-empty cache is
   * returned as it is; an empty one takes the file's catalog when that
   * loads and stays empty when it does not.
   */
  function AfterLoad(cache: Dict<string, Product>, file: Option<Json>): (s: CacheStep)
    ensures cache.keys != [] ==> s == (Success(cache), cache)
    ensures cache.keys == [] ==> s.0 == Load(file)
    ensures s.0.Success? ==> s.1 == s.0.value && s.1.keys != []
    ensures s.0.Failure? ==> s.1 == cache
  {
    if cache.keys != [] then (Success(cache), cache)
    else if Load(file).Success? then (Load(file), Load(file).value)
    else (Load(file), cache)
  }

  /** `reload_products`: the file's catalog replaces the cache whenever it loads, whatever the cache held. */
  function AfterReload(cache: Dict<string, Product>, file: Option<Json>): (s: CacheStep)
    ensures s.0 == Load(file)
    ensures s.0.Success? ==> s.1 == s.0.value && s.1.keys != []
    ensures s.0.Failure? ==> s.1 == cache
  {
    if Load(file).Success? then (Load(file), Load(file).value) else (Load(file), cache)
  }

  /**
   * Once a load or a reload succeeded, every later `load_products` returns
   * that same catalog and leaves the cache alone, whatever file it is given.
   */
  lemma LoadedStaysCached(cache: Dict<string, Product>, file: Option<Json>, later: Option<Json>, reload: bool)
    requires (if reload then AfterReload(cache, file) else AfterLoad(cache, file)).0.Success?
    ensures var held := (if reload then AfterReload(cache, file) else AfterLoad(cache, file)).1;
      AfterLoad(held, later) == (Success(held), held)
  {
  }

  /** The module-level `PRODUCTOS` cache. */
  class ProductCache {
    var productos: Dict<string, Product>

    /** At import the cache is the empty dict. */
    constructor ()
      ensures productos == Empty()
    {
      productos := Empty();
    }

    /** `load_products`: a non-empty cache is returned as it is; an empty one is filled from the file. */
    method LoadProducts(file: Option<Json>) returns (r: Result<Dict<string, Product>, LoadError>)
      modifies this
      ensures (r, productos) == AfterLoad(old(productos), file)
    {
      if productos.keys == [] {
        r := LoadFromDisk(file);
        if r.Success? {
          productos := r.value;
        }
      } else {
        r := Success(productos);
      }
    }

    /** `reload_products`: the cache is replaced by the file's catalog whenever that loads. */
    method ReloadProducts(file: Option<Json>) returns (r: Result<Dict<string, Product>, LoadError>)
      modifies this
      ensures (r, productos) == AfterReload(old(productos), file)
    {
      r := LoadFromDisk(file);
      if r.Success? {
        productos := r.value;
      }
    }
  }
}
