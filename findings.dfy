/**
 * How the catalog reaches the search engine. search_service.py:9 runs
 * `from backend.services.product_loader import load_products, PRODUCTOS`,
 * which binds the search module's own name `PRODUCTOS` to the dict object
 * the loader's `PRODUCTOS` names at that moment: the empty dict of
 * product_loader.py:14. `load_products` and `reload_products`
 * (product_loader.py:121,127) bind a new dict to the loader's name only,
 * so the search module keeps the empty one, `_ensure_index` indexes
 * nothing and `search_candidates` finds nothing. The rest of this model
 * gives the engine its catalog explicitly.
 */
module StaleCatalogBinding {
  import opened Wrappers
  import opened OrderedDict
  import opened ProductLoader
  import opened SearchIndex
  import opened Ranking
  import SearchService
  import Tokenizer

  /** The dict objects of the interpreter, by identity, and the two module globals that name one. */
  class Interpreter {
    var heap: seq<Catalog>
    /** `product_loader.PRODUCTOS` */
    var loaderProductos: nat
    /** `search_service.PRODUCTOS` */
    var serviceProductos: nat

    ghost predicate Valid()
      reads this
    {
      loaderProductos < |heap| && serviceProductos < |heap|
    }

    /** The search module still names the dict it imported, and that dict is still empty. */
    ghost predicate Stale()
      reads this
    {
      Valid() && serviceProductos == 0 && heap[0] == Empty()
    }

    /** product_loader.py:14 creates the empty dict; search_service.py:9 binds its own name to the same object. */
    constructor ()
      ensures Stale() && heap == [Empty()] && loaderProductos == 0
    {
      heap := [Empty()];
      loaderProductos := 0;
      serviceProductos := 0;
    }

    /** The catalog `_ensure_index` and `search_candidates` iterate (search_service.py:60,165). */
    function ServiceCatalog(): (c: Catalog)
      reads this
      requires Valid()
    {
      heap[serviceProductos]
    }

    /** `load_products` (product_loader.py:117-122): a loaded catalog is a new dict, bound to the loader's name. */
    method LoadProducts(file: Option<Json>) returns (r: Result<Catalog, LoadError>)
      requires Valid()
      modifies this
      ensures Valid() && serviceProductos == old(serviceProductos)
      ensures |heap| >= old(|heap|) && heap[..old(|heap|)] == old(heap)
      ensures (r, heap[loaderProductos]) == AfterLoad(old(heap[loaderProductos]), file)
      ensures old(heap[loaderProductos]).keys != [] ==> heap == old(heap) && loaderProductos == old(loaderProductos)
    {
      if heap[loaderProductos].keys == [] {
        r := LoadFromDisk(file);
        if r.Success? {
          heap := heap + [r.value];
          loaderProductos := |heap| - 1;
        }
      } else {
        r := Success(heap[loaderProductos]);
      }
    }

    /** `reload_products` (product_loader.py:124-128): the same rebinding, whatever the cache held. */
    method ReloadProducts(file: Option<Json>) returns (r: Result<Catalog, LoadError>)
      requires Valid()
      modifies this
      ensures Valid() && serviceProductos == old(serviceProductos)
      ensures |heap| >= old(|heap|) && heap[..old(|heap|)] == old(heap)
      ensures (r, heap[loaderProductos]) == AfterReload(old(heap[loaderProductos]), file)
    {
      r := LoadFromDisk(file);
      if r.Success? {
        heap := heap + [r.value];
        loaderProductos := |heap| - 1;
      }
    }
  }

  /**
   * Start-up as written (main.py calls `load_products` on start-up, and
   * `_ensure_index` calls it again when its own name is empty): with a
   * file that loads, the loader holds the catalog while the search module
   * still sees the empty dict, so every search finds nothing.
   */
  method StartupAsWritten(file: Option<Json>, tok: string -> seq<string>, fields: Product -> Fields,
                          tbl: map<string, real>, vocab: seq<string>, rand: nat -> real, msg: string)
    returns (loaded: Catalog, searched: Catalog, found: seq<Payload>)
    requires Load(file).Success?
    ensures loaded == Load(file).value && loaded.keys != []
    ensures searched == Empty()
    ensures found == [] && found == SearchResult(tok, fields, searched, tbl, vocab, rand, msg, 5, 0, {})
  {
    var py := new Interpreter();
    var r := py.LoadProducts(file);
    var again := py.LoadProducts(file);
    loaded := py.heap[py.loaderProductos];
    searched := py.ServiceCatalog();
    SearchEmptyCatalog(tok, fields, tbl, vocab, rand, msg, 5, 0, {});
    found := [];
  }

  /**
   * The corrected wiring: the engine is given the catalog the loader
   * returned, and its index covers every product of it.
   */
  method StartupCorrected(file: Option<Json>, ln: real -> real)
    returns (engine: SearchService.SearchEngine)
    requires Load(file).Success?
    modifies {}
    ensures engine.productos == Load(file).value && engine.tok == Tokenizer.Tok
    ensures engine.Inv() && engine.ready && engine.index.Keys == Load(file).value.vals.Keys
  {
    var cat := LoadFromDisk(file);
    engine := new SearchService.SearchEngine(cat.value, ln, Tokenizer.Tok);
    engine.EnsureIndex();
  }
}
