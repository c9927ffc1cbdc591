/**
 * The browser client of frontend/chatbox.js: HTML escaping, the paging
 * state (`lastQuery`, `page`) that `sendMessage` keeps, the show-more
 * button, and the parser for product lines written inside a reply.
 */
module ChatBox {
  import opened Wrappers
  import opened Text

  /** `PAGE_SIZE` */
  const PageSize: nat := 5

  /* ---------- escapeHtml / escapeAttr ---------- */

  predicate IsSpecial(c: char) {
    c == '&' || c == '<' || c == '>' || c == '"' || c == '\''
  }

  /** The replacement `escapeHtml` writes for one character. */
  function Entity(c: char): (r: string)
    ensures |r| >= 1 && (r[0] == '&' <==> IsSpecial(c))
    ensures !IsSpecial(c) ==> r == [c]
  {
    if c == '&' then "&amp;" else if c == '<' then "&lt;" else if c == '>' then "&gt;"
    else if c == '"' then "&quot;" else if c == '\'' then "&#39;" else [c]
  }

  /** The text from `i` on starts with one of the five entities. */
  predicate EntityAt(r: string, i: nat)
    requires i <= |r|
  {
    var t := r[i..];
    "&amp;" <= t || "&lt;" <= t || "&gt;" <= t || "&quot;" <= t || "&#39;" <= t
  }

  /** `String(s).replace(/[&<>"']/g, ...)` */
  function EscapeHtml(s: string): (r: string)
    ensures forall i :: 0 <= i < |r| ==> r[i] != '<' && r[i] != '>' && r[i] != '"' && r[i] != '\''
    ensures (forall i :: 0 <= i < |s| ==> !IsSpecial(s[i])) ==> r == s
  {
    if s == [] then [] else Entity(s[0]) + EscapeHtml(s[1..])
  }

  /** Only the first character of a replacement can be `&`, and then the replacement is an entity. */
  lemma EntityFirst(c: char, i: nat)
    requires i < |Entity(c)| && Entity(c)[i] == '&'
    ensures i == 0 && IsSpecial(c)
    ensures var e := Entity(c); e == "&amp;" || e == "&lt;" || e == "&gt;" || e == "&quot;" || e == "&#39;"
  {
    if c == '&' {
      assert Entity(c) == "&amp;";
    } else if c == '<' {
      assert Entity(c) == "&lt;";
    } else if c == '>' {
      assert Entity(c) == "&gt;";
    } else if c == '"' {
      assert Entity(c) == "&quot;";
    } else if c == '\'' {
      assert Entity(c) == "&#39;";
    }
  }

  /** Every `&` of the escaped text opens one of the five entities. */
  lemma {:induction false} AmpersandsOpenEntities(s: string)
    ensures forall i :: 0 <= i < |EscapeHtml(s)| && EscapeHtml(s)[i] == '&' ==> EntityAt(EscapeHtml(s), i)
  {
    if s != [] {
      var e, rest := Entity(s[0]), EscapeHtml(s[1..]);
      var r := e + rest;
      AmpersandsOpenEntities(s[1..]);
      forall i | 0 <= i < |r| && r[i] == '&' ensures EntityAt(r, i) {
        if i < |e| {
          EntityFirst(s[0], i);
          assert r[i..] == e + rest;
          assert e <= r[i..];
        } else {
          var j := i - |e|;
          assert rest[j] == '&';
          assert EntityAt(rest, j);
          assert r[i..] == rest[j..];
        }
      }
    }
  }

  /** Decoding the five entities, the inverse of `EscapeHtml`. */
  function Unescape(r: string): string
    decreases |r|
  {
    if r == [] then []
    else if "&amp;" <= r then "&" + Unescape(r[5..])
    else if "&lt;" <= r then "<" + Unescape(r[4..])
    else if "&gt;" <= r then ">" + Unescape(r[4..])
    else if "&quot;" <= r then "\"" + Unescape(r[6..])
    else if "&#39;" <= r then "'" + Unescape(r[5..])
    else [r[0]] + Unescape(r[1..])
  }

  lemma UnescapeStep(c: char, rest: string)
    ensures Unescape(Entity(c) + rest) == [c] + Unescape(rest)
  {
    var r := Entity(c) + rest;
    if c == '&' {
      assert "&amp;" <= r && r[5..] == rest;
    } else if c == '<' {
      assert !("&amp;" <= r) by { assert r[1] == 'l'; }
      assert "&lt;" <= r && r[4..] == rest;
    } else if c == '>' {
      assert !("&amp;" <= r) by { assert r[1] == 'g'; }
      assert !("&lt;" <= r) by { assert r[1] == 'g'; }
      assert "&gt;" <= r && r[4..] == rest;
    } else if c == '"' {
      assert r[1] == 'q';
      assert !("&amp;" <= r) && !("&lt;" <= r) && !("&gt;" <= r);
      assert "&quot;" <= r && r[6..] == rest;
    } else if c == '\'' {
      assert r[1] == '#';
      assert !("&amp;" <= r) && !("&lt;" <= r) && !("&gt;" <= r) && !("&quot;" <= r);
      assert "&#39;" <= r && r[5..] == rest;
    } else {
      assert r[0] == c && r[1..] == rest;
    }
  }

  /** Escaping loses nothing: decoding the entities gives the text back. */
  lemma {:induction false} UnescapeEscape(s: string)
    ensures Unescape(EscapeHtml(s)) == s
  {
    if s != [] {
      UnescapeEscape(s[1..]);
      UnescapeStep(s[0], EscapeHtml(s[1..]));
      assert s == [s[0]] + s[1..];
    }
  }

  /** `.replace(/"/g, '&quot;')` */
  function QuoteEntities(t: string): (r: string)
    ensures (forall i :: 0 <= i < |t| ==> t[i] != '"') ==> r == t
  {
    if t == [] then [] else (if t[0] == '"' then "&quot;" else [t[0]]) + QuoteEntities(t[1..])
  }

  /** `escapeAttr`: its second replacement finds no quote left, so it escapes exactly as `escapeHtml`. */
  function EscapeAttr(s: string): (r: string)
    ensures r == EscapeHtml(s)
  {
    QuoteEntities(EscapeHtml(s))
  }

  /* ---------- the "more" pattern ---------- */

  /** Equal under the `i` flag, for the letters of the pattern. */
  predicate SameI(c: char, l: char) {
    Upper(c) == Upper(l)
  }

  predicate WordAtI(s: string, i: nat, w: string) {
    i + |w| <= |s| && forall k :: 0 <= k < |w| ==> SameI(s[i + k], w[k])
  }

  /** `m(a|á)s` at `i` */
  predicate MasAt(s: string, i: nat) {
    WordAtI(s, i, "mas") || WordAtI(s, i, "más")
  }

  /** `ver\s+m(a|á)s` at `i`: `\s+` must take the whole run, since `m` is not a space. */
  predicate VerMasAt(s: string, i: nat) {
    WordAtI(s, i, "ver") && RunFrom(s, i + 3, IsJsSpace) >= 1 && MasAt(s, i + 3 + RunFrom(s, i + 3, IsJsSpace))
  }

  /**
   * `/^m(a|á)s|ver\s+m(a|á)s|siguiente|continuar$/i.test(s)`: the anchors
   * bind to the first and the last alternative only, so the message starts
   * with "mas", or holds "ver mas" or "siguiente" anywhere, or ends with
   * "continuar".
   */
  predicate IsMoreRequest(s: string) {
    || MasAt(s, 0)
    || (exists i :: 0 <= i < |s| && VerMasAt(s, i))
    || (exists i :: 0 <= i < |s| && WordAtI(s, i, "siguiente"))
    || (|s| >= 9 && WordAtI(s, |s| - 9, "continuar"))
  }

  lemma ButtonWordIsMore()
    ensures IsMoreRequest("más")
  {
    assert WordAtI("más", 0, "más");
  }

  lemma VerMasIsMore()
    ensures IsMoreRequest("Ver  MAS")
  {
    var s := "Ver  MAS";
    RunFromExact(s, 3, IsJsSpace, 2);
    assert WordAtI(s, 0, "ver") && WordAtI(s, 5, "mas");
    assert VerMasAt(s, 0);
  }

  lemma SiguienteIsMore()
    ensures IsMoreRequest("la siguiente")
  {
    assert WordAtI("la siguiente", 3, "siguiente");
  }

  lemma ContinuarIsMore()
    ensures IsMoreRequest("continuar")
  {
    assert WordAtI("continuar", 0, "continuar");
  }

  /** The button's own word, and the phrases a user types. */
  lemma MoreWords()
    ensures IsMoreRequest("más") && IsMoreRequest("Ver  MAS") && IsMoreRequest("la siguiente") && IsMoreRequest("continuar")
  {
    ButtonWordIsMore();
    VerMasIsMore();
    SiguienteIsMore();
    ContinuarIsMore();
  }

  /** Because of the anchors, a product that starts with "mas" is taken for a more request. */
  lemma MascarillaIsMore()
    ensures IsMoreRequest("mascarilla led")
  {
    assert MasAt("mascarilla led", 0);
  }

  /** ... and "dame mas" is not, since `^` belongs to the first alternative only. */
  lemma DameMasIsNotMore()
    ensures !IsMoreRequest("dame mas")
  {
    var s := "dame mas";
    assert "mas"[0] == 'm' && "más"[0] == 'm' && "ver"[0] == 'v';
    assert !MasAt(s, 0) by { assert s[0] == 'd'; }
    forall i | 0 <= i < |s| ensures !VerMasAt(s, i) {
      if i + 3 <= |s| {
        assert !SameI(s[i], "ver"[0]);
      }
    }
  }

  /* ---------- the client ---------- */

  /** The JSON body `sendMessage` posts to `/chat/`. */
  datatype Request = Request(sessionId: string, message: string, lastQuery: string, page: nat)

  /** What every request the client sends looks like: the message is the last query, trimmed and not empty. */
  predicate Sendable(r: Request) {
    && r.message == r.lastQuery && r.lastQuery != []
    && !IsJsSpace(r.lastQuery[0]) && !IsJsSpace(r.lastQuery[|r.lastQuery| - 1])
  }

  /** The client asks for a later page only about a query it has, and keeps that query trimmed. */
  predicate ClientValid(lastQuery: string, page: nat) {
    && (page > 0 ==> lastQuery != [])
    && (lastQuery != [] ==> !IsJsSpace(lastQuery[0]) && !IsJsSpace(lastQuery[|lastQuery| - 1]))
  }

  /** What one call of `sendMessage` leaves: the request posted, if any, and the new `lastQuery` and `page`. */
  datatype Outcome = Outcome(sent: Option<Request>, lastQuery: string, page: nat)

  /**
   * Lines 84-96 of `sendMessage` on the trimmed message `msg`, with `more`
   * telling whether it is a show-more (the button or a more request). A
   * blank message that is not a show-more sends nothing; a show-more goes
   * on with the last query one page further, or sends nothing when there
   * is no last query; any other message starts a new query at page 0.
   */
  function Transition(sessionId: string, lastQuery: string, page: nat, msg: string, more: bool): (o: Outcome)
    ensures msg == [] && !more ==> o == Outcome(None, lastQuery, page)
    ensures more && lastQuery == [] ==> o == Outcome(None, lastQuery, page)
    ensures more && lastQuery != [] ==> o == Outcome(Some(Request(sessionId, lastQuery, lastQuery, page + 1)), lastQuery, page + 1)
    ensures msg != [] && !more ==> o == Outcome(Some(Request(sessionId, msg, msg, 0)), msg, 0)
  {
    if msg == [] && !more then Outcome(None, lastQuery, page)
    else if more then
      if lastQuery == [] then Outcome(None, lastQuery, page)
      else Outcome(Some(Request(sessionId, lastQuery, lastQuery, page + 1)), lastQuery, page + 1)
    else Outcome(Some(Request(sessionId, msg, msg, 0)), msg, 0)
  }

  /**
   * Every step keeps the client valid, and every request it sends is
   * sendable: the message is the last query, trimmed and not empty.
   */
  lemma TransitionKeepsValid(sessionId: string, lastQuery: string, page: nat, raw: string, more: bool)
    requires ClientValid(lastQuery, page)
    ensures var o := Transition(sessionId, lastQuery, page, JsTrim(raw), more);
      && ClientValid(o.lastQuery, o.page)
      && (o.sent.Some? ==> Sendable(o.sent.value) && o.sent.value.page == o.page && o.sent.value.lastQuery == o.lastQuery)
  {
  }

  /** The module state of chatbox.js that the pagination and the show-more button use. */
  class ChatClient {
    const sessionId: string
    var lastQuery: string
    var page: nat
    /** Whether `#cbShowMore` is in the stream. */
    var showMore: bool

    ghost predicate Valid()
      reads this
    {
      ClientValid(lastQuery, page)
    }

    /** On load: `lastQuery = ""`, `page = 0`, no button. */
    constructor(sessionId: string)
      ensures Valid()
      ensures this.sessionId == sessionId && lastQuery == "" && page == 0 && !showMore
    {
      this.sessionId := sessionId;
      lastQuery := "";
      page := 0;
      showMore := false;
    }

    /**
     * `sendMessage` up to the request it posts. `raw` is the argument, None
     * when it is not given, and `input` the text box; the message is
     * trimmed and classified, and the state moves as `Transition` says.
     */
    method SendMessage(raw: Option<string>, input: string, isShowMore: bool) returns (sent: Option<Request>)
      requires Valid()
      modifies this
      ensures Valid() && showMore == old(showMore)
      ensures sent.Some? ==> Sendable(sent.value)
      ensures var msg := JsTrim(if raw.Some? then raw.value else input);
        Outcome(sent, lastQuery, page) == Transition(sessionId, old(lastQuery), old(page), msg, isShowMore || IsMoreRequest(msg))
    {
      var text := if raw.Some? then raw.value else input;
      var msg := JsTrim(text);
      var more := isShowMore || IsMoreRequest(msg);
      TransitionKeepsValid(sessionId, lastQuery, page, text, more);
      if msg == [] && !isShowMore {
        return None;
      }
      var effectiveQuery := msg;
      if more {
        if lastQuery == [] {
          return None;
        }
        page := page + 1;
        effectiveQuery := lastQuery;
      } else {
        page := 0;
        lastQuery := msg;
      }
      sent := Some(Request(sessionId, effectiveQuery, lastQuery, page));
    }

    /** `maybeToggleShowMore`: the button is shown exactly when a full page of products came back. */
    method MaybeToggleShowMore<T>(products: Option<seq<T>>)
      modifies this
      ensures showMore == (products.Some? && |products.value| == PageSize)
      ensures lastQuery == old(lastQuery) && page == old(page)
    {
      if products.Some? && |products.value| == PageSize {
        showMore := true;
      } else {
        showMore := false;
      }
    }
  }

  /* ---------- parseInlineProducts ---------- */

  /** One product written in a reply as `Nombre — Precio — URL — IMG_URL`. */
  datatype InlineProduct = InlineProduct(name: string, price: string, url: string, imgUrl: string)

  /** What `.` does not match. */
  predicate IsLineTerminator(c: char) {
    c == '\n' || c == '\r' || c == '\U{2028}' || c == '\U{2029}'
  }

  /** `[$\d\.\,kK]` */
  predicate IsPriceChar(c: char) {
    c == '$' || IsDigit(c) || c == '.' || c == ',' || c == 'k' || c == 'K'
  }

  predicate IsNotJsSpace(c: char) { !IsJsSpace(c) }

  /** The length of the first piece of `s` before `sep`. */
  function PieceLen(s: string, sep: char): (n: nat)
    ensures n <= |s| && (n < |s| ==> s[n] == sep)
    ensures forall k :: 0 <= k < n ==> s[k] != sep
  {
    if s == [] || s[0] == sep then 0 else 1 + PieceLen(s[1..], sep)
  }

  /** `s.split(sep)` */
  function Split(s: string, sep: char): (r: seq<string>)
    ensures |r| >= 1
    ensures forall i, k :: 0 <= i < |r| && 0 <= k < |r[i]| ==> r[i][k] != sep
    decreases |s|
  {
    var n := PieceLen(s, sep);
    if n == |s| then [s] else [s[..n]] + Split(s[n + 1..], sep)
  }

  /** Splitting and joining back with the separator gives the text. */
  lemma {:induction false} JoinSplit(s: string, sep: char)
    ensures Join([sep], Split(s, sep)) == s
    decreases |s|
  {
    var n := PieceLen(s, sep);
    if n < |s| {
      JoinSplit(s[n + 1..], sep);
      assert s == s[..n] + [sep] + s[n + 1..];
    }
  }

  /** The number of leading characters of `t` that satisfy `p`. */
  function Span(t: string, p: char -> bool): (n: nat)
    ensures n <= |t| && (forall k :: 0 <= k < n ==> p(t[k])) && (n < |t| ==> !p(t[n]))
  {
    if t != [] && p(t[0]) then 1 + Span(t[1..], p) else 0
  }

  lemma {:induction false} SpanAppend(x: string, y: string, p: char -> bool)
    requires forall k :: 0 <= k < |x| ==> p(x[k])
    ensures Span(x + y, p) == |x| + Span(y, p)
  {
    if x != [] {
      assert (x + y)[0] == x[0] && p(x[0]);
      assert (x + y)[1..] == x[1..] + y;
      SpanAppend(x[1..], y, p);
      assert Span(x + y, p) == 1 + Span((x + y)[1..], p);
    } else {
      assert x + y == y;
    }
  }

  /** `http` at `q` */
  predicate HttpAt(l: string, q: nat) {
    q + 4 <= |l| && l[q] == 'h' && l[q + 1] == 't' && l[q + 2] == 't' && l[q + 3] == 'p'
  }

  /** `:\/\/` at `q` */
  predicate SlashesAt(l: string, q: nat) {
    q + 3 <= |l| && l[q] == ':' && l[q + 1] == '/' && l[q + 2] == '/'
  }

  /** `https?:\/\/` at the start of `t`, `s?` greedy: the length of the scheme, 0 when it does not match. */
  function SchemeLen(t: string): (r: nat)
    ensures r == 0 || r == 7 || r == 8
    ensures r <= |t|
  {
    if !HttpAt(t, 0) then 0
    else if 4 < |t| && t[4] == 's' && SlashesAt(t, 5) then 8
    else if SlashesAt(t, 4) then 7
    else 0
  }

  /** The fields after the name. */
  datatype Tail = Tail(price: string, url: string, imgUrl: string)

  /** `\s+—` at the start of `t`, `\s+` taking the whole run: what follows the dash. */
  function DashRest(t: string): (r: Option<string>)
    ensures r.Some? ==> |r.value| < |t|
  {
    var a := Span(t, IsJsSpace);
    if a >= 1 && a < |t| && t[a] == '—' then Some(t[a + 1..]) else None
  }

  /**
   * `\s+—\s+([$\d\.\,kK]+)\s+—\s+(https?:\/\/\S+)\s+—\s*(\S+)?$` at the
   * start of `t`. Every run is followed by something it cannot match, so
   * each one takes all it can and there is nothing to backtrack into.
   */
  function TailAt(t: string): Option<Tail> {
    var d1 := DashRest(t);
    if d1.None? || Span(d1.value, IsJsSpace) == 0 then None
    else PriceTail(d1.value[Span(d1.value, IsJsSpace)..])
  }

  /** From the price on: `([$\d\.\,kK]+)\s+—\s+` and the rest. */
  function PriceTail(r3: string): Option<Tail> {
    var pr := Span(r3, IsPriceChar);
    var d2 := DashRest(r3[pr..]);
    if pr == 0 || d2.None? || Span(d2.value, IsJsSpace) == 0 then None
    else UrlTail(r3[..pr], d2.value[Span(d2.value, IsJsSpace)..])
  }

  /** From the URL on: `(https?:\/\/\S+)\s+—` and the rest. */
  function UrlTail(price: string, r7: string): Option<Tail> {
    var sch := SchemeLen(r7);
    var u := Span(r7[sch..], IsNotJsSpace);
    if sch == 0 || u == 0 then None
    else
      var d3 := DashRest(r7[sch + u..]);
      if d3.None? then None else ImageTail(price, r7[..sch + u], d3.value)
  }

  /** After the last dash: `\s*(\S+)?$`. */
  function ImageTail(price: string, url: string, d3: string): Option<Tail> {
    var r12 := d3[Span(d3, IsJsSpace)..];
    if Span(r12, IsNotJsSpace) != |r12| then None else Some(Tail(price, url, r12))
  }

  /** `^(.+?)` followed by the tail: the shortest name, from `n` characters on, after which the tail matches. */
  function LazyFrom(l: string, n: nat, tail: string -> Option<Tail>): (r: Option<InlineProduct>)
    requires n >= 1
    ensures r.Some? ==> r.value.name != []
    decreases |l| - n
  {
    if n > |l| || IsLineTerminator(l[n - 1]) then None
    else
      var t := tail(l[n..]);
      if t.Some? then Some(InlineProduct(l[..n], t.value.price, t.value.url, t.value.imgUrl))
      else LazyFrom(l, n + 1, tail)
  }

  /** One line with the pattern, `m[4] || ''` for a missing image. */
  function ParseLine(l: string): Option<InlineProduct> {
    LazyFrom(l, 1, TailAt)
  }

  /** A product that one line can carry: the fields hold nothing the pattern would split on. */
  predicate Writable(p: InlineProduct) {
    && p.name != [] && !IsJsSpace(p.name[0]) && !IsJsSpace(p.name[|p.name| - 1])
    && (forall k :: 0 <= k < |p.name| ==> p.name[k] != '—' && !IsLineTerminator(p.name[k]))
    && p.price != [] && (forall k :: 0 <= k < |p.price| ==> IsPriceChar(p.price[k]))
    && SchemeLen(p.url) > 0 && |p.url| > SchemeLen(p.url)
    && (forall k :: 0 <= k < |p.url| ==> !IsJsSpace(p.url[k]))
    && (forall k :: 0 <= k < |p.imgUrl| ==> !IsJsSpace(p.imgUrl[k]))
  }

  function ImageField(img: string): string {
    if img == [] then "" else " " + img
  }

  /** What follows the name on a written line. */
  function AfterName(p: InlineProduct): string {
    " — " + (p.price + (" — " + (p.url + (" —" + ImageField(p.imgUrl)))))
  }

  /** The line a reply carries for a product: `Nombre — Precio — URL — IMG_URL`, the image optional. */
  function FormatLine(p: InlineProduct): string {
    p.name + AfterName(p)
  }

  lemma SpanStopsAt(x: string, y: string, p: char -> bool)
    requires y != [] && !p(y[0]) && forall k :: 0 <= k < |x| ==> p(x[k])
    ensures Span(x + y, p) == |x|
  {
    SpanAppend(x, y, p);
  }

  /** `\s+—` over " — " leaves the space after the dash. */
  lemma DashSpace(x: string)
    ensures DashRest(" — " + x) == Some(" " + x)
  {
    var t := " — " + x;
    assert t == " " + ("—" + (" " + x));
    SpanStopsAt(" ", "—" + (" " + x), IsJsSpace);
    assert t[2..] == " " + x;
  }

  /** `\s+—` over " —". */
  lemma DashEnd(x: string)
    ensures DashRest(" —" + x) == Some(x)
  {
    var t := " —" + x;
    assert t == " " + ("—" + x);
    SpanStopsAt(" ", "—" + x, IsJsSpace);
    assert t[2..] == x;
  }

  /** One space before a field that starts with a non-space. */
  lemma OneSpace(x: string)
    requires x != [] && !IsJsSpace(x[0])
    ensures Span(" " + x, IsJsSpace) == 1 && (" " + x)[1..] == x
  {
    SpanStopsAt(" ", x, IsJsSpace);
  }

  /** No name shorter than the whole one lets the tail match: a dash after spaces would have to sit inside the name. */
  lemma NoTailInsideName(p: InlineProduct, j: nat)
    requires Writable(p) && 1 <= j < |p.name|
    ensures TailAt(FormatLine(p)[j..]).None?
  {
    var x, y := p.name[j..], AfterName(p);
    assert FormatLine(p)[j..] == x + y;
    var a := Span(x + y, IsJsSpace);
    assert (x + y)[|x| - 1] == x[|x| - 1] == p.name[|p.name| - 1];
    assert a < |x|;
    assert (x + y)[a] == x[a] == p.name[j + a];
  }

  /** A name of `j` characters can be extended: `.` takes its last one and the tail does not match after it. */
  predicate Extends(l: string, j: nat, tail: string -> Option<Tail>) {
    1 <= j <= |l| && !IsLineTerminator(l[j - 1]) && tail(l[j..]).None?
  }

  /** The lazy name grows past every position where the tail cannot match. */
  lemma {:induction false} LazySkips(l: string, n: nat, m: nat, tail: string -> Option<Tail>)
    requires 1 <= n <= m <= |l|
    requires forall j :: n <= j < m ==> Extends(l, j, tail)
    ensures LazyFrom(l, n, tail) == LazyFrom(l, m, tail)
    decreases m - n
  {
    if n < m {
      assert Extends(l, n, tail);
      LazySkips(l, n + 1, m, tail);
    }
  }

  /** The image field reads back, empty when there is none. */
  lemma ImagePart(price: string, url: string, img: string)
    requires forall k :: 0 <= k < |img| ==> !IsJsSpace(img[k])
    ensures ImageTail(price, url, ImageField(img)) == Some(Tail(price, url, img))
  {
    if img != [] {
      OneSpace(img);
      SpanAppend(img, [], IsNotJsSpace);
      assert img + [] == img;
    }
  }

  /** The URL field reads back: its scheme, the run of non-spaces, and the dash after it. */
  lemma UrlPart(price: string, url: string, img: string)
    requires 0 < SchemeLen(url) < |url| && forall k :: 0 <= k < |url| ==> !IsJsSpace(url[k])
    requires forall k :: 0 <= k < |img| ==> !IsJsSpace(img[k])
    ensures UrlTail(price, url + (" —" + ImageField(img))) == Some(Tail(price, url, img))
  {
    var tl := " —" + ImageField(img);
    var r7 := url + tl;
    var sch := SchemeLen(url);
    SchemeKept(url, tl);
    SpanStopsAt(url[sch..], tl, IsNotJsSpace);
    assert r7[..|url|] == url && r7[|url|..] == tl;
    DashEnd(ImageField(img));
    ImagePart(price, url, img);
  }

  /** What follows a URL does not change its scheme. */
  lemma SchemeKept(url: string, tl: string)
    requires 0 < SchemeLen(url) < |url|
    ensures SchemeLen(url + tl) == SchemeLen(url) && (url + tl)[SchemeLen(url)..] == url[SchemeLen(url)..] + tl
  {
    assert forall k :: 0 <= k < 8 ==> (url + tl)[k] == url[k];
  }

  /** The price field reads back, and the dash after it. */
  lemma PricePart(p: InlineProduct)
    requires Writable(p)
    ensures PriceTail(p.price + (" — " + (p.url + (" —" + ImageField(p.imgUrl))))) == Some(Tail(p.price, p.url, p.imgUrl))
  {
    var r7 := p.url + (" —" + ImageField(p.imgUrl));
    var x1 := p.price + (" — " + r7);
    SpanStopsAt(p.price, " — " + r7, IsPriceChar);
    assert x1[..|p.price|] == p.price && x1[|p.price|..] == " — " + r7;
    DashSpace(r7);
    assert r7[0] == p.url[0];
    OneSpace(r7);
    UrlPart(p.price, p.url, p.imgUrl);
  }

  /** The tail of a written line reads back its price, URL and image. */
  lemma TailOfLine(p: InlineProduct)
    requires Writable(p)
    ensures TailAt(AfterName(p)) == Some(Tail(p.price, p.url, p.imgUrl))
  {
    var x1 := p.price + (" — " + (p.url + (" —" + ImageField(p.imgUrl))));
    DashSpace(x1);
    assert x1[0] == p.price[0];
    OneSpace(x1);
    PricePart(p);
  }

  /** A written line parses back to its product. */
  lemma ParseFormatLine(p: InlineProduct)
    requires Writable(p)
    ensures ParseLine(FormatLine(p)) == Some(p)
  {
    var l := FormatLine(p);
    var n := |p.name|;
    forall j | 1 <= j < n ensures Extends(l, j, TailAt) {
      assert l[j - 1] == p.name[j - 1];
      NoTailInsideName(p, j);
    }
    LazySkips(l, 1, n, TailAt);
    assert l[n - 1] == p.name[n - 1];
    assert l[..n] == p.name && l[n..] == AfterName(p);
    TailOfLine(p);
  }

  /** `text.split('\n').map(l => l.trim()).filter(Boolean)` */
  function Lines(text: string): (r: seq<string>)
    ensures forall i :: 0 <= i < |r| ==> r[i] != []
  {
    TrimmedNonEmpty(Split(text, '\n'))
  }

  function TrimmedNonEmpty(ls: seq<string>): (r: seq<string>)
    ensures |r| <= |ls|
    ensures forall i :: 0 <= i < |r| ==> r[i] != []
  {
    if ls == [] then []
    else
      var pre := TrimmedNonEmpty(ls[..|ls| - 1]);
      var t := JsTrim(ls[|ls| - 1]);
      if t == [] then pre else pre + [t]
  }

  /** The products of the lines that match, in line order. */
  function Parsed(lines: seq<string>): (r: seq<InlineProduct>)
    ensures |r| <= |lines|
  {
    Collect(ParseLine, lines)
  }

  /** The values `parse` finds in the lines it matches, in line order. */
  function Collect<T>(parse: string -> Option<T>, lines: seq<string>): (r: seq<T>)
    ensures |r| <= |lines|
  {
    if lines == [] then []
    else
      var pre := Collect(parse, lines[..|lines| - 1]);
      var m := parse(lines[|lines| - 1]);
      if m.Some? then pre + [m.value] else pre
  }

  /** Lines that each parse to a value collect to exactly those values. */
  lemma {:induction false} CollectAll<T>(parse: string -> Option<T>, lines: seq<string>, vs: seq<T>)
    requires |lines| == |vs| && forall i :: 0 <= i < |lines| ==> parse(lines[i]) == Some(vs[i])
    ensures Collect(parse, lines) == vs
  {
    if lines != [] {
      var n := |lines| - 1;
      assert forall i :: 0 <= i < n ==> lines[..n][i] == lines[i];
      CollectAll(parse, lines[..n], vs[..n]);
      assert vs == vs[..n] + [vs[n]];
    }
  }

  /** One turn of a loop that collects what `parse` finds. */
  lemma CollectStep<T>(parse: string -> Option<T>, lines: seq<string>, i: nat)
    requires i < |lines|
    ensures var m := parse(lines[i]);
      Collect(parse, lines[..i + 1]) == if m.Some? then Collect(parse, lines[..i]) + [m.value] else Collect(parse, lines[..i])
  {
    assert lines[..i + 1][..i] == lines[..i];
  }

  /** The lines of a reply that lists products, one written line each. */
  function FormatLines(ps: seq<InlineProduct>): (r: seq<string>)
    ensures |r| == |ps| && forall i :: 0 <= i < |ps| ==> r[i] == FormatLine(ps[i])
  {
    if ps == [] then [] else FormatLines(ps[..|ps| - 1]) + [FormatLine(ps[|ps| - 1])]
  }

  /** Joining pieces without the separator and splitting again gives the pieces. */
  lemma {:induction false} SplitJoin(xs: seq<string>, sep: char)
    requires |xs| >= 1 && forall i :: 0 <= i < |xs| ==> sep !in xs[i]
    ensures Split(Join([sep], xs), sep) == xs
    decreases |xs|
  {
    var s := Join([sep], xs);
    var n := PieceLen(s, sep);
    if |xs| == 1 {
      assert n == |s|;
    } else {
      var rest := Join([sep], xs[1..]);
      assert s == xs[0] + [sep] + rest;
      assert s[|xs[0]|] == sep;
      assert forall k :: 0 <= k < |xs[0]| ==> s[k] == xs[0][k];
      assert n == |xs[0]|;
      assert s[..n] == xs[0] && s[n + 1..] == rest;
      SplitJoin(xs[1..], sep);
      assert xs == [xs[0]] + xs[1..];
    }
  }

  /** A written line is one line, with no space at either end. */
  lemma LineShape(p: InlineProduct)
    requires Writable(p)
    ensures var l := FormatLine(p); '\n' !in l && l != [] && !IsJsSpace(l[0]) && !IsJsSpace(l[|l| - 1])
  {
    var l := FormatLine(p);
    assert '\n' !in p.name by {
      forall k | 0 <= k < |p.name| ensures p.name[k] != '\n' {
        assert !IsLineTerminator(p.name[k]);
      }
    }
    assert '\n' !in p.price by {
      forall k | 0 <= k < |p.price| ensures p.price[k] != '\n' {
        assert IsPriceChar(p.price[k]);
      }
    }
    assert '\n' !in p.url && '\n' !in p.imgUrl;
    assert '\n' !in ImageField(p.imgUrl);
    assert l[0] == p.name[0];
    if p.imgUrl == [] {
      assert l[|l| - 1] == '—';
    } else {
      assert l[|l| - 1] == p.imgUrl[|p.imgUrl| - 1];
    }
  }

  lemma {:induction false} TrimmedKeeps(ls: seq<string>)
    requires forall i :: 0 <= i < |ls| ==> ls[i] != [] && !IsJsSpace(ls[i][0]) && !IsJsSpace(ls[i][|ls[i]| - 1])
    ensures TrimmedNonEmpty(ls) == ls
  {
    if ls != [] {
      var pre := ls[..|ls| - 1];
      TrimmedKeeps(pre);
      var l := ls[|ls| - 1];
      assert JsTrim(l) == l;
      assert ls == pre + [l];
    }
  }

  lemma ParsedFormatLines(ps: seq<InlineProduct>)
    requires forall i :: 0 <= i < |ps| ==> Writable(ps[i])
    ensures Parsed(FormatLines(ps)) == ps
  {
    var ls := FormatLines(ps);
    forall i | 0 <= i < |ls| ensures ParseLine(ls[i]) == Some(ps[i]) {
      ParseFormatLine(ps[i]);
    }
    CollectAll(ParseLine, ls, ps);
  }

  /** A reply that lists products one per written line gives back exactly those products, in order. */
  lemma ParseFormatText(ps: seq<InlineProduct>)
    requires ps != [] && forall i :: 0 <= i < |ps| ==> Writable(ps[i])
    ensures Parsed(Lines(Join("\n", FormatLines(ps)))) == ps
  {
    FormatLinesShape(ps);
    LinesOfJoin(FormatLines(ps));
    ParsedFormatLines(ps);
  }

  /** Trimmed, non-empty and free of line breaks: what `Lines` keeps as it is. */
  predicate OneLineEach(ls: seq<string>) {
    forall i :: 0 <= i < |ls| ==> '\n' !in ls[i] && ls[i] != [] && !IsJsSpace(ls[i][0]) && !IsJsSpace(ls[i][|ls[i]| - 1])
  }

  /** The written lines of writable products are each one trimmed line. */
  lemma FormatLinesShape(ps: seq<InlineProduct>)
    requires forall i :: 0 <= i < |ps| ==> Writable(ps[i])
    ensures OneLineEach(FormatLines(ps))
  {
    var ls := FormatLines(ps);
    forall i | 0 <= i < |ls|
      ensures '\n' !in ls[i] && ls[i] != [] && !IsJsSpace(ls[i][0]) && !IsJsSpace(ls[i][|ls[i]| - 1])
    {
      LineShape(ps[i]);
    }
  }

  /** Lines that are trimmed, non-empty and free of line breaks come back from their join as they were. */
  lemma LinesOfJoin(ls: seq<string>)
    requires ls != [] && OneLineEach(ls)
    ensures Lines(Join("\n", ls)) == ls
  {
    SplitJoin(ls, '\n');
    TrimmedKeeps(ls);
  }

  /** `parseInlineProducts`: nothing for a missing or empty text, else one product per matching line. */
  method ParseInlineProducts(text: Option<string>) returns (out: seq<InlineProduct>)
    ensures text.None? || text == Some("") ==> out == []
    ensures text.Some? ==> out == Parsed(Lines(text.value))
  {
    if text.None? || text.value == "" {
      return [];
    }
    out := ParseLines(Lines(text.value));
  }

  /** The loop of `parseInlineProducts` over the trimmed, non-empty lines. */
  method ParseLines(lines: seq<string>) returns (out: seq<InlineProduct>)
    ensures out == Parsed(lines)
  {
    out := [];
    var i := 0;
    while i < |lines|
      invariant 0 <= i <= |lines|
      invariant out == Collect(ParseLine, lines[..i])
    {
      var m := ParseLine(lines[i]);
      CollectStep(ParseLine, lines, i);
      if m.Some? {
        out := out + [m.value];
      }
      i := i + 1;
    }
    assert lines[..i] == lines;
  }
}
