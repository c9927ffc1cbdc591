/**
 * The per-session store and the message classifiers of
 * backend/services/state_manager.py: `get_state`/`update_state` over
 * `_SESSIONS`, the "show me more" detector, the slot extractor with its
 * three regular expressions, and the intent classifier.
 */
module StateManager {
  import opened Wrappers
  import opened Text

  /* ---------- the session store ---------- */

  /** The values a session record holds. */
  datatype Value =
    | Null
    | Num(n: int)
    | Str(s: string)
    | Codes(cs: set<string>)
    | Items(xs: seq<Value>)
    | Obj(fields: map<string, Value>)

  /** A session record: a dict from key to value. */
  type Record = map<string, Value>

  /** The record `get_state` creates for a new session. */
  function DefaultState(): Record {
    map[
      "espacio" := Null,
      "espacio_source" := Null,
      "necesidad" := Null,
      "preferencias" := Obj(map["vatios" := Null, "temp_color" := Null, "instalacion" := Null, "presupuesto" := Null]),
      "last_query" := Null,
      "last_filter" := Null,
      "last_items" := Items([]),
      "page" := Num(0),
      "seen_codes" := Codes({}),
      "focus" := Codes({}),
      "result_seed" := Num(0)]
  }

  /** One session's record; `update_state` changes it in place. */
  class Session {
    var data: Record

    constructor ()
      ensures data == DefaultState()
    {
      data := DefaultState();
    }

    /** `s.update(delta)`: the keys of `delta` take its values, nested dicts included. */
    method Update(delta: Record)
      modifies this
      ensures data.Keys == old(data).Keys + delta.Keys
      ensures forall k :: k in delta ==> data[k] == delta[k]
      ensures forall k :: k in old(data) && k !in delta ==> data[k] == old(data)[k]
    {
      data := data + delta;
    }
  }

  /** `_SESSIONS`: session id to record object. */
  class SessionStore {
    var sessions: map<string, Session>

    /** No two sessions share a record. */
    ghost predicate Valid()
      reads this
    {
      forall a, b :: a in sessions && b in sessions && a != b ==> sessions[a] != sessions[b]
    }

    constructor ()
      ensures Valid() && sessions == map[]
    {
      sessions := map[];
    }

    /**
     * `get_state(session_id)`: a new session gets a fresh default record
     * (page 0, empty `seen_codes` and `focus`, `result_seed` 0, the four
     * preferences None); a known one gets its own record back, the same
     * object every time.
     */
    method GetState(id: string) returns (s: Session)
      requires Valid()
      modifies this
      ensures Valid()
      ensures id in sessions && s == sessions[id]
      ensures id in old(sessions) ==> sessions == old(sessions)
      ensures id !in old(sessions) ==> fresh(s) && s.data == DefaultState() && sessions == old(sessions)[id := s]
    {
      if id !in sessions {
        s := new Session();
        sessions := sessions[id := s];
      } else {
        s := sessions[id];
      }
    }

    /**
     * `update_state(session_id, delta)`: the session's record (created if
     * new) takes the top-level keys of `delta`, a nested `preferencias`
     * included, replacing rather than merging; its other keys and every
     * other session are unchanged.
     */
    method UpdateState(id: string, delta: Record)
      requires Valid()
      modifies this, if id in sessions then {sessions[id]} else {}
      ensures Valid()
      ensures id in sessions
      ensures id in old(sessions) ==> sessions == old(sessions)
      ensures id !in old(sessions) ==> fresh(sessions[id]) && sessions == old(sessions)[id := sessions[id]]
      ensures var before := if id in old(sessions) then old(sessions[id].data) else DefaultState();
        && sessions[id].data.Keys == before.Keys + delta.Keys
        && (forall k :: k in delta ==> sessions[id].data[k] == delta[k])
        && (forall k :: k in before && k !in delta ==> sessions[id].data[k] == before[k])
      ensures forall o :: o in old(sessions) && o != id ==>
        o in sessions && sessions[o] == old(sessions[o]) && sessions[o].data == old(sessions[o].data)
    {
      var s := GetState(id);
      s.Update(delta);
    }
  }

  /* ---------- is_more_signal ---------- */

  /** `_MORE` */
  const MorePhrases: set<string> := {
    "muestrame otros", "muestrame mas", "mostrar mas", "mostrar más", "otros", "más", "mas",
    "enséñame otros", "muéstrame otros", "enséñame más", "muéstrame más",
    "muestrame otras", "otras", "enséñame otras", "muéstrame otras",
    "ver mas", "ver más", "ver otros", "ver otras", "siguiente", "continuar",
    "más productos", "mas productos", "más opciones", "mas opciones"
  }

  /** `str.lower()` */
  function LowerStr(s: string): string { MapChars(Lower, s) }

  /** `is_more_signal(text)`: the lower-cased, stripped text starts with (or is) a phrase of `_MORE`. */
  predicate IsMoreSignal(text: string) {
    StartsWithAny(MorePhrases, PyStrip(LowerStr(text)))
  }

  /** `any(t.startswith(x) or t == x for x in ps)` */
  predicate StartsWithAny(ps: set<string>, t: string) {
    exists x :: x in ps && (x <= t || t == x)
  }

  /** `t` starts with one of `rs`. */
  predicate HasPrefixIn(rs: set<string>, t: string) {
    exists y :: y in rs && y <= t
  }

  /**
   * The phrases of `_MORE` that no other phrase is a prefix of; the other
   * four ("más productos", …) start with "más" or "mas".
   */
  const MoreRoots: set<string> := {
    "muestrame otros", "muestrame mas", "mostrar mas", "mostrar más", "otros", "más", "mas",
    "enséñame otros", "muéstrame otros", "enséñame más", "muéstrame más",
    "muestrame otras", "otras", "enséñame otras", "muéstrame otras",
    "ver mas", "ver más", "ver otros", "ver otras", "siguiente", "continuar"
  }

  /** Every phrase of `_MORE` starts with one of the 21 roots, and every root is a phrase. */
  lemma RootsCoverPhrases()
    ensures MoreRoots <= MorePhrases
    ensures forall x :: x in MorePhrases ==> exists y :: y in MoreRoots && y <= x
  {
    forall x | x in MorePhrases ensures exists y :: y in MoreRoots && y <= x {
      if x == "más productos" || x == "más opciones" {
        assert "más" <= x;
      } else if x == "mas productos" || x == "mas opciones" {
        assert "mas" <= x;
      } else {
        assert x in MoreRoots && x <= x;
      }
    }
  }

  /**
   * A message is a "more" request exactly when its lower-cased, stripped
   * text starts with one of the 21 roots: the test `t == x` adds nothing
   * and neither do the four longer phrases.
   */
  lemma MoreSignalByRoots(text: string)
    ensures IsMoreSignal(text) <==> HasPrefixIn(MoreRoots, PyStrip(LowerStr(text)))
  {
    PhraseByRoot(PyStrip(LowerStr(text)));
  }

  /** A key starts with (or is) a phrase of `_MORE` exactly when it starts with a root. */
  lemma PhraseByRoot(t: string)
    ensures StartsWithAny(MorePhrases, t) <==> HasPrefixIn(MoreRoots, t)
  {
    RootsCoverPhrases();
    CoveredPrefixes(MorePhrases, MoreRoots, t);
  }

  /** Starting with a phrase of `ps` is starting with a root of `rs`, when every phrase starts with a root and every root is a phrase. */
  lemma CoveredPrefixes(ps: set<string>, rs: set<string>, t: string)
    requires rs <= ps && forall x :: x in ps ==> exists y :: y in rs && y <= x
    ensures StartsWithAny(ps, t) <==> HasPrefixIn(rs, t)
  {
    if StartsWithAny(ps, t) {
      var x :| x in ps && (x <= t || t == x);
      var y :| y in rs && y <= x;
      assert y <= t;
    }
    if HasPrefixIn(rs, t) {
      var y :| y in rs && y <= t;
      assert y in ps;
    }
  }

  /** A text without upper-case letters or surrounding whitespace is its own key. */
  lemma PlainText(s: string)
    requires forall i :: 0 <= i < |s| ==> IsAsciiLower(s[i]) || IsDigit(s[i]) || s[i] == ' '
    requires s != [] ==> s[0] != ' ' && s[|s| - 1] != ' '
    ensures PyStrip(LowerStr(s)) == s
  {
    var l := LowerStr(s);
    assert l == s;
    StripNoop(s);
  }

  /** A phrase of `_MORE` at the head of the key is enough. */
  lemma PhraseSignal(text: string, x: string)
    requires x in MorePhrases && x <= PyStrip(LowerStr(text))
    ensures IsMoreSignal(text)
  {
  }

  /** Any message that starts with "mas" counts, a product name such as "mascarilla" included. */
  lemma MascarillaIsMore(s: string)
    requires s == "mascarilla led"
    ensures IsMoreSignal(s)
  {
    PlainText(s);
    assert "mas" <= s;
    PhraseSignal(s, "mas");
  }

  /** So does any message that starts with "otros". */
  lemma OtrosIsMore(s: string)
    requires s == "otros colores"
    ensures IsMoreSignal(s)
  {
    PlainText(s);
    assert "otros" <= s;
    PhraseSignal(s, "otros");
  }

  /** An empty message is not a "more" request. */
  lemma EmptyIsNotMore()
    ensures !IsMoreSignal("")
  {
    assert PyStrip(LowerStr("")) == "";
    forall x | x in MorePhrases ensures !(x <= "") {
      assert |x| >= 3;
    }
  }

  /* ---------- intent ---------- */

  /** `Intent = Literal["keyword", "more"]` */
  datatype Intent = Keyword | More

  /** `classify_intent(text)` */
  function ClassifyIntent(text: string): (r: Intent)
    ensures r == More <==> IsMoreSignal(text)
    ensures r == Keyword <==> !IsMoreSignal(text)
  {
    if IsMoreSignal(text) then More else Keyword
  }

  /** `is_keyword_signal(text)`: `re.search(r"[a-zA-Z0-9]", text.strip())` */
  predicate IsKeywordSignal(text: string) {
    var t := PyStrip(text);
    exists i :: 0 <= i < |t| && IsAsciiAlnum(t[i])
  }

  lemma SpaceIsNotAlnum(c: char)
    requires IsPySpace(c)
    ensures !IsAsciiAlnum(c)
  {
  }

  /** Stripping removes only whitespace, so the test holds iff the text has an ASCII letter or digit. */
  lemma KeywordSignalAnyAlnum(text: string)
    ensures IsKeywordSignal(text) <==> exists i :: 0 <= i < |text| && IsAsciiAlnum(text[i])
  {
    var s1 := TrimStart(text, IsPySpace);
    var t := TrimEnd(s1, IsPySpace);
    var a := |text| - |s1|;
    assert PyStrip(text) == t;
    assert s1 == text[a..] && t == s1[..|t|];
    if i :| 0 <= i < |text| && IsAsciiAlnum(text[i]) {
      if i < a {
        SpaceIsNotAlnum(text[i]);
      } else if i - a >= |t| {
        assert s1[i - a] == text[i];
        SpaceIsNotAlnum(s1[i - a]);
      } else {
        assert t[i - a] == text[i];
      }
    }
    if j :| 0 <= j < |t| && IsAsciiAlnum(t[j]) {
      assert text[a + j] == t[j];
    }
  }

  /* ---------- maybe_extract_slots ---------- */

  /**
   * `re.search`: the match of `at` at the leftmost position from `p` on
   * (Python also tries the empty tail at `|text|`).
   */
  function SearchFrom<T>(text: string, p: nat, at: (string, nat) -> Option<T>): Option<T>
    decreases |text| + 1 - p
  {
    if p > |text| then None
    else if at(text, p).Some? then at(text, p)
    else SearchFrom(text, p + 1, at)
  }

  function Search<T>(text: string, at: (string, nat) -> Option<T>): Option<T> {
    SearchFrom(text, 0, at)
  }

  lemma {:induction false} SearchFromLeftmost<T>(text: string, p: nat, at: (string, nat) -> Option<T>)
    ensures SearchFrom(text, p, at).Some? ==>
      exists q :: p <= q <= |text| && at(text, q) == SearchFrom(text, p, at) && forall k :: p <= k < q ==> at(text, k).None?
    ensures SearchFrom(text, p, at).None? <==> forall q :: p <= q <= |text| ==> at(text, q).None?
    decreases |text| + 1 - p
  {
    if p <= |text| && at(text, p).None? {
      SearchFromLeftmost(text, p + 1, at);
      if SearchFrom(text, p, at).Some? {
        var q :| p + 1 <= q <= |text| && at(text, q) == SearchFrom(text, p, at) && forall k :: p + 1 <= k < q ==> at(text, k).None?;
        assert forall k :: p <= k < q ==> at(text, k).None?;
      }
    }
  }

  /** The search finds the match at the first position where the pattern matches, and fails only if it matches nowhere. */
  lemma SearchLeftmost<T>(text: string, at: (string, nat) -> Option<T>)
    ensures Search(text, at).Some? ==>
      exists q :: 0 <= q <= |text| && at(text, q) == Search(text, at) && forall k :: 0 <= k < q ==> at(text, k).None?
    ensures Search(text, at).None? <==> forall q :: 0 <= q <= |text| ==> at(text, q).None?
  {
    SearchFromLeftmost(text, 0, at);
  }

  function Min(a: nat, b: nat): nat { if a < b then a else b }

  /** `\b` after a word character that ends at `q`. */
  predicate BoundaryAt(text: string, q: nat) {
    q >= |text| || !IsWordChar(text[q])
  }

  /**
   * `\s*?X\b` from `q`, with `X` one character in `x`: the lazy run of
   * whitespace ends exactly where the first non-space is, since `X` is not
   * whitespace.
   */
  predicate UnitAfter(text: string, q: nat, x: char -> bool) {
    var k := q + RunFrom(text, q, IsPySpace);
    k < |text| && x(text[k]) && BoundaryAt(text, k + 1)
  }

  /** The `n` characters from `p` are ASCII digits. */
  predicate DigitsAt(text: string, p: nat, n: nat) {
    p + n <= |text| && forall k :: p <= k < p + n ==> IsDigit(text[k])
  }

  predicate IsW(c: char) { c == 'w' || c == 'W' }
  predicate IsK(c: char) { c == 'k' || c == 'K' }

  /** `(\d{1,3})\s*?w\b` at `p` with `n` digits or fewer, the greedy count tried first. */
  function WattsWith(text: string, p: nat, n: nat): (r: Option<nat>)
    ensures r.Some? ==> r.value < 1000
    decreases n
  {
    if n == 0 || n > 3 then None
    else if DigitsAt(text, p, n) && UnitAfter(text, p + n, IsW) then
      assert Pow10(1) == 10 && Pow10(2) == 100 && Pow10(3) == 1000;
      Some(DigitsValue(text[p..p + n]))
    else WattsWith(text, p, n - 1)
  }

  /** `_WATTS` tried at `p`: `int` of group 1. */
  function WattsAt(text: string, p: nat): (r: Option<nat>)
    ensures r.Some? ==> r.value < 1000
  {
    WattsWith(text, p, 3)
  }

  /** The alternatives of `_TEMP`, in their order. */
  const TempAlternatives: seq<(string, nat)> :=
    [("2700", 2700), ("3000", 3000), ("3500", 3500), ("4000", 4000), ("5000", 5000), ("6500", 6500)]

  const TempValues: set<nat> := {2700, 3000, 3500, 4000, 5000, 6500}

  /** The first of `alts` that matches at `p` and is followed by `\s*?k\b`. */
  function TempWith(text: string, p: nat, alts: seq<(string, nat)>): (r: Option<nat>)
    ensures r.Some? ==> exists i :: 0 <= i < |alts| && r.value == alts[i].1
  {
    if alts == [] then None
    else
      var lit := alts[0].0;
      if p + |lit| <= |text| && text[p..p + |lit|] == lit && UnitAfter(text, p + |lit|, IsK) then Some(alts[0].1)
      else
        var r := TempWith(text, p, alts[1..]);
        assert r.Some? ==> exists i :: 1 <= i < |alts| && r.value == alts[i].1;
        r
  }

  /** `_TEMP` tried at `p`: `int` of group 1. */
  function TempAt(text: string, p: nat): (r: Option<nat>)
    ensures r.Some? ==> r.value in TempValues
  {
    TempWith(text, p, TempAlternatives)
  }

  /**
   * The first alternative of `_MONEY`, `\$?\s?\d{2,3}\.?\d{0,3}\.?\d{0,3}`,
   * at `p`: where its match ends. Every part after `\d{2,3}` may be empty,
   * so the first way that matches takes each part greedily.
   */
  function MoneyPlain(text: string, p: nat): (r: Option<nat>)
    ensures r.Some? ==> p + 2 <= r.value <= |text|
  {
    var q1 := if p < |text| && text[p] == '$' then p + 1 else p;
    var q2 := if q1 < |text| && IsPySpace(text[q1]) then q1 + 1 else q1;
    var d := Min(3, RunFrom(text, q2, IsDigit));
    if d < 2 then None
    else
      var q3 := q2 + d;
      var q4 := if q3 < |text| && text[q3] == '.' then q3 + 1 else q3;
      var q5 := q4 + Min(3, RunFrom(text, q4, IsDigit));
      var q6 := if q5 < |text| && text[q5] == '.' then q5 + 1 else q5;
      var q7 := q6 + Min(3, RunFrom(text, q6, IsDigit));
      Some(q7)
  }

  predicate IsM(c: char) { c == 'm' || c == 'M' }
  predicate IsI(c: char) { c == 'i' || c == 'I' }
  predicate IsL(c: char) { c == 'l' || c == 'L' }

  /** `(mil|k)` at `q`, ignoring case: where it ends. */
  function UnitWord(text: string, q: nat): (r: Option<nat>)
    ensures r.Some? ==> q < r.value <= |text|
  {
    if q + 3 <= |text| && IsM(text[q]) && IsI(text[q + 1]) && IsL(text[q + 2]) then Some(q + 3)
    else if q < |text| && IsK(text[q]) then Some(q + 1)
    else None
  }

  /**
   * The second alternative, `\d+\s?(mil|k)`, at `p`. Giving a digit back
   * to `\d+` leaves a digit where `\s?(mil|k)` must start, so only the
   * whole run can match.
   */
  function MoneyUnit(text: string, p: nat): (r: Option<nat>)
    ensures r.Some? ==> p < r.value <= |text|
  {
    var n := RunFrom(text, p, IsDigit);
    if n == 0 then None
    else
      var q := p + n;
      if q < |text| && IsPySpace(text[q]) && UnitWord(text, q + 1).Some? then UnitWord(text, q + 1)
      else UnitWord(text, q)
  }

  /** `_MONEY` tried at `p`: group 1, the whole match, first alternative first. */
  function MoneyAt(text: string, p: nat): (r: Option<string>)
    ensures r.Some? ==> p + |r.value| <= |text| && r.value == text[p..p + |r.value|] && r.value != []
  {
    var e := if MoneyPlain(text, p).Some? then MoneyPlain(text, p) else MoneyUnit(text, p);
    if e.Some? then Some(text[p..e.value]) else None
  }

  function Watts(text: string): Option<nat> { Search(text, WattsAt) }
  function Temp(text: string): Option<nat> { Search(text, TempAt) }
  function Money(text: string): Option<string> { Search(text, MoneyAt) }

  /** Watts are a number from 0 to 999. */
  lemma WattsBound(text: string)
    ensures Watts(text).Some? ==> Watts(text).value < 1000
  {
    SearchLeftmost(text, WattsAt);
  }

  /** A colour temperature is one of the six listed values. */
  lemma TempBound(text: string)
    ensures Temp(text).Some? ==> Temp(text).value in TempValues
  {
    SearchLeftmost(text, TempAt);
  }

  lemma {:induction false} SliceContained(text: string, p: nat, m: string)
    requires p + |m| <= |text| && text[p..p + |m|] == m
    ensures Contains(text, m)
    decreases p
  {
    if p == 0 {
      assert m <= text;
    } else {
      assert text[1..][p - 1..p - 1 + |m|] == m;
      SliceContained(text[1..], p - 1, m);
    }
  }

  /** A search for a pattern whose matches are non-empty slices of the text finds such a slice. */
  lemma {:induction false} SearchSlice(text: string, p: nat, at: (string, nat) -> Option<string>)
    requires forall q :: p <= q <= |text| && at(text, q).Some? ==>
      q + |at(text, q).value| <= |text| && at(text, q).value == text[q..q + |at(text, q).value|] && at(text, q).value != []
    ensures SearchFrom(text, p, at).Some? ==> SearchFrom(text, p, at).value != [] && Contains(text, SearchFrom(text, p, at).value)
    decreases |text| + 1 - p
  {
    if p <= |text| {
      if at(text, p).Some? {
        SliceContained(text, p, at(text, p).value);
      } else {
        SearchSlice(text, p + 1, at);
      }
    }
  }

  /** The budget is the matched text itself: a non-empty piece of the message, not a number. */
  lemma MoneyIsText(text: string)
    ensures Money(text).Some? ==> Money(text).value != [] && Contains(text, Money(text).value)
  {
    forall q | 0 <= q <= |text| && MoneyAt(text, q).Some?
      ensures q + |MoneyAt(text, q).value| <= |text| && MoneyAt(text, q).value == text[q..q + |MoneyAt(text, q).value|]
    {
    }
    SearchSlice(text, 0, MoneyAt);
  }

  /** `out.setdefault("preferencias", {})[key] = v` */
  function SetPreference(out: Record, key: string, v: Value): Record {
    var prefs := if "preferencias" in out && out["preferencias"].Obj? then out["preferencias"].fields else map[];
    out["preferencias" := Obj(prefs[key := v])]
  }

  /**
   * `maybe_extract_slots(text)`: nothing for an empty text; otherwise a
   * `preferencias` dict holding exactly the slots whose pattern matched,
   * `vatios` and `temp_color` as numbers and `presupuesto` as the matched
   * text.
   */
  method MaybeExtractSlots(text: string) returns (out: Record)
    ensures text == [] ==> out == map[]
    ensures out.Keys <= {"preferencias"}
    ensures "preferencias" in out <==> text != [] && (Watts(text).Some? || Temp(text).Some? || Money(text).Some?)
    ensures "preferencias" in out ==> out["preferencias"].Obj?
    ensures "preferencias" in out ==> var m := out["preferencias"].fields;
      && m.Keys <= {"vatios", "temp_color", "presupuesto"}
      && ("vatios" in m <==> Watts(text).Some?)
      && ("temp_color" in m <==> Temp(text).Some?)
      && ("presupuesto" in m <==> Money(text).Some?)
      && (Watts(text).Some? ==> m["vatios"] == Num(Watts(text).value))
      && (Temp(text).Some? ==> m["temp_color"] == Num(Temp(text).value))
      && (Money(text).Some? ==> m["presupuesto"] == Str(Money(text).value))
  {
    out := map[];
    if text == [] {
      return;
    }
    var m := Watts(text);
    if m.Some? {
      out := SetPreference(out, "vatios", Num(m.value));
    }
    var t := Temp(text);
    if t.Some? {
      out := SetPreference(out, "temp_color", Num(t.value));
    }
    var b := Money(text);
    if b.Some? {
      out := SetPreference(out, "presupuesto", Str(b.value));
    }
  }

  /** "100w" sets 100 watts. */
  lemma WattsOf100w()
    ensures Watts("100w") == Some(100)
  {
    var s := "100w";
    RunFromExact(s, 3, IsPySpace, 0);
    assert DigitsAt(s, 0, 3) && s[0..3] == "100";
    assert UnitAfter(s, 3, IsW);
    assert DigitsValue("100") == 100 by {
      assert "100"[..2] == "10" && "10"[..1] == "1" && "1"[..0] == "";
    }
    assert WattsAt(s, 0) == Some(100);
  }

  /** ... and the budget pattern takes the same "100" as a budget. */
  lemma BudgetOf100w()
    ensures Money("100w") == Some("100")
  {
    var s := "100w";
    RunFromExact(s, 0, IsDigit, 3);
    RunFromExact(s, 3, IsDigit, 0);
    assert s[0] == '1' && s[3] == 'w';
    assert MoneyPlain(s, 0) == Some(3);
    var m := MoneyAt(s, 0);
    assert m == Some(s[0..3]);
    assert s[0..3] == "100";
    assert Money(s) == m;
  }
}
