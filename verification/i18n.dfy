/**
 * The front end's translation store: choosing the start-up language,
 * picking the translation table for a language, caching loaded tables, and
 * the translation function `t`, which looks a dotted key up in the current
 * table and fills in `{name}` placeholders.
 *
 * A translation table is a tree whose leaves are strings. Parameters are
 * given already converted with `String(val)`, in the order
 * `Object.entries` lists them.
 */
module I18n {
  import W = Wrappers
  import Text

  datatype Value = Leaf(text: string) | Tree(entries: map<string, Value>)

  // ---------- Looking a key up ----------

  /** `value?.[k]`: one level down, or undefined. A string has no entries in this model. */
  function Step(v: W.Option<Value>, k: string): W.Option<Value> {
    if v.Some? && v.value.Tree? && k in v.value.entries then W.Some(v.value.entries[k]) else W.None
  }

  /** The value reached by following the segments in order from v. */
  function Walk(v: W.Option<Value>, keys: seq<string>): W.Option<Value>
    decreases |keys|
  {
    if keys == [] then v else Step(Walk(v, keys[..|keys| - 1]), keys[|keys| - 1])
  }

  lemma {:induction false} WalkUndefined(keys: seq<string>)
    ensures Walk(W.None, keys) == W.None
    decreases |keys|
  {
    if keys != [] {
      WalkUndefined(keys[..|keys| - 1]);
    }
  }

  /** Following a + b is following a, then b from where a ended. */
  lemma {:induction false} WalkAppend(v: W.Option<Value>, a: seq<string>, b: seq<string>)
    ensures Walk(v, a + b) == Walk(Walk(v, a), b)
    decreases |b|
  {
    if b == [] {
      assert a + b == a;
    } else {
      WalkAppend(v, a, b[..|b| - 1]);
      assert (a + b)[..|a + b| - 1] == a + b[..|b| - 1];
    }
  }

  /** Once a prefix of the path is undefined, so is the whole path. */
  lemma WalkStopsUndefined(v: W.Option<Value>, keys: seq<string>, i: nat)
    requires i <= |keys| && Walk(v, keys[..i]) == W.None
    ensures Walk(v, keys) == W.None
  {
    WalkAppend(v, keys[..i], keys[i..]);
    assert keys[..i] + keys[i..] == keys;
    WalkUndefined(keys[i..]);
  }

  // ---------- Placeholders ----------

  function Placeholder(name: string): (p: string)
    ensures |p| == |name| + 2 && p[0] == '{' && p[|p| - 1] == '}'
  {
    "{" + name + "}"
  }

  /** The parameters applied in order, each replacing every occurrence of its placeholder. */
  function Substitute(s: string, params: seq<(string, string)>): string
    decreases |params|
  {
    if params == [] then s
    else
      var last := params[|params| - 1];
      Text.ReplaceAll(Substitute(s, params[..|params| - 1]), Placeholder(last.0), last.1)
  }

  /** Later parameters see the text the earlier ones inserted. */
  lemma {:induction false} SubstituteAppend(s: string, ps: seq<(string, string)>, qs: seq<(string, string)>)
    ensures Substitute(s, ps + qs) == Substitute(Substitute(s, ps), qs)
    decreases |qs|
  {
    if qs == [] {
      assert ps + qs == ps;
    } else {
      SubstituteAppend(s, ps, qs[..|qs| - 1]);
      assert (ps + qs)[..|ps + qs| - 1] == ps + qs[..|qs| - 1];
    }
  }

  /** A text holding none of the placeholders, and no replacement bringing one in, comes back unchanged. */
  lemma {:induction false} SubstituteAbsent(s: string, params: seq<(string, string)>)
    requires forall i :: 0 <= i < |params| ==> !Text.Contains(s, Placeholder(params[i].0))
    ensures Substitute(s, params) == s
    decreases |params|
  {
    if params != [] {
      var init := params[..|params| - 1];
      var last := params[|params| - 1];
      forall i | 0 <= i < |init| ensures !Text.Contains(s, Placeholder(init[i].0)) {
        assert init[i] == params[i];
      }
      SubstituteAbsent(s, init);
      Text.ReplaceAllAbsent(s, Placeholder(last.0), last.1);
    }
  }

  // ---------- The translation function ----------

  /**
   * What `t(key, params)` returns: the key itself while no table is loaded
   * or when the key does not lead to a string, otherwise that string with
   * the parameters filled in.
   */
  function Translation(trans: W.Option<Value>, key: string, params: seq<(string, string)>): string {
    if trans.None? then key
    else
      match Walk(trans, Text.Split(key, '.'))
      case Some(Leaf(s)) => Substitute(s, params)
      case _ => key
  }

  /** `t`: walks the segments, stopping at the first undefined one, then substitutes. */
  method Translate(trans: W.Option<Value>, key: string, params: seq<(string, string)>) returns (r: string)
    ensures r == Translation(trans, key, params)
  {
    if trans.None? {
      return key;
    }
    var keys := Text.Split(key, '.');
    var value := trans;
    var i := 0;
    while i < |keys|
      invariant 0 <= i <= |keys|
      invariant value == Walk(trans, keys[..i])
    {
      assert keys[..i + 1][..i] == keys[..i];
      value := Step(value, keys[i]);
      i := i + 1;
      if value.None? {
        WalkStopsUndefined(trans, keys, i);
        break;
      }
    }
    if i == |keys| {
      assert keys[..i] == keys;
    }
    if !(value.Some? && value.value.Leaf?) {
      return key;
    }
    r := value.value.text;
    for j := 0 to |params|
      invariant r == Substitute(value.value.text, params[..j])
    {
      assert params[..j + 1][..j] == params[..j];
      r := Text.ReplaceAll(r, Placeholder(params[j].0), params[j].1);
    }
    assert params[..|params|] == params;
  }

  /** A key with an undefined segment translates to itself, whatever the parameters. */
  lemma MissingSegment(root: Value, key: string, params: seq<(string, string)>, i: nat)
    requires i <= |Text.Split(key, '.')| && Walk(W.Some(root), Text.Split(key, '.')[..i]) == W.None
    ensures Translation(W.Some(root), key, params) == key
  {
    WalkStopsUndefined(W.Some(root), Text.Split(key, '.'), i);
  }

  /** A key naming a subtree rather than a string translates to itself. */
  lemma SubtreeIsNotText(root: Value, key: string, params: seq<(string, string)>)
    requires Walk(W.Some(root), Text.Split(key, '.')).Some? && Walk(W.Some(root), Text.Split(key, '.')).value.Tree?
    ensures Translation(W.Some(root), key, params) == key
  {
  }

  /**
   * A dotted key leads where its tail leads from the value its first
   * segment names; when that is a string, both translate alike.
   */
  lemma NestedKey(root: Value, head: string, rest: string, params: seq<(string, string)>)
    requires '.' !in head
    ensures Walk(W.Some(root), Text.Split(head + "." + rest, '.')) == Walk(Step(W.Some(root), head), Text.Split(rest, '.'))
    ensures Walk(Step(W.Some(root), head), Text.Split(rest, '.')).Some? && Walk(Step(W.Some(root), head), Text.Split(rest, '.')).value.Leaf? ==>
              Translation(W.Some(root), head + "." + rest, params) == Translation(Step(W.Some(root), head), rest, params)
  {
    Text.SplitField(head, '.', rest);
    assert head + "." + rest == head + ['.'] + rest;
    var tail := Text.Split(rest, '.');
    WalkAppend(W.Some(root), [head], tail);
    assert Walk(W.Some(root), [head]) == Step(W.Some(root), head) by {
      assert [head][..0] == [];
    }
    if Step(W.Some(root), head).None? {
      WalkUndefined(tail);
    }
  }

  /** A translation with nothing to fill in is the table's string itself. */
  lemma NoPlaceholders(root: Value, key: string, params: seq<(string, string)>)
    requires Walk(W.Some(root), Text.Split(key, '.')).Some? && Walk(W.Some(root), Text.Split(key, '.')).value.Leaf?
    requires forall i :: 0 <= i < |params| ==>
               !Text.Contains(Walk(W.Some(root), Text.Split(key, '.')).value.text, Placeholder(params[i].0))
    ensures Translation(W.Some(root), key, params) == Walk(W.Some(root), Text.Split(key, '.')).value.text
  {
    SubstituteAbsent(Walk(W.Some(root), Text.Split(key, '.')).value.text, params);
  }

  // ---------- Languages ----------

  /** The codes of the `languages` table, in its order. */
  const Codes: seq<string> := ["en", "es", "fr", "de", "pt", "zh", "ja"]

  predicate Supported(code: string) {
    code in Codes
  }

  /** The part of a browser language before its first '-'. */
  function BaseLanguage(browserLanguage: string): string {
    Text.Split(browserLanguage, '-')[0]
  }

  /**
   * `getDefaultLanguage`: English without a window; otherwise the saved
   * choice when it is supported, then the browser's base language when it
   * is supported, then English.
   */
  function DefaultLanguage(hasWindow: bool, saved: W.Option<string>, browserLanguage: string): (l: string)
    ensures Supported(l)
  {
    if !hasWindow then "en"
    else if saved.Some? && saved.value != "" && Supported(saved.value) then saved.value
    else if Supported(BaseLanguage(browserLanguage)) then BaseLanguage(browserLanguage)
    else "en"
  }

  /** The order of preference, both ways round. */
  lemma DefaultLanguageMeaning(hasWindow: bool, saved: W.Option<string>, browserLanguage: string)
    ensures var l := DefaultLanguage(hasWindow, saved, browserLanguage);
      (!hasWindow ==> l == "en")
      && (hasWindow && saved.Some? && Supported(saved.value) ==> l == saved.value)
      && (hasWindow && !(saved.Some? && Supported(saved.value)) && Supported(BaseLanguage(browserLanguage)) ==>
            l == BaseLanguage(browserLanguage))
      && (l != "en" ==> hasWindow && ((saved.Some? && l == saved.value) || l == BaseLanguage(browserLanguage)))
  {
    assert !Supported("");
  }

  /** A browser language with a region ("pt-BR") selects its base language when nothing is saved. */
  lemma BrowserRegion(code: string, region: string)
    requires Supported(code)
    ensures DefaultLanguage(true, W.None, code + "-" + region) == code
  {
    assert '-' !in code;
    Text.SplitField(code, '-', region);
  }

  /** `loadTranslation`: the table loaded for a language; anything but the six others loads English. */
  function BundleFor(lang: string): (b: string)
    ensures Supported(b)
  {
    if lang == "es" then "es"
    else if lang == "fr" then "fr"
    else if lang == "de" then "de"
    else if lang == "pt" then "pt"
    else if lang == "zh" then "zh"
    else if lang == "ja" then "ja"
    else "en"
  }

  /** Every supported language loads its own table, and every other code the English one. */
  lemma BundleForMeaning(lang: string)
    ensures Supported(lang) ==> BundleFor(lang) == lang
    ensures !Supported(lang) ==> BundleFor(lang) == "en"
  {
  }

  // ---------- The stores ----------

  /**
   * The language store with its saved preference, the table cache and the
   * current table. The seven tables are given as `catalog`; whether a
   * window exists and what the browser reports are fixed at start-up.
   */
  class Localizer {
    const catalog: map<string, Value>
    const hasWindow: bool
    /** The `chrono-language` entry of local storage. */
    var saved: W.Option<string>
    var language: string
    var cache: map<string, Value>
    var current: W.Option<Value>

    ghost predicate Valid()
      reads this
    {
      (forall c :: c in Codes ==> c in catalog)
      && Supported(language)
      && (forall l :: l in cache ==> cache[l] == catalog[BundleFor(l)])
      && language in cache && current == W.Some(cache[language])
    }

    /** Creating the store picks the default language, and subscribing loads its table. */
    constructor(catalog: map<string, Value>, hasWindow: bool, saved: W.Option<string>, browserLanguage: string)
      requires forall c :: c in Codes ==> c in catalog
      ensures Valid()
      ensures this.catalog == catalog && this.hasWindow == hasWindow && this.saved == saved
      ensures language == DefaultLanguage(hasWindow, saved, browserLanguage)
      ensures current == W.Some(catalog[language])
    {
      this.catalog := catalog;
      this.hasWindow := hasWindow;
      this.saved := saved;
      var l := DefaultLanguage(hasWindow, saved, browserLanguage);
      language := l;
      cache := map[l := catalog[BundleFor(l)]];
      current := W.Some(catalog[BundleFor(l)]);
      BundleForMeaning(l);
    }

    /** `initTranslations`: loads the table once, then makes it current. */
    method InitTranslations(lang: string)
      requires forall c :: c in Codes ==> c in catalog
      requires forall l :: l in cache ==> cache[l] == catalog[BundleFor(l)]
      modifies this`cache, this`current
      ensures cache == if lang in old(cache) then old(cache) else old(cache)[lang := catalog[BundleFor(lang)]]
      ensures current == W.Some(catalog[BundleFor(lang)])
      ensures forall l :: l in cache ==> cache[l] == catalog[BundleFor(l)]
    {
      if lang !in cache {
        cache := cache[lang := catalog[BundleFor(lang)]];
      }
      current := W.Some(cache[lang]);
    }

    /** The store's `set`: remembers the choice when there is a window, then loads its table. */
    method SetLanguage(lang: string)
      requires Valid() && Supported(lang)
      modifies this`saved, this`language, this`cache, this`current
      ensures Valid()
      ensures language == lang && current == W.Some(catalog[lang])
      ensures saved == if hasWindow then W.Some(lang) else old(saved)
      ensures forall l :: l in old(cache) ==> l in cache && cache[l] == old(cache)[l]
    {
      if hasWindow {
        saved := W.Some(lang);
      }
      language := lang;
      InitTranslations(lang);
      BundleForMeaning(lang);
    }

    /** The translation function derived from the current table. */
    function T(key: string, params: seq<(string, string)>): string
      reads this
    {
      Translation(current, key, params)
    }
  }

  /** A saved choice is what the next start-up picks, whatever the browser says. */
  lemma SavedChoiceWins(lang: string, browserLanguage: string)
    requires Supported(lang)
    ensures DefaultLanguage(true, W.Some(lang), browserLanguage) == lang
  {
  }
}
