/**
 * The colour themes of themes.js: the two built-in themes, the stored preference
 * under `vitwi-theme`, and applying a theme to the page (CSS custom properties on
 * the root element, a `theme-<key>` class on the body, and the saved preference).
 */
module Themes {
  import opened Wrappers
  import opened Seqs

  /** A theme: display name, icon and its CSS custom properties in declaration order. */
  datatype Theme = Theme(name: string, icon: string, colors: seq<(string, string)>)

  /** The localStorage key of the preference (themes.js:45, 60). */
  const StorageKey := "vitwi-theme"

  /** The custom properties every theme sets, in declaration order (themes.js:8-19, 26-37). */
  const PropertyNames := [
    "--theme-bg", "--theme-bg-secondary", "--theme-text", "--theme-text-secondary",
    "--theme-primary", "--theme-primary-gradient", "--theme-success", "--theme-success-gradient",
    "--theme-error", "--theme-warning", "--theme-border", "--theme-shadow"]

  /** Pairs each property name with a value. */
  function WithValues(values: seq<string>): (colors: seq<(string, string)>)
    requires |values| == |PropertyNames|
    ensures |colors| == |PropertyNames|
    ensures forall i :: 0 <= i < |colors| ==> colors[i] == (PropertyNames[i], values[i])
  {
    seq(|values|, i requires 0 <= i < |values| => (PropertyNames[i], values[i]))
  }

  /** `themes.light` (themes.js:4-21). */
  const Light := Theme("Светлая", "☀️", WithValues([
    "#ffffff", "#f8f9fa", "#1a1a1a", "#6c757d", "#2481cc",
    "linear-gradient(135deg, #667eea 0%, #764ba2 100%)", "#4caf50",
    "linear-gradient(135deg, #4caf50 0%, #45a049 100%)", "#f44336", "#ff9800",
    "rgba(0, 0, 0, 0.1)", "rgba(0, 0, 0, 0.1)"]))

  /** `themes.dark` (themes.js:22-39). */
  const Dark := Theme("Темная", "🌙", WithValues([
    "#1a1a1a", "#2d2d2d", "#ffffff", "#b0b0b0", "#4a9eff",
    "linear-gradient(135deg, #667eea 0%, #764ba2 100%)", "#66bb6a",
    "linear-gradient(135deg, #66bb6a 0%, #4caf50 100%)", "#ef5350", "#ffa726",
    "rgba(255, 255, 255, 0.1)", "rgba(0, 0, 0, 0.5)"]))

  /** The keys of `themes` in `Object.keys` order (themes.js:3-40). */
  const ThemeKeys := ["light", "dark"]

  /** The `themes` object as a lookup table. */
  const Themes: map<string, Theme> := map["light" := Light, "dark" := Dark]

  /** The key table and the lookup table agree, and no key is listed twice. */
  lemma ThemeKeysAreThemes()
    ensures forall k :: k in Themes <==> k in ThemeKeys
    ensures NoDuplicates(ThemeKeys)
  {
    assert "light"[0] != "dark"[0];
  }

  /** No property is set twice by a theme. */
  lemma PropertyNamesDistinct()
    ensures NoDuplicates(PropertyNames)
  {
    var p := PropertyNames;
    assert |p[0]| == 10 && |p[1]| == 20 && |p[2]| == 12 && |p[3]| == 22;
    assert |p[4]| == 15 && |p[5]| == 24 && |p[6]| == 15 && |p[7]| == 24;
    assert |p[8]| == 13 && |p[9]| == 15 && |p[10]| == 14 && |p[11]| == 14;
    assert p[4][8] == 'p' && p[6][8] == 's' && p[9][8] == 'w';
    assert p[5][8] == 'p' && p[7][8] == 's';
    assert p[10][8] == 'b' && p[11][8] == 's';
  }

  /** The values run at which `\w` matches: ASCII letters, digits and `_`. */
  predicate IsWordChar(c: char) {
    ('a' <= c <= 'z') || ('A' <= c <= 'Z') || ('0' <= c <= '9') || c == '_'
  }

  /** The length of the longest prefix of word characters. */
  function WordRun(s: string): (n: nat)
    ensures n <= |s|
    ensures forall i :: 0 <= i < n ==> IsWordChar(s[i])
    ensures n == |s| || !IsWordChar(s[n])
  {
    if s != [] && IsWordChar(s[0]) then 1 + WordRun(s[1..]) else 0
  }

  /** `/theme-\w+/` matches at the start of `s`. */
  predicate ThemeWordAt(s: string) {
    |s| >= 7 && s[..6] == "theme-" && IsWordChar(s[6])
  }

  /** `s.replace(/theme-\w+/g, '')`: scanning left to right, each match is removed and scanning resumes after it. */
  function StripThemeClasses(s: string): (r: string)
    ensures |r| <= |s|
    ensures (forall i :: 0 <= i < |s| ==> !ThemeWordAt(s[i..])) ==> r == s
  {
    if s == [] then []
    else if ThemeWordAt(s) then
      assert s[0..] == s;
      var n := 6 + WordRun(s[6..]);
      assert forall i :: 0 <= i < |s[n..]| ==> s[n..][i..] == s[n + i..];
      StripThemeClasses(s[n..])
    else
      assert forall i :: 0 <= i < |s[1..]| ==> s[1..][i..] == s[1 + i..];
      [s[0]] + StripThemeClasses(s[1..])
  }

  /** The ASCII whitespace that separates the tokens of a `class` attribute. */
  predicate IsAsciiWhitespace(c: char) {
    c == ' ' || c == '\t' || c == '\n' || c == '\r' || c == '\U{000C}'
  }

  /** A class token: not empty, no whitespace. */
  predicate IsToken(t: string) {
    t != [] && forall i :: 0 <= i < |t| ==> !IsAsciiWhitespace(t[i])
  }

  /** The length of the longest prefix with no whitespace. */
  function TokenRun(s: string): (n: nat)
    ensures n <= |s|
    ensures forall i :: 0 <= i < n ==> !IsAsciiWhitespace(s[i])
    ensures n == |s| || IsAsciiWhitespace(s[n])
  {
    if s != [] && !IsAsciiWhitespace(s[0]) then 1 + TokenRun(s[1..]) else 0
  }

  /** The tokens of a `class` attribute, in order, repeats included. */
  function Tokens(s: string): (ts: seq<string>)
    ensures forall i :: 0 <= i < |ts| ==> IsToken(ts[i])
    decreases |s|
  {
    if s == [] then []
    else if IsAsciiWhitespace(s[0]) then Tokens(s[1..])
    else
      var n := TokenRun(s);
      assert IsToken(s[..n]);
      [s[..n]] + Tokens(s[n..])
  }

  /** The tokens joined by single spaces, as `DOMTokenList` serialises its set. */
  function JoinTokens(ts: seq<string>): string {
    if ts == [] then [] else if |ts| == 1 then ts[0] else ts[0] + " " + JoinTokens(ts[1..])
  }

  /** The tokens of a serialised token list are the list again. */
  lemma {:induction false} TokensOfJoin(ts: seq<string>)
    requires forall i :: 0 <= i < |ts| ==> IsToken(ts[i])
    ensures Tokens(JoinTokens(ts)) == ts
  {
    if |ts| == 1 {
      TokenRunOfToken(ts[0], []);
      assert ts[0] + [] == ts[0];
      assert ts[0][..|ts[0]|] == ts[0];
      assert ts[0][|ts[0]|..] == [];
      assert JoinTokens(ts) == ts[0];
    } else if |ts| > 1 {
      var rest := " " + JoinTokens(ts[1..]);
      assert JoinTokens(ts) == ts[0] + rest;
      TokenRunOfToken(ts[0], rest);
      assert (ts[0] + rest)[..|ts[0]|] == ts[0];
      assert (ts[0] + rest)[|ts[0]|..] == rest;
      assert rest[1..] == JoinTokens(ts[1..]);
      TokensOfJoin(ts[1..]);
    }
  }

  /** A token followed by nothing or by whitespace is read whole. */
  lemma {:induction false} TokenRunOfToken(t: string, rest: string)
    requires IsToken(t) && (rest == [] || IsAsciiWhitespace(rest[0]))
    ensures TokenRun(t + rest) == |t|
    decreases |t|
  {
    if |t| > 1 {
      assert (t + rest)[1..] == t[1..] + rest;
      TokenRunOfToken(t[1..], rest);
    } else {
      assert (t + rest)[1..] == rest;
    }
  }

  /**
   * `element.className = s; element.classList.add(t)`: the token set of `s` without
   * repeats, `t` appended unless present, serialised again.
   */
  function ClassListAdd(s: string, t: string): string {
    var set0 := Distinct(Tokens(s));
    JoinTokens(if t in set0 then set0 else set0 + [t])
  }

  /** After `classList.add(t)`, `t` is one of the class tokens, and every earlier token is still one. */
  lemma ClassListAddHasToken(s: string, t: string)
    requires IsToken(t)
    ensures t in Tokens(ClassListAdd(s, t))
    ensures forall u :: u in Tokens(s) ==> u in Tokens(ClassListAdd(s, t))
  {
    var set0 := Distinct(Tokens(s));
    var ts := if t in set0 then set0 else set0 + [t];
    assert forall i :: 0 <= i < |ts| ==> ts[i] in Tokens(s) || ts[i] == t;
    TokensOfJoin(ts);
  }

  /**
   * `getSavedTheme` (themes.js:43-55) against a map of stored strings: the stored name
   * when it is a theme key, `'light'` when nothing, the empty string, `'system'` or an
   * unknown name is stored.
   */
  function GetSavedTheme(storage: map<string, string>): (key: string)
    ensures key in Themes
    ensures StorageKey in storage && storage[StorageKey] in Themes ==> key == storage[StorageKey]
    ensures !(StorageKey in storage && storage[StorageKey] in Themes) ==> key == "light"
  {
    if StorageKey !in storage then "light"
    else
      var saved := storage[StorageKey];
      if saved == "" || saved !in Themes || saved == "system" then "light" else saved
  }

  /** The members every object inherits from `Object.prototype`, which `themes[saved]` also finds. */
  const PrototypeMembers := ["constructor", "toString", "valueOf", "hasOwnProperty",
    "isPrototypeOf", "propertyIsEnumerable", "toLocaleString", "__proto__",
    "__defineGetter__", "__defineSetter__", "__lookupGetter__", "__lookupSetter__"]

  /** `!themes[saved]` is false: an own key or an inherited member. */
  predicate FoundOnThemes(name: string) {
    name in Themes || name in PrototypeMembers
  }

  /** `getSavedTheme` as written: the guard looks the name up through the prototype chain. */
  function GetSavedThemeAsWritten(storage: map<string, string>): (key: string)
    ensures StorageKey in storage && FoundOnThemes(storage[StorageKey]) && storage[StorageKey] != "system" ==> key == storage[StorageKey]
  {
    if StorageKey !in storage then "light"
    else
      var saved := storage[StorageKey];
      if saved == "" || !FoundOnThemes(saved) || saved == "system" then "light" else saved
  }

  /** A stored `constructor` passes the guard as written and comes back although it names no theme. */
  lemma AsWrittenReturnsNonTheme()
    ensures GetSavedThemeAsWritten(map[StorageKey := "constructor"]) == "constructor"
    ensures "constructor" !in Themes
  {
    assert "constructor"[0] != "light"[0] && "constructor"[0] != "dark"[0] && "constructor"[0] != "system"[0];
    assert "constructor" in PrototypeMembers;
  }

  /** Whenever the stored name is an own key, the two readings agree. */
  lemma AsWrittenAgreesOnThemes(storage: map<string, string>)
    requires StorageKey !in storage || storage[StorageKey] !in PrototypeMembers
    ensures GetSavedThemeAsWritten(storage) == GetSavedTheme(storage)
  {
  }

  /** `storage` after `style.setProperty(p, v)` for each entry in order. */
  function SetAll(style: map<string, string>, entries: seq<(string, string)>): map<string, string> {
    if entries == [] then style
    else
      var init := entries[..|entries| - 1];
      var last := entries[|entries| - 1];
      SetAll(style, init)[last.0 := last.1]
  }

  /** After setting distinct properties, each has its value and every other property is as before. */
  lemma {:induction false} SetAllLookup(style: map<string, string>, entries: seq<(string, string)>)
    requires forall i, j :: 0 <= i < j < |entries| ==> entries[i].0 != entries[j].0
    ensures forall i :: 0 <= i < |entries| ==> entries[i].0 in SetAll(style, entries) && SetAll(style, entries)[entries[i].0] == entries[i].1
    ensures forall p :: (forall i :: 0 <= i < |entries| ==> entries[i].0 != p) ==>
      ((p in SetAll(style, entries) <==> p in style) && (p in style ==> SetAll(style, entries)[p] == style[p]))
  {
    if entries != [] {
      var init := entries[..|entries| - 1];
      SetAllLookup(style, init);
      forall i | 0 <= i < |entries| - 1 ensures entries[i] == init[i] && entries[i].0 != entries[|entries| - 1].0 {
      }
    }
  }

  /** One entry per key of `themes`, in key order, carrying its key (themes.js:99-104). */
  datatype ThemeEntry = ThemeEntry(key: string, name: string, icon: string, colors: seq<(string, string)>)

  /** `getThemesList()`. */
  function ThemesList(): (list: seq<ThemeEntry>)
    ensures |list| == |ThemeKeys|
    ensures forall i :: 0 <= i < |list| ==>
      (list[i].key == ThemeKeys[i] && ThemeKeys[i] in Themes &&
       Theme(list[i].name, list[i].icon, list[i].colors) == Themes[ThemeKeys[i]])
  {
    ThemeKeysAreThemes();
    seq(|ThemeKeys|, i requires 0 <= i < |ThemeKeys| =>
      var t := Themes[ThemeKeys[i]];
      ThemeEntry(ThemeKeys[i], t.name, t.icon, t.colors))
  }

  /** The parts of the page a theme touches. */
  class Page {
    /** The page's localStorage, as a map of stored strings. */
    var storage: map<string, string>
    /** The custom properties set on `document.documentElement.style`. */
    var rootStyle: map<string, string>
    /** `document.body.className`. */
    var bodyClass: string

    constructor (storage: map<string, string>, rootStyle: map<string, string>, bodyClass: string)
      ensures this.storage == storage && this.rootStyle == rootStyle && this.bodyClass == bodyClass
    {
      this.storage := storage;
      this.rootStyle := rootStyle;
      this.bodyClass := bodyClass;
    }

    /** `saveTheme(name)` (themes.js:58-64). */
    method SaveTheme(name: string)
      modifies this
      ensures storage == old(storage)[StorageKey := name]
      ensures rootStyle == old(rootStyle) && bodyClass == old(bodyClass)
    {
      storage := storage[StorageKey := name];
    }

    /**
     * `applyTheme(name)` (themes.js:67-89): an unknown name changes nothing; a known one
     * sets every colour of the theme, persists the name and leaves exactly one fresh
     * `theme-` class added to the body.
     */
    method ApplyTheme(name: string) returns (applied: Option<Theme>)
      modifies this
      ensures name !in Themes ==> applied == None && storage == old(storage) && rootStyle == old(rootStyle) && bodyClass == old(bodyClass)
      ensures name in Themes ==>
        && applied == Some(Themes[name])
        && rootStyle == SetAll(old(rootStyle), Themes[name].colors)
        && storage == old(storage)[StorageKey := name]
        && bodyClass == ClassListAdd(StripThemeClasses(old(bodyClass)), "theme-" + name)
      ensures name in Themes ==> GetSavedTheme(storage) == name
    {
      if name !in Themes {
        return None;
      }
      var theme := Themes[name];
      var k := 0;
      while k < |theme.colors|
        invariant 0 <= k <= |theme.colors|
        invariant rootStyle == SetAll(old(rootStyle), theme.colors[..k])
        invariant storage == old(storage) && bodyClass == old(bodyClass)
      {
        assert theme.colors[..k + 1][..k] == theme.colors[..k];
        var (property, value) := theme.colors[k];
        rootStyle := rootStyle[property := value];
        k := k + 1;
      }
      assert theme.colors[..|theme.colors|] == theme.colors;
      SaveTheme(name);
      bodyClass := ClassListAdd(StripThemeClasses(bodyClass), "theme-" + name);
      applied := Some(theme);
    }

    /** `initTheme()` (themes.js:92-96): the saved or default key, applied. */
    method InitTheme() returns (key: string)
      modifies this
      ensures key == GetSavedTheme(old(storage)) && key in Themes
      ensures storage == old(storage)[StorageKey := key]
      ensures rootStyle == SetAll(old(rootStyle), Themes[key].colors)
      ensures bodyClass == ClassListAdd(StripThemeClasses(old(bodyClass)), "theme-" + key)
      ensures GetSavedTheme(storage) == key
    {
      key := GetSavedTheme(storage);
      var _ := ApplyTheme(key);
    }
  }

  /** A known theme leaves every one of its colours on the root element. */
  lemma AppliedColorsVisible(style: map<string, string>, key: string)
    requires key in Themes
    ensures forall i :: 0 <= i < |Themes[key].colors| ==>
      Themes[key].colors[i].0 in SetAll(style, Themes[key].colors)
      && SetAll(style, Themes[key].colors)[Themes[key].colors[i].0] == Themes[key].colors[i].1
  {
    PropertyNamesDistinct();
    var colors := Themes[key].colors;
    assert forall i :: 0 <= i < |colors| ==> colors[i].0 == PropertyNames[i];
    SetAllLookup(style, colors);
  }

  /** A known theme leaves its `theme-<key>` class on the body. */
  lemma AppliedClassVisible(bodyClass: string, key: string)
    requires key in Themes
    ensures "theme-" + key in Tokens(ClassListAdd(StripThemeClasses(bodyClass), "theme-" + key))
  {
    var t := "theme-" + key;
    assert key == "light" || key == "dark";
    assert forall i :: 0 <= i < |t| ==> !IsAsciiWhitespace(t[i]);
    ClassListAddHasToken(StripThemeClasses(bodyClass), t);
  }
}
