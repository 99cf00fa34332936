/**
 * The decision logic of the page's theme and language toggles.
 *
 * The browser's key-value store is a map from keys to strings; the page's
 * `data-theme` attribute, the toggle buttons' contents and the translated
 * elements are plain values that each decision returns instead of writing.
 */
module Toggles {
  type Storage = map<string, string>

  datatype Option<T> = None | Some(value: T)

  /** A stored value as a condition reads it: a missing key and an empty
      string both count as nothing saved. */
  function Saved(storage: Storage, key: string): (r: Option<string>)
    ensures r.Some? <==> key in storage && storage[key] != ""
    ensures r.Some? ==> r.value == storage[key] && r.value != ""
  {
    if key in storage && storage[key] != "" then Some(storage[key]) else None
  }

  /** What a write leaves for the next read: a non-empty value is read back,
      an empty one reads as nothing saved, and other keys are untouched. */
  lemma SavedAfterWrite(storage: Storage, key: string, v: string, other: string)
    ensures Saved(storage[key := v], key) == if v == "" then None else Some(v)
    ensures other != key ==> Saved(storage[key := v], other) == Saved(storage, other)
  {
  }

  // ---------------------------------------------------------------- theme

  /** What the theme button shows. */
  datatype Icon = Moon | Sun

  /** The theme-related part of the page: the `data-theme` attribute of the
      document element (absent until set) and the theme button, if the page
      has one, with what it currently shows. */
  datatype ThemePage = ThemePage(theme: Option<string>, button: Option<Icon>)

  /** The icon for a theme: the moon for "dark", the sun for anything else. */
  function IconFor(theme: string): (i: Icon)
    ensures i == Moon <==> theme == "dark"
  {
    if theme == "dark" then Moon else Sun
  }

  /** Shows `theme` on the page: the attribute is set, and the button, when
      there is one, shows the matching icon. */
  function Show(page: ThemePage, theme: string): (q: ThemePage)
    ensures q.theme == Some(theme)
    ensures q.button.Some? <==> page.button.Some?
    ensures q.button.Some? ==> (q.button.value == Moon <==> theme == "dark")
  {
    ThemePage(Some(theme), if page.button.Some? then Some(IconFor(theme)) else None)
  }

  /** The theme chosen when the page loads: a saved theme first, else dark
      when the system prefers it, else the page as it was. */
  function ThemeOnLoad(page: ThemePage, storage: Storage, systemPrefersDark: bool): (q: ThemePage)
    ensures Saved(storage, "theme").Some? ==> q.theme == Saved(storage, "theme")
    ensures Saved(storage, "theme").None? && systemPrefersDark ==> q.theme == Some("dark")
    ensures Saved(storage, "theme").None? && !systemPrefersDark ==> q == page
    ensures q.button.Some? <==> page.button.Some?
    ensures (Saved(storage, "theme").Some? || systemPrefersDark) && q.button.Some? ==>
      (q.button.value == Moon <==> q.theme == Some("dark"))
  {
    match Saved(storage, "theme")
    case Some(saved) => Show(page, saved)
    case None => if systemPrefersDark then Show(page, "dark") else page
  }

  /** A saved theme wins over the system preference: with one saved, the
      preference has no effect on the page. */
  lemma SavedThemeWins(page: ThemePage, storage: Storage)
    requires Saved(storage, "theme").Some?
    ensures ThemeOnLoad(page, storage, true) == ThemeOnLoad(page, storage, false)
    ensures ThemeOnLoad(page, storage, false).theme == Some(storage["theme"])
  {
  }

  /** The theme after a click: light from dark, dark from anything else
      (including no theme at all). */
  function Toggled(current: Option<string>): (t: string)
    ensures t == "light" <==> current == Some("dark")
    ensures t == "dark" || t == "light"
  {
    if current == Some("dark") then "light" else "dark"
  }

  /** On the two themes it produces, the toggle is an involution; from any
      other state two clicks land on light. */
  lemma ToggleInvolution(current: Option<string>)
    ensures current == Some("dark") || current == Some("light") ==>
      Toggled(Some(Toggled(current))) == current.value
    ensures Toggled(Some(Toggled(current))) == if current == Some("dark") then "dark" else "light"
  {
  }

  /** A click on the theme button: the page shows the toggled theme and the
      store keeps it. */
  function ThemeClick(page: ThemePage, storage: Storage): (r: (ThemePage, Storage))
    requires page.button.Some?
    ensures r.0.theme.Some? && r.0.theme.value == Toggled(page.theme)
    ensures r.0.button == Some(IconFor(Toggled(page.theme)))
    ensures r.1 == storage["theme" := Toggled(page.theme)]
  {
    var t := Toggled(page.theme);
    (Show(page, t), storage["theme" := t])
  }

  /** A theme chosen by a click survives a reload, whatever the system
      prefers and whatever the reloaded page starts with. */
  lemma ClickedThemeRestored(page: ThemePage, storage: Storage, reloaded: ThemePage, systemPrefersDark: bool)
    requires page.button.Some?
    ensures var (clicked, stored) := ThemeClick(page, storage);
      ThemeOnLoad(reloaded, stored, systemPrefersDark).theme == clicked.theme
  {
    var (clicked, stored) := ThemeClick(page, storage);
    assert Saved(stored, "theme") == Some(Toggled(page.theme));
  }

  /** Clicking twice from a page that shows one of the two themes gives
      back that theme and stores it. */
  lemma {:induction false} ThemeClickTwice(page: ThemePage, storage: Storage)
    requires page.button.Some? && (page.theme == Some("dark") || page.theme == Some("light"))
    ensures var (p1, s1) := ThemeClick(page, storage);
      var (p2, s2) := ThemeClick(p1, s1);
      p2.theme == page.theme && s2 == storage["theme" := page.theme.value]
  {
    var (p1, s1) := ThemeClick(page, storage);
    ToggleInvolution(page.theme);
    assert Toggled(p1.theme) == page.theme.value;
  }

  /** The button, when the page has one and a theme is set, shows the moon
      exactly for the dark theme. */
  ghost predicate IconAgrees(page: ThemePage) {
    page.button.Some? && page.theme.Some? ==> (page.button.value == Moon <==> page.theme.value == "dark")
  }

  /** Loading keeps the button in agreement with the theme, and a click
      always leaves it in agreement, on one of the two themes. */
  lemma {:induction false} IconAgreesAlways(page: ThemePage, storage: Storage, systemPrefersDark: bool)
    ensures IconAgrees(page) ==> IconAgrees(ThemeOnLoad(page, storage, systemPrefersDark))
    ensures page.button.Some? ==>
      var q := ThemeClick(page, storage).0;
      IconAgrees(q) && (q.theme == Some("dark") || q.theme == Some("light"))
  {
    if page.button.Some? {
      var t := Toggled(page.theme);
      assert ThemeClick(page, storage).0 == Show(page, t);
    }
  }

  // ------------------------------------------------------------- language

  /** The language in force: the saved one, else Portuguese. */
  function CurrentLanguage(storage: Storage): (lang: string)
    ensures lang != ""
    ensures Saved(storage, "language").None? ==> lang == "pt"
    ensures Saved(storage, "language").Some? ==> lang == storage["language"]
  {
    match Saved(storage, "language")
    case Some(saved) => saved
    case None => "pt"
  }

  /** The language after a click: English from Portuguese, Portuguese from
      anything else. */
  function NextLanguage(lang: string): (next: string)
    ensures next == "en" <==> lang == "pt"
    ensures next == "pt" || next == "en"
  {
    if lang == "pt" then "en" else "pt"
  }

  /** On the two languages it produces, the language toggle is an involution;
      from any other language two clicks land on English. */
  lemma LanguageInvolution(lang: string)
    ensures lang == "pt" || lang == "en" ==> NextLanguage(NextLanguage(lang)) == lang
    ensures NextLanguage(NextLanguage(lang)) == if lang == "pt" then "pt" else "en"
  {
  }

  /** An element marked for translation: its key and its current content. */
  datatype Element = Element(key: string, html: string)

  /** Translation tables: language to (key to text). */
  type Translations = map<string, map<string, string>>

  /** A translation is used only when the language has a table and the key
      has a non-empty text in it. */
  predicate HasTranslation(table: Translations, lang: string, key: string) {
    lang in table && key in table[lang] && table[lang][key] != ""
  }

  /** The elements after translating them into `lang`. */
  function Translate(table: Translations, lang: string, elements: seq<Element>): (out: seq<Element>)
    ensures |out| == |elements|
    ensures forall k :: 0 <= k < |out| ==> out[k].key == elements[k].key
    ensures forall k :: 0 <= k < |out| ==>
      out[k].html == if HasTranslation(table, lang, elements[k].key)
                     then table[lang][elements[k].key] else elements[k].html
  {
    seq(|elements|, k requires 0 <= k < |elements| =>
      var e := elements[k];
      if HasTranslation(table, lang, e.key) then Element(e.key, table[lang][e.key]) else e)
  }

  /** An element changes only when its key has a translation, and an
      element without one is left exactly as it was. */
  lemma TranslateOnlyKnownKeys(table: Translations, lang: string, elements: seq<Element>, k: nat)
    requires k < |elements|
    ensures Translate(table, lang, elements)[k] != elements[k] ==> HasTranslation(table, lang, elements[k].key)
    ensures !HasTranslation(table, lang, elements[k].key) ==> Translate(table, lang, elements)[k] == elements[k]
    ensures HasTranslation(table, lang, elements[k].key) ==>
      Translate(table, lang, elements)[k] == Element(elements[k].key, table[lang][elements[k].key])
  {
  }

  /** Translating twice into the same language is translating once. */
  lemma TranslateIdempotent(table: Translations, lang: string, elements: seq<Element>)
    ensures Translate(table, lang, Translate(table, lang, elements)) == Translate(table, lang, elements)
  {
    var once := Translate(table, lang, elements);
    var twice := Translate(table, lang, once);
    forall k | 0 <= k < |elements| ensures twice[k] == once[k] {
      assert once[k].key == elements[k].key;
    }
  }

  /** The language-related part of the page: the translated elements, the
      language button's text if the page has the button, and the document
      language. */
  datatype LanguagePage = LanguagePage(elements: seq<Element>, buttonText: Option<string>, docLang: string)

  /** Switches the page to `lang`, and stores `lang` as the saved language. */
  function SetLanguage(table: Translations, page: LanguagePage, storage: Storage, lang: string)
    : (r: (LanguagePage, Storage))
    ensures r.0.elements == Translate(table, lang, page.elements)
    ensures r.0.buttonText.Some? <==> page.buttonText.Some?
    ensures r.0.buttonText.Some? ==> (r.0.buttonText.value == "PT" <==> lang == "pt")
    ensures r.0.buttonText.Some? ==> r.0.buttonText.value in {"PT", "EN"}
    ensures r.0.docLang == "pt-BR" <==> lang == "pt"
    ensures r.0.docLang in {"pt-BR", "en"}
    ensures r.1 == storage["language" := lang]
  {
    var text := if page.buttonText.Some? then Some(if lang == "pt" then "PT" else "EN") else None;
    (LanguagePage(Translate(table, lang, page.elements), text, if lang == "pt" then "pt-BR" else "en"),
     storage["language" := lang])
  }

  /** The page as it is set up on load: in the language in force. */
  function LanguageOnLoad(table: Translations, page: LanguagePage, storage: Storage): (r: (LanguagePage, Storage))
    ensures Saved(r.1, "language") == Some(CurrentLanguage(storage))
    ensures Saved(storage, "language").None? ==> r.0.docLang == "pt-BR"
    ensures r.0.elements == Translate(table, CurrentLanguage(storage), page.elements)
    ensures r.0.docLang == "pt-BR" <==> CurrentLanguage(storage) == "pt"
    ensures r.0.buttonText.Some? <==> page.buttonText.Some?
    ensures r.0.buttonText.Some? ==> (r.0.buttonText.value == "PT" <==> CurrentLanguage(storage) == "pt")
  {
    SetLanguage(table, page, storage, CurrentLanguage(storage))
  }

  /** A click on the language button (which only a page with the button has):
      the page switches to the next language. */
  function LanguageClick(table: Translations, page: LanguagePage, storage: Storage): (r: (LanguagePage, Storage))
    requires page.buttonText.Some?
    ensures CurrentLanguage(r.1) == NextLanguage(CurrentLanguage(storage))
    ensures r.0.elements == Translate(table, NextLanguage(CurrentLanguage(storage)), page.elements)
    ensures r.0.docLang == "pt-BR" <==> CurrentLanguage(storage) != "pt"
    ensures r.0.buttonText.Some? && (r.0.buttonText.value == "PT" <==> CurrentLanguage(storage) != "pt")
  {
    SetLanguage(table, page, storage, NextLanguage(CurrentLanguage(storage)))
  }

  /** After the page loads, two clicks bring back the language it loaded in,
      when that was Portuguese or English. */
  lemma {:induction false} LanguageClickTwice(table: Translations, page: LanguagePage, storage: Storage)
    requires page.buttonText.Some?
    requires CurrentLanguage(storage) == "pt" || CurrentLanguage(storage) == "en"
    ensures var (p0, s0) := LanguageOnLoad(table, page, storage);
      var (p1, s1) := LanguageClick(table, p0, s0);
      var (p2, s2) := LanguageClick(table, p1, s1);
      CurrentLanguage(s2) == CurrentLanguage(storage) && p2.docLang == p0.docLang
  {
    var lang := CurrentLanguage(storage);
    var (p0, s0) := LanguageOnLoad(table, page, storage);
    var (p1, s1) := LanguageClick(table, p0, s0);
    var (p2, s2) := LanguageClick(table, p1, s1);
    LanguageInvolution(lang);
    assert CurrentLanguage(s0) == lang;
    assert CurrentLanguage(s2) == NextLanguage(NextLanguage(lang));
  }

  /** The page shows the language the store holds: the document language is
      "pt-BR" and the button reads "PT" exactly for Portuguese. */
  ghost predicate LanguageInSync(page: LanguagePage, storage: Storage) {
    var lang := CurrentLanguage(storage);
    && (page.docLang == "pt-BR" <==> lang == "pt")
    && (page.buttonText.Some? ==> (page.buttonText.value == "PT" <==> lang == "pt"))
  }

  /** Setting a non-empty language stores it for the next load or click to
      read back, and leaves the page in sync with the store. */
  lemma SetLanguageStored(table: Translations, page: LanguagePage, storage: Storage, lang: string)
    requires lang != ""
    ensures var (p, s) := SetLanguage(table, page, storage, lang);
      CurrentLanguage(s) == lang && LanguageInSync(p, s)
  {
    var (p, s) := SetLanguage(table, page, storage, lang);
    assert Saved(s, "language") == Some(lang);
  }

  /** Loading, and every click after it, leaves the page in sync with the store. */
  lemma LanguageStaysInSync(table: Translations, page: LanguagePage, storage: Storage)
    ensures var (p, s) := LanguageOnLoad(table, page, storage); LanguageInSync(p, s)
    ensures page.buttonText.Some? ==>
      var (p, s) := LanguageClick(table, page, storage); LanguageInSync(p, s)
  {
    SetLanguageStored(table, page, storage, CurrentLanguage(storage));
    SetLanguageStored(table, page, storage, NextLanguage(CurrentLanguage(storage)));
  }
}
