/** The language context: the active language, the two locale trees, the
    provider that owns them and the guarded accessor. */
module LanguageContext {
  import opened Wrappers

  /** The two supported languages. */
  datatype Language = En | Tr

  /** A node of a locale tree as loaded from its JSON file: a string, or an
      object whose members are nodes. */
  datatype Node = Leaf(text: string) | Branch(children: map<string, Node>)

  /** The translations object handed to the provider: one tree per
      language. */
  datatype Translations = Translations(en: Node, tr: Node)
  {
    /** `translations[language]`. */
    function Tree(language: Language): Node
    {
      if language == En then en else tr
    }
  }

  /** What the context makes available to its consumers (the setter is the
      provider's `SetLanguage`). */
  datatype ContextValue = ContextValue(language: Language, translations: Translations)

  const ProviderMissing: string := "useLanguage must be used within a LanguageProvider"

  /** The provider: one mutable `language` field, initially English, and the
      translations it was given, which never change. */
  class LanguageProvider {
    var language: Language
    const translations: Translations

    constructor (translations: Translations)
      ensures language == En
      ensures this.translations == translations
    {
      language := En;
      this.translations := translations;
    }

    /** Replaces the language and nothing else. */
    method SetLanguage(language: Language)
      modifies this
      ensures this.language == language
    {
      this.language := language;
    }

    function Value(): (v: ContextValue)
      reads this
      ensures v.language == language && v.translations == translations
    {
      ContextValue(language, translations)
    }
  }

  /** `useLanguage()`: the context of the enclosing provider, or the error
      it throws when there is none. */
  function UseLanguage(provider: LanguageProvider?): (r: Result<ContextValue, string>)
    reads provider
    ensures r.Failure? <==> provider == null
    ensures r.Failure? ==> r.error == ProviderMissing
    ensures r.Success? ==> r.value == provider.Value()
  {
    if provider == null then Failure(ProviderMissing) else Success(provider.Value())
  }
}
