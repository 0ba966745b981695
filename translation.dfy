/** The translation function `t` of the `useTranslation` hook: a dotted key
    is walked through the active locale tree, then through the English tree
    when the first walk found nothing, then falls back to the key itself;
    `{{name}}` placeholders are substituted afterwards. */
module Translation {
  import opened Wrappers
  import opened Strings
  import opened LanguageContext

  /** What `t` hands back. Normally a string; when the key names an object
      of the locale tree, that object itself is returned. */
  datatype Text = Str(s: string) | Subtree(children: map<string, Node>)

  /** The exception raised when placeholders are applied to an object. */
  const ReplaceNotAFunction: string := "finalString.replace is not a function"

  /** The placeholder options of one call, in `Object.keys` order. */
  type Options = seq<(string, string)>

  // ---------------------------------------------------------------- the walk

  /** `result?.[k]` on a node: the member `k` of an object; a string has no
      members. */
  function Step(node: Node, k: string): Option<Node>
  {
    match node
    case Leaf(_) => None
    case Branch(children) => if k in children then Some(children[k]) else None
  }

  /** The node at the end of the path `keys`, or `None` as soon as one
      segment is missing. */
  function Walk(node: Node, keys: seq<string>): Option<Node>
  {
    if |keys| == 0 then Some(node)
    else
      match Step(node, keys[0])
      case None => None
      case Some(child) => Walk(child, keys[1..])
  }

  /** The walk in the active language, retried in English when it failed
      and the active language is not English. */
  function Resolve(language: Language, translations: Translations, keys: seq<string>): Option<Node>
  {
    var found := Walk(translations.Tree(language), keys);
    if found.None? && language != En then Walk(translations.en, keys) else found
  }

  /** `(result as string) || key`: an empty string and a missing value are
      falsy and give the key; an object is truthy and is kept. */
  function Finalize(found: Option<Node>, key: string): Text
  {
    match found
    case Some(Leaf(s)) => if s == "" then Str(key) else Str(s)
    case Some(Branch(children)) => Subtree(children)
    case None => Str(key)
  }

  // ---------------------------------------------------------------- placeholders

  function Placeholder(name: string): string
  {
    "{{" + name + "}}"
  }

  /** The options applied one after another, each replacing the first
      occurrence of its placeholder in the string produced so far. */
  function SubstituteAll(s: string, options: Options): string
    decreases options
  {
    if |options| == 0 then s
    else SubstituteAll(ReplaceFirst(s, Placeholder(options[0].0), options[0].1), options[1..])
  }

  /** Placeholder substitution on what the lookup produced: an object
      raises on the first option, and is returned as it is when there are
      none. */
  function ApplyOptions(text: Text, options: Options): Result<Text, string>
  {
    match text
    case Str(s) => Success(Str(SubstituteAll(s, options)))
    case Subtree(_) => if |options| == 0 then Success(text) else Failure(ReplaceNotAFunction)
  }

  /** The value of `t(key, options)` with the given language and
      translations. */
  function Translated(language: Language, translations: Translations, key: string,
                      options: Option<Options>): Result<Text, string>
  {
    var text := Finalize(Resolve(language, translations, Split(key, '.')), key);
    if options.None? then Success(text) else ApplyOptions(text, options.value)
  }

  // ---------------------------------------------------------------- the implementation

  /** One `for (const k of keys)` loop: walks segment by segment and stops
      at the first missing one. */
  method WalkPath(tree: Node, keys: seq<string>) returns (result: Option<Node>)
    ensures result == Walk(tree, keys)
  {
    result := Some(tree);
    var i := 0;
    while i < |keys|
      invariant 0 <= i <= |keys|
      invariant result.Some?
      invariant Walk(tree, keys) == Walk(result.value, keys[i..])
    {
      result := Step(result.value, keys[i]);
      if result.None? {
        return;
      }
      i := i + 1;
    }
  }

  /** `t(key, options)`. */
  method Translate(language: Language, translations: Translations, key: string,
                   options: Option<Options>) returns (r: Result<Text, string>)
    ensures r == Translated(language, translations, key, options)
  {
    var keys := Split(key, '.');
    var result := WalkPath(translations.Tree(language), keys);
    if result.None? && language != En {
      result := WalkPath(translations.en, keys);
    }
    var finalText := Finalize(result, key);
    if options.Some? {
      var opts := options.value;
      var j := 0;
      while j < |opts|
        invariant 0 <= j <= |opts|
        invariant ApplyOptions(Finalize(result, key), opts) == ApplyOptions(finalText, opts[j..])
      {
        if finalText.Subtree? {
          return Failure(ReplaceNotAFunction);
        }
        assert opts[j..][1..] == opts[j + 1..];
        finalText := Str(ReplaceFirst(finalText.s, Placeholder(opts[j].0), opts[j].1));
        j := j + 1;
      }
    }
    r := Success(finalText);
  }

  // ---------------------------------------------------------------- properties of the walk

  /** Walking a path in two parts is walking it in one. */
  lemma {:induction false} WalkAppend(node: Node, a: seq<string>, b: seq<string>)
    ensures Walk(node, a + b) ==
      match Walk(node, a)
      case None => None
      case Some(mid) => Walk(mid, b)
  {
    if |a| > 0 {
      assert (a + b)[0] == a[0];
      assert (a + b)[1..] == a[1..] + b;
      match Step(node, a[0])
      case None =>
      case Some(child) => WalkAppend(child, a[1..], b);
    } else {
      assert a + b == b;
    }
  }

  /** If the first `i` segments lead to an object that has segment `i`, the
      first `i + 1` segments lead to that member. */
  lemma WalkPresentSegment(node: Node, keys: seq<string>, i: nat, children: map<string, Node>)
    requires i < |keys|
    requires Walk(node, keys[..i]) == Some(Branch(children)) && keys[i] in children
    ensures Walk(node, keys[..i + 1]) == Some(children[keys[i]])
  {
    assert keys[..i + 1] == keys[..i] + [keys[i]];
    WalkAppend(node, keys[..i], [keys[i]]);
  }

  /** A missing segment ends the walk with `None` (no error), whatever
      follows it; so does a segment asked of a string. */
  lemma WalkMissingSegment(node: Node, keys: seq<string>, i: nat)
    requires i < |keys|
    requires Walk(node, keys[..i]).Some?
    requires Step(Walk(node, keys[..i]).value, keys[i]).None?
    ensures Walk(node, keys) == None
  {
    assert keys == keys[..i] + keys[i..];
    WalkAppend(node, keys[..i], keys[i..]);
  }

  /** When every segment is present at its level, the walk returns the node
      found at the end of the path. */
  lemma {:induction false} WalkAllPresent(node: Node, keys: seq<string>, path: seq<Node>)
    requires |path| == |keys| + 1 && path[0] == node
    requires forall i :: 0 <= i < |keys| ==> Step(path[i], keys[i]) == Some(path[i + 1])
    ensures Walk(node, keys) == Some(path[|keys|])
  {
    if |keys| > 0 {
      assert Step(path[0], keys[0]) == Some(path[1]);
      WalkAllPresent(path[1], keys[1..], path[1..]);
    }
  }

  // ---------------------------------------------------------------- properties of t

  /** A non-empty string found in the active locale is what `t` returns:
      unchanged without options, with the options substituted otherwise. */
  lemma ActiveHit(language: Language, translations: Translations, key: string, s: string,
                  options: Option<Options>)
    requires Walk(translations.Tree(language), Split(key, '.')) == Some(Leaf(s)) && s != ""
    ensures options.None? ==> Translated(language, translations, key, options) == Success(Str(s))
    ensures options.Some? ==>
      Translated(language, translations, key, options) == Success(Str(SubstituteAll(s, options.value)))
  {
  }

  /** The other language's tree does not affect the result, unless the
      language is Turkish and the Turkish walk failed: in English the
      Turkish tree is never read, and after a Turkish hit the English tree
      is never read. */
  lemma EnglishOnlyOnMiss(language: Language, t1: Translations, t2: Translations, key: string,
                          options: Option<Options>)
    requires t1.Tree(language) == t2.Tree(language)
    requires language == En || Walk(t1.Tree(language), Split(key, '.')).Some?
    ensures Translated(language, t1, key, options) == Translated(language, t2, key, options)
  {
  }

  /** When the active walk fails in Turkish, the English value is used. */
  lemma EnglishFallback(translations: Translations, key: string, options: Option<Options>)
    requires Walk(translations.tr, Split(key, '.')).None?
    ensures Translated(Tr, translations, key, options) == Translated(En, translations, key, options)
  {
  }

  /** Without options, `t` returns exactly the key precisely when no truthy
      value was found, or the value found is the key itself. An empty
      string in the active locale counts as not found and is NOT replaced by
      the English value. */
  lemma KeyFallback(language: Language, translations: Translations, key: string)
    ensures Translated(language, translations, key, None) == Success(Str(key)) <==>
      var found := Resolve(language, translations, Split(key, '.'));
      found == None || found == Some(Leaf("")) || found == Some(Leaf(key))
    ensures Walk(translations.Tree(language), Split(key, '.')) == Some(Leaf("")) ==>
      Translated(language, translations, key, None) == Success(Str(key))
  {
  }

  /** Without options, or with an empty options object, `t` never raises
      and returns the resolved value, falsy values replaced by the key. */
  lemma NoOptionsNeverFails(language: Language, translations: Translations, key: string)
    ensures Translated(language, translations, key, None).Success?
    ensures Translated(language, translations, key, None) ==
      Success(Finalize(Resolve(language, translations, Split(key, '.')), key))
    ensures Translated(language, translations, key, Some([])) == Translated(language, translations, key, None)
  {
  }

  /** Without options, a key that names an object returns that object. */
  lemma ObjectWithoutOptions(language: Language, translations: Translations, key: string,
                             children: map<string, Node>)
    requires Resolve(language, translations, Split(key, '.')) == Some(Branch(children))
    ensures Translated(language, translations, key, None) == Success(Subtree(children))
    ensures Translated(language, translations, key, Some([])) == Success(Subtree(children))
  {
  }

  /** Options on a key that names an object raise. */
  lemma OptionsOnObjectFail(language: Language, translations: Translations, key: string,
                            options: Options, children: map<string, Node>)
    requires Resolve(language, translations, Split(key, '.')) == Some(Branch(children))
    requires |options| > 0
    ensures Translated(language, translations, key, Some(options)) == Failure(ReplaceNotAFunction)
  {
  }

  /** Options whose placeholders do not occur leave the string as it is. */
  lemma {:induction false} SubstituteAbsent(s: string, options: Options)
    requires forall k :: 0 <= k < |options| ==> IndexOf(s, Placeholder(options[k].0)).None?
    ensures SubstituteAll(s, options) == s
  {
    if |options| > 0 {
      assert IndexOf(s, Placeholder(options[0].0)).None?;
      SubstituteAbsent(s, options[1..]);
    }
  }

  /** A single option replaces the first occurrence of its placeholder and
      keeps the text around it. */
  lemma SubstituteSingle(s: string, name: string, value: string, i: nat)
    requires IndexOf(s, Placeholder(name)) == Some(i)
    ensures SubstituteAll(s, [(name, value)]) == s[..i] + value + s[i + |Placeholder(name)|..]
  {
  }
}
