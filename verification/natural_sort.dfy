/** `NaturalSortField`: the sort key stored beside a display name. The key is
    the name stripped of surrounding whitespace, lower-cased, with every
    integer zero-padded to eight digits; a person's surname is moved to the
    front, and any other name has a leading article moved to the back. */
module NaturalSort {
  import opened Options
  import opened Strings
  import opened Numbers

  /** Words moved from the front of a thing's name to its end (English,
      French, German and Spanish articles, already lower-case). */
  const Articles: seq<string> := [
    "a", "an", "the",
    "un", "une", "le", "la", "les", "l'", "l\U{2019}",
    "ein", "eine", "der", "die", "das",
    "una", "el", "los", "las"
  ]

  /** The suffixes written with their usual capitals. */
  const BaseSuffixes: seq<string> := ["Jr", "Jr.", "Sr", "Sr.", "I", "II", "III", "IV", "V"]

  /** Name suffixes kept at the end of a person's key: the base forms and
      their all-lower-case forms, nothing else. */
  const Suffixes: seq<string> := BaseSuffixes + ["jr", "jr.", "sr", "sr.", "i", "ii", "iii", "iv", "v"]

  /** Capitalised particles that belong to the surname that follows them. */
  const Particles: seq<string> := ["Le", "La", "Von", "Van", "Du", "De"]

  /** The suffix list is exactly the base forms followed by their
      lower-cased forms. */
  lemma SuffixesAreBaseAndLowered()
    ensures |Suffixes| == 2 * |BaseSuffixes|
    ensures Suffixes[..|BaseSuffixes|] == BaseSuffixes
    ensures forall k :: 0 <= k < |BaseSuffixes| ==>
      Suffixes[|BaseSuffixes| + k] == Lower(BaseSuffixes[k])
  {
    forall k | 0 <= k < |BaseSuffixes|
      ensures Suffixes[|BaseSuffixes| + k] == Lower(BaseSuffixes[k])
    {
      var b, l := BaseSuffixes[k], Suffixes[|BaseSuffixes| + k];
      assert |l| == |b| && forall i :: 0 <= i < |b| ==> l[i] == LowerChar(b[i]);
    }
  }

  /** None of the listed words contains a space. */
  lemma ListsHoldSingleWords()
    ensures forall k :: 0 <= k < |Articles| ==> ' ' !in Articles[k]
    ensures forall k :: 0 <= k < |Suffixes| ==> ' ' !in Suffixes[k]
    ensures forall k :: 0 <= k < |Particles| ==> ' ' !in Particles[k]
  {
  }

  // ---------------------------------------------------------------------
  // Things: a leading article moves to the end.
  // ---------------------------------------------------------------------

  /** The reordering of `naturalize_thing` on an already lower-cased string:
      when there are two or more words, the first is an article and the
      second is a different word, the article goes to the end after a
      comma. */
  function MoveArticle(s: string): (r: string)
    ensures r == s || |r| == |s| + 1
    ensures IsLowerCase(s) ==> IsLowerCase(r)
  {
    var parts := Split(s);
    if |parts| > 1 && parts[0] in Articles && parts[0] != parts[1] then
      SplitHead(s);
      var rest := Join(parts[1..]);
      LowerCaseAppend(parts[0] + " ", rest);
      LowerCaseAppend(parts[0], " ");
      LowerCaseAppend(rest + ", ", parts[0]);
      LowerCaseAppend(rest, ", ");
      rest + ", " + parts[0]
    else s
  }

  /** `naturalize_thing`: move a leading article, then pad the numbers. */
  function NaturalizeThing(s: string): (r: string)
    ensures IsLowerCase(s) ==> IsLowerCase(r)
  {
    var moved := MoveArticle(s);
    NaturalizeNumbersKeepsLowerCase(moved);
    NaturalizeNumbers(moved)
  }

  /** An article followed by a different word moves to the end:
      "the long blondes" becomes "long blondes, the". */
  lemma MoveArticleMoves(a: string, rest: string)
    requires a in Articles
    requires FirstWord(rest) != a
    ensures MoveArticle(a + " " + rest) == rest + ", " + a
  {
    ListsHoldSingleWords();
    SplitWordThen(a, rest);
    JoinSplit(rest);
  }

  /** The order changes exactly when the name starts with an article word
      followed by a different word; otherwise the name is left as it is. */
  lemma MoveArticleChangesIff(s: string)
    ensures MoveArticle(s) != s <==>
      exists a :: a in Articles && StartsWithWord(s, a) && FirstWord(s[|a| + 1..]) != a
  {
    if MoveArticle(s) != s {
      MovedStartsWithArticle(s);
      var a := FirstWord(s);
      assert a in Articles && StartsWithWord(s, a) && FirstWord(s[|a| + 1..]) != a;
    }
    if exists a :: a in Articles && StartsWithWord(s, a) && FirstWord(s[|a| + 1..]) != a {
      var a :| a in Articles && StartsWithWord(s, a) && FirstWord(s[|a| + 1..]) != a;
      ArticleStartMoves(s, a);
    }
  }

  lemma ArticleStartMoves(s: string, a: string)
    requires a in Articles && StartsWithWord(s, a) && FirstWord(s[|a| + 1..]) != a
    ensures MoveArticle(s) != s
  {
    var rest := s[|a| + 1..];
    assert s == a + " " + rest;
    MoveArticleMoves(a, rest);
  }

  /** When the article moved, the name started with that article and a
      different word. */
  lemma MovedStartsWithArticle(s: string)
    requires MoveArticle(s) != s
    ensures var a := FirstWord(s);
      a in Articles && StartsWithWord(s, a) && FirstWord(s[|a| + 1..]) != a
  {
    var parts := Split(s);
    var a := parts[0];
    SplitHead(s);
    var rest := Join(parts[1..]);
    assert s[..|a|] == a && s[|a| + 1..] == rest;
    SplitJoin(parts[1..]);
  }

  // ---------------------------------------------------------------------
  // People: the surname moves to the front.
  // ---------------------------------------------------------------------

  /** The surname-first step of `naturalize_person` on the words of a name
      (`whole` is the text those words came from). With two or more words,
      a capitalised particle joins the last word, and that surname goes
      first, followed by a comma and the remaining words. */
  function SurnameFirst(parts: seq<string>, whole: string): string
  {
    if |parts| > 1 then
      var names :=
        if parts[|parts| - 2] in Particles
        then parts[..|parts| - 2] + [parts[|parts| - 2] + " " + parts[|parts| - 1]]
        else parts;
      names[|names| - 1] + ", " + Join(names[..|names| - 1])
    else whole
  }

  /** Surname-first reordering of a name with no suffix. */
  function Reorder(s: string): string
  {
    SurnameFirst(Split(s), s)
  }

  /** The reordering of `naturalize_person`, before numbers are padded and
      before lower-casing: a final suffix word is taken off, the rest is put
      surname first, and the suffix is added back after a space. */
  function PersonOrder(s: string): string
  {
    var parts := Split(s);
    var last := parts[|parts| - 1];
    if last in Suffixes then
      var names := parts[..|parts| - 1];
      SurnameFirst(names, Join(names)) + " " + last
    else SurnameFirst(parts, s)
  }

  /** `naturalize_person`: reorder, then pad the numbers (case is kept). */
  function NaturalizePerson(s: string): string
  {
    NaturalizeNumbers(PersonOrder(s))
  }

  /** A one-word name is unchanged: "Prince" stays "Prince". */
  lemma ReorderOneWord(s: string)
    requires ' ' !in s
    ensures Reorder(s) == s
  {
    SplitNoSpace(s);
  }

  /** The last word is the surname and goes first, unless the word before
      it is a particle: "David Foster Wallace" becomes "Wallace, David
      Foster", and "Daphne du Maurier" becomes "Maurier, Daphne du". */
  lemma ReorderSurnameFirst(given: string, surname: string)
    requires ' ' !in surname
    requires LastWord(given) !in Particles
    ensures Reorder(given + " " + surname) == surname + ", " + given
  {
    SplitThenWord(given, surname);
    var g := Split(given);
    JoinSplit(given);
    assert (g + [surname])[..|g|] == g;
  }

  /** A capitalised particle joins the surname: "John Le Carre" becomes
      "Le Carre, John". */
  lemma ReorderParticle(given: string, particle: string, surname: string)
    requires particle in Particles
    requires ' ' !in surname
    ensures Reorder(given + " " + particle + " " + surname) == particle + " " + surname + ", " + given
  {
    ListsHoldSingleWords();
    SplitThenWord(given, particle);
    SplitThenWord(given + " " + particle, surname);
    var g := Split(given);
    JoinSplit(given);
    var parts := g + [particle] + [surname];
    assert parts[..|parts| - 2] == g;
  }

  /** A particle and a surname with no given names: the comma is still
      written, with nothing after it ("Le Carre" becomes "Le Carre, "). */
  lemma ReorderParticleAlone(particle: string, surname: string)
    requires particle in Particles
    requires ' ' !in surname
    ensures Reorder(particle + " " + surname) == particle + " " + surname + ", "
  {
    ListsHoldSingleWords();
    SplitWordThen(particle, surname);
    SplitNoSpace(surname);
  }

  /** Without a suffix, the person order is the surname-first reordering. */
  lemma PersonOrderWithoutSuffix(s: string)
    requires LastWord(s) !in Suffixes
    ensures PersonOrder(s) == Reorder(s)
  {
  }

  /** A final suffix is set aside, the rest is reordered, and the suffix is
      added back after a space: "Sir Fred Bloggs Jr" becomes
      "Bloggs, Sir Fred Jr". */
  lemma PersonOrderWithSuffix(body: string, suffix: string)
    requires suffix in Suffixes
    ensures PersonOrder(body + " " + suffix) == Reorder(body) + " " + suffix
  {
    ListsHoldSingleWords();
    SplitThenWord(body, suffix);
    var b := Split(body);
    JoinSplit(body);
    assert (b + [suffix])[..|b|] == b;
  }

  /** A name that is only a suffix keeps it, after a space. */
  lemma PersonOrderSuffixAlone(suffix: string)
    requires suffix in Suffixes
    ensures PersonOrder(suffix) == " " + suffix
  {
    ListsHoldSingleWords();
    SplitNoSpace(suffix);
  }

  // ---------------------------------------------------------------------
  // The stored key.
  // ---------------------------------------------------------------------

  /** The key of a person's name: strip, reorder, pad, then lower-case. */
  function PersonKey(name: string): (r: string)
    ensures IsLowerCase(r)
  {
    Lower(NaturalizePerson(Strip(IsSpace, name)))
  }

  /** The key of any other name: strip, lower-case, move the article,
      pad. */
  function ThingKey(name: string): (r: string)
    ensures IsLowerCase(r)
  {
    NaturalizeThing(Lower(Strip(IsSpace, name)))
  }

  /** `NaturalSortField.pre_save`: the key for `value`, where `sortAs` is the
      record's `sort_as` attribute (None when the record has none). Only the
      value "person" selects the surname-first key. Every key is lower-case,
      and a blank name gives the empty key. */
  function PreSave(value: string, sortAs: Option<string>): (r: string)
    ensures IsLowerCase(r)
    ensures AllSpace(IsSpace, value) ==> r == ""
    ensures sortAs == Some("person") ==> r == PersonKey(value)
    ensures sortAs != Some("person") ==> r == ThingKey(value)
  {
    StripBlank(IsSpace, value);
    assert Split("") == [""];
    if sortAs.Some? && sortAs.value == "person" then PersonKey(value) else ThingKey(value)
  }

  /** The key ignores whitespace around the name. */
  lemma PreSaveIgnoresPadding(pre: string, value: string, post: string, sortAs: Option<string>)
    requires AllSpace(IsSpace, pre) && AllSpace(IsSpace, post)
    ensures PreSave(pre + value + post, sortAs) == PreSave(value, sortAs)
  {
    StripIgnoresPadding(IsSpace, pre, value, post);
  }

  /** Article matching happens after lower-casing, so a capitalised article
      is recognised: a name that starts with a word whose lower-case form is
      an article, followed by a different word, is keyed as the rest of the
      name, a comma and the article. */
  lemma ThingKeyMovesArticle(article: string, rest: string)
    requires Lower(article) in Articles
    requires FirstWord(Lower(rest)) != Lower(article)
    requires Strip(IsSpace, article + " " + rest) == article + " " + rest
    ensures ThingKey(article + " " + rest) == NaturalizeNumbers(Lower(rest) + ", " + Lower(article))
  {
    var name := article + " " + rest;
    LowerAppend(article + " ", rest);
    LowerAppend(article, " ");
    assert Lower(" ") == " ";
    assert Lower(name) == Lower(article) + " " + Lower(rest);
    MoveArticleMoves(Lower(article), Lower(rest));
    assert MoveArticle(Lower(name)) == Lower(rest) + ", " + Lower(article);
  }
}
