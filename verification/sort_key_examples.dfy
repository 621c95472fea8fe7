/** The examples from the documentation of `NaturalSortField`, and the edge
    cases of the code, checked against the model. Each example names its
    words as parameters fixed by `requires`, so the proof works word by word
    instead of evaluating the whole transform on a literal. */
module SortKeyExamples {
  import opened Strings
  import opened Numbers
  import opened NaturalSort
  import opened Models

  // ---------------------------------------------------------------------
  // Shapes of names shared by several examples.
  // ---------------------------------------------------------------------

  /** Two words, the second no suffix: the surname goes first. */
  lemma PersonOrderTwoWords(a: string, b: string)
    requires ' ' !in a && ' ' !in b && a !in Particles && b !in Suffixes
    ensures PersonOrder(a + " " + b) == b + ", " + a
  {
    SplitNoSpace(a);
    SplitThenWord(a, b);
    assert LastWord(a + " " + b) == b;
    PersonOrderWithoutSuffix(a + " " + b);
    ReorderSurnameFirst(a, b);
  }

  /** Three words, no particle and no suffix: the last word goes first. */
  lemma PersonOrderThreeWords(a: string, b: string, c: string)
    requires ' ' !in a && ' ' !in b && ' ' !in c
    requires b !in Particles && c !in Suffixes
    ensures PersonOrder(a + " " + b + " " + c) == c + ", " + a + " " + b
  {
    SplitThenWord(a, b);
    SplitNoSpace(a);
    assert LastWord(a + " " + b) == b;
    SplitThenWord(a + " " + b, c);
    assert LastWord(a + " " + b + " " + c) == c;
    PersonOrderWithoutSuffix(a + " " + b + " " + c);
    ReorderSurnameFirst(a + " " + b, c);
  }

  /** Three words and a suffix: the surname goes first and the suffix
      stays last. */
  lemma PersonOrderThreeWordsThenSuffix(a: string, b: string, c: string, j: string)
    requires ' ' !in a && ' ' !in b && ' ' !in c
    requires b !in Particles && j in Suffixes
    ensures PersonOrder(a + " " + b + " " + c + " " + j) == c + ", " + a + " " + b + " " + j
  {
    PersonOrderWithSuffix(a + " " + b + " " + c, j);
    SplitThenWord(a, b);
    SplitNoSpace(a);
    assert LastWord(a + " " + b) == b;
    ReorderSurnameFirst(a + " " + b, c);
  }

  /** A given name, a particle and a surname: particle and surname go
      first together. */
  lemma PersonOrderWithParticle(a: string, p: string, c: string)
    requires ' ' !in c && p in Particles && c !in Suffixes
    ensures PersonOrder(a + " " + p + " " + c) == p + " " + c + ", " + a
  {
    SplitThenWord(a + " " + p, c);
    assert LastWord(a + " " + p + " " + c) == c;
    PersonOrderWithoutSuffix(a + " " + p + " " + c);
    ReorderParticle(a, p, c);
  }

  /** Gluing the steps of a person's key together. */
  lemma PersonKeyFromOrder(name: string, order: string, key: string)
    requires |name| > 0 && !IsSpace(name[0]) && !IsSpace(name[|name| - 1])
    requires PersonOrder(name) == order && NoDigits(order) && Lower(order) == key
    ensures PersonKey(name) == key
  {
    StripUnpadded(IsSpace, name);
    NaturalizeNumbersNoDigits(order);
  }

  /** Gluing the steps of a thing's key together. */
  lemma ThingKeyFromMove(name: string, lowered: string, moved: string, key: string)
    requires |name| > 0 && !IsSpace(name[0]) && !IsSpace(name[|name| - 1])
    requires Lower(name) == lowered && MoveArticle(lowered) == moved
    requires NaturalizeNumbers(moved) == key
    ensures ThingKey(name) == key
  {
    StripUnpadded(IsSpace, name);
  }

  /** Two lower-case words after an article that differs from the first of
      them: the article moves behind them. */
  lemma MoveArticleBeforeTwoWords(a: string, b: string, c: string)
    requires a in Articles && ' ' !in b && ' ' !in c && b != a
    ensures MoveArticle(a + " " + b + " " + c) == b + " " + c + ", " + a
  {
    SplitWordThen(b, c);
    assert a + " " + b + " " + c == a + " " + (b + " " + c);
    MoveArticleMoves(a, b + " " + c);
  }

  /** Lower-casing two words joined by a space lower-cases each word. */
  lemma LowerTwoWords(a: string, b: string)
    ensures Lower(a + " " + b) == Lower(a) + " " + Lower(b)
  {
    LowerAppend(a + " ", b);
    LowerAppend(a, " ");
    assert Lower(" ") == " ";
  }

  /** Lower-casing three words joined by spaces lower-cases each word. */
  lemma LowerThreeWords(a: string, b: string, c: string)
    ensures Lower(a + " " + b + " " + c) == Lower(a) + " " + Lower(b) + " " + Lower(c)
  {
    LowerAppend(a + " " + b + " ", c);
    LowerAppend(a + " " + b, " ");
    LowerAppend(a + " ", b);
    LowerAppend(a, " ");
    assert Lower(" ") == " ";
  }

  /** A first word that is not an article keeps the title in order. */
  lemma MoveArticleKeepsOrder(w: string, rest: string)
    requires ' ' !in w && w !in Articles
    ensures MoveArticle(w + " " + rest) == w + " " + rest
  {
    SplitWordThen(w, rest);
  }

  /** A word repeated at the start of a title is never moved, article or
      not. */
  lemma MoveArticleKeepsRepeat(x: string, rest: string)
    requires ' ' !in x && FirstWord(rest) == x
    ensures MoveArticle(x + " " + rest) == x + " " + rest
  {
    SplitWordThen(x, rest);
  }

  // ---------------------------------------------------------------------
  // People. Each example settles its literal text in helpers of its own:
  // one for how the words spell the order, one for the key of that text.
  // ---------------------------------------------------------------------

  /** "David Foster Wallace" is keyed "wallace, david foster". */
  lemma PersonExampleWallace(a: string, b: string, c: string)
    requires a == "David" && b == "Foster" && c == "Wallace"
    ensures PersonKey(a + " " + b + " " + c) == "wallace, david foster"
  {
    PersonOrderThreeWords(a, b, c);
    WallaceSpelling(a, b, c);
    WallaceKey("Wallace, David Foster");
    var name := a + " " + b + " " + c;
    assert name[0] == 'D' && name[|name| - 1] == 'e';
    PersonKeyFromOrder(name, "Wallace, David Foster", "wallace, david foster");
  }

  lemma WallaceSpelling(a: string, b: string, c: string)
    requires a == "David" && b == "Foster" && c == "Wallace"
    ensures c + ", " + a + " " + b == "Wallace, David Foster"
  {
  }

  lemma WallaceKey(s: string)
    requires s == "Wallace, David Foster"
    ensures NoDigits(s) && Lower(s) == "wallace, david foster"
  {
  }

  /** "John Le Carre" is keyed "le carre, john". */
  lemma PersonExampleLeCarre(a: string, p: string, c: string)
    requires a == "John" && p == "Le" && c == "Carre"
    ensures PersonKey(a + " " + p + " " + c) == "le carre, john"
  {
    PersonOrderWithParticle(a, p, c);
    LeCarreSpelling(a, p, c);
    LeCarreKey("Le Carre, John");
    var name := a + " " + p + " " + c;
    assert name[0] == 'J' && name[|name| - 1] == 'e';
    PersonKeyFromOrder(name, "Le Carre, John", "le carre, john");
  }

  lemma LeCarreSpelling(a: string, p: string, c: string)
    requires a == "John" && p == "Le" && c == "Carre"
    ensures p + " " + c + ", " + a == "Le Carre, John"
  {
  }

  lemma LeCarreKey(s: string)
    requires s == "Le Carre, John"
    ensures NoDigits(s) && Lower(s) == "le carre, john"
  {
  }

  /** "Daphne du Maurier" is keyed "maurier, daphne du": the particle list
      is case-sensitive, so a lower-case "du" stays with the given names. */
  lemma PersonExampleDuMaurier(a: string, b: string, c: string)
    requires a == "Daphne" && b == "du" && c == "Maurier"
    ensures PersonKey(a + " " + b + " " + c) == "maurier, daphne du"
  {
    PersonOrderThreeWords(a, b, c);
    DuMaurierSpelling(a, b, c);
    DuMaurierKey("Maurier, Daphne du");
    var name := a + " " + b + " " + c;
    assert name[0] == 'D' && name[|name| - 1] == 'r';
    PersonKeyFromOrder(name, "Maurier, Daphne du", "maurier, daphne du");
  }

  lemma DuMaurierSpelling(a: string, b: string, c: string)
    requires a == "Daphne" && b == "du" && c == "Maurier"
    ensures c + ", " + a + " " + b == "Maurier, Daphne du"
  {
  }

  lemma DuMaurierKey(s: string)
    requires s == "Maurier, Daphne du"
    ensures NoDigits(s) && Lower(s) == "maurier, daphne du"
  {
  }

  /** "Sir Fred Bloggs Jr" is keyed "bloggs, sir fred jr". */
  lemma PersonExampleBloggs(a: string, b: string, c: string, j: string)
    requires a == "Sir" && b == "Fred" && c == "Bloggs" && j == "Jr"
    ensures PersonKey(a + " " + b + " " + c + " " + j) == "bloggs, sir fred jr"
  {
    PersonOrderThreeWordsThenSuffix(a, b, c, j);
    BloggsSpelling(a, b, c, j);
    BloggsKey("Bloggs, Sir Fred Jr");
    var name := a + " " + b + " " + c + " " + j;
    assert name[0] == 'S' && name[|name| - 1] == 'r';
    PersonKeyFromOrder(name, "Bloggs, Sir Fred Jr", "bloggs, sir fred jr");
  }

  lemma BloggsSpelling(a: string, b: string, c: string, j: string)
    requires a == "Sir" && b == "Fred" && c == "Bloggs" && j == "Jr"
    ensures c + ", " + a + " " + b + " " + j == "Bloggs, Sir Fred Jr"
  {
  }

  lemma BloggsKey(s: string)
    requires s == "Bloggs, Sir Fred Jr"
    ensures NoDigits(s) && Lower(s) == "bloggs, sir fred jr"
  {
  }

  /** "Prince" is keyed "prince". */
  lemma PersonExamplePrince(a: string)
    requires a == "Prince"
    ensures PersonKey(a) == "prince"
  {
    SplitNoSpace(a);
    ReorderOneWord(a);
    assert Lower(a) == "prince";
    PersonKeyFromOrder(a, a, "prince");
  }

  /** Suffixes match case-sensitively: "JR" is not one, so it is taken for
      the surname. */
  lemma PersonExampleUpperCaseSuffix(a: string, b: string, c: string)
    requires a == "John" && b == "Smith" && c == "JR"
    ensures PersonKey(a + " " + b + " " + c) == "jr, john smith"
  {
    PersonOrderThreeWords(a, b, c);
    UpperCaseSuffixSpelling(a, b, c);
    UpperCaseSuffixKey("JR, John Smith");
    var name := a + " " + b + " " + c;
    assert name[0] == 'J' && name[|name| - 1] == 'R';
    PersonKeyFromOrder(name, "JR, John Smith", "jr, john smith");
  }

  lemma UpperCaseSuffixSpelling(a: string, b: string, c: string)
    requires a == "John" && b == "Smith" && c == "JR"
    ensures c + ", " + a + " " + b == "JR, John Smith"
  {
  }

  lemma UpperCaseSuffixKey(s: string)
    requires s == "JR, John Smith"
    ensures NoDigits(s) && Lower(s) == "jr, john smith"
  {
  }

  /** A name that is only a suffix gets a leading space: "Jr" is keyed
      " jr". */
  lemma PersonExampleSuffixOnly(j: string)
    requires j == "Jr"
    ensures PersonKey(j) == " jr"
  {
    PersonOrderSuffixAlone(j);
    assert " " + j == " Jr";
    assert Lower(" Jr") == " jr";
    PersonKeyFromOrder(j, " Jr", " jr");
  }

  /** The first example of `naturalize_person`'s documentation,
      "John, Brown": the comma stays on the word it was typed after, so the
      result is "Brown, John," and not the documented "Brown, John". */
  lemma PersonExampleJohnCommaBrown(a: string, b: string)
    requires a == "John," && b == "Brown"
    ensures NaturalizePerson(a + " " + b) == "Brown, John,"
  {
    PersonOrderTwoWords(a, b);
    JohnCommaBrownSpelling(a, b);
    NaturalizeNumbersNoDigits("Brown, John,");
  }

  lemma JohnCommaBrownSpelling(a: string, b: string)
    requires a == "John," && b == "Brown"
    ensures b + ", " + a == "Brown, John," && NoDigits("Brown, John,")
  {
  }

  /** The second example of `naturalize_person`'s documentation: "Sir John
      Brown Jr" becomes "Brown, Sir John Jr", with its case kept. */
  lemma PersonExampleSirJohnBrownJr(a: string, b: string, c: string, j: string)
    requires a == "Sir" && b == "John" && c == "Brown" && j == "Jr"
    ensures NaturalizePerson(a + " " + b + " " + c + " " + j) == "Brown, Sir John Jr"
  {
    PersonOrderThreeWordsThenSuffix(a, b, c, j);
    SirJohnBrownJrSpelling(a, b, c, j);
    NaturalizeNumbersNoDigits("Brown, Sir John Jr");
  }

  lemma SirJohnBrownJrSpelling(a: string, b: string, c: string, j: string)
    requires a == "Sir" && b == "John" && c == "Brown" && j == "Jr"
    ensures c + ", " + a + " " + b + " " + j == "Brown, Sir John Jr"
    ensures NoDigits("Brown, Sir John Jr")
  {
  }

  /** The third example of `naturalize_person`'s documentation: "Prince"
      stays "Prince". */
  lemma PersonExamplePrinceKept(a: string)
    requires a == "Prince"
    ensures NaturalizePerson(a) == "Prince"
  {
    SplitNoSpace(a);
    ReorderOneWord(a);
    assert NoDigits(a);
    NaturalizeNumbersNoDigits(a);
  }

  /** The help text of `name_sort`: an individual "Douglas Adams" is
      sorted as "adams, douglas". */
  lemma NameSortIndividualExample(a: string, b: string)
    requires a == "Douglas" && b == "Adams"
    ensures NameSort(NewCreator(a + " " + b)) == "adams, douglas"
  {
    PersonOrderTwoWords(a, b);
    AdamsSpelling(a, b);
    AdamsKey("Adams, Douglas");
    var name := a + " " + b;
    assert name[0] == 'D' && name[|name| - 1] == 's';
    PersonKeyFromOrder(name, "Adams, Douglas", "adams, douglas");
  }

  lemma AdamsSpelling(a: string, b: string)
    requires a == "Douglas" && b == "Adams"
    ensures b + ", " + a == "Adams, Douglas"
  {
  }

  lemma AdamsKey(s: string)
    requires s == "Adams, Douglas"
    ensures NoDigits(s) && Lower(s) == "adams, douglas"
  {
  }

  /** The help text of `name_sort`: a group "The Long Blondes" is sorted as
      "long blondes, the". */
  lemma NameSortGroupExample(a: string, b: string, c: string)
    requires a == "The" && b == "Long" && c == "Blondes"
    ensures NameSort(Creator(a + " " + b + " " + c, Group)) == "long blondes, the"
  {
    ThingExampleLongBlondes(a, b, c);
  }

  // ---------------------------------------------------------------------
  // Things. The words are lower-cased one by one, the article is moved on
  // the lower-case words, and the moved text is naturalized.
  // ---------------------------------------------------------------------

  /** "The Long Blondes" is keyed "long blondes, the". */
  lemma ThingExampleLongBlondes(a: string, b: string, c: string)
    requires a == "The" && b == "Long" && c == "Blondes"
    ensures ThingKey(a + " " + b + " " + c) == "long blondes, the"
  {
    LowerThreeWords(a, b, c);
    LongBlondesWords(a, b, c);
    var x, y, z := Lower(a), Lower(b), Lower(c);
    MoveArticleBeforeTwoWords(x, y, z);
    LongBlondesMoved(x, y, z);
    var name := a + " " + b + " " + c;
    assert name[0] == 'T' && name[|name| - 1] == 's';
    ThingKeyFromMove(name, x + " " + y + " " + z, y + " " + z + ", " + x, "long blondes, the");
  }

  lemma LongBlondesWords(a: string, b: string, c: string)
    requires a == "The" && b == "Long" && c == "Blondes"
    ensures Lower(a) == "the" && Lower(b) == "long" && Lower(c) == "blondes"
  {
  }

  lemma LongBlondesMoved(x: string, y: string, z: string)
    requires x == "the" && y == "long" && z == "blondes"
    ensures NaturalizeNumbers(y + " " + z + ", " + x) == "long blondes, the"
  {
    assert y + " " + z + ", " + x == "long blondes, the";
    NaturalizeNumbersNoDigits("long blondes, the");
  }

  /** "An Actor Prepares" is keyed "actor prepares, an". */
  lemma ThingExampleActor(a: string, b: string, c: string)
    requires a == "An" && b == "Actor" && c == "Prepares"
    ensures ThingKey(a + " " + b + " " + c) == "actor prepares, an"
  {
    LowerThreeWords(a, b, c);
    ActorWords(a, b, c);
    var x, y, z := Lower(a), Lower(b), Lower(c);
    MoveArticleBeforeTwoWords(x, y, z);
    ActorMoved(x, y, z);
    var name := a + " " + b + " " + c;
    assert name[0] == 'A' && name[|name| - 1] == 's';
    ThingKeyFromMove(name, x + " " + y + " " + z, y + " " + z + ", " + x, "actor prepares, an");
  }

  lemma ActorWords(a: string, b: string, c: string)
    requires a == "An" && b == "Actor" && c == "Prepares"
    ensures Lower(a) == "an" && Lower(b) == "actor" && Lower(c) == "prepares"
  {
  }

  lemma ActorMoved(x: string, y: string, z: string)
    requires x == "an" && y == "actor" && z == "prepares"
    ensures NaturalizeNumbers(y + " " + z + ", " + x) == "actor prepares, an"
  {
    assert y + " " + z + ", " + x == "actor prepares, an";
    NaturalizeNumbersNoDigits("actor prepares, an");
  }

  /** "Le Tigre" is keyed "tigre, le": the article list is not tied to a
      language. */
  lemma ThingExampleTigre(a: string, b: string)
    requires a == "Le" && b == "Tigre"
    ensures ThingKey(a + " " + b) == "tigre, le"
  {
    LowerTwoWords(a, b);
    TigreWords(a, b);
    var x, y := Lower(a), Lower(b);
    SplitNoSpace(y);
    MoveArticleMoves(x, y);
    TigreMoved(x, y);
    var name := a + " " + b;
    assert name[0] == 'L' && name[|name| - 1] == 'e';
    ThingKeyFromMove(name, x + " " + y, y + ", " + x, "tigre, le");
  }

  lemma TigreWords(a: string, b: string)
    requires a == "Le" && b == "Tigre"
    ensures Lower(a) == "le" && Lower(b) == "tigre"
  {
  }

  lemma TigreMoved(x: string, y: string)
    requires x == "le" && y == "tigre"
    ensures NaturalizeNumbers(y + ", " + x) == "tigre, le"
  {
    assert y + ", " + x == "tigre, le";
    NaturalizeNumbersNoDigits("tigre, le");
  }

  /** "The The" keeps its order: the second word repeats the article. */
  lemma ThingExampleTheThe(a: string, b: string)
    requires a == "The" && b == "The"
    ensures ThingKey(a + " " + b) == "the the"
  {
    LowerTwoWords(a, b);
    TheTheWord(a);
    var x := Lower(a);
    SplitNoSpace(x);
    MoveArticleKeepsRepeat(x, x);
    TheTheKept(x);
    var name := a + " " + b;
    assert name[0] == 'T' && name[|name| - 1] == 'e';
    ThingKeyFromMove(name, x + " " + x, x + " " + x, "the the");
  }

  lemma TheTheWord(a: string)
    requires a == "The"
    ensures Lower(a) == "the" && ' ' !in Lower(a)
  {
  }

  lemma TheTheKept(x: string)
    requires x == "the"
    ensures NaturalizeNumbers(x + " " + x) == "the the"
  {
    assert x + " " + x == "the the";
    NaturalizeNumbersNoDigits("the the");
  }

  /** "La La Land" keeps its order. */
  lemma ThingExampleLaLaLand(a: string, b: string, c: string)
    requires a == "La" && b == "La" && c == "Land"
    ensures ThingKey(a + " " + b + " " + c) == "la la land"
  {
    LowerThreeWords(a, b, c);
    LaLaLandWords(a, c);
    var x, z := Lower(a), Lower(c);
    SplitWordThen(x, z);
    MoveArticleKeepsRepeat(x, x + " " + z);
    assert x + " " + x + " " + z == x + " " + (x + " " + z);
    LaLaLandKept(x, z);
    var name := a + " " + b + " " + c;
    assert name[0] == 'L' && name[|name| - 1] == 'd';
    ThingKeyFromMove(name, x + " " + x + " " + z, x + " " + x + " " + z, "la la land");
  }

  lemma LaLaLandWords(a: string, c: string)
    requires a == "La" && c == "Land"
    ensures Lower(a) == "la" && Lower(c) == "land"
    ensures ' ' !in Lower(a) && ' ' !in Lower(c)
  {
  }

  lemma LaLaLandKept(x: string, z: string)
    requires x == "la" && z == "land"
    ensures NaturalizeNumbers(x + " " + x + " " + z) == "la la land"
  {
    assert x + " " + x + " " + z == "la la land";
    NaturalizeNumbersNoDigits("la la land");
  }

  /** "Vol. 2 No. 11, November 2004" keeps its order (it does not start with
      an article) and every number is padded:
      "vol. 00000002 no. 00000011, november 00002004". */
  lemma ThingExampleVolume(w: string, n1: string, t2: string, n2: string, t3: string, n3: string)
    requires w == "Vol." && n1 == "2" && t2 == " No. " && n2 == "11"
    requires t3 == ", November " && n3 == "2004"
    ensures ThingKey(w + " " + n1 + t2 + n2 + t3 + n3)
      == "vol. 00000002 no. 00000011, november 00002004"
  {
    var name := w + " " + n1 + t2 + n2 + t3 + n3;
    var rest := n1 + (Lower(t2) + (n2 + (Lower(t3) + n3)));
    VolumeLowered(w, n1, t2, n2, t3, n3);
    VolumeWords(w, t2, t3);
    MoveArticleKeepsOrder(Lower(w), rest);
    VolumePadding(Lower(w), n1, Lower(t2), n2, Lower(t3), n3);
    VolumeEnds(w, n1, t2, n2, t3, n3);
    ThingKeyFromMove(name, Lower(w) + " " + rest, Lower(w) + " " + rest,
      "vol. 00000002 no. 00000011, november 00002004");
  }

  lemma VolumeEnds(w: string, n1: string, t2: string, n2: string, t3: string, n3: string)
    requires w == "Vol." && n3 == "2004"
    ensures var name := w + " " + n1 + t2 + n2 + t3 + n3;
      |name| > 0 && !IsSpace(name[0]) && !IsSpace(name[|name| - 1])
  {
    var name := w + " " + n1 + t2 + n2 + t3 + n3;
    assert name[0] == w[0];
    assert name[|name| - 1] == n3[|n3| - 1];
  }

  /** Lower-casing the volume title piece by piece: the digit runs are
      already lower case. */
  lemma VolumeLowered(w: string, n1: string, t2: string, n2: string, t3: string, n3: string)
    requires IsLowerCase(n1) && IsLowerCase(n2) && IsLowerCase(n3)
    ensures Lower(w + " " + n1 + t2 + n2 + t3 + n3)
      == Lower(w) + " " + (n1 + (Lower(t2) + (n2 + (Lower(t3) + n3))))
  {
    LowerAppend(w + " " + n1 + t2 + n2 + t3, n3);
    LowerAppend(w + " " + n1 + t2 + n2, t3);
    LowerAppend(w + " " + n1 + t2, n2);
    LowerOfLowerCase(n2);
    LowerOfLowerCase(n3);
    LowerVolumeHead(w, n1, t2);
  }

  lemma LowerVolumeHead(w: string, n1: string, t2: string)
    requires IsLowerCase(n1)
    ensures Lower(w + " " + n1 + t2) == Lower(w) + " " + n1 + Lower(t2)
  {
    LowerAppend(w + " " + n1, t2);
    LowerAppend(w + " ", n1);
    LowerAppend(w, " ");
    assert Lower(" ") == " ";
    LowerOfLowerCase(n1);
  }

  lemma VolumeWords(w: string, t2: string, t3: string)
    requires w == "Vol." && t2 == " No. " && t3 == ", November "
    ensures Lower(w) == "vol." && Lower(t2) == " no. " && Lower(t3) == ", november "
  {
  }

  /** The padding half of the volume example, run by run. */
  lemma VolumePadding(w: string, n1: string, u2: string, n2: string, u3: string, n3: string)
    requires w == "vol." && n1 == "2" && u2 == " no. " && n2 == "11"
    requires u3 == ", november " && n3 == "2004"
    ensures NaturalizeNumbers(w + " " + (n1 + (u2 + (n2 + (u3 + n3)))))
      == "vol. 00000002 no. 00000011, november 00002004"
  {
    var p1, p2, p3 := "00000002", "00000011", "00002004";
    PadTwo(n1);
    PadEleven(n2);
    PadYear(n3);
    VolumeText(w, n1, u2, n2, u3, n3);
    NaturalizeTextRun(u3, n3, "", p3);
    assert n3 + "" == n3;
    NaturalizeNumbersNoDigits("");
    NaturalizeTextRun(u2, n2, u3 + n3, p2);
    NaturalizeTextRun(w + " ", n1, u2 + (n2 + (u3 + n3)), p1);
    VolumeSpelling(w, p1, u2, p2, u3, p3);
  }

  /** Naturalizing text without digits followed by one digit run. */
  lemma NaturalizeTextRun(u: string, n: string, rest: string, p: string)
    requires NoDigits(u) && |n| > 0 && AllDigits(n)
    requires |rest| == 0 || !IsDigit(rest[0])
    requires ZeroPad(Value(n)) == p
    ensures NaturalizeNumbers(u + (n + rest)) == u + (p + NaturalizeNumbers(rest))
  {
    NaturalizeNumbersTextThen(u, n + rest);
    NaturalizeNumbersRunThen(n, rest);
  }

  /** The pieces of the volume title: text without digits between digit
      runs. */
  lemma VolumeText(w: string, n1: string, u2: string, n2: string, u3: string, n3: string)
    requires w == "vol." && n1 == "2" && u2 == " no. " && n2 == "11"
    requires u3 == ", november " && n3 == "2004"
    ensures NoDigits(w + " ") && NoDigits(u2) && NoDigits(u3)
    ensures |n1| > 0 && AllDigits(n1) && |n2| > 0 && AllDigits(n2) && |n3| > 0 && AllDigits(n3)
    ensures !IsDigit((u2 + (n2 + (u3 + n3)))[0]) && !IsDigit((u3 + n3)[0])
  {
  }

  lemma PadTwo(n: string)
    requires n == "2"
    ensures IsLowerCase(n) && ZeroPad(Value(n)) == "00000002"
  {
    ZeroPadCanonical(n);
    assert Zeros(7) == "0000000";
  }

  lemma PadEleven(n: string)
    requires n == "11"
    ensures IsLowerCase(n) && ZeroPad(Value(n)) == "00000011"
  {
    ZeroPadCanonical(n);
    assert Zeros(6) == "000000";
  }

  lemma PadYear(n: string)
    requires n == "2004"
    ensures IsLowerCase(n) && ZeroPad(Value(n)) == "00002004"
  {
    ZeroPadCanonical(n);
    assert Zeros(4) == "0000";
  }

  lemma VolumeSpelling(w: string, p1: string, u2: string, p2: string, u3: string, p3: string)
    requires w == "vol." && p1 == "00000002" && u2 == " no. " && p2 == "00000011"
    requires u3 == ", november " && p3 == "00002004"
    ensures w + " " + (p1 + (u2 + (p2 + (u3 + p3))))
      == "vol. 00000002 no. 00000011, november 00002004"
  {
    var x, y, z := w + " " + p1, u2 + p2, u3 + p3;
    assert w + " " + (p1 + (u2 + (p2 + (u3 + p3)))) == x + y + z;
    VolumeSpellingParts(x, y, z);
  }

  lemma VolumeSpellingParts(x: string, y: string, z: string)
    requires x == "vol. 00000002" && y == " no. 00000011" && z == ", november 00002004"
    ensures x + y + z == "vol. 00000002 no. 00000011, november 00002004"
  {
  }

  /** The example of `_naturalize_numbers`' documentation: "1" becomes
      "00000001". */
  lemma PaddingOne(d: string)
    requires d == "1"
    ensures NaturalizeNumbers(d) == "00000001"
  {
    NaturalizeNumbersOfRun(d);
    ZeroPadCanonical(d);
    assert Zeros(7) == "0000000";
  }

  /** "007" is padded to eight digits. */
  lemma PaddingShort(a: string)
    requires a == "007"
    ensures NaturalizeNumbers(a) == "00000007"
  {
    NaturalizeNumbersOfRun(a);
    ValueIgnoresLeadingZeros(2, "7");
    TwoZerosThenSeven(a);
    ZeroPadCanonical("7");
    assert Zeros(7) == "0000000";
  }

  /** A nine-digit number keeps all its digits. */
  lemma PaddingLong(b: string)
    requires b == "123456789"
    ensures NaturalizeNumbers(b) == "123456789"
  {
    NaturalizeNumbersOfRun(b);
    ZeroPadCanonical(b);
  }

  /** Leading zeros beyond the eighth place are dropped, because the run is
      read as an integer first. */
  lemma PaddingLeadingZeros(c: string)
    requires c == "0000000001"
    ensures NaturalizeNumbers(c) == "00000001"
  {
    NaturalizeNumbersOfRun(c);
    ValueIgnoresLeadingZeros(9, "1");
    NineZerosThenOne(c);
    ZeroPadCanonical("1");
    assert Zeros(7) == "0000000";
  }

  lemma TwoZerosThenSeven(a: string)
    requires a == "007"
    ensures a == Zeros(2) + "7"
  {
  }

  lemma NineZerosThenOne(c: string)
    requires c == "0000000001"
    ensures c == Zeros(9) + "1"
  {
  }
}
