# Natural sort keys and page selection in django-spectator

django-spectator catalogues books, events, films and the people and groups
who made them. Lists of creators and works are ordered by a stored sort key,
`name_sort`, which a `NaturalSortField` derives from the display name each
time a record is saved:

- surrounding whitespace is stripped;
- for a person (a record whose `sort_as` is `"person"`) the surname moves to
  the front: "David Foster Wallace" becomes "wallace, david foster".
  - A trailing suffix (Jr, Sr, I … V) is set aside and put back at the end.
  - A capitalised particle (Le, La, Von, Van, Du, De) stays with the surname.
- for anything else the name is lower-cased first, and a leading article in
  one of four languages moves to the end: "The Long Blondes" becomes
  "long blondes, the". This does not happen when the second word repeats
  the first ("The The", "La La Land").
- every run of digits is zero-padded to at least eight digits, so numbers
  sort by value: "Vol. 2" becomes "vol. 00000002";
- the result is lower-case.

A `Creator` is sorted as a person exactly when its kind is `"individual"`,
which is the default kind. A role's label is the creator's name, with the role
name in parentheses after it when there is one.

Paginated list views take the page from the URL keyword `p`, else from the
query parameter `p`, else page 1; an empty value counts as absent. The page
size is 50.
- A token that Python's `int()` accepts names that page.
- The token `last` names the paginator's last page.
- Any other token is "not found".
- The page number then goes to the paginator without a soft limit, so a page
  out of range is "not found" too, and carries its number.

The model is written as pure functions over strings (`seq<char>`):

| file | module | models |
|---|---|---|
| options.dfy | `Options` | `Option` and `Result` |
| strings.dfy | `Strings` | Python's `str.strip()`, ASCII `lower()`, `split(' ')` and `' '.join` |
| numbers.dfy | `Numbers` | digit runs, their values, and the padding step |
| natural_sort.dfy | `NaturalSort` | `pre_save`, `naturalize_thing`, `naturalize_person`, and the article, suffix and particle lists |
| sort_key_examples.dfy | `SortKeyExamples` | the documented input/output pairs and edge cases |
| models.dfy | `Models` | `Creator.kind`, `sort_as`, `name_sort`, `__str__` of creators and roles |
| pagination.dfy | `Pagination` | token selection, `int()` parsing, `last`, and the not-found outcomes of `paginate_queryset` |

Where the code and its own documentation disagree, the model follows the
code:
- `paginate_queryset`'s docstring describes requesting the page with a soft
  limit, so that a page past the end shows the last page. The code passes
  `softlimit=False`, and the model returns "not found" for every page the
  paginator rejects (`Pagination.PaginateQueryset`).
- `naturalize_person`'s docstring (spectator/core/fields.py:116) says
  "John, Brown" becomes "Brown, John". The code splits at spaces only, so
  the comma stays on "John," and the result is "Brown, John,"
  (`SortKeyExamples.PersonExampleJohnCommaBrown`). The docstring's other
  examples hold as written.

Behaviour of the code worth noting, modelled as written:
- Suffixes are matched case-sensitively against the listed forms and their
  all-lower-case forms, so "JR" is not a suffix
  (`SortKeyExamples.PersonExampleUpperCaseSuffix`).
- A name that is only a suffix, "Jr", is keyed " jr" with a leading space
  (`SortKeyExamples.PersonExampleSuffixOnly`).
- A particle and surname with no given name, "Le Carre", become
  "Le Carre, " with a trailing comma and space (`NaturalSort.ReorderParticleAlone`).
- `int()` ignores less white space than `strip()`: the information
  separators U+001C to U+001F are stripped from names but make a page
  token unreadable (`Pagination.ParseIntSeparator`).
- Under CPython's default limit on integer text, `int()` refuses more than
  4300 digits, so a page token of 4301 digits is not found as a page number
  before the paginator is asked (`Pagination.ParseIntTooLong`,
  `Pagination.PaginateInteger`).

## Model

| member | source | states |
|---|---|---|
| NaturalSort.PreSave | spectator/core/fields.py:67-80 | The key is lower-case on both paths. A blank name gives the empty key. Only a `sort_as` equal to "person" selects the person key, which reorders before lower-casing. Any other `sort_as`, or none, selects the thing key, which lower-cases before moving the article. |
| NaturalSort.PreSaveIgnoresPadding | spectator/core/fields.py:70 | Whitespace before or after the name never changes its key. |
| NaturalSort.PersonKey | spectator/core/fields.py:72-75 | A person's key is lower-case, whatever the case of the name. |
| NaturalSort.ThingKey | spectator/core/fields.py:76-78 | A thing's key is lower-case, whatever the case of the name. |
| NaturalSort.SuffixesAreBaseAndLowered | spectator/core/fields.py:122-127 | The suffix list is exactly the nine listed suffixes followed by their lower-cased forms. |
| NaturalSort.ListsHoldSingleWords | spectator/core/fields.py:91-135 | No article, suffix or particle contains a space, so each can match only a whole word. |
| NaturalSort.MoveArticle | spectator/core/fields.py:98-105 | Moving an article leaves the name as it is or adds exactly one character (the comma), and keeps a lower-case name lower-case. |
| NaturalSort.NaturalizeThing | spectator/core/fields.py:82-109 | A lower-case title keeps a lower-case key. `NaturalSort.MoveArticleChangesIff` and `NaturalSort.MoveArticleMoves` state when and how the article moves, and the `Numbers` lemmas state the padding. |
| NaturalSort.PersonOrder | spectator/core/fields.py:142-162 | Specified case by case: `NaturalSort.PersonOrderWithoutSuffix`, `PersonOrderWithSuffix` and `PersonOrderSuffixAlone` for the suffix, and `ReorderOneWord`, `ReorderSurnameFirst`, `ReorderParticle` and `ReorderParticleAlone` for the reordering. |
| NaturalSort.NaturalizePerson | spectator/core/fields.py:111-167 | The surname-first order of `NaturalSort.PersonOrder`, then the padding of `Numbers.NaturalizeNumbers`. |
| NaturalSort.MoveArticleMoves | spectator/core/fields.py:98-105 | An article followed by a space and a text whose first word differs from it becomes that text, ", ", and the article. |
| NaturalSort.MoveArticleChangesIff | spectator/core/fields.py:101-105 | The name changes if and only if it starts with an article, a space, and a first word different from the article. |
| NaturalSort.ThingKeyMovesArticle | spectator/core/fields.py:76-107 | Articles are matched after lower-casing, so a capitalised article such as "The" is moved too. |
| NaturalSort.ReorderOneWord | spectator/core/fields.py:141-158 | A name of one word is left in place. |
| NaturalSort.ReorderSurnameFirst | spectator/core/fields.py:150-158 | The last word goes first, then ", ", then all earlier words in order, when the word before the last is not a particle. |
| NaturalSort.ReorderParticle | spectator/core/fields.py:150-158 | A particle before the last word stays with it: particle and surname go first, then ", " and the given names. |
| NaturalSort.ReorderParticleAlone | spectator/core/fields.py:150-158 | A particle and a surname alone become "particle surname, " with nothing after the comma. |
| NaturalSort.PersonOrderWithoutSuffix | spectator/core/fields.py:141-158 | A name whose last word is not a suffix is only reordered. |
| NaturalSort.PersonOrderWithSuffix | spectator/core/fields.py:144-162 | A final suffix is taken off, the rest of the name is reordered, and the suffix is appended after one space. |
| NaturalSort.PersonOrderSuffixAlone | spectator/core/fields.py:144-162 | A name that is only a suffix becomes a space followed by the suffix. |
| Numbers.Decimal | spectator/core/fields.py:176 | The decimal form of a value has at least one digit and no leading zero, and has one digit exactly when the value is below 10. |
| Numbers.ValueOfDecimal | spectator/core/fields.py:176 | Reading a value's decimal form gives the value back. |
| Numbers.DecimalOfValue | spectator/core/fields.py:176 | A run of digits without a leading zero is the decimal form of its own value. |
| Numbers.ValueIgnoresLeadingZeros | spectator/core/fields.py:176 | Leading zeros do not change the value of a run, since the run is read as an integer before it is padded. |
| Numbers.ZeroPad | spectator/core/fields.py:176 | The padded form is all digits, has the value it was made from, and is eight characters long or the length of the decimal form, whichever is longer. |
| Numbers.ZeroPadCanonical | spectator/core/fields.py:176 | A canonical run shorter than eight digits gains exactly enough zeros in front to reach eight. A longer run is kept as it is. |
| Numbers.DigitRun | spectator/core/fields.py:178 | The run found at the start is all digits and maximal: the next character, if any, is not a digit. |
| Numbers.NaturalizeNumbers | spectator/core/fields.py:169-180 | Padding gives the empty string exactly for the empty string. A non-digit character at the front stays in front, and a digit at the front stays a digit. `Numbers.NaturalizeNumbersKeepsPieces` and `Numbers.NaturalizeNumbersRendersPieces` state the rest. |
| Numbers.NaturalizeNumbersKeepsPieces | spectator/core/fields.py:169-180 | After padding, the string reads as the same sequence of characters and numbers, with every number's value unchanged. |
| Numbers.NaturalizeNumbersRendersPieces | spectator/core/fields.py:169-180 | Padding agrees with an independent definition: read the string as characters and numbers, then write each number zero-padded. |
| Numbers.NaturalizeNumbersIdempotent | spectator/core/fields.py:169-180 | Padding an already padded string changes nothing. |
| Numbers.NaturalizeNumbersNoDigits | spectator/core/fields.py:178 | A string without digits is unchanged. |
| Numbers.NaturalizeNumbersKeepsLowerCase | spectator/core/fields.py:178 | Padding keeps a lower-case string lower-case. |
| Numbers.NaturalizeNumbersTextThen | spectator/core/fields.py:178 | Text without digits at the front passes through, and the rest is padded on its own. |
| Numbers.NaturalizeNumbersRunThen | spectator/core/fields.py:178 | A maximal digit run at the front becomes its padded value, and the rest is padded on its own. |
| Strings.Strip | spectator/core/fields.py:70 | Stripping returns the middle of the string between a maximal leading and a maximal trailing run of white space. With `Strings.IsSpace`, the characters `str.isspace()` accepts, this is `strip()`. |
| Strings.StripIgnoresPadding | spectator/core/fields.py:70 | Stripping a string padded with whitespace on either side gives the same result as stripping the string itself. |
| Strings.StripBlank | spectator/core/fields.py:70 | Stripping gives the empty string exactly when every character is whitespace. |
| Strings.Lower | spectator/core/fields.py:75-77 | Lower-casing keeps the length, maps each ASCII capital to its small letter, and leaves every other character as it is. |
| Strings.LowerAppend | spectator/core/fields.py:75-77 | Lower-casing a concatenation lower-cases each part. |
| Strings.Split | spectator/core/fields.py:99 | Splitting on single spaces gives at least one piece, and no piece contains a space. `Strings.JoinSplit` and `Strings.SplitJoin` state that it is inverse to joining. |
| Strings.Join | spectator/core/fields.py:105 | Specified by its round trips with `Strings.Split`: `Strings.JoinSplit` and `Strings.SplitJoin`. |
| Strings.JoinSplit | spectator/core/fields.py:142-158 | Joining the words of a split with single spaces gives the original string back, empty words included. |
| Strings.SplitJoin | spectator/core/fields.py:142-158 | Splitting a space-joined list of words that contain no spaces gives the list back. |
| Strings.SplitAppend | spectator/core/fields.py:99 | Splitting two texts joined by a space gives the pieces of the first followed by the pieces of the second. |
| SortKeyExamples.PersonExampleWallace | spectator/core/fields.py:23 | "David Foster Wallace" is keyed "wallace, david foster". |
| SortKeyExamples.PersonExampleLeCarre | spectator/core/fields.py:24 | "John Le Carre" is keyed "le carre, john". |
| SortKeyExamples.PersonExampleDuMaurier | spectator/core/fields.py:25 | "Daphne du Maurier" is keyed "maurier, daphne du". A lower-case "du" is not a particle. |
| SortKeyExamples.PersonExampleBloggs | spectator/core/fields.py:26 | "Sir Fred Bloggs Jr" is keyed "bloggs, sir fred jr". |
| SortKeyExamples.PersonExamplePrince | spectator/core/fields.py:27 | "Prince" is keyed "prince". |
| SortKeyExamples.PersonExampleUpperCaseSuffix | spectator/core/fields.py:122-127 | "John Smith JR" is keyed "jr, john smith", because "JR" is not in the suffix list. |
| SortKeyExamples.PersonExampleSuffixOnly | spectator/core/fields.py:144-162 | "Jr" is keyed " jr". |
| SortKeyExamples.PersonExampleJohnCommaBrown | spectator/core/fields.py:116 | `naturalize_person` turns "John, Brown" into "Brown, John,", keeping the comma on "John,", where the docstring promises "Brown, John". |
| SortKeyExamples.PersonExampleSirJohnBrownJr | spectator/core/fields.py:117 | `naturalize_person` turns "Sir John Brown Jr" into "Brown, Sir John Jr", with case kept. |
| SortKeyExamples.PersonExamplePrinceKept | spectator/core/fields.py:118 | `naturalize_person` leaves "Prince" as "Prince". |
| SortKeyExamples.ThingExampleLongBlondes | spectator/core/fields.py:32 | "The Long Blondes" is keyed "long blondes, the". |
| SortKeyExamples.ThingExampleActor | spectator/core/fields.py:33 | "An Actor Prepares" is keyed "actor prepares, an". |
| SortKeyExamples.ThingExampleTigre | spectator/core/fields.py:34 | "Le Tigre" is keyed "tigre, le". |
| SortKeyExamples.ThingExampleVolume | spectator/core/fields.py:35-36 | "Vol. 2 No. 11, November 2004" is keyed "vol. 00000002 no. 00000011, november 00002004". |
| SortKeyExamples.ThingExampleTheThe | spectator/core/fields.py:102-103 | "The The" is keyed "the the". |
| SortKeyExamples.ThingExampleLaLaLand | spectator/core/fields.py:102-103 | "La La Land" is keyed "la la land". |
| SortKeyExamples.PaddingOne | spectator/core/fields.py:172 | "1" becomes "00000001". |
| SortKeyExamples.PaddingShort | spectator/core/fields.py:175-176 | "007" becomes "00000007": the run is read as 7 and padded to eight digits. |
| SortKeyExamples.PaddingLong | spectator/core/fields.py:176 | A nine-digit number keeps all nine digits. |
| SortKeyExamples.PaddingLeadingZeros | spectator/core/fields.py:176 | "0000000001" becomes "00000001": the run is read as an integer first. |
| Models.NewCreator | spectator/core/models.py:87-100 | A new creator keeps its name and takes a listed kind, the default `individual`, so it sorts as a person. |
| Models.SortAs | spectator/core/models.py:111-117 | `sort_as` is "person" or "thing", and "person" exactly when the kind is `individual`. |
| Models.NameSort | spectator/core/models.py:95-97 | `name_sort` is lower-case. It is the person key of the name for an individual and the thing key for any other kind, and it is empty for a blank name. |
| Models.NameSortByKind | spectator/core/models.py:95-117 | An individual and a group of the same name get the same key exactly when the person key and the thing key of that name agree. |
| Models.NewCreatorSortsAsPerson | spectator/core/models.py:99-117 | A creator made with only a name is keyed by its person key. |
| SortKeyExamples.NameSortIndividualExample | spectator/core/models.py:95-97 | The individual "Douglas Adams" is keyed "adams, douglas". |
| SortKeyExamples.NameSortGroupExample | spectator/core/models.py:95-97 | The group "The Long Blondes" is keyed "long blondes, the". |
| Models.CreatorLabel | spectator/core/models.py:105-106 | A creator's label is its name, character for character. |
| Models.RoleLabel | spectator/core/models.py:46-50 | A role's label starts with the creator's label. It is exactly that label when the role name is empty. Otherwise the rest of the label is " (", the role name and ")", so the role name can be read back from it. |
| Models.RoleLabelInjective | spectator/core/models.py:46-50 | Two roles of one creator have the same label exactly when they have the same role name. |
| Pagination.SelectToken | spectator/views.py:51-52 | The URL keyword is used when given and non-empty, else the query parameter when given and non-empty. With neither, page 1 is meant. |
| Pagination.ParseInt | spectator/views.py:53-54 | A token is an integer exactly when, after stripping the white space `int()` ignores (ASCII space, tab, line feed, vertical tab, form feed, carriage return and non-ASCII Unicode white space, but not U+001C to U+001F) and one optional sign, it is between one and 4300 ASCII digits, the default limit of CPython's `int()`. Its value is the value of those digits, negated after a minus sign. |
| Pagination.ParseFormat | spectator/views.py:53-54 | The decimal text of every integer of at most 4300 digits, negative ones included, parses back to that integer. A longer text does not parse. |
| Pagination.ParseIntIgnoresPadding | spectator/views.py:54 | White space that `int()` ignores, around a token, does not change how it parses. |
| Pagination.ParseIntBlank | spectator/views.py:54 | A token made only of white space that `int()` ignores is not an integer. |
| Pagination.ParseIntSeparator | spectator/views.py:53-59 | An information separator U+001C to U+001F before a run of digits makes the token unreadable, although `str.isspace()` counts it as white space. |
| Pagination.ParseIntTooLong | spectator/views.py:53-59 | A run of more than 4300 digits is not an integer, whatever its value. |
| Pagination.ParseIntSignedTooLong | spectator/views.py:53-59 | A sign followed by more than 4300 digits is not an integer either. |
| Pagination.ParseIntLast | spectator/views.py:54-56 | "last" is not an integer, so it reaches the branch that handles it. |
| Pagination.ResolvePageNumber | spectator/views.py:52-59 | The default names page 1, an integer token names itself, "last" names the page count, and any other token is not found. |
| Pagination.PaginateQueryset | spectator/views.py:60-67 | A page is returned only when the paginator accepts its number. A rejected number is not found and carries that number. An unreadable token is not found and is the selected token, never "last". |
| Pagination.PaginateDefaultsToFirstPage | spectator/views.py:52 | With no page in the URL or the query, page 1 is requested. |
| Pagination.PaginateKwargFirst | spectator/views.py:52 | A non-empty page in the URL makes the query parameter irrelevant. |
| Pagination.PaginateEmptyKwarg | spectator/views.py:52 | An empty page in the URL is the same as none. |
| Pagination.PaginateInteger | spectator/views.py:53-59 | The text of an integer of at most 4300 digits requests exactly that page, zero and negative numbers included. The text of a longer one is not found as a page token, before the paginator is asked. |
| Pagination.PaginateLast | spectator/views.py:55-57 | "last" requests the page numbered by the page count. |
| Pagination.PaginateOtherToken | spectator/views.py:58-59 | Any other non-empty token that is not an integer is not found, before the paginator is asked. |
| Pagination.PaginateNoClamping | spectator/views.py:60-67 | Once a token resolves to a number, the page is returned exactly when the paginator accepts that number and only under that number. A rejected number, such as a page past the end, is not found under the same number instead of being replaced by the last page. |

## Left out

- `NaturalSortField` as a Django field is not modelled: its constructor defaults, `deconstruct`, and the database index. Nothing in the model passes through the ORM.
- `max_length=255` is not modelled: the database enforces it, and the transform never truncates.
- Strings.Lower: weaker than Python's `lower()` on non-ASCII letters, because Unicode case tables are outside the model.
- Numbers.DigitRun: counts only ASCII `0`-`9` as digits. Python's `\d` also matches other Unicode decimal digits, which are treated here as text.
- Pagination.ParseInt: does not accept the underscores between digits or the non-ASCII digits that Python's `int()` also accepts, and treats them as unreadable tokens. It applies CPython's default limit of 4300 digits (`MaxStrDigits`). Interpreters before that limit was introduced, or with `sys.set_int_max_str_digits(0)`, accept longer runs.
- Numbers.NaturalizeNumbers: reads digit runs of any length. Under CPython's default 4300-digit limit, `int()` at fields.py:176 raises on a longer run, so `pre_save` fails where the model still returns a key. The name columns hold at most 255 characters, so such a run needs a name longer than the column allows, and the key is kept total instead of threading an error through every key function.
- `spectator/paginator.py` and `DiggPaginator` are not part of this model. Which page numbers it accepts is the parameter `valid`, and its page count is the parameter `numPages`. Its page window, orphans and object slicing are left out, so the page size of 50 only appears as the constant `Pagination.PageSize`.
- The error messages of the not-found responses are not modelled, since they are translation-dependent text. The outcomes are the `NotFound` cases.
- The rest of the views, `get_absolute_url`, the `get_movies`-style queries, timestamps and role ordering are not modelled: they are database queries and templates.
