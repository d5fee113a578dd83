# Search session state and document text helpers

This project models the search-session engine of the UCE/BIOfid portal. It has two parts:

- `SearchState`. This holds one user's search while it is in flight across web requests. It keeps pagination (`currentPage`, `take`, `totalHits`) and ordering. It keeps three annotation result lists: named entities, times and taxa. Every setter filters each list to covered texts longer than two characters and sorts it by occurrence count, highest first. It also keeps the current page of documents with their hit counts, position-keyed rank and snippet tables, the primary-layer label, and the keyword-in-context state. It recalculates that state on every call to `setCurrentDocuments` while the keyword-in-context layer is selected.
- The text helpers of the corpus `Document`:
  - cleaning control characters out of the stored text;
  - the snippet of the first words;
  - the pages in page-number order;
  - the display title with its catalogue-title fallback.

Files and modules:

- `lang.dfy` (`JavaLang`): Java `null` is `Option`, a thrown `NullPointerException` or `IllegalArgumentException` is `Result.Throws`, and `int` is `int32`.
- `sequences.dfy` (`Sequences`): the stream steps `filter`, the stable `sorted` by an integer key, and `skip`/`limit`.
- `text.dfy` (`Text`): `\p{Cntrl}`, `\s`, `String.trim`, `split("\\s+")` and `String.join(" ", …)`.
- `annotations.dfy` (`Annotations`): `AnnotationSearchResult` and the filter-and-sort rule the setters apply.
- `corpus.dfy` (`Corpus`): the `Document` class.
- `kwic.dfy` (`Kwic`): the keyword-in-context state. It is seen only through the calls made to `recalculate`.
- `search_state.dfy` (`Search`): the `SearchState` class.

The model keeps the imperative shape of the Java:

- Both classes are Dafny classes. Each setter's `modifies` clause names exactly the fields it writes: one field for most setters, the label as well for `SetSearchLayers`, and the keyword-in-context reference and object as well for `SetCurrentDocuments`.
- The snippet is a method with the counting loop of `getFullTextCleanedSnippet`. It is proved equal to a functional description: the first `take` words joined by single spaces.
- Java's `Comparator.comparingInt(...).reversed()` sort is modelled as a stable ascending sort on the negated count. It is proved sorted, a permutation and stable.

## Model

| member | source | states |
|---|---|---|
| Search.SearchState.constructor | uce.portal/uce.search/src/main/java/org/texttechnologylab/SearchState.java:29-65 | A new session has the given type, id and creation time. It starts on page 1 with page size 10, ordered ascending by document title, and everything else is unset. The primary-layer label then reads "Semantic Roles". |
| Search.SearchState.GetPossibleRankOfDocumentIdx | uce.portal/uce.search/src/main/java/org/texttechnologylab/SearchState.java:71-75 | Returns the stored rank for the position when the table exists and has the key, and the sentinel -1 otherwise. |
| Search.SearchState.SetDocumentIdxToRank | uce.portal/uce.search/src/main/java/org/texttechnologylab/SearchState.java:77-79 | Replaces the rank table and nothing else. |
| Search.SearchState.SetCleanupNextCycle | uce.portal/uce.search/src/main/java/org/texttechnologylab/SearchState.java:93-95 | Sets the cleanup mark and nothing else. |
| Search.SearchState.GetPossibleSnippetOfDocumentIdx | uce.portal/uce.search/src/main/java/org/texttechnologylab/SearchState.java:97-101 | Returns the stored snippet for the position when the table exists and has the key, and null (None) otherwise. |
| Search.SearchState.SetDocumentIdxToSnippet | uce.portal/uce.search/src/main/java/org/texttechnologylab/SearchState.java:107-109 | Replaces the snippet table and nothing else. |
| Search.SearchState.SetCurrentDocumentHits | uce.portal/uce.search/src/main/java/org/texttechnologylab/SearchState.java:115-117 | Replaces the hit-count list and nothing else. |
| Search.SearchState.SetKeywordInContextState | uce.portal/uce.search/src/main/java/org/texttechnologylab/SearchState.java:131-133 | Replaces the keyword-in-context state reference and nothing else. |
| Search.SearchState.SetPrimarySearchLayer | uce.portal/uce.search/src/main/java/org/texttechnologylab/SearchState.java:135-137 | Replaces the primary-layer label and nothing else. |
| Search.SearchState.SetOrder | uce.portal/uce.search/src/main/java/org/texttechnologylab/SearchState.java:175-177 | Replaces the sort direction and nothing else. |
| Search.SearchState.SetOrderBy | uce.portal/uce.search/src/main/java/org/texttechnologylab/SearchState.java:183-185 | Replaces the sort column and nothing else. |
| Search.SearchState.GetTotalPages | uce.portal/uce.search/src/main/java/org/texttechnologylab/SearchState.java:187-190 | Throws NPE exactly when the total is unset. Gives 1 page when there are fewer hits than a page holds. Otherwise gives the ceiling of hits divided by page size, characterised by its bounds for both signs of the page size, and at least 1 page for a positive page size. A page size of 0 gives `(int)` of infinity (the largest int) or `(int)` of NaN (0). |
| Search.CeilDiv | uce.portal/uce.search/src/main/java/org/texttechnologylab/SearchState.java:189 | The result q is the rounded-up quotient: (q-1)·d < n ≤ q·d for d > 0, and the mirror bounds for d < 0. |
| Search.CeilDivInRange | uce.portal/uce.search/src/main/java/org/texttechnologylab/SearchState.java:188-189 | Once n ≥ d, the rounded-up quotient of two 32-bit ints fits in a 32-bit int, so the `(int)` cast loses nothing. |
| Search.TotalPagesExamples | uce.portal/uce.search/src/main/java/org/texttechnologylab/SearchState.java:187-190 | With the default page size of 10, totals of 25, 10, 5 and 0 give 3, 1, 1 and 1 pages. |
| Search.SearchState.SetTotalHits | uce.portal/uce.search/src/main/java/org/texttechnologylab/SearchState.java:196-198 | Replaces the total and nothing else. |
| Search.FirstWithId | uce.portal/uce.search/src/main/java/org/texttechnologylab/SearchState.java:202 | Returns the position of the first document with the id, or none when no document has the id. |
| Search.SearchState.GetSearchHitsOfDocument | uce.portal/uce.search/src/main/java/org/texttechnologylab/SearchState.java:200-208 | Returns the hit count at the position of the first current document with the id. The result is -1 when documents or hits are unset, when no document has the id, or when the hits list is too short (each failure the `catch` swallows). |
| Search.SearchState.AnnotationsOfKind | uce.portal/uce.search/src/main/java/org/texttechnologylab/SearchState.java:214-225 | Selects by tag: "NamedEntities" selects the named entities of the type through the 9999999 limit (all of them, when there are at most that many, and none of another type), "Taxons" the taxa and "Times" the times. An unset list throws NPE and any other tag gives the empty list. |
| Search.SearchState.GetAnnotationsByTypeAndDocumentId | uce.portal/uce.search/src/main/java/org/texttechnologylab/SearchState.java:213-229 | An unknown tag gives an empty list. For a known tag the result is defined exactly when that list is set, and NPE is thrown otherwise. The result is sorted by occurrences, highest first, and holds only entries of the given document. For taxa and times it is a permutation of that list's entries for the document. Named entities are narrowed to the type, and, when there are no more of that type than the 9999999 limit, the result is a permutation of that type's entries for the document. |
| Search.SearchState.NamedEntitiesOfDocumentKeepStoredOrder | uce.portal/uce.search/src/main/java/org/texttechnologylab/SearchState.java:213-229 | In a session whose lists were stored by the setters, and with no more named entities of the type than the limit, a document's named entities of that type come back in their stored order. |
| Search.SearchState.AnnotationsOfDocumentKeepStoredOrder | uce.portal/uce.search/src/main/java/org/texttechnologylab/SearchState.java:226-227 | In a session whose lists were stored by the setters, the re-sort changes nothing. A document's taxa or times come back in their stored order. |
| Search.SearchState.GetNamedEntitiesByType | uce.portal/uce.search/src/main/java/org/texttechnologylab/SearchState.java:231-233 | Throws NPE when the list is unset and, for a set list, throws exactly IllegalArgumentException and exactly on a negative skip or take. Otherwise it returns the run of at most `take` entries of the type that starts at `skip`, and in a valid session this run is still sorted and filtered. |
| Search.SearchState.SetFoundNamedEntities | uce.portal/uce.search/src/main/java/org/texttechnologylab/SearchState.java:239-242 | Stores the filtered and sorted list and keeps the session invariant. Handing back the stored list changes nothing. |
| Search.SearchState.GetFoundTimes | uce.portal/uce.search/src/main/java/org/texttechnologylab/SearchState.java:244-246 | Same as the paging of named entities, over the times list with no type filter. |
| Search.SearchState.SetFoundTimes | uce.portal/uce.search/src/main/java/org/texttechnologylab/SearchState.java:248-250 | Stores the filtered and sorted times and keeps the invariant. Storing the stored list again changes nothing. |
| Search.SearchState.GetFoundTaxons | uce.portal/uce.search/src/main/java/org/texttechnologylab/SearchState.java:252-254 | Same as the paging of named entities, over the taxa list with no type filter. |
| Search.SearchState.SetFoundTaxons | uce.portal/uce.search/src/main/java/org/texttechnologylab/SearchState.java:256-258 | Stores the filtered and sorted taxa and keeps the invariant. Storing the stored list again changes nothing. |
| Search.SearchState.SetCurrentDocuments | uce.portal/uce.search/src/main/java/org/texttechnologylab/SearchState.java:260-267 | Stores the documents. When the keyword-in-context layer is selected, it creates the state if it is missing (a fresh object) or keeps the existing one, and appends exactly one recalculation with the new documents and current tokens. Otherwise the state reference and its contents are unchanged. |
| Kwic.KeywordInContextState.constructor | uce.portal/uce.search/src/main/java/org/texttechnologylab/SearchState.java:264 | A new keyword-in-context state has had no recalculation. |
| Kwic.KeywordInContextState.Recalculate | uce.portal/uce.search/src/main/java/org/texttechnologylab/SearchState.java:265 | Records one recalculation over the given documents and tokens. |
| Search.SearchState.GetSearchTokensAsString | uce.portal/uce.search/src/main/java/org/texttechnologylab/SearchState.java:293-296 | Returns "" for unset tokens. Otherwise it joins the bracketed tokens with single spaces, and for a non-empty token list the result starts with "[". |
| Search.Bracketed | uce.portal/uce.search/src/main/java/org/texttechnologylab/SearchState.java:295 | Each output token is its input token wrapped in one '[' in front and one ']' behind, in the same position. |
| Search.TokensStringWords | uce.portal/uce.search/src/main/java/org/texttechnologylab/SearchState.java:295 | For tokens without whitespace, splitting the token string on whitespace gives back exactly the bracketed tokens, in order. |
| Search.SearchState.SetSearchTokens | uce.portal/uce.search/src/main/java/org/texttechnologylab/SearchState.java:298-300 | Replaces the tokens and nothing else. |
| Search.SearchState.SetSearchLayers | uce.portal/uce.search/src/main/java/org/texttechnologylab/SearchState.java:306-310 | Stores the layers. The label becomes "Fulltext" exactly when full text is among them, and "Named-Entities" otherwise, including for the empty list. |
| Search.SearchState.GetPrimarySearchLayer | uce.portal/uce.search/src/main/java/org/texttechnologylab/SearchState.java:318-320 | Returns the stored label, or "Semantic Roles" while none is set. |
| Search.SearchState.SetCurrentPage | uce.portal/uce.search/src/main/java/org/texttechnologylab/SearchState.java:326-328 | Replaces the page number and nothing else. |
| Search.SearchState.SetTake | uce.portal/uce.search/src/main/java/org/texttechnologylab/SearchState.java:334-336 | Replaces the page size and nothing else. |
| Annotations.SortByOccurrencesDescending | uce.portal/uce.search/src/main/java/org/texttechnologylab/SearchState.java:227 | The sorted list is a permutation of its input, ordered by occurrences, highest first. |
| Annotations.SortedByDescendingKey | uce.portal/uce.search/src/main/java/org/texttechnologylab/SearchState.java:241 | Ascending order of the negated count is exactly descending order of the count, in both directions. |
| Annotations.Normalize | uce.portal/uce.search/src/main/java/org/texttechnologylab/SearchState.java:239-258 | The stored list holds exactly the input entries with covered text longer than two characters, each as often as in the input, ordered by occurrences, highest first. |
| Annotations.NormalizeStable | uce.portal/uce.search/src/main/java/org/texttechnologylab/SearchState.java:241 | Entries with equal occurrence counts keep their input order. |
| Annotations.NormalizeOfNormalized | uce.portal/uce.search/src/main/java/org/texttechnologylab/SearchState.java:249 | A filtered and sorted list passes through the setters' rule unchanged. |
| Annotations.NormalizeIdempotent | uce.portal/uce.search/src/main/java/org/texttechnologylab/SearchState.java:257 | Applying the setters' rule twice is the same as applying it once. |
| Annotations.WithInfo | uce.portal/uce.search/src/main/java/org/texttechnologylab/SearchState.java:232 | Keeps exactly the entries whose info equals the type, each as often as in the input. |
| Annotations.WithInfoOfNormalized | uce.portal/uce.search/src/main/java/org/texttechnologylab/SearchState.java:232 | Narrowing a filtered and sorted list to one type keeps it filtered and sorted. |
| Annotations.OfDocument | uce.portal/uce.search/src/main/java/org/texttechnologylab/SearchState.java:226 | Keeps exactly the entries of the document, each as often as in the input. |
| Annotations.OfDocumentByOccurrences | uce.portal/uce.search/src/main/java/org/texttechnologylab/SearchState.java:226-227 | Returns one document's entries sorted by occurrences, highest first. Every element comes from the input list, and the result is a permutation of the input's entries for that document. |
| Annotations.OfDocumentOfNormalized | uce.portal/uce.search/src/main/java/org/texttechnologylab/SearchState.java:226-227 | Narrowing a filtered and sorted list to one document keeps it filtered and sorted, so sorting it again returns it unchanged. |
| Annotations.SkipLimitOfNormalized | uce.portal/uce.search/src/main/java/org/texttechnologylab/SearchState.java:245 | A page cut from a filtered and sorted list is filtered and sorted. |
| Sequences.Filter | uce.portal/uce.search/src/main/java/org/texttechnologylab/SearchState.java:241 | Keeps exactly the elements that satisfy the predicate, each as often as in the input. |
| Sequences.SortByKey | uce.portal/uce.search/src/main/java/org/texttechnologylab/SearchState.java:241 | The result is a permutation of its input, with the same length. |
| Sequences.Insert | uce.portal/uce.search/src/main/java/org/texttechnologylab/SearchState.java:241 | Inserting adds exactly one occurrence of the element. |
| Sequences.InsertKeyBound | uce.portal/uce.search/src/main/java/org/texttechnologylab/SearchState.java:241 | A lower bound on the inserted element and on the sequence bounds every key of the insertion. |
| Sequences.InsertSorted | uce.portal/uce.search/src/main/java/org/texttechnologylab/SearchState.java:241 | Inserting into a sorted sequence keeps it sorted. |
| Sequences.SortByKeySorted | uce.portal/uce.search/src/main/java/org/texttechnologylab/SearchState.java:241 | The sort's result is in ascending key order. |
| Sequences.WithKeyAppend | uce.portal/uce.search/src/main/java/org/texttechnologylab/SearchState.java:241 | The elements with one key, taken from a concatenation, are those from each part, in order. |
| Sequences.InsertStable | uce.portal/uce.search/src/main/java/org/texttechnologylab/SearchState.java:241 | Insertion places the element ahead of the elements with an equal key. |
| Sequences.SortByKeyStable | uce.portal/uce.search/src/main/java/org/texttechnologylab/SearchState.java:241 | The sort is stable: for every key, the elements with that key keep their input order. |
| Sequences.SortByKeyOfSorted | uce.portal/uce.search/src/main/java/org/texttechnologylab/SearchState.java:241 | Sorting an already sorted sequence returns it unchanged. |
| Sequences.FilterKeyBound | uce.portal/uce.search/src/main/java/org/texttechnologylab/SearchState.java:226 | A lower bound on the keys of a sequence bounds the keys of whatever a filter keeps. |
| Sequences.FilterSorted | uce.portal/uce.search/src/main/java/org/texttechnologylab/SearchState.java:226 | Filtering a sorted sequence leaves it sorted. |
| Sequences.FilterAllPass | uce.portal/uce.search/src/main/java/org/texttechnologylab/SearchState.java:241 | Filtering a sequence whose elements all pass returns it unchanged. |
| Sequences.SkipLimit | uce.portal/uce.search/src/main/java/org/texttechnologylab/SearchState.java:245 | Throws IllegalArgumentException exactly when a count is negative. Otherwise it returns min(take, max(0, n - skip)) elements, the element at position i being the input's element at skip + i. |
| Sequences.SkipLimitConsecutive | uce.portal/uce.search/src/main/java/org/texttechnologylab/SearchState.java:244-246 | Two consecutive pages, concatenated, are the page that spans both. |
| Corpus.Document.constructor | biofid.portal/biofid.common/src/main/java/org/texttechnologylab/models/corpus/Document.java:29-33 | A new document stores its language, title and document id, and has no text, pages or catalogue info. |
| Corpus.Document.SetFullTextCleaned | biofid.portal/biofid.common/src/main/java/org/texttechnologylab/models/corpus/Document.java:39-43 | Stores the text with its control characters removed, so the stored text has none. |
| Text.StripControl | biofid.portal/biofid.common/src/main/java/org/texttechnologylab/models/corpus/Document.java:41 | The result has no control character, is no longer than the input, and keeps every other character of the input. |
| Text.StripControlCounts | biofid.portal/biofid.common/src/main/java/org/texttechnologylab/models/corpus/Document.java:41 | Each non-control character occurs in the result exactly as often as in the input, and no control character occurs. With the distribution over concatenation this fixes the result: the input with its control characters dropped, in order. |
| Text.StripControlAppend | biofid.portal/biofid.common/src/main/java/org/texttechnologylab/models/corpus/Document.java:41 | Stripping distributes over concatenation. |
| Text.StripControlOfClean | biofid.portal/biofid.common/src/main/java/org/texttechnologylab/models/corpus/Document.java:41 | A text without control characters is left unchanged, so cleaning is idempotent. |
| Text.LeadingTrimmable | biofid.portal/biofid.common/src/main/java/org/texttechnologylab/models/corpus/Document.java:101 | Counts the leading run of characters up to U+0020: all of them are trimmable, and the one after the run is not. |
| Text.TrailingTrimmable | biofid.portal/biofid.common/src/main/java/org/texttechnologylab/models/corpus/Document.java:101 | Counts the trailing run of characters up to U+0020: all of them are trimmable, and the one before the run is not. |
| Text.Trim | biofid.portal/biofid.common/src/main/java/org/texttechnologylab/models/corpus/Document.java:101 | The trimmed text is empty exactly when every character is up to U+0020. Otherwise it is exactly the input between its leading and trailing runs of such characters. It has no such character at either end, and keeps a text free of control characters free of them. |
| Text.WordEnd | biofid.portal/biofid.common/src/main/java/org/texttechnologylab/models/corpus/Document.java:101 | Returns the length of the leading run of non-whitespace characters. |
| Text.Words | biofid.portal/biofid.common/src/main/java/org/texttechnologylab/models/corpus/Document.java:101 | Every split word is non-empty and has no whitespace, and is free of control characters when the text is. |
| Text.WordEndOfWord | biofid.portal/biofid.common/src/main/java/org/texttechnologylab/models/corpus/Document.java:101 | A word followed by whitespace or the end ends where the word ends. |
| Text.WordEndPrefix | biofid.portal/biofid.common/src/main/java/org/texttechnologylab/models/corpus/Document.java:101 | A word that ends inside a text ends at the same place whatever is appended to the text. |
| Text.WordsOfWord | biofid.portal/biofid.common/src/main/java/org/texttechnologylab/models/corpus/Document.java:101 | A non-empty text without whitespace splits into exactly itself. |
| Text.WordsSplitAt | biofid.portal/biofid.common/src/main/java/org/texttechnologylab/models/corpus/Document.java:101 | Splitting a text at any whitespace character gives the words before it followed by the words after it. With `WordsOfWord` and the empty text this fixes the split on every input: the maximal runs of non-whitespace characters, in order, as `split("\\s+")` gives for a trimmed text. |
| Text.WordsOfJoinSpaced | biofid.portal/biofid.common/src/main/java/org/texttechnologylab/models/corpus/Document.java:101-112 | Splitting words joined by single spaces gives back the words. |
| Text.JoinSpaced | uce.portal/uce.search/src/main/java/org/texttechnologylab/SearchState.java:295 | Joining no words gives the empty string, and otherwise the result begins with the first word. |
| Text.AppendEachSpaced | biofid.portal/biofid.common/src/main/java/org/texttechnologylab/models/corpus/Document.java:103-111 | The builder's text is empty exactly when no word was appended, and otherwise ends with a space. |
| Text.JoinSpacedShape | biofid.portal/biofid.common/src/main/java/org/texttechnologylab/models/corpus/Document.java:112 | Joined words have no whitespace at either end and no two whitespace characters in a row, and every whitespace character is a single space. |
| Text.JoinSpacedStartsWith | uce.portal/uce.search/src/main/java/org/texttechnologylab/SearchState.java:295 | A joined list starts with the first character of its first word. |
| Text.JoinSpacedSnoc | biofid.portal/biofid.common/src/main/java/org/texttechnologylab/models/corpus/Document.java:105-106 | Joining one more word appends a space and that word. |
| Text.AppendEachSpacedIsJoin | biofid.portal/biofid.common/src/main/java/org/texttechnologylab/models/corpus/Document.java:103-111 | The builder's text after the loop is the words joined by single spaces, plus one trailing space. |
| Text.JoinSpacedEnds | biofid.portal/biofid.common/src/main/java/org/texttechnologylab/models/corpus/Document.java:112 | Joined visible words start and end with a character that `trim` keeps. |
| Text.TrimAppendEachSpaced | biofid.portal/biofid.common/src/main/java/org/texttechnologylab/models/corpus/Document.java:112 | Trimming the builder's text removes exactly the trailing space. |
| Corpus.FirstWords | biofid.portal/biofid.common/src/main/java/org/texttechnologylab/models/corpus/Document.java:104-110 | Returns a prefix of the words: `min(take, n)` of them for a take of at least 1, and all of them otherwise, since `count == take` never holds. |
| Corpus.SnippetOfBuilder | biofid.portal/biofid.common/src/main/java/org/texttechnologylab/models/corpus/Document.java:101-112 | For a cleaned text, trimming the builder's text after the kept words gives exactly the snippet, the first words joined by single spaces. |
| Corpus.Snippet | biofid.portal/biofid.common/src/main/java/org/texttechnologylab/models/corpus/Document.java:101-112 | Splitting a snippet again gives exactly the first `take` words of the trimmed text. |
| Corpus.SnippetShape | biofid.portal/biofid.common/src/main/java/org/texttechnologylab/models/corpus/Document.java:101-112 | A snippet has no whitespace at either end and only single spaces inside. |
| Corpus.Document.FullTextCleanedSnippet | biofid.portal/biofid.common/src/main/java/org/texttechnologylab/models/corpus/Document.java:97-113 | Returns "" for an unset text. Otherwise the loop's result equals the first `take` words of the trimmed, split text, joined by single spaces. |
| Corpus.Document.SetPages | biofid.portal/biofid.common/src/main/java/org/texttechnologylab/models/corpus/Document.java:119-121 | Replaces the pages and nothing else. |
| Corpus.Document.GetPages | biofid.portal/biofid.common/src/main/java/org/texttechnologylab/models/corpus/Document.java:123-125 | Throws NPE for unset pages. Otherwise it returns the pages in ascending page number, as a permutation of the stored list, with pages of equal number in stored order. The stored list is not changed. |
| Corpus.Document.SetGoetheTitleInfo | biofid.portal/biofid.common/src/main/java/org/texttechnologylab/models/corpus/Document.java:49-51 | Replaces the catalogue info and nothing else. |
| Corpus.Document.SetDocumentTitle | biofid.portal/biofid.common/src/main/java/org/texttechnologylab/models/corpus/Document.java:136-138 | Replaces the title and nothing else. |
| Corpus.Document.GetDocumentTitle | biofid.portal/biofid.common/src/main/java/org/texttechnologylab/models/corpus/Document.java:131-134 | Throws NPE exactly when the catalogue info or its title is unset. A non-empty catalogue title wins. Otherwise the result is the document's own title, or "(-)" when that is unset, and the result is empty only when the own title is the empty string. |

## Left out

- The session id is a random UUID and the creation time is read from the clock. Both become constructor parameters (`searchId`, `created` as integers).
- Ranks are Java `float`. They are modelled as `real`, and the -1 sentinel as `-1.0`. Float rounding is not modelled.
- Null arguments and null elements are not modelled. Nullable fields, and the null the getters return, are modelled with `Option`. In Java the unmodelled cases behave differently from one another:
  - a null list passed to an annotation setter or to `setSearchLayers`, a null `annotationType`, and a null entry in an annotation list handed to a setter throw NullPointerException;
  - a null `neType` or `type` matches no entry, so the result is an empty list;
  - a null search token is written as `[null]`;
  - a null value in the snippet table is returned as null, a null value in the rank table throws NullPointerException when `getPossibleRankOfDocumentIdx` unboxes it to `float`, and a null position is looked up like any other key;
  - a null document ahead of the first document with the id makes `getSearchHitsOfDocument` catch the exception and return -1; a null after that document is never looked at, so the real hit count is returned.
- Search.SearchState.SetCurrentPage, SetTake: take `int32` rather than a nullable `Integer`. A null page size would make `getTotalPages` throw, and that case is not modelled.
- Search.SearchState.GetSearchHitsOfDocument: a null element of the hits list, which Java's `catch` turns into -1, is not modelled.
- String lengths are counted in characters, the same as Java's UTF-16 `length()` only for text in the Basic Multilingual Plane.
- `Document.getId()` comes from the persistence base class, which is not part of this model. It is a constant `id` fixed at construction. The `==` in `getSearchHitsOfDocument` and in `getAnnotationsByTypeAndDocumentId` is taken to compare numbers. `AnnotationSearchResult` is not part of this model, so whether its `getDocumentId()` returns a boxed value is not known.
- The model stores values, while Java shares mutable references. `getFoundNamedEntities`, `getFoundTimes` and `getFoundTaxons` return the stored `ArrayList` itself, and `setDocumentIdxToRank`, `setDocumentIdxToSnippet`, `setCurrentDocuments`, `setSearchTokens` and `setSearchLayers` keep the caller's list or map. A later change by a caller therefore shows through the lookups, through the list handed to `recalculate`, and can leave the primary-layer label stale. Search.SearchState.Valid (the annotation lists are filtered and sorted) holds in Java only while no caller mutates a list those getters returned; the setters' requires and the paging and `KeepStoredOrder` contracts rely on it.
- The storage-only members of both classes are not modelled, because they carry no behaviour beyond storing a value and handing back the same reference (see the line on shared references above):
  - `searchPhrase`, `uceMetadataFilters`, `corpusId`, `corpusConfig` and `foundDocumentChunkEmbeddings`;
  - the `searchType` and `searchId` setters;
  - the plain getters;
  - the document's `fullText`, sentences, named entities, times, taxa and Wikipedia links.
- How the keyword-in-context windows are computed is not part of this model. `KeywordInContextState` keeps only a log of the `recalculate` calls.
- `SearchState` imports the uce.common `Document` (`org.texttechnologylab.models.corpus.Document`), which is not part of this model; the BIOfid `Document` modelled in `corpus.dfy` stands for it. The session reads only a document's id, which both classes inherit from the persistence base class.
- `SearchLayer`, `OrderByColumn`, `SearchType`, `Page`, `GoetheTitleInfo` and `AnnotationSearchResult` are not part of this model. They are modelled only with the constructors and fields the core reads.
- Two behaviours a reader might expect are absent:
  - `setSearchLayers` accepts an empty list and labels it "Named-Entities". It does not fail.
  - `setCurrentDocuments` triggers a recalculation on every call while the keyword-in-context layer is selected, whether or not the document list changed.
- A negative page size is not rejected. `getTotalPages` computes with it, and the model does the same.
