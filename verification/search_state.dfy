/** The state of one user's in-flight search, held across web requests:
    pagination and ordering, the annotation result lists, the current page
    of documents with their hit counts, per-position rank and snippet
    tables, the primary-layer label and the keyword-in-context state. */
module Search {
  import opened JavaLang
  import opened Sequences
  import opened Text
  import opened Annotations
  import opened Corpus
  import opened Kwic

  /** The selectable axes of matching. */
  datatype SearchLayer =
    | Fulltext | NamedEntities | Taxon | Time | Embeddings | KeywordInContext | SemanticRoles

  datatype SearchOrder = Asc | Desc

  /** The column the document list is ordered by; only its default is
      named by the session. */
  datatype OrderByColumn = DocumentTitle | OtherColumn(name: string)

  /** The classification of the query's shape, carried by name. */
  datatype SearchType = SearchType(name: string)

  /** The `limit` the session passes when it wants every named entity of a
      type. */
  const ALL_NAMED_ENTITIES: int := 9999999

  /** The ceiling of `n / d`. For 32-bit operands this is also what
      `Math.ceil((double) n / d)` gives: the quotient's rounding error in a
      double is smaller than its distance to the nearest integer. */
  function CeilDiv(n: int, d: int): (q: int)
    requires d != 0
    ensures d > 0 ==> (q - 1) * d < n <= q * d
    ensures d < 0 ==> q * d <= n < (q - 1) * d
  {
    if d > 0 then
      var m := (-n) / d;
      assert -n == m * d + (-n) % d;
      -m
    else
      var m := n / (-d);
      assert n == m * (-d) + n % (-d);
      -m
  }

  /** When `n >= d` the page count fits in a Java `int`. */
  lemma CeilDivInRange(n: int32, d: int32)
    requires d != 0 && n >= d
    ensures INT_MIN <= CeilDiv(n, d) <= INT_MAX
  {
  }

  /** The position of the first document with the given id. */
  predicate IsFirstWithId(docs: seq<Document>, id: int, k: int) {
    0 <= k < |docs| && docs[k].id == id && forall j :: 0 <= j < k ==> docs[j].id != id
  }

  function FirstWithId(docs: seq<Document>, id: int): (k: Option<nat>)
    ensures k.Some? ==> IsFirstWithId(docs, id, k.value)
    ensures k.None? ==> forall j :: 0 <= j < |docs| ==> docs[j].id != id
  {
    if docs == [] then None
    else if docs[0].id == id then Some(0)
    else
      match FirstWithId(docs[1..], id)
      case None => None
      case Some(k) => Some(k + 1)
  }

  /** Each search token wrapped in square brackets. */
  function Bracketed(tokens: seq<string>): (r: seq<string>)
    ensures |r| == |tokens|
    ensures forall i :: 0 <= i < |r| ==>
      && |r[i]| == |tokens[i]| + 2 && r[i][0] == '[' && r[i][|r[i]| - 1] == ']'
      && r[i][1..|r[i]| - 1] == tokens[i]
  {
    seq(|tokens|, i requires 0 <= i < |tokens| => "[" + tokens[i] + "]")
  }

  /** The token string is the bracketed tokens separated by single spaces:
      for tokens without whitespace, splitting it on whitespace gives back
      exactly the bracketed tokens, in order. */
  lemma TokensStringWords(tokens: seq<string>)
    requires forall i :: 0 <= i < |tokens| ==> forall j :: 0 <= j < |tokens[i]| ==> !IsWhitespace(tokens[i][j])
    ensures Words(JoinSpaced(Bracketed(tokens))) == Bracketed(tokens)
  {
    var b := Bracketed(tokens);
    forall i | 0 <= i < |b| ensures IsWord(b[i]) {
      var t := tokens[i];
      assert b[i] == "[" + t + "]";
      forall j | 0 <= j < |b[i]| ensures !IsWhitespace(b[i][j]) {
        if 0 < j < |b[i]| - 1 {
          assert b[i][j] == t[j - 1];
        }
      }
    }
    WordsOfJoinSpaced(b);
  }

  class SearchState {
    /** The session id (a random UUID in the running system). */
    var searchId: int
    /** The creation time (the clock in the running system). */
    const created: int
    var cleanupNextCycle: bool

    var searchTokens: Option<seq<string>>
    var searchLayers: Option<seq<SearchLayer>>
    var searchType: SearchType
    var currentPage: int32
    var take: int32
    var totalHits: Option<int32>
    var order: SearchOrder
    var orderBy: OrderByColumn

    var foundNamedEntities: Option<seq<AnnotationSearchResult>>
    var foundTimes: Option<seq<AnnotationSearchResult>>
    var foundTaxons: Option<seq<AnnotationSearchResult>>
    var keywordInContextState: KeywordInContextState?
    var primarySearchLayer: Option<string>

    /** The current page of documents and, index-aligned, their hit counts. */
    var currentDocuments: Option<seq<Document>>
    var currentDocumentHits: Option<seq<int32>>
    /** Keyed by position in the current page, not by document id. */
    var documentIdxToSnippet: Option<map<int32, string>>
    var documentIdxToRank: Option<map<int32, real>>

    /** Every annotation list, once set, is filtered and sorted. */
    predicate Valid()
      reads this
    {
      && (foundNamedEntities.Some? ==> IsNormalized(foundNamedEntities.value))
      && (foundTimes.Some? ==> IsNormalized(foundTimes.value))
      && (foundTaxons.Some? ==> IsNormalized(foundTaxons.value))
    }

    /** A fresh session: the given search type, id and creation time, the
        first page of ten, ascending by document title, nothing else set. */
    constructor (searchType: SearchType, searchId: int, created: int)
      ensures Valid()
      ensures this.searchType == searchType && this.searchId == searchId && this.created == created
      ensures !cleanupNextCycle
      ensures currentPage == 1 && take == 10 && totalHits.None?
      ensures order == Asc && orderBy == DocumentTitle
      ensures searchTokens.None? && searchLayers.None?
      ensures foundNamedEntities.None? && foundTimes.None? && foundTaxons.None?
      ensures keywordInContextState == null && primarySearchLayer.None?
      ensures currentDocuments.None? && currentDocumentHits.None?
      ensures documentIdxToSnippet.None? && documentIdxToRank.None?
      ensures GetPrimarySearchLayer() == "Semantic Roles"
    {
      this.searchType := searchType;
      this.searchId := searchId;
      this.created := created;
      cleanupNextCycle := false;
      searchTokens := None;
      searchLayers := None;
      currentPage := 1;
      take := 10;
      totalHits := None;
      order := Asc;
      orderBy := DocumentTitle;
      foundNamedEntities := None;
      foundTimes := None;
      foundTaxons := None;
      keywordInContextState := null;
      primarySearchLayer := None;
      currentDocuments := None;
      currentDocumentHits := None;
      documentIdxToSnippet := None;
      documentIdxToRank := None;
    }

    /** The rank stored for position `idx` of the current page, or -1 when
        there is no table or no entry for it. */
    function GetPossibleRankOfDocumentIdx(idx: int32): (r: real)
      reads this
      ensures documentIdxToRank.Some? && idx in documentIdxToRank.value ==> r == documentIdxToRank.value[idx]
      ensures documentIdxToRank.None? || idx !in documentIdxToRank.value ==> r == -1.0
    {
      if documentIdxToRank.Some? && idx in documentIdxToRank.value then documentIdxToRank.value[idx] else -1.0
    }

    method SetDocumentIdxToRank(table: Option<map<int32, real>>)
      modifies this`documentIdxToRank
      ensures documentIdxToRank == table
    {
      documentIdxToRank := table;
    }

    /** The snippet stored for position `idx` of the current page, or none
        when there is no table or no entry for it. */
    function GetPossibleSnippetOfDocumentIdx(idx: int32): (r: Option<string>)
      reads this
      ensures documentIdxToSnippet.Some? && idx in documentIdxToSnippet.value ==> r == Some(documentIdxToSnippet.value[idx])
      ensures documentIdxToSnippet.None? || idx !in documentIdxToSnippet.value ==> r.None?
    {
      if documentIdxToSnippet.Some? && idx in documentIdxToSnippet.value then Some(documentIdxToSnippet.value[idx]) else None
    }

    method SetDocumentIdxToSnippet(table: Option<map<int32, string>>)
      modifies this`documentIdxToSnippet
      ensures documentIdxToSnippet == table
    {
      documentIdxToSnippet := table;
    }

    method SetCurrentDocumentHits(hits: Option<seq<int32>>)
      modifies this`currentDocumentHits
      ensures currentDocumentHits == hits
    {
      currentDocumentHits := hits;
    }

    method SetCleanupNextCycle(cleanup: bool)
      modifies this`cleanupNextCycle
      ensures cleanupNextCycle == cleanup
    {
      cleanupNextCycle := cleanup;
    }

    method SetKeywordInContextState(state: KeywordInContextState?)
      modifies this`keywordInContextState
      ensures keywordInContextState == state
    {
      keywordInContextState := state;
    }

    method SetPrimarySearchLayer(name: Option<string>)
      modifies this`primarySearchLayer
      ensures primarySearchLayer == name
    {
      primarySearchLayer := name;
    }

    method SetOrder(order: SearchOrder)
      modifies this`order
      ensures this.order == order
    {
      this.order := order;
    }

    method SetOrderBy(column: OrderByColumn)
      modifies this`orderBy
      ensures orderBy == column
    {
      orderBy := column;
    }

    method SetTotalHits(hits: Option<int32>)
      modifies this`totalHits
      ensures totalHits == hits
    {
      totalHits := hits;
    }

    method SetCurrentPage(page: int32)
      modifies this`currentPage
      ensures currentPage == page
    {
      currentPage := page;
    }

    method SetTake(take: int32)
      modifies this`take
      ensures this.take == take
    {
      this.take := take;
    }

    /** The number of pages: 1 when there are fewer hits than a page holds,
        otherwise the hits divided by the page size, rounded up. Unboxing an
        unset total throws. A page size of zero divides in floating point:
        a positive total gives infinity, which the cast clamps to the largest
        `int`, and a zero total gives NaN, which the cast turns into 0. */
    function GetTotalPages(): (r: Result<int32>)
      reads this
      ensures r.Throws? <==> totalHits.None?
      ensures r.Throws? ==> r.exception == NullPointerException
      ensures totalHits.Some? && totalHits.value < take ==> r == Ok(1)
      ensures totalHits.Some? && 0 < take <= totalHits.value ==>
        (r.value - 1) * take < totalHits.value <= r.value * take
      ensures totalHits.Some? && take < 0 && take <= totalHits.value ==>
        r.value * take <= totalHits.value < (r.value - 1) * take
      ensures totalHits.Some? && take == 0 && totalHits.value >= 0 ==>
        r.value == if totalHits.value == 0 then 0 else INT_MAX
      ensures totalHits.Some? && totalHits.value >= 0 && take > 0 ==> r.value >= 1
    {
      match totalHits
      case None => Throws(NullPointerException)
      case Some(hits) =>
        if hits < take then Ok(1)
        else if take == 0 then Ok(if hits == 0 then 0 else INT_MAX)
        else
          CeilDivInRange(hits, take);
          Ok(CeilDiv(hits, take))
    }

    /** The hit count of the first current document with the given id, or
        -1 when the documents or hits are unset, no document has the id, or
        the hits list is too short. */
    function GetSearchHitsOfDocument(documentId: int32): (r: int)
      reads this
      ensures currentDocuments.None? || currentDocumentHits.None? ==> r == -1
      ensures currentDocuments.Some? && (forall j :: 0 <= j < |currentDocuments.value| ==> currentDocuments.value[j].id != documentId) ==> r == -1
      ensures currentDocuments.Some? && currentDocumentHits.Some? ==>
        forall k :: IsFirstWithId(currentDocuments.value, documentId, k) ==>
          r == if k < |currentDocumentHits.value| then currentDocumentHits.value[k] as int else -1
    {
      if currentDocuments.None? || currentDocumentHits.None? then -1
      else
        match FirstWithId(currentDocuments.value, documentId)
        case None => -1
        case Some(k) =>
          if k < |currentDocumentHits.value| then currentDocumentHits.value[k] as int else -1
    }

    /** The named entities of one type, from position `skip`, at most `take`
        of them. */
    function GetNamedEntitiesByType(neType: string, skip: int32, take: int32): (r: Result<seq<AnnotationSearchResult>>)
      reads this
      ensures foundNamedEntities.None? ==> r == Throws(NullPointerException)
      ensures foundNamedEntities.Some? ==> (r.Ok? <==> skip >= 0 && take >= 0)
      ensures foundNamedEntities.Some? && r.Throws? ==> r.exception == IllegalArgumentException
      ensures r.Ok? ==> var ofType := WithInfo(foundNamedEntities.value, neType);
        && |r.value| == Min(take, Max(0, |ofType| - skip))
        && forall i :: 0 <= i < |r.value| ==> r.value[i] == ofType[skip + i]
      ensures r.Ok? ==> forall i :: 0 <= i < |r.value| ==> r.value[i].info == neType
      ensures r.Ok? && Valid() ==> IsNormalized(r.value)
    {
      match foundNamedEntities
      case None => Throws(NullPointerException)
      case Some(nes) =>
        var r := SkipLimit(WithInfo(nes, neType), skip, take);
        assert r.Ok? && Valid() ==> IsNormalized(r.value) by {
          if Valid() {
            WithInfoOfNormalized(nes, neType);
            SkipLimitOfNormalized(WithInfo(nes, neType), skip, take);
          }
        }
        r
    }

    /** The times from position `skip`, at most `take` of them. */
    function GetFoundTimes(skip: int32, take: int32): (r: Result<seq<AnnotationSearchResult>>)
      reads this
      ensures foundTimes.None? ==> r == Throws(NullPointerException)
      ensures foundTimes.Some? ==> (r.Ok? <==> skip >= 0 && take >= 0)
      ensures foundTimes.Some? && r.Throws? ==> r.exception == IllegalArgumentException
      ensures r.Ok? ==>
        && |r.value| == Min(take, Max(0, |foundTimes.value| - skip))
        && forall i :: 0 <= i < |r.value| ==> r.value[i] == foundTimes.value[skip + i]
      ensures r.Ok? && Valid() ==> IsNormalized(r.value)
    {
      match foundTimes
      case None => Throws(NullPointerException)
      case Some(ts) =>
        assert SkipLimit(ts, skip, take).Ok? && Valid() ==> IsNormalized(SkipLimit(ts, skip, take).value) by {
          if Valid() {
            SkipLimitOfNormalized(ts, skip, take);
          }
        }
        SkipLimit(ts, skip, take)
    }

    /** The taxa from position `skip`, at most `take` of them. */
    function GetFoundTaxons(skip: int32, take: int32): (r: Result<seq<AnnotationSearchResult>>)
      reads this
      ensures foundTaxons.None? ==> r == Throws(NullPointerException)
      ensures foundTaxons.Some? ==> (r.Ok? <==> skip >= 0 && take >= 0)
      ensures foundTaxons.Some? && r.Throws? ==> r.exception == IllegalArgumentException
      ensures r.Ok? ==>
        && |r.value| == Min(take, Max(0, |foundTaxons.value| - skip))
        && forall i :: 0 <= i < |r.value| ==> r.value[i] == foundTaxons.value[skip + i]
      ensures r.Ok? && Valid() ==> IsNormalized(r.value)
    {
      match foundTaxons
      case None => Throws(NullPointerException)
      case Some(ts) =>
        assert SkipLimit(ts, skip, take).Ok? && Valid() ==> IsNormalized(SkipLimit(ts, skip, take).value) by {
          if Valid() {
            SkipLimitOfNormalized(ts, skip, take);
          }
        }
        SkipLimit(ts, skip, take)
    }

    /** Stores the named entities, filtered and sorted. Handing it back
        what it stored changes nothing. */
    method SetFoundNamedEntities(entities: seq<AnnotationSearchResult>)
      requires Valid()
      modifies this`foundNamedEntities
      ensures Valid()
      ensures foundNamedEntities == Some(Normalize(entities))
      ensures old(foundNamedEntities) == Some(entities) ==> foundNamedEntities == old(foundNamedEntities)
    {
      if foundNamedEntities == Some(entities) {
        NormalizeOfNormalized(entities);
      }
      foundNamedEntities := Some(Normalize(entities));
    }

    /** Stores the times, filtered and sorted. Handing it back what it
        stored changes nothing. */
    method SetFoundTimes(times: seq<AnnotationSearchResult>)
      requires Valid()
      modifies this`foundTimes
      ensures Valid()
      ensures foundTimes == Some(Normalize(times))
      ensures old(foundTimes) == Some(times) ==> foundTimes == old(foundTimes)
    {
      if foundTimes == Some(times) {
        NormalizeOfNormalized(times);
      }
      foundTimes := Some(Normalize(times));
    }

    /** Stores the taxa, filtered and sorted. Handing it back what it
        stored changes nothing. */
    method SetFoundTaxons(taxons: seq<AnnotationSearchResult>)
      requires Valid()
      modifies this`foundTaxons
      ensures Valid()
      ensures foundTaxons == Some(Normalize(taxons))
      ensures old(foundTaxons) == Some(taxons) ==> foundTaxons == old(foundTaxons)
    {
      if foundTaxons == Some(taxons) {
        NormalizeOfNormalized(taxons);
      }
      foundTaxons := Some(Normalize(taxons));
    }

    /** The list an annotation kind tag selects: the named entities of the
        given type, the taxa, the times, or nothing for any other tag. */
    function AnnotationsOfKind(annotationType: string, neType: string): (r: Result<seq<AnnotationSearchResult>>)
      reads this
      ensures annotationType == "NamedEntities" ==> r == GetNamedEntitiesByType(neType, 0, ALL_NAMED_ENTITIES)
      ensures annotationType == "NamedEntities" && r.Ok? ==>
        && (forall a :: a in r.value ==> a.info == neType)
        && (|WithInfo(foundNamedEntities.value, neType)| <= ALL_NAMED_ENTITIES ==>
              r.value == WithInfo(foundNamedEntities.value, neType))
      ensures annotationType == "Taxons" ==>
        r == if foundTaxons.None? then Throws(NullPointerException) else Ok(foundTaxons.value)
      ensures annotationType == "Times" ==>
        r == if foundTimes.None? then Throws(NullPointerException) else Ok(foundTimes.value)
      ensures annotationType !in {"NamedEntities", "Taxons", "Times"} ==> r == Ok([])
    {
      if annotationType == "NamedEntities" then
        var r := GetNamedEntitiesByType(neType, 0, ALL_NAMED_ENTITIES);
        if r.Ok? then
          var ofType := WithInfo(foundNamedEntities.value, neType);
          assert |ofType| <= ALL_NAMED_ENTITIES ==> r.value == ofType by {
            if |ofType| <= ALL_NAMED_ENTITIES {
              assert |r.value| == |ofType|;
            }
          }
          r
        else r
      else if annotationType == "Taxons" then
        (if foundTaxons.None? then Throws(NullPointerException) else Ok(foundTaxons.value))
      else if annotationType == "Times" then
        (if foundTimes.None? then Throws(NullPointerException) else Ok(foundTimes.value))
      else Ok([])
    }

    /** The annotations of one kind that belong to one document, highest
        occurrence count first. Named entities are narrowed to `neType`;
        an unknown kind gives an empty list; an unset list throws. */
    function GetAnnotationsByTypeAndDocumentId(annotationType: string, documentId: int, neType: string): (r: Result<seq<AnnotationSearchResult>>)
      reads this
      ensures annotationType !in {"NamedEntities", "Taxons", "Times"} ==> r == Ok([])
      ensures annotationType == "NamedEntities" ==> (r.Ok? <==> foundNamedEntities.Some?)
      ensures annotationType == "Taxons" ==> (r.Ok? <==> foundTaxons.Some?)
      ensures annotationType == "Times" ==> (r.Ok? <==> foundTimes.Some?)
      ensures r.Throws? ==> r.exception == NullPointerException
      ensures r.Ok? ==> ByOccurrencesDescending(r.value)
      ensures r.Ok? ==> forall i :: 0 <= i < |r.value| ==> r.value[i].documentId == documentId
      ensures r.Ok? && annotationType == "NamedEntities" ==>
        && (forall i :: 0 <= i < |r.value| ==> r.value[i].info == neType)
        && (|WithInfo(foundNamedEntities.value, neType)| <= ALL_NAMED_ENTITIES ==>
              multiset(r.value) == multiset(OfDocument(WithInfo(foundNamedEntities.value, neType), documentId)))
      ensures r.Ok? && annotationType == "Taxons" ==>
        multiset(r.value) == multiset(OfDocument(foundTaxons.value, documentId))
      ensures r.Ok? && annotationType == "Times" ==>
        multiset(r.value) == multiset(OfDocument(foundTimes.value, documentId))
    {
      match AnnotationsOfKind(annotationType, neType)
      case Throws(e) => Throws(e)
      case Ok(xs) => Ok(OfDocumentByOccurrences(xs, documentId))
    }

    /** In a session whose lists were stored by the setters, the taxa and
        times of a document come back in their stored order: the re-sort
        changes nothing. */
    lemma AnnotationsOfDocumentKeepStoredOrder(annotationType: string, documentId: int, neType: string)
      requires Valid()
      requires annotationType == "Taxons" || annotationType == "Times"
      ensures var r := GetAnnotationsByTypeAndDocumentId(annotationType, documentId, neType);
        r.Ok? ==> r.value == OfDocument(
          if annotationType == "Taxons" then foundTaxons.value else foundTimes.value, documentId)
    {
      var r := GetAnnotationsByTypeAndDocumentId(annotationType, documentId, neType);
      if r.Ok? {
        var xs := if annotationType == "Taxons" then foundTaxons.value else foundTimes.value;
        OfDocumentOfNormalized(xs, documentId);
      }
    }

    /** In a session whose lists were stored by the setters, a document's
        named entities of one type come back in their stored order, as long
        as there are no more entities of that type than the limit the
        lookup passes. */
    lemma NamedEntitiesOfDocumentKeepStoredOrder(documentId: int, neType: string)
      requires Valid()
      requires foundNamedEntities.Some? ==> |WithInfo(foundNamedEntities.value, neType)| <= ALL_NAMED_ENTITIES
      ensures var r := GetAnnotationsByTypeAndDocumentId("NamedEntities", documentId, neType);
        r.Ok? ==> r.value == OfDocument(WithInfo(foundNamedEntities.value, neType), documentId)
    {
      var r := GetAnnotationsByTypeAndDocumentId("NamedEntities", documentId, neType);
      if r.Ok? {
        var ofType := WithInfo(foundNamedEntities.value, neType);
        WithInfoOfNormalized(foundNamedEntities.value, neType);
        OfDocumentOfNormalized(ofType, documentId);
      }
    }

    /** Stores the new page of documents; when the keyword-in-context layer
        is selected, creates the keyword-in-context state if there is none
        and has it recalculate once over the new documents and the current
        tokens. Otherwise that state is left alone. */
    method SetCurrentDocuments(documents: seq<Document>)
      modifies this`currentDocuments, this`keywordInContextState, keywordInContextState
      ensures currentDocuments == Some(documents)
      ensures KwicSelected() ==>
        && keywordInContextState != null
        && (old(keywordInContextState) == null ==> fresh(keywordInContextState))
        && (old(keywordInContextState) != null ==> keywordInContextState == old(keywordInContextState))
        && keywordInContextState.recalculations == old(KwicLog()) + [Recalculation(documents, searchTokens)]
      ensures !KwicSelected() ==>
        && keywordInContextState == old(keywordInContextState)
        && (keywordInContextState != null ==> unchanged(keywordInContextState))
    {
      currentDocuments := Some(documents);
      if searchLayers.Some? && KeywordInContext in searchLayers.value {
        if keywordInContextState == null {
          keywordInContextState := new KeywordInContextState();
        }
        keywordInContextState.Recalculate(documents, searchTokens);
      }
    }

    /** The keyword-in-context layer is among the selected layers. */
    predicate KwicSelected()
      reads this
    {
      searchLayers.Some? && KeywordInContext in searchLayers.value
    }

    /** The recalculations of the current keyword-in-context state. */
    ghost function KwicLog(): seq<Recalculation>
      reads this, keywordInContextState
    {
      if keywordInContextState == null then [] else keywordInContextState.recalculations
    }

    method SetSearchTokens(tokens: Option<seq<string>>)
      modifies this`searchTokens
      ensures searchTokens == tokens
    {
      searchTokens := tokens;
    }

    /** The tokens, each in square brackets, separated by single spaces;
        "" when the tokens are unset. */
    function GetSearchTokensAsString(): (r: string)
      reads this
      ensures searchTokens.None? ==> r == ""
      ensures searchTokens.Some? ==> r == JoinSpaced(Bracketed(searchTokens.value))
      ensures searchTokens.Some? && |searchTokens.value| > 0 ==> r[0] == '['
    {
      match searchTokens
      case None => ""
      case Some(ts) =>
        var b := Bracketed(ts);
        if |b| > 0 then
          JoinSpacedStartsWith(b, '[');
          JoinSpaced(b)
        else JoinSpaced(b)
    }

    /** Replaces the selected layers and relabels the primary layer:
        "Fulltext" exactly when full text is selected, "Named-Entities"
        otherwise, the empty selection included. */
    method SetSearchLayers(layers: seq<SearchLayer>)
      modifies this`searchLayers, this`primarySearchLayer
      ensures searchLayers == Some(layers)
      ensures primarySearchLayer == Some(if Fulltext in layers then "Fulltext" else "Named-Entities")
      ensures GetPrimarySearchLayer() == "Fulltext" <==> Fulltext in layers
    {
      searchLayers := Some(layers);
      if Fulltext in layers {
        primarySearchLayer := Some("Fulltext");
      } else {
        primarySearchLayer := Some("Named-Entities");
      }
    }

    /** The primary-layer label, "Semantic Roles" while none was set. */
    function GetPrimarySearchLayer(): (r: string)
      reads this
      ensures primarySearchLayer.None? ==> r == "Semantic Roles"
      ensures primarySearchLayer.Some? ==> r == primarySearchLayer.value
    {
      if primarySearchLayer.None? then "Semantic Roles" else primarySearchLayer.value
    }
  }

  /** The page counts the session promises for the usual page size of ten. */
  lemma TotalPagesExamples(s: SearchState)
    requires s.take == 10
    ensures s.totalHits == Some(25) ==> s.GetTotalPages() == Ok(3)
    ensures s.totalHits == Some(10) ==> s.GetTotalPages() == Ok(1)
    ensures s.totalHits == Some(5) ==> s.GetTotalPages() == Ok(1)
    ensures s.totalHits == Some(0) ==> s.GetTotalPages() == Ok(1)
  {
  }
}
