/** Aggregated annotation matches (named entities, taxa, times) and the
    rule every annotation setter of the search session applies to them:
    drop the entries whose covered text has at most two characters, then
    sort the rest by occurrence count, highest first. */
module Annotations {
  import opened JavaLang
  import opened Sequences

  /** One match of an annotation across the corpus: the covered text, the
      annotation's info (for named entities, its type such as a person or a
      location), how often it occurred and the document it came from. */
  datatype AnnotationSearchResult = AnnotationSearchResult(
    coveredText: string,
    info: string,
    occurrences: int32,
    documentId: int)

  /** The entries the setters keep: covered text longer than two characters. */
  predicate IsMeaningful(a: AnnotationSearchResult) {
    |a.coveredText| > 2
  }

  /** The sort key of `Comparator.comparingInt(getOccurrences).reversed()`:
      ascending order of the negated count is descending order of the count,
      with the same ties. */
  function DescendingOccurrences(a: AnnotationSearchResult): int {
    -(a.occurrences as int)
  }

  /** Ordered by occurrence count, highest first. */
  predicate ByOccurrencesDescending(xs: seq<AnnotationSearchResult>) {
    forall i, j :: 0 <= i < j < |xs| ==> xs[i].occurrences >= xs[j].occurrences
  }

  /** What every annotation list holds once a setter has stored it. */
  predicate IsNormalized(xs: seq<AnnotationSearchResult>) {
    (forall i :: 0 <= i < |xs| ==> IsMeaningful(xs[i])) && ByOccurrencesDescending(xs)
  }

  lemma SortedByDescendingKey(xs: seq<AnnotationSearchResult>)
    ensures SortedBy(xs, DescendingOccurrences) <==> ByOccurrencesDescending(xs)
  {
    if SortedBy(xs, DescendingOccurrences) {
      forall i, j | 0 <= i < j < |xs| ensures xs[i].occurrences >= xs[j].occurrences {
        assert DescendingOccurrences(xs[i]) <= DescendingOccurrences(xs[j]);
      }
    }
  }

  /** `sorted(Comparator.comparingInt(getOccurrences).reversed())`. */
  function SortByOccurrencesDescending(xs: seq<AnnotationSearchResult>): (r: seq<AnnotationSearchResult>)
    ensures multiset(r) == multiset(xs)
    ensures ByOccurrencesDescending(r)
  {
    var r := SortByKey(xs, DescendingOccurrences);
    SortByKeySorted(xs, DescendingOccurrences);
    SortedByDescendingKey(r);
    r
  }

  /** `filter(e -> e.getCoveredText().length() > 2)` followed by the sort:
      the stored list keeps exactly the meaningful input entries, each as
      often as it occurred in the input, highest occurrence count first. */
  function Normalize(xs: seq<AnnotationSearchResult>): (r: seq<AnnotationSearchResult>)
    ensures IsNormalized(r)
    ensures forall a :: multiset(r)[a] == if IsMeaningful(a) then multiset(xs)[a] else 0
  {
    var r := SortByOccurrencesDescending(Filter(xs, IsMeaningful));
    assert forall i :: 0 <= i < |r| ==> IsMeaningful(r[i]) by {
      forall i | 0 <= i < |r| ensures IsMeaningful(r[i]) {
        assert r[i] in multiset(r);
      }
    }
    r
  }

  /** Entries with equal occurrence counts keep the order they had in the
      input. */
  lemma NormalizeStable(xs: seq<AnnotationSearchResult>)
    ensures forall k :: WithKey(Normalize(xs), DescendingOccurrences, k)
                     == WithKey(Filter(xs, IsMeaningful), DescendingOccurrences, k)
  {
    forall k ensures WithKey(Normalize(xs), DescendingOccurrences, k)
                  == WithKey(Filter(xs, IsMeaningful), DescendingOccurrences, k)
    {
      SortByKeyStable(Filter(xs, IsMeaningful), DescendingOccurrences, k);
    }
  }

  lemma NormalizeOfNormalized(xs: seq<AnnotationSearchResult>)
    requires IsNormalized(xs)
    ensures Normalize(xs) == xs
  {
    FilterAllPass(xs, IsMeaningful);
    SortedByDescendingKey(xs);
    SortByKeyOfSorted(xs, DescendingOccurrences);
  }

  /** Applying the rule twice is the same as applying it once. */
  lemma NormalizeIdempotent(xs: seq<AnnotationSearchResult>)
    ensures Normalize(Normalize(xs)) == Normalize(xs)
  {
    NormalizeOfNormalized(Normalize(xs));
  }

  /** `filter(ne -> ne.getInfo().equals(type))`. */
  function WithInfo(xs: seq<AnnotationSearchResult>, info: string): (r: seq<AnnotationSearchResult>)
    ensures forall i :: 0 <= i < |r| ==> r[i].info == info
    ensures forall a :: multiset(r)[a] == if a.info == info then multiset(xs)[a] else 0
  {
    Filter(xs, (a: AnnotationSearchResult) => a.info == info)
  }

  /** `filter(a -> a.getDocumentId() == documentId)`. */
  function OfDocument(xs: seq<AnnotationSearchResult>, documentId: int): (r: seq<AnnotationSearchResult>)
    ensures forall i :: 0 <= i < |r| ==> r[i].documentId == documentId
    ensures forall a :: multiset(r)[a] == if a.documentId == documentId then multiset(xs)[a] else 0
  {
    Filter(xs, (a: AnnotationSearchResult) => a.documentId == documentId)
  }

  /** One document's entries, highest occurrence count first: the filter and
      re-sort `getAnnotationsByTypeAndDocumentId` applies to a list. */
  function OfDocumentByOccurrences(xs: seq<AnnotationSearchResult>, documentId: int): (r: seq<AnnotationSearchResult>)
    ensures ByOccurrencesDescending(r)
    ensures forall i :: 0 <= i < |r| ==> r[i].documentId == documentId && r[i] in xs
    ensures multiset(r) == multiset(OfDocument(xs, documentId))
  {
    var f := OfDocument(xs, documentId);
    var r := SortByOccurrencesDescending(f);
    forall i | 0 <= i < |r| ensures r[i].documentId == documentId && r[i] in xs {
      assert r[i] in multiset(r);
      assert multiset(f)[r[i]] > 0;
      assert r[i] in multiset(xs);
    }
    r
  }

  /** Narrowing a normalized list to one document keeps it normalized, so
      sorting the narrowed list again changes nothing. */
  lemma OfDocumentOfNormalized(xs: seq<AnnotationSearchResult>, documentId: int)
    requires IsNormalized(xs)
    ensures IsNormalized(OfDocument(xs, documentId))
    ensures SortByOccurrencesDescending(OfDocument(xs, documentId)) == OfDocument(xs, documentId)
  {
    var p := (a: AnnotationSearchResult) => a.documentId == documentId;
    var r := OfDocument(xs, documentId);
    SortedByDescendingKey(xs);
    FilterSorted(xs, p, DescendingOccurrences);
    SortedByDescendingKey(r);
    forall i | 0 <= i < |r| ensures IsMeaningful(r[i]) {
      assert r[i] in multiset(r);
    }
    SortByKeyOfSorted(r, DescendingOccurrences);
  }

  /** Narrowing a normalized list to one entity type keeps it normalized. */
  lemma WithInfoOfNormalized(xs: seq<AnnotationSearchResult>, info: string)
    requires IsNormalized(xs)
    ensures IsNormalized(WithInfo(xs, info))
  {
    var r := WithInfo(xs, info);
    SortedByDescendingKey(xs);
    FilterSorted(xs, (a: AnnotationSearchResult) => a.info == info, DescendingOccurrences);
    SortedByDescendingKey(r);
    forall i | 0 <= i < |r| ensures IsMeaningful(r[i]) {
      assert r[i] in multiset(r);
    }
  }

  /** A page cut from a normalized list is normalized. */
  lemma SkipLimitOfNormalized(xs: seq<AnnotationSearchResult>, skip: int, take: int)
    requires IsNormalized(xs)
    ensures SkipLimit(xs, skip, take).Ok? ==> IsNormalized(SkipLimit(xs, skip, take).value)
  {
    var r := SkipLimit(xs, skip, take);
    if r.Ok? {
      forall i, j | 0 <= i < j < |r.value|
        ensures r.value[i].occurrences >= r.value[j].occurrences
      {
        assert r.value[i] == xs[skip + i] && r.value[j] == xs[skip + j];
      }
    }
  }
}
