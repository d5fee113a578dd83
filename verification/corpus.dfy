/** An OCR'd corpus document and the text helpers it offers the search
    session: a snippet of its first words, control-character cleaning, its
    pages in page order and its display title. */
module Corpus {
  import opened JavaLang
  import opened Sequences
  import opened Text

  /** A page of a document; only its number takes part in the behaviour
      modelled here. */
  datatype Page = Page(id: int, pageNumber: int32)

  function PageNumber(p: Page): int {
    p.pageNumber as int
  }

  /** Title metadata from the Goethe University catalogue; only the title
      is read. */
  datatype GoetheTitleInfo = GoetheTitleInfo(title: Option<string>)

  /** The words the snippet keeps: the loop stops once `count == take`,
      and `count` is at least 1 when it is compared, so a `take` of zero or
      less never stops it. */
  function FirstWords(ws: seq<string>, take: int): (r: seq<string>)
    ensures take >= 1 ==> |r| == Min(take, |ws|)
    ensures take < 1 ==> |r| == |ws|
    ensures r == ws[..|r|]
  {
    if 1 <= take < |ws| then ws[..take] else ws
  }

  /** The snippet of a cleaned text, as a function of the text: the first
      words, joined by single spaces. Splitting it again gives back exactly
      those words. */
  function Snippet(text: string, take: int): (r: string)
    ensures Words(r) == FirstWords(Words(Trim(text)), take)
  {
    var ws := FirstWords(Words(Trim(text)), take);
    assert forall i :: 0 <= i < |ws| ==> IsWord(ws[i]);
    WordsOfJoinSpaced(ws);
    JoinSpaced(ws)
  }

  /** A snippet has no whitespace at either end and no two whitespace
      characters in a row. */
  lemma SnippetShape(text: string, take: int)
    ensures var r := Snippet(text, take);
      forall i :: 0 <= i < |r| && IsWhitespace(r[i]) ==>
        r[i] == ' ' && 0 < i < |r| - 1 && !IsWhitespace(r[i - 1]) && !IsWhitespace(r[i + 1])
  {
    var ws := FirstWords(Words(Trim(text)), take);
    assert forall i :: 0 <= i < |ws| ==> IsWord(ws[i]);
    JoinSpacedShape(ws);
  }

  /** The builder's text after the first `n` words of a cleaned text, once
      trimmed, is the snippet when `n` is the number of words it keeps. */
  lemma SnippetOfBuilder(text: string, take: int, n: nat)
    requires NoControl(text)
    requires n == |FirstWords(Words(Trim(text)), take)|
    ensures n <= |Words(Trim(text))|
    ensures Trim(AppendEachSpaced(Words(Trim(text))[..n])) == Snippet(text, take)
  {
    var t := Trim(text);
    var words := Words(t);
    var kept := FirstWords(words, take);
    assert kept == words[..n];
    forall j | 0 <= j < n ensures IsVisibleWord(kept[j]) {
      assert kept[j] == words[j];
    }
    TrimAppendEachSpaced(kept);
  }

  class Document {
    /** The database id the document inherits from its persistence base
        class. */
    const id: int
    const language: Option<string>
    const documentId: Option<string>
    var documentTitle: Option<string>
    var fullTextCleaned: Option<string>
    var pages: Option<seq<Page>>
    var goetheTitleInfo: Option<GoetheTitleInfo>

    /** The cleaned text is only ever written by `SetFullTextCleaned`, so it
        never holds a control character. */
    ghost predicate Valid()
      reads this
    {
      fullTextCleaned.Some? ==> NoControl(fullTextCleaned.value)
    }

    constructor (id: int, language: Option<string>, documentTitle: Option<string>, documentId: Option<string>)
      ensures Valid()
      ensures this.id == id && this.language == language
      ensures this.documentTitle == documentTitle && this.documentId == documentId
      ensures fullTextCleaned.None? && pages.None? && goetheTitleInfo.None?
    {
      this.id := id;
      this.language := language;
      this.documentTitle := documentTitle;
      this.documentId := documentId;
      fullTextCleaned := None;
      pages := None;
      goetheTitleInfo := None;
    }

    /** Stores the text with every control character removed. */
    method SetFullTextCleaned(text: string)
      modifies this`fullTextCleaned
      ensures Valid()
      ensures fullTextCleaned == Some(StripControl(text))
    {
      fullTextCleaned := Some(StripControl(text));
    }

    /** The first `take` whitespace-separated words of the cleaned text
        (all of them when `take < 1`), joined by single spaces; "" when the
        text is unset or empty. */
    method FullTextCleanedSnippet(take: int32) returns (r: string)
      requires Valid()
      ensures fullTextCleaned.None? ==> r == ""
      ensures fullTextCleaned.Some? ==> r == Snippet(fullTextCleaned.value, take)
    {
      if fullTextCleaned.None? || |fullTextCleaned.value| == 0 {
        assert fullTextCleaned.Some? ==> Trim(fullTextCleaned.value) == [];
        return "";
      }
      var text := fullTextCleaned.value;
      var words := Words(Trim(text));
      var result := "";
      var count := 0;
      var i := 0;
      while i < |words|
        invariant 0 <= i <= |words|
        invariant count == i
        invariant take < 1 || i < take
        invariant result == AppendEachSpaced(words[..i])
      {
        ghost var next := words[..i + 1];
        assert next[..i] == words[..i] && next[i] == words[i];
        result := result + words[i] + " ";
        assert result == AppendEachSpaced(next);
        count := count + 1;
        i := i + 1;
        if count == take {
          break;
        }
      }
      assert i == |FirstWords(words, take)|;
      SnippetOfBuilder(text, take, i);
      r := Trim(result);
    }

    method SetPages(pages: seq<Page>)
      modifies this`pages
      ensures this.pages == Some(pages)
    {
      this.pages := Some(pages);
    }

    /** A copy of the pages in ascending page number; pages with the same
        number keep their stored order, and the stored list is untouched.
        Unset pages throw. */
    function GetPages(): (r: Result<seq<Page>>)
      reads this
      ensures pages.None? ==> r == Throws(NullPointerException)
      ensures pages.Some? ==> r.Ok?
      ensures r.Ok? ==> SortedBy(r.value, PageNumber) && multiset(r.value) == multiset(pages.value)
      ensures r.Ok? ==> forall k :: WithKey(r.value, PageNumber, k) == WithKey(pages.value, PageNumber, k)
    {
      match pages
      case None => Throws(NullPointerException)
      case Some(ps) =>
        var sorted := SortByKey(ps, PageNumber);
        SortByKeySorted(ps, PageNumber);
        assert forall k :: WithKey(sorted, PageNumber, k) == WithKey(ps, PageNumber, k) by {
          forall k ensures WithKey(sorted, PageNumber, k) == WithKey(ps, PageNumber, k) {
            SortByKeyStable(ps, PageNumber, k);
          }
        }
        Ok(sorted)
    }

    method SetGoetheTitleInfo(info: Option<GoetheTitleInfo>)
      modifies this`goetheTitleInfo
      ensures goetheTitleInfo == info
    {
      goetheTitleInfo := info;
    }

    method SetDocumentTitle(title: Option<string>)
      modifies this`documentTitle
      ensures documentTitle == title
    {
      documentTitle := title;
    }

    /** The catalogue title when it is non-empty, otherwise the document's
        own title, and "(-)" when that is unset. Reading the catalogue title
        throws when the title info or its title is unset. */
    function GetDocumentTitle(): (r: Result<string>)
      reads this
      ensures r.Throws? <==> goetheTitleInfo.None? || goetheTitleInfo.value.title.None?
      ensures r.Throws? ==> r.exception == NullPointerException
      ensures r.Ok? && goetheTitleInfo.value.title.value != "" ==> r.value == goetheTitleInfo.value.title.value
      ensures r.Ok? && goetheTitleInfo.value.title.value == "" ==>
        r.value == (if documentTitle.Some? then documentTitle.value else "(-)")
      ensures r.Ok? && r.value == "" ==> documentTitle == Some("")
    {
      match goetheTitleInfo
      case None => Throws(NullPointerException)
      case Some(info) =>
        match info.title
        case None => Throws(NullPointerException)
        case Some(t) =>
          var title := if |t| == 0 then documentTitle else Some(t);
          Ok(if title.None? then "(-)" else title.value)
    }
  }
}
