/** The keyword-in-context state the search session keeps. Its window
    computation lives outside the modelled code, so the model keeps only
    what the session can observe of it: the calls made to `Recalculate`. */
module Kwic {
  import opened JavaLang
  import Corpus

  /** One call of `recalculate(documents, searchTokens)`. */
  datatype Recalculation = Recalculation(documents: seq<Corpus.Document>, tokens: Option<seq<string>>)

  class KeywordInContextState {
    /** Every recalculation asked of this state, oldest first. */
    ghost var recalculations: seq<Recalculation>

    constructor ()
      ensures recalculations == []
    {
      recalculations := [];
    }

    /** Recomputes the context windows of `documents` for `tokens`. */
    method Recalculate(documents: seq<Corpus.Document>, tokens: Option<seq<string>>)
      modifies this
      ensures recalculations == old(recalculations) + [Recalculation(documents, tokens)]
    {
      recalculations := recalculations + [Recalculation(documents, tokens)];
    }
  }
}
