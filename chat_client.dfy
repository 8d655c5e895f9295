/**
  What the two versions of the chat widget share: the engine they build from the dataset
  (title boost 2, prefix matching, fuzzy distance 1), the AND search of a query, the topK cut,
  and the replies a query can get.
*/
module ChatClient {
  import opened Util
  import opened InvertedIndex
  import opened Query
  import opened MiniSearch
  import opened ClientThrottle

  /** searchOptions.boost.title */
  const TitleBoost: real := 2.0
  /** searchOptions: { prefix: true, fuzzy: 1 } */
  const SiteOptions: MatchOptions := MatchOptions(Some(true), Some(FuzzyDistance(1)))

  /** What handleQuery adds to the chat. */
  datatype Reply =
    | Silent                    // returned without a message
    | Refused(reason: string)   // the throttle's reason
    | NoMatches                 // "No matches found. ..."
    | TopMatches(hits: seq<Hit>) // the "Top matches:" list

  /**
    The reply to an admitted query q: the first k hits of `mini.search(q, {combineWith:'AND'})`,
    or the no-match message when there are none.
  */
  ghost predicate Answers(e: EngineState, w: Weight, q: string, k: int, reply: Reply) {
    exists all :: SearchResult(e, w, q, Combine("AND"), SiteOptions, all)
                  && (var hits := Take(all, k); if hits == [] then reply == NoMatches else reply == TopMatches(hits))
  }

  /**
    With the clamped count, a list shows between one and ShownCount(topK) (at most ten) hits,
    the best-ranked ones, and the no-match message appears exactly when search found nothing.
  */
  lemma AnswerBounds(e: EngineState, w: Weight, q: string, topK: int, reply: Reply)
    requires Answers(e, w, q, ShownCount(topK), reply)
    ensures reply.NoMatches? || reply.TopMatches?
    ensures reply.TopMatches? ==> 1 <= |reply.hits| <= ShownCount(topK) <= 10
    ensures exists all :: SearchResult(e, w, q, Combine("AND"), SiteOptions, all)
                          && (reply.NoMatches? <==> all == [])
                          && (reply.TopMatches? ==> |reply.hits| <= |all| && reply.hits == all[..|reply.hits|])
  {
    var all :| SearchResult(e, w, q, Combine("AND"), SiteOptions, all)
               && (var hits := Take(all, ShownCount(topK)); if hits == [] then reply == NoMatches else reply == TopMatches(hits));
    assert SearchResult(e, w, q, Combine("AND"), SiteOptions, all)
           && (reply.NoMatches? <==> all == [])
           && (reply.TopMatches? ==> |reply.hits| <= |all| && reply.hits == all[..|reply.hits|]);
  }

  /** The site's engine settings, as both loadDataset functions create the engine. */
  predicate SiteEngine(e: Engine)
    reads e
  {
    e.boostTitle == TitleBoost && e.searchOptions == SiteOptions
  }

  /** `new MiniSearch({...}); mini.addAll(docs)` */
  method NewIndex(docs: seq<Doc>) returns (e: Engine)
    ensures fresh(e) && e.Valid() && SiteEngine(e) && e.docs == docs
  {
    e := new Engine(TitleBoost, SiteOptions);
    e.AddAll(docs);
  }

  /** `mini.search(q, {combineWith:'AND'}).slice(0, k)`, turned into the reply. */
  method Ask(mini: Engine, q: string, k: int, w: Weight) returns (reply: Reply)
    requires mini.Valid() && SiteEngine(mini)
    ensures Answers(mini.State(), w, q, k, reply)
  {
    var all := mini.Search(q, "AND", MatchOptions(None, None), w);
    assert Merge(SiteOptions, MatchOptions(None, None)) == SiteOptions;
    var hits := Take(all, k);
    if hits == [] {
      reply := NoMatches;
    } else {
      reply := TopMatches(hits);
    }
  }
}
