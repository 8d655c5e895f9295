/**
  What search retrieves, stated over the documents given to addAll rather than over the index:
  under AND a document comes back exactly when, for every query term, it contains that term or a
  term the options let it stand for; under any other mode, when it does so for some query term.
*/
module Retrieval {
  import opened Util
  import opened Tokenizer
  import opened InvertedIndex
  import opened Query

  /** The engine state addAll(docs) leaves behind. */
  function Built(docs: seq<Doc>, boostTitle: real): EngineState {
    EngineState(BuildIndex(docs), DocMapOf(docs), |docs|, boostTitle)
  }

  /** Some document with this id contains qt itself or a term qt is expanded to. */
  ghost predicate Covers(docs: seq<Doc>, o: MatchOptions, id: int, qt: string) {
    exists k :: 0 <= k < |docs| && docs[k].id == id && Mentions(o, qt, DocTokens(docs[k]))
  }

  /** One of the tokens is qt or a term qt is expanded to. */
  ghost predicate Mentions(o: MatchOptions, qt: string, toks: seq<string>) {
    exists v :: v in toks && (v == qt || Accepts(o, qt, v))
  }

  lemma {:induction false} ExpandAt(ix: Inverted, o: MatchOptions, qTerms: seq<string>, k: nat)
    requires k < |qTerms|
    ensures Expand(ix, o, qTerms)[k] == Variants(ix, o, qTerms[k])
  {
    var init := qTerms[..|qTerms| - 1];
    if k < |init| {
      ExpandAt(ix, o, init, k);
    }
  }

  lemma SeenThenCovers(docs: seq<Doc>, boostTitle: real, o: MatchOptions, qt: string, id: int)
    requires id in Seen(Built(docs, boostTitle), Variants(BuildIndex(docs), o, qt))
    ensures Covers(docs, o, id, qt)
  {
    var s := Built(docs, boostTitle);
    var vs := Variants(s.ix, o, qt);
    BuildIndexWellFormed(docs);
    SeenMembers(s, vs, id);
    var v :| v in vs && v in s.ix.entries && id in s.ix.entries[v].postings;
    VariantsMembers(s.ix, o, qt, v);
    IndexContents(docs, v, id);
    var k :| 0 <= k < |docs| && docs[k].id == id && v in DocTokens(docs[k]);
    assert Mentions(o, qt, DocTokens(docs[k]));
  }

  lemma CoversThenSeen(docs: seq<Doc>, boostTitle: real, o: MatchOptions, qt: string, id: int)
    requires Covers(docs, o, id, qt)
    ensures id in Seen(Built(docs, boostTitle), Variants(BuildIndex(docs), o, qt))
  {
    var s := Built(docs, boostTitle);
    var vs := Variants(s.ix, o, qt);
    BuildIndexWellFormed(docs);
    var k :| 0 <= k < |docs| && docs[k].id == id && Mentions(o, qt, DocTokens(docs[k]));
    var v :| v in DocTokens(docs[k]) && (v == qt || Accepts(o, qt, v));
    OccurringTermIndexed(docs, v, k);
    IndexContents(docs, v, id);
    VariantsMembers(s.ix, o, qt, v);
    SeenMembers(s, vs, id);
  }

  /** A query term hits a document exactly when the document covers it. */
  lemma SeenCovers(docs: seq<Doc>, boostTitle: real, o: MatchOptions, qt: string, id: int)
    ensures id in Seen(Built(docs, boostTitle), Variants(BuildIndex(docs), o, qt)) <==> Covers(docs, o, id, qt)
  {
    if id in Seen(Built(docs, boostTitle), Variants(BuildIndex(docs), o, qt)) {
      SeenThenCovers(docs, boostTitle, o, qt, id);
    }
    if Covers(docs, o, id, qt) {
      CoversThenSeen(docs, boostTitle, o, qt, id);
    }
  }

  /**
    AND: a document is selected exactly when it covers every distinct query term.
    Any other mode: exactly when it covers at least one.
  */
  lemma SelectedCovers(docs: seq<Doc>, boostTitle: real, w: Weight, query: string, combine: string, o: MatchOptions, id: int)
    requires Uniq(Tokenize(query)) != []
    ensures var qTerms := Uniq(Tokenize(query));
            var t := TallyOf(Built(docs, boostTitle), w, Expand(BuildIndex(docs), o, qTerms));
            && (combine == "AND" ==>
                 (id in Selected(t, combine, |qTerms|) <==> forall q :: 0 <= q < |qTerms| ==> Covers(docs, o, id, qTerms[q])))
            && (combine != "AND" ==>
                 (id in Selected(t, combine, |qTerms|) <==> exists q :: 0 <= q < |qTerms| && Covers(docs, o, id, qTerms[q])))
  {
    var qTerms := Uniq(Tokenize(query));
    var s := Built(docs, boostTitle);
    var exp := Expand(s.ix, o, qTerms);
    SelectionMembers(s, w, exp, combine, id);
    forall q | 0 <= q < |qTerms|
      ensures id in Seen(s, exp[q]) <==> Covers(docs, o, id, qTerms[q])
    {
      ExpandAt(s.ix, o, qTerms, q);
      SeenCovers(docs, boostTitle, o, qTerms[q], id);
    }
  }

  /** The same, for the list search returns: a document comes back exactly when it is selected. */
  lemma ResultsCover(docs: seq<Doc>, boostTitle: real, w: Weight, query: string, o: MatchOptions, results: seq<Hit>, id: int)
    requires SearchResult(Built(docs, boostTitle), w, query, "AND", o, results)
    ensures id in Ids(results) <==>
              Uniq(Tokenize(query)) != [] && forall q :: 0 <= q < |Uniq(Tokenize(query))| ==> Covers(docs, o, id, Uniq(Tokenize(query))[q])
  {
    if Uniq(Tokenize(query)) != [] {
      SelectedCovers(docs, boostTitle, w, query, "AND", o, id);
    }
  }
}
