/**
  The search engine object inlined into the page: addAll rebuilds the index and the stored-field
  table in place, search expands the query terms, accumulates scores and hits, filters and sorts.
*/
module MiniSearch {
  import opened Util
  import opened Tokenizer
  import opened InvertedIndex
  import opened Query
  import EditDistance

  class Engine {
    /** searchOptions.boost.title (0 when absent). */
    const boostTitle: real
    /** The prefix and fuzzy keys of searchOptions. */
    const searchOptions: MatchOptions

    var docs: seq<Doc>
    var n: nat
    var index: Inverted
    var docMap: map<int, Doc>

    /** The index and docMap are the ones addAll builds from `docs`, and N counts them. */
    ghost predicate Valid()
      reads this
    {
      index == BuildIndex(docs) && docMap == DocMapOf(docs) && n == |docs|
    }

    /** What search reads. */
    function State(): EngineState
      reads this
    {
      EngineState(index, docMap, n, boostTitle)
    }

    /** new MiniSearch({searchOptions}): no documents yet. */
    constructor (boostTitle: real, searchOptions: MatchOptions)
      ensures Valid() && docs == []
      ensures this.boostTitle == boostTitle && this.searchOptions == searchOptions
    {
      this.boostTitle := boostTitle;
      this.searchOptions := searchOptions;
      docs := [];
      n := 0;
      index := Empty;
      docMap := map[];
    }

    /** addAll: replaces the documents and rebuilds the index and docMap from scratch. */
    method AddAll(newDocs: seq<Doc>)
      modifies this
      ensures Valid() && docs == newDocs
    {
      docs := newDocs;
      n := |newDocs|;
      index := Empty;
      docMap := map[];
      for k := 0 to |newDocs|
        invariant index == BuildIndex(newDocs[..k]) && docMap == DocMapOf(newDocs[..k])
        invariant docs == newDocs && n == |newDocs|
      {
        var d := newDocs[k];
        assert newDocs[..k + 1][..k] == newDocs[..k] && newDocs[..k + 1][k] == d;
        docMap := docMap[d.id := d];
        var counts, order := CountTerms(DocTokens(d));
        index := AddDocTerms(index, order, d.id, counts);
      }
      assert newDocs[..|newDocs|] == newDocs;
    }

    /** The loop over Object.entries(counts) for one document. */
    static method AddDocTerms(ix: Inverted, order: seq<string>, id: int, counts: map<string, nat>) returns (r: Inverted)
      requires forall t :: t in order ==> t in counts
      ensures r == AddTerms(ix, order, id, counts)
    {
      r := ix;
      for j := 0 to |order|
        invariant r == AddTerms(ix, order[..j], id, counts)
      {
        assert order[..j + 1][..j] == order[..j];
        r := AddPosting(r, order[j], id, counts[order[j]]);
      }
      assert order[..|order|] == order;
    }

    /** `counts`, and its keys in insertion order. */
    static method CountTerms(toks: seq<string>) returns (counts: map<string, nat>, order: seq<string>)
      ensures counts == Counts(toks) && order == Uniq(toks)
    {
      counts, order := map[], [];
      for i := 0 to |toks|
        invariant counts == Counts(toks[..i]) && order == Uniq(toks[..i])
      {
        var t := toks[i];
        CountsStep(toks, i);
        UniqStep(toks, i);
        if t in counts {
          counts := counts[t := counts[t] + 1];
        } else {
          counts := counts[t := 1];
          order := order + [t];
        }
      }
      assert toks[..|toks|] == toks;
    }

    /** One entry of Object.entries(counts): create the entry if missing, count a new posting, add tf. */
    static method AddPosting(ix: Inverted, t: string, id: int, tf: nat) returns (r: Inverted)
      ensures r == AddTerm(ix, t, id, tf)
    {
      var terms := ix.terms;
      var e := Entry(0, map[]);
      if t in ix.entries {
        e := ix.entries[t];
      } else {
        terms := terms + [t];
      }
      var e' := e;
      if !(id in e.postings && e.postings[id] != 0) {
        e' := Entry(e.df + 1, e.postings[id := 0]);
      }
      e' := Entry(e'.df, e'.postings[id := e'.postings[id] + tf]);
      assert e' == Bump(e, id, tf) by {
        if !(id in e.postings && e.postings[id] != 0) {
          assert e.postings[id := 0][id := 0 + tf] == e.postings[id := tf];
        }
      }
      r := Inverted(ix.entries[t := e'], terms);
    }

    /** _matchTerms: the variant list of every query term. */
    method MatchTerms(qTerms: seq<string>, o: MatchOptions) returns (expanded: seq<seq<string>>)
      ensures expanded == Expand(index, o, qTerms)
    {
      expanded := [];
      for i := 0 to |qTerms|
        invariant expanded == Expand(index, o, qTerms[..i])
      {
        assert qTerms[..i + 1][..i] == qTerms[..i];
        var found := VariantsOf(qTerms[i], o);
        expanded := expanded + [found];
      }
      assert qTerms[..|qTerms|] == qTerms;
    }

    /** One pass of _matchTerms' outer loop: the query term if indexed, then the matching terms. */
    method VariantsOf(qt: string, o: MatchOptions) returns (variants: seq<string>)
      ensures variants == Variants(index, o, qt)
    {
      var found := if qt in index.entries then [qt] else [];
      for j := 0 to |index.terms|
        invariant found == (if qt in index.entries then [qt] else []) + Expansions(index.terms[..j], o, qt)
      {
        var term := index.terms[j];
        ExpansionsStep(index.terms, o, qt, j);
        var accepted := Accepted(o, qt, term);
        if accepted {
          found := found + [term];
        }
      }
      assert index.terms[..|index.terms|] == index.terms;
      variants := if found == [] then [qt] else found;
    }

    /** The test on one key: not qt itself, then a prefix match, else (lengths within 2) a fuzzy match. */
    static method Accepted(o: MatchOptions, qt: string, term: string) returns (accepted: bool)
      ensures accepted == (term != qt && Accepts(o, qt, term))
    {
      var allowF := o.fuzzy.Some? && (o.fuzzy.value.FuzzyOn? || o.fuzzy.value.FuzzyDistance?);
      var maxF := if o.fuzzy.Some? && o.fuzzy.value.FuzzyDistance? then o.fuzzy.value.max else 1;
      var allowP := o.prefix == Some(true);
      accepted := false;
      if term != qt {
        if allowP && StartsWith(term, qt) {
          accepted := true;
        } else if allowF && -2 <= |term| - |qt| <= 2 {
          var dist := EditDistance.Levenshtein(term, qt);
          accepted := dist <= maxF;
        }
      }
    }

    /**
      search(query, {combineWith, prefix, fuzzy}): the hits for the query, ranked; `w` is the term
      weight (idf).
    */
    method Search(query: string, combineWith: string, opts: MatchOptions, w: Weight) returns (results: seq<Hit>)
      requires Valid()
      ensures SearchResult(State(), w, query, Combine(combineWith), Merge(searchOptions, opts), results)
    {
      var combine := Combine(combineWith);
      var qTerms := Uniq(Tokenize(query));
      if |qTerms| == 0 {
        return [];
      }
      var exp := MatchTerms(qTerms, Merge(searchOptions, opts));
      var scores, hits := Accumulate(exp, w);
      var chosen := Select(scores, hits, combine, |qTerms|);
      var ranked := Rank(scores, chosen);
      SearchIndexStored();
      PresentRanked(State(), w, query, combine, Merge(searchOptions, opts), ranked);
      results := Present(State(), scores, ranked);
    }

    /** The loop over the variant lists: the scores and hits of every document. */
    method Accumulate(exp: seq<seq<string>>, w: Weight) returns (scores: map<int, real>, hits: map<int, nat>)
      ensures Tally(scores, hits) == TallyOf(State(), w, exp)
    {
      scores, hits := map[], map[];
      for k := 0 to |exp|
        invariant Tally(scores, hits) == TallyOf(State(), w, exp[..k])
      {
        assert exp[..k + 1][..k] == exp[..k] && exp[..k + 1][k] == exp[k];
        var seen;
        scores, seen := ScoreTermStep(exp[k], w, scores);
        hits := CountHits(hits, seen);
      }
      assert exp[..|exp|] == exp;
    }

    /** One query term: every variant's postings, and the set of documents they reach. */
    method ScoreTermStep(variants: seq<string>, w: Weight, scores: map<int, real>)
      returns (scores': map<int, real>, seen: set<int>)
      ensures scores' == ScoreTerm(State(), w, scores, variants)
      ensures seen == Seen(State(), variants)
    {
      scores', seen := scores, {};
      for j := 0 to |variants|
        invariant scores' == ScoreTerm(State(), w, scores, variants[..j])
        invariant seen == Seen(State(), variants[..j])
      {
        assert variants[..j + 1][..j] == variants[..j] && variants[..j + 1][j] == variants[j];
        scores', seen := ScoreVariantStep(variants[j], w, scores', seen);
      }
      assert variants[..|variants|] == variants;
    }

    /** One variant of the inner loop: add its postings' contributions and remember the ids in `seen`. */
    method ScoreVariantStep(v: string, w: Weight, scores: map<int, real>, seen: set<int>)
      returns (scores': map<int, real>, seen': set<int>)
      ensures scores' == ScoreVariant(State(), w, scores, v)
      ensures seen' == seen + (if v in index.entries then index.entries[v].postings.Keys else {})
    {
      scores', seen' := scores, seen;
      if v !in index.entries {
        return;
      }
      var e := index.entries[v];
      var wt := w(n, e.df);
      var todo := e.postings.Keys;
      ghost var done: set<int> := {};
      while todo != {}
        invariant todo + done == e.postings.Keys && todo !! done
        invariant scores' == ScorePostings(State(), w, scores, v, done)
        invariant seen' == seen + done
        decreases todo
      {
        ghost var some := Member(todo);
        var id :| id in todo;
        var b := 1.0;
        if id in docMap && docMap[id].title != "" && Contains(Lower(docMap[id].title), v) {
          b := b + boostTitle;
        }
        var add := ((e.postings[id] as real) * wt) * b;
        assert add == Contribution(State(), w, v, id);
        ScorePostingsStep(State(), w, scores, v, done, id);
        scores' := scores'[id := GetScore(scores', id) + add];
        seen' := seen' + {id};
        todo := todo - {id};
        done := done + {id};
      }
    }

    /** `for (id of seen) hits[id] = (hits[id] || 0) + 1` */
    static method CountHits(hits: map<int, nat>, seen: set<int>) returns (hits': map<int, nat>)
      ensures hits' == AddHits(hits, seen)
    {
      hits' := hits;
      var todo := seen;
      ghost var done: set<int> := {};
      while todo != {}
        invariant todo + done == seen && todo !! done
        invariant hits' == AddHits(hits, done)
        decreases todo
      {
        ghost var some := Member(todo);
        var id :| id in todo;
        AddHitsStep(hits, done, id);
        hits' := hits'[id := GetHits(hits', id) + 1];
        todo := todo - {id};
        done := done + {id};
      }
    }

    /** Object.keys(scores), filtered by `(hits[id] || 0) >= needed` under AND. */
    static method Select(scores: map<int, real>, hits: map<int, nat>, combine: string, needed: nat) returns (chosen: set<int>)
      ensures chosen == Selected(Tally(scores, hits), combine, needed)
    {
      if combine != "AND" {
        return scores.Keys;
      }
      chosen := {};
      var todo := scores.Keys;
      while todo != {}
        invariant todo <= scores.Keys
        invariant chosen == set id | id in scores.Keys - todo && GetHits(hits, id) >= needed
        decreases todo
      {
        ghost var some := Member(todo);
        var id :| id in todo;
        if GetHits(hits, id) >= needed {
          chosen := chosen + {id};
        }
        todo := todo - {id};
      }
    }

    /** docs.sort((a, b) => scores[b] - scores[a]) on ids listed in ascending order: a ranked list of `chosen`. */
    static method Rank(scores: map<int, real>, chosen: set<int>) returns (ranked: seq<int>)
      requires chosen <= scores.Keys
      ensures Ranked(scores, ranked) && |ranked| == |chosen|
      ensures forall id :: id in ranked <==> id in chosen
    {
      ranked := [];
      var todo := chosen;
      while todo != {}
        invariant todo <= chosen
        invariant Ranked(scores, ranked) && |ranked| + |todo| == |chosen|
        invariant forall id :: id in ranked <==> id in chosen - todo
        decreases todo
      {
        ghost var some := Member(todo);
        var id :| id in todo;
        InsertRanked(scores, id, ranked);
        ranked := Insert(scores, id, ranked);
        todo := todo - {id};
      }
    }

    /** Every posting of the index addAll built has stored fields under its own id. */
    lemma SearchIndexStored()
      requires Valid()
      ensures Stored(State())
    {
      forall v, id | v in index.entries && id in index.entries[v].postings
        ensures id in docMap && docMap[id].id == id
      {
        PostingsInDocMap(docs, v, id);
        DocMapContents(docs, id);
      }
    }
  }
}
