/**
  What search computes, stated over the index: the variants of each query term (exact, prefix,
  fuzzy), the score and hit tallies the nested loops accumulate, the AND/OR selection and the
  order of the results.
*/
module Query {
  import opened Util
  import opened Tokenizer
  import opened InvertedIndex
  import EditDistance

  /** The `fuzzy` option: absent or false, `true`, or a number (the largest distance allowed). */
  datatype Fuzzy = NoFuzzy | FuzzyOn | FuzzyDistance(max: int)

  /** The keys _matchTerms reads; None means "not given" so that the other object's value stays. */
  datatype MatchOptions = MatchOptions(prefix: Option<bool>, fuzzy: Option<Fuzzy>)

  /** Object.assign({}, this.searchOptions, opts), restricted to the keys _matchTerms reads. */
  function Merge(stored: MatchOptions, call: MatchOptions): MatchOptions {
    MatchOptions(if call.prefix.Some? then call.prefix else stored.prefix,
                 if call.fuzzy.Some? then call.fuzzy else stored.fuzzy)
  }

  predicate AllowPrefix(o: MatchOptions) {
    o.prefix == Some(true)
  }

  predicate AllowFuzzy(o: MatchOptions) {
    o.fuzzy.Some? && (o.fuzzy.value.FuzzyOn? || o.fuzzy.value.FuzzyDistance?)
  }

  /** maxF: the number given, or 1 when fuzzy is `true`. */
  function MaxFuzzy(o: MatchOptions): int {
    if o.fuzzy.Some? && o.fuzzy.value.FuzzyDistance? then o.fuzzy.value.max else 1
  }

  /** Whether an indexed term other than qt joins qt's variants: it extends qt, or is close to it. */
  predicate Accepts(o: MatchOptions, qt: string, term: string) {
    || (AllowPrefix(o) && StartsWith(term, qt))
    || (AllowFuzzy(o) && -2 <= |term| - |qt| <= 2 && EditDistance.Lev(term, qt) <= MaxFuzzy(o))
  }

  /** The terms the `for (term in idx)` loop adds, in key order. */
  function Expansions(terms: seq<string>, o: MatchOptions, qt: string): seq<string> {
    if terms == [] then []
    else
      var last := terms[|terms| - 1];
      Expansions(terms[..|terms| - 1], o, qt) + (if last != qt && Accepts(o, qt, last) then [last] else [])
  }

  /** The key loop's step: the term at j joins when it is not qt and is accepted. */
  lemma ExpansionsStep(terms: seq<string>, o: MatchOptions, qt: string, j: nat)
    requires j < |terms|
    ensures Expansions(terms[..j + 1], o, qt)
         == Expansions(terms[..j], o, qt) + (if terms[j] != qt && Accepts(o, qt, terms[j]) then [terms[j]] else [])
  {
    assert terms[..j + 1][..j] == terms[..j];
  }

  /** The variant list of one query term; the term itself when nothing matched. */
  function Variants(ix: Inverted, o: MatchOptions, qt: string): seq<string> {
    var found := (if qt in ix.entries then [qt] else []) + Expansions(ix.terms, o, qt);
    if found == [] then [qt] else found
  }

  /** _matchTerms: one variant list per query term, in the query terms' order. */
  function Expand(ix: Inverted, o: MatchOptions, qTerms: seq<string>): (r: seq<seq<string>>)
    ensures |r| == |qTerms|
  {
    if qTerms == [] then []
    else Expand(ix, o, qTerms[..|qTerms| - 1]) + [Variants(ix, o, qTerms[|qTerms| - 1])]
  }

  /** Whether any indexed term matches qt at all. */
  ghost predicate Matched(ix: Inverted, o: MatchOptions, qt: string) {
    qt in ix.entries || exists t :: t in ix.entries && t != qt && Accepts(o, qt, t)
  }

  // ---------------------------------------------------------------------------
  // Scoring

  /** The weight of a term for a corpus of N documents, idf(N, df) in the source. */
  type Weight = (nat, nat) -> real

  /** What search reads of the engine: the index, the stored fields, N and the title boost. */
  datatype EngineState = EngineState(ix: Inverted, docMap: map<int, Doc>, n: nat, boostTitle: real)

  /** `b`: 1, plus the title boost when the document's lower-cased title contains the variant. */
  function TitleBoost(s: EngineState, id: int, v: string): real {
    if id in s.docMap && s.docMap[id].title != "" && Contains(Lower(s.docMap[id].title), v)
    then 1.0 + s.boostTitle else 1.0
  }

  /** `add = (tf * w) * b` for one posting of an indexed variant. */
  function Contribution(s: EngineState, w: Weight, v: string, id: int): real
    requires v in s.ix.entries && id in s.ix.entries[v].postings
  {
    var e := s.ix.entries[v];
    ((e.postings[id] as real) * w(s.n, e.df)) * TitleBoost(s, id, v)
  }

  function GetScore(scores: map<int, real>, id: int): real {
    if id in scores then scores[id] else 0.0
  }

  function GetHits(hits: map<int, nat>, id: int): nat {
    if id in hits then hits[id] else 0
  }

  /** The postings loop of one indexed variant, for the ids in `done`. */
  function ScorePostings(s: EngineState, w: Weight, scores: map<int, real>, v: string, done: set<int>): map<int, real>
    requires v in s.ix.entries && done <= s.ix.entries[v].postings.Keys
  {
    map id | id in scores.Keys + done
      :: GetScore(scores, id) + (if id in done then Contribution(s, w, v, id) else 0.0)
  }

  /** One variant: a variant that is not indexed adds nothing. */
  function ScoreVariant(s: EngineState, w: Weight, scores: map<int, real>, v: string): map<int, real> {
    if v in s.ix.entries then ScorePostings(s, w, scores, v, s.ix.entries[v].postings.Keys) else scores
  }

  /** Handling one more posting updates just that document's score. */
  lemma ScorePostingsStep(s: EngineState, w: Weight, scores: map<int, real>, v: string, done: set<int>, id: int)
    requires v in s.ix.entries && done <= s.ix.entries[v].postings.Keys
    requires id in s.ix.entries[v].postings && id !in done
    ensures ScorePostings(s, w, scores, v, done + {id})
         == ScorePostings(s, w, scores, v, done)[id := GetScore(ScorePostings(s, w, scores, v, done), id) + Contribution(s, w, v, id)]
  {
  }

  /** The loop over one query term's variants. */
  function ScoreTerm(s: EngineState, w: Weight, scores: map<int, real>, vs: seq<string>): map<int, real> {
    if vs == [] then scores
    else ScoreVariant(s, w, ScoreTerm(s, w, scores, vs[..|vs| - 1]), vs[|vs| - 1])
  }

  /** `seen`: the ids with a posting in at least one indexed variant. */
  function Seen(s: EngineState, vs: seq<string>): set<int> {
    if vs == [] then {}
    else
      var v := vs[|vs| - 1];
      Seen(s, vs[..|vs| - 1]) + (if v in s.ix.entries then s.ix.entries[v].postings.Keys else {})
  }

  /** `for (id of seen) hits[id]++` for the ids in `done`. */
  function AddHits(hits: map<int, nat>, done: set<int>): map<int, nat> {
    map id | id in hits.Keys + done :: GetHits(hits, id) + (if id in done then 1 else 0)
  }

  lemma AddHitsStep(hits: map<int, nat>, done: set<int>, id: int)
    requires id !in done
    ensures AddHits(hits, done + {id}) == AddHits(hits, done)[id := GetHits(AddHits(hits, done), id) + 1]
  {
  }

  datatype Tally = Tally(scores: map<int, real>, hits: map<int, nat>)

  /** The scores and hits after the outer loop has handled the variant lists in `exp`. */
  function TallyOf(s: EngineState, w: Weight, exp: seq<seq<string>>): Tally {
    if exp == [] then Tally(map[], map[])
    else
      var t := TallyOf(s, w, exp[..|exp| - 1]);
      var vs := exp[|exp| - 1];
      Tally(ScoreTerm(s, w, t.scores, vs), AddHits(t.hits, Seen(s, vs)))
  }

  /** The number of query terms (variant lists) that hit document id. */
  function HitCount(s: EngineState, exp: seq<seq<string>>, id: int): nat {
    if exp == [] then 0
    else HitCount(s, exp[..|exp| - 1], id) + (if id in Seen(s, exp[|exp| - 1]) then 1 else 0)
  }

  /** The documents search keeps: under AND those hit by every query term, otherwise all scored ones. */
  function Selected(t: Tally, combine: string, needed: nat): set<int> {
    if combine == "AND" then set id | id in t.scores.Keys && GetHits(t.hits, id) >= needed
    else t.scores.Keys
  }

  /** The result order: higher score first; equal scores in ascending id order (Object.keys order, stable sort). */
  predicate Before(scores: map<int, real>, a: int, b: int)
    requires a in scores && b in scores
  {
    scores[a] > scores[b] || (scores[a] == scores[b] && a < b)
  }

  predicate Ranked(scores: map<int, real>, ids: seq<int>) {
    && (forall i :: 0 <= i < |ids| ==> ids[i] in scores)
    && (forall i, j :: 0 <= i < j < |ids| ==> Before(scores, ids[i], ids[j]))
  }

  /** Insert one id into a ranked list. */
  function Insert(scores: map<int, real>, x: int, ids: seq<int>): seq<int>
    requires x in scores && forall i :: 0 <= i < |ids| ==> ids[i] in scores
  {
    if ids == [] then [x]
    else if Before(scores, x, ids[0]) then [x] + ids
    else [ids[0]] + Insert(scores, x, ids[1..])
  }

  /** One result: the stored fields of the document and its `_score`. */
  datatype Hit = Hit(doc: Doc, score: real)

  // ---------------------------------------------------------------------------
  // Variants: exactly the indexed terms that match, with the query term as fallback.

  lemma {:induction false} ExpansionsMembers(terms: seq<string>, o: MatchOptions, qt: string, v: string)
    ensures v in Expansions(terms, o, qt) <==> v in terms && v != qt && Accepts(o, qt, v)
  {
    if terms != [] {
      var init := terms[..|terms| - 1];
      ExpansionsMembers(init, o, qt, v);
      assert v in terms <==> v in init || v == terms[|terms| - 1] by {
        assert terms == init + [terms[|terms| - 1]];
      }
    }
  }

  /**
    The variant list of qt holds qt exactly when qt is indexed, and every other indexed term
    that qt prefixes (prefix on) or that is close to qt (fuzzy on); when nothing matches it is [qt].
  */
  lemma VariantsMembers(ix: Inverted, o: MatchOptions, qt: string, v: string)
    requires WellFormed(ix)
    ensures v in Variants(ix, o, qt)
        <==> (v in ix.entries && (v == qt || Accepts(o, qt, v))) || (!Matched(ix, o, qt) && v == qt)
    ensures !Matched(ix, o, qt) ==> Variants(ix, o, qt) == [qt]
  {
    ExpansionsMembers(ix.terms, o, qt, v);
    var found := (if qt in ix.entries then [qt] else []) + Expansions(ix.terms, o, qt);
    var ex := Expansions(ix.terms, o, qt);
    if ex != [] {
      ExpansionsMembers(ix.terms, o, qt, ex[0]);
      assert Matched(ix, o, qt);
    }
    if Matched(ix, o, qt) && qt !in ix.entries {
      var t :| t in ix.entries && t != qt && Accepts(o, qt, t);
      ExpansionsMembers(ix.terms, o, qt, t);
      assert t in found;
    }
  }

  // ---------------------------------------------------------------------------
  // Hits: a document's count goes up once per query term, however many variants matched it.

  lemma {:induction false} SeenMembers(s: EngineState, vs: seq<string>, id: int)
    ensures id in Seen(s, vs) <==> exists v :: v in vs && v in s.ix.entries && id in s.ix.entries[v].postings
  {
    if vs != [] {
      var init := vs[..|vs| - 1];
      SeenMembers(s, init, id);
      assert forall v :: v in vs <==> v in init || v == vs[|vs| - 1] by {
        assert vs == init + [vs[|vs| - 1]];
      }
    }
  }

  lemma {:induction false} ScoreTermKeys(s: EngineState, w: Weight, scores: map<int, real>, vs: seq<string>)
    ensures ScoreTerm(s, w, scores, vs).Keys == scores.Keys + Seen(s, vs)
  {
    if vs != [] {
      ScoreTermKeys(s, w, scores, vs[..|vs| - 1]);
    }
  }

  /**
    After the loops, the hits of a document are the number of query terms that hit it, and a
    document has a score exactly when some query term hit it.
  */
  lemma {:induction false} TallyHits(s: EngineState, w: Weight, exp: seq<seq<string>>, id: int)
    ensures GetHits(TallyOf(s, w, exp).hits, id) == HitCount(s, exp, id)
    ensures id in TallyOf(s, w, exp).scores <==> HitCount(s, exp, id) > 0
    ensures TallyOf(s, w, exp).hits.Keys <= TallyOf(s, w, exp).scores.Keys
  {
    if exp != [] {
      var init := exp[..|exp| - 1];
      TallyHits(s, w, init, id);
      var t := TallyOf(s, w, init);
      ScoreTermKeys(s, w, t.scores, exp[|exp| - 1]);
      forall id' | id' in TallyOf(s, w, exp).hits.Keys
        ensures id' in TallyOf(s, w, exp).scores.Keys
      {
        TallyHits(s, w, init, id');
      }
    }
  }

  lemma {:induction false} HitCountBound(s: EngineState, exp: seq<seq<string>>, id: int)
    ensures HitCount(s, exp, id) <= |exp|
    ensures HitCount(s, exp, id) == |exp| <==> forall k :: 0 <= k < |exp| ==> id in Seen(s, exp[k])
  {
    if exp != [] {
      var init := exp[..|exp| - 1];
      HitCountBound(s, init, id);
      assert forall k :: 0 <= k < |init| ==> init[k] == exp[k];
    }
  }

  /**
    AND keeps exactly the documents hit by every query term; any other mode keeps every document
    hit by at least one query term.
  */
  lemma SelectionMembers(s: EngineState, w: Weight, exp: seq<seq<string>>, combine: string, id: int)
    requires exp != []
    ensures combine == "AND" ==>
      (id in Selected(TallyOf(s, w, exp), combine, |exp|) <==> forall k :: 0 <= k < |exp| ==> id in Seen(s, exp[k]))
    ensures combine != "AND" ==>
      (id in Selected(TallyOf(s, w, exp), combine, |exp|) <==> exists k :: 0 <= k < |exp| && id in Seen(s, exp[k]))
  {
    TallyHits(s, w, exp, id);
    HitCountBound(s, exp, id);
    HitCountPositive(s, exp, id);
  }

  lemma {:induction false} HitCountPositive(s: EngineState, exp: seq<seq<string>>, id: int)
    ensures HitCount(s, exp, id) > 0 <==> exists k :: 0 <= k < |exp| && id in Seen(s, exp[k])
  {
    if exp != [] {
      var init := exp[..|exp| - 1];
      HitCountPositive(s, init, id);
      assert forall k :: 0 <= k < |init| ==> init[k] == exp[k];
    }
  }

  // ---------------------------------------------------------------------------
  // Ranking

  lemma {:induction false} InsertRanked(scores: map<int, real>, x: int, ids: seq<int>)
    requires x in scores && Ranked(scores, ids) && x !in ids
    ensures Ranked(scores, Insert(scores, x, ids))
    ensures forall y :: y in Insert(scores, x, ids) <==> y in ids || y == x
    ensures |Insert(scores, x, ids)| == |ids| + 1
  {
    if ids != [] && !Before(scores, x, ids[0]) {
      InsertRanked(scores, x, ids[1..]);
      var r := Insert(scores, x, ids[1..]);
      forall y | y in r ensures Before(scores, ids[0], y) {
        if y != x {
          var j :| 0 <= j < |ids[1..]| && ids[1..][j] == y;
          assert ids[j + 1] == y;
        }
      }
      assert forall y :: y in ids <==> y == ids[0] || y in ids[1..] by {
        assert ids == [ids[0]] + ids[1..];
      }
    }
  }

  /** The head of a ranked list comes before every other member. */
  lemma RankedHead(scores: map<int, real>, a: seq<int>, y: int)
    requires Ranked(scores, a) && y in a
    ensures y in scores && a[0] in scores
    ensures y == a[0] || Before(scores, a[0], y)
  {
    var k :| 0 <= k < |a| && a[k] == y;
    if k > 0 {
      assert Before(scores, a[0], a[k]);
    }
  }

  /** Two ranked lists of the same documents are the same list: the order is fully determined. */
  lemma {:induction false} RankedUnique(scores: map<int, real>, a: seq<int>, b: seq<int>)
    requires Ranked(scores, a) && Ranked(scores, b)
    requires forall y :: y in a <==> y in b
    ensures a == b
  {
    if a != [] {
      var x := a[0];
      assert x in a;
      assert x in b;
    }
    if b != [] {
      var x := b[0];
      assert x in b;
      assert x in a;
    }
    assert a == [] <==> b == [];
    if a != [] {
      RankedHead(scores, a, b[0]);
      RankedHead(scores, b, a[0]);
      assert a[0] == b[0];
      assert a == [a[0]] + a[1..] && b == [b[0]] + b[1..];
      forall y ensures y in a[1..] <==> y in b[1..] {
        if y in a[1..] {
          var i :| 0 <= i < |a[1..]| && a[1..][i] == y;
          assert a[i + 1] == y && Before(scores, a[0], a[i + 1]);
          assert y in a && y != b[0];
          assert y in b;
        }
        if y in b[1..] {
          var i :| 0 <= i < |b[1..]| && b[1..][i] == y;
          assert b[i + 1] == y && Before(scores, b[0], b[i + 1]);
          assert y in b && y != a[0];
          assert y in a;
        }
      }
      RankedUnique(scores, a[1..], b[1..]);
    }
  }

  // ---------------------------------------------------------------------------
  // The whole search

  /** `(opts.combineWith || 'AND').toUpperCase()`; "" stands for a missing or empty option. */
  function Combine(combineWith: string): (r: string)
    ensures combineWith == "" ==> r == "AND"
    ensures |r| == |combineWith| || combineWith == ""
  {
    Upper(if combineWith == "" then "AND" else combineWith)
  }

  function Ids(results: seq<Hit>): (r: seq<int>)
    ensures |r| == |results| && forall i :: 0 <= i < |r| ==> r[i] == results[i].doc.id
  {
    seq(|results|, i requires 0 <= i < |results| => results[i].doc.id)
  }

  /**
    What search returns: nothing for a query without tokens; otherwise one hit per selected
    document, carrying its stored fields and its score, ranked by Before.
  */
  ghost predicate SearchResult(s: EngineState, w: Weight, query: string, combine: string, o: MatchOptions, results: seq<Hit>) {
    var qTerms := Uniq(Tokenize(query));
    if qTerms == [] then results == []
    else
      var t := TallyOf(s, w, Expand(s.ix, o, qTerms));
      var chosen := Selected(t, combine, |qTerms|);
      && Ranked(t.scores, Ids(results))
      && (forall id :: id in Ids(results) <==> id in chosen)
      && (forall i :: 0 <= i < |results| ==>
            results[i].doc.id in s.docMap && results[i].doc == s.docMap[results[i].doc.id]
            && results[i].score == t.scores[results[i].doc.id])
  }

  /** Every id with a posting has stored fields, filed under its own id. */
  ghost predicate Stored(s: EngineState) {
    forall v, id :: v in s.ix.entries && id in s.ix.entries[v].postings ==> id in s.docMap && s.docMap[id].id == id
  }

  lemma {:induction false} ScoredAreStored(s: EngineState, w: Weight, exp: seq<seq<string>>, id: int)
    requires Stored(s)
    requires id in TallyOf(s, w, exp).scores
    ensures id in s.docMap && s.docMap[id].id == id
  {
    TallyHits(s, w, exp, id);
    HitCountPositive(s, exp, id);
    var k :| 0 <= k < |exp| && id in Seen(s, exp[k]);
    SeenMembers(s, exp[k], id);
  }

  /** `docs.map(id => ({...docMap[id], _score: scores[id]}))` */
  function Present(s: EngineState, scores: map<int, real>, ranked: seq<int>): (r: seq<Hit>)
    requires forall i :: 0 <= i < |ranked| ==> ranked[i] in s.docMap && ranked[i] in scores
    ensures |r| == |ranked|
  {
    seq(|ranked|, i requires 0 <= i < |ranked| => Hit(s.docMap[ranked[i]], scores[ranked[i]]))
  }

  /** Presenting a ranked list of exactly the selected documents meets SearchResult. */
  lemma PresentRanked(s: EngineState, w: Weight, query: string, combine: string, o: MatchOptions, ranked: seq<int>)
    requires Stored(s)
    requires Uniq(Tokenize(query)) != []
    requires var qTerms := Uniq(Tokenize(query));
             var t := TallyOf(s, w, Expand(s.ix, o, qTerms));
             && Ranked(t.scores, ranked)
             && forall id :: id in ranked <==> id in Selected(t, combine, |qTerms|)
    ensures var t := TallyOf(s, w, Expand(s.ix, o, Uniq(Tokenize(query))));
            && (forall i :: 0 <= i < |ranked| ==> ranked[i] in s.docMap && ranked[i] in t.scores)
            && SearchResult(s, w, query, combine, o, Present(s, t.scores, ranked))
  {
    var qTerms := Uniq(Tokenize(query));
    var exp := Expand(s.ix, o, qTerms);
    var t := TallyOf(s, w, exp);
    forall i | 0 <= i < |ranked| ensures ranked[i] in s.docMap && s.docMap[ranked[i]].id == ranked[i] {
      ScoredAreStored(s, w, exp, ranked[i]);
    }
    var r := Present(s, t.scores, ranked);
    assert Ids(r) == ranked;
  }

  /** Search is deterministic: two result lists that both meet SearchResult are equal. */
  lemma SearchResultUnique(s: EngineState, w: Weight, query: string, combine: string, o: MatchOptions, r1: seq<Hit>, r2: seq<Hit>)
    requires SearchResult(s, w, query, combine, o, r1) && SearchResult(s, w, query, combine, o, r2)
    ensures r1 == r2
  {
    var qTerms := Uniq(Tokenize(query));
    if qTerms != [] {
      var t := TallyOf(s, w, Expand(s.ix, o, qTerms));
      RankedUnique(t.scores, Ids(r1), Ids(r2));
      assert |r1| == |Ids(r1)| == |Ids(r2)| == |r2|;
      forall i | 0 <= i < |r1| ensures r1[i] == r2[i] {
        assert Ids(r1)[i] == Ids(r2)[i];
      }
    }
  }
}
