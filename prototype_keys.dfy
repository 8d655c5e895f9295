/**
  addAll as written keeps the index in a plain object literal, so `idx[term]` also finds the
  properties every object inherits. The only such property an all-lowercase token can spell is
  "constructor": for it `idx[term]` is the inherited Object function, the entry is not created,
  and `e.postings[d.id]` reads a property of undefined, which throws. search reads the same
  object: `if(idx[qt])` lists an unindexed "constructor" as its own variant, and the scoring loop
  then calls `Object.entries(e.postings)` on the inherited function, which throws too. This
  module models both lookups and shows which corpora make addAll throw and which queries make
  search throw; the rest of the model uses the intended dictionary semantics of InvertedIndex.
*/
module PrototypeKeys {
  import opened Util
  import opened Tokenizer
  import opened InvertedIndex
  import opened Query

  /**
    The one member of Object.prototype whose name is a possible token: the others contain
    upper-case letters or underscores, which tokenize never produces.
  */
  const Ctor: string := "constructor"

  /** One entry of Object.entries(counts) as written: None is the TypeError. */
  function AddTermAsWritten(ix: Inverted, t: string, id: int, tf: nat): Option<Inverted> {
    if t !in ix.entries && t == Ctor then None else Some(AddTerm(ix, t, id, tf))
  }

  function AddTermsAsWritten(ix: Inverted, ts: seq<string>, id: int, counts: map<string, nat>): Option<Inverted>
    requires forall t :: t in ts ==> t in counts
  {
    if ts == [] then Some(ix)
    else
      var last := ts[|ts| - 1];
      var r := AddTermsAsWritten(ix, ts[..|ts| - 1], id, counts);
      if r.None? then None else AddTermAsWritten(r.value, last, id, counts[last])
  }

  /** Indexing one document as written. */
  function AddDocAsWritten(ix: Inverted, d: Doc): Option<Inverted> {
    var toks := DocTokens(d);
    AddTermsAsWritten(ix, Uniq(toks), d.id, Counts(toks))
  }

  /** addAll as written over docs; None when it throws. */
  function BuildIndexAsWritten(docs: seq<Doc>): Option<Inverted> {
    if docs == [] then Some(Empty)
    else
      var r := BuildIndexAsWritten(docs[..|docs| - 1]);
      if r.None? then None else AddDocAsWritten(r.value, docs[|docs| - 1])
  }

  /** An index built as written never holds an inherited name as its own key. */
  lemma {:induction false} AddTermsAsWrittenAgree(ix: Inverted, ts: seq<string>, id: int, counts: map<string, nat>)
    requires forall t :: t in ts ==> t in counts
    requires Ctor !in ix.entries
    ensures AddTermsAsWritten(ix, ts, id, counts).Some? <==> Ctor !in ts
    ensures AddTermsAsWritten(ix, ts, id, counts).Some? ==>
              AddTermsAsWritten(ix, ts, id, counts) == Some(AddTerms(ix, ts, id, counts))
              && Ctor !in AddTerms(ix, ts, id, counts).entries
  {
    if ts != [] {
      var init := ts[..|ts| - 1];
      AddTermsAsWrittenAgree(ix, init, id, counts);
      assert Ctor in ts <==> Ctor in init || Ctor == ts[|ts| - 1] by {
        assert ts == init + [ts[|ts| - 1]];
      }
    }
  }

  /** The document's title or text contains the word "constructor". */
  predicate MentionsCtor(d: Doc) {
    HasCtor(DocTokens(d))
  }

  predicate HasCtor(ts: seq<string>) {
    ts != [] && (ts[0] == Ctor || HasCtor(ts[1..]))
  }

  lemma {:induction false} HasCtorMeansIn(ts: seq<string>)
    ensures HasCtor(ts) <==> Ctor in ts
  {
    if ts != [] {
      HasCtorMeansIn(ts[1..]);
      assert ts == [ts[0]] + ts[1..];
    }
  }

  /**
    addAll as written throws exactly when some document's title or text contains the word
    "constructor"; when it does not throw it builds the intended index.
  */
  lemma AddDocAsWrittenAgree(ix: Inverted, d: Doc)
    requires Ctor !in ix.entries
    ensures AddDocAsWritten(ix, d).Some? <==> !MentionsCtor(d)
    ensures AddDocAsWritten(ix, d).Some? ==> AddDocAsWritten(ix, d) == Some(AddDoc(ix, d)) && Ctor !in AddDoc(ix, d).entries
  {
    var toks := DocTokens(d);
    HasCtorMeansIn(toks);
    AddTermsAsWrittenAgree(ix, Uniq(toks), d.id, Counts(toks));
  }

  /** Some document among docs mentions "constructor". */
  predicate AnyMentionsCtor(docs: seq<Doc>) {
    docs != [] && (AnyMentionsCtor(docs[..|docs| - 1]) || MentionsCtor(docs[|docs| - 1]))
  }

  lemma {:induction false} AnyMentionsCtorMeans(docs: seq<Doc>)
    ensures AnyMentionsCtor(docs) <==> exists k :: 0 <= k < |docs| && MentionsCtor(docs[k])
  {
    if docs != [] {
      var init := docs[..|docs| - 1];
      AnyMentionsCtorMeans(init);
      if AnyMentionsCtor(init) {
        var k :| 0 <= k < |init| && MentionsCtor(init[k]);
        assert docs[k] == init[k];
      }
      if exists k :: 0 <= k < |docs| && MentionsCtor(docs[k]) {
        var k :| 0 <= k < |docs| && MentionsCtor(docs[k]);
        if k < |init| {
          assert docs[k] == init[k];
        }
      }
    }
  }

  lemma {:induction false} BuildIndexAsWrittenAgree(docs: seq<Doc>)
    ensures BuildIndexAsWritten(docs).None? <==> AnyMentionsCtor(docs)
    ensures BuildIndexAsWritten(docs).Some? ==>
              BuildIndexAsWritten(docs) == Some(BuildIndex(docs)) && Ctor !in BuildIndex(docs).entries
  {
    if docs != [] {
      var init := docs[..|docs| - 1];
      BuildIndexAsWrittenAgree(init);
      if BuildIndexAsWritten(init).Some? {
        AddDocAsWrittenAgree(BuildIndex(init), docs[|docs| - 1]);
      }
    }
  }

  /**
    addAll as written throws exactly when some document's title or text contains the word
    "constructor"; when it does not throw it builds the intended index, without that key.
  */
  lemma AddAllThrowsOnCtor(docs: seq<Doc>)
    ensures BuildIndexAsWritten(docs).None? <==> exists k :: 0 <= k < |docs| && MentionsCtor(docs[k])
    ensures BuildIndexAsWritten(docs).Some? ==>
              BuildIndexAsWritten(docs) == Some(BuildIndex(docs)) && Ctor !in BuildIndex(docs).entries
  {
    BuildIndexAsWrittenAgree(docs);
    AnyMentionsCtorMeans(docs);
  }

  lemma TokenizeCtor()
    ensures Tokenize(Ctor) == [Ctor]
  {
    NormalizeTokenText(Ctor);
    ScanWord(Ctor, [], []);
    assert Ctor + [] == Ctor && [] + Ctor == Ctor;
  }

  /** A one-document corpus whose text is the single word "constructor" makes addAll throw. */
  lemma ConstructorAbortsAddAll()
    ensures BuildIndexAsWritten([Doc(1, "", "", "", "", Ctor)]) == None
  {
    var d := Doc(1, "", "", "", "", Ctor);
    TokenizeCtor();
    assert Tokenize("") == [];
    assert DocTokens(d) == [Ctor];
    assert MentionsCtor(d);
    BuildIndexAsWrittenAgree([d]);
    assert [d][..0] == [];
  }

  // ---------------------------------------------------------------------------
  // search as written

  /**
    One query term's variant list as _matchTerms writes it: `if(idx[qt])` also holds for the
    inherited "constructor", while `for(term in idx)` sees only the index's own keys.
  */
  function VariantsAsWritten(ix: Inverted, o: MatchOptions, qt: string): seq<string> {
    var found := (if qt in ix.entries || qt == Ctor then [qt] else []) + Expansions(ix.terms, o, qt);
    if found == [] then [qt] else found
  }

  function ExpandAsWritten(ix: Inverted, o: MatchOptions, qTerms: seq<string>): (r: seq<seq<string>>)
    ensures |r| == |qTerms|
  {
    if qTerms == [] then []
    else ExpandAsWritten(ix, o, qTerms[..|qTerms| - 1]) + [VariantsAsWritten(ix, o, qTerms[|qTerms| - 1])]
  }

  /**
    The scoring loop over one variant list throws when it reaches an unindexed "constructor":
    `this.index[term]` is then the inherited function, it passes `if(!e) continue`, and
    `Object.entries(e.postings)` is called on undefined. Any other unindexed term is skipped.
  */
  predicate ListThrows(ix: Inverted, vs: seq<string>) {
    vs != [] && ((vs[0] == Ctor && Ctor !in ix.entries) || ListThrows(ix, vs[1..]))
  }

  predicate ScoringThrows(ix: Inverted, exp: seq<seq<string>>) {
    exp != [] && (ScoringThrows(ix, exp[..|exp| - 1]) || ListThrows(ix, exp[|exp| - 1]))
  }

  /** search as written throws: the query has tokens and one of its variant lists throws. */
  predicate SearchThrows(ix: Inverted, o: MatchOptions, query: string) {
    var qTerms := Uniq(Tokenize(query));
    qTerms != [] && ScoringThrows(ix, ExpandAsWritten(ix, o, qTerms))
  }

  lemma {:induction false} ListThrowsMeans(ix: Inverted, vs: seq<string>)
    ensures ListThrows(ix, vs) <==> Ctor in vs && Ctor !in ix.entries
  {
    if vs != [] {
      ListThrowsMeans(ix, vs[1..]);
      assert vs == [vs[0]] + vs[1..];
    }
  }

  /**
    Over an index without the key "constructor", a term's list as written throws exactly when
    the term is "constructor", and for every other term it is the intended list.
  */
  lemma VariantsAsWrittenAgree(ix: Inverted, o: MatchOptions, qt: string)
    requires WellFormed(ix) && Ctor !in ix.entries
    ensures ListThrows(ix, VariantsAsWritten(ix, o, qt)) <==> qt == Ctor
    ensures qt != Ctor ==> VariantsAsWritten(ix, o, qt) == Variants(ix, o, qt)
  {
    ExpansionsMembers(ix.terms, o, qt, Ctor);
    ListThrowsMeans(ix, VariantsAsWritten(ix, o, qt));
    if qt == Ctor {
      assert Ctor in VariantsAsWritten(ix, o, qt);
    }
  }

  lemma ScoringThrowsStep(ix: Inverted, exp: seq<seq<string>>, vs: seq<string>)
    ensures ScoringThrows(ix, exp + [vs]) <==> ScoringThrows(ix, exp) || ListThrows(ix, vs)
  {
    assert (exp + [vs])[..|exp|] == exp;
  }

  lemma {:induction false} ExpandAsWrittenAgree(ix: Inverted, o: MatchOptions, qTerms: seq<string>)
    requires WellFormed(ix) && Ctor !in ix.entries
    ensures ScoringThrows(ix, ExpandAsWritten(ix, o, qTerms)) <==> Ctor in qTerms
    ensures Ctor !in qTerms ==> ExpandAsWritten(ix, o, qTerms) == Expand(ix, o, qTerms)
  {
    if qTerms != [] {
      var init := qTerms[..|qTerms| - 1];
      var qt := qTerms[|qTerms| - 1];
      ExpandAsWrittenAgree(ix, o, init);
      VariantsAsWrittenAgree(ix, o, qt);
      ScoringThrowsStep(ix, ExpandAsWritten(ix, o, init), VariantsAsWritten(ix, o, qt));
      assert Ctor in qTerms <==> Ctor in init || qt == Ctor by {
        assert qTerms == init + [qt];
      }
    }
  }

  /**
    Over an index without the key "constructor", search as written throws exactly when the
    query contains the word "constructor"; otherwise it scores the intended variant lists, so
    its result is the one SearchResult describes.
  */
  lemma SearchAsWrittenAgree(ix: Inverted, o: MatchOptions, query: string)
    requires WellFormed(ix) && Ctor !in ix.entries
    ensures SearchThrows(ix, o, query) <==> Ctor in Tokenize(query)
    ensures !SearchThrows(ix, o, query) ==>
              ExpandAsWritten(ix, o, Uniq(Tokenize(query))) == Expand(ix, o, Uniq(Tokenize(query)))
  {
    var qTerms := Uniq(Tokenize(query));
    ExpandAsWrittenAgree(ix, o, qTerms);
    assert Ctor in qTerms <==> Ctor in Tokenize(query);
  }

  /**
    Every index addAll as written can produce lacks the key "constructor", so on every such
    index a query containing that word makes search throw.
  */
  lemma QueryThrowsAfterAddAll(docs: seq<Doc>, o: MatchOptions, query: string)
    requires BuildIndexAsWritten(docs).Some?
    ensures SearchThrows(BuildIndexAsWritten(docs).value, o, query) <==> Ctor in Tokenize(query)
  {
    BuildIndexAsWrittenAgree(docs);
    BuildIndexWellFormed(docs);
    SearchAsWrittenAgree(BuildIndex(docs), o, query);
  }

  /** An index holding the single word "constructors", for document 1. */
  const Plural: Inverted := Inverted(map["constructors" := Entry(1, map[1 := 1])], ["constructors"])

  /**
    With prefix matching on, the term "constructor" over that index: as written its variant
    list starts with the unindexed "constructor"; the intended list is just "constructors".
  */
  lemma PluralVariants(o: MatchOptions)
    requires o.prefix == Some(true)
    ensures VariantsAsWritten(Plural, o, Ctor) == [Ctor, "constructors"]
    ensures Variants(Plural, o, Ctor) == ["constructors"]
  {
    var terms := Plural.terms;
    assert StartsWith("constructors", Ctor);
    assert terms[..|terms| - 1] == [];
    assert Expansions(terms, o, Ctor) == Expansions([], o, Ctor) + ["constructors"];
  }

  lemma ExpandAsWrittenOne(ix: Inverted, o: MatchOptions, qt: string)
    ensures ExpandAsWritten(ix, o, [qt]) == [VariantsAsWritten(ix, o, qt)]
  {
    assert [qt][..0] == [];
  }

  /** The query "constructor" over that index makes search as written throw. */
  lemma ConstructorQueryThrows(o: MatchOptions)
    requires o.prefix == Some(true)
    ensures SearchThrows(Plural, o, Ctor)
  {
    PluralVariants(o);
    TokenizeCtor();
    assert [Ctor][..0] == [];
    assert Uniq([Ctor]) == [Ctor];
    ExpandAsWrittenOne(Plural, o, Ctor);
    ScoringThrowsStep(Plural, [], [Ctor, "constructors"]);
    assert ListThrows(Plural, [Ctor, "constructors"]);
  }
}
