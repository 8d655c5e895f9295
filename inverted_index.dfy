/**
  The inverted index that addAll builds: for every term, its document frequency and a posting
  (document id to term frequency) per document that contains it; plus the stored-field table
  keyed by document id. Defined here as a fold over the documents, in the order addAll visits them.
*/
module InvertedIndex {
  import opened Util
  import opened Tokenizer

  /** A dataset document with the six stored fields (id, title, url, date, type, text). */
  datatype Doc = Doc(id: int, title: string, url: string, date: string, kind: string, text: string)

  /** The index entry of one term. */
  datatype Entry = Entry(df: nat, postings: map<int, nat>)

  /** this.index: the entries, and their keys in insertion order (the order `for (term in idx)` visits). */
  datatype Inverted = Inverted(entries: map<string, Entry>, terms: seq<string>)

  const Empty: Inverted := Inverted(map[], [])

  /** The indexed fields, title then text, tokenized and concatenated. */
  function DocTokens(d: Doc): seq<string> {
    Tokenize(d.title) + Tokenize(d.text)
  }

  /** `counts`: how often each term occurs among a document's tokens. */
  function Counts(toks: seq<string>): map<string, nat> {
    map t | t in toks :: multiset(toks)[t]
  }

  /** One more token: its count goes up by one, or starts at one. */
  lemma CountsStep(toks: seq<string>, i: nat)
    requires i < |toks|
    ensures var c := Counts(toks[..i]);
            && (toks[i] in c <==> toks[i] in toks[..i])
            && Counts(toks[..i + 1]) == if toks[i] in c then c[toks[i] := c[toks[i]] + 1] else c[toks[i] := 1]
  {
    assert toks[..i + 1] == toks[..i] + [toks[i]];
    assert multiset(toks[..i + 1]) == multiset(toks[..i]) + multiset{toks[i]};
  }

  /** A posting is "absent" for `!e.postings[id]`: missing, or zero. */
  function Bump(e: Entry, id: int, tf: nat): Entry {
    if id in e.postings && e.postings[id] != 0 then Entry(e.df, e.postings[id := e.postings[id] + tf])
    else Entry(e.df + 1, e.postings[id := tf])
  }

  /** One iteration of the loop over Object.entries(counts): create the term's entry if needed, then add tf. */
  function AddTerm(ix: Inverted, t: string, id: int, tf: nat): Inverted {
    if t in ix.entries then Inverted(ix.entries[t := Bump(ix.entries[t], id, tf)], ix.terms)
    else Inverted(ix.entries[t := Bump(Entry(0, map[]), id, tf)], ix.terms + [t])
  }

  /** The loop over a document's distinct terms `ts`, each with its count. */
  function AddTerms(ix: Inverted, ts: seq<string>, id: int, counts: map<string, nat>): Inverted
    requires forall t :: t in ts ==> t in counts
  {
    if ts == [] then ix
    else
      var last := ts[|ts| - 1];
      AddTerm(AddTerms(ix, ts[..|ts| - 1], id, counts), last, id, counts[last])
  }

  /** Indexing one document: its distinct terms in first-occurrence order (the key order of `counts`). */
  function AddDoc(ix: Inverted, d: Doc): Inverted {
    var toks := DocTokens(d);
    AddTerms(ix, Uniq(toks), d.id, Counts(toks))
  }

  /** The index addAll leaves behind: built from scratch over the documents in order. */
  function BuildIndex(docs: seq<Doc>): Inverted {
    if docs == [] then Empty else AddDoc(BuildIndex(docs[..|docs| - 1]), docs[|docs| - 1])
  }

  /** docMap: stored fields by id; a later document with the same id replaces an earlier one. */
  function DocMapOf(docs: seq<Doc>): map<int, Doc> {
    if docs == [] then map[] else DocMapOf(docs[..|docs| - 1])[docs[|docs| - 1].id := docs[|docs| - 1]]
  }

  /** The term frequency of t in the posting of id, 0 when there is none. */
  function Posting(ix: Inverted, t: string, id: int): nat {
    if t in ix.entries && id in ix.entries[t].postings then ix.entries[t].postings[id] else 0
  }

  /** How often t occurs in the indexed fields of all documents carrying this id, summed. */
  function TermFrequency(docs: seq<Doc>, id: int, t: string): nat {
    if docs == [] then 0
    else TermFrequency(docs[..|docs| - 1], id, t)
         + (if docs[|docs| - 1].id == id then multiset(DocTokens(docs[|docs| - 1]))[t] else 0)
  }

  /**
    The index invariant: keys listed once each in insertion order; every entry has at least one
    posting, every posting is at least 1, and df is the number of postings.
  */
  ghost predicate WellFormed(ix: Inverted) {
    && (forall i, j :: 0 <= i < j < |ix.terms| ==> ix.terms[i] != ix.terms[j])
    && (forall t :: t in ix.entries <==> t in ix.terms)
    && (forall t :: t in ix.entries ==> EntryOk(ix.entries[t]))
  }

  ghost predicate EntryOk(e: Entry) {
    && e.df == |e.postings|
    && e.postings.Keys != {}
    && (forall id :: id in e.postings ==> e.postings[id] >= 1)
  }

  // ---------------------------------------------------------------------------
  // The invariant df == |postings| (and tf >= 1) holds of every index addAll builds.

  lemma BumpOk(e: Entry, id: int, tf: nat)
    requires e == Entry(0, map[]) || EntryOk(e)
    requires tf >= 1
    ensures EntryOk(Bump(e, id, tf))
  {
    if !(id in e.postings && e.postings[id] != 0) {
      if e != Entry(0, map[]) {
        assert id !in e.postings;
        assert e.postings[id := tf].Keys == e.postings.Keys + {id};
      } else {
        assert e.postings[id := tf].Keys == {id};
      }
    } else {
      assert e.postings[id := e.postings[id] + tf].Keys == e.postings.Keys;
    }
  }

  lemma AddTermWellFormed(ix: Inverted, t: string, id: int, tf: nat)
    requires WellFormed(ix) && tf >= 1
    ensures WellFormed(AddTerm(ix, t, id, tf))
  {
    if t in ix.entries {
      BumpOk(ix.entries[t], id, tf);
    } else {
      BumpOk(Entry(0, map[]), id, tf);
    }
  }

  lemma {:induction false} AddTermsWellFormed(ix: Inverted, ts: seq<string>, id: int, counts: map<string, nat>)
    requires WellFormed(ix)
    requires forall t :: t in ts ==> t in counts && counts[t] >= 1
    ensures WellFormed(AddTerms(ix, ts, id, counts))
  {
    if ts != [] {
      AddTermsWellFormed(ix, ts[..|ts| - 1], id, counts);
      AddTermWellFormed(AddTerms(ix, ts[..|ts| - 1], id, counts), ts[|ts| - 1], id, counts[ts[|ts| - 1]]);
    }
  }

  lemma {:induction false} BuildIndexWellFormed(docs: seq<Doc>)
    ensures WellFormed(BuildIndex(docs))
  {
    if docs != [] {
      BuildIndexWellFormed(docs[..|docs| - 1]);
      var toks := DocTokens(docs[|docs| - 1]);
      AddTermsWellFormed(BuildIndex(docs[..|docs| - 1]), Uniq(toks), docs[|docs| - 1].id, Counts(toks));
    }
  }

  // ---------------------------------------------------------------------------
  // Each posting is the total count of the term over the documents with that id.

  lemma AddTermPosting(ix: Inverted, t0: string, id0: int, tf: nat, t: string, id: int)
    ensures Posting(AddTerm(ix, t0, id0, tf), t, id)
         == Posting(ix, t, id) + (if t == t0 && id == id0 then tf else 0)
  {
  }

  lemma {:induction false} AddTermsPosting(ix: Inverted, ts: seq<string>, id0: int, counts: map<string, nat>, t: string, id: int)
    requires forall t' :: t' in ts ==> t' in counts
    requires forall i, j :: 0 <= i < j < |ts| ==> ts[i] != ts[j]
    ensures Posting(AddTerms(ix, ts, id0, counts), t, id)
         == Posting(ix, t, id) + (if id == id0 && t in ts then counts[t] else 0)
  {
    if ts != [] {
      var init := ts[..|ts| - 1];
      var last := ts[|ts| - 1];
      AddTermsPosting(ix, init, id0, counts, t, id);
      AddTermPosting(AddTerms(ix, init, id0, counts), last, id0, counts[last], t, id);
      assert t in ts <==> t in init || t == last by {
        assert ts == init + [last];
      }
      assert last !in init;
    }
  }

  lemma AddDocPosting(ix: Inverted, d: Doc, t: string, id: int)
    ensures Posting(AddDoc(ix, d), t, id)
         == Posting(ix, t, id) + (if id == d.id then multiset(DocTokens(d))[t] else 0)
  {
    var toks := DocTokens(d);
    AddTermsPosting(ix, Uniq(toks), d.id, Counts(toks), t, id);
  }

  lemma {:induction false} BuildIndexPosting(docs: seq<Doc>, t: string, id: int)
    ensures Posting(BuildIndex(docs), t, id) == TermFrequency(docs, id, t)
  {
    if docs != [] {
      BuildIndexPosting(docs[..|docs| - 1], t, id);
      AddDocPosting(BuildIndex(docs[..|docs| - 1]), docs[|docs| - 1], t, id);
    }
  }

  lemma {:induction false} TermFrequencyPositive(docs: seq<Doc>, id: int, t: string)
    ensures TermFrequency(docs, id, t) > 0
        <==> exists k :: 0 <= k < |docs| && docs[k].id == id && t in DocTokens(docs[k])
  {
    if docs != [] {
      var init := docs[..|docs| - 1];
      TermFrequencyPositive(init, id, t);
      if exists k :: 0 <= k < |docs| && docs[k].id == id && t in DocTokens(docs[k]) {
        var k :| 0 <= k < |docs| && docs[k].id == id && t in DocTokens(docs[k]);
        if k < |docs| - 1 {
          assert init[k] == docs[k];
        }
      }
      if exists k :: 0 <= k < |init| && init[k].id == id && t in DocTokens(init[k]) {
        var k :| 0 <= k < |init| && init[k].id == id && t in DocTokens(init[k]);
        assert docs[k] == init[k];
      }
    }
  }

  /**
    After addAll(docs): a term has a posting for id exactly when some document with that id
    contains the term; the posting is the term's total count over those documents; and the
    term's df is the number of its postings, each at least 1.
  */
  lemma IndexContents(docs: seq<Doc>, t: string, id: int)
    ensures var ix := BuildIndex(docs);
      && ((t in ix.entries && id in ix.entries[t].postings)
          <==> exists k :: 0 <= k < |docs| && docs[k].id == id && t in DocTokens(docs[k]))
      && (t in ix.entries && id in ix.entries[t].postings ==> ix.entries[t].postings[id] == TermFrequency(docs, id, t))
      && (t in ix.entries ==> ix.entries[t].df == |ix.entries[t].postings| && ix.entries[t].postings != map[])
  {
    var ix := BuildIndex(docs);
    BuildIndexWellFormed(docs);
    BuildIndexPosting(docs, t, id);
    TermFrequencyPositive(docs, id, t);
    if t in ix.entries {
      assert EntryOk(ix.entries[t]);
      if id in ix.entries[t].postings {
        assert ix.entries[t].postings[id] >= 1;
      }
    }
  }

  lemma SomePosting(e: Entry) returns (id: int)
    requires EntryOk(e)
    ensures id in e.postings && e.postings[id] >= 1
  {
    var ks := e.postings.Keys;
    assert exists k :: k in ks by {
      if forall k :: k !in ks {
        assert false;
      }
    }
    id :| id in ks;
  }

  lemma TermOfIndexOccurs(docs: seq<Doc>, t: string)
    requires t in BuildIndex(docs).entries
    ensures exists k :: 0 <= k < |docs| && t in DocTokens(docs[k])
  {
    var ix := BuildIndex(docs);
    BuildIndexWellFormed(docs);
    var e := ix.entries[t];
    assert EntryOk(e);
    var id := SomePosting(e);
    assert Posting(ix, t, id) >= 1;
    BuildIndexPosting(docs, t, id);
    assert TermFrequency(docs, id, t) > 0;
    TermFrequencyPositive(docs, id, t);
  }

  lemma OccurringTermIndexed(docs: seq<Doc>, t: string, k: nat)
    requires k < |docs| && t in DocTokens(docs[k])
    ensures t in BuildIndex(docs).entries
  {
    BuildIndexPosting(docs, t, docs[k].id);
    TermFrequencyPositive(docs, docs[k].id, t);
  }

  /** A term is a key of the index exactly when some document contains it. */
  lemma IndexTerms(docs: seq<Doc>, t: string)
    ensures t in BuildIndex(docs).entries <==> exists k :: 0 <= k < |docs| && t in DocTokens(docs[k])
  {
    if t in BuildIndex(docs).entries {
      TermOfIndexOccurs(docs, t);
    } else if exists k :: 0 <= k < |docs| && t in DocTokens(docs[k]) {
      var k :| 0 <= k < |docs| && t in DocTokens(docs[k]);
      OccurringTermIndexed(docs, t, k);
    }
  }

  /** docMap holds every document id, and for each the last document carrying it. */
  lemma {:induction false} DocMapContents(docs: seq<Doc>, id: int)
    ensures id in DocMapOf(docs) <==> exists k :: 0 <= k < |docs| && docs[k].id == id
    ensures id in DocMapOf(docs) ==> exists k :: (0 <= k < |docs| && DocMapOf(docs)[id] == docs[k]
      && docs[k].id == id && forall j :: k < j < |docs| ==> docs[j].id != id)
  {
    if docs != [] {
      var init := docs[..|docs| - 1];
      DocMapContents(init, id);
      if exists k :: 0 <= k < |init| && init[k].id == id {
        var k :| 0 <= k < |init| && init[k].id == id;
        assert docs[k] == init[k];
      }
      if exists k :: 0 <= k < |docs| && docs[k].id == id {
        var k :| 0 <= k < |docs| && docs[k].id == id;
        if k < |docs| - 1 {
          assert init[k] == docs[k];
        }
      }
      if id in DocMapOf(docs) && docs[|docs| - 1].id != id {
        var k :| 0 <= k < |init| && DocMapOf(init)[id] == init[k]
          && init[k].id == id && forall j :: k < j < |init| ==> init[j].id != id;
        assert docs[k] == init[k];
      }
    }
  }

  /** Every id with a posting has its stored fields in docMap, so search can always return them. */
  lemma PostingsInDocMap(docs: seq<Doc>, t: string, id: int)
    requires t in BuildIndex(docs).entries && id in BuildIndex(docs).entries[t].postings
    ensures id in DocMapOf(docs)
  {
    IndexContents(docs, t, id);
    DocMapContents(docs, id);
  }
}
