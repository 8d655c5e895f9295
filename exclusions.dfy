/**
  What build_dataset puts in the dataset: the published posts and pages minus the excluded ids,
  minus (when category or tag exclusions are set) the posts filed under an excluded category or
  tag, each reduced to its id, title, link, date, type and an excerpt of its cleaned text.
  The exclusion settings are comma-separated id lists parsed by ids_from_csv.
*/
module Exclusions {
  import opened Util
  import opened InvertedIndex

  // ---------------------------------------------------------------------------
  // ids_from_csv

  predicate IsDigit(c: char) {
    '0' <= c <= '9'
  }

  /** explode($sep, $s): the pieces between separators, always at least one. */
  function Split(s: string, sep: char): (r: seq<string>)
    ensures |r| >= 1
    decreases |s|
  {
    if s == [] then [""]
    else
      var rest := Split(s[1..], sep);
      if s[0] == sep then [""] + rest
      else [[s[0]] + rest[0]] + rest[1..]
  }

  /** implode($sep, $parts) */
  function JoinWith(parts: seq<string>, sep: char): string
    decreases |parts|
  {
    if parts == [] then ""
    else if |parts| == 1 then parts[0]
    else parts[0] + [sep] + JoinWith(parts[1..], sep)
  }

  /** The longest prefix made of decimal digits. */
  function LeadingDigits(s: string): (r: string)
    ensures |r| <= |s| && r == s[..|r|]
    ensures forall i :: 0 <= i < |r| ==> IsDigit(r[i])
  {
    if s != [] && IsDigit(s[0]) then [s[0]] + LeadingDigits(s[1..]) else []
  }

  /** The value of a string of decimal digits. */
  function DigitsValue(ds: string): nat
    requires forall i :: 0 <= i < |ds| ==> IsDigit(ds[i])
  {
    if ds == [] then 0
    else
      var last := ds[|ds| - 1];
      assert IsDigit(last);
      DigitsValue(ds[..|ds| - 1]) * 10 + (last as int - '0' as int)
  }

  /**
    intval() of a string: leading white space, an optional sign, then as many decimal digits as
    follow; 0 when there are none.
  */
  function IntVal(s: string): int {
    var t := TrimStart(s, IsSpace);
    if t != [] && (t[0] == '-' || t[0] == '+') then
      var v: int := DigitsValue(LeadingDigits(t[1..]));
      if t[0] == '-' then -v else v
    else DigitsValue(LeadingDigits(t))
  }

  /** What one piece contributes: its intval once trimmed, unless array_filter drops it. */
  function PieceIds(piece: string): (r: seq<int>)
    ensures |r| <= 1
  {
    var t := Trim(piece, IsPhpTrimChar);
    if PhpTruthy(t) then [IntVal(t)] else []
  }

  /** array_map('intval', array_filter(array_map('trim', $pieces))) */
  function ParsePieces(pieces: seq<string>): (r: seq<int>)
    ensures |r| <= |pieces|
  {
    if pieces == [] then [] else PieceIds(pieces[0]) + ParsePieces(pieces[1..])
  }

  /** ids_from_csv: [] for a falsy setting, otherwise the integer value of every non-empty, non-"0" piece. */
  function IdsFromCsv(csv: string): seq<int> {
    if !PhpTruthy(csv) then [] else ParsePieces(Split(csv, ','))
  }

  /** The decimal numeral of n, as PHP writes an integer into a string. */
  function ShowNat(n: nat): (r: string)
    ensures r != [] && forall i :: 0 <= i < |r| ==> IsDigit(r[i])
  {
    if n < 10 then [('0' as int + n) as char]
    else ShowNat(n / 10) + [('0' as int + n % 10) as char]
  }

  function ShowAll(ids: seq<nat>): (r: seq<string>)
    ensures |r| == |ids| && forall i :: 0 <= i < |ids| ==> r[i] == ShowNat(ids[i])
  {
    if ids == [] then [] else [ShowNat(ids[0])] + ShowAll(ids[1..])
  }

  lemma {:induction false} DigitsOfShow(n: nat)
    ensures DigitsValue(ShowNat(n)) == n
  {
    if n >= 10 {
      DigitsOfShow(n / 10);
      var s := ShowNat(n);
      assert s[..|s| - 1] == ShowNat(n / 10);
    }
  }

  lemma {:induction false} LeadingDigitsAll(s: string)
    requires forall i :: 0 <= i < |s| ==> IsDigit(s[i])
    ensures LeadingDigits(s) == s
  {
    if s != [] {
      LeadingDigitsAll(s[1..]);
    }
  }

  /** intval reads a numeral back as the number it shows. */
  lemma IntValShow(n: nat)
    ensures IntVal(ShowNat(n)) == n
  {
    var s := ShowNat(n);
    assert TrimStart(s, IsSpace) == s;
    LeadingDigitsAll(s);
    DigitsOfShow(n);
  }

  /** A positive id's numeral survives trim and the falsy filter. */
  lemma ShowPositive(n: nat)
    requires n > 0
    ensures Trim(ShowNat(n), IsPhpTrimChar) == ShowNat(n) && PhpTruthy(ShowNat(n))
  {
    var s := ShowNat(n);
    assert TrimStart(s, IsPhpTrimChar) == s;
    assert TrimEnd(s, IsPhpTrimChar) == s;
    if n < 10 {
      assert s[0] != '0';
    } else {
      assert |ShowNat(n / 10)| >= 1;
    }
  }

  lemma {:induction false} SplitAppend(p: string, tail: string, sep: char)
    requires sep !in p
    ensures Split(p + tail, sep) == [p + Split(tail, sep)[0]] + Split(tail, sep)[1..]
  {
    if p != [] {
      SplitAppend(p[1..], tail, sep);
      assert (p + tail)[1..] == p[1..] + tail;
      assert [p[0]] + (p[1..] + Split(tail, sep)[0]) == p + Split(tail, sep)[0];
    } else {
      var st := Split(tail, sep);
      assert p + tail == tail;
      assert p + st[0] == st[0];
      assert [st[0]] + st[1..] == st;
    }
  }

  /** explode undoes implode when no piece contains the separator. */
  lemma {:induction false} SplitJoin(parts: seq<string>, sep: char)
    requires parts != []
    requires forall i :: 0 <= i < |parts| ==> sep !in parts[i]
    ensures Split(JoinWith(parts, sep), sep) == parts
  {
    if |parts| == 1 {
      SplitAppend(parts[0], "", sep);
      assert Split("", sep) == [""];
      assert parts[0] + "" == parts[0];
      assert [parts[0] + ""] + [""][1..] == [parts[0]];
      assert JoinWith(parts, sep) == parts[0] == parts[0] + "";
    } else {
      var rest := JoinWith(parts[1..], sep);
      SplitJoin(parts[1..], sep);
      SplitAppend(parts[0], [sep] + rest, sep);
      assert parts[0] + [sep] + rest == parts[0] + ([sep] + rest);
      assert ([sep] + rest)[1..] == rest;
      assert Split([sep] + rest, sep) == [""] + parts[1..];
      assert parts[0] + "" == parts[0];
      assert [parts[0]] + parts[1..] == parts;
    }
  }

  lemma {:induction false} ParseShown(ids: seq<nat>)
    requires forall i :: 0 <= i < |ids| ==> ids[i] > 0
    ensures ParsePieces(ShowAll(ids)) == ids
  {
    if ids != [] {
      ParseShown(ids[1..]);
      ShowPositive(ids[0]);
      IntValShow(ids[0]);
      assert ShowAll(ids)[1..] == ShowAll(ids[1..]);
    }
  }

  /**
    Writing positive ids as a comma-separated list and reading it back with ids_from_csv gives the
    same ids in the same order.
  */
  lemma IdsFromCsvRoundTrip(ids: seq<nat>)
    requires ids != []
    requires forall i :: 0 <= i < |ids| ==> ids[i] > 0
    ensures IdsFromCsv(JoinWith(ShowAll(ids), ',')) == ids
  {
    var parts := ShowAll(ids);
    NumeralsHaveNoComma(ids);
    SplitJoin(parts, ',');
    ParseShown(ids);
    JoinedTruthy(ids);
  }

  lemma NumeralsHaveNoComma(ids: seq<nat>)
    ensures forall i :: 0 <= i < |ids| ==> ',' !in ShowAll(ids)[i]
  {
    forall i | 0 <= i < |ids|
      ensures ',' !in ShowAll(ids)[i]
    {
      var r := ShowNat(ids[i]);
      assert forall j :: 0 <= j < |r| ==> IsDigit(r[j]);
    }
  }

  lemma JoinedTruthy(ids: seq<nat>)
    requires ids != [] && ids[0] > 0
    ensures PhpTruthy(JoinWith(ShowAll(ids), ','))
  {
    var parts := ShowAll(ids);
    if |parts| == 1 {
      ShowPositive(ids[0]);
    } else {
      assert |JoinWith(parts, ',')| > 1;
    }
  }

  /** A falsy setting excludes nothing. */
  lemma IdsFromCsvFalsy(csv: string)
    requires csv == "" || csv == "0"
    ensures IdsFromCsv(csv) == []
  {
  }

  /**
    A piece yields x when it survives array_filter (it trims to something other than "" and
    "0") and intval maps the trimmed piece to x.
  */
  predicate Yields(piece: string, x: int) {
    var t := Trim(piece, IsPhpTrimChar);
    PhpTruthy(t) && IntVal(t) == x
  }

  /**
    The parsed ids are the intval of the kept pieces and nothing else: x is among them exactly
    when some piece yields it.
  */
  lemma ParsePiecesMembers(pieces: seq<string>, x: int)
    ensures x in ParsePieces(pieces) <==> exists i :: 0 <= i < |pieces| && Yields(pieces[i], x)
  {
    if x in ParsePieces(pieces) {
      var i := ParsedFrom(pieces, x);
    }
    if exists i :: 0 <= i < |pieces| && Yields(pieces[i], x) {
      var i :| 0 <= i < |pieces| && Yields(pieces[i], x);
      YieldedIsParsed(pieces, i, x);
    }
  }

  /** Every parsed id comes from some piece that yields it. */
  lemma {:induction false} ParsedFrom(pieces: seq<string>, x: int) returns (i: nat)
    requires x in ParsePieces(pieces)
    ensures i < |pieces| && Yields(pieces[i], x)
  {
    ParsePiecesCons(pieces, x);
    if Yields(pieces[0], x) {
      i := 0;
    } else {
      var j := ParsedFrom(pieces[1..], x);
      i := j + 1;
    }
  }

  /** Every piece that yields an id puts it among the parsed ids. */
  lemma {:induction false} YieldedIsParsed(pieces: seq<string>, i: nat, x: int)
    requires i < |pieces| && Yields(pieces[i], x)
    ensures x in ParsePieces(pieces)
  {
    ParsePiecesCons(pieces, x);
    if i > 0 {
      YieldedIsParsed(pieces[1..], i - 1, x);
    }
  }

  /** One step of ParsePiecesMembers: the first piece contributes x, or the rest does. */
  lemma ParsePiecesCons(pieces: seq<string>, x: int)
    requires pieces != []
    ensures x in ParsePieces(pieces) <==> Yields(pieces[0], x) || x in ParsePieces(pieces[1..])
  {
    assert ParsePieces(pieces) == PieceIds(pieces[0]) + ParsePieces(pieces[1..]);
  }

  // ---------------------------------------------------------------------------
  // The exclusion filter and the dataset documents

  /**
    A published post or page as the dataset build sees it. `clean` stands for clean_text of its
    content, `modified` for get_post_modified_time (0 when it has none).
  */
  datatype Post = Post(id: int, kind: string, title: string, url: string, date: string,
                       clean: string, modified: int, cats: seq<int>, tags: seq<int>)

  /** The three exclusion settings, as stored. */
  datatype Settings = Settings(excludeIds: string, excludeCats: string, excludeTags: string)

  /** The settings parsed, as build_dataset does first. */
  datatype Exclusion = Exclusion(ids: seq<int>, cats: seq<int>, tags: seq<int>)

  function ParseSettings(s: Settings): Exclusion {
    Exclusion(IdsFromCsv(s.excludeIds), IdsFromCsv(s.excludeCats), IdsFromCsv(s.excludeTags))
  }

  predicate Intersects(a: seq<int>, b: seq<int>) {
    exists x :: x in a && x in b
  }

  /** The array_filter callback: pages always stay; a post goes if it shares a category or a tag. */
  predicate KeepPost(p: Post, exCats: seq<int>, exTags: seq<int>) {
    if p.kind != "post" then true
    else if exCats != [] && Intersects(p.cats, exCats) then false
    else if exTags != [] && Intersects(p.tags, exTags) then false
    else true
  }

  /** post__not_in, then the category/tag filter when either list is non-empty. */
  predicate Included(p: Post, ex: Exclusion) {
    p.id !in ex.ids && ((ex.cats == [] && ex.tags == []) || KeepPost(p, ex.cats, ex.tags))
  }

  /** The posts build_dataset keeps, in query order. */
  function Select(posts: seq<Post>, ex: Exclusion): (r: seq<Post>)
    ensures |r| <= |posts|
  {
    if posts == [] then []
    else (if Included(posts[0], ex) then [posts[0]] else []) + Select(posts[1..], ex)
  }

  /** Pages are never dropped by the category and tag rules, only by their id. */
  lemma PageKept(p: Post, ex: Exclusion)
    requires p.kind != "post"
    ensures Included(p, ex) <==> p.id !in ex.ids
  {
  }

  /** A post is dropped exactly when its id, one of its categories or one of its tags is excluded. */
  lemma PostExcluded(p: Post, ex: Exclusion)
    requires p.kind == "post"
    ensures !Included(p, ex) <==>
              p.id in ex.ids
              || (exists c :: c in p.cats && c in ex.cats)
              || (exists t :: t in p.tags && t in ex.tags)
  {
  }

  /** A post is selected exactly when it was queried and is not excluded. */
  lemma {:induction false} SelectMembers(posts: seq<Post>, ex: Exclusion, p: Post)
    ensures p in Select(posts, ex) <==> p in posts && Included(p, ex)
  {
    if posts != [] {
      SelectMembers(posts[1..], ex, p);
      assert posts == [posts[0]] + posts[1..];
    }
  }

  /** excerpt's marker: U+2026, the horizontal ellipsis. */
  const Ellipsis: char := '…'

  /** Cleaned text is cut to this many code points in the dataset. */
  const ExcerptLength: nat := 1000

  /** excerpt: the text when it has at most max code points, else its first max followed by '…'. */
  function Excerpt(text: string, max: nat): string {
    if |text| <= max then text else text[..max] + [Ellipsis]
  }

  /**
    A short text is kept whole; a long one keeps its first max code points and gains the
    ellipsis, max + 1 in all. Either way the result starts with what the text starts with.
  */
  lemma ExcerptSpec(text: string, max: nat)
    ensures var r := Excerpt(text, max);
            && (|text| <= max ==> r == text)
            && (|text| > max ==> |r| == max + 1 && r[max] == Ellipsis)
            && |r| <= max + 1
            && r[..Min(|text|, max)] == text[..Min(|text|, max)]
  {
  }

  /** Cutting an excerpt again changes nothing. */
  lemma ExcerptIdempotent(text: string, max: nat)
    ensures Excerpt(Excerpt(text, max), max) == Excerpt(text, max)
  {
    if |text| > max {
      var r := Excerpt(text, max);
      assert r[..max] == text[..max];
    }
  }

  /** One dataset document of a selected post. */
  function ToDoc(p: Post): Doc {
    Doc(p.id, p.title, p.url, p.date, p.kind, Excerpt(p.clean, ExcerptLength))
  }

  function Docs(posts: seq<Post>): (r: seq<Doc>)
    ensures |r| == |posts|
    ensures forall i :: 0 <= i < |posts| ==> r[i] == ToDoc(posts[i])
  {
    if posts == [] then [] else [ToDoc(posts[0])] + Docs(posts[1..])
  }

  /** Some document of docs has this id. */
  predicate HasDoc(docs: seq<Doc>, id: int) {
    exists i :: 0 <= i < |docs| && docs[i].id == id
  }

  /** Some queried post with this id survives the exclusions. */
  predicate Offered(posts: seq<Post>, ex: Exclusion, id: int) {
    exists p :: p in posts && p.id == id && Included(p, ex)
  }

  /** A payload document carries id exactly when some queried post with that id is not excluded. */
  lemma DocIdSelected(posts: seq<Post>, ex: Exclusion, id: int)
    ensures HasDoc(Docs(Select(posts, ex)), id) <==> Offered(posts, ex, id)
  {
    var sel := Select(posts, ex);
    var docs := Docs(sel);
    if HasDoc(docs, id) {
      var i :| 0 <= i < |docs| && docs[i].id == id;
      assert sel[i] in sel;
      SelectMembers(posts, ex, sel[i]);
      assert sel[i] in posts && sel[i].id == id && Included(sel[i], ex);
    }
    if Offered(posts, ex, id) {
      var p :| p in posts && p.id == id && Included(p, ex);
      SelectMembers(posts, ex, p);
      var i :| 0 <= i < |sel| && sel[i] == p;
      assert docs[i].id == id;
    }
  }

  /** Every payload text is an excerpt: at most 1001 code points. */
  lemma DocsShort(posts: seq<Post>)
    ensures var docs := Docs(posts);
            forall i :: 0 <= i < |docs| ==> |docs[i].text| <= ExcerptLength + 1
  {
    forall i | 0 <= i < |posts|
      ensures |Docs(posts)[i].text| <= ExcerptLength + 1
    {
      ExcerptSpec(posts[i].clean, ExcerptLength);
    }
  }
}
