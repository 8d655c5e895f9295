/**
  The engine's tokenizer: lower-case the text, turn every character that is neither a letter,
  a digit nor whitespace into a space, split on runs of whitespace and drop empty pieces.
  Letters and digits are the ASCII ones here; the source uses the Unicode classes.
*/
module Tokenizer {
  import opened Util

  /** A letter or a digit (\p{L} and \p{N}, ASCII part). */
  predicate IsWordChar(c: char) {
    'a' <= c <= 'z' || 'A' <= c <= 'Z' || '0' <= c <= '9'
  }

  /** What a token may be made of: lower-case letters and digits. */
  predicate IsTokenChar(c: char) {
    'a' <= c <= 'z' || '0' <= c <= '9'
  }

  /** A well-formed token: non-empty and made of token characters only (so it holds no whitespace). */
  predicate IsToken(t: string) {
    t != [] && forall i :: 0 <= i < |t| ==> IsTokenChar(t[i])
  }

  /** The replace step: every character other than a letter, digit or whitespace becomes a space. */
  function Blank(s: string): (r: string)
    ensures |r| == |s|
    ensures forall i :: 0 <= i < |s| ==> r[i] == if IsWordChar(s[i]) || IsSpace(s[i]) then s[i] else ' '
  {
    seq(|s|, i requires 0 <= i < |s| => if IsWordChar(s[i]) || IsSpace(s[i]) then s[i] else ' ')
  }

  /** The token under construction, emitted when a separator or the end is reached (filter(Boolean)). */
  function Flush(cur: string): seq<string> {
    if cur == [] then [] else [cur]
  }

  /** split(/\s+/) followed by filter(Boolean), scanning left to right with the current token in `cur`. */
  function Scan(s: string, cur: string): seq<string>
    decreases |s|
  {
    if s == [] then Flush(cur)
    else if IsSpace(s[0]) then Flush(cur) + Scan(s[1..], [])
    else Scan(s[1..], cur + [s[0]])
  }

  function Tokenize(s: string): seq<string> {
    Scan(Blank(Lower(s)), [])
  }

  /** The tokens joined by single spaces. */
  function Join(ts: seq<string>): string {
    if ts == [] then []
    else if |ts| == 1 then ts[0]
    else ts[0] + " " + Join(ts[1..])
  }

  function Concat(ts: seq<string>): string {
    if ts == [] then [] else ts[0] + Concat(ts[1..])
  }

  /** The letters and digits of s, lower-cased, in order. */
  function WordChars(s: string): string {
    if s == [] then []
    else (if IsWordChar(s[0]) then [LowerChar(s[0])] else []) + WordChars(s[1..])
  }

  /** Array.from(new Set(a)): the distinct elements of a, each at its first occurrence. */
  function Uniq(a: seq<string>): (r: seq<string>)
    ensures forall x :: x in r <==> x in a
    ensures forall i, j :: 0 <= i < j < |r| ==> r[i] != r[j]
    ensures |r| <= |a|
    decreases |a|
  {
    if a == [] then []
    else
      var r := Uniq(a[..|a| - 1]);
      assert forall x :: x in a <==> x in a[..|a| - 1] || x == a[|a| - 1] by {
        assert a == a[..|a| - 1] + [a[|a| - 1]];
      }
      if a[|a| - 1] in r then r else r + [a[|a| - 1]]
  }

  // ---------------------------------------------------------------------------
  // Every token is non-empty, lower-case and free of whitespace and punctuation.

  /** Adding one element to the input adds it to the end of the output unless already there. */
  lemma UniqStep(a: seq<string>, i: nat)
    requires i < |a|
    ensures Uniq(a[..i + 1]) == if a[i] in a[..i] then Uniq(a[..i]) else Uniq(a[..i]) + [a[i]]
  {
    assert a[..i + 1][..i] == a[..i];
  }

  lemma {:induction false} ScanTokens(s: string, cur: string)
    requires forall i :: 0 <= i < |s| ==> IsTokenChar(s[i]) || IsSpace(s[i])
    requires forall i :: 0 <= i < |cur| ==> IsTokenChar(cur[i])
    ensures forall t :: t in Scan(s, cur) ==> IsToken(t)
    decreases |s|
  {
    if s == [] {
    } else if IsSpace(s[0]) {
      ScanTokens(s[1..], []);
    } else {
      ScanTokens(s[1..], cur + [s[0]]);
    }
  }

  lemma NormalizedChars(s: string)
    ensures var n := Blank(Lower(s));
            forall i :: 0 <= i < |n| ==> IsTokenChar(n[i]) || IsSpace(n[i])
  {
  }

  /** Every token is non-empty and made of lower-case letters and digits only; "" gives no tokens. */
  lemma TokenizeWellFormed(s: string)
    ensures forall t :: t in Tokenize(s) ==> IsToken(t)
    ensures s == [] ==> Tokenize(s) == []
  {
    NormalizedChars(s);
    ScanTokens(Blank(Lower(s)), []);
  }

  // ---------------------------------------------------------------------------
  // No letter or digit is lost and nothing else is kept.

  lemma {:induction false} ScanConcat(s: string, cur: string)
    ensures Concat(Scan(s, cur)) == cur + NonSpace(s)
    decreases |s|
  {
    if s == [] {
      assert Concat(Flush(cur)) == cur;
    } else if IsSpace(s[0]) {
      ScanConcat(s[1..], []);
      ConcatAppend(Flush(cur), Scan(s[1..], []));
      assert Concat(Flush(cur)) == cur;
    } else {
      ScanConcat(s[1..], cur + [s[0]]);
      assert cur + [s[0]] + NonSpace(s[1..]) == cur + ([s[0]] + NonSpace(s[1..]));
    }
  }

  function NonSpace(s: string): string {
    if s == [] then [] else (if IsSpace(s[0]) then [] else [s[0]]) + NonSpace(s[1..])
  }

  lemma {:induction false} ConcatAppend(a: seq<string>, b: seq<string>)
    ensures Concat(a + b) == Concat(a) + Concat(b)
  {
    if a == [] {
      assert a + b == b;
    } else {
      ConcatAppend(a[1..], b);
      assert (a + b)[0] == a[0] && (a + b)[1..] == a[1..] + b;
    }
  }

  lemma {:induction false} NonSpaceOfNormalized(s: string)
    ensures NonSpace(Blank(Lower(s))) == WordChars(s)
  {
    if s != [] {
      NonSpaceOfNormalized(s[1..]);
      assert Blank(Lower(s))[1..] == Blank(Lower(s[1..]));
    }
  }

  /** Joining the tokens back together gives exactly the letters and digits of the input, lower-cased. */
  lemma TokenizeKeepsWordChars(s: string)
    ensures Concat(Tokenize(s)) == WordChars(s)
  {
    ScanConcat(Blank(Lower(s)), []);
    NonSpaceOfNormalized(s);
  }

  // ---------------------------------------------------------------------------
  // Tokenizing the tokens joined by spaces gives the same tokens back.

  lemma {:induction false} ScanWord(t: string, rest: string, cur: string)
    requires forall i :: 0 <= i < |t| ==> !IsSpace(t[i])
    ensures Scan(t + rest, cur) == Scan(rest, cur + t)
    decreases |t|
  {
    if t != [] {
      assert (t + rest)[0] == t[0] && (t + rest)[1..] == t[1..] + rest;
      ScanWord(t[1..], rest, cur + [t[0]]);
      assert cur + [t[0]] + t[1..] == cur + t;
    } else {
      assert t + rest == rest && cur + t == cur;
    }
  }

  lemma {:induction false} ScanJoin(ts: seq<string>)
    requires forall k :: 0 <= k < |ts| ==> IsToken(ts[k])
    ensures Scan(Join(ts), []) == ts
    decreases |ts|
  {
    if ts == [] {
    } else if |ts| == 1 {
      assert Join(ts) == ts[0] + [];
      ScanWord(ts[0], [], []);
      assert [] + ts[0] == ts[0];
      assert Scan([], ts[0]) == [ts[0]];
    } else {
      var rest := " " + Join(ts[1..]);
      assert Join(ts) == ts[0] + rest;
      ScanWord(ts[0], rest, []);
      assert [] + ts[0] == ts[0];
      assert rest[0] == ' ' && rest[1..] == Join(ts[1..]);
      ScanJoin(ts[1..]);
      assert ts == [ts[0]] + ts[1..];
    }
  }

  lemma {:induction false} JoinChars(ts: seq<string>)
    requires forall k :: 0 <= k < |ts| ==> IsToken(ts[k])
    ensures forall i :: 0 <= i < |Join(ts)| ==> IsTokenChar(Join(ts)[i]) || Join(ts)[i] == ' '
    decreases |ts|
  {
    if |ts| > 1 {
      JoinChars(ts[1..]);
      var j := Join(ts[1..]);
      assert Join(ts) == ts[0] + " " + j;
      forall i | 0 <= i < |Join(ts)|
        ensures IsTokenChar(Join(ts)[i]) || Join(ts)[i] == ' '
      {
        if i < |ts[0]| {
          assert Join(ts)[i] == ts[0][i];
        } else if i > |ts[0]| {
          assert Join(ts)[i] == j[i - |ts[0]| - 1];
        }
      }
    }
  }

  lemma NormalizeTokenText(s: string)
    requires forall i :: 0 <= i < |s| ==> IsTokenChar(s[i]) || s[i] == ' '
    ensures Blank(Lower(s)) == s
  {
  }

  /** Tokenize is idempotent on its own output: re-tokenizing the joined tokens yields them unchanged. */
  lemma TokenizeJoinRoundTrip(s: string)
    ensures Tokenize(Join(Tokenize(s))) == Tokenize(s)
  {
    var ts := Tokenize(s);
    TokenizeWellFormed(s);
    JoinChars(ts);
    NormalizeTokenText(Join(ts));
    ScanJoin(ts);
  }
}
