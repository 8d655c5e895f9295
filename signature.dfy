/**
  current_content_signature: a digest of how many posts and pages are published, the latest
  modification time among them, their ids in order of modification, and the three exclusion
  settings. The daily job rebuilds the dataset only when this digest changes.

  sha1 and md5 are taken to be injective. The digested text is
  count '|' last_mod '|' md5(ids) '|' cfg, where the first two are decimal numerals and the md5 is
  32 hexadecimal digits, none of which can hold a '|', so the text determines the four parts; the
  signature is therefore modelled as the tuple of those parts.
*/
module Signature {
  import opened Util
  import opened Exclusions

  datatype Sig = Sig(count: int, lastModified: int, ids: seq<int>, cfg: string)

  /** implode('|', [exclude ids, exclude cats, exclude tags]) */
  function Cfg(s: Settings): string {
    s.excludeIds + "|" + s.excludeCats + "|" + s.excludeTags
  }

  /**
    What the loop's guarded update of last_mod leaves after all posts: the largest positive
    modification time, or 0 when there is none.
  */
  function MaxModified(posts: seq<Post>): (r: int)
    ensures r >= 0
    ensures forall i :: 0 <= i < |posts| ==> posts[i].modified <= r
    ensures r == 0 || exists i :: 0 <= i < |posts| && posts[i].modified == r
  {
    if posts == [] then 0
    else
      var m := MaxModified(posts[..|posts| - 1]);
      var t := posts[|posts| - 1].modified;
      assert forall i :: 0 <= i < |posts| - 1 ==> posts[..|posts| - 1][i] == posts[i];
      if t != 0 && t > m then t else m
  }

  function IdsOf(posts: seq<Post>): (r: seq<int>)
    ensures |r| == |posts| && forall i :: 0 <= i < |posts| ==> r[i] == posts[i].id
  {
    if posts == [] then [] else IdsOf(posts[..|posts| - 1]) + [posts[|posts| - 1].id]
  }

  /** The signature of the published posts and pages, listed by modification time, newest first. */
  function ContentSignature(byModified: seq<Post>, s: Settings): Sig {
    Sig(|byModified|, MaxModified(byModified), IdsOf(byModified), Cfg(s))
  }

  /** The loop of current_content_signature, which collects the ids and the latest time. */
  method CurrentSignature(byModified: seq<Post>, s: Settings) returns (sig: Sig)
    ensures sig == ContentSignature(byModified, s)
  {
    var lastMod := 0;
    var idInput: seq<int> := [];
    var i := 0;
    while i < |byModified|
      invariant 0 <= i <= |byModified|
      invariant lastMod == MaxModified(byModified[..i])
      invariant idInput == IdsOf(byModified[..i])
    {
      assert byModified[..i + 1][..i] == byModified[..i];
      var t := byModified[i].modified;
      idInput := idInput + [byModified[i].id];
      if t != 0 && t > lastMod {
        lastMod := t;
      }
      i := i + 1;
    }
    assert byModified[..i] == byModified;
    sig := Sig(|byModified|, lastMod, idInput, Cfg(s));
  }

  /** With the same posts, two settings give the same signature exactly when their joined text is equal. */
  lemma SettingsOnlyThroughCfg(posts: seq<Post>, s1: Settings, s2: Settings)
    ensures ContentSignature(posts, s1) == ContentSignature(posts, s2) <==> Cfg(s1) == Cfg(s2)
  {
  }

  /** Publishing, unpublishing or reordering posts (by modification) changes the signature. */
  lemma IdsChangeSignature(a: seq<Post>, b: seq<Post>, s: Settings)
    requires IdsOf(a) != IdsOf(b)
    ensures ContentSignature(a, s) != ContentSignature(b, s)
  {
  }

  /**
    Saving a post so that its modification time passes every other one changes the signature,
    even when the set of posts stays the same.
  */
  lemma EditChangesSignature(posts: seq<Post>, k: nat, t: int, s: Settings)
    requires k < |posts|
    requires t > MaxModified(posts)
    ensures MaxModified(posts[k := posts[k].(modified := t)]) == t
    ensures ContentSignature(posts[k := posts[k].(modified := t)], s) != ContentSignature(posts, s)
  {
    var edited := posts[k := posts[k].(modified := t)];
    assert edited[k].modified == t;
    forall j | 0 <= j < |edited|
      ensures edited[j].modified <= t
    {
      if j != k {
        assert edited[j] == posts[j];
      }
    }
    var m := MaxModified(edited);
    assert m >= t > 0;
    var i :| 0 <= i < |edited| && edited[i].modified == m;
  }

  /**
    Changing a post's text without changing its modification time leaves the signature as it
    was: the digest reads only the count, the ids, the times and the settings.
  */
  lemma ContentNotRead(posts: seq<Post>, k: nat, text: string, s: Settings)
    requires k < |posts|
    ensures ContentSignature(posts[k := posts[k].(clean := text)], s) == ContentSignature(posts, s)
  {
    var edited := posts[k := posts[k].(clean := text)];
    SameTimesSameMax(posts, edited);
  }

  lemma {:induction false} SameTimesSameMax(a: seq<Post>, b: seq<Post>)
    requires |a| == |b| && forall i :: 0 <= i < |a| ==> a[i].modified == b[i].modified
    ensures MaxModified(a) == MaxModified(b)
  {
    if a != [] {
      var n := |a| - 1;
      assert forall i :: 0 <= i < n ==> a[..n][i] == a[i] && b[..n][i] == b[i];
      SameTimesSameMax(a[..n], b[..n]);
    }
  }
}
