/** std::search for a pattern of bytes. */
module ByteSearch {
  import opened Basics

  /** pat lies in s at position p. */
  predicate Occurs(s: seq<byte>, pat: seq<byte>, p: nat) {
    p <= |s| && pat <= s[p..]
  }

  /** The first position where pat lies; the length of s if nowhere. */
  function Search(s: seq<byte>, pat: seq<byte>): (p: nat)
    requires pat != []
    ensures p <= |s|
  {
    if |s| < |pat| then |s| else if s[..|pat|] == pat then 0 else 1 + Search(s[1..], pat)
  }

  lemma {:induction false} SearchFinds(s: seq<byte>, pat: seq<byte>)
    requires pat != []
    ensures Search(s, pat) < |s| ==> Occurs(s, pat, Search(s, pat))
  {
    if |s| >= |pat| && s[..|pat|] != pat {
      SearchFinds(s[1..], pat);
      if Search(s, pat) < |s| {
        DropDrop(s, 1, Search(s, pat) - 1);
      }
    }
  }

  /** No position before the one found, and none at all if nothing is found. */
  lemma {:induction false} SearchFirst(s: seq<byte>, pat: seq<byte>, p: nat)
    requires pat != [] && Occurs(s, pat, p)
    ensures Search(s, pat) <= p && Search(s, pat) < |s|
  {
    if p == 0 {
      assert s[0..] == s && s[..|pat|] == pat;
    } else if s[..|pat|] != pat {
      DropDrop(s, 1, p - 1);
      SearchFirst(s[1..], pat, p - 1);
    }
  }

  /** What is found in v is found there whatever follows. */
  lemma {:induction false} SearchFound(v: seq<byte>, w: seq<byte>, pat: seq<byte>)
    requires pat != [] && Search(v, pat) < |v|
    ensures Search(v + w, pat) == Search(v, pat)
  {
    assert (v + w)[..|pat|] == v[..|pat|];
    if v[..|pat|] != pat {
      assert (v + w)[1..] == v[1..] + w;
      SearchFound(v[1..], w, pat);
    }
  }

  /** Positions before k hold no pattern, whatever follows. */
  lemma {:induction false} SearchBeyond(v: seq<byte>, w: seq<byte>, pat: seq<byte>, k: nat)
    requires pat != [] && k <= Search(v, pat) && k + |pat| <= |v| + 1
    ensures Search(v + w, pat) == k + Search((v + w)[k..], pat)
  {
    if k == 0 {
      assert (v + w)[0..] == v + w;
    } else {
      assert (v + w)[..|pat|] == v[..|pat|];
      assert (v + w)[1..] == v[1..] + w;
      SearchBeyond(v[1..], w, pat, k - 1);
      assert (v[1..] + w)[k - 1..] == (v + w)[k..];
    }
  }

  lemma {:induction false} SearchAtStart(s: seq<byte>, pat: seq<byte>)
    requires pat != [] && pat <= s
    ensures Search(s, pat) == 0 && s[0..] == s
  {
    assert s[..|pat|] == pat;
  }
}
