/** The greedy scan of OP_CHECKMULTISIG. */
module MultiSig {
  import opened Basics

  /** Which signatures match which keys: CheckSig for one transaction input, one
      hash type and one script code. */
  type Check = (seq<byte>, seq<byte>) -> bool

  ghost predicate Increasing(f: seq<nat>) {
    forall j, k :: 0 <= j < k < |f| ==> f[j] < f[k]
  }

  /** f gives every signature a key of its own, in the same order, and every
      signature checks against its key. */
  ghost predicate Assigns(check: Check, sigs: seq<seq<byte>>, keys: seq<seq<byte>>, f: seq<nat>) {
    |f| == |sigs| && Increasing(f) && forall k :: 0 <= k < |f| ==> f[k] < |keys| && check(sigs[k], keys[f[k]])
  }

  ghost predicate Signed(check: Check, sigs: seq<seq<byte>>, keys: seq<seq<byte>>) {
    exists f :: Assigns(check, sigs, keys, f)
  }

  lemma {:induction false} NoSignatures(check: Check, keys: seq<seq<byte>>)
    ensures Signed(check, [], keys)
  {
    assert Assigns(check, [], keys, []);
  }

  /** More signatures than keys can never be assigned. */
  lemma {:induction false} TooFewKeys(check: Check, sigs: seq<seq<byte>>, keys: seq<seq<byte>>)
    requires |sigs| > |keys|
    ensures !Signed(check, sigs, keys)
  {
    forall f | Assigns(check, sigs, keys, f)
      ensures false
    {
      AtLeastItsIndex(f, |f| - 1);
    }
  }

  lemma {:induction false} AtLeastItsIndex(f: seq<nat>, k: nat)
    requires Increasing(f) && k < |f|
    ensures f[k] >= k
  {
    if k > 0 {
      AtLeastItsIndex(f, k - 1);
    }
  }

  /** Taking the first key that matches the first signature loses nothing. */
  lemma {:induction false} ScanStep(check: Check, sigs: seq<seq<byte>>, keys: seq<seq<byte>>)
    requires sigs != [] && keys != []
    ensures Signed(check, sigs, keys)
       <==> Signed(check, if check(sigs[0], keys[0]) then sigs[1..] else sigs, keys[1..])
  {
    var left := if check(sigs[0], keys[0]) then sigs[1..] else sigs;
    if Signed(check, sigs, keys) {
      var f :| Assigns(check, sigs, keys, f);
      FirstKeyDropped(check, sigs, keys, f);
    }
    if Signed(check, left, keys[1..]) {
      var f :| Assigns(check, left, keys[1..], f);
      FirstKeyAdded(check, sigs, keys, f);
    }
  }

  lemma {:induction false} FirstKeyDropped(check: Check, sigs: seq<seq<byte>>, keys: seq<seq<byte>>, f: seq<nat>)
    requires sigs != [] && keys != [] && Assigns(check, sigs, keys, f)
    ensures Signed(check, if check(sigs[0], keys[0]) then sigs[1..] else sigs, keys[1..])
  {
    forall k | 0 < k < |f|
      ensures f[k] > f[0]
    {
    }
    if check(sigs[0], keys[0]) {
      var g := seq(|f| - 1, k requires 0 <= k < |f| - 1 => (assert f[k + 1] > f[0]; f[k + 1] - 1));
      assert Assigns(check, sigs[1..], keys[1..], g);
    } else {
      assert f[0] != 0;
      var g := seq(|f|, k requires 0 <= k < |f| => (assert f[k] >= f[0]; f[k] - 1));
      assert Assigns(check, sigs, keys[1..], g);
    }
  }

  lemma {:induction false} FirstKeyAdded(check: Check, sigs: seq<seq<byte>>, keys: seq<seq<byte>>, f: seq<nat>)
    requires sigs != [] && keys != []
    requires Assigns(check, if check(sigs[0], keys[0]) then sigs[1..] else sigs, keys[1..], f)
    ensures Signed(check, sigs, keys)
  {
    if check(sigs[0], keys[0]) {
      LaterKeys(check, sigs[1..], keys, f);
      FirstKeyTaken(check, sigs, keys, Up(f));
    } else {
      LaterKeys(check, sigs, keys, f);
    }
  }

  function Up(f: seq<nat>): (g: seq<nat>)
    ensures |g| == |f| && forall k :: 0 <= k < |f| ==> g[k] == f[k] + 1
  {
    seq(|f|, k requires 0 <= k < |f| => f[k] + 1)
  }

  lemma {:induction false} LaterKeys(check: Check, sigs: seq<seq<byte>>, keys: seq<seq<byte>>, f: seq<nat>)
    requires keys != [] && Assigns(check, sigs, keys[1..], f)
    ensures Assigns(check, sigs, keys, Up(f))
  {
    forall k | 0 <= k < |f|
      ensures Up(f)[k] < |keys| && check(sigs[k], keys[Up(f)[k]])
    {
      assert keys[1..][f[k]] == keys[f[k] + 1];
    }
  }

  lemma {:induction false} FirstKeyTaken(check: Check, sigs: seq<seq<byte>>, keys: seq<seq<byte>>, g: seq<nat>)
    requires sigs != [] && keys != [] && check(sigs[0], keys[0])
    requires Assigns(check, sigs[1..], keys, g) && forall k :: 0 <= k < |g| ==> g[k] > 0
    ensures Signed(check, sigs, keys)
  {
    var h := [0] + g;
    forall j, k | 0 <= j < k < |h|
      ensures h[j] < h[k]
    {
      assert h[k] == g[k - 1];
      assert j > 0 ==> h[j] == g[j - 1];
    }
    forall k | 0 <= k < |h|
      ensures h[k] < |keys| && check(sigs[k], keys[h[k]])
    {
      assert k > 0 ==> h[k] == g[k - 1] && sigs[1..][k - 1] == sigs[k];
    }
    assert Assigns(check, sigs, keys, h);
  }

  /** Read from the other end, an assignment in order is still one. */
  lemma {:induction false} SignedReverse(check: Check, sigs: seq<seq<byte>>, keys: seq<seq<byte>>)
    ensures Signed(check, Reverse(sigs), Reverse(keys)) <==> Signed(check, sigs, keys)
  {
    if Signed(check, sigs, keys) {
      SignedBackwards(check, sigs, keys);
    }
    if Signed(check, Reverse(sigs), Reverse(keys)) {
      SignedBackwards(check, Reverse(sigs), Reverse(keys));
      ReverseTwice(sigs);
      ReverseTwice(keys);
    }
  }

  lemma {:induction false} SignedBackwards(check: Check, sigs: seq<seq<byte>>, keys: seq<seq<byte>>)
    requires Signed(check, sigs, keys)
    ensures Signed(check, Reverse(sigs), Reverse(keys))
  {
    var f :| Assigns(check, sigs, keys, f);
    var n := |f|;
    var g := seq(n, k requires 0 <= k < n => (assert f[n - 1 - k] < |keys|; |keys| - 1 - f[n - 1 - k]));
    forall j, k | 0 <= j < k < |g|
      ensures g[j] < g[k]
    {
      assert f[n - 1 - k] < f[n - 1 - j];
    }
    forall k | 0 <= k < |g|
      ensures g[k] < |keys| && check(Reverse(sigs)[k], Reverse(keys)[g[k]])
    {
      assert check(sigs[n - 1 - k], keys[f[n - 1 - k]]);
    }
    assert Assigns(check, Reverse(sigs), Reverse(keys), g);
  }

  /** The n stack items from position first down, position 1 being the top. */
  function TopDown(stack: seq<seq<byte>>, first: nat, n: nat): (r: seq<seq<byte>>)
    requires first >= 1 && first + n <= |stack| + 1
    ensures |r| == n && forall k :: 0 <= k < n ==> r[k] == stack[|stack| - first - k]
  {
    seq(n, k requires 0 <= k < n => stack[|stack| - first - k])
  }

  lemma {:induction false} TopDownTail(stack: seq<seq<byte>>, first: nat, n: nat)
    requires first >= 1 && n > 0 && first + n <= |stack| + 1
    ensures TopDown(stack, first, n)[1..] == TopDown(stack, first + 1, n - 1)
    ensures TopDown(stack, first, n)[0] == stack[|stack| - first]
  {
  }

  /** The scan over the stack, with the source's counters: it succeeds exactly when
      all signatures can be assigned to keys in order. */
  method ScanSignatures(check: Check, stack: seq<seq<byte>>, isigIn: nat, nSigsIn: nat, ikeyIn: nat, nKeysIn: nat)
    returns (fSuccess: bool)
    requires isigIn >= 1 && isigIn + nSigsIn <= |stack| + 1
    requires ikeyIn >= 1 && ikeyIn + nKeysIn <= |stack| + 1
    requires nSigsIn <= nKeysIn
    ensures fSuccess <==> Signed(check, TopDown(stack, isigIn, nSigsIn), TopDown(stack, ikeyIn, nKeysIn))
  {
    var isig, nSigsCount, ikey, nKeysCount: int := isigIn, nSigsIn, ikeyIn, nKeysIn;
    fSuccess := true;
    while fSuccess && nSigsCount > 0
      invariant isig >= 1 && 0 <= nSigsCount && isig + nSigsCount <= |stack| + 1
      invariant ikey >= 1 && 0 <= nKeysCount && ikey + nKeysCount <= |stack| + 1
      invariant fSuccess <==> nSigsCount <= nKeysCount
      invariant Signed(check, TopDown(stack, isigIn, nSigsIn), TopDown(stack, ikeyIn, nKeysIn))
           <==> Signed(check, TopDown(stack, isig, nSigsCount), TopDown(stack, ikey, nKeysCount))
      decreases nKeysCount
    {
      TopDownTail(stack, isig, nSigsCount);
      TopDownTail(stack, ikey, nKeysCount);
      ScanStep(check, TopDown(stack, isig, nSigsCount), TopDown(stack, ikey, nKeysCount));
      if check(stack[|stack| - isig], stack[|stack| - ikey]) {
        isig := isig + 1;
        nSigsCount := nSigsCount - 1;
      }
      ikey := ikey + 1;
      nKeysCount := nKeysCount - 1;
      if nSigsCount > nKeysCount {
        fSuccess := false;
      }
    }
    if fSuccess {
      NoSignatures(check, TopDown(stack, ikey, nKeysCount));
    } else {
      TooFewKeys(check, TopDown(stack, isig, nSigsCount), TopDown(stack, ikey, nKeysCount));
    }
  }
}
