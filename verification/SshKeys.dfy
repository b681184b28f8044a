/** api/admin_instances.go: mergeSSHPubkeys, the ordered union of two key lists. */
module SshKeys {

  datatype PubKey = PubKey(text: string)

  // The first n keys without repeats.
  function Merged(s: seq<PubKey>, n: nat): seq<PubKey>
    requires n <= |s|
  {
    if n == 0 then []
    else if s[n - 1] in Merged(s, n - 1) then Merged(s, n - 1)
    else Merged(s, n - 1) + [s[n - 1]]
  }

  ghost predicate Occurs(s: seq<PubKey>, n: nat, x: PubKey)
    requires n <= |s|
  {
    exists i :: 0 <= i < n && s[i] == x
  }

  /** The result holds the same keys as the lists, each once. */
  lemma {:induction false} MergedIsUnion(s: seq<PubKey>, n: nat)
    requires n <= |s|
    ensures forall k, l :: 0 <= k < l < |Merged(s, n)| ==> Merged(s, n)[k] != Merged(s, n)[l]
    ensures forall k :: 0 <= k < |Merged(s, n)| ==> Occurs(s, n, Merged(s, n)[k])
    ensures forall i :: 0 <= i < n ==> s[i] in Merged(s, n)
  {
    if n > 0 {
      var m := Merged(s, n - 1);
      MergedIsUnion(s, n - 1);
      forall k | 0 <= k < |Merged(s, n)| ensures Occurs(s, n, Merged(s, n)[k]) {
        if k < |m| {
          assert Occurs(s, n - 1, m[k]);
        }
      }
      assert Merged(s, n) == if s[n - 1] in m then m else m + [s[n - 1]];
    }
  }

  lemma {:induction false} MergedGrows(s: seq<PubKey>, m: nat, n: nat)
    requires m <= n <= |s|
    ensures |Merged(s, m)| <= |Merged(s, n)|
    ensures forall k :: 0 <= k < |Merged(s, m)| ==> Merged(s, n)[k] == Merged(s, m)[k]
  {
    if m < n {
      MergedGrows(s, m, n - 1);
    }
  }

  /** And in the order of first occurrence: a key whose first occurrence is at i comes after
      exactly the distinct keys that occur before i. */
  lemma MergedInOrder(s: seq<PubKey>, n: nat, i: nat)
    requires i < n <= |s| && forall j :: 0 <= j < i ==> s[j] != s[i]
    ensures |Merged(s, i)| < |Merged(s, n)| && Merged(s, n)[|Merged(s, i)|] == s[i]
  {
    MergedIsUnion(s, i);
    assert s[i] !in Merged(s, i);
    MergedGrows(s, i + 1, n);
  }

  // One of the two loops: keys is the stretch of all that begins at start.
  method Extend(ghost all: seq<PubKey>, ghost start: nat, keys: seq<PubKey>, seen0: set<PubKey>, out0: seq<PubKey>)
    returns (seen: set<PubKey>, out: seq<PubKey>)
    requires start + |keys| <= |all| && forall k :: 0 <= k < |keys| ==> all[start + k] == keys[k]
    requires out0 == Merged(all, start) && forall x :: x in seen0 <==> x in out0
    ensures out == Merged(all, start + |keys|) && forall x :: x in seen <==> x in out
  {
    seen, out := seen0, out0;
    for i := 0 to |keys|
      invariant out == Merged(all, start + i) && forall x :: x in seen <==> x in out
    {
      assert all[start + i] == keys[i];
      if keys[i] in seen { continue; }
      seen, out := seen + {keys[i]}, out + [keys[i]];
    }
  }

  method MergeSshPubkeys(a: seq<PubKey>, b: seq<PubKey>) returns (out: seq<PubKey>)
    ensures out == Merged(a + b, |a| + |b|)
  {
    var seen: set<PubKey>;
    seen, out := Extend(a + b, 0, a, {}, []);
    seen, out := Extend(a + b, |a|, b, seen, out);
  }
}
