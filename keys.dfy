/** The key choice inside `verify_decode_jwt` (auth.py:165-179): a scan of the key
    set for the token's `kid`, which keeps reassigning the chosen key on every
    match, so the last matching entry wins. */
module KeySelection {
  import opened AuthResults

  /** One entry of the key set's `keys` list: a JSON object of strings. */
  type Jwk = map<string, string>

  /** The chosen key: exactly the five entries the source copies. */
  datatype RsaKey = RsaKey(kty: string, kid: string, use: string, n: string, e: string)

  /** What the scan ends with: a key, no key, or a `KeyError` from reading an entry
      the record lacks. */
  datatype Selection = Selected(key: RsaKey) | NoMatch | MissingEntry

  predicate HasRsaEntries(key: Jwk)
  {
    "kty" in key && "kid" in key && "use" in key && "n" in key && "e" in key
  }

  /** The record `{kty, kid, use, n, e}` built from a matching entry. */
  function Project(key: Jwk): (k: RsaKey)
    requires HasRsaEntries(key)
  {
    RsaKey(key["kty"], key["kid"], key["use"], key["n"], key["e"])
  }

  predicate Matches(key: Jwk, kid: string)
  {
    "kid" in key && key["kid"] == kid
  }

  /** Reading this entry raises `KeyError`: it has no `kid`, or it matches and
      lacks one of the entries that are copied. */
  predicate Faulty(key: Jwk, kid: string)
  {
    "kid" !in key || (key["kid"] == kid && !HasRsaEntries(key))
  }

  predicate NoFault(keys: seq<Jwk>, kid: string)
  {
    forall i :: 0 <= i < |keys| ==> !Faulty(keys[i], kid)
  }

  /** The index of the last entry whose `kid` is `kid`. */
  function LastMatch(keys: seq<Jwk>, kid: string): (r: Option<nat>)
    ensures r.Some? ==> r.value < |keys| && Matches(keys[r.value], kid)
    ensures r.Some? ==> forall i :: r.value < i < |keys| ==> !Matches(keys[i], kid)
    ensures r.None? <==> forall i :: 0 <= i < |keys| ==> !Matches(keys[i], kid)
  {
    if |keys| == 0 then None
    else if Matches(keys[|keys| - 1], kid) then Some(|keys| - 1)
    else LastMatch(keys[..|keys| - 1], kid)
  }

  /** The projection of the last matching entry, if any. */
  function LastMatchKey(keys: seq<Jwk>, kid: string): Option<RsaKey>
    requires NoFault(keys, kid)
  {
    match LastMatch(keys, kid)
    case None => None
    case Some(j) => assert !Faulty(keys[j], kid); Some(Project(keys[j]))
  }

  /** What the scan of the key set selects. */
  function KeySearch(keys: seq<Jwk>, kid: string): (s: Selection)
    ensures s.Selected? ==> s.key.kid == kid
    ensures s.NoMatch? ==> forall i :: 0 <= i < |keys| ==> !Matches(keys[i], kid)
    ensures s.MissingEntry? <==> exists i :: 0 <= i < |keys| && Faulty(keys[i], kid)
  {
    if !NoFault(keys, kid) then MissingEntry
    else
      match LastMatchKey(keys, kid)
      case None => NoMatch
      case Some(k) => Selected(k)
  }

  /** The loop of auth.py:171-179, entry by entry. */
  method SelectKey(keys: seq<Jwk>, kid: string) returns (s: Selection)
    ensures s == KeySearch(keys, kid)
  {
    var rsaKey: Option<RsaKey> := None;
    for i := 0 to |keys|
      invariant NoFault(keys[..i], kid)
      invariant rsaKey == LastMatchKey(keys[..i], kid)
    {
      var key := keys[i];
      assert keys[..i + 1][..i] == keys[..i];
      if "kid" !in key {
        assert Faulty(keys[i], kid);
        return MissingEntry;
      }
      if key["kid"] == kid {
        if !HasRsaEntries(key) {
          assert Faulty(keys[i], kid);
          return MissingEntry;
        }
        rsaKey := Some(Project(key));
      }
    }
    assert keys[..|keys|] == keys;
    s := if rsaKey.Some? then Selected(rsaKey.value) else NoMatch;
  }

  /** `j` is the last position whose entry matches `kid`. */
  predicate IsLastMatch(keys: seq<Jwk>, kid: string, j: int)
  {
    && 0 <= j < |keys|
    && Matches(keys[j], kid)
    && forall i :: j < i < |keys| ==> !Matches(keys[i], kid)
  }

  /** A key is selected exactly when no entry raises and some entry matches; the
      selected key is then the five-entry copy of the last matching entry, and its
      `kid` is the one searched for. */
  lemma SelectedIsLastMatch(keys: seq<Jwk>, kid: string)
    ensures KeySearch(keys, kid).Selected? <==>
      NoFault(keys, kid) && exists j :: 0 <= j < |keys| && Matches(keys[j], kid)
    ensures KeySearch(keys, kid).NoMatch? <==>
      NoFault(keys, kid) && forall j :: 0 <= j < |keys| ==> !Matches(keys[j], kid)
    ensures KeySearch(keys, kid).Selected? ==>
      exists j :: IsLastMatch(keys, kid, j) && HasRsaEntries(keys[j])
               && KeySearch(keys, kid).key == Project(keys[j])
    ensures KeySearch(keys, kid).Selected? ==> KeySearch(keys, kid).key.kid == kid
  {
    if NoFault(keys, kid) && LastMatch(keys, kid).Some? {
      var j := LastMatch(keys, kid).value;
      assert !Faulty(keys[j], kid);
      assert IsLastMatch(keys, kid, j);
    }
  }

  /** Appending a complete entry for `kid` to a fault-free key set makes it the
      selected key, whatever matched before. */
  lemma LaterMatchOverrides(keys: seq<Jwk>, kid: string, key: Jwk)
    requires NoFault(keys, kid)
    requires Matches(key, kid) && HasRsaEntries(key)
    ensures KeySearch(keys + [key], kid) == Selected(Project(key))
  {
    var all := keys + [key];
    assert all[..|all| - 1] == keys;
    assert NoFault(all, kid);
  }

  /** Appending an entry with another `kid` changes nothing. */
  lemma OtherKidIgnored(keys: seq<Jwk>, kid: string, key: Jwk)
    requires "kid" in key && key["kid"] != kid
    ensures KeySearch(keys + [key], kid) == KeySearch(keys, kid)
  {
    var all := keys + [key];
    assert all[..|all| - 1] == keys;
    assert NoFault(all, kid) <==> NoFault(keys, kid) by {
      if NoFault(keys, kid) {
        assert forall i :: 0 <= i < |all| ==> all[i] == if i < |keys| then keys[i] else key;
      }
    }
  }

  /** Two complete entries with the same `kid`: the second one is used, and an
      entry with no `kid` anywhere in the list makes the scan raise. */
  lemma DuplicateKidExample(k1: Jwk, k2: Jwk, bare: Jwk)
    requires k1 == map["kty" := "RSA", "kid" := "a", "use" := "sig", "n" := "n1", "e" := "AQAB"]
    requires k2 == map["kty" := "RSA", "kid" := "a", "use" := "sig", "n" := "n2", "e" := "AQAB"]
    requires "kid" !in bare
    ensures KeySearch([k1, k2], "a") == Selected(RsaKey("RSA", "a", "sig", "n2", "AQAB"))
    ensures KeySearch([k1, k2, bare], "a") == MissingEntry
  {
    LaterMatchOverrides([k1], "a", k2);
    assert [k1] + [k2] == [k1, k2];
    assert Faulty([k1, k2, bare][2], "a");
  }
}
