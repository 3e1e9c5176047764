/** The cache key of an API request: the base URL followed by `_name_value` for every
    query parameter except the credential, in the order the parameters are iterated. */
module Fingerprint {
  import Sequences

  /** One query parameter: its name and its value, already rendered as text. */
  type Param = (string, string)

  /** The name of the parameter that carries the API credential; it never enters a key. */
  const CredentialName: string := "key"

  /** The text one parameter contributes to a key. */
  function Piece(p: Param): string
  {
    "_" + p.0 + "_" + p.1
  }

  /** What the key-building loop appends for `p`: nothing for the credential, its piece otherwise. */
  function Contribution(p: Param): string
  {
    if p.0 == CredentialName then "" else Piece(p)
  }

  /** Everything appended to the base URL for `params`, in iteration order. */
  function Suffix(params: seq<Param>): string
  {
    if params == [] then "" else Contribution(params[0]) + Suffix(params[1..])
  }

  /** The key `construct_unique_key` returns for a base URL and its parameters. */
  function UniqueKey(baseurl: string, params: seq<Param>): string
  {
    baseurl + Suffix(params)
  }

  // ---------------------------------------------------------------------------
  // An independent description: drop the credential, then concatenate the pieces.

  /** The parameters other than the credential, in their original order. */
  function NonCredential(params: seq<Param>): (r: seq<Param>)
    ensures forall i :: 0 <= i < |r| ==> r[i].0 != CredentialName
    ensures |r| <= |params|
  {
    if params == [] then []
    else if params[0].0 == CredentialName then NonCredential(params[1..])
    else [params[0]] + NonCredential(params[1..])
  }

  /** The pieces of every parameter, concatenated in order. */
  function Pieces(params: seq<Param>): string
  {
    if params == [] then "" else Piece(params[0]) + Pieces(params[1..])
  }

  // ---------------------------------------------------------------------------
  // The loop of construct_unique_key.

  /** Builds the key by appending one contribution per parameter to the base URL. */
  method ConstructUniqueKey(baseurl: string, params: seq<Param>) returns (key: string)
    ensures key == UniqueKey(baseurl, params)
  {
    key := baseurl;
    var i := 0;
    while i < |params|
      invariant 0 <= i <= |params|
      invariant UniqueKey(baseurl, params) == key + Suffix(params[i..])
    {
      var p := params[i];
      KeyStep(baseurl, params, i, key);
      if p.0 != CredentialName {
        key := key + Piece(p);
      }
      i := i + 1;
    }
  }

  /** One turn of that loop: the rest of the key is the contribution of parameter `i`, then the
      suffix of the parameters after it. */
  lemma KeyStep(baseurl: string, params: seq<Param>, i: nat, key: string)
    requires i < |params| && UniqueKey(baseurl, params) == key + Suffix(params[i..])
    ensures params[i].0 == CredentialName ==> UniqueKey(baseurl, params) == key + Suffix(params[i + 1..])
    ensures params[i].0 != CredentialName ==> UniqueKey(baseurl, params) == (key + Piece(params[i])) + Suffix(params[i + 1..])
  {
    var rest := Suffix(params[i + 1..]);
    assert params[i..][1..] == params[i + 1..];
    assert Suffix(params[i..]) == Contribution(params[i]) + rest;
    if params[i].0 == CredentialName {
      assert "" + rest == rest;
    } else {
      Sequences.Assoc(key, Piece(params[i]), rest);
    }
  }


  // ---------------------------------------------------------------------------
  // Properties.

  /** The suffix of a concatenation is the concatenation of the suffixes. */
  lemma {:induction false} SuffixAppend(a: seq<Param>, b: seq<Param>)
    ensures Suffix(a + b) == Suffix(a) + Suffix(b)
  {
    if a == [] {
      assert a + b == b;
    } else {
      assert (a + b)[1..] == a[1..] + b;
      SuffixAppend(a[1..], b);
    }
  }

  /** Appending one parameter appends its contribution. */
  lemma SuffixSnoc(a: seq<Param>, p: Param)
    ensures Suffix(a + [p]) == Suffix(a) + Contribution(p)
  {
    SuffixAppend(a, [p]);
    assert [p][1..] == [];
  }

  /** The key is the base URL followed by `_name_value` for exactly the non-credential
      parameters, in iteration order. */
  lemma {:induction false} UniqueKeyIsNonCredentialPieces(baseurl: string, params: seq<Param>)
    ensures UniqueKey(baseurl, params) == baseurl + Pieces(NonCredential(params))
  {
    SuffixIsPieces(params);
  }

  /** The suffix is the concatenated pieces of the non-credential parameters. */
  lemma {:induction false} SuffixIsPieces(params: seq<Param>)
    ensures Suffix(params) == Pieces(NonCredential(params))
  {
    if params != [] {
      SuffixIsPieces(params[1..]);
      if params[0].0 != CredentialName {
        assert NonCredential(params) == [params[0]] + NonCredential(params[1..]);
        assert ([params[0]] + NonCredential(params[1..]))[1..] == NonCredential(params[1..]);
      }
    }
  }

  /** Without a credential among them, the parameters contribute exactly their pieces. */
  lemma {:induction false} SuffixWithoutCredential(params: seq<Param>)
    requires forall i :: 0 <= i < |params| ==> params[i].0 != CredentialName
    ensures Suffix(params) == Pieces(params)
  {
    if params != [] {
      SuffixWithoutCredential(params[1..]);
    }
  }

  /** With no parameter other than the credential, the key is the base URL itself. */
  lemma OnlyCredentialGivesBase(baseurl: string, params: seq<Param>)
    requires forall i :: 0 <= i < |params| ==> params[i].0 == CredentialName
    ensures UniqueKey(baseurl, params) == baseurl
  {
    NoPiecesWithoutNonCredential(params);
    UniqueKeyIsNonCredentialPieces(baseurl, params);
  }

  /** Dropping the credentials from a list of credentials leaves nothing. */
  lemma {:induction false} NoPiecesWithoutNonCredential(params: seq<Param>)
    requires forall i :: 0 <= i < |params| ==> params[i].0 == CredentialName
    ensures NonCredential(params) == []
  {
    if params != [] {
      NoPiecesWithoutNonCredential(params[1..]);
    }
  }

  /** Parameter lists that agree once the credential is dropped have the same key. */
  lemma SameKeyWithoutCredential(baseurl: string, p1: seq<Param>, p2: seq<Param>)
    requires NonCredential(p1) == NonCredential(p2)
    ensures UniqueKey(baseurl, p1) == UniqueKey(baseurl, p2)
  {
    UniqueKeyIsNonCredentialPieces(baseurl, p1);
    UniqueKeyIsNonCredentialPieces(baseurl, p2);
  }

  /** Inserting or removing a credential parameter anywhere leaves the key unchanged. */
  lemma CredentialIgnored(baseurl: string, pre: seq<Param>, post: seq<Param>, secret: string)
    ensures UniqueKey(baseurl, pre + [(CredentialName, secret)] + post) == UniqueKey(baseurl, pre + post)
  {
    var c: Param := (CredentialName, secret);
    SuffixAppend(pre + [c], post);
    SuffixSnoc(pre, c);
    SuffixAppend(pre, post);
    assert Suffix(pre + [c]) == Suffix(pre);
  }

  /** Changing only the credential's value leaves the key unchanged. */
  lemma CredentialValueIgnored(baseurl: string, pre: seq<Param>, post: seq<Param>, s1: string, s2: string)
    ensures UniqueKey(baseurl, pre + [(CredentialName, s1)] + post)
         == UniqueKey(baseurl, pre + [(CredentialName, s2)] + post)
  {
    CredentialIgnored(baseurl, pre, post, s1);
    CredentialIgnored(baseurl, pre, post, s2);
  }

  /** The key of a request, split around one of its parameters. */
  lemma SplitKey(baseurl: string, pre: seq<Param>, p: Param, post: seq<Param>)
    ensures UniqueKey(baseurl, pre + [p] + post) == (baseurl + Suffix(pre)) + (Contribution(p) + Suffix(post))
  {
    var a, b, c, d := baseurl, Suffix(pre), Contribution(p), Suffix(post);
    SuffixAppend(pre + [p], post);
    SuffixSnoc(pre, p);
    assert Suffix(pre + [p] + post) == (b + c) + d;
    Regroup(a, b, c, d);
  }

  /** Re-associates four concatenated strings, kept apart so that the solver does not search for it. */
  lemma Regroup(a: string, b: string, c: string, d: string)
    ensures a + ((b + c) + d) == (a + b) + (c + d)
  {
  }

  /** A middle part of a string is determined by the string and the parts around it. */
  lemma CancelAround(head: string, sep: string, x: string, y: string, tail: string)
    requires head + ((sep + x) + tail) == head + ((sep + y) + tail)
    ensures x == y
  {
    var kx, ky := head + ((sep + x) + tail), head + ((sep + y) + tail);
    var start := |head| + |sep|;
    assert |x| == |y|;
    assert x == kx[start..start + |x|];
    assert y == ky[start..start + |y|];
  }

  /** Two requests that differ in the value of one non-credential parameter get different keys. */
  lemma DistinctValueDistinctKey(baseurl: string, pre: seq<Param>, post: seq<Param>,
                                 name: string, v1: string, v2: string)
    requires name != CredentialName && v1 != v2
    ensures UniqueKey(baseurl, pre + [(name, v1)] + post) != UniqueKey(baseurl, pre + [(name, v2)] + post)
  {
    SplitKey(baseurl, pre, (name, v1), post);
    SplitKey(baseurl, pre, (name, v2), post);
    if UniqueKey(baseurl, pre + [(name, v1)] + post) == UniqueKey(baseurl, pre + [(name, v2)] + post) {
      CancelAround(baseurl + Suffix(pre), "_" + name + "_", v1, v2, Suffix(post));
    }
  }

  /** The key depends on the order of the parameters: the same two parameters inserted in the
      other order give a different key. */
  lemma OrderMatters()
    ensures UniqueKey("u", [("a", "1"), ("b", "2")]) != UniqueKey("u", [("b", "2"), ("a", "1")])
  {
    assert UniqueKey("u", [("a", "1"), ("b", "2")]) == "u_a_1_b_2";
    assert UniqueKey("u", [("b", "2"), ("a", "1")]) == "u_b_2_a_1";
    assert "u_a_1_b_2"[2] != "u_b_2_a_1"[2];
  }

  /** A name or value that contains the separator makes two different requests share a key. */
  lemma SeparatorCollision()
    ensures [("a", "b_c")] != [("a_b", "c")]
    ensures UniqueKey("u", [("a", "b_c")]) == UniqueKey("u", [("a_b", "c")])
  {
  }
}
