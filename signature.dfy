/** Billplz X-Signature: the canonical source string and the two verifiers
    (callback POST body and redirect query string). */
module Signature {
  import opened Wrappers
  import opened Text
  import opened Sorting

  /** The field that carries the received signature. */
  const SignatureField := "x_signature"
  /** The namespace the redirect variant puts in front of every key. */
  const RedirectKeyPrefix := "billplz"
  const Separator := "|"

  /** One entry of a `Record<string, string>`, in insertion order; a missing
      value (`undefined`) is `None`. */
  datatype Entry = Entry(key: string, value: Option<string>)

  /** A record never repeats a key. */
  predicate DistinctKeys(ps: seq<Entry>)
  {
    forall i, j :: 0 <= i < j < |ps| ==> ps[i].key != ps[j].key
  }

  /** `value || ''`. */
  function ValueText(v: Option<string>): string
  {
    match v
    case None => ""
    case Some(s) => s
  }

  /** `${key}${value || ''}`. */
  function Piece(e: Entry): string
  {
    e.key + ValueText(e.value)
  }

  /** Property lookup `params[k]`. */
  function Get(ps: seq<Entry>, k: string): Option<string>
  {
    if ps == [] then None
    else if ps[0].key == k then ps[0].value
    else Get(ps[1..], k)
  }

  /** The pieces the source string is built from, in the entries' order:
      one per entry whose key is not the signature field. */
  function Pieces(ps: seq<Entry>): seq<string>
    decreases |ps|
  {
    if ps == [] then []
    else
      var e := ps[|ps| - 1];
      Pieces(ps[..|ps| - 1]) + (if e.key == SignatureField then [] else [Piece(e)])
  }

  /** The canonical source string: the pieces sorted ignoring case, joined by `|`. */
  function SourceString(ps: seq<Entry>): string
  {
    Join(SortPieces(Pieces(ps)), Separator)
  }

  /** The number of entries with key `k`. */
  function KeyCount(ps: seq<Entry>, k: string): nat
    decreases |ps|
  {
    if ps == [] then 0
    else KeyCount(ps[..|ps| - 1], k) + (if ps[|ps| - 1].key == k then 1 else 0)
  }

  /** The redirect's intermediate record: every non-signature key prefixed
      with `billplz`, every value `value || ''`. */
  function Prefixed(qs: seq<Entry>): seq<Entry>
    decreases |qs|
  {
    if qs == [] then []
    else
      var e := qs[|qs| - 1];
      Prefixed(qs[..|qs| - 1]) +
        (if e.key == SignatureField then []
         else [Entry(RedirectKeyPrefix + e.key, Some(ValueText(e.value)))])
  }

  /** Property assignment `d[k] = v`: an existing key keeps its place and
      takes the new value, a new key goes last. */
  function Assign(d: seq<Entry>, k: string, v: string): seq<Entry>
  {
    if d == [] then [Entry(k, Some(v))]
    else if d[0].key == k then [Entry(k, Some(v))] + d[1..]
    else [d[0]] + Assign(d[1..], k, v)
  }

  /** The signing key counts as configured when the variable is set and non-empty. */
  predicate Configured(signingKey: Option<string>)
  {
    Truthy(signingKey)
  }

  // ---------------------------------------------------------------------
  // Facts about the pieces

  lemma {:induction false} PiecesAppend(a: seq<Entry>, b: seq<Entry>)
    ensures Pieces(a + b) == Pieces(a) + Pieces(b)
    decreases |b|
  {
    if b == [] {
      assert a + b == a;
    } else {
      var b' := b[..|b| - 1];
      assert (a + b)[..|a + b| - 1] == a + b';
      PiecesAppend(a, b');
    }
  }

  /** Every non-signature entry contributes its piece, every piece comes from
      a non-signature entry, and there is one piece per non-signature entry. */
  lemma {:induction false} PiecesOfEntries(ps: seq<Entry>)
    ensures forall e :: e in ps && e.key != SignatureField ==> Piece(e) in Pieces(ps)
    ensures forall p :: p in Pieces(ps) ==> exists e :: e in ps && e.key != SignatureField && p == Piece(e)
    ensures |Pieces(ps)| == |ps| - KeyCount(ps, SignatureField)
    decreases |ps|
  {
    if ps != [] {
      var init := ps[..|ps| - 1];
      PiecesOfEntries(init);
      assert ps == init + [ps[|ps| - 1]];
      forall e | e in ps && e.key != SignatureField
        ensures Piece(e) in Pieces(ps)
      {
        if e != ps[|ps| - 1] {
          assert e in init;
        }
      }
      forall p | p in Pieces(ps)
        ensures exists e :: e in ps && e.key != SignatureField && p == Piece(e)
      {
        if p in Pieces(init) {
          var e :| e in init && e.key != SignatureField && p == Piece(e);
          assert e in ps;
        }
      }
    }
  }

  lemma {:induction false} KeyCountDistinct(ps: seq<Entry>, k: string)
    requires DistinctKeys(ps)
    ensures KeyCount(ps, k) <= 1
    ensures KeyCount(ps, k) == 1 <==> exists e :: e in ps && e.key == k
    decreases |ps|
  {
    if ps != [] {
      var init := ps[..|ps| - 1];
      KeyCountDistinct(init, k);
      assert ps == init + [ps[|ps| - 1]];
      forall e | e in ps && e.key == k && e != ps[|ps| - 1]
        ensures e in init
      {
      }
    }
  }

  /** In a record, each non-signature entry contributes exactly one piece:
      all of them, or all but the one signature entry. */
  lemma PiecesOfRecord(ps: seq<Entry>)
    requires DistinctKeys(ps)
    ensures |Pieces(ps)| == |ps| - (if exists e :: e in ps && e.key == SignatureField then 1 else 0)
  {
    PiecesOfEntries(ps);
    KeyCountDistinct(ps, SignatureField);
  }

  /** Reordering the entries only reorders the pieces. */
  lemma {:induction false} PiecesPermutation(ps1: seq<Entry>, ps2: seq<Entry>)
    requires multiset(ps1) == multiset(ps2)
    ensures multiset(Pieces(ps1)) == multiset(Pieces(ps2))
    decreases |ps1|
  {
    if ps1 == [] {
      assert |multiset(ps2)| == 0;
    } else {
      var n := |ps1| - 1;
      var e := ps1[n];
      assert ps1 == ps1[..n] + [e];
      assert e in multiset(ps2);
      var j :| 0 <= j < |ps2| && ps2[j] == e;
      var rest := ps2[..j] + ps2[j + 1..];
      assert ps2 == ps2[..j] + [e] + ps2[j + 1..];
      assert multiset(rest) == multiset(ps2) - multiset{e};
      assert multiset(ps1[..n]) == multiset(ps1) - multiset{e};
      PiecesPermutation(ps1[..n], rest);
      PiecesAppend(ps1[..n], [e]);
      PiecesAppend(ps2[..j], [e]);
      PiecesAppend(ps2[..j] + [e], ps2[j + 1..]);
      PiecesAppend(ps2[..j], ps2[j + 1..]);
      assert [e][..0] == [];
    }
  }

  /** The source string is the join of an ascending permutation of the pieces. */
  lemma SourceStringSorted(ps: seq<Entry>)
    ensures exists sorted ::
      && Sorted(sorted)
      && multiset(sorted) == multiset(Pieces(ps))
      && SourceString(ps) == Join(sorted, Separator)
  {
    SortPiecesCorrect(Pieces(ps));
    var sorted := SortPieces(Pieces(ps));
    assert Sorted(sorted) && multiset(sorted) == multiset(Pieces(ps)) && SourceString(ps) == Join(sorted, Separator);
  }

  /** When no two pieces are equal ignoring case, the source string does not
      depend on the order in which the entries were supplied. */
  lemma SourceStringOrderIndependent(ps1: seq<Entry>, ps2: seq<Entry>)
    requires multiset(ps1) == multiset(ps2)
    requires LowerInjective(Pieces(ps1))
    ensures SourceString(ps1) == SourceString(ps2)
  {
    PiecesPermutation(ps1, ps2);
    var s1, s2 := SortPieces(Pieces(ps1)), SortPieces(Pieces(ps2));
    SortPiecesCorrect(Pieces(ps1));
    SortPiecesCorrect(Pieces(ps2));
    forall x | x in s1 ensures x in Pieces(ps1) {
      assert x in multiset(s1);
    }
    SortedUnique(s1, s2);
  }

  // ---------------------------------------------------------------------
  // Facts about the redirect record

  lemma PrefixCancels(a: string, b: string)
    requires RedirectKeyPrefix + a == RedirectKeyPrefix + b
    ensures a == b
  {
    assert a == (RedirectKeyPrefix + a)[|RedirectKeyPrefix|..];
    assert b == (RedirectKeyPrefix + b)[|RedirectKeyPrefix|..];
  }

  /** Every key of the redirect record is prefixed, hence not the signature
      field, and every value is present. */
  lemma {:induction false} PrefixedShape(qs: seq<Entry>)
    ensures forall e :: e in Prefixed(qs) ==> e.key != SignatureField && e.value.Some?
    decreases |qs|
  {
    if qs != [] {
      PrefixedShape(qs[..|qs| - 1]);
      var e := qs[|qs| - 1];
      var k := RedirectKeyPrefix + e.key;
      assert k[0] == 'b' && SignatureField[0] == 'x';
    }
  }

  /** A key absent from the query gives a prefixed key absent from the record. */
  lemma {:induction false} PrefixedKeyFresh(qs: seq<Entry>, k: string)
    requires forall j :: 0 <= j < |qs| ==> qs[j].key != k
    ensures forall e :: e in Prefixed(qs) ==> e.key != RedirectKeyPrefix + k
    decreases |qs|
  {
    if qs != [] {
      var init := qs[..|qs| - 1];
      PrefixedKeyFresh(init, k);
      var e := qs[|qs| - 1];
      if e.key != SignatureField && RedirectKeyPrefix + e.key == RedirectKeyPrefix + k {
        PrefixCancels(e.key, k);
      }
    }
  }

  lemma {:induction false} AssignFresh(d: seq<Entry>, k: string, v: string)
    requires forall e :: e in d ==> e.key != k
    ensures Assign(d, k, v) == d + [Entry(k, Some(v))]
  {
    if d != [] {
      assert d[0] in d;
      forall e | e in d[1..] ensures e.key != k {
        assert e in d;
      }
      AssignFresh(d[1..], k, v);
      assert d == [d[0]] + d[1..];
    }
  }

  /** The redirect's pieces are the callback pieces of the same query, each
      prefixed with `billplz`. */
  lemma {:induction false} RedirectPiecesArePrefixed(qs: seq<Entry>)
    ensures |Pieces(Prefixed(qs))| == |Pieces(qs)|
    ensures forall i :: 0 <= i < |Pieces(qs)| ==> Pieces(Prefixed(qs))[i] == RedirectKeyPrefix + Pieces(qs)[i]
    decreases |qs|
  {
    if qs != [] {
      var init := qs[..|qs| - 1];
      var e := qs[|qs| - 1];
      RedirectPiecesArePrefixed(init);
      if e.key == SignatureField {
        assert Prefixed(qs) == Prefixed(init);
        assert Pieces(qs) == Pieces(init);
      } else {
        var e' := Entry(RedirectKeyPrefix + e.key, Some(ValueText(e.value)));
        assert e'.key != SignatureField by {
          assert e'.key[0] == 'b' && SignatureField[0] == 'x';
        }
        PiecesAppend(Prefixed(init), [e']);
        assert [e'][..0] == [];
        assert Pieces([e']) == [Piece(e')];
      }
    }
  }

  /** Values are not escaped, so the source string does not determine the
      fields: a value holding `|` signs the same string as two fields. */
  lemma SourceStringAmbiguous()
    ensures SourceString([Entry("a", Some("b|c"))]) == SourceString([Entry("a", Some("b")), Entry("c", None)])
  {
    var one := [Entry("a", Some("b|c"))];
    var two := [Entry("a", Some("b")), Entry("c", None)];
    assert one[..0] == [] && two[..1][..0] == [];
    assert two[..1] == [Entry("a", Some("b"))];
    assert Piece(one[0]) == "ab|c";
    assert Piece(two[0]) == "ab" && Piece(two[1]) == "c";
    assert Pieces(one) == ["ab|c"];
    assert Pieces(two[..1]) == ["ab"];
    assert Pieces(two) == ["ab", "c"];
    assert Lower("ab") == "ab" && Lower("c") == "c";
    assert PieceLe("ab", "c");
    assert SortPieces(["ab", "c"]) == ["ab", "c"];
    assert Join(["ab", "c"], Separator) == "ab|c";
  }

  // ---------------------------------------------------------------------
  // The operations

  /** `constructSourceString`: collect the pieces, sort them, join them. */
  method ConstructSourceString(params: seq<Entry>) returns (source: string)
    ensures source == SourceString(params)
  {
    var pairs: seq<string> := [];
    var i := 0;
    while i < |params|
      invariant 0 <= i <= |params|
      invariant pairs == Pieces(params[..i])
    {
      var entry := params[i];
      assert params[..i + 1][..i] == params[..i];
      i := i + 1;
      if entry.key == SignatureField {
        continue;
      }
      pairs := pairs + [entry.key + ValueText(entry.value)];
    }
    assert params[..i] == params;
    pairs := SortPieces(pairs);
    source := Join(pairs, Separator);
  }

  /** `verifyBillplzCallbackSignature`: no signing key bypasses the check, a
      missing or empty signature fails, otherwise the HMAC of the source
      string must equal the received signature. */
  method VerifyCallbackSignature(signingKey: Option<string>, hmac: (string, string) -> string, params: seq<Entry>)
    returns (valid: bool)
    ensures !Configured(signingKey) ==> valid
    ensures Configured(signingKey) && !Truthy(Get(params, SignatureField)) ==> !valid
    ensures Configured(signingKey) && Truthy(Get(params, SignatureField)) ==>
      (valid <==> hmac(signingKey.value, SourceString(params)) == Get(params, SignatureField).value)
  {
    if !Configured(signingKey) {
      return true;
    }
    var received := Get(params, SignatureField);
    if !Truthy(received) {
      return false;
    }
    var source := ConstructSourceString(params);
    var expected := hmac(signingKey.value, source);
    valid := expected == received.value;
  }

  /** `verifyBillplzRedirectSignature`: the same check over the record whose
      keys carry the `billplz` prefix. */
  method VerifyRedirectSignature(signingKey: Option<string>, hmac: (string, string) -> string, queryParams: seq<Entry>)
    returns (valid: bool)
    requires DistinctKeys(queryParams)
    ensures !Configured(signingKey) ==> valid
    ensures Configured(signingKey) && !Truthy(Get(queryParams, SignatureField)) ==> !valid
    ensures Configured(signingKey) && Truthy(Get(queryParams, SignatureField)) ==>
      (valid <==> hmac(signingKey.value, SourceString(Prefixed(queryParams))) == Get(queryParams, SignatureField).value)
  {
    if !Configured(signingKey) {
      return true;
    }
    var received := Get(queryParams, SignatureField);
    if !Truthy(received) {
      return false;
    }

    var params: seq<Entry> := [];
    var i := 0;
    while i < |queryParams|
      invariant 0 <= i <= |queryParams|
      invariant params == Prefixed(queryParams[..i])
    {
      var entry := queryParams[i];
      assert queryParams[..i + 1][..i] == queryParams[..i];
      if entry.key != SignatureField {
        PrefixedKeyFresh(queryParams[..i], entry.key);
        AssignFresh(params, RedirectKeyPrefix + entry.key, ValueText(entry.value));
        params := Assign(params, RedirectKeyPrefix + entry.key, ValueText(entry.value));
      }
      i := i + 1;
    }
    assert queryParams[..i] == queryParams;
    PrefixedShape(queryParams);

    var pairs: seq<string> := [];
    var j := 0;
    while j < |params|
      invariant 0 <= j <= |params|
      invariant pairs == Pieces(params[..j])
    {
      var entry := params[j];
      assert entry in params;
      assert params[..j + 1][..j] == params[..j];
      pairs := pairs + [entry.key + entry.value.value];
      j := j + 1;
    }
    assert params[..j] == params;
    pairs := SortPieces(pairs);
    var source := Join(pairs, Separator);

    var expected := hmac(signingKey.value, source);
    valid := expected == received.value;
  }
}
