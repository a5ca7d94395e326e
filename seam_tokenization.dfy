/**
 * Seam tokenisation (src/seam_tokenization.py): the UV-branch seam
 * selection, the `E(a,b)` text encoding of a seam edge and its decoder.
 */
module SeamTokenization {
  import opened Wrappers
  import opened PythonText

  /** A seam: an undirected mesh edge given by its two vertex indices. */
  datatype Edge = Edge(a: int, b: int)

  // ---------------------------------------------------------------------
  // identify_seams, UV branch (line 18)
  // ---------------------------------------------------------------------

  /** Every `SeamStride`-th unique edge is taken to be a seam. */
  const SeamStride: nat := 50

  /**
   * `[e for i, e in enumerate(edges) if i % 50 == 0]`: the edges at
   * indices 0, 50, 100, ... in their original order.
   */
  function UvSeams(edges: seq<Edge>): (r: seq<Edge>)
    ensures |r| == (|edges| + SeamStride - 1) / SeamStride
    ensures forall k :: 0 <= k < |r| ==> r[k] == edges[SeamStride * k]
  {
    if |edges| == 0 then []
    else
      var n := |edges| - 1;
      if n % SeamStride == 0 then UvSeams(edges[..n]) + [edges[n]] else UvSeams(edges[..n])
  }

  /** Every edge whose index is a multiple of 50 is selected, at position `index / 50`. */
  lemma UvSeamsSelectsMultiples(edges: seq<Edge>, i: int)
    requires 0 <= i < |edges| && i % SeamStride == 0
    ensures i / SeamStride < |UvSeams(edges)| && UvSeams(edges)[i / SeamStride] == edges[i]
  {
  }

  // ---------------------------------------------------------------------
  // encode_seams_to_tokens (lines 28-34)
  // ---------------------------------------------------------------------

  /** The characters `strip("E()")` removes. */
  const TokenChars: set<char> := {'E', '(', ')'}

  /** `f"{a},{b}"`: the two indices around a comma. */
  function Inner(e: Edge): string {
    IntToString(e.a) + "," + IntToString(e.b)
  }

  /** `f"E({a},{b})"`. */
  function EncodeToken(e: Edge): string {
    "E(" + Inner(e) + ")"
  }

  /** `encode_seams_to_tokens`: one token per seam, in order. */
  function EncodeSeams(seams: seq<Edge>): (r: seq<string>)
    ensures |r| == |seams|
    ensures forall i :: 0 <= i < |seams| ==> r[i] == EncodeToken(seams[i])
  {
    seq(|seams|, i requires 0 <= i < |seams| => EncodeToken(seams[i]))
  }

  /** The documented example `[[1,2],[2,3]] -> ["E(1,2)", "E(2,3)"]`. */
  lemma EncodeExample()
    ensures EncodeSeams([Edge(1, 2), Edge(2, 3)]) == ["E(1,2)", "E(2,3)"]
  {
    assert IntToString(1) == "1" && IntToString(2) == "2" && IntToString(3) == "3";
    assert EncodeToken(Edge(1, 2)) == "E(1,2)";
    assert EncodeToken(Edge(2, 3)) == "E(2,3)";
  }

  // ---------------------------------------------------------------------
  // decode_tokens_to_seams (lines 37-47)
  // ---------------------------------------------------------------------

  /**
   * One loop step: `inner = t.strip("E()")`, `a, b = map(int,
   * inner.split(","))`.  Any `ValueError` (a field that is not an
   * integer, or not exactly two fields) is `None`.
   */
  function DecodeToken(t: string): Option<Edge> {
    var fields := Split(Strip(t, TokenChars), ',');
    if |fields| != 2 then None
    else
      match ParseInt(fields[0])
      case None => None
      case Some(a) =>
        match ParseInt(fields[1])
        case None => None
        case Some(b) => Some(Edge(a, b))
  }

  /**
   * `f` applied to every element, in order, or `None` as soon as one
   * application fails: a loop that raises on its first bad element.
   */
  function TryMap<T, U>(f: T -> Option<U>, xs: seq<T>): (r: Option<seq<U>>)
    ensures r.Some? <==> forall i :: 0 <= i < |xs| ==> f(xs[i]).Some?
    ensures r.Some? ==> |r.value| == |xs|
    ensures r.Some? ==> forall i :: 0 <= i < |xs| ==> f(xs[i]) == Some(r.value[i])
  {
    if |xs| == 0 then Some([])
    else
      var k := |xs| - 1;
      assert forall i :: 0 <= i < k ==> xs[..k][i] == xs[i];
      match TryMap(f, xs[..k])
      case None => None
      case Some(p) =>
        match f(xs[k])
        case None => None
        case Some(e) => Some(p + [e])
  }

  /** When every application yields its counterpart in `ys`, the whole map is `ys`. */
  lemma TryMapYields<T, U>(f: T -> Option<U>, xs: seq<T>, ys: seq<U>)
    requires |xs| == |ys| && forall i :: 0 <= i < |xs| ==> f(xs[i]) == Some(ys[i])
    ensures TryMap(f, xs) == Some(ys)
  {
    var r := TryMap(f, xs);
    assert r.Some?;
    assert forall i :: 0 <= i < |xs| ==> r.value[i] == ys[i];
    assert r.value == ys;
  }

  /**
   * The whole loop: every token decoded, in order, or `None` when one of
   * them raises.
   */
  function DecodeAll(ts: seq<string>): Option<seq<Edge>> {
    TryMap(DecodeToken, ts)
  }

  /** Decoding succeeds exactly when every token decodes, and keeps count and order. */
  lemma DecodeAllPointwise(ts: seq<string>)
    ensures DecodeAll(ts).Some? <==> forall i :: 0 <= i < |ts| ==> DecodeToken(ts[i]).Some?
    ensures DecodeAll(ts).Some? ==>
      && |DecodeAll(ts).value| == |ts|
      && (forall i :: 0 <= i < |ts| ==> DecodeToken(ts[i]) == Some(DecodeAll(ts).value[i]))
  {
  }

  /** `decode_tokens_to_seams`, loop for loop. */
  method DecodeTokensToSeams(tokens: seq<string>) returns (r: Option<seq<Edge>>)
    ensures r == DecodeAll(tokens)
  {
    var seams: seq<Edge> := [];
    var i := 0;
    while i < |tokens|
      invariant 0 <= i <= |tokens|
      invariant DecodeAll(tokens[..i]) == Some(seams)
    {
      var e := DecodeToken(tokens[i]);
      if e.None? {
        return None;
      }
      assert tokens[..i + 1][..i] == tokens[..i];
      seams := seams + [e.value];
      i := i + 1;
    }
    assert tokens[..i] == tokens;
    return Some(seams);
  }

  /** On an encoded token, `strip("E()")` removes exactly the brackets and the `E`. */
  lemma StripToken(e: Edge)
    ensures Strip(EncodeToken(e), TokenChars) == Inner(e)
  {
    var body := Inner(e);
    assert body[0] == IntToString(e.a)[0];
    assert body[|body| - 1] == IntToString(e.b)[|IntToString(e.b)| - 1];
    StripBetween("E(", body, ")", TokenChars);
  }

  /** The inner text splits at its one comma into the two indices. */
  lemma SplitInner(e: Edge)
    ensures Split(Inner(e), ',') == [IntToString(e.a), IntToString(e.b)]
  {
    var fs := [IntToString(e.a), IntToString(e.b)];
    assert Join(fs, ',') == Inner(e) by {
      assert fs[1..] == [IntToString(e.b)];
    }
    SplitJoin(fs, ',');
  }

  /** Any token that strips down to `a,b` decodes to the seam `(a, b)`. */
  lemma DecodeInner(t: string, e: Edge)
    requires Strip(t, TokenChars) == Inner(e)
    ensures DecodeToken(t) == Some(e)
  {
    SplitInner(e);
    ParseIntToString(e.a);
    ParseIntToString(e.b);
  }

  /** Decoding an encoded seam gives the seam back. */
  lemma DecodeEncodeToken(e: Edge)
    ensures DecodeToken(EncodeToken(e)) == Some(e)
  {
    StripToken(e);
    DecodeInner(EncodeToken(e), e);
  }

  /** `decode_tokens_to_seams(encode_seams_to_tokens(s)) == s`. */
  lemma DecodeEncodeSeams(seams: seq<Edge>)
    ensures DecodeAll(EncodeSeams(seams)) == Some(seams)
  {
    var ts := EncodeSeams(seams);
    forall i | 0 <= i < |ts| ensures DecodeToken(ts[i]) == Some(seams[i]) {
      DecodeEncodeToken(seams[i]);
    }
    TryMapYields(DecodeToken, ts, seams);
  }

  /** The documented example `["E(1,2)"] -> [[1,2]]`. */
  lemma DecodeExample()
    ensures DecodeAll(["E(1,2)"]) == Some([Edge(1, 2)])
  {
    assert EncodeSeams([Edge(1, 2)]) == ["E(1,2)"] by {
      assert IntToString(1) == "1" && IntToString(2) == "2";
      assert EncodeToken(Edge(1, 2)) == "E(1,2)";
    }
    DecodeEncodeSeams([Edge(1, 2)]);
  }

  /** A token decodes only when the stripped text holds exactly one comma. */
  lemma DecodeNeedsOneComma(t: string)
    requires DecodeToken(t).Some?
    ensures Count(Strip(t, TokenChars), ',') == 1
  {
  }

  /** A token with three indices is rejected. */
  lemma RejectsThreeFields()
    ensures DecodeToken("E(1,2,3)") == None
  {
    assert "E(1,2,3)" == "E(" + "1,2,3" + ")";
    StripBetween("E(", "1,2,3", ")", TokenChars);
    assert "1,2,3" == "1" + [','] + "2,3";
    SplitField("1", "2,3", ',');
    assert "2,3" == "2" + [','] + "3";
    SplitField("2", "3", ',');
  }

  /** A token without a comma is rejected. */
  lemma RejectsOneField()
    ensures DecodeToken("E(12)") == None
  {
    assert "E(12)" == "E(" + "12" + ")";
    StripBetween("E(", "12", ")", TokenChars);
    assert "12" == "12" + [];
    SplitPrepend("12", [], ',');
  }

  /** A field that is not an integer is rejected. */
  lemma RejectsNonInteger()
    ensures DecodeToken("E(a,1)") == None
  {
    assert "E(a,1)" == "E(" + "a,1" + ")";
    StripBetween("E(", "a,1", ")", TokenChars);
    assert "a,1" == "a" + [','] + "1";
    SplitField("a", "1", ',');
    ParseIntNeedsDigit("a");
  }

  /** A field that starts with an ASCII separator (here 28) is not an integer, so the token is rejected. */
  lemma RejectsSeparatorInField()
    ensures DecodeToken("E(" + [28 as char, '1'] + ",2)") == None
  {
    var f := [28 as char, '1'];
    var inner := f + [','] + "2";
    assert "E(" + f + ",2)" == "E(" + inner + ")";
    StripBetween("E(", inner, ")", TokenChars);
    SplitField(f, "2", ',');
    ParseIntRejectsSeparator();
  }

  /**
   * Decoding is more lenient than encoding: `strip` removes any run of
   * `E`, `(` and `)` at either end, so a malformed bracket still decodes.
   */
  lemma AcceptsLooseBrackets()
    ensures DecodeToken("((E1,2)E") == Some(Edge(1, 2))
  {
    assert "((E1,2)E" == "((E" + "1,2" + ")E";
    StripBetween("((E", "1,2", ")E", TokenChars);
    assert "1,2" == Inner(Edge(1, 2)) by {
      assert IntToString(1) == "1" && IntToString(2) == "2";
    }
    DecodeInner("((E1,2)E", Edge(1, 2));
  }
}
