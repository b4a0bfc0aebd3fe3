/**
 * JavaScript's `String.prototype.trim`, as used on every CSV cell of an
 * imported row: it removes the leading and trailing characters that
 * ECMAScript classes as WhiteSpace or LineTerminator.
 */
module Text {

  /**
   * ECMAScript WhiteSpace and LineTerminator: TAB, LF, VT, FF, CR, SPACE,
   * NO-BREAK SPACE, the other space separators, LINE and PARAGRAPH
   * SEPARATOR, and the byte order mark.
   */
  predicate IsSpace(c: char)
  {
    || '\t' <= c <= '\r'
    || c == ' '
    || c == '\U{00A0}'
    || c == '\U{1680}'
    || '\U{2000}' <= c <= '\U{200A}'
    || c == '\U{2028}' || c == '\U{2029}'
    || c == '\U{202F}' || c == '\U{205F}'
    || c == '\U{3000}'
    || c == '\U{FEFF}'
  }

  predicate AllSpace(s: string)
  {
    forall i :: 0 <= i < |s| ==> IsSpace(s[i])
  }

  /** Neither the first nor the last character of `s` is white space. */
  predicate NoEdgeSpace(s: string)
  {
    s == [] || (!IsSpace(s[0]) && !IsSpace(s[|s| - 1]))
  }

  /** Length of the longest all-space prefix of `s`. */
  function LeadingSpaces(s: string): (k: nat)
    ensures k <= |s|
    ensures forall i :: 0 <= i < k ==> IsSpace(s[i])
    ensures k < |s| ==> !IsSpace(s[k])
  {
    if s == [] || !IsSpace(s[0]) then 0
    else
      var k := 1 + LeadingSpaces(s[1..]);
      assert forall i :: 1 <= i < k ==> s[i] == s[1..][i - 1];
      k
  }

  /** Length of the longest all-space suffix of `s`. */
  function TrailingSpaces(s: string): (k: nat)
    ensures k <= |s|
    ensures forall i :: |s| - k <= i < |s| ==> IsSpace(s[i])
    ensures k < |s| ==> !IsSpace(s[|s| - 1 - k])
  {
    if s == [] || !IsSpace(s[|s| - 1]) then 0
    else
      var init := s[..|s| - 1];
      var k := 1 + TrailingSpaces(init);
      assert forall i :: |s| - k <= i < |s| - 1 ==> s[i] == init[i];
      k
  }

  /**
   * Both ends cut, as `String.prototype.trim` does: the result neither
   * starts nor ends with white space.
   */
  function Trim(s: string): (r: string)
    ensures |r| <= |s|
    ensures NoEdgeSpace(r)
  {
    var t := s[LeadingSpaces(s)..];
    var r := t[..|t| - TrailingSpaces(t)];
    assert r != [] ==> r[0] == t[0] && r[|r| - 1] == t[|t| - 1 - TrailingSpaces(t)];
    r
  }

  /** What `Trim` keeps is a slice of `s`, and what it cuts off on either side is white space only. */
  lemma TrimSlice(s: string)
    ensures var i, r := LeadingSpaces(s), Trim(s);
      && i + |r| <= |s|
      && s[i..i + |r|] == r
      && (forall k :: 0 <= k < i ==> IsSpace(s[k]))
      && (forall k :: i + |r| <= k < |s| ==> IsSpace(s[k]))
  {
    var i := LeadingSpaces(s);
    var t := s[i..];
    var j := TrailingSpaces(t);
    var r := Trim(s);
    assert r == t[..|t| - j];
    assert |r| == |s| - i - j;
    assert s[i..i + |r|] == r by {
      forall k | 0 <= k < |r|
        ensures s[i..i + |r|][k] == r[k]
      {
        assert r[k] == t[k] == s[i + k];
      }
    }
    forall k | i + |r| <= k < |s|
      ensures IsSpace(s[k])
    {
      assert s[k] == t[k - i] && |t| - j <= k - i;
    }
  }

  /** That shape pins the result down: any split of `s` into space, an edge-space-free middle and space yields `Trim(s)`. */
  lemma TrimCharacterised(s: string, p: string, r: string, q: string)
    requires s == p + r + q
    requires AllSpace(p) && AllSpace(q) && NoEdgeSpace(r)
    ensures Trim(s) == r
  {
    var i := LeadingSpaces(s);
    if r == [] {
      assert forall k :: |p| <= k < |s| ==> s[k] == q[k - |p|];
      assert i == |s|;
    } else {
      assert forall k :: 0 <= k < |p| ==> s[k] == p[k];
      assert s[|p|] == r[0];
      assert i == |p|;
      var t := s[i..];
      assert t == r + q;
      assert forall k :: |r| <= k < |t| ==> t[k] == q[k - |r|];
      assert t[|r| - 1] == r[|r| - 1];
      assert TrailingSpaces(t) == |q|;
      assert t[..|t| - |q|] == r;
    }
  }

  /** Trimming twice is trimming once. */
  lemma TrimIdempotent(s: string)
    ensures Trim(Trim(s)) == Trim(s)
  {
    var r := Trim(s);
    assert r == [] + r + [];
    TrimCharacterised(r, [], r, []);
  }
}
