/**
 * Strings as the chat front ends see them: the whitespace set and the
 * `String.prototype.trim` of ECMAScript, and the concatenation of chunks.
 */
module Strings {

  /**
   * The characters ECMAScript's `trim` removes: WhiteSpace (tab, vertical
   * tab, form feed, space, no-break space, byte order mark and the other
   * space separators of category Zs) and LineTerminator (line feed,
   * carriage return, line and paragraph separators).
   */
  predicate IsSpace(c: char) {
    var n := c as int;
    n == 0x09 || n == 0x0A || n == 0x0B || n == 0x0C || n == 0x0D || n == 0x20
    || n == 0xA0 || n == 0x1680 || (0x2000 <= n <= 0x200A)
    || n == 0x2028 || n == 0x2029 || n == 0x202F || n == 0x205F
    || n == 0x3000 || n == 0xFEFF
  }

  /** Every character of `s` is whitespace (the empty string included). */
  predicate Blank(s: string) {
    forall i :: 0 <= i < |s| ==> IsSpace(s[i])
  }

  /** `s` neither starts nor ends with whitespace. */
  predicate Trimmed(s: string) {
    s == [] || (!IsSpace(s[0]) && !IsSpace(s[|s| - 1]))
  }

  /** The number of whitespace characters `s` starts with. */
  function LeadingSpace(s: string): (k: nat)
    ensures k <= |s|
    ensures forall i :: 0 <= i < k ==> IsSpace(s[i])
    ensures k < |s| ==> !IsSpace(s[k])
    decreases |s|
  {
    if |s| > 0 && IsSpace(s[0]) then 1 + LeadingSpace(s[1..]) else 0
  }

  /** The number of whitespace characters `s` ends with. */
  function TrailingSpace(s: string): (k: nat)
    ensures k <= |s|
    ensures forall i :: |s| - k <= i < |s| ==> IsSpace(s[i])
    ensures k < |s| ==> !IsSpace(s[|s| - 1 - k])
    decreases |s|
  {
    if |s| > 0 && IsSpace(s[|s| - 1]) then 1 + TrailingSpace(s[..|s| - 1]) else 0
  }

  /** ECMAScript `s.trim()`: `s` without its leading and trailing whitespace. */
  function Trim(s: string): (r: string)
    ensures Trimmed(r)
    ensures |r| <= |s|
    ensures r == [] <==> Blank(s)
  {
    var a := LeadingSpace(s);
    var t := s[a..];
    var b := |t| - TrailingSpace(t);
    assert Blank(s) ==> a == |s|;
    assert a < |s| ==> t[0] == s[a];
    t[..b]
  }

  /**
   * The concatenation of a sequence of text chunks, in order, as `+=`
   * builds it; a single chunk is joined to itself.
   */
  function Concat(chunks: seq<string>): (r: string)
    ensures |chunks| == 1 ==> r == chunks[0]
  {
    if chunks == [] then "" else Concat(chunks[..|chunks| - 1]) + chunks[|chunks| - 1]
  }

  /** Trimming undoes any whitespace padding around an already trimmed text. */
  lemma TrimPadding(p: string, t: string, q: string)
    requires Blank(p) && Blank(q) && Trimmed(t)
    ensures Trim(p + t + q) == t
  {
    var s := p + t + q;
    var a := LeadingSpace(s);
    if t == [] {
      assert Blank(s);
    } else {
      assert s[|p|] == t[0];
      assert a == |p|;
      var u := s[a..];
      assert u == t + q;
      var k := TrailingSpace(u);
      assert u[|u| - 1 - |q|] == t[|t| - 1];
      assert u[..|u| - k] == t;
    }
  }

  /** A text without whitespace at either end is its own trimmed text. */
  lemma TrimTrimmed(t: string)
    requires Trimmed(t)
    ensures Trim(t) == t
  {
    TrimPadding([], t, []);
    assert [] + t + [] == t;
  }

  /** Trimming removes whitespace put in front of a trimmed text. */
  lemma TrimLeading(p: string, t: string)
    requires Blank(p) && Trimmed(t)
    ensures Trim(p + t) == t
  {
    TrimPadding(p, t, []);
    assert p + t + [] == p + t;
  }

  /** `s` is its trimmed text with whitespace padding on each side. */
  lemma TrimInfix(s: string)
    ensures exists p, q :: Blank(p) && Blank(q) && s == p + Trim(s) + q
  {
    var a := LeadingSpace(s);
    var t := s[a..];
    var b := |t| - TrailingSpace(t);
    var p, q := s[..a], t[b..];
    assert Blank(p) && Blank(q);
    assert Trim(s) == t[..b];
    assert s == p + t[..b] + q;
  }

  /** Trimming twice is trimming once. */
  lemma TrimIdempotent(s: string)
    ensures Trim(Trim(s)) == Trim(s)
  {
    TrimTrimmed(Trim(s));
  }

  /** Concatenation distributes over joining two chunk sequences. */
  lemma {:induction false} ConcatJoin(a: seq<string>, b: seq<string>)
    ensures Concat(a + b) == Concat(a) + Concat(b)
    decreases |b|
  {
    if b == [] {
      assert a + b == a;
    } else {
      var b' := b[..|b| - 1];
      assert (a + b)[..|a + b| - 1] == a + b';
      assert (a + b)[|a + b| - 1] == b[|b| - 1];
      ConcatJoin(a, b');
    }
  }

  /** The joined text is empty exactly when every chunk is. */
  lemma {:induction false} ConcatEmpty(chunks: seq<string>)
    ensures Concat(chunks) == "" <==> forall i :: 0 <= i < |chunks| ==> chunks[i] == ""
    decreases |chunks|
  {
    if chunks != [] {
      var init := chunks[..|chunks| - 1];
      ConcatEmpty(init);
      assert forall i :: 0 <= i < |init| ==> init[i] == chunks[i];
    }
  }
}
