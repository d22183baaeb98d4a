/** The three JavaScript string operations the component relies on:
    String.prototype.trim, String.prototype.toLowerCase and
    String.prototype.includes, over strings as sequences of characters. */
module Text {

  /** The code points trim removes: WhiteSpace and LineTerminator of
      ECMA-262 (TAB, LF, VT, FF, CR, SPACE, NBSP, ZWNBSP, the other Zs
      space separators, LINE SEPARATOR and PARAGRAPH SEPARATOR). */
  function IsSpace(c: char): (b: bool)
    ensures c as int < 0x80 ==> (b <==> c == ' ' || c == '\t' || c == '\n' || c == '\r' || c as int == 0x0B || c as int == 0x0C)
    ensures b ==> !IsUpper(c) && !('a' <= c <= 'z') && !('0' <= c <= '9')
  {
    var n := c as int;
    (9 <= n <= 13) || n == 0x20 || n == 0xA0 || n == 0x1680 ||
    (0x2000 <= n <= 0x200A) || n == 0x2028 || n == 0x2029 ||
    n == 0x202F || n == 0x205F || n == 0x3000 || n == 0xFEFF
  }

  /** Every character of s is one that trim removes. */
  ghost predicate Blank(s: string) {
    forall i :: 0 <= i < |s| ==> IsSpace(s[i])
  }

  /** Every character of s outside the range [lo, hi) is white space. */
  ghost predicate BlankOutside(s: string, lo: int, hi: int) {
    forall k :: 0 <= k < |s| && !(lo <= k < hi) ==> IsSpace(s[k])
  }

  /** r occurs in s at offset i. */
  ghost predicate OccursAt(r: string, s: string, i: int) {
    0 <= i && i + |r| <= |s| && s[i..i + |r|] == r
  }

  /** s with its leading white space removed. */
  function TrimStart(s: string): (r: string)
    ensures |r| <= |s|
    ensures r == [] || !IsSpace(r[0])
  {
    if s != [] && IsSpace(s[0]) then TrimStart(s[1..]) else s
  }

  /** What TrimStart removes is a blank prefix: it keeps a suffix of s. */
  lemma {:induction false} TrimStartIsSuffix(s: string)
    ensures TrimStart(s) == s[|s| - |TrimStart(s)|..]
    ensures BlankOutside(s, |s| - |TrimStart(s)|, |s|)
  {
    if s != [] && IsSpace(s[0]) {
      TrimStartIsSuffix(s[1..]);
      var r := TrimStart(s);
      assert s[1..][|s| - 1 - |r|..] == s[|s| - |r|..];
      forall k | 0 <= k < |s| - |r| ensures IsSpace(s[k]) {
        if k > 0 { assert s[k] == s[1..][k - 1]; }
      }
    }
  }

  /** s with its trailing white space removed. */
  function TrimEnd(s: string): (r: string)
    ensures |r| <= |s|
    ensures r == [] || !IsSpace(r[|r| - 1])
  {
    if s != [] && IsSpace(s[|s| - 1]) then TrimEnd(s[..|s| - 1]) else s
  }

  /** What TrimEnd removes is a blank suffix: it keeps a prefix of s. */
  lemma {:induction false} TrimEndIsPrefix(s: string)
    ensures TrimEnd(s) == s[..|TrimEnd(s)|]
    ensures BlankOutside(s, 0, |TrimEnd(s)|)
  {
    if s != [] && IsSpace(s[|s| - 1]) {
      TrimEndIsPrefix(s[..|s| - 1]);
      var r := TrimEnd(s);
      assert s[..|s| - 1][..|r|] == s[..|r|];
      forall k | |r| <= k < |s| ensures IsSpace(s[k]) {
        if k < |s| - 1 { assert s[k] == s[..|s| - 1][k]; }
      }
    }
  }

  /** String.prototype.trim: the slice of s left once white space is cut
      from both ends. It is empty exactly when s is all white space. */
  function Trim(s: string): (r: string)
    ensures r == [] <==> Blank(s)
    ensures r != [] ==> !IsSpace(r[0]) && !IsSpace(r[|r| - 1])
    ensures exists i :: OccursAt(r, s, i) && BlankOutside(s, i, i + |r|)
  {
    var t := TrimStart(s);
    var r := TrimEnd(t);
    TrimStartIsSuffix(s);
    TrimEndIsPrefix(t);
    TrimIsSlice(s, t, r);
    r
  }

  /** The facts behind Trim's contract: what TrimEnd keeps of what TrimStart
      keeps is the slice of s starting where TrimStart begins. */
  lemma TrimIsSlice(s: string, t: string, r: string)
    requires |t| <= |s| && t == s[|s| - |t|..] && BlankOutside(s, |s| - |t|, |s|)
    requires t == [] || !IsSpace(t[0])
    requires |r| <= |t| && r == t[..|r|] && BlankOutside(t, 0, |r|)
    requires r == [] || !IsSpace(r[|r| - 1])
    ensures r == [] <==> Blank(s)
    ensures r != [] ==> !IsSpace(r[0]) && !IsSpace(r[|r| - 1])
    ensures exists i :: OccursAt(r, s, i) && BlankOutside(s, i, i + |r|)
  {
    var i := |s| - |t|;
    assert s[i..i + |r|] == r by {
      assert s[i..i + |r|] == s[i..][..|r|];
    }
    forall k | 0 <= k < |s| && !(i <= k < i + |r|) ensures IsSpace(s[k]) {
      if k >= i {
        assert s[k] == t[k - i];
      }
    }
    assert OccursAt(r, s, i) && BlankOutside(s, i, i + |r|);
    if r != [] {
      assert r[0] == t[0];
      assert s[i + |r| - 1] == r[|r| - 1];
    }
  }

  predicate IsUpper(c: char) {
    'A' <= c <= 'Z'
  }

  function LowerChar(c: char): (d: char)
    ensures !IsUpper(d)
    ensures IsUpper(c) ==> d as int == c as int + 32
    ensures !IsUpper(c) ==> d == c
  {
    if IsUpper(c) then (c as int + 32) as char else c
  }

  /** String.prototype.toLowerCase, for the letters A to Z. */
  function Lower(s: string): (r: string)
    ensures |r| == |s|
    ensures forall i :: 0 <= i < |r| ==> !IsUpper(r[i])
    ensures forall i :: 0 <= i < |s| && !IsUpper(s[i]) ==> r[i] == s[i]
    ensures forall i :: 0 <= i < |s| && IsUpper(s[i]) ==> r[i] as int == s[i] as int + 32
  {
    seq(|s|, i requires 0 <= i < |s| => LowerChar(s[i]))
  }

  /** String.prototype.includes: needle occurs somewhere in hay; the empty
      string occurs in every string. */
  function Contains(hay: string, needle: string): (r: bool)
    ensures r <==> exists i :: OccursAt(needle, hay, i)
    decreases |hay|
  {
    if |needle| > |hay| then false
    else if hay[..|needle|] == needle then
      assert OccursAt(needle, hay, 0);
      true
    else
      var r := Contains(hay[1..], needle);
      assert r <==> exists i :: OccursAt(needle, hay, i) by {
        forall j | 0 <= j
          ensures OccursAt(needle, hay[1..], j) <==> OccursAt(needle, hay, j + 1)
        {
          if j + 1 + |needle| <= |hay| {
            assert hay[1..][j..j + |needle|] == hay[j + 1..j + 1 + |needle|];
          }
        }
        if exists i :: OccursAt(needle, hay, i) {
          var i :| OccursAt(needle, hay, i);
          assert i != 0;
          assert OccursAt(needle, hay[1..], i - 1);
        }
      }
      r
  }

  /** A string without the letters A to Z is its own lower case; in
      particular lower-casing is idempotent. */
  lemma LowerKeepsLowercase(s: string)
    requires forall i :: 0 <= i < |s| ==> !IsUpper(s[i])
    ensures Lower(s) == s
  {
    assert forall i :: 0 <= i < |s| ==> Lower(s)[i] == s[i];
  }

  /** Trimming is idempotent. */
  lemma TrimIdempotent(s: string)
    ensures Trim(Trim(s)) == Trim(s)
  {
  }

  /** Cutting leading white space ignores any blank prefix. */
  lemma {:induction false} TrimStartSkipsBlank(pre: string, s: string)
    requires Blank(pre)
    ensures TrimStart(pre + s) == TrimStart(s)
  {
    if pre != [] {
      assert (pre + s)[0] == pre[0] && IsSpace(pre[0]);
      assert (pre + s)[1..] == pre[1..] + s;
      assert Blank(pre[1..]) by {
        forall k | 0 <= k < |pre| - 1 ensures IsSpace(pre[1..][k]) { assert pre[1..][k] == pre[k + 1]; }
      }
      TrimStartSkipsBlank(pre[1..], s);
      assert TrimStart(pre + s) == TrimStart(pre[1..] + s);
    } else {
      assert pre + s == s;
    }
  }

  /** Cutting trailing white space ignores any blank suffix. */
  lemma {:induction false} TrimEndSkipsBlank(s: string, post: string)
    requires Blank(post)
    ensures TrimEnd(s + post) == TrimEnd(s)
  {
    if post != [] {
      var n := |post|;
      assert (s + post)[|s| + n - 1] == post[n - 1] && IsSpace(post[n - 1]);
      assert (s + post)[..|s| + n - 1] == s + post[..n - 1];
      assert Blank(post[..n - 1]) by {
        forall k | 0 <= k < n - 1 ensures IsSpace(post[k]) { }
      }
      TrimEndSkipsBlank(s, post[..n - 1]);
      assert TrimEnd(s + post) == TrimEnd(s + post[..n - 1]);
    } else {
      assert s + post == s;
    }
  }

  /** Leading white space of s + post, when s is not blank, is that of s. */
  lemma {:induction false} TrimStartKeepsTail(s: string, post: string)
    requires !Blank(s)
    ensures TrimStart(s + post) == TrimStart(s) + post
  {
    assert s != [];
    if IsSpace(s[0]) {
      assert (s + post)[1..] == s[1..] + post;
      assert !Blank(s[1..]) by {
        var k :| 0 <= k < |s| && !IsSpace(s[k]);
        assert s[1..][k - 1] == s[k];
      }
      TrimStartKeepsTail(s[1..], post);
    }
  }

  /** The trimmed text does not depend on white-space padding around it. */
  lemma TrimIgnoresPadding(pre: string, s: string, post: string)
    requires Blank(pre) && Blank(post)
    ensures Trim(pre + s + post) == Trim(s)
  {
    var x := pre + s + post;
    assert x == pre + (s + post);
    TrimStartSkipsBlank(pre, s + post);
    assert Trim(x) == TrimEnd(TrimStart(s + post));
    if Blank(s) {
      assert Blank(s + post) by {
        forall k | 0 <= k < |s + post| ensures IsSpace((s + post)[k]) {
          if k >= |s| { assert (s + post)[k] == post[k - |s|]; }
        }
      }
      assert Trim(s + post) == [] && Trim(s) == [];
    } else {
      TrimStartKeepsTail(s, post);
      TrimEndSkipsBlank(TrimStart(s), post);
      assert TrimEnd(TrimStart(s) + post) == TrimEnd(TrimStart(s));
    }
  }

}
