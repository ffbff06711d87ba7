/** Lines 72-77 of streamlit_app.py, as functions on strings: the column-name clean-up
    (`.str.lower().str.strip()`) and the character filter put in front of
    `pd.to_numeric` (`.str.replace('[^\d.-]', '', regex=True)`). */
module Normalize {

  predicate IsUpper(c: char) { 'A' <= c <= 'Z' }

  /** Python's `str.lower` on the ASCII letters. */
  function LowerChar(c: char): (r: char)
    ensures !IsUpper(r)
    ensures !IsUpper(c) ==> r == c
    ensures IsUpper(c) ==> r == "abcdefghijklmnopqrstuvwxyz"[c as int - 'A' as int]
    ensures IsSpace(r) == IsSpace(c)
  {
    if IsUpper(c) then (c as int + 32) as char else c
  }

  /** No character of `s` is an upper-case ASCII letter. */
  predicate NoUpper(s: string) {
    forall i | 0 <= i < |s| :: !IsUpper(s[i])
  }

  function Lower(s: string): (r: string)
    ensures |r| == |s|
    ensures forall i :: 0 <= i < |s| ==> r[i] == LowerChar(s[i])
    ensures NoUpper(r)
  {
    if s == [] then [] else [LowerChar(s[0])] + Lower(s[1..])
  }

  /** The characters Python's `str.isspace` accepts, which is what `str.strip()` removes. */
  predicate IsSpace(c: char) {
    c == ' ' || '\U{0009}' <= c <= '\U{000D}' || '\U{001C}' <= c <= '\U{001F}'
    || c == '\U{0085}' || c == '\U{00A0}' || c == '\U{1680}' || '\U{2000}' <= c <= '\U{200A}'
    || c == '\U{2028}' || c == '\U{2029}' || c == '\U{202F}' || c == '\U{205F}' || c == '\U{3000}'
  }

  /** Every character of `s[lo..hi]` is whitespace. */
  predicate AllSpace(s: string, lo: nat, hi: nat)
    requires lo <= hi <= |s|
  {
    forall k | lo <= k < hi :: IsSpace(s[k])
  }

  /** `s` neither starts nor ends with whitespace. */
  predicate Unpadded(s: string) {
    s == [] || (!IsSpace(s[0]) && !IsSpace(s[|s| - 1]))
  }

  /** Removes the leading whitespace: what is removed is all whitespace, and what is left
      does not start with whitespace. */
  function StripStart(s: string): (r: string)
    ensures |r| <= |s| && r == s[|s| - |r|..]
    ensures AllSpace(s, 0, |s| - |r|)
    ensures r == [] || !IsSpace(r[0])
  {
    if s != [] && IsSpace(s[0]) then StripStart(s[1..]) else s
  }

  /** Removes the trailing whitespace, symmetrically. */
  function StripEnd(s: string): (r: string)
    ensures |r| <= |s| && r == s[..|r|]
    ensures AllSpace(s, |r|, |s|)
    ensures r == [] || !IsSpace(r[|r| - 1])
  {
    if s != [] && IsSpace(s[|s| - 1]) then StripEnd(s[..|s| - 1]) else s
  }

  /** Python's `str.strip()`: the result is a contiguous slice of `s`, everything cut off on
      either side is whitespace, and the result neither starts nor ends with whitespace. */
  function Strip(s: string): (r: string)
    ensures exists i: nat, j: nat ::
              && i <= j <= |s| && r == s[i..j] && AllSpace(s, 0, i) && AllSpace(s, j, |s|)
    ensures Unpadded(r)
  {
    var t := StripStart(s);
    var r := StripEnd(t);
    SuffixSpace(s, |s| - |t|, |r|);
    assert r == s[|s| - |t|..|s| - |t| + |r|];
    r
  }

  /** Whitespace at the end of the suffix `s[i..]` is whitespace at the end of `s`. */
  lemma SuffixSpace(s: string, i: nat, n: nat)
    requires i + n <= |s|
    requires AllSpace(s[i..], n, |s| - i)
    ensures AllSpace(s, i + n, |s|)
  {
    forall k | i + n <= k < |s|
      ensures IsSpace(s[k])
    {
      assert s[k] == s[i..][k - i];
    }
  }

  /** A slice of text without upper-case letters has none either. */
  lemma SliceNoUpper(s: string, i: nat, j: nat)
    requires i <= j <= |s|
    requires NoUpper(s)
    ensures NoUpper(s[i..j])
  {
    forall k | 0 <= k < j - i
      ensures !IsUpper(s[i..j][k])
    {
      assert s[i..j][k] == s[i + k];
    }
  }

  /** The name a column carries after line 72/73: lower-cased, then stripped. */
  function StandardName(name: string): (r: string)
    ensures NoUpper(r)
    ensures Unpadded(r)
  {
    var lowered := Lower(name);
    var t := StripStart(lowered);
    SliceNoUpper(lowered, |lowered| - |t|, |lowered|);
    SliceNoUpper(t, 0, |StripEnd(t)|);
    Strip(lowered)
  }

  /** The characters the pattern `[^\d.-]` does not delete. */
  predicate IsAmountChar(c: char) { '0' <= c <= '9' || c == '.' || c == '-' }

  /** The amount text with every character other than a digit, `.` or `-` deleted. */
  function CleanAmount(s: string): (r: string)
    ensures |r| <= |s|
    ensures forall i :: 0 <= i < |r| ==> IsAmountChar(r[i])
  {
    if s == [] then [] else (if IsAmountChar(s[0]) then [s[0]] else []) + CleanAmount(s[1..])
  }

  // ----- Properties of the column-name clean-up -----

  lemma LowerKeepsLowered(s: string)
    requires NoUpper(s)
    ensures Lower(s) == s
  {
  }

  lemma {:induction false} StripKeepsUnpadded(s: string)
    requires Unpadded(s)
    ensures Strip(s) == s
  {
    assert StripStart(s) == s;
    assert StripEnd(s) == s;
  }

  /** Normalising the names of an already normalised table changes nothing. */
  lemma {:induction false} StandardNameIdempotent(name: string)
    ensures StandardName(StandardName(name)) == StandardName(name)
  {
    var r := StandardName(name);
    LowerKeepsLowered(r);
    StripKeepsUnpadded(r);
  }

  /** Stripping and lower-casing commute, so the order of `.str.lower()` and `.str.strip()`
      does not matter. */
  lemma {:induction false} LowerStripCommute(name: string)
    ensures StandardName(name) == Lower(Strip(name))
  {
    LowerStartCommute(name);
    LowerEndCommute(StripStart(name));
    assert Lower(StripStart(name)) == StripStart(Lower(name));
  }

  lemma {:induction false} LowerStartCommute(s: string)
    ensures StripStart(Lower(s)) == Lower(StripStart(s))
    decreases |s|
  {
    if s != [] && IsSpace(s[0]) {
      var l := Lower(s);
      assert l[0] == LowerChar(s[0]) && IsSpace(l[0]);
      assert l[1..] == Lower(s[1..]);
      calc {
        StripStart(l);
        StripStart(l[1..]);
        { LowerStartCommute(s[1..]); }
        Lower(StripStart(s[1..]));
        Lower(StripStart(s));
      }
    } else if s != [] {
      var l := Lower(s);
      assert l[0] == LowerChar(s[0]) && !IsSpace(l[0]);
      assert StripStart(l) == l;
      assert StripStart(s) == s;
    }
  }

  lemma {:induction false} LowerEndCommute(s: string)
    ensures StripEnd(Lower(s)) == Lower(StripEnd(s))
    decreases |s|
  {
    if s != [] && IsSpace(s[|s| - 1]) {
      assert Lower(s)[..|s| - 1] == Lower(s[..|s| - 1]);
      LowerEndCommute(s[..|s| - 1]);
    }
  }

  lemma LowerAppend(s: string, t: string)
    ensures Lower(s + t) == Lower(s) + Lower(t)
  {
    assert forall i :: 0 <= i < |s + t| ==> Lower(s + t)[i] == (Lower(s) + Lower(t))[i];
  }

  lemma {:induction false} StripStartOfPadded(pre: string, v: string)
    requires AllSpace(pre, 0, |pre|)
    requires v == [] || !IsSpace(v[0])
    ensures StripStart(pre + v) == v
    decreases |pre|
  {
    if pre == [] {
      assert pre + v == v;
    } else {
      assert (pre + v)[0] == pre[0] && (pre + v)[1..] == pre[1..] + v;
      StripStartOfPadded(pre[1..], v);
    }
  }

  lemma {:induction false} StripEndOfPadded(v: string, post: string)
    requires AllSpace(post, 0, |post|)
    requires v == [] || !IsSpace(v[|v| - 1])
    ensures StripEnd(v + post) == v
    decreases |post|
  {
    if post == [] {
      assert v + post == v;
    } else {
      var init := post[..|post| - 1];
      assert (v + post)[|v + post| - 1] == post[|post| - 1];
      assert (v + post)[..|v + post| - 1] == v + init;
      StripEndOfPadded(v, init);
    }
  }

  lemma LowerKeepsSpaces(s: string)
    requires AllSpace(s, 0, |s|)
    ensures AllSpace(Lower(s), 0, |s|)
  {
    forall k | 0 <= k < |s|
      ensures IsSpace(Lower(s)[k])
    {
      assert Lower(s)[k] == LowerChar(s[k]);
    }
  }

  lemma LowerKeepsUnpadded(s: string)
    requires s != [] && Unpadded(s)
    ensures Lower(s) != [] && Unpadded(Lower(s))
  {
    assert Lower(s)[0] == LowerChar(s[0]);
    assert Lower(s)[|s| - 1] == LowerChar(s[|s| - 1]);
  }

  /** A column header is its text between the surrounding whitespace, lower-cased: for
      instance " Amount\t" becomes "amount", the name the amount column is selected by. */
  lemma StandardNameOfPadded(pre: string, v: string, post: string)
    requires AllSpace(pre, 0, |pre|) && AllSpace(post, 0, |post|)
    requires v != [] && Unpadded(v)
    ensures StandardName(pre + v + post) == Lower(v)
  {
    var lp, lv, lq := Lower(pre), Lower(v), Lower(post);
    calc {
      Lower(pre + v + post);
      { LowerAppend(pre + v, post); }
      Lower(pre + v) + lq;
      { LowerAppend(pre, v); }
      lp + lv + lq;
      lp + (lv + lq);
    }
    LowerKeepsSpaces(pre);
    LowerKeepsSpaces(post);
    LowerKeepsUnpadded(v);
    StripStartOfPadded(lp, lv + lq);
    StripEndOfPadded(lv, lq);
    assert Strip(lp + (lv + lq)) == lv;
  }

  // ----- Properties of the amount filter -----

  /** The filter works character by character: it keeps the order of what it keeps. */
  lemma {:induction false} CleanAmountAppend(s: string, t: string)
    ensures CleanAmount(s + t) == CleanAmount(s) + CleanAmount(t)
    decreases |s|
  {
    if s != [] {
      assert (s + t)[1..] == s[1..] + t;
      CleanAmountAppend(s[1..], t);
    } else {
      assert s + t == t;
    }
  }

  /** Each digit, `.` and `-` survives as often as it occurs; every other character is gone. */
  lemma {:induction false} CleanAmountCounts(s: string, c: char)
    ensures multiset(CleanAmount(s))[c] == if IsAmountChar(c) then multiset(s)[c] else 0
    decreases |s|
  {
    if s != [] {
      CleanAmountCounts(s[1..], c);
      assert s == [s[0]] + s[1..];
    }
  }

  /** Text made only of digits, `.` and `-` passes through unchanged. */
  lemma {:induction false} CleanAmountKeepsAmountText(s: string)
    requires forall i :: 0 <= i < |s| ==> IsAmountChar(s[i])
    ensures CleanAmount(s) == s
    decreases |s|
  {
    if s != [] {
      CleanAmountKeepsAmountText(s[1..]);
    }
  }

  lemma {:induction false} CleanAmountIdempotent(s: string)
    ensures CleanAmount(CleanAmount(s)) == CleanAmount(s)
  {
    CleanAmountKeepsAmountText(CleanAmount(s));
  }
}
