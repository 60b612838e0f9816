/**
 * The few Python `str` operations the webhook and PDF code rely on, written
 * out over `seq<char>`: `isspace`/`strip`, `" ".join`, `replace`, `lower` and
 * `endswith`, and `str(int)`.
 */
module Text {

  /** Python's `str.isspace` for one character (the characters `str.strip()` removes). */
  predicate IsSpace(c: char)
  {
    || ('\t' <= c <= '\r')                 // U+0009 .. U+000D
    || ('\U{001C}' <= c <= '\U{001F}')     // file, group, record and unit separators
    || c == ' '
    || c == '\U{0085}' || c == '\U{00A0}' || c == '\U{1680}'
    || ('\U{2000}' <= c <= '\U{200A}')
    || c == '\U{2028}' || c == '\U{2029}' || c == '\U{202F}' || c == '\U{205F}' || c == '\U{3000}'
  }

  /** `s.lstrip()`: what is left after the leading whitespace. */
  function LStrip(s: string): (r: string)
    ensures |r| <= |s|
    ensures forall i :: 0 <= i < |s| - |r| ==> IsSpace(s[i])
    ensures r != [] ==> !IsSpace(r[0])
  {
    if |s| > 0 && IsSpace(s[0]) then LStrip(s[1..]) else s
  }

  /** `s.rstrip()`: what is left before the trailing whitespace. */
  function RStrip(s: string): (r: string)
    ensures |r| <= |s|
    ensures forall i :: |r| <= i < |s| ==> IsSpace(s[i])
    ensures r != [] ==> !IsSpace(r[|r| - 1])
  {
    if |s| > 0 && IsSpace(s[|s| - 1]) then RStrip(s[..|s| - 1]) else s
  }

  /** Every character of `s` is whitespace (so is the empty string). */
  predicate Blank(s: string)
  {
    forall i :: 0 <= i < |s| ==> IsSpace(s[i])
  }

  /** `lstrip()` keeps a suffix of the text. */
  lemma {:induction false} LStripSuffix(s: string)
    ensures LStrip(s) == s[|s| - |LStrip(s)|..]
    decreases |s|
  {
    if |s| > 0 && IsSpace(s[0]) {
      LStripSuffix(s[1..]);
      assert s[1..][|s| - 1 - |LStrip(s)|..] == s[|s| - |LStrip(s)|..];
    }
  }

  /** `rstrip()` keeps a prefix of the text. */
  lemma {:induction false} RStripPrefix(s: string)
    ensures RStrip(s) == s[..|RStrip(s)|]
    decreases |s|
  {
    if |s| > 0 && IsSpace(s[|s| - 1]) {
      RStripPrefix(s[..|s| - 1]);
      assert s[..|s| - 1][..|RStrip(s)|] == s[..|RStrip(s)|];
    }
  }

  /** `r` is the slice `s[i..j]` of `s` with only whitespace before `i` and after `j`. */
  predicate BetweenBlanks(s: string, r: string)
  {
    exists i, j | 0 <= i <= j <= |s| :: r == s[i..j] && Blank(s[..i]) && Blank(s[j..])
  }

  /** `s.strip()`: the text between the leading and the trailing whitespace. */
  function Strip(s: string): (r: string)
    ensures |r| <= |s|
    ensures BetweenBlanks(s, r)
    ensures r == [] <==> Blank(s)
    ensures r != [] ==> !IsSpace(r[0]) && !IsSpace(r[|r| - 1])
  {
    var l := LStrip(s);
    var r := RStrip(l);
    // A non-empty `l` starts with a non-space, so `rstrip` cannot consume it all.
    LStripSuffix(s);
    RStripPrefix(l);
    assert r != [] ==> r[0] == l[0];
    // An empty `r` means `l` was all whitespace, hence empty, hence `s` was all whitespace.
    assert r == [] ==> l == [];
    SliceBetween(s, l, r);
    var i := |s| - |l|;
    assert r == s[i..i + |r|] && Blank(s[..i]) && Blank(s[i + |r|..]);
    r
  }

  /**
   * A prefix `r` of a suffix `l` of `s`, with only whitespace before `l` and
   * after `r` within `l`, is the slice of `s` between two whitespace runs.
   */
  lemma SliceBetween(s: string, l: string, r: string)
    requires |l| <= |s| && l == s[|s| - |l|..] && |r| <= |l| && r == l[..|r|]
    requires forall k :: 0 <= k < |s| - |l| ==> IsSpace(s[k])
    requires forall k :: |r| <= k < |l| ==> IsSpace(l[k])
    ensures var i := |s| - |l|; r == s[i..i + |r|] && Blank(s[..i]) && Blank(s[i + |r|..])
  {
    var i := |s| - |l|;
    assert Blank(s[..i]) by {
      forall k | 0 <= k < i ensures IsSpace(s[..i][k]) {
        assert s[..i][k] == s[k];
      }
    }
    assert Blank(s[i + |r|..]) by {
      var tail := s[i + |r|..];
      forall k | 0 <= k < |tail| ensures IsSpace(tail[k]) {
        assert tail[k] == l[|r| + k];
      }
    }
  }

  /** A string that neither starts nor ends with whitespace is its own `strip()`. */
  lemma {:induction false} StripTrimmed(s: string)
    requires s == [] || (!IsSpace(s[0]) && !IsSpace(s[|s| - 1]))
    ensures Strip(s) == s
  {
  }

  /** `strip()` is idempotent. */
  lemma StripIdempotent(s: string)
    ensures Strip(Strip(s)) == Strip(s)
  {
    StripTrimmed(Strip(s));
  }

  /** Total length of the pieces. */
  function TotalLength(parts: seq<string>): nat
  {
    if |parts| == 0 then 0 else TotalLength(parts[..|parts| - 1]) + |parts[|parts| - 1]|
  }

  /** `" ".join(parts)`. */
  function Join(parts: seq<string>): (r: string)
    ensures r == [] <==> |parts| == 0 || (|parts| == 1 && parts[0] == [])
    ensures |parts| > 0 ==> |r| == TotalLength(parts) + |parts| - 1
    decreases |parts|
  {
    if |parts| == 0 then ""
    else if |parts| == 1 then parts[0]
    else Join(parts[..|parts| - 1]) + " " + parts[|parts| - 1]
  }

  /** The joined text starts with the first piece and ends with the last one. */
  lemma {:induction false} JoinEnds(parts: seq<string>)
    requires |parts| > 0
    ensures parts[0] <= Join(parts)
    ensures Join(parts)[|Join(parts)| - |parts[|parts| - 1]|..] == parts[|parts| - 1]
    decreases |parts|
  {
    if |parts| > 1 {
      var init := parts[..|parts| - 1];
      JoinEnds(init);
      assert init[0] == parts[0];
      var r, last := Join(parts), parts[|parts| - 1];
      assert r == Join(init) + " " + last;
      assert r[..|Join(init)|] == Join(init);
      assert r[|r| - |last|..] == last;
    }
  }

  /** Joining one more piece appends a space and the piece. */
  lemma JoinSnoc(parts: seq<string>, p: string)
    requires |parts| > 0
    ensures Join(parts + [p]) == Join(parts) + " " + p
  {
    var q := parts + [p];
    assert q[..|q| - 1] == parts;
    assert q[|q| - 1] == p;
  }

  /** `pat` occurs in `s` starting at position `i`. */
  predicate MatchAt(s: string, pat: string, i: int)
  {
    0 <= i && i + |pat| <= |s| && s[i..i + |pat|] == pat
  }

  /** `pat` occurs somewhere in `s`. */
  predicate Occurs(s: string, pat: string)
  {
    exists i | 0 <= i <= |s| :: MatchAt(s, pat, i)
  }

  /**
   * `s.replace(pat, rep)` for a non-empty `pat`: scan left to right and replace
   * each non-overlapping occurrence.
   */
  function ReplaceAll(s: string, pat: string, rep: string): (r: string)
    requires |pat| > 0
    ensures rep == pat ==> r == s
    ensures |rep| == |pat| ==> |r| == |s|
    decreases |s|
  {
    if |s| < |pat| then s
    else if s[..|pat|] == pat then
      assert s == s[..|pat|] + s[|pat|..];
      rep + ReplaceAll(s[|pat|..], pat, rep)
    else
      assert s == [s[0]] + s[1..];
      [s[0]] + ReplaceAll(s[1..], pat, rep)
  }

  /** Replacing a pattern that does not occur leaves the text as it is. */
  lemma {:induction false} ReplaceAbsent(s: string, pat: string, rep: string)
    requires |pat| > 0
    requires !Occurs(s, pat)
    ensures ReplaceAll(s, pat, rep) == s
    decreases |s|
  {
    if |s| >= |pat| {
      assert !MatchAt(s, pat, 0);
      assert s[0..|pat|] == s[..|pat|];
      assert !Occurs(s[1..], pat) by {
        forall i ensures !MatchAt(s[1..], pat, i) {
          if MatchAt(s[1..], pat, i) {
            assert s[1..][i..i + |pat|] == s[i + 1..i + 1 + |pat|];
            assert MatchAt(s, pat, i + 1);
          }
        }
      }
      ReplaceAbsent(s[1..], pat, rep);
      assert s == [s[0]] + s[1..];
    }
  }

  /** A leading stretch with no character that could start the pattern is copied unchanged. */
  lemma ReplaceSkip(s: string, pat: string, rep: string, k: nat)
    requires |pat| > 0 && k <= |s|
    requires forall i :: 0 <= i < k ==> s[i] != pat[0]
    ensures ReplaceAll(s, pat, rep) == s[..k] + ReplaceAll(s[k..], pat, rep)
  {
    assert s[..k] + s[k..] == s;
    forall i | 0 <= i < |s[..k]| ensures !MatchAt(s[..k] + s[k..], pat, i) {
      if i + |pat| <= |s| {
        assert s[i..i + |pat|][0] == s[i];
      }
    }
    ReplaceNoMatchPrefix(s[..k], s[k..], pat, rep);
  }

  /** Nothing in `s` could start the pattern, so nothing is replaced. */
  lemma ReplaceNothing(s: string, pat: string, rep: string)
    requires |pat| > 0
    requires forall i :: 0 <= i < |s| ==> s[i] != pat[0]
    ensures ReplaceAll(s, pat, rep) == s
  {
    ReplaceSkip(s, pat, rep, |s|);
    assert s[..|s|] == s;
    assert s[|s|..] == [];
  }

  /** The first occurrence, after a stretch that contains no start of the pattern, is replaced. */
  lemma ReplaceFirst(pre: string, pat: string, post: string, rep: string)
    requires |pat| > 0
    requires forall i :: 0 <= i < |pre| ==> pre[i] != pat[0]
    ensures ReplaceAll(pre + pat + post, pat, rep) == pre + rep + ReplaceAll(post, pat, rep)
  {
    var s := pre + pat + post;
    ReplaceSkip(s, pat, rep, |pre|);
    assert s[..|pre|] == pre;
    var t := s[|pre|..];
    assert t == pat + post;
    ReplaceLeading(pat, post, rep);
  }

  /** A text that opens with the pattern has it replaced, and the scan goes on after it. */
  lemma ReplaceLeading(pat: string, post: string, rep: string)
    requires |pat| > 0
    ensures ReplaceAll(pat + post, pat, rep) == rep + ReplaceAll(post, pat, rep)
  {
    var t := pat + post;
    assert t[..|pat|] == pat && t[|pat|..] == post;
  }

  /**
   * A stretch in which no occurrence of the pattern starts is copied unchanged,
   * even when an occurrence that starts after it overlaps nothing of it.
   */
  lemma {:induction false} ReplaceNoMatchPrefix(pre: string, rest: string, pat: string, rep: string)
    requires |pat| > 0
    requires forall i :: 0 <= i < |pre| ==> !MatchAt(pre + rest, pat, i)
    ensures ReplaceAll(pre + rest, pat, rep) == pre + ReplaceAll(rest, pat, rep)
    decreases |pre|
  {
    if |pre| > 0 {
      var s := pre + rest;
      var t := pre[1..] + rest;
      assert s[1..] == t;
      assert !MatchAt(s, pat, 0);
      if |s| >= |pat| {
        assert s[0..|pat|] == s[..|pat|];
      }
      assert forall i :: 0 <= i < |pre| - 1 ==> !MatchAt(t, pat, i) by {
        forall i | 0 <= i < |pre| - 1 ensures !MatchAt(t, pat, i) {
          assert !MatchAt(s, pat, i + 1);
          if i + |pat| <= |t| {
            assert t[i..i + |pat|] == s[i + 1..i + 1 + |pat|];
          }
        }
      }
      ReplaceNoMatchPrefix(pre[1..], rest, pat, rep);
      if |s| < |pat| {
        assert ReplaceAll(rest, pat, rep) == rest;
        assert s == pre + rest;
      } else {
        assert ReplaceAll(s, pat, rep) == [s[0]] + ReplaceAll(t, pat, rep);
        assert [pre[0]] + pre[1..] == pre;
        AppendAssoc([pre[0]], pre[1..], ReplaceAll(rest, pat, rep));
      }
    } else {
      assert pre + rest == rest;
    }
  }

  /** Regrouping a concatenation, for the replacement proofs that split a text in three. */
  lemma AppendAssoc<T>(a: seq<T>, b: seq<T>, c: seq<T>)
    ensures a + (b + c) == (a + b) + c
  {
  }

  /** `s.lower()` restricted to ASCII letters; other characters are kept as they are. */
  function Lower(s: string): string
  {
    seq(|s|, i requires 0 <= i < |s| => if 'A' <= s[i] <= 'Z' then (s[i] as int + 32) as char else s[i])
  }

  /** `s.endswith(suffix)`. */
  predicate EndsWith(s: string, suffix: string)
  {
    |suffix| <= |s| && s[|s| - |suffix|..] == suffix
  }

  predicate IsDigit(c: char)
  {
    '0' <= c <= '9'
  }

  function DigitChar(d: int): char
    requires 0 <= d < 10
  {
    ('0' as int + d) as char
  }

  /** `str(n)` for a natural number: its decimal digits, most significant first, without leading zeros. */
  function NatToString(n: nat): (r: string)
    ensures |r| > 0 && forall i :: 0 <= i < |r| ==> IsDigit(r[i])
    ensures r[0] == '0' ==> n == 0
    decreases n
  {
    if n < 10 then [DigitChar(n)] else NatToString(n / 10) + [DigitChar(n % 10)]
  }

  /** `str(i)` for a Python `int`. */
  function IntToString(i: int): (r: string)
    ensures |r| > 0
    ensures (r[0] == '-') <==> i < 0
    ensures forall k :: (if i < 0 then 1 else 0) <= k < |r| ==> IsDigit(r[k])
  {
    if i < 0 then "-" + NatToString(-i) else NatToString(i)
  }

  /** The number a string of decimal digits denotes (the reading `int(s)` makes of it). */
  function DigitsValue(s: string): nat
    requires forall i :: 0 <= i < |s| ==> IsDigit(s[i])
  {
    if |s| == 0 then 0
    else
      var last := s[|s| - 1];
      assert IsDigit(last);
      10 * DigitsValue(s[..|s| - 1]) + (last as int - '0' as int)
  }

  /** The decimal text of `n` reads back as `n`. */
  lemma {:induction false} NatToStringValue(n: nat)
    ensures DigitsValue(NatToString(n)) == n
    decreases n
  {
    if n >= 10 {
      NatToStringValue(n / 10);
      var r := NatToString(n);
      assert r[..|r| - 1] == NatToString(n / 10);
    }
  }

  /** `str` is injective on integers: distinct numbers have distinct decimal texts. */
  lemma IntToStringInjective(a: int, b: int)
    requires IntToString(a) == IntToString(b)
    ensures a == b
  {
    if a < 0 {
      assert IntToString(a)[1..] == NatToString(-a);
      NatToStringValue(-a);
      NatToStringValue(-b);
    } else {
      NatToStringValue(a);
      NatToStringValue(b);
    }
  }
}
