/**
  The JavaScript string operations the client relies on: `trim`, the `\s`
  class, `includes`, ASCII `toLowerCase`, `split(' ')` / `join(' ')`, and the
  decimal rendering of integers.
 */
module Text {

  import opened Optional

  /** JavaScript WhiteSpace and LineTerminator code points: what `trim()` removes and `\s` matches. */
  predicate IsSpace(c: char) {
    var n := c as int;
    n == 0x09 || n == 0x0A || n == 0x0B || n == 0x0C || n == 0x0D || n == 0x20
    || n == 0xA0 || n == 0x1680 || (0x2000 <= n <= 0x200A) || n == 0x2028 || n == 0x2029
    || n == 0x202F || n == 0x205F || n == 0x3000 || n == 0xFEFF
  }

  predicate AllSpace(s: string) {
    forall i :: 0 <= i < |s| ==> IsSpace(s[i])
  }

  /** `s.trimStart()` */
  function TrimStart(s: string): (r: string)
    ensures |r| <= |s| && r == s[|s| - |r|..]
    ensures r == [] || !IsSpace(r[0])
  {
    if |s| > 0 && IsSpace(s[0]) then TrimStart(s[1..]) else s
  }

  /** What `trimStart` removes is whitespace. */
  lemma {:induction false} TrimStartRemovesSpace(s: string)
    ensures AllSpace(s[..|s| - |TrimStart(s)|])
  {
    if |s| > 0 && IsSpace(s[0]) {
      TrimStartRemovesSpace(s[1..]);
      var k := |s| - |TrimStart(s)|;
      forall i | 0 <= i < k ensures IsSpace(s[..k][i]) {
        if i > 0 {
          assert s[..k][i] == s[1..][..k - 1][i - 1];
        }
      }
    }
  }

  /** `s.trimEnd()` */
  function TrimEnd(s: string): (r: string)
    ensures |r| <= |s| && r == s[..|r|]
    ensures r == [] || !IsSpace(r[|r| - 1])
  {
    if |s| > 0 && IsSpace(s[|s| - 1]) then TrimEnd(s[..|s| - 1]) else s
  }

  /** What `trimEnd` removes is whitespace. */
  lemma {:induction false} TrimEndRemovesSpace(s: string)
    ensures AllSpace(s[|TrimEnd(s)|..])
  {
    if |s| > 0 && IsSpace(s[|s| - 1]) {
      var init := s[..|s| - 1];
      TrimEndRemovesSpace(init);
      var k := |TrimEnd(s)|;
      forall i | 0 <= i < |s| - k ensures IsSpace(s[k..][i]) {
        if k + i < |s| - 1 {
          assert s[k..][i] == init[k..][i];
        }
      }
    }
  }

  /** `s.trim()`: the infix of `s` left after removing leading and trailing whitespace. */
  function Trim(s: string): (r: string)
    ensures |r| <= |TrimStart(s)| <= |s|
    ensures r == s[|s| - |TrimStart(s)|..|s| - |TrimStart(s)| + |r|]
    ensures r == [] || (!IsSpace(r[0]) && !IsSpace(r[|r| - 1]))
    ensures r == [] <==> AllSpace(s)
  {
    var t := TrimStart(s);
    var r := TrimEnd(t);
    TrimEmpty(s);
    TrimSlice(s);
    r
  }

  lemma TrimSlice(s: string)
    ensures var t := TrimStart(s); var r := TrimEnd(t);
      r == s[|s| - |t|..|s| - |t| + |r|]
  {
    var t := TrimStart(s);
    var r := TrimEnd(t);
    var a := |s| - |t|;
    assert t == s[a..];
    assert r == t[..|r|];
    assert s[a..][..|r|] == s[a..a + |r|];
  }

  lemma TrimEmpty(s: string)
    ensures TrimEnd(TrimStart(s)) == [] <==> AllSpace(s)
  {
    var t := TrimStart(s);
    var r := TrimEnd(t);
    var a := |s| - |t|;
    assert t == s[a..];
    if r == [] {
      TrimStartRemovesSpace(s);
      TrimEndRemovesSpace(t);
      assert t[|r|..] == t;
      // whitespace all through, so nothing was left to start `t`
      assert t == [];
      assert s[..a] == s;
    } else {
      assert r == t[..|r|];
      assert r[|r| - 1] == s[a + |r| - 1];
    }
  }

  /** `s.includes(sub)` */
  predicate Contains(s: string, sub: string)
    decreases |s|
  {
    |sub| <= |s| && (s[..|sub|] == sub || Contains(s[1..], sub))
  }

  function LowerChar(c: char): char {
    if 'A' <= c <= 'Z' then (c as int + 32) as char else c
  }

  /** `s.toLowerCase()` on the ASCII letters. */
  function ToLower(s: string): (r: string)
    ensures |r| == |s|
    ensures forall i :: 0 <= i < |s| ==> r[i] == LowerChar(s[i])
  {
    if s == [] then [] else [LowerChar(s[0])] + ToLower(s[1..])
  }

  // ---------------------------------------------------------------------------
  // split(' ') and join(' ')

  /** Number of occurrences of `c` in `s`. */
  function Count(s: string, c: char): nat {
    if s == [] then 0 else (if s[0] == c then 1 else 0) + Count(s[1..], c)
  }

  lemma {:induction false} CountAppend(a: string, b: string, c: char)
    ensures Count(a + b, c) == Count(a, c) + Count(b, c)
  {
    if a == [] {
      assert a + b == b;
    } else {
      assert (a + b)[1..] == a[1..] + b;
      CountAppend(a[1..], b, c);
    }
  }

  /** `s.split(sep)` for a one-character separator: the pieces between separators. */
  function Split(s: string, sep: char): (r: seq<string>)
    ensures |r| >= 1
    ensures forall k :: 0 <= k < |r| ==> sep !in r[k]
  {
    if s == [] then [""]
    else
      var rest := Split(s[1..], sep);
      if s[0] == sep then [""] + rest else [[s[0]] + rest[0]] + rest[1..]
  }

  /** `words.join(sep)`; joining no words gives the empty string. */
  function Join(ws: seq<string>, sep: char): string {
    if ws == [] then ""
    else if |ws| == 1 then ws[0]
    else ws[0] + [sep] + Join(ws[1..], sep)
  }

  /** Splitting yields one more piece than there are separators. */
  lemma {:induction false} SplitLength(s: string, sep: char)
    ensures |Split(s, sep)| == Count(s, sep) + 1
  {
    if s != [] {
      SplitLength(s[1..], sep);
    }
  }

  /** Joining the pieces of a split gives the original string back. */
  lemma {:induction false} JoinSplit(s: string, sep: char)
    ensures Join(Split(s, sep), sep) == s
  {
    if s != [] {
      var rest := Split(s[1..], sep);
      JoinSplit(s[1..], sep);
      if s[0] == sep {
        assert Split(s, sep) == [""] + rest;
        assert s == [sep] + s[1..];
      } else {
        var r := Split(s, sep);
        assert r == [[s[0]] + rest[0]] + rest[1..];
        if |rest| == 1 {
          assert Join(r, sep) == [s[0]] + rest[0];
        } else {
          assert r[1..] == rest[1..];
          assert Join(rest, sep) == rest[0] + [sep] + Join(rest[1..], sep);
          assert Join(r, sep) == [s[0]] + rest[0] + [sep] + Join(rest[1..], sep);
        }
        assert s == [s[0]] + s[1..];
      }
    }
  }

  predicate NoSep(ws: seq<string>, sep: char) {
    forall k :: 0 <= k < |ws| ==> sep !in ws[k]
  }

  lemma {:induction false} CountNoSep(w: string, sep: char)
    requires sep !in w
    ensures Count(w, sep) == 0
  {
    if w != [] {
      CountNoSep(w[1..], sep);
    }
  }

  /** Joining separator-free words puts exactly one separator between neighbours. */
  lemma {:induction false} CountJoin(ws: seq<string>, sep: char)
    requires |ws| >= 1 && NoSep(ws, sep)
    ensures Count(Join(ws, sep), sep) == |ws| - 1
  {
    CountNoSep(ws[0], sep);
    if |ws| > 1 {
      CountJoin(ws[1..], sep);
      CountAppend(ws[0], [sep], sep);
      CountAppend(ws[0] + [sep], Join(ws[1..], sep), sep);
    }
  }

  /** Splitting joined separator-free words gives the words back. */
  lemma {:induction false} SplitJoin(ws: seq<string>, sep: char)
    requires |ws| >= 1 && NoSep(ws, sep)
    ensures Split(Join(ws, sep), sep) == ws
  {
    if |ws| == 1 {
      SplitNoSep(ws[0], sep);
    } else {
      SplitJoin(ws[1..], sep);
      SplitCons(ws[0], Join(ws[1..], sep), sep);
      assert [ws[0]] + ws[1..] == ws;
    }
  }

  lemma {:induction false} SplitNoSep(w: string, sep: char)
    requires sep !in w
    ensures Split(w, sep) == [w]
  {
    if w != [] {
      SplitNoSep(w[1..], sep);
      assert [w[0]] + w[1..] == w;
    }
  }

  /** Splitting `w + sep + t` for a separator-free `w` puts `w` in front of the pieces of `t`. */
  lemma {:induction false} SplitCons(w: string, t: string, sep: char)
    requires sep !in w
    ensures Split(w + [sep] + t, sep) == [w] + Split(t, sep)
  {
    if w == [] {
      assert w + [sep] + t == [sep] + t;
      assert ([sep] + t)[1..] == t;
    } else {
      assert (w + [sep] + t)[1..] == w[1..] + [sep] + t;
      SplitCons(w[1..], t, sep);
      assert [w[0]] + w[1..] == w;
    }
  }

  /** Joining a leading run of the words is a prefix of joining all of them. */
  lemma {:induction false} JoinPrefix(ws: seq<string>, k: nat, sep: char)
    requires 1 <= k < |ws|
    ensures Join(ws, sep) == Join(ws[..k], sep) + [sep] + Join(ws[k..], sep)
  {
    if k == 1 {
      assert ws[..1] == [ws[0]];
      assert ws[1..] == ws[k..];
    } else {
      JoinPrefix(ws[1..], k - 1, sep);
      assert ws[1..][..k - 1] == ws[1..k];
      assert ws[1..][k - 1..] == ws[k..];
      assert ws[..k][1..] == ws[1..k];
    }
  }

  // ---------------------------------------------------------------------------
  // Decimal rendering of integers (`n.toString()`, template literals)

  function DigitChar(d: nat): char
    requires d < 10
  {
    ('0' as int + d) as char
  }

  predicate IsDigit(c: char) {
    '0' <= c <= '9'
  }

  function DigitValue(c: char): nat
    requires IsDigit(c)
  {
    c as int - '0' as int
  }

  /** Decimal digits of a natural number, most significant first, without leading zeros. */
  function NatToString(n: nat): (r: string)
    ensures |r| >= 1
    ensures forall i :: 0 <= i < |r| ==> IsDigit(r[i])
    ensures |r| > 1 ==> r[0] != '0'
    decreases n
  {
    if n < 10 then [DigitChar(n)] else NatToString(n / 10) + [DigitChar(n % 10)]
  }

  /** `n.toString()` for an integer. */
  function IntToString(n: int): (r: string)
    ensures |r| >= 1
    ensures n >= 0 <==> r[0] != '-'
    ensures forall i :: 0 <= i < |r| ==> IsDigit(r[i]) || (i == 0 && r[i] == '-')
  {
    if n >= 0 then NatToString(n) else "-" + NatToString(-n)
  }

  /** The value of a string of decimal digits. */
  function DigitsValue(s: string): nat
    requires forall i :: 0 <= i < |s| ==> IsDigit(s[i])
  {
    if s == [] then 0 else DigitsValue(s[..|s| - 1]) * 10 + DigitValue(s[|s| - 1])
  }

  /** Rendering a natural number and reading its digits back gives the number. */
  lemma {:induction false} NatToStringRoundTrip(n: nat)
    ensures DigitsValue(NatToString(n)) == n
    decreases n
  {
    if n >= 10 {
      NatToStringRoundTrip(n / 10);
      var r := NatToString(n);
      assert r[..|r| - 1] == NatToString(n / 10);
    }
  }

  // ---------------------------------------------------------------------------
  // `s.replace(pattern, replacement)` with a string pattern

  /** `pat` occurs in `s` starting at index `i`. */
  predicate OccursAt(s: string, pat: string, i: int) {
    0 <= i && i + |pat| <= |s| && s[i..i + |pat|] == pat
  }

  /** `s.indexOf(pat)`: the first index at which `pat` occurs, if any. */
  function IndexOf(s: string, pat: string): (r: Option<nat>)
    ensures r.Some? ==> OccursAt(s, pat, r.value)
    ensures r.Some? ==> forall i :: 0 <= i < r.value ==> !OccursAt(s, pat, i)
    ensures r.None? ==> forall i :: !OccursAt(s, pat, i)
    decreases |s|
  {
    if |s| < |pat| then None
    else if s[..|pat|] == pat then Some(0)
    else
      var rest := IndexOf(s[1..], pat);
      ShiftOccurs(s, pat);
      match rest
      case None => None
      case Some(i) => Some(i + 1)
  }

  lemma ShiftOccurs(s: string, pat: string)
    requires |s| >= 1
    ensures forall i :: i >= 1 ==> (OccursAt(s, pat, i) <==> OccursAt(s[1..], pat, i - 1))
  {
    forall i | i >= 1 ensures OccursAt(s, pat, i) <==> OccursAt(s[1..], pat, i - 1) {
      if i + |pat| <= |s| {
        assert s[1..][i - 1..i - 1 + |pat|] == s[i..i + |pat|];
      }
    }
  }

  /**
    The replacement text of `String.prototype.replace` for a string pattern:
    `$$` is a dollar sign, `$&` the matched text, `` $` `` the text before the
    match and `$'` the text after it; any other `$` is kept literally (a string
    pattern has no capture groups).
   */
  function Substitute(rep: string, matched: string, before: string, after: string): (r: string)
    ensures '$' !in rep ==> r == rep
  {
    if rep == [] then []
    else if rep[0] == '$' && |rep| >= 2 then
      if rep[1] == '$' then "$" + Substitute(rep[2..], matched, before, after)
      else if rep[1] == '&' then matched + Substitute(rep[2..], matched, before, after)
      else if rep[1] == '`' then before + Substitute(rep[2..], matched, before, after)
      else if rep[1] == '\'' then after + Substitute(rep[2..], matched, before, after)
      else "$" + Substitute(rep[1..], matched, before, after)
    else [rep[0]] + Substitute(rep[1..], matched, before, after)
  }

  /** `s.replace(pat, rep)`: only the first occurrence is replaced. */
  function ReplaceFirst(s: string, pat: string, rep: string): string {
    match IndexOf(s, pat)
    case None => s
    case Some(i) => s[..i] + Substitute(rep, pat, s[..i], s[i + |pat|..]) + s[i + |pat|..]
  }

  /**
    Filling a `{param}` placeholder: when the text before the placeholder cannot
    start it and the value has no `$`, the value lands exactly where the
    placeholder was.
   */
  lemma {:induction false} FillPlaceholder(pre: string, pat: string, post: string, v: string)
    requires pat != [] && pat[0] !in pre && '$' !in v
    ensures ReplaceFirst(pre + pat + post, pat, v) == pre + v + post
  {
    var s := pre + pat + post;
    assert OccursAt(s, pat, |pre|);
    forall i | 0 <= i < |pre| ensures !OccursAt(s, pat, i) {
      assert s[i] == pre[i];
      if i + |pat| <= |s| {
        assert s[i..i + |pat|][0] == s[i];
      }
    }
    assert IndexOf(s, pat) == Some(|pre|);
    assert s[..|pre|] == pre;
    assert s[|pre| + |pat|..] == post;
  }
}
