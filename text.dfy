/**
 * The handful of Python string and sequence built-ins the layout code relies on:
 * `str.isspace`, `str.replace` with a one-character pattern, `str.strip`,
 * `str.split()` without arguments, `" ".join`, `str(int)` and prefix slicing `s[:n]`.
 */
module Text {
  import opened Wrappers

  /** Python's `str.isspace` for a single character: the characters `split()` and `strip()` treat as blanks. */
  predicate IsSpace(c: char) {
    c == ' ' || ('\t' <= c <= '\r') || ('\U{1c}' <= c <= '\U{1f}') || c == '\U{85}' || c == '\U{a0}'
    || c == '\U{1680}' || ('\U{2000}' <= c <= '\U{200a}') || c == '\U{2028}' || c == '\U{2029}'
    || c == '\U{202f}' || c == '\U{205f}' || c == '\U{3000}'
  }

  predicate AllSpace(s: string) {
    forall i :: 0 <= i < |s| ==> IsSpace(s[i])
  }

  /** A word as `split()` produces it: non-empty and free of blanks. */
  predicate IsWord(w: string) {
    |w| > 0 && forall i :: 0 <= i < |w| ==> !IsSpace(w[i])
  }

  /** Python's `min` and `max` of two integers. */
  function Min(a: int, b: int): int { if a <= b then a else b }
  function Max(a: int, b: int): int { if a >= b then a else b }

  /** The largest value of a non-empty list: `max(xs)`. */
  function MaxOf(xs: seq<int>): (m: int)
    requires xs != []
    ensures forall i :: 0 <= i < |xs| ==> xs[i] <= m
    ensures exists i :: 0 <= i < |xs| && xs[i] == m
  {
    if |xs| == 1 then xs[0]
    else
      var rest := MaxOf(xs[1..]);
      assert forall i :: 1 <= i < |xs| ==> xs[i] == xs[1..][i - 1];
      if xs[0] >= rest then xs[0] else rest
  }

  /** The smallest value of a non-empty list: `min(xs)`. */
  function MinOf(xs: seq<int>): (m: int)
    requires xs != []
    ensures forall i :: 0 <= i < |xs| ==> m <= xs[i]
    ensures exists i :: 0 <= i < |xs| && xs[i] == m
  {
    if |xs| == 1 then xs[0]
    else
      var rest := MinOf(xs[1..]);
      assert forall i :: 1 <= i < |xs| ==> xs[i] == xs[1..][i - 1];
      if xs[0] <= rest then xs[0] else rest
  }

  /** `max((len(s) for s in ss), default=d)`. */
  function MaxLength(ss: seq<string>, d: nat): (m: nat)
    ensures ss == [] ==> m == d
    ensures ss != [] ==> (forall i :: 0 <= i < |ss| ==> |ss[i]| <= m) && exists i :: 0 <= i < |ss| && |ss[i]| == m
  {
    if ss == [] then d
    else if |ss| == 1 then |ss[0]|
    else
      var rest := MaxLength(ss[1..], d);
      assert forall i :: 1 <= i < |ss| ==> ss[i] == ss[1..][i - 1];
      if |ss[0]| >= rest then |ss[0]| else rest
  }

  /** `s or ""` for an optional string. */
  function OrEmpty(s: Option<string>): string {
    s.GetOr("")
  }

  /** `v or 0` for an optional integer (None and 0 both give 0). */
  function OrZero(v: Option<int>): int {
    v.GetOr(0)
  }

  /** Python's `s.replace(c, rep)` for a one-character pattern `c`. */
  function ReplaceAll(s: string, c: char, rep: string): (r: string)
    ensures c !in s ==> r == s
  {
    if s == [] then []
    else (if s[0] == c then rep else [s[0]]) + ReplaceAll(s[1..], c, rep)
  }

  lemma {:induction false} ReplaceAllConcat(a: string, b: string, c: char, rep: string)
    ensures ReplaceAll(a + b, c, rep) == ReplaceAll(a, c, rep) + ReplaceAll(b, c, rep)
  {
    if a == [] {
      assert a + b == b;
    } else {
      assert (a + b)[1..] == a[1..] + b;
      ReplaceAllConcat(a[1..], b, c, rep);
    }
  }

  /** Replacing a character by another keeps the length, changes exactly the occurrences of the
      character, and so removes it. */
  lemma {:induction false} ReplaceAllChar(s: string, c: char, d: char)
    requires c != d
    ensures |ReplaceAll(s, c, [d])| == |s| && c !in ReplaceAll(s, c, [d])
    ensures forall i :: 0 <= i < |s| ==> ReplaceAll(s, c, [d])[i] == if s[i] == c then d else s[i]
  {
    if s != [] {
      ReplaceAllChar(s[1..], c, d);
      var r, rest := ReplaceAll(s, c, [d]), ReplaceAll(s[1..], c, [d]);
      forall i | 1 <= i < |s| ensures r[i] == if s[i] == c then d else s[i] {
        assert r[i] == rest[i - 1] && s[i] == s[1..][i - 1];
      }
    }
  }

  /** `s.lstrip()`: the suffix of `s` after its leading blanks. */
  function DropLeading(s: string): (r: string)
    ensures |r| <= |s| && r == s[|s| - |r|..]
    ensures forall i :: 0 <= i < |s| - |r| ==> IsSpace(s[i])
    ensures r != [] ==> !IsSpace(r[0])
  {
    if s != [] && IsSpace(s[0]) then DropLeading(s[1..]) else s
  }

  /** `s.rstrip()`: the prefix of `s` before its trailing blanks. */
  function DropTrailing(s: string): (r: string)
    ensures |r| <= |s| && r == s[..|r|]
    ensures forall i :: |r| <= i < |s| ==> IsSpace(s[i])
    ensures r != [] ==> !IsSpace(r[|r| - 1])
  {
    if s != [] && IsSpace(s[|s| - 1]) then DropTrailing(s[..|s| - 1]) else s
  }

  /** `s.strip()`. */
  function Strip(s: string): (r: string)
    ensures r == [] <==> AllSpace(s)
    ensures r != [] ==> !IsSpace(r[0]) && !IsSpace(r[|r| - 1])
  {
    var t := DropLeading(s);
    assert t != [] ==> !AllSpace(s) by {
      if t != [] { assert s[|s| - |t|] == t[0]; }
    }
    var r := DropTrailing(t);
    assert t != [] ==> r != [] by {
      if t != [] { assert !IsSpace(t[0]); }
    }
    r
  }

  /** The length of the run of non-blank characters that starts `s`. */
  function WordLength(s: string): (n: nat)
    ensures n <= |s|
    ensures forall i :: 0 <= i < n ==> !IsSpace(s[i])
    ensures n < |s| ==> IsSpace(s[n])
  {
    if s == [] || IsSpace(s[0]) then 0 else 1 + WordLength(s[1..])
  }

  /** Python's `s.split()`: the maximal runs of non-blank characters, in order. */
  function Split(s: string): (ws: seq<string>)
    ensures forall i :: 0 <= i < |ws| ==> IsWord(ws[i])
    ensures ws == [] <==> AllSpace(s)
    decreases |s|
  {
    var t := DropLeading(s);
    if t == [] then []
    else
      var n := FirstWord(s, t);
      SplitCons(t[..n], Split(t[n..]))
  }

  /** The length of the first word of `s`, whose blanks-stripped suffix is `t`. */
  function FirstWord(s: string, t: string): (n: nat)
    requires t == DropLeading(s) && t != []
    ensures 1 <= n <= |t| && IsWord(t[..n]) && !AllSpace(s)
  {
    assert s[|s| - |t|] == t[0];
    WordLength(t)
  }

  function SplitCons(w: string, rest: seq<string>): (ws: seq<string>)
    requires IsWord(w) && forall i :: 0 <= i < |rest| ==> IsWord(rest[i])
    ensures ws == [w] + rest && ws != []
    ensures forall i :: 0 <= i < |ws| ==> IsWord(ws[i])
  {
    [w] + rest
  }

  /** A non-empty string without blanks at either end, as `strip()` leaves it. */
  predicate Trimmed(s: string) {
    s != [] && !IsSpace(s[0]) && !IsSpace(s[|s| - 1])
  }

  /** `strip()` leaves a trimmed string alone. */
  lemma StripClean(s: string)
    requires Trimmed(s)
    ensures Strip(s) == s
  {
  }

  /** `(cur + " " + w).strip()` appends the word `w` to a trimmed or empty `cur`. */
  lemma StripAppendWord(cur: string, w: string)
    requires (cur == [] || Trimmed(cur)) && IsWord(w)
    ensures Strip(cur + " " + w) == if cur == [] then w else cur + " " + w
  {
    if cur == [] {
      assert cur + " " + w == " " + w;
      assert (" " + w)[1..] == w;
      StripClean(w);
    } else {
      var t := cur + " " + w;
      assert t[0] == cur[0] && t[|t| - 1] == w[|w| - 1];
      StripClean(t);
    }
  }

  /** `split()` of a single word is that word. */
  lemma SplitWord(w: string)
    requires IsWord(w)
    ensures Split(w) == [w]
  {
    assert DropLeading(w) == w;
    WordLengthAll(w);
    assert w[..|w|] == w;
    assert w[|w|..] == [];
    assert Split([]) == [];
  }

  /** `split()` of two words separated by one blank gives the two words. */
  lemma SplitTwoWords(a: string, b: string)
    requires IsWord(a) && IsWord(b)
    ensures Split(a + " " + b) == [a, b]
  {
    var u := " " + b;
    assert a + " " + b == a + u && IsSpace(u[0]);
    SplitWordThenBlank(a, u);
    SplitBlankWord(b);
  }

  /** `split()` of a word followed by blank-led text is the word, then the split of the text. */
  lemma SplitWordThenBlank(a: string, u: string)
    requires IsWord(a) && u != [] && IsSpace(u[0])
    ensures Split(a + u) == [a] + Split(u)
  {
    var s := a + u;
    assert s[0] == a[0];
    assert DropLeading(s) == s;
    WordThenBlank(a, u);
    assert s[..|a|] == a && s[|a|..] == u;
  }

  lemma WordThenBlank(a: string, rest: string)
    requires IsWord(a) && rest != [] && IsSpace(rest[0])
    ensures WordLength(a + rest) == |a|
  {
    var s := a + rest;
    var n := WordLength(s);
    assert s[|a|] == rest[0];
  }

  lemma SplitBlankWord(b: string)
    requires IsWord(b)
    ensures Split(" " + b) == [b]
  {
    var u := " " + b;
    assert u[1..] == b;
    assert DropLeading(b) == b by { assert !IsSpace(b[0]); }
    assert DropLeading(u) == b;
    WordLengthAll(b);
    assert b[..|b|] == b && b[|b|..] == [];
    assert Split([]) == [];
  }

  lemma {:induction false} WordLengthAll(w: string)
    requires forall i :: 0 <= i < |w| ==> !IsSpace(w[i])
    ensures WordLength(w) == |w|
  {
    if w != [] {
      WordLengthAll(w[1..]);
    }
  }

  /** Python's `" ".join(ws)`. */
  function Join(ws: seq<string>): (r: string)
    ensures |ws| == 1 ==> r == ws[0]
  {
    if |ws| == 0 then ""
    else if |ws| == 1 then ws[0]
    else Join(ws[..|ws| - 1]) + " " + ws[|ws| - 1]
  }

  /** Joined words form a non-empty string whose ends are not blank. */
  lemma {:induction false} JoinWords(ws: seq<string>)
    requires ws != [] && forall i :: 0 <= i < |ws| ==> IsWord(ws[i])
    ensures Trimmed(Join(ws))
    ensures |Join(ws)| >= |ws[|ws| - 1]|
  {
    if |ws| > 1 {
      var p := ws[..|ws| - 1];
      JoinWords(p);
      var w := ws[|ws| - 1];
      assert Join(ws) == Join(p) + " " + w;
      assert Join(ws)[0] == Join(p)[0];
    }
  }

  /** Joining splits at any inner position: `" ".join(a + b) == " ".join(a) + " " + " ".join(b)`. */
  lemma {:induction false} JoinSplitAt(ws: seq<string>, a: int)
    requires 0 < a < |ws|
    ensures Join(ws) == Join(ws[..a]) + " " + Join(ws[a..])
  {
    var n := |ws|;
    if a == n - 1 {
      assert ws[a..] == [ws[n - 1]];
      assert ws[..n - 1] == ws[..a];
    } else {
      var p := ws[..n - 1];
      JoinSplitAt(p, a);
      assert p[..a] == ws[..a];
      assert p[a..] == ws[a..n - 1];
      var b := ws[a..];
      var c, d := b[..|b| - 1], ws[a..n - 1];
      assert c == d by {
        forall k | 0 <= k < |c| ensures c[k] == d[k] {
          assert c[k] == ws[a + k];
        }
      }
      assert b[|b| - 1] == ws[n - 1];
    }
  }

  predicate IsDigit(c: char) {
    '0' <= c <= '9'
  }

  /** The value of one decimal digit character. */
  function DigitValue(c: char): int {
    c as int - '0' as int
  }

  function DigitChar(d: nat): (c: char)
    requires d < 10
    ensures IsDigit(c) && DigitValue(c) == d
  {
    ('0' as int + d) as char
  }

  /** The number a string of decimal digits denotes, most significant digit first. */
  function DigitsValue(s: string): int {
    if s == [] then 0 else 10 * DigitsValue(s[..|s| - 1]) + DigitValue(s[|s| - 1])
  }

  /** The number a decimal string with an optional leading minus sign denotes. */
  function DecimalValue(s: string): int {
    if s != [] && s[0] == '-' then -DigitsValue(s[1..]) else DigitsValue(s)
  }

  /** The decimal digits of a natural number, most significant first, without leading zeros. */
  function Digits(n: nat): (r: string)
    ensures |r| >= 1 && forall i :: 0 <= i < |r| ==> IsDigit(r[i])
    ensures DigitsValue(r) == n
    ensures |r| > 1 ==> r[0] != '0'
  {
    if n < 10 then [DigitChar(n)]
    else
      var r := Digits(n / 10) + [DigitChar(n % 10)];
      assert r[..|r| - 1] == Digits(n / 10);
      r
  }

  /** Python's `str(n)` for an integer: a minus sign exactly for negative numbers, then the
      digits of the magnitude without leading zeros; the string denotes `n`. */
  function DecimalString(n: int): (r: string)
    ensures |r| >= 1
    ensures forall i :: 0 <= i < |r| ==> IsDigit(r[i]) || r[i] == '-'
    ensures r[0] == '-' <==> n < 0
    ensures forall i :: 1 <= i < |r| ==> IsDigit(r[i])
    ensures DecimalValue(r) == n
    ensures var d := if n < 0 then r[1..] else r; |d| >= 1 && (|d| > 1 ==> d[0] != '0')
  {
    if n < 0 then
      var r := "-" + Digits(-n);
      assert r[1..] == Digits(-n);
      r
    else Digits(n)
  }

  /** Python's prefix slice `s[:n]`, including the negative `n` that counts from the end. */
  function PyPrefix<T>(s: seq<T>, n: int): (r: seq<T>)
    ensures |r| <= |s| && r == s[..|r|]
    ensures n >= 0 ==> |r| == if n < |s| then n else |s|
    ensures n < 0 ==> |r| == if |s| + n > 0 then |s| + n else 0
  {
    if n >= 0 then (if n < |s| then s[..n] else s)
    else (if |s| + n > 0 then s[..|s| + n] else [])
  }
}
