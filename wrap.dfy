/**
 * The two-line description wrap of the repository table.  The description is stripped and
 * split into words; a greedy pass fills `cur` word by word, moves it to `line1` on the first
 * overflow and builds `line2` (then stops) on the second; leftovers are placed afterwards and
 * each line is cut to the limit with a trailing ellipsis.
 *
 * As written, `cur` is never cleared when the leftovers become `line1`, so a description that
 * fits on one line is shown on both lines.  `DescLines` models that code; `DescLinesFixed`
 * is the wrap with the leftovers used once.
 */
module DescriptionWrap {
  import opened Wrappers
  import opened Text

  /** The loop variables `line1`, `line2` and `cur`, and whether the loop has hit its `break`. */
  datatype WrapState = WrapState(line1: string, line2: string, cur: string, stopped: bool)

  const Start := WrapState("", "", "", false)

  /** `trunc(s, n)`: a string longer than `n` keeps its first `n - 1` characters and gets `…`. */
  function Trunc(s: string, n: int): (r: string)
    ensures |s| <= n ==> r == s
    ensures |s| > n && n >= 1 ==> |r| == n && r[..n - 1] == s[..n - 1] && r[n - 1] == '\U{2026}'
    ensures s != [] ==> r != []
  {
    if |s| > n then PyPrefix(s, n - 1) + "\U{2026}" else s
  }

  /** One pass of the word loop: append the word if it fits, otherwise close `line1`, or build
      `line2` and stop. */
  function Step(st: WrapState, w: string, limit: int): WrapState {
    if |st.cur| + |w| + 1 <= limit then st.(cur := Strip(st.cur + " " + w))
    else if st.line1 == "" then st.(line1 := if st.cur != "" then st.cur else w, cur := w)
    else st.(line2 := if st.cur != "" then st.cur + " " + w else w, cur := "", stopped := true)
  }

  /** The loop over the words, up to its `break`. */
  function Run(ws: seq<string>, limit: int): WrapState {
    if ws == [] then Start
    else
      var st := Run(ws[..|ws| - 1], limit);
      if st.stopped then st else Step(st, ws[|ws| - 1], limit)
  }

  /** The non-empty ones of two lines, in order. */
  function Shown(l1: string, l2: string): seq<string> {
    (if l1 != "" then [l1] else []) + (if l2 != "" then [l2] else [])
  }

  /** The truncated non-empty lines: `[line1] if line1 else []`, then `line2` if non-empty. */
  function Emit(l1: string, l2: string, limit: int): (r: seq<string>)
    ensures |r| <= 2
    ensures limit >= 0 ==> |r| == |Shown(l1, l2)| && forall i :: 0 <= i < |r| ==> r[i] == Trunc(Shown(l1, l2)[i], limit)
    ensures limit >= 1 ==> forall i :: 0 <= i < |r| ==> 0 < |r[i]| <= limit
  {
    var t1, t2 := Trunc(l1, limit), Trunc(l2, limit);
    (if t1 != "" then [t1] else []) + (if t2 != "" then [t2] else [])
  }

  /** The code after the loop as written: leftovers fill an empty `line1`, and then, still
      uncleared, an empty `line2` as well when both fit in twice the limit. */
  function Finish(st: WrapState, limit: int): seq<string> {
    var l1 := if st.line1 == "" && st.cur != "" then st.cur else st.line1;
    var l2 := if st.line2 == "" && st.cur != "" && |l1| + |st.cur| <= 2 * limit then st.cur else st.line2;
    Emit(l1, l2, limit)
  }

  /** The description lines of one table row, as the source computes them. */
  function DescLines(desc: Option<string>, limit: int): (r: seq<string>)
    ensures |r| <= 2
    ensures limit >= 1 ==> forall i :: 0 <= i < |r| ==> 0 < |r[i]| <= limit
    ensures r == [] <==> AllSpace(OrEmpty(desc))
  {
    var d := Strip(OrEmpty(desc));
    if d == [] then []
    else
      var ws := Split(d);
      RunNotEmpty(ws, limit);
      Finish(Run(ws, limit), limit)
  }

  /** After at least one word, some text is held in `line1` or `cur`. */
  lemma {:induction false} RunNotEmpty(ws: seq<string>, limit: int)
    requires ws != [] && forall i :: 0 <= i < |ws| ==> IsWord(ws[i])
    ensures Run(ws, limit).line1 != "" || Run(ws, limit).cur != ""
  {
    var p, w := ws[..|ws| - 1], ws[|ws| - 1];
    var st := Run(p, limit);
    if p != [] {
      RunNotEmpty(p, limit);
    }
    if !st.stopped && |st.cur| + |w| + 1 <= limit {
      var t := st.cur + " " + w;
      assert !IsSpace(t[|t| - 1]);
    }
  }

  /** The description lines of one table row: strip, split, the word loop, then the leftovers. */
  method WrapDescription(desc: Option<string>, limit: int) returns (lines: seq<string>)
    ensures lines == DescLines(desc, limit)
  {
    var d := Strip(OrEmpty(desc));
    if d == [] {
      return [];
    }
    var words := Split(d);
    var line1, line2, cur := WrapWords(words, limit);
    lines := Finish(WrapState(line1, line2, cur, false), limit);
  }

  /** The word loop; its `break` after the second overflow ends the method. */
  method WrapWords(words: seq<string>, limit: int) returns (line1: string, line2: string, cur: string)
    ensures Run(words, limit) == WrapState(line1, line2, cur, Run(words, limit).stopped)
  {
    line1, line2, cur := "", "", "";
    var i := 0;
    while i < |words|
      invariant 0 <= i <= |words|
      invariant Run(words[..i], limit) == WrapState(line1, line2, cur, false)
    {
      var w := words[i];
      RunSnoc(words, i, limit);
      ghost var st := WrapState(line1, line2, cur, false);
      if |cur| + |w| + 1 <= limit {
        cur := Strip(cur + " " + w);
        assert Step(st, w, limit) == WrapState(line1, line2, cur, false);
      } else if line1 == "" {
        line1 := if cur != "" then cur else w;
        cur := w;
        assert Step(st, w, limit) == WrapState(line1, line2, cur, false);
      } else {
        line2 := if cur != "" then cur + " " + w else w;
        cur := "";
        assert Step(st, w, limit) == WrapState(line1, line2, cur, true);
        RunStopped(words, i + 1, limit);
        return;
      }
      i := i + 1;
      assert Run(words[..i], limit) == WrapState(line1, line2, cur, false);
    }
    assert words[..i] == words;
  }

  lemma RunSnoc(ws: seq<string>, i: int, limit: int)
    requires 0 <= i < |ws| && !Run(ws[..i], limit).stopped
    ensures Run(ws[..i + 1], limit) == Step(Run(ws[..i], limit), ws[i], limit)
  {
    assert ws[..i + 1][..i] == ws[..i];
  }

  /** Once the loop has stopped, later words change nothing. */
  lemma {:induction false} RunStopped(ws: seq<string>, k: int, limit: int)
    requires 0 <= k <= |ws| && Run(ws[..k], limit).stopped
    ensures Run(ws, limit) == Run(ws[..k], limit)
    decreases |ws|
  {
    if k < |ws| {
      var p := ws[..|ws| - 1];
      assert p[..k] == ws[..k];
      RunStopped(p, k, limit);
    } else {
      assert ws[..k] == ws;
    }
  }

  /** Words after the second overflow are dropped: appending more words after the loop has
      stopped does not change its outcome. */
  lemma WordsAfterStopDropped(ws: seq<string>, extra: seq<string>, limit: int)
    requires Run(ws, limit).stopped
    ensures Run(ws + extra, limit) == Run(ws, limit)
  {
    assert (ws + extra)[..|ws|] == ws;
    RunStopped(ws + extra, |ws|, limit);
  }

  /** Appending a word that fits: both loop variants extend `cur` by it. */
  lemma StepAppends(st: WrapState, w: string, limit: int)
    requires (st.cur == [] || Trimmed(st.cur)) && IsWord(w) && |st.cur| + |w| + 1 <= limit
    ensures Step(st, w, limit) == st.(cur := if st.cur == [] then w else st.cur + " " + w)
    ensures StepFixed(st, w, limit) == Step(st, w, limit)
  {
    StripAppendWord(st.cur, w);
  }

  /** While every word fits, `cur` holds exactly the words joined by single blanks (or, when
      the only word fills the limit exactly, `line1` and `cur` both hold it). */
  lemma {:induction false} RunWhileFits(ws: seq<string>, limit: int)
    requires ws != [] && forall i :: 0 <= i < |ws| ==> IsWord(ws[i])
    requires |Join(ws)| <= limit
    ensures Run(ws, limit) == WrapState("", "", Join(ws), false)
         || (|ws| == 1 && |ws[0]| == limit && Run(ws, limit) == WrapState(ws[0], "", ws[0], false))
  {
    var p, w := ws[..|ws| - 1], ws[|ws| - 1];
    if p == [] {
      assert ws == [w];
      if |w| + 1 <= limit {
        StepAppends(Start, w, limit);
      }
    } else {
      JoinWords(p);
      assert Join(ws) == Join(p) + " " + w;
      RunWhileFits(p, limit);
      StepAppends(Run(p, limit), w, limit);
    }
  }

  /** The duplication: a description whose words fit on one line is shown on both lines. */
  lemma OneLineShownTwice(desc: Option<string>, limit: int)
    requires limit >= 1
    requires !AllSpace(OrEmpty(desc)) && |Join(Split(Strip(OrEmpty(desc))))| <= limit
    ensures var j := Join(Split(Strip(OrEmpty(desc))));
            DescLines(desc, limit) == [j, j]
  {
    var ws := Split(Strip(OrEmpty(desc)));
    assert DescLines(desc, limit) == Finish(Run(ws, limit), limit);
    RunWhileFits(ws, limit);
    JoinWords(ws);
    FinishShowsTwice(Run(ws, limit), Join(ws), limit);
  }

  lemma FinishShowsTwice(st: WrapState, j: string, limit: int)
    requires limit >= 1 && j != [] && |j| <= limit
    requires st == WrapState("", "", j, false) || st == WrapState(j, "", j, false)
    ensures Finish(st, limit) == [j, j]
  {
    assert Finish(st, limit) == Emit(j, j, limit);
    assert Shown(j, j) == [j, j];
  }

  /** A concrete description that shows the duplication: the single word `tool`. */
  lemma ShortDescriptionDuplicated()
    ensures DescLines(Some("tool"), 60) == ["tool", "tool"]
  {
    ToolIsOneWord();
    OneLineShownTwice(Some("tool"), 60);
  }

  lemma ToolIsOneWord()
    ensures IsWord("tool") && !AllSpace("tool") && Split(Strip("tool")) == ["tool"] && Join(["tool"]) == "tool"
  {
    assert !IsSpace("tool"[0]);
    StripClean("tool");
    SplitWord("tool");
  }

  /** The second case of the duplication: a first word at least as long as the limit becomes
      `line1` and also stays in `cur`, so it starts `line2` as well. */
  lemma LongFirstWordShownTwice(a: string, b: string, limit: int)
    requires IsWord(a) && IsWord(b) && 1 <= limit <= |a|
    ensures DescLines(Some(a + " " + b), limit) == [Trunc(a, limit), Trunc(a + " " + b, limit)]
  {
    var d := a + " " + b;
    TwoWordDescription(a, b);
    RunLongFirst(a, b, limit);
    DescLinesOfWords(d, [a, b], limit);
    FinishStopped(a, d, limit);
  }

  /** A description that strips to the non-blank text `d` wraps the words of `d`. */
  lemma DescLinesOfWords(d: string, ws: seq<string>, limit: int)
    requires d != [] && Strip(OrEmpty(Some(d))) == d && Split(d) == ws
    ensures DescLines(Some(d), limit) == Finish(Run(ws, limit), limit)
  {
  }

  /** A stopped loop with both lines filled shows both, each truncated. */
  lemma FinishStopped(l1: string, l2: string, limit: int)
    requires l1 != "" && l2 != ""
    ensures Finish(WrapState(l1, l2, "", true), limit) == [Trunc(l1, limit), Trunc(l2, limit)]
  {
    EmitBoth(l1, l2, limit);
  }

  /** The text of `a b` strips to itself and splits into its two words. */
  lemma TwoWordDescription(a: string, b: string)
    requires IsWord(a) && IsWord(b)
    ensures Strip(OrEmpty(Some(a + " " + b))) == a + " " + b
    ensures Split(a + " " + b) == [a, b]
  {
    var d := a + " " + b;
    assert d[0] == a[0] && d[|d| - 1] == b[|b| - 1];
    StripClean(d);
    SplitTwoWords(a, b);
  }

  /** The loop over two words whose first alone reaches the limit. */
  lemma RunLongFirst(a: string, b: string, limit: int)
    requires |a| >= limit >= 1
    ensures Run([a, b], limit) == WrapState(a, a + " " + b, "", true)
  {
    var ws := [a, b];
    assert ws[..1] == [a] && ws[..1][..0] == [];
    StepOverflows(Start, a, limit);
    assert Run([a], limit) == WrapState(a, "", a, false);
    StepOverflows(WrapState(a, "", a, false), b, limit);
  }

  /** A word that does not fit after `cur` opens `line1` when it is empty, and otherwise closes `line2`. */
  lemma StepOverflows(st: WrapState, w: string, limit: int)
    requires |st.cur| + |w| + 1 > limit
    ensures st.line1 == "" ==> Step(st, w, limit) == st.(line1 := if st.cur != "" then st.cur else w, cur := w)
    ensures st.line1 != "" ==> Step(st, w, limit) == st.(line2 := if st.cur != "" then st.cur + " " + w else w, cur := "", stopped := true)
  {
  }

  /** Concretely: `abcd x` at limit 3 shows `abcd` cut short on both lines. */
  lemma LongFirstWordDuplicated()
    ensures DescLines(Some("abcd x"), 3) == ["ab\U{2026}", "ab\U{2026}"]
  {
    AbcdX();
    LongFirstWordShownTwice("abcd", "x", 3);
  }

  /** The words and cut-short forms of the text `abcd x` at limit 3. */
  lemma AbcdX()
    ensures IsWord("abcd") && IsWord("x") && "abcd x" == "abcd" + " " + "x"
    ensures Trunc("abcd", 3) == "ab\U{2026}" && Trunc("abcd x", 3) == "ab\U{2026}"
  {
    assert "abcd"[..2] == "ab" && "abcd x"[..2] == "ab";
  }

  /** The corrected loop step: a first word that alone overflows goes to `line1` only. */
  function StepFixed(st: WrapState, w: string, limit: int): WrapState {
    if |st.cur| + |w| + 1 <= limit then st.(cur := Strip(st.cur + " " + w))
    else if st.line1 == "" then st.(line1 := if st.cur != "" then st.cur else w, cur := if st.cur != "" then w else "")
    else st.(line2 := if st.cur != "" then st.cur + " " + w else w, cur := "", stopped := true)
  }

  function RunFixed(ws: seq<string>, limit: int): WrapState {
    if ws == [] then Start
    else
      var st := RunFixed(ws[..|ws| - 1], limit);
      if st.stopped then st else StepFixed(st, ws[|ws| - 1], limit)
  }

  /** The corrected code after the loop, before truncation: leftovers that become `line1` are
      used up, otherwise they go to an empty `line2` when both fit in twice the limit. */
  function FixedTexts(st: WrapState, limit: int): (string, string) {
    var used := st.line1 == "" && st.cur != "";
    var l1 := if used then st.cur else st.line1;
    var rest := if used then "" else st.cur;
    var l2 := if st.line2 == "" && rest != "" && |l1| + |rest| <= 2 * limit then rest else st.line2;
    (l1, l2)
  }

  /** The wrap with every word shown at most once. */
  function DescLinesFixed(desc: Option<string>, limit: int): (r: seq<string>)
    ensures |r| <= 2
    ensures limit >= 1 ==> forall i :: 0 <= i < |r| ==> 0 < |r[i]| <= limit
  {
    var d := Strip(OrEmpty(desc));
    if d == [] then []
    else
      var (l1, l2) := FixedTexts(RunFixed(Split(d), limit), limit);
      Emit(l1, l2, limit)
  }

  /** What the corrected loop holds after the words `ws`: `line1` is the first `a` words, and
      the words after them are in `cur` or, once stopped, the words up to `b` are in `line2`. */
  ghost predicate HoldsWords(ws: seq<string>, st: WrapState, a: int, b: int) {
    && 0 <= a <= b <= |ws|
    && st.line1 == Join(ws[..a])
    && (if st.stopped then 0 < a < b && st.line2 == Join(ws[a..b]) && st.cur == ""
        else b == |ws| && st.line2 == "" && st.cur == Join(ws[a..]))
  }

  lemma {:induction false} RunFixedHoldsWords(ws: seq<string>, limit: int) returns (a: int, b: int)
    requires forall i :: 0 <= i < |ws| ==> IsWord(ws[i])
    ensures HoldsWords(ws, RunFixed(ws, limit), a, b)
  {
    if ws == [] {
      a, b := 0, 0;
    } else {
      var p, w := ws[..|ws| - 1], ws[|ws| - 1];
      var a0, b0 := RunFixedHoldsWords(p, limit);
      var st := RunFixed(p, limit);
      assert ws[..a0] == p[..a0];
      if st.stopped {
        a, b := a0, b0;
        assert ws[a..b] == p[a..b];
      } else {
        a, b := StepFixedHoldsWords(ws, st, a0, limit);
      }
    }
  }

  lemma StepFixedHoldsWords(ws: seq<string>, st: WrapState, a0: int, limit: int) returns (a: int, b: int)
    requires ws != [] && forall i :: 0 <= i < |ws| ==> IsWord(ws[i])
    requires !st.stopped && HoldsWords(ws[..|ws| - 1], st, a0, |ws| - 1)
    ensures HoldsWords(ws, StepFixed(st, ws[|ws| - 1], limit), a, b)
  {
    var n, w := |ws|, ws[|ws| - 1];
    HeldWords(ws, st, a0);
    if |st.cur| + |w| + 1 <= limit {
      StepAppends(st, w, limit);
      a, b := a0, n;
    } else if st.line1 == "" {
      if st.cur != "" {
        a, b := n - 1, n;
        assert ws[a..] == [w];
      } else {
        a, b := n, n;
        assert ws[..n] == [w];
      }
    } else {
      a, b := a0, n;
      assert ws[a..b] == ws[a0..];
    }
  }

  /** The held words of a running state, seen from the list with one more word `w`. */
  lemma HeldWords(ws: seq<string>, st: WrapState, a0: int)
    requires ws != [] && forall i :: 0 <= i < |ws| ==> IsWord(ws[i])
    requires !st.stopped && HoldsWords(ws[..|ws| - 1], st, a0, |ws| - 1)
    ensures 0 <= a0 < |ws|
    ensures st.line1 == Join(ws[..a0]) && (st.line1 == "" <==> a0 == 0)
    ensures st.line1 == "" && st.cur != "" ==> st.cur == Join(ws[..|ws| - 1])
    ensures st.cur == "" <==> a0 == |ws| - 1
    ensures st.cur == [] || Trimmed(st.cur)
    ensures Join(ws[a0..]) == if st.cur == "" then ws[|ws| - 1] else st.cur + " " + ws[|ws| - 1]
  {
    HeldLine(ws, st, a0);
    HeldCur(ws, st, a0);
  }

  /** `line1` holds the words before `a0`. */
  lemma HeldLine(ws: seq<string>, st: WrapState, a0: int)
    requires ws != [] && forall i :: 0 <= i < |ws| ==> IsWord(ws[i])
    requires !st.stopped && HoldsWords(ws[..|ws| - 1], st, a0, |ws| - 1)
    ensures 0 <= a0 < |ws|
    ensures st.line1 == Join(ws[..a0]) && (st.line1 == "" <==> a0 == 0)
  {
    assert ws[..a0] == ws[..|ws| - 1][..a0];
    if a0 > 0 {
      JoinWords(ws[..a0]);
    }
  }

  /** `cur` holds the words from `a0` up to the new one. */
  lemma HeldCur(ws: seq<string>, st: WrapState, a0: int)
    requires ws != [] && forall i :: 0 <= i < |ws| ==> IsWord(ws[i])
    requires !st.stopped && HoldsWords(ws[..|ws| - 1], st, a0, |ws| - 1)
    ensures st.line1 == "" && st.cur != "" ==> st.cur == Join(ws[..|ws| - 1])
    ensures st.cur == "" <==> a0 == |ws| - 1
    ensures st.cur == [] || Trimmed(st.cur)
    ensures Join(ws[a0..]) == if st.cur == "" then ws[|ws| - 1] else st.cur + " " + ws[|ws| - 1]
  {
    var n := |ws|;
    var p := ws[..n - 1];
    assert p[a0..] == ws[a0..n - 1];
    if a0 < n - 1 {
      JoinWords(ws[a0..n - 1]);
    }
    if a0 == 0 {
      HeldLine(ws, st, a0);
      assert p[a0..] == p;
    }
    JoinLast(ws, a0);
  }

  /** `" ".join(ws[a:])` adds the last word to `" ".join(ws[a:-1])`. */
  lemma JoinLast(ws: seq<string>, a: int)
    requires 0 <= a < |ws|
    ensures Join(ws[a..]) == if a == |ws| - 1 then ws[a] else Join(ws[a..|ws| - 1]) + " " + ws[|ws| - 1]
  {
    var t := ws[a..];
    if a < |ws| - 1 {
      assert t[..|t| - 1] == ws[a..|ws| - 1];
    } else {
      assert t == [ws[a]];
    }
  }

  /** The corrected wrap shows a prefix of the words, in order, each once: joined with blanks,
      its lines (before truncation) are the first `b` words. */
  lemma FixedShowsWordsOnce(desc: Option<string>, limit: int) returns (b: int)
    requires !AllSpace(OrEmpty(desc))
    ensures var ws := Split(Strip(OrEmpty(desc)));
            var (l1, l2) := FixedTexts(RunFixed(ws, limit), limit);
            1 <= b <= |ws| && Join(Shown(l1, l2)) == Join(ws[..b])
  {
    var ws := Split(Strip(OrEmpty(desc)));
    var a, b0 := RunFixedHoldsWords(ws, limit);
    b := HeldWordsShown(ws, RunFixed(ws, limit), a, b0, limit);
  }

  /** From what the corrected loop holds to what its finishing code shows. */
  lemma HeldWordsShown(ws: seq<string>, st: WrapState, a: int, b0: int, limit: int) returns (b: int)
    requires ws != [] && forall i :: 0 <= i < |ws| ==> IsWord(ws[i])
    requires HoldsWords(ws, st, a, b0)
    ensures var (l1, l2) := FixedTexts(st, limit);
            1 <= b <= |ws| && Join(Shown(l1, l2)) == Join(ws[..b])
  {
    var (l1, l2) := FixedTexts(st, limit);
    if a > 0 {
      JoinWords(ws[..a]);
    }
    if !st.stopped && a == 0 {
      assert ws[a..] == ws[..|ws|];
      JoinWords(ws);
      assert Shown(l1, l2) == [l1];
      b := |ws|;
    } else if l2 == "" {
      assert Shown(l1, l2) == [l1];
      b := a;
    } else {
      b := b0;
      assert 0 < a < b && l1 == Join(ws[..a]) && l2 == Join(ws[a..b]);
      assert Shown(l1, l2) == [l1, l2];
      JoinTwo(l1, l2);
      var t := ws[..b];
      JoinSplitAt(t, a);
      assert t[..a] == ws[..a] && t[a..] == ws[a..b];
    }
  }

  lemma JoinTwo(x: string, y: string)
    ensures Join([x, y]) == x + " " + y
  {
    assert [x, y][..1] == [x];
  }

  /** While every word fits, the corrected loop also keeps all of them in `cur`, or, when the
      only word fills the limit exactly, in `line1` alone. */
  lemma {:induction false} RunFixedWhileFits(ws: seq<string>, limit: int)
    requires ws != [] && forall i :: 0 <= i < |ws| ==> IsWord(ws[i])
    requires |Join(ws)| <= limit
    ensures RunFixed(ws, limit) == WrapState("", "", Join(ws), false)
         || (|ws| == 1 && |ws[0]| == limit && RunFixed(ws, limit) == WrapState(ws[0], "", "", false))
  {
    var p, w := ws[..|ws| - 1], ws[|ws| - 1];
    if p == [] {
      assert ws == [w];
      if |w| + 1 <= limit {
        StepAppends(Start, w, limit);
      }
    } else {
      JoinWords(p);
      assert Join(ws) == Join(p) + " " + w;
      RunFixedWhileFits(p, limit);
      StepAppends(RunFixed(p, limit), w, limit);
    }
  }

  /** Corrected, a description whose words fit on one line is shown once. */
  lemma OneLineShownOnce(desc: Option<string>, limit: int)
    requires limit >= 1
    requires !AllSpace(OrEmpty(desc)) && |Join(Split(Strip(OrEmpty(desc))))| <= limit
    ensures DescLinesFixed(desc, limit) == [Join(Split(Strip(OrEmpty(desc))))]
  {
    var ws := Split(Strip(OrEmpty(desc)));
    assert DescLinesFixed(desc, limit) == Emit(FixedTexts(RunFixed(ws, limit), limit).0, FixedTexts(RunFixed(ws, limit), limit).1, limit);
    RunFixedWhileFits(ws, limit);
    JoinWords(ws);
    var j := Join(ws);
    assert FixedTexts(RunFixed(ws, limit), limit) == (j, "");
    assert Shown(j, "") == [j];
  }

  /** Corrected, the single word `tool` is shown once. */
  lemma ShortDescriptionOnce()
    ensures DescLinesFixed(Some("tool"), 60) == ["tool"]
  {
    ToolIsOneWord();
    OneLineShownOnce(Some("tool"), 60);
  }

  /** The corrected wrap shows a long first word once, and the next word on the second line
      when the two fit in twice the limit. */
  lemma LongFirstWordShownOnce(a: string, b: string, limit: int)
    requires IsWord(a) && IsWord(b) && 1 <= limit <= |a| && |b| + 1 <= limit && |a| + |b| <= 2 * limit
    ensures DescLinesFixed(Some(a + " " + b), limit) == [Trunc(a, limit), b]
  {
    var d := a + " " + b;
    TwoWordDescription(a, b);
    RunFixedLongFirst(a, b, limit);
    DescLinesFixedOfWords(d, [a, b], limit);
    assert FixedTexts(WrapState(a, "", b, false), limit) == (a, b);
    EmitBoth(a, b, limit);
  }

  /** Corrected, a first word that alone overflows sits in `line1`, and a short next word in `cur`. */
  lemma RunFixedLongFirst(a: string, b: string, limit: int)
    requires IsWord(b) && |a| >= limit >= 1 && |b| + 1 <= limit
    ensures RunFixed([a, b], limit) == WrapState(a, "", b, false)
  {
    var ws := [a, b];
    assert ws[..1] == [a] && ws[..1][..0] == [];
    assert RunFixed([a], limit) == WrapState(a, "", "", false);
    StripAppendWord("", b);
  }

  /** A description that strips to the non-blank text `d` wraps the words of `d`, corrected. */
  lemma DescLinesFixedOfWords(d: string, ws: seq<string>, limit: int)
    requires d != [] && Strip(OrEmpty(Some(d))) == d && Split(d) == ws
    ensures var (l1, l2) := FixedTexts(RunFixed(ws, limit), limit); DescLinesFixed(Some(d), limit) == Emit(l1, l2, limit)
  {
  }

  /** Two non-empty lines are both shown, each truncated. */
  lemma EmitBoth(l1: string, l2: string, limit: int)
    requires l1 != "" && l2 != ""
    ensures Emit(l1, l2, limit) == [Trunc(l1, limit), Trunc(l2, limit)]
  {
  }

  /** Concretely: `abcd x` at limit 3 shows `abcd` cut short, then `x`. */
  lemma LongFirstWordOnce()
    ensures DescLinesFixed(Some("abcd x"), 3) == ["ab\U{2026}", "x"]
  {
    AbcdX();
    LongFirstWordShownOnce("abcd", "x", 3);
  }
}
