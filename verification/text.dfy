/** The JavaScript string operations the expense parser and the dashboard
    filter rely on, restricted to ASCII: `trim`, `toLowerCase`,
    `toUpperCase` on one character, `includes`, `replace` with a string
    pattern and an empty replacement, and `split(/\s+/)`.
    Whitespace (`\s` and the set `trim` removes) is space, tab, line feed,
    vertical tab, form feed and carriage return; case mapping touches only
    the letters A-Z and a-z. */
module Text {
  import opened Wrappers

  predicate IsDigit(c: char) { '0' <= c <= '9' }
  predicate IsUpper(c: char) { 'A' <= c <= 'Z' }
  predicate IsLower(c: char) { 'a' <= c <= 'z' }

  /** Space, or one of the control characters U+0009 to U+000D. */
  predicate IsSpace(c: char) { c == ' ' || '\t' <= c <= '\r' }

  predicate HasDigit(s: string) { exists i :: 0 <= i < |s| && IsDigit(s[i]) }
  predicate AllSpaces(s: string) { forall i :: 0 <= i < |s| ==> IsSpace(s[i]) }
  predicate NoSpace(s: string) { forall i :: 0 <= i < |s| ==> !IsSpace(s[i]) }

  /** `toLowerCase` on one character. */
  function LowerChar(c: char): (r: char)
    ensures !IsUpper(r)
    ensures IsSpace(r) <==> IsSpace(c)
    ensures IsDigit(r) <==> IsDigit(c)
    ensures IsUpper(c) || r == c
  {
    if IsUpper(c) then (c as int + 32) as char else c
  }

  /** Characters that are not upper-case letters are their own lower case. */
  lemma LowerCharFixed(c: char)
    requires IsDigit(LowerChar(c)) || LowerChar(c) == '.'
    ensures LowerChar(c) == c
  {
  }

  /** `toUpperCase` on one character. */
  function UpperChar(c: char): (r: char)
    ensures !IsLower(r)
    ensures IsSpace(r) <==> IsSpace(c)
    ensures LowerChar(r) == LowerChar(c)
  {
    if IsLower(c) then (c as int - 32) as char else c
  }

  /** `toLowerCase` on a string: same length, character by character. */
  function Lower(s: string): (r: string)
    ensures |r| == |s|
    ensures forall i :: 0 <= i < |s| ==> r[i] == LowerChar(s[i])
  {
    seq(|s|, i requires 0 <= i < |s| => LowerChar(s[i]))
  }

  /** Number of whitespace characters at the start of `s`. */
  function LeadingSpaces(s: string): (n: nat)
    ensures n <= |s|
    ensures AllSpaces(s[..n])
    ensures n < |s| ==> !IsSpace(s[n])
  {
    if |s| == 0 || !IsSpace(s[0]) then 0 else 1 + LeadingSpaces(s[1..])
  }

  /** Number of whitespace characters at the end of `s`. */
  function TrailingSpaces(s: string): (n: nat)
    ensures n <= |s|
    ensures AllSpaces(s[|s| - n..])
    ensures n < |s| ==> !IsSpace(s[|s| - 1 - n])
  {
    if |s| == 0 || !IsSpace(s[|s| - 1]) then 0
    else
      var u := s[..|s| - 1];
      var n := TrailingSpaces(u);
      assert AllSpaces(s[|s| - (n + 1)..]) by {
        var t := s[|s| - (n + 1)..];
        forall i | 0 <= i < n + 1 ensures IsSpace(t[i]) {
          if i < n {
            assert t[i] == u[|u| - n..][i];
          }
        }
      }
      n + 1
  }

  predicate IsTrimmed(s: string)
  {
    |s| == 0 || (!IsSpace(s[0]) && !IsSpace(s[|s| - 1]))
  }

  /** Index just past the last non-whitespace character of `s`, and never
      before the first one. */
  function TrimEnd(s: string): (e: nat)
    ensures LeadingSpaces(s) <= e <= |s|
    ensures AllSpaces(s[e..])
    ensures e > LeadingSpaces(s) ==> !IsSpace(s[e - 1])
  {
    var a := LeadingSpaces(s);
    var n := TrailingSpaces(s);
    if a == |s| then |s|
    else
      SpaceRunAfter(s, a, n);
      |s| - n
  }

  /** A non-whitespace character lies before any trailing whitespace run. */
  lemma SpaceRunAfter(s: string, a: nat, n: nat)
    requires a < |s| && !IsSpace(s[a]) && n <= |s| && AllSpaces(s[|s| - n..])
    ensures a < |s| - n
  {
  }

  /** `trim`: the slice of `s` between its leading and its trailing
      whitespace. */
  function Trim(s: string): (r: string)
    ensures IsTrimmed(r)
    ensures |r| <= |s|
  {
    s[LeadingSpaces(s)..TrimEnd(s)]
  }

  /** The characters of `trim(s)` are those of `s` after its leading
      whitespace, in order, and only whitespace follows them. */
  lemma TrimIsSlice(s: string)
    ensures LeadingSpaces(s) + |Trim(s)| <= |s|
    ensures forall i :: 0 <= i < |Trim(s)| ==> Trim(s)[i] == s[LeadingSpaces(s) + i]
    ensures AllSpaces(s[..LeadingSpaces(s)])
    ensures AllSpaces(s[LeadingSpaces(s) + |Trim(s)|..])
  {
  }

  /** A whitespace run followed by a text that does not start with
      whitespace has exactly that run as its leading whitespace. */
  lemma {:induction false} LeadingSpacesOfRun(a: string, t: string)
    requires AllSpaces(a) && (|t| == 0 || !IsSpace(t[0]))
    ensures LeadingSpaces(a + t) == |a|
    decreases |a|
  {
    if |a| > 0 {
      var s := a + t;
      assert s[0] == a[0];
      assert s[1..] == a[1..] + t;
      assert AllSpaces(a[1..]) by {
        assert forall k :: 0 <= k < |a| - 1 ==> a[1..][k] == a[k + 1];
      }
      LeadingSpacesOfRun(a[1..], t);
    } else {
      assert a + t == t;
    }
  }

  /** A text that does not end with whitespace, followed by a whitespace
      run, has exactly that run as its trailing whitespace. */
  lemma {:induction false} TrailingSpacesOfRun(t: string, b: string)
    requires AllSpaces(b) && (|t| == 0 || !IsSpace(t[|t| - 1]))
    ensures TrailingSpaces(t + b) == |b|
    decreases |b|
  {
    var s := t + b;
    if |b| > 0 {
      var b' := b[..|b| - 1];
      assert s[|s| - 1] == b[|b| - 1];
      assert s[..|s| - 1] == t + b';
      assert AllSpaces(b') by {
        assert forall k :: 0 <= k < |b'| ==> b'[k] == b[k];
      }
      TrailingSpacesOfRun(t, b');
    } else {
      assert s == t;
    }
  }

  /** A text of whitespace only has only leading whitespace. */
  lemma {:induction false} BlankLeadingSpaces(s: string)
    requires AllSpaces(s)
    ensures LeadingSpaces(s) == |s|
  {
    if |s| > 0 {
      assert AllSpaces(s[1..]) by {
        forall i | 0 <= i < |s| - 1 ensures IsSpace(s[1..][i]) {
          assert s[1..][i] == s[i + 1];
        }
      }
      BlankLeadingSpaces(s[1..]);
    }
  }

  /** `trim` is determined by what it keeps: a text with no whitespace at
      either end, padded on both sides by whitespace, trims to itself, and a
      text of whitespace only trims to nothing. */
  lemma TrimOfPadded(a: string, t: string, b: string)
    requires AllSpaces(a) && AllSpaces(b) && IsTrimmed(t)
    ensures Trim(a + t + b) == t
  {
    var s := a + t + b;
    if |t| == 0 {
      assert s == a + b;
      assert AllSpaces(s) by {
        assert forall i :: |a| <= i < |s| ==> s[i] == b[i - |a|];
      }
      BlankLeadingSpaces(s);
    } else {
      assert s == a + (t + b);
      LeadingSpacesOfRun(a, t + b);
      assert (a + t)[|a + t| - 1] == t[|t| - 1];
      TrailingSpacesOfRun(a + t, b);
      assert s[|a|..|a| + |t|] == t;
    }
  }

  /** Trimming a string that has no whitespace at either end changes
      nothing, so `trim` is idempotent. */
  lemma TrimTrimmed(s: string)
    requires IsTrimmed(s)
    ensures Trim(s) == s
  {
    assert LeadingSpaces(s) == 0;
    assert TrailingSpaces(s) == 0;
  }

  lemma TrimIdempotent(s: string)
    ensures Trim(Trim(s)) == Trim(s)
  {
    TrimTrimmed(Trim(s));
  }

  /** Trimming keeps every non-whitespace character, so a digit survives it. */
  lemma TrimKeepsDigits(s: string)
    ensures HasDigit(Trim(s)) <==> HasDigit(s)
  {
    var a := LeadingSpaces(s);
    var e := TrimEnd(s);
    var r := Trim(s);
    if HasDigit(s) {
      var i :| 0 <= i < |s| && IsDigit(s[i]);
      if a <= i < e {
        assert r[i - a] == s[i];
      }
    }
    if HasDigit(r) {
      var i :| 0 <= i < |r| && IsDigit(r[i]);
      assert s[a + i] == r[i];
    }
  }

  lemma LowerKeepsDigits(s: string)
    ensures HasDigit(Lower(s)) <==> HasDigit(s)
  {
    if HasDigit(s) {
      var i :| 0 <= i < |s| && IsDigit(s[i]);
      assert IsDigit(Lower(s)[i]);
    }
  }

  /** `t` occurs in `s` starting at index `i`. */
  predicate OccursAt(s: string, t: string, i: int)
  {
    0 <= i && i + |t| <= |s| && s[i..i + |t|] == t
  }

  lemma OccursAtShift(s: string, t: string, j: int)
    requires |s| > 0 && j >= 1
    ensures OccursAt(s, t, j) <==> OccursAt(s[1..], t, j - 1)
  {
    if j + |t| <= |s| {
      assert s[1..][j - 1..j - 1 + |t|] == s[j..j + |t|];
    }
  }

  /** `indexOf`: the first index at which `t` occurs in `s`, if any. */
  function IndexOf(s: string, t: string): (r: Option<nat>)
    ensures r.Some? ==> OccursAt(s, t, r.value)
    ensures r.Some? ==> forall j :: 0 <= j < r.value ==> !OccursAt(s, t, j)
    ensures r.None? ==> forall j :: !OccursAt(s, t, j)
    decreases |s|
  {
    if |t| > |s| then None
    else if s[..|t|] == t then Some(0)
    else
      var rest := IndexOf(s[1..], t);
      assert forall j :: 1 <= j ==> (OccursAt(s, t, j) <==> OccursAt(s[1..], t, j - 1)) by {
        forall j | 1 <= j {
          OccursAtShift(s, t, j);
        }
      }
      match rest
      case None => None
      case Some(i) => Some(i + 1)
  }

  /** Whether `t` occurs in `s` as a contiguous piece. */
  predicate Contains(s: string, t: string)
  {
    IndexOf(s, t).Some?
  }

  lemma ContainsIff(s: string, t: string)
    ensures Contains(s, t) <==> exists j :: OccursAt(s, t, j)
  {
  }

  /** Replacing a string pattern by nothing: the first occurrence of `t` is
      cut out and the text on both sides of it is kept in order; when `t`
      does not occur, `s` is returned unchanged. */
  function RemoveFirst(s: string, t: string): (r: string)
    ensures IndexOf(s, t).None? ==> r == s
    ensures IndexOf(s, t).Some? ==> |r| + |t| == |s|
    ensures IndexOf(s, t).Some? ==>
              IndexOf(s, t).value <= |r| && s == r[..IndexOf(s, t).value] + t + r[IndexOf(s, t).value..]
  {
    match IndexOf(s, t)
    case None => s
    case Some(i) => s[..i] + s[i + |t|..]
  }

  /** Index of the first whitespace character of `s`, or `|s|`. */
  function FirstSpace(s: string): (i: nat)
    ensures i <= |s|
    ensures NoSpace(s[..i])
    ensures i < |s| ==> IsSpace(s[i])
  {
    if |s| == 0 || IsSpace(s[0]) then 0 else 1 + FirstSpace(s[1..])
  }

  /** Splitting on `\s+`: the pieces between maximal runs of whitespace.
      A leading or trailing run yields an empty first or last piece, and
      the empty string splits into one empty piece. */
  function SplitOnSpaces(s: string): (words: seq<string>)
    ensures |words| >= 1
    ensures forall k :: 0 <= k < |words| ==> NoSpace(words[k])
    decreases |s|
  {
    var i := FirstSpace(s);
    if i == |s| then
      assert s[..i] == s;
      [s]
    else
      var j := i + LeadingSpaces(s[i..]);
      [s[..i]] + SplitOnSpaces(s[j..])
  }

  /** A piece without whitespace, then whitespace or nothing: the first
      whitespace is right after the piece. */
  lemma {:induction false} FirstSpaceAfterWord(w: string, t: string)
    requires NoSpace(w) && (|t| == 0 || IsSpace(t[0]))
    ensures FirstSpace(w + t) == |w|
    decreases |w|
  {
    if |w| > 0 {
      var s := w + t;
      assert s[0] == w[0];
      assert s[1..] == w[1..] + t;
      FirstSpaceAfterWord(w[1..], t);
    } else {
      assert w + t == t;
    }
  }

  /** The maximal whitespace runs of `s`, in order: the gaps between the
      pieces `SplitOnSpaces` returns. */
  function SpaceRuns(s: string): (gaps: seq<string>)
    ensures |gaps| + 1 == |SplitOnSpaces(s)|
    decreases |s|
  {
    var i := FirstSpace(s);
    if i == |s| then []
    else
      var j := i + LeadingSpaces(s[i..]);
      [s[i..j]] + SpaceRuns(s[j..])
  }

  /** The pieces joined back together with the gaps between them. */
  function Interleave(words: seq<string>, gaps: seq<string>): string
    requires |words| == |gaps| + 1
    decreases |gaps|
  {
    if |gaps| == 0 then words[0] else words[0] + gaps[0] + Interleave(words[1..], gaps[1..])
  }

  /** `words` and `gaps` describe a text cut at its whitespace runs: no piece
      holds whitespace, every gap is a non-empty whitespace run, and only
      the first and the last piece may be empty. */
  predicate IsSplit(words: seq<string>, gaps: seq<string>)
  {
    && |words| == |gaps| + 1
    && (forall k :: 0 <= k < |words| ==> NoSpace(words[k]))
    && (forall k :: 0 <= k < |gaps| ==> |gaps[k]| > 0 && AllSpaces(gaps[k]))
    && (forall k :: 0 < k < |words| - 1 ==> |words[k]| > 0)
  }

  /** Prepending a piece and a gap to a split gives a split, as long as a
      piece that becomes a middle one is not empty. */
  lemma IsSplitCons(w: string, g: string, words: seq<string>, gaps: seq<string>)
    requires IsSplit(words, gaps) && NoSpace(w) && |g| > 0 && AllSpaces(g)
    requires |words| >= 2 ==> |words[0]| > 0
    ensures IsSplit([w] + words, [g] + gaps)
    ensures Interleave([w] + words, [g] + gaps) == w + g + Interleave(words, gaps)
  {
    var ws, gs := [w] + words, [g] + gaps;
    assert ws[1..] == words && gs[1..] == gaps;
    assert forall k :: 0 < k < |ws| ==> ws[k] == words[k - 1];
    assert forall k :: 0 < k < |gs| ==> gs[k] == gaps[k - 1];
  }

  /** Dropping the first piece and gap of a split leaves a split. */
  lemma IsSplitTail(words: seq<string>, gaps: seq<string>)
    requires IsSplit(words, gaps) && |gaps| > 0
    ensures IsSplit(words[1..], gaps[1..])
    ensures Interleave(words, gaps) == words[0] + gaps[0] + Interleave(words[1..], gaps[1..])
  {
    var tw, tg := words[1..], gaps[1..];
    assert forall k :: 0 <= k < |tw| ==> tw[k] == words[k + 1];
    assert forall k :: 0 <= k < |tg| ==> tg[k] == gaps[k + 1];
  }

  /** A split text starts with its first piece, so it starts with no
      whitespace when that piece is not empty or is the only one. */
  lemma InterleaveHead(words: seq<string>, gaps: seq<string>)
    requires IsSplit(words, gaps) && (|gaps| > 0 ==> |words[0]| > 0)
    ensures |Interleave(words, gaps)| == 0 || !IsSpace(Interleave(words, gaps)[0])
  {
    if |gaps| > 0 {
      assert Interleave(words, gaps)[0] == words[0][0];
    }
  }

  /** The first step of the split: the piece before the first whitespace
      run, that run, and the split of the rest. */
  lemma SplitStep(s: string, i: nat, j: nat)
    requires i == FirstSpace(s) < |s| && j == i + LeadingSpaces(s[i..])
    ensures i < j <= |s|
    ensures AllSpaces(s[i..j]) && NoSpace(s[..i])
  {
    var u := s[i..];
    assert u[0] == s[i];
    assert s[i..j] == u[..j - i];
  }

  lemma AfterRun(s: string, i: nat, j: nat)
    requires i <= |s| && j == i + LeadingSpaces(s[i..])
    ensures j < |s| ==> !IsSpace(s[j])
  {
    var u := s[i..];
    assert j < |s| ==> s[j] == u[j - i];
  }

  lemma SplitUnfold(s: string, i: nat, j: nat)
    requires i == FirstSpace(s) < |s| && j == i + LeadingSpaces(s[i..])
    ensures SplitOnSpaces(s) == [s[..i]] + SplitOnSpaces(s[j..])
  {
  }

  lemma RunsUnfold(s: string, i: nat, j: nat)
    requires i == FirstSpace(s) < |s| && j == i + LeadingSpaces(s[i..])
    ensures SpaceRuns(s) == [s[i..j]] + SpaceRuns(s[j..])
  {
  }

  /** A text is its three slices cut at `i` and `j`, joined. */
  lemma SliceThree(s: string, i: nat, j: nat)
    requires i <= j <= |s|
    ensures s == s[..i] + s[i..j] + s[j..]
  {
    assert s[..i] + s[i..j] == s[..j];
  }

  /** The pieces of the split, with the whitespace runs between them,
      rebuild the text. */
  lemma {:induction false} SplitRebuilds(s: string)
    ensures IsSplit(SplitOnSpaces(s), SpaceRuns(s))
    ensures Interleave(SplitOnSpaces(s), SpaceRuns(s)) == s
    decreases |s|
  {
    var i := FirstSpace(s);
    if i == |s| {
      assert s[..i] == s;
    } else {
      var j := i + LeadingSpaces(s[i..]);
      SplitStep(s, i, j);
      AfterRun(s, i, j);
      SplitUnfold(s, i, j);
      RunsUnfold(s, i, j);
      var rest := s[j..];
      SplitRebuilds(rest);
      var w', g' := SplitOnSpaces(rest), SpaceRuns(rest);
      if |w'| >= 2 {
        assert |w'[0]| > 0 by {
          InterleaveHead(w', g');
          FirstSpaceAfterWord(w'[0], "");
          IsSplitTail(w', g');
        }
      }
      IsSplitCons(s[..i], s[i..j], w', g');
      SliceThree(s, i, j);
    }
  }

  /** Conversely, every way of cutting a text at its whitespace runs is the
      split: the split is determined by the text. */
  lemma {:induction false} SplitUnique(words: seq<string>, gaps: seq<string>)
    requires IsSplit(words, gaps)
    ensures SplitOnSpaces(Interleave(words, gaps)) == words
    decreases |gaps|
  {
    if |gaps| == 0 {
      FirstSpaceAfterWord(words[0], "");
      assert words[0] + "" == words[0];
      assert words == [words[0]];
    } else {
      var w, g := words[0], gaps[0];
      var tw, tg := words[1..], gaps[1..];
      IsSplitTail(words, gaps);
      SplitUnique(tw, tg);
      var s' := Interleave(tw, tg);
      assert |tg| > 0 ==> |tw[0]| > 0 by {
        if |tg| > 0 {
          assert tw[0] == words[1];
        }
      }
      InterleaveHead(tw, tg);
      UnconsSplit(w, g, s');
      assert words == [w] + tw;
    }
  }

  /** Splitting a piece, a whitespace run and a text that does not start
      with whitespace yields the piece followed by the text's split. */
  lemma UnconsSplit(w: string, g: string, t: string)
    requires NoSpace(w) && |g| > 0 && AllSpaces(g) && (|t| == 0 || !IsSpace(t[0]))
    ensures SplitOnSpaces(w + g + t) == [w] + SplitOnSpaces(t)
  {
    var s := w + g + t;
    assert s == w + (g + t);
    FirstSpaceAfterWord(w, g + t);
    assert s[|w|..] == g + t;
    LeadingSpacesOfRun(g, t);
    assert s[..|w|] == w;
    assert s[|w| + |g|..] == t;
  }

  /** A string ending in a non-whitespace character is not all
      whitespace. */
  lemma LeadingSpacesBeforeLast(u: string)
    requires |u| > 0 && !IsSpace(u[|u| - 1])
    ensures LeadingSpaces(u) < |u|
  {
  }

  /** A non-empty string with no whitespace at either end splits into
      non-empty words only. */
  lemma {:induction false} SplitTrimmedHasNoEmptyWord(s: string)
    requires |s| > 0 && IsTrimmed(s)
    ensures forall k :: 0 <= k < |SplitOnSpaces(s)| ==> |SplitOnSpaces(s)[k]| > 0
    decreases |s|
  {
    var i := FirstSpace(s);
    if i < |s| {
      assert i > 0;
      var u := s[i..];
      assert u[|u| - 1] == s[|s| - 1];
      LeadingSpacesBeforeLast(u);
      var n := LeadingSpaces(u);
      var j := i + n;
      var rest := s[j..];
      assert rest[0] == u[n];
      assert rest[|rest| - 1] == s[|s| - 1];
      SplitTrimmedHasNoEmptyWord(rest);
      var words, tail := SplitOnSpaces(s), SplitOnSpaces(rest);
      assert words == [s[..i]] + tail;
      forall k | 0 <= k < |words| ensures |words[k]| > 0 {
        if k > 0 {
          assert words[k] == tail[k - 1];
        }
      }
    }
  }
}
