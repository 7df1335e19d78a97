/** The free-text expense parser: one utterance such as "paid electricity
    bill 500" becomes a description, an amount, a category and a date, or
    nothing at all. The pipeline has four stages:
      1. amount: the leftmost, longest match of the pattern `\d+(\.\d+)?` in
         the trimmed, lower-cased input;
      2. description: the first occurrence of the amount text is cut out of
         the original input, which is trimmed, stripped of one leading
         filler word, trimmed again and capitalised;
      3. category: the first table entry with a keyword related by
         substring containment to some word of the input, else Other;
      4. date: one calendar day before `now` when the input mentions
         "yesterday", `now` otherwise.
    The clock is the parameter `now`; amounts are exact decimals. */
module ExpenseParser {
  import opened Wrappers
  import opened Text
  import opened Calendar
  import opened ExpenseModel

  // ---------------------------------------------------------------------
  // Stage 1: the amount
  // ---------------------------------------------------------------------

  predicate AllDigits(t: string)
  {
    forall i :: 0 <= i < |t| ==> IsDigit(t[i])
  }

  /** End of the run of digits in `s` that starts at `i`. */
  function DigitsFrom(s: string, i: nat): (j: nat)
    requires i <= |s|
    ensures i <= j <= |s|
    ensures forall k :: i <= k < j ==> IsDigit(s[k])
    ensures j < |s| ==> !IsDigit(s[j])
    decreases |s| - i
  {
    if i == |s| || !IsDigit(s[i]) then i else DigitsFrom(s, i + 1)
  }

  /** A string of the pattern `\d+(\.\d+)?`: one or more digits, optionally
      followed by a point and one or more digits. */
  predicate IsNumeral(t: string)
  {
    var k := DigitsFrom(t, 0);
    k > 0 && (k == |t| || (t[k] == '.' && k + 1 < |t| && DigitsFrom(t, k + 1) == |t|))
  }

  function Min(a: int, b: int): int
  {
    if a <= b then a else b
  }

  /** Digit runs of a slice are the digit runs of the whole, cut at the
      slice's end. */
  lemma {:induction false} DigitsFromSlice(s: string, a: nat, e: nat, i: nat)
    requires a <= e <= |s| && i <= e - a
    ensures DigitsFrom(s[a..e], i) == Min(DigitsFrom(s, a + i), e) - a
    decreases e - a - i
  {
    var t := s[a..e];
    if i < |t| {
      assert t[i] == s[a + i];
      if IsDigit(t[i]) {
        DigitsFromSlice(s, a, e, i + 1);
      }
    }
  }

  /** A numeral consists of digits and at most one point, and starts with
      a digit. */
  lemma NumeralChars(t: string)
    requires IsNumeral(t)
    ensures IsDigit(t[0])
    ensures forall i :: 0 <= i < |t| ==> IsDigit(t[i]) || t[i] == '.'
  {
    var k := DigitsFrom(t, 0);
    if k < |t| {
      var e := DigitsFrom(t, k + 1);
      forall i | 0 <= i < |t| ensures IsDigit(t[i]) || t[i] == '.' {
        if i > k {
          assert k + 1 <= i < e;
        }
      }
    }
  }

  /** End of the longest numeral of `s` that starts at the digit `s[a]`:
      greedy `\d+`, then `\.\d+` when a point is followed by a digit. */
  function NumeralEnd(s: string, a: nat): (b: nat)
    requires a < |s| && IsDigit(s[a])
    ensures a < b <= |s|
    ensures IsNumeral(s[a..b])
    ensures forall e :: b < e <= |s| ==> !IsNumeral(s[a..e])
  {
    var d := DigitsFrom(s, a);
    var b := if d + 1 < |s| && s[d] == '.' && IsDigit(s[d + 1]) then DigitsFrom(s, d + 1) else d;
    assert IsNumeral(s[a..b]) by {
      DigitsFromSlice(s, a, b, 0);
      if b != d {
        DigitsFromSlice(s, a, b, d + 1 - a);
        assert s[a..b][d - a] == s[d];
      }
    }
    assert forall e :: b < e <= |s| ==> !IsNumeral(s[a..e]) by {
      forall e | b < e <= |s| ensures !IsNumeral(s[a..e]) {
        NumeralEndMaximal(s, a, d, b, e);
      }
    }
    b
  }

  lemma NumeralEndMaximal(s: string, a: nat, d: nat, b: nat, e: nat)
    requires a < |s| && IsDigit(s[a])
    requires d == DigitsFrom(s, a)
    requires b == if d + 1 < |s| && s[d] == '.' && IsDigit(s[d + 1]) then DigitsFrom(s, d + 1) else d
    requires b < e <= |s|
    ensures !IsNumeral(s[a..e])
  {
    var t := s[a..e];
    DigitsFromSlice(s, a, e, 0);
    assert t[d - a] == s[d];
    if d + 1 < e {
      DigitsFromSlice(s, a, e, d + 1 - a);
    }
  }

  /** Index of the first digit of `s` at or after `i`, or `|s|`. */
  function FirstDigitFrom(s: string, i: nat): (j: nat)
    requires i <= |s|
    ensures i <= j <= |s|
    ensures forall k :: i <= k < j ==> !IsDigit(s[k])
    ensures j < |s| ==> IsDigit(s[j])
    decreases |s| - i
  {
    if i == |s| || IsDigit(s[i]) then i else FirstDigitFrom(s, i + 1)
  }

  /** The span of the first match of `\d+(\.\d+)?` in `s`: leftmost, longest at
      that position, or None when `s` has no digit. */
  function MatchAmount(s: string): (r: Option<(nat, nat)>)
    ensures r.None? <==> !HasDigit(s)
    ensures r.Some? ==> r.value.0 < r.value.1 <= |s| && IsNumeral(s[r.value.0..r.value.1])
    ensures r.Some? ==> forall i :: 0 <= i < r.value.0 ==> !IsDigit(s[i])
    ensures r.Some? ==> forall i, j :: 0 <= i < r.value.0 && i < j <= |s| ==> !IsNumeral(s[i..j])
    ensures r.Some? ==> forall j :: r.value.1 < j <= |s| ==> !IsNumeral(s[r.value.0..j])
  {
    var a := FirstDigitFrom(s, 0);
    if a == |s| then None
    else
      assert forall i, j :: 0 <= i < a && i < j <= |s| ==> !IsNumeral(s[i..j]) by {
        forall i, j | 0 <= i < a && i < j <= |s| ensures !IsNumeral(s[i..j]) {
          if IsNumeral(s[i..j]) {
            NumeralChars(s[i..j]);
          }
        }
      }
      Some((a, NumeralEnd(s, a)))
  }

  function DigitValue(c: char): nat
    requires IsDigit(c)
  {
    c as int - '0' as int
  }

  /** The value of a digit string read in base ten. */
  function NatValue(ds: string): nat
    requires AllDigits(ds)
  {
    if |ds| == 0 then 0 else NatValue(ds[..|ds| - 1]) * 10 + DigitValue(ds[|ds| - 1])
  }

  function Pow10(n: nat): (p: nat)
    ensures p >= 1
  {
    if n == 0 then 1 else 10 * Pow10(n - 1)
  }

  /** A string of `n` digits reads below `10^n`. */
  lemma {:induction false} NatValueBound(ds: string)
    requires AllDigits(ds)
    ensures NatValue(ds) < Pow10(|ds|)
  {
    if |ds| > 0 {
      var init := ds[..|ds| - 1];
      NatValueBound(init);
      assert NatValue(init) + 1 <= Pow10(|init|);
      assert NatValue(ds) <= NatValue(init) * 10 + 9;
    }
  }

  /** Digits before the point of a numeral. */
  function IntegerPart(t: string): (ds: string)
    requires IsNumeral(t)
    ensures AllDigits(ds) && 0 < |ds| <= |t| && ds == t[..|ds|]
  {
    t[..DigitsFrom(t, 0)]
  }

  /** Digits after the point of a numeral; empty when it has none. */
  function FractionPart(t: string): (ds: string)
    requires IsNumeral(t)
    ensures AllDigits(ds)
    ensures |ds| == 0 ==> t == IntegerPart(t)
    ensures |ds| > 0 ==> t == IntegerPart(t) + "." + ds
  {
    var k := DigitsFrom(t, 0);
    if k == |t| then "" else t[k + 1..]
  }

  lemma AllDigitsAppend(a: string, b: string)
    requires AllDigits(a) && AllDigits(b)
    ensures AllDigits(a + b)
  {
    var s := a + b;
    forall k | 0 <= k < |s| ensures IsDigit(s[k]) {
      if k >= |a| {
        assert s[k] == b[k - |a|];
      }
    }
  }

  lemma ShiftDigits(x: nat, p: nat, y: nat, d: nat)
    ensures (x * p + y) * 10 + d == x * (10 * p) + (y * 10 + d)
  {
  }

  /** Reading digits one after the other: the digits of `a` are shifted
      left by the number of digits of `b`. */
  lemma {:induction false} NatValueAppend(a: string, b: string)
    requires AllDigits(a) && AllDigits(b)
    ensures AllDigits(a + b)
    ensures NatValue(a + b) == NatValue(a) * Pow10(|b|) + NatValue(b)
    decreases |b|
  {
    AllDigitsAppend(a, b);
    if |b| == 0 {
      assert a + b == a;
    } else {
      var s := a + b;
      var b' := b[..|b| - 1];
      var d := DigitValue(b[|b| - 1]);
      assert s[..|s| - 1] == a + b';
      assert s[|s| - 1] == b[|b| - 1];
      NatValueAppend(a, b');
      assert NatValue(s) == NatValue(a + b') * 10 + d;
      assert NatValue(b) == NatValue(b') * 10 + d;
      ShiftDigits(NatValue(a), Pow10(|b'|), NatValue(b'), d);
    }
  }

  /** The number with integer part `n` and a fraction of `m` over `q`,
      where `total` is both read together. */
  function Decimal(n: nat, m: nat, q: nat, total: nat): (v: real)
    requires m < q && total == n * q + m
    ensures v == total as real / q as real
    ensures n as real <= v < n as real + 1.0
  {
    FractionBelowOne(m, q);
    n as real + m as real / q as real
  }

  /** The decimal with integer digits `i` and fraction digits `f`. */
  function DecimalOf(i: string, f: string): (v: real)
    requires AllDigits(i) && AllDigits(f)
    ensures AllDigits(i + f)
    ensures v == NatValue(i + f) as real / Pow10(|f|) as real
    ensures NatValue(i) as real <= v < NatValue(i) as real + 1.0
  {
    NatValueBound(f);
    NatValueAppend(i, f);
    Decimal(NatValue(i), NatValue(f), Pow10(|f|), NatValue(i + f))
  }

  /** `parseFloat` of a numeral, as an exact decimal: all its digits read
      as one integer, the point left out, divided by ten to the number of
      fraction digits. So the value lies between the integer part and the
      next integer, and nothing past the numeral is read. */
  function NumeralValue(t: string): (v: real)
    requires IsNumeral(t)
    ensures AllDigits(IntegerPart(t) + FractionPart(t))
    ensures v == NatValue(IntegerPart(t) + FractionPart(t)) as real / Pow10(|FractionPart(t)|) as real
    ensures NatValue(IntegerPart(t)) as real <= v < NatValue(IntegerPart(t)) as real + 1.0
    ensures FractionPart(t) == "" ==> v == NatValue(t) as real
  {
    DecimalOf(IntegerPart(t), FractionPart(t))
  }

  lemma FractionBelowOne(n: nat, q: nat)
    requires n < q
    ensures 0.0 <= n as real / q as real < 1.0
  {
  }

  /** The trimmed, lower-cased input every keyword test looks at. */
  function Lowered(input: string): (s: string)
    ensures |s| <= |input|
    ensures IsTrimmed(s)
    ensures HasDigit(s) <==> HasDigit(input)
  {
    var s := Lower(Trim(input));
    TrimKeepsDigits(input);
    LowerKeepsDigits(Trim(input));
    s
  }

  /** The span of the amount inside `Lowered(input)`. */
  function AmountSpan(input: string): (r: Option<(nat, nat)>)
    ensures r.None? <==> !HasDigit(input)
    ensures r.Some? ==> r.value.0 < r.value.1 <= |Lowered(input)|
    ensures r.Some? ==> IsNumeral(Lowered(input)[r.value.0..r.value.1])
    ensures r.Some? ==> forall i :: 0 <= i < r.value.0 ==> !IsDigit(Lowered(input)[i])
  {
    MatchAmount(Lowered(input))
  }

  /** `amountMatch[0]`: the matched amount text. */
  function AmountText(input: string): (t: string)
    requires HasDigit(input)
    ensures IsNumeral(t)
  {
    var span := AmountSpan(input);
    Lowered(input)[span.value.0..span.value.1]
  }

  /** The amount text occurs in the original input exactly where it was
      matched, and nowhere earlier: cutting out its first occurrence cuts
      out the matched number. */
  lemma AmountOccursAtMatch(input: string)
    requires HasDigit(input)
    ensures IndexOf(input, AmountText(input)).Some?
    ensures IndexOf(input, AmountText(input)).value == LeadingSpaces(input) + AmountSpan(input).value.0
  {
    var span := AmountSpan(input).value;
    TrimView(input);
    AmountView(input);
    AmountFoundAt(input, LeadingSpaces(input), Trim(input), span.0, span.1, AmountText(input));
  }

  /** `T` is `input` with its `L` leading blanks (and any trailing ones)
      cut off. */
  predicate IsTrimView(input: string, L: nat, T: string)
  {
    L + |T| <= |input| && (forall i :: 0 <= i < |T| ==> T[i] == input[L + i]) && AllSpaces(input[..L])
  }

  /** `tok` is the numeral at `a..b` of `s`, with no digit before it. */
  predicate IsAmountAt(s: string, a: nat, b: nat, tok: string)
  {
    a < b <= |s| && tok == s[a..b] && IsNumeral(tok) && forall k :: 0 <= k < a ==> !IsDigit(s[k])
  }

  lemma TrimView(input: string)
    ensures IsTrimView(input, LeadingSpaces(input), Trim(input))
  {
    TrimIsSlice(input);
  }

  lemma AmountView(input: string)
    requires HasDigit(input)
    ensures IsAmountAt(Lower(Trim(input)), AmountSpan(input).value.0, AmountSpan(input).value.1, AmountText(input))
  {
  }

  lemma AmountFoundAt(input: string, L: nat, T: string, a: nat, b: nat, tok: string)
    requires IsTrimView(input, L, T) && IsAmountAt(Lower(T), a, b, tok)
    ensures IndexOf(input, tok) == Some(L + a)
  {
    var s := Lower(T);
    NumeralChars(tok);
    LoweredSliceIsOriginal(input, L, T, s, a, b);
    NoDigitBeforeAmount(input, L, T, s, a);
    FirstOccurrence(input, tok, L + a);
  }

  /** Digits and points are their own lower case, so the amount text reads
      the same in the original input, shifted by the leading whitespace. */
  lemma LoweredSliceIsOriginal(input: string, L: nat, T: string, s: string, a: nat, b: nat)
    requires L + |T| <= |input| && (forall i :: 0 <= i < |T| ==> T[i] == input[L + i])
    requires s == Lower(T) && a <= b <= |s|
    requires forall i :: 0 <= i < b - a ==> IsDigit(s[a..b][i]) || s[a..b][i] == '.'
    ensures input[L + a..L + b] == s[a..b]
  {
    forall i | a <= i < b ensures input[L + i] == s[i] {
      assert s[a..b][i - a] == s[i];
      assert T[i] == input[L + i];
      LowerCharFixed(T[i]);
    }
  }

  /** Before the start of the amount, the original input has no digit. */
  lemma NoDigitBeforeAmount(input: string, L: nat, T: string, s: string, a: nat)
    requires L + |T| <= |input| && (forall i :: 0 <= i < |T| ==> T[i] == input[L + i]) && AllSpaces(input[..L])
    requires s == Lower(T) && a <= |s|
    requires forall k :: 0 <= k < a ==> !IsDigit(s[k])
    ensures forall j :: 0 <= j < L + a ==> !IsDigit(input[j])
  {
    forall j | 0 <= j < L + a ensures !IsDigit(input[j]) {
      if j < L {
        assert input[..L][j] == input[j];
      } else {
        assert T[j - L] == input[j];
        assert !IsDigit(s[j - L]);
      }
    }
  }

  /** A string that occurs at `p` and whose first character appears
      nowhere before `p` is first found at `p`. */
  lemma FirstOccurrence(s: string, t: string, p: nat)
    requires OccursAt(s, t, p) && |t| > 0
    requires forall j :: 0 <= j < p ==> s[j] != t[0]
    ensures IndexOf(s, t) == Some(p)
  {
    forall j | 0 <= j < p ensures !OccursAt(s, t, j) {
      assert s[j] != t[0];
    }
  }

  // ---------------------------------------------------------------------
  // Stage 2: the description
  // ---------------------------------------------------------------------

  /** The filler words the description may start with, in the order the
      alternation tries them. */
  const Fillers: seq<string> := ["paid", "for", "spent on", "bought"]

  /** `t` starts with `f`, ignoring the case of `t`'s letters. */
  predicate StartsWithIgnoringCase(t: string, f: string)
  {
    |f| <= |t| && Lower(t[..|f|]) == f
  }

  /** Length of the filler `^(paid|for|spent on|bought)` matches at the
      start of `t`, case-insensitively, or 0 when none does. */
  function FillerLength(t: string): (n: nat)
    ensures n <= |t|
    ensures n > 0 ==> Lower(t[..n]) in Fillers
    ensures n == 0 <==> forall f :: f in Fillers ==> !StartsWithIgnoringCase(t, f)
  {
    if StartsWithIgnoringCase(t, "paid") then 4
    else if StartsWithIgnoringCase(t, "for") then 3
    else if StartsWithIgnoringCase(t, "spent on") then 8
    else if StartsWithIgnoringCase(t, "bought") then 6
    else 0
  }

  /** The anchored, case-insensitive filler removal: when a filler starts
      `t`, it and the whitespace run after it are dropped; otherwise `t` is
      unchanged. Only one filler is removed. */
  function StripFiller(t: string): (r: string)
    ensures FillerLength(t) == 0 ==> r == t
    ensures FillerLength(t) > 0 ==>
              && FillerLength(t) + |r| <= |t|
              && r == t[|t| - |r|..]
              && AllSpaces(t[FillerLength(t)..|t| - |r|])
              && (|r| > 0 ==> !IsSpace(r[0]))
  {
    var n := FillerLength(t);
    if n == 0 then t
    else
      var u := t[n..];
      var k := LeadingSpaces(u);
      assert t[n..|t| - |u[k..]|] == u[..k];
      u[k..]
  }

  /** What is left of the input once the amount text and a filler are
      removed and both ends trimmed. */
  function Remainder(input: string, amountText: string): (r: string)
    ensures IsTrimmed(r)
  {
    Trim(StripFiller(Trim(RemoveFirst(input, amountText))))
  }

  /** Index, in the text left after the amount is cut out, at which the
      description starts. */
  function DescriptionStart(c: string): int
  {
    LeadingSpaces(c) + |Trim(c)| - |StripFiller(Trim(c))|
  }

  /** `d` sits at `p` in `c`: before it only whitespace (the first `L`
      characters), or whitespace, a filler of `n` characters and whitespace;
      after it only whitespace. */
  predicate IsDescriptionAt(c: string, L: nat, n: nat, p: int, d: string)
  {
    && L + n <= p && p + |d| <= |c|
    && d == c[p..p + |d|]
    && AllSpaces(c[..L]) && AllSpaces(c[p + |d|..])
    && (n == 0 ==> p == L)
    && (n > 0 ==> Lower(c[L..L + n]) in Fillers && AllSpaces(c[L + n..p]))
  }

  /** The description is one contiguous piece of the text left after the
      amount is cut out. Before it there is only whitespace, or whitespace,
      one filler and whitespace; after it there is only whitespace. */
  lemma RemainderShape(input: string, amountText: string)
    ensures var c := RemoveFirst(input, amountText);
            IsDescriptionAt(c, LeadingSpaces(c), FillerLength(Trim(c)), DescriptionStart(c), Remainder(input, amountText))
  {
    DescriptionShape(RemoveFirst(input, amountText));
  }

  lemma DescriptionShape(c: string)
    ensures IsDescriptionAt(c, LeadingSpaces(c), FillerLength(Trim(c)), DescriptionStart(c), Trim(StripFiller(Trim(c))))
  {
    TrimView(c);
    TrimIsSlice(c);
    StrippedIsTrimmed(Trim(c));
    TrimTrimmed(StripFiller(Trim(c)));
    ShapeOfTrimmed(c, LeadingSpaces(c), Trim(c), DescriptionStart(c), Trim(StripFiller(Trim(c))));
  }

  lemma ShapeOfTrimmed(c: string, L: nat, T: string, p: int, d: string)
    requires IsTrimView(c, L, T) && AllSpaces(c[L + |T|..])
    requires d == StripFiller(T) && p == L + |T| - |d|
    ensures IsDescriptionAt(c, L, FillerLength(T), p, d)
  {
    StripView(T);
    ShapeFromViews(c, L, T, FillerLength(T), d, p, d);
  }

  /** What stripping a filler keeps is a suffix of the text. */
  lemma StripView(t: string)
    ensures |StripFiller(t)| <= |t| && StripFiller(t) == t[|t| - |StripFiller(t)|..]
  {
    if FillerLength(t) == 0 {
      assert t[0..] == t;
    }
  }

  lemma ShapeFromViews(c: string, L: nat, T: string, n: nat, u: string, p: int, d: string)
    requires IsTrimView(c, L, T) && AllSpaces(c[L + |T|..])
    requires |u| <= |T| && u == T[|T| - |u|..]
    requires n == 0 ==> u == T
    requires n > 0 ==> n + |u| <= |T| && Lower(T[..n]) in Fillers && AllSpaces(T[n..|T| - |u|])
    requires p == L + |T| - |u| && d == u
    ensures IsDescriptionAt(c, L, n, p, d)
  {
    SuffixView(c, L, T, u, p);
    if n > 0 {
      FillerView(c, L, T, n, p);
    }
  }

  lemma SuffixView(c: string, L: nat, T: string, u: string, p: int)
    requires IsTrimView(c, L, T)
    requires |u| <= |T| && u == T[|T| - |u|..] && p == L + |T| - |u|
    ensures u == c[p..p + |u|]
  {
    assert forall k :: 0 <= k < |u| ==> u[k] == T[|T| - |u| + k];
  }

  lemma FillerView(c: string, L: nat, T: string, n: nat, p: int)
    requires IsTrimView(c, L, T)
    requires L + n <= p <= L + |T| && Lower(T[..n]) in Fillers && AllSpaces(T[n..p - L])
    ensures Lower(c[L..L + n]) in Fillers && AllSpaces(c[L + n..p])
  {
    assert c[L..L + n] == T[..n];
    var w, w' := c[L + n..p], T[n..p - L];
    forall k | 0 <= k < |w|
      ensures w[k] == w'[k]
    {
      assert w[k] == c[L + n + k] && w'[k] == T[n + k];
    }
    assert w == w';
  }

  /** Stripping a filler from a trimmed text leaves a trimmed text. */
  lemma StrippedIsTrimmed(t: string)
    requires IsTrimmed(t)
    ensures IsTrimmed(StripFiller(t))
  {
    var u := StripFiller(t);
    if FillerLength(t) > 0 && |u| > 0 {
      assert u[|u| - 1] == t[|t| - 1];
    }
  }

  /** No filler holds a digit. */
  lemma FillersHaveNoDigit(f: string, k: nat)
    requires f in Fillers && k < |f|
    ensures !IsDigit(f[k])
  {
  }

  /** A digit of `c` is never part of what is cut before or after the
      description: it lies inside it, in place. */
  lemma DigitInDescription(c: string, L: nat, n: nat, p: int, d: string, q: nat)
    requires IsDescriptionAt(c, L, n, p, d) && q < |c| && IsDigit(c[q])
    ensures p <= q < p + |d| && d[q - p] == c[q]
  {
    forall k | 0 <= k < L ensures !IsDigit(c[k]) {
      assert c[..L][k] == c[k];
    }
    forall k | L <= k < L + n ensures !IsDigit(c[k]) {
      var f := Lower(c[L..L + n]);
      assert f[k - L] == LowerChar(c[k]);
      FillersHaveNoDigit(f, k - L);
    }
    forall k | L + n <= k < p ensures !IsDigit(c[k]) {
      assert c[L + n..p][k - L - n] == c[k];
    }
    forall k | p + |d| <= k < |c| ensures !IsDigit(c[k]) {
      assert c[p + |d|..][k - p - |d|] == c[k];
    }
    assert p <= q < p + |d|;
    assert d[q - p] == c[p..p + |d|][q - p];
  }

  /** Every digit of the text left after the amount is cut out is kept in
      the description, in place. */
  lemma DigitsKeptInDescription(c: string, q: nat)
    requires q < |c| && IsDigit(c[q])
    ensures var d, p := Trim(StripFiller(Trim(c))), DescriptionStart(c);
            p <= q < p + |d| && d[q - p] == c[q]
  {
    DescriptionShape(c);
    DigitInDescription(c, LeadingSpaces(c), FillerLength(Trim(c)), DescriptionStart(c), Trim(StripFiller(Trim(c))), q);
  }

  /** Only the first occurrence of the amount text is cut out: every digit
      after it, such as a second number, stays in the description at its
      place. */
  lemma LaterDigitsSurvive(input: string, amountText: string, k: nat)
    requires IndexOf(input, amountText).Some?
    requires IndexOf(input, amountText).value + |amountText| <= k < |input| && IsDigit(input[k])
    ensures var c, d := RemoveFirst(input, amountText), Remainder(input, amountText);
            var q := k - |amountText|;
            DescriptionStart(c) <= q < DescriptionStart(c) + |d| && d[q - DescriptionStart(c)] == input[k]
  {
    var i := IndexOf(input, amountText).value;
    var c := RemoveFirst(input, amountText);
    var q := k - |amountText|;
    assert input == c[..i] + amountText + c[i..];
    assert c[q] == input[k] by {
      assert input[k] == c[i..][k - i - |amountText|];
    }
    DigitsKeptInDescription(c, q);
  }

  /** Capitalisation: the first character in upper case, the rest as it
      is. */
  function Capitalize(d: string): (r: string)
    requires |d| > 0
    ensures |r| == |d| && r[1..] == d[1..]
    ensures !IsLower(r[0]) && LowerChar(r[0]) == LowerChar(d[0])
    ensures IsTrimmed(d) ==> IsTrimmed(r)
  {
    [UpperChar(d[0])] + d[1..]
  }

  // ---------------------------------------------------------------------
  // Stage 3: the category
  // ---------------------------------------------------------------------

  /** The keyword table, in declaration order. Other has no keywords. */
  const CategoryKeywords: seq<(Category, seq<string>)> := [
    (FoodAndDrinks, ["tea", "coffee", "lunch", "dinner", "breakfast", "food", "restaurant", "cafe", "snack", "drink", "meal"]),
    (Shopping, ["shopping", "clothes", "shoes", "shirt", "dress", "pants", "buy", "purchase", "store"]),
    (Transportation, ["uber", "taxi", "bus", "train", "metro", "fuel", "gas", "petrol", "transport", "ride", "auto"]),
    (Entertainment, ["movie", "cinema", "game", "concert", "party", "entertainment", "show", "netflix", "spotify"]),
    (BillsAndUtilities, ["electricity", "bill", "water", "gas", "internet", "wifi", "phone", "mobile", "utility", "rent"]),
    (Healthcare, ["doctor", "hospital", "medicine", "pharmacy", "medical", "health", "clinic", "dentist"]),
    (Education, ["book", "course", "class", "tuition", "school", "college", "education", "study", "learning"]),
    (Travel, ["hotel", "flight", "vacation", "trip", "travel", "booking", "ticket"]),
    (Personal, ["haircut", "salon", "gym", "personal", "grooming", "spa"])
  ]

  /** The table lists the first nine categories of the enumeration, in
      the enumeration's order; Other is never looked up. */
  lemma CategoryKeywordsOrder()
    ensures |CategoryKeywords| == |CategoryEnum| - 1
    ensures forall m :: 0 <= m < |CategoryKeywords| ==> CategoryKeywords[m].0 == CategoryEnum[m]
    ensures forall m :: 0 <= m < |CategoryKeywords| ==> CategoryKeywords[m].0 != Other
  {
  }

  /** The words of the input: the trimmed, lower-cased input cut at its
      whitespace runs. Joined again with those runs, they rebuild it. */
  function InputWords(input: string): (words: seq<string>)
    ensures |words| >= 1
    ensures forall j :: 0 <= j < |words| ==> NoSpace(words[j])
    ensures IsSplit(words, SpaceRuns(Lowered(input)))
    ensures Interleave(words, SpaceRuns(Lowered(input))) == Lowered(input)
  {
    SplitRebuilds(Lowered(input));
    SplitOnSpaces(Lowered(input))
  }

  /** Once an amount was found the input is not blank, so no word is
      empty (an empty word would be contained in every keyword). */
  lemma InputWordsNonEmpty(input: string)
    requires HasDigit(input)
    ensures forall j :: 0 <= j < |InputWords(input)| ==> |InputWords(input)[j]| > 0
  {
    var s := Lowered(input);
    assert |s| > 0;
    SplitTrimmedHasNoEmptyWord(s);
  }

  /** A word and a keyword match when either contains the other. */
  predicate WordMatches(word: string, keyword: string)
  {
    Contains(word, keyword) || Contains(keyword, word)
  }

  /** Some word of the input matches the keyword. */
  predicate AnyWordMatches(words: seq<string>, keyword: string)
  {
    exists j :: 0 <= j < |words| && WordMatches(words[j], keyword)
  }

  /** Some keyword of a table entry matches some word. */
  predicate EntryMatches(keywords: seq<string>, words: seq<string>)
  {
    exists i :: 0 <= i < |keywords| && AnyWordMatches(words, keywords[i])
  }

  /** Index of the first table entry, from `m` on, that matches. */
  function FirstMatchFrom(words: seq<string>, m: nat): (r: Option<nat>)
    requires m <= |CategoryKeywords|
    ensures r.Some? ==> m <= r.value < |CategoryKeywords| && EntryMatches(CategoryKeywords[r.value].1, words)
    ensures r.Some? ==> forall m' :: m <= m' < r.value ==> !EntryMatches(CategoryKeywords[m'].1, words)
    ensures r.None? ==> forall m' :: m <= m' < |CategoryKeywords| ==> !EntryMatches(CategoryKeywords[m'].1, words)
    decreases |CategoryKeywords| - m
  {
    if m == |CategoryKeywords| then None
    else if EntryMatches(CategoryKeywords[m].1, words) then Some(m)
    else FirstMatchFrom(words, m + 1)
  }

  /** The category of the first matching entry, or Other. */
  function Classify(words: seq<string>): (c: Category)
    ensures c == Other <==> forall m :: 0 <= m < |CategoryKeywords| ==> !EntryMatches(CategoryKeywords[m].1, words)
    ensures c != Other ==>
              && FirstMatchFrom(words, 0).Some?
              && CategoryKeywords[FirstMatchFrom(words, 0).value].0 == c
  {
    CategoryKeywordsOrder();
    match FirstMatchFrom(words, 0)
    case None => Other
    case Some(m) => CategoryKeywords[m].0
  }

  /** The search over the words for one keyword, stopping at the first
      word that matches. */
  method SomeWordMatches(words: seq<string>, keyword: string) returns (found: bool)
    ensures found == AnyWordMatches(words, keyword)
  {
    found := false;
    var j := 0;
    while j < |words| && !found
      invariant 0 <= j <= |words|
      invariant found ==> AnyWordMatches(words, keyword)
      invariant !found ==> forall j' :: 0 <= j' < j ==> !WordMatches(words[j'], keyword)
    {
      found := WordMatches(words[j], keyword);
      j := j + 1;
    }
  }

  /** The inner loop over one entry's keywords, leaving it at the first
      keyword some word matches. */
  method EntryMatchesLoop(keywords: seq<string>, words: seq<string>) returns (found: bool)
    ensures found == EntryMatches(keywords, words)
  {
    found := false;
    var i := 0;
    while i < |keywords| && !found
      invariant 0 <= i <= |keywords|
      invariant found ==> EntryMatches(keywords, words)
      invariant !found ==> forall i' :: 0 <= i' < i ==> !AnyWordMatches(words, keywords[i'])
    {
      found := SomeWordMatches(words, keywords[i]);
      i := i + 1;
    }
  }

  /** The classification loop as written: entries in order, and the first
      entry with a matching keyword settles the category. */
  method ClassifyLoop(words: seq<string>) returns (category: Category)
    ensures category == Classify(words)
  {
    category := Other;
    var m := 0;
    while m < |CategoryKeywords|
      invariant 0 <= m <= |CategoryKeywords|
      invariant forall m' :: 0 <= m' < m ==> !EntryMatches(CategoryKeywords[m'].1, words)
    {
      var found := EntryMatchesLoop(CategoryKeywords[m].1, words);
      if found {
        category := CategoryKeywords[m].0;
        return;
      }
      m := m + 1;
    }
  }

  /** An entry that matches always beats every later entry. */
  lemma EarlierEntryWins(words: seq<string>, m1: nat, m2: nat)
    requires m1 < m2 < |CategoryKeywords|
    requires EntryMatches(CategoryKeywords[m1].1, words)
    ensures Classify(words) != CategoryKeywords[m2].0
  {
    CategoryKeywordsOrder();
  }

  /** "gas" is a keyword of both Transportation and Bills & Utilities; an
      input with the word "gas" is never filed under Bills & Utilities. */
  lemma GasIsNeverABill(words: seq<string>, j: nat)
    requires j < |words| && words[j] == "gas"
    ensures Classify(words) != BillsAndUtilities
  {
    var keywords := CategoryKeywords[2].1;
    assert keywords[6] == "gas";
    assert OccursAt("gas", "gas", 0);
    assert WordMatches(words[j], keywords[6]);
    assert AnyWordMatches(words, keywords[6]);
    EarlierEntryWins(words, 2, 4);
  }

  /** A word found inside "tea" (a lone "a", "e" or "t", or the empty
      word) matches the first entry, so the input is Food & Drinks. */
  lemma WordInsideTeaIsFood(words: seq<string>, j: nat)
    requires j < |words| && Contains("tea", words[j])
    ensures Classify(words) == FoodAndDrinks
  {
    var keywords := CategoryKeywords[0].1;
    assert keywords[0] == "tea";
    assert AnyWordMatches(words, keywords[0]);
    assert EntryMatches(keywords, words);
  }

  // ---------------------------------------------------------------------
  // Stage 4: the date, and the whole parser
  // ---------------------------------------------------------------------

  /** The parser's output record. */
  datatype ParsedExpense = ParsedExpense(
    description: string,
    amount: real,
    category: Category,
    date: Instant)

  /** `parseExpenseInput(input)` evaluated at the instant `now`. */
  function ParseExpenseInput(input: string, now: Instant): (r: Option<ParsedExpense>)
    requires ValidInstant(now)
    ensures r.None? <==> !HasDigit(input) || Remainder(input, AmountText(input)) == ""
    ensures r.Some? ==> r.value.amount == NumeralValue(AmountText(input)) && r.value.amount >= 0.0
    ensures r.Some? ==>
              var d := Remainder(input, AmountText(input));
              && |r.value.description| == |d| > 0
              && IsTrimmed(r.value.description)
              && r.value.description[1..] == d[1..]
              && LowerChar(r.value.description[0]) == LowerChar(d[0])
              && !IsLower(r.value.description[0])
    ensures r.Some? ==> r.value.category == Classify(InputWords(input))
    ensures r.Some? && Contains(Lowered(input), "yesterday") ==> r.value.date == OneDayEarlier(now)
    ensures r.Some? && !Contains(Lowered(input), "yesterday") ==> r.value.date == now
  {
    if !HasDigit(input) then None
    else
      var amountText := AmountText(input);
      var description := Remainder(input, amountText);
      if description == "" then None
      else
        var date := if Contains(Lowered(input), "yesterday") then OneDayEarlier(now) else now;
        Some(ParsedExpense(
          Capitalize(description),
          NumeralValue(amountText),
          Classify(InputWords(input)),
          date))
  }

  /** Every record the parser produces satisfies the schema, and storing it
      keeps it as it is. */
  lemma ParsedSatisfiesSchema(input: string, now: Instant, userId: string)
    requires ValidInstant(now)
    requires ParseExpenseInput(input, now).Some?
    ensures var p := ParseExpenseInput(input, now).value;
            ValidateExpense(ExpenseFields(userId, Some(p.description), Some(p.amount), Some(Name(p.category)), Some(p.date)), now)
              == Ok(Expense(userId, p.description, p.amount, p.category, p.date))
  {
    var p := ParseExpenseInput(input, now).value;
    ParsedFieldsValid(userId, p.description, p.amount, p.category, p.date, now);
  }

  lemma ParsedFieldsValid(u: string, d: string, a: real, c: Category, t: Instant, now: Instant)
    requires ValidInstant(now) && ValidInstant(t)
    requires a >= 0.0 && d != "" && IsTrimmed(d)
    ensures ValidateExpense(ExpenseFields(u, Some(d), Some(a), Some(Name(c)), Some(t)), now) == Ok(Expense(u, d, a, c, t))
  {
    ValidFieldsAdmitted(u, d, a, c, t, now);
    AdmittedFieldsOf(ExpenseFields(u, Some(d), Some(a), Some(Name(c)), Some(t)), now, Expense(u, d, a, c, t));
  }

  /** Only one fractional part is read: in "1.2.3" the amount is 1.2. */
  lemma OnlyOneFraction()
    ensures MatchAmount("1.2.3") == Some((0, 3))
    ensures NumeralValue("1.2") == 1.2
  {
    var s := "1.2.3";
    assert DigitsFrom(s, 0) == 1 by {
      assert DigitsFrom(s, 1) == 1;
    }
    assert DigitsFrom(s, 2) == 3 by {
      assert DigitsFrom(s, 3) == 3;
    }
    var t := "1.2";
    assert DigitsFrom(t, 0) == 1 by {
      assert DigitsFrom(t, 1) == 1;
    }
    assert DigitsFrom(t, 2) == 3;
    assert IntegerPart(t) == "1";
    assert FractionPart(t) == "2";
    assert NatValue("1") == 1 by { assert "1"[..0] == ""; }
    assert NatValue("2") == 2 by { assert "2"[..0] == ""; }
  }

  /** The filler is a prefix, not a word: "forest" loses its "for". */
  lemma ForestLosesFor()
    ensures StripFiller("forest") == "est"
  {
    var t := "forest";
    assert !StartsWithIgnoringCase(t, "paid") by {
      assert Lower(t[..4])[0] == LowerChar('f');
    }
    assert StartsWithIgnoringCase(t, "for") by {
      var l := Lower(t[..3]);
      assert l[0] == LowerChar('f') && l[1] == LowerChar('o') && l[2] == LowerChar('r');
      assert l == "for";
    }
    assert FillerLength(t) == 3;
    assert t[3..] == "est";
    assert LeadingSpaces("est") == 0;
  }

  /** Only one filler is stripped: after "paid " the "for" stays. */
  lemma OnlyOneFillerStripped()
    ensures StripFiller("paid for lunch") == "for lunch"
  {
    var t := "paid for lunch";
    PaidIsTheFiller();
    var u := t[4..];
    assert u == " for lunch";
    assert u[1..] == "for lunch";
    assert LeadingSpaces(u[1..]) == 0;
    assert LeadingSpaces(u) == 1;
  }

  lemma PaidIsTheFiller()
    ensures FillerLength("paid for lunch") == 4
  {
    var t := "paid for lunch";
    var l := Lower(t[..4]);
    assert l[0] == LowerChar('p') && l[1] == LowerChar('a') && l[2] == LowerChar('i') && l[3] == LowerChar('d');
    assert l == "paid";
  }
}
