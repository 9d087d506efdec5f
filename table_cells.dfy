/**
 * The cell classifiers of the two summary tables: `NicheListTable.formatCell`
 * and `ScoresTable.formatCell`. Each looks for a parenthesised figure with a
 * regular expression, cuts the first occurrence of the matched text out of
 * the cell with `replace`, trims the rest, and picks a colour.
 *
 * The regular expressions are modelled twice: `MatchEnd` follows the regex
 * engine's greedy left-to-right reading at one start index, and `IsToken`
 * says declaratively which strings are a whole match; the two are proved to
 * agree in both directions.
 */
module TableCells {
  import opened Options
  import opened JsText

  /** The three patterns the tables search for. */
  datatype Pattern =
    | Delta       // /\(([+-][\d.]+%?)\)/  in the niche table
    | Multiplier  // /\((\d+\.?\d*x)\)/    in the scores table
    | Percent     // /\((\d+%)\)/          in the scores table

  predicate IsDigitOrDot(c: char) {
    IsDigit(c) || c == '.'
  }

  /** `m` is, in full, a text the pattern matches. */
  predicate IsToken(pat: Pattern, m: string) {
    && |m| >= 4 && m[0] == '(' && m[|m| - 1] == ')'
    && match pat
       case Delta =>
         && (m[1] == '+' || m[1] == '-')
         && var bodyEnd := if m[|m| - 2] == '%' then |m| - 2 else |m| - 1;
            2 < bodyEnd && forall k :: 2 <= k < bodyEnd ==> IsDigitOrDot(m[k])
       case Multiplier =>
         && m[|m| - 2] == 'x' && IsDigit(m[1])
         && (forall k :: 1 <= k < |m| - 2 ==> IsDigitOrDot(m[k]))
         && (forall i, j :: 1 <= i < j < |m| - 2 && m[i] == '.' ==> m[j] != '.')
       case Percent =>
         && m[|m| - 2] == '%' && 1 < |m| - 2
         && forall k :: 1 <= k < |m| - 2 ==> IsDigit(m[k])
  }

  /** The end of the longest run of digits in `s` from `i` (a greedy `\d*`). */
  function DigitRunEnd(s: string, i: nat): (j: nat)
    requires i <= |s|
    ensures i <= j <= |s|
    ensures forall k :: i <= k < j ==> IsDigit(s[k])
    ensures j == |s| || !IsDigit(s[j])
    decreases |s| - i
  {
    if i < |s| && IsDigit(s[i]) then DigitRunEnd(s, i + 1) else i
  }

  /** The end of the longest run of digits and dots in `s` from `i` (a greedy `[\d.]*`). */
  function DigitDotRunEnd(s: string, i: nat): (j: nat)
    requires i <= |s|
    ensures i <= j <= |s|
    ensures forall k :: i <= k < j ==> IsDigitOrDot(s[k])
    ensures j == |s| || !IsDigitOrDot(s[j])
    decreases |s| - i
  {
    if i < |s| && IsDigitOrDot(s[i]) then DigitDotRunEnd(s, i + 1) else i
  }

  /** The regex engine at start index `p`: the end of the match, if any.
      None of the three patterns gains anything from backtracking, so the
      greedy reading is the engine's. */
  function MatchEnd(pat: Pattern, s: string, p: nat): (r: Option<nat>)
    ensures r.Some? ==> p + 4 <= r.value <= |s|
  {
    if p >= |s| || s[p] != '(' then None
    else match pat
      case Delta =>
        if p + 1 < |s| && (s[p + 1] == '+' || s[p + 1] == '-') then
          var q := DigitDotRunEnd(s, p + 2);
          if q == p + 2 then None
          else if q < |s| && s[q] == ')' then Some(q + 1)
          else if q + 1 < |s| && s[q] == '%' && s[q + 1] == ')' then Some(q + 2)
          else None
        else None
      case Multiplier =>
        var q := DigitRunEnd(s, p + 1);
        if q == p + 1 then None
        else
          var r := if q < |s| && s[q] == '.' then DigitRunEnd(s, q + 1) else q;
          if r + 1 < |s| && s[r] == 'x' && s[r + 1] == ')' then Some(r + 2) else None
      case Percent =>
        var q := DigitRunEnd(s, p + 1);
        if q > p + 1 && q + 1 < |s| && s[q] == '%' && s[q + 1] == ')' then Some(q + 2) else None
  }

  /** What the engine matches is a token. */
  lemma MatchEndSound(pat: Pattern, s: string, p: nat)
    requires MatchEnd(pat, s, p).Some?
    ensures IsToken(pat, s[p..MatchEnd(pat, s, p).value])
  {
    var e := MatchEnd(pat, s, p).value;
    var m := s[p..e];
    assert forall k :: 0 <= k < |m| ==> m[k] == s[p + k];
    match pat
    case Delta =>
    case Multiplier =>
      var q := DigitRunEnd(s, p + 1);
      var r := if q < |s| && s[q] == '.' then DigitRunEnd(s, q + 1) else q;
      assert e == r + 2;
      forall i, j | 1 <= i < j < |m| - 2 && m[i] == '.'
        ensures m[j] != '.'
      {
        assert p + i >= q;
        assert p + i == q;
      }
    case Percent =>
  }

  /** Every token found at `p` is what the engine matches there. */
  lemma MatchEndComplete(pat: Pattern, s: string, p: nat, e: nat)
    requires p < e <= |s| && IsToken(pat, s[p..e])
    ensures MatchEnd(pat, s, p) == Some(e)
  {
    match pat
    case Delta => DeltaComplete(s, p, e);
    case Multiplier => MultiplierComplete(s, p, e);
    case Percent => PercentComplete(s, p, e);
  }

  lemma DeltaComplete(s: string, p: nat, e: nat)
    requires p < e <= |s| && IsToken(Delta, s[p..e])
    ensures MatchEnd(Delta, s, p) == Some(e)
  {
    var m := s[p..e];
    assert forall k :: 0 <= k < |m| ==> m[k] == s[p + k];
    var bodyEnd := if m[|m| - 2] == '%' then e - 2 else e - 1;
    assert !IsDigitOrDot(s[bodyEnd]);
    assert DigitDotRunEnd(s, p + 2) == bodyEnd;
  }

  lemma MultiplierComplete(s: string, p: nat, e: nat)
    requires p < e <= |s| && IsToken(Multiplier, s[p..e])
    ensures MatchEnd(Multiplier, s, p) == Some(e)
  {
    var m := s[p..e];
    assert forall k :: 0 <= k < |m| ==> m[k] == s[p + k];
    var q := DigitRunEnd(s, p + 1);
    assert q <= e - 2 by {
      assert !IsDigit(s[e - 2]);
    }
    if q < e - 2 {
      assert s[q] == '.';
    }
  }

  lemma PercentComplete(s: string, p: nat, e: nat)
    requires p < e <= |s| && IsToken(Percent, s[p..e])
    ensures MatchEnd(Percent, s, p) == Some(e)
  {
    var m := s[p..e];
    assert forall k :: 0 <= k < |m| ==> m[k] == s[p + k];
    assert !IsDigit(s[e - 2]);
    assert DigitRunEnd(s, p + 1) == e - 2;
  }

  /** `s.match(re)`: the leftmost start index at or after `from` where the
      engine matches, and the end of that match. */
  function FirstMatch(pat: Pattern, s: string, from: nat): (r: Option<(nat, nat)>)
    ensures r.Some? ==> from <= r.value.0 && MatchEnd(pat, s, r.value.0) == Some(r.value.1)
    ensures forall k :: from <= k && (r.None? || k < r.value.0) ==> MatchEnd(pat, s, k).None?
    decreases |s| - from
  {
    if from >= |s| then None
    else match MatchEnd(pat, s, from)
      case Some(e) => Some((from, e))
      case None => FirstMatch(pat, s, from + 1)
  }

  /** `s[p..e]` is a token and no token starts further left. */
  predicate IsFirstToken(pat: Pattern, s: string, p: nat, e: nat) {
    && p < e <= |s| && IsToken(pat, s[p..e])
    && forall i, j :: 0 <= i < p && i < j <= |s| ==> !IsToken(pat, s[i..j])
  }

  /** No substring of `s` is a token. */
  predicate NoToken(pat: Pattern, s: string) {
    forall i, j :: 0 <= i < j <= |s| ==> !IsToken(pat, s[i..j])
  }

  /** The search finds exactly the leftmost token. */
  lemma FirstMatchIsFirstToken(pat: Pattern, s: string, p: nat, e: nat)
    ensures FirstMatch(pat, s, 0) == Some((p, e)) <==> IsFirstToken(pat, s, p, e)
  {
    if FirstMatch(pat, s, 0) == Some((p, e)) {
      MatchEndSound(pat, s, p);
      forall i, j | 0 <= i < p && i < j <= |s|
        ensures !IsToken(pat, s[i..j])
      {
        if IsToken(pat, s[i..j]) {
          MatchEndComplete(pat, s, i, j);
        }
      }
    }
    if IsFirstToken(pat, s, p, e) {
      MatchEndComplete(pat, s, p, e);
      var r := FirstMatch(pat, s, 0);
      assert r.Some?;
      if r.value.0 < p {
        MatchEndSound(pat, s, r.value.0);
      }
    }
  }

  /** The search finds nothing exactly when there is no token. */
  lemma FirstMatchNone(pat: Pattern, s: string)
    ensures FirstMatch(pat, s, 0).None? <==> NoToken(pat, s)
  {
    var r := FirstMatch(pat, s, 0);
    if r.None? {
      forall i, j | 0 <= i < j <= |s|
        ensures !IsToken(pat, s[i..j])
      {
        if IsToken(pat, s[i..j]) {
          MatchEndComplete(pat, s, i, j);
        }
      }
    } else {
      MatchEndSound(pat, s, r.value.0);
    }
  }

  /** `s.replace(match[0], '')` cuts out the match itself: the matched text
      cannot occur further left, since it would then be matched there. */
  lemma RemoveMatchedText(pat: Pattern, s: string, p: nat, e: nat)
    requires FirstMatch(pat, s, 0) == Some((p, e))
    ensures RemoveFirst(s, s[p..e]) == s[..p] + s[e..]
  {
    var m := s[p..e];
    forall k | 0 <= k < p
      ensures !OccursAt(s, m, k)
    {
      if OccursAt(s, m, k) {
        MatchEndSound(pat, s, p);
        assert s[k..k + |m|] == m;
        MatchEndComplete(pat, s, k, k + |m|);
      }
    }
    RemoveFirstAt(s, m, p);
  }

  /** The group captured between the parentheses of a match, put back
      between parentheses, is a token. */
  lemma CapturedToken(pat: Pattern, s: string, p: nat, e: nat)
    requires MatchEnd(pat, s, p) == Some(e)
    ensures p + 4 <= e <= |s|
    ensures |s[p + 1..e - 1]| >= 2 && IsToken(pat, "(" + s[p + 1..e - 1] + ")")
  {
    MatchEndSound(pat, s, p);
    assert s[p..e][0] == s[p] && s[p..e][e - p - 1] == s[e - 1];
    Rewrapped(s, p, e);
  }

  /** A match is its captured group put back between its parentheses. */
  lemma Rewrapped(s: string, p: nat, e: nat)
    requires p + 2 <= e <= |s| && s[p] == '(' && s[e - 1] == ')'
    ensures "(" + s[p + 1..e - 1] + ")" == s[p..e]
  {
    var m := s[p..e];
    assert m == [s[p]] + s[p + 1..e - 1] + [s[e - 1]];
  }

  // ---------------------------------------------------------------
  // Niche list overview
  // ---------------------------------------------------------------

  /** How one cell of the niche table is rendered. */
  datatype NicheCell =
    | CategoryLink(text: string)                               // first column, a clickable category
    | RowLabel(text: string)                                   // first column, a summary row
    | DeltaValue(base: string, delta: string, positive: bool)  // linked base, delta in green or red
    | Muted(text: string)                                      // the placeholder dash, in grey
    | PlainValue(text: string)

  /** The first-column labels that are not categories. */
  const SummaryRows: seq<string> := ["Total properties", "Avg. deal score"]

  /** The placeholder of an empty figure, an en dash. */
  const Placeholder: string := "\U{2013}"

  /** `NicheListTable.formatCell`. */
  function FormatNicheCell(value: string, isFirstCol: bool): (c: NicheCell)
    ensures isFirstCol <==> c.CategoryLink? || c.RowLabel?
    ensures isFirstCol ==> c.text == value
    ensures isFirstCol ==> (c.CategoryLink? <==> value != "Total properties" && value != "Avg. deal score")
    ensures c.DeltaValue? ==> |c.delta| >= 2 && IsToken(Delta, "(" + c.delta + ")")
    ensures c.DeltaValue? ==> (c.positive <==> c.delta[0] == '+')
    ensures c.Muted? ==> c.text == Placeholder
  {
    if isFirstCol then
      if value in SummaryRows then RowLabel(value) else CategoryLink(value)
    else
      match FirstMatch(Delta, value, 0)
      case Some((p, e)) =>
        var delta := value[p + 1..e - 1];
        CapturedToken(Delta, value, p, e);
        // `delta.startsWith('+')`: the captured group starts just after the parenthesis
        DeltaValue(Trim(RemoveFirst(value, value[p..e])), delta, value[p + 1] == '+')
      case None =>
        if value == Placeholder then Muted(value) else PlainValue(value)
  }

  /** A figure with a signed delta: the base is the cell with the leftmost
      delta cut out, then trimmed; the delta is positive iff it starts with `+`. */
  lemma NicheDeltaCell(value: string, p: nat, e: nat)
    requires IsFirstToken(Delta, value, p, e)
    ensures FormatNicheCell(value, false)
         == DeltaValue(Trim(value[..p] + value[e..]), value[p + 1..e - 1], value[p + 1] == '+')
  {
    FirstMatchIsFirstToken(Delta, value, p, e);
    NicheCellOfMatch(value, p, e);
  }

  lemma NicheCellOfMatch(value: string, p: nat, e: nat)
    requires FirstMatch(Delta, value, 0) == Some((p, e))
    ensures FormatNicheCell(value, false)
         == DeltaValue(Trim(value[..p] + value[e..]), value[p + 1..e - 1], value[p + 1] == '+')
  {
    RemoveMatchedText(Delta, value, p, e);
  }

  /** A figure without a delta is shown as it is, in grey iff it is the dash. */
  lemma NichePlainCell(value: string)
    requires NoToken(Delta, value)
    ensures FormatNicheCell(value, false)
         == if value == Placeholder then Muted(value) else PlainValue(value)
  {
    FirstMatchNone(Delta, value);
  }

  // ---------------------------------------------------------------
  // Scores overview
  // ---------------------------------------------------------------

  /** How one cell of the scores table is rendered. */
  datatype ScoreCell =
    | ScoreLabel(text: string)                                   // first column, bold
    | MultiplierValue(base: string, multiplier: string, good: bool)  // multiplier in green or red
    | PercentValue(base: string, percent: string)                // percentage in grey
    | PlainScore(text: string)

  /** `parseFloat` of a captured multiplier text such as `0.5x`, exactly: the
      leading digits, an optional dot and the digits after it, read as the
      fraction `num / den`. */
  function ParseMultiplier(t: string): (r: (nat, nat))
    ensures r.1 >= 1
  {
    var q := DigitRunEnd(t, 0);
    var whole := t[..q];
    var frac := if q < |t| && t[q] == '.' then t[q + 1..DigitRunEnd(t, q + 1)] else "";
    (DigitsValue(whole) * Pow10(|frac|) + DigitsValue(frac), Pow10(|frac|))
  }

  /** The leading digits of a multiplier text, before any dot. */
  function WholeDigits(t: string): string {
    t[..DigitRunEnd(t, 0)]
  }

  /** `parseFloat(m) >= 1`. */
  predicate IsGood(t: string) {
    var (num, den) := ParseMultiplier(t);
    num >= den
  }

  /** A multiplier is good iff its whole part has a digit other than zero;
      the fraction never reaches one. */
  lemma GoodIffWholePartPositive(t: string)
    ensures IsGood(t) <==> exists k :: 0 <= k < |WholeDigits(t)| && WholeDigits(t)[k] != '0'
  {
    var q := DigitRunEnd(t, 0);
    var whole := t[..q];
    var frac := if q < |t| && t[q] == '.' then t[q + 1..DigitRunEnd(t, q + 1)] else "";
    DigitsValueBelowPow10(frac);
    DigitsValuePositive(whole);
    assert WholeDigits(t) == whole;
    assert ParseMultiplier(t) == (DigitsValue(whole) * Pow10(|frac|) + DigitsValue(frac), Pow10(|frac|));
    FractionBelowOne(DigitsValue(whole), DigitsValue(frac), Pow10(|frac|));
  }

  /** A whole part plus a proper fraction is at least one iff the whole part is. */
  lemma FractionBelowOne(w: nat, f: nat, d: nat)
    requires f < d
    ensures w * d + f >= d <==> w >= 1
  {
    if w >= 1 {
      assert w * d >= 1 * d;
    }
  }

  /** `ScoresTable.formatCell`. */
  function FormatScoreCell(value: string, isFirstCol: bool): (c: ScoreCell)
    ensures isFirstCol <==> c.ScoreLabel?
    ensures c.ScoreLabel? || c.PlainScore? ==> c.text == value
    ensures c.MultiplierValue? ==> |c.multiplier| >= 2 && IsToken(Multiplier, "(" + c.multiplier + ")")
    ensures c.PercentValue? ==> |c.percent| >= 2 && IsToken(Percent, "(" + c.percent + ")")
  {
    if isFirstCol then ScoreLabel(value)
    else
      match FirstMatch(Multiplier, value, 0)
      case Some((p, e)) =>
        var mult := value[p + 1..e - 1];
        CapturedToken(Multiplier, value, p, e);
        MultiplierValue(Trim(RemoveFirst(value, value[p..e])), mult, IsGood(mult))
      case None =>
        match FirstMatch(Percent, value, 0)
        case Some((p, e)) =>
          var percent := value[p + 1..e - 1];
          CapturedToken(Percent, value, p, e);
          PercentValue(Trim(RemoveFirst(value, value[p..e])), percent)
        case None => PlainScore(value)
  }

  /** A multiplier is looked for first, whatever percentages the cell holds. */
  lemma ScoreMultiplierCell(value: string, p: nat, e: nat)
    requires IsFirstToken(Multiplier, value, p, e)
    ensures FormatScoreCell(value, false)
         == MultiplierValue(Trim(value[..p] + value[e..]), value[p + 1..e - 1], IsGood(value[p + 1..e - 1]))
  {
    FirstMatchIsFirstToken(Multiplier, value, p, e);
    ScoreCellOfMultiplier(value, p, e);
  }

  lemma ScoreCellOfMultiplier(value: string, p: nat, e: nat)
    requires FirstMatch(Multiplier, value, 0) == Some((p, e))
    ensures FormatScoreCell(value, false)
         == MultiplierValue(Trim(value[..p] + value[e..]), value[p + 1..e - 1], IsGood(value[p + 1..e - 1]))
  {
    RemoveMatchedText(Multiplier, value, p, e);
  }

  /** Without a multiplier, the leftmost parenthesised percentage is split off. */
  lemma ScorePercentCell(value: string, p: nat, e: nat)
    requires NoToken(Multiplier, value)
    requires IsFirstToken(Percent, value, p, e)
    ensures FormatScoreCell(value, false) == PercentValue(Trim(value[..p] + value[e..]), value[p + 1..e - 1])
  {
    FirstMatchNone(Multiplier, value);
    FirstMatchIsFirstToken(Percent, value, p, e);
    ScoreCellOfPercent(value, p, e);
  }

  lemma ScoreCellOfPercent(value: string, p: nat, e: nat)
    requires FirstMatch(Multiplier, value, 0).None?
    requires FirstMatch(Percent, value, 0) == Some((p, e))
    ensures FormatScoreCell(value, false) == PercentValue(Trim(value[..p] + value[e..]), value[p + 1..e - 1])
  {
    RemoveMatchedText(Percent, value, p, e);
  }

  /** Neither pattern: the cell is shown as it is. */
  lemma ScorePlainCell(value: string)
    requires NoToken(Multiplier, value) && NoToken(Percent, value)
    ensures FormatScoreCell(value, false) == PlainScore(value)
  {
    FirstMatchNone(Multiplier, value);
    FirstMatchNone(Percent, value);
  }

  // ---------------------------------------------------------------
  // Cells of the two tables as they appear in the page
  // ---------------------------------------------------------------

  /** Every token starts with an opening parenthesis. */
  lemma NoTokenBefore(pat: Pattern, s: string, p: nat)
    requires p <= |s|
    requires forall i :: 0 <= i < p ==> s[i] != '('
    ensures forall i, j :: 0 <= i < p && i < j <= |s| ==> !IsToken(pat, s[i..j])
  {
    forall i, j | 0 <= i < p && i < j <= |s|
      ensures !IsToken(pat, s[i..j])
    {
      assert s[i..j][0] == s[i];
    }
  }

  /** A cell whose only opening parenthesis (if any) is at `p`, where the
      engine does not match, holds no token. */
  lemma NoTokenAtOnlyParen(pat: Pattern, s: string, p: nat)
    requires forall i :: 0 <= i < |s| && i != p ==> s[i] != '('
    requires MatchEnd(pat, s, p).None?
    ensures NoToken(pat, s)
  {
    forall i, j | 0 <= i < j <= |s|
      ensures !IsToken(pat, s[i..j])
    {
      assert s[i..j][0] == s[i];
      if IsToken(pat, s[i..j]) {
        MatchEndComplete(pat, s, i, j);
      }
    }
  }

  /** A word followed by one space trims to the word. */
  lemma TrimTrailingSpace(w: string)
    requires w != [] && !IsTrimmable(w[0]) && !IsTrimmable(w[|w| - 1])
    ensures Trim(w + " ") == w
  {
    assert TrimStart(w + " ") == w + " ";
    assert (w + " ")[..|w|] == w;
  }

  // Each example below is split in three: where the token is, what the
  // text around it trims to, then the classification, so that no proof
  // unfolds the literal cell more than it needs.

  lemma PositiveDeltaToken()
    ensures IsFirstToken(Delta, "7.7K (+20%)", 5, 11)
  {
    var v := "7.7K (+20%)";
    assert v[5..11] == "(+20%)";
    NoTokenBefore(Delta, v, 5);
  }

  lemma PositiveDeltaText()
    ensures Trim("7.7K (+20%)"[..5] + "7.7K (+20%)"[11..]) == "7.7K" && "7.7K (+20%)"[6..10] == "+20%"
  {
    var v := "7.7K (+20%)";
    assert v[..5] + v[11..] == "7.7K" + " ";
    TrimTrailingSpace("7.7K");
  }

  lemma PositiveDeltaExample()
    ensures FormatNicheCell("7.7K (+20%)", false) == DeltaValue("7.7K", "+20%", true)
  {
    PositiveDeltaToken();
    PositiveDeltaText();
    NicheDeltaCell("7.7K (+20%)", 5, 11);
  }

  lemma NegativeDeltaToken()
    ensures IsFirstToken(Delta, "9 (-2.0%)", 2, 9)
  {
    var v := "9 (-2.0%)";
    assert v[2..9] == "(-2.0%)";
    NoTokenBefore(Delta, v, 2);
  }

  lemma NegativeDeltaText()
    ensures Trim("9 (-2.0%)"[..2] + "9 (-2.0%)"[9..]) == "9" && "9 (-2.0%)"[3..8] == "-2.0%"
  {
    var v := "9 (-2.0%)";
    assert v[..2] + v[9..] == "9" + " ";
    TrimTrailingSpace("9");
  }

  lemma NegativeDeltaExample()
    ensures FormatNicheCell("9 (-2.0%)", false) == DeltaValue("9", "-2.0%", false)
  {
    NegativeDeltaToken();
    NegativeDeltaText();
    NicheDeltaCell("9 (-2.0%)", 2, 9);
  }

  lemma NicheOtherExamples()
    ensures FormatNicheCell("800", false) == PlainValue("800")
    ensures FormatNicheCell(Placeholder, false) == Muted(Placeholder)
    ensures FormatNicheCell("Pre-Foreclosure", true) == CategoryLink("Pre-Foreclosure")
    ensures FormatNicheCell("Total properties", true) == RowLabel("Total properties")
  {
    NoTokenAtOnlyParen(Delta, "800", 3);
    NichePlainCell("800");
    NoTokenAtOnlyParen(Delta, Placeholder, 1);
    NichePlainCell(Placeholder);
  }

  lemma BadMultiplierToken()
    ensures IsFirstToken(Multiplier, "2.5% (0.5x)", 5, 11)
  {
    var v := "2.5% (0.5x)";
    assert v[5..11] == "(0.5x)";
    NoTokenBefore(Multiplier, v, 5);
  }

  lemma BadMultiplierText()
    ensures Trim("2.5% (0.5x)"[..5] + "2.5% (0.5x)"[11..]) == "2.5%" && "2.5% (0.5x)"[6..10] == "0.5x"
  {
    var v := "2.5% (0.5x)";
    assert v[..5] + v[11..] == "2.5%" + " ";
    TrimTrailingSpace("2.5%");
  }

  lemma HalfIsBad()
    ensures !IsGood("0.5x")
  {
    GoodIffWholePartPositive("0.5x");
    assert WholeDigits("0.5x") == "0";
  }

  lemma BadMultiplierExample()
    ensures FormatScoreCell("2.5% (0.5x)", false) == MultiplierValue("2.5%", "0.5x", false)
  {
    BadMultiplierToken();
    BadMultiplierText();
    HalfIsBad();
    ScoreMultiplierCell("2.5% (0.5x)", 5, 11);
  }

  lemma GoodMultiplierToken()
    ensures IsFirstToken(Multiplier, "16% (3x)", 4, 8)
  {
    var v := "16% (3x)";
    assert v[4..8] == "(3x)";
    NoTokenBefore(Multiplier, v, 4);
  }

  lemma GoodMultiplierText()
    ensures Trim("16% (3x)"[..4] + "16% (3x)"[8..]) == "16%" && "16% (3x)"[5..7] == "3x"
  {
    var v := "16% (3x)";
    assert v[..4] + v[8..] == "16%" + " ";
    TrimTrailingSpace("16%");
  }

  lemma ThreeIsGood()
    ensures IsGood("3x")
  {
    GoodIffWholePartPositive("3x");
    assert WholeDigits("3x") == "3";
  }

  lemma GoodMultiplierExample()
    ensures FormatScoreCell("16% (3x)", false) == MultiplierValue("16%", "3x", true)
  {
    GoodMultiplierToken();
    GoodMultiplierText();
    ThreeIsGood();
    ScoreMultiplierCell("16% (3x)", 4, 8);
  }

  lemma PercentToken()
    ensures IsFirstToken(Percent, "6.5K (10%)", 5, 10)
  {
    var v := "6.5K (10%)";
    assert v[5..10] == "(10%)";
    NoTokenBefore(Percent, v, 5);
  }

  lemma PercentText()
    ensures Trim("6.5K (10%)"[..5] + "6.5K (10%)"[10..]) == "6.5K" && "6.5K (10%)"[6..9] == "10%"
  {
    var v := "6.5K (10%)";
    assert v[..5] + v[10..] == "6.5K" + " ";
    TrimTrailingSpace("6.5K");
  }

  lemma PercentHasNoMultiplier()
    ensures NoToken(Multiplier, "6.5K (10%)")
  {
    NoTokenAtOnlyParen(Multiplier, "6.5K (10%)", 5);
  }

  lemma PercentExample()
    ensures FormatScoreCell("6.5K (10%)", false) == PercentValue("6.5K", "10%")
  {
    PercentToken();
    PercentText();
    PercentHasNoMultiplier();
    ScorePercentCell("6.5K (10%)", 5, 10);
  }

  lemma PlainScoreExamples()
    ensures FormatScoreCell("1.2K", false) == PlainScore("1.2K")
    ensures FormatScoreCell("900s", true) == ScoreLabel("900s")
  {
    NoTokenAtOnlyParen(Multiplier, "1.2K", 4);
    NoTokenAtOnlyParen(Percent, "1.2K", 4);
    ScorePlainCell("1.2K");
  }
}
