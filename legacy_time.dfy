/**
 * `time_divide` of linkedin_scraper/functions.py: a parenthesised duration
 * is cut out of a date-range text and the rest is split on the en dash.
 * The regular expression `\((.*?)\)` is matched by hand: its match is the
 * first '(' followed, on the same line, by a ')', up to the first such ')'.
 */
module LegacyTime {
  import opened Wrappers
  import opened Text

  /** U+2013, the separator the legacy pages put between dates. */
  const EnDash: char := '\U{2013}'

  /** `s[i..j+1]` is a match of `\((.*?)\)`: '(' then no ')' and no newline, then ')'. */
  predicate GroupAt(s: string, i: int, j: int) {
    0 <= i < j < |s| && s[i] == '(' && s[j] == ')' &&
    forall k :: i < k < j ==> s[k] != ')' && s[k] != '\n'
  }

  /** The first index from `k` on that holds ')' or a newline: where a lazy `.*?)` stops. */
  function StopFrom(s: string, k: nat): (r: Option<nat>)
    ensures r.Some? ==> k <= r.value < |s| && (s[r.value] == ')' || s[r.value] == '\n')
    ensures r.Some? ==> forall m :: k <= m < r.value ==> s[m] != ')' && s[m] != '\n'
    ensures r.None? ==> forall m :: k <= m < |s| ==> s[m] != ')' && s[m] != '\n'
    decreases |s| - k
  {
    if k >= |s| then None
    else if s[k] == ')' || s[k] == '\n' then Some(k)
    else StopFrom(s, k + 1)
  }

  /** The leftmost match from index `from` on, as the pair (index of '(', index of ')'). */
  function FirstGroup(s: string, from: nat): (r: Option<(nat, nat)>)
    ensures r.Some? ==> from <= r.value.0 && GroupAt(s, r.value.0, r.value.1)
    ensures r.Some? ==> forall i, j :: from <= i < r.value.0 ==> !GroupAt(s, i, j)
    ensures r.None? ==> forall i, j :: from <= i ==> !GroupAt(s, i, j)
    decreases |s| - from
  {
    if from >= |s| then None
    else
      var rest := FirstGroup(s, from + 1);
      if s[from] == '(' then
        match StopFrom(s, from + 1)
        case Some(j) =>
          if s[j] == ')' then Some((from, j))
          else
            assert s[j] == '\n';
            rest
        case None => rest
      else rest
  }

  /** The group the regular expression finds in `s`, if any. */
  function Group(s: string): Option<(nat, nat)> {
    FirstGroup(s, 0)
  }

  /**
   * The en-dash split of the text left once the duration is removed:
   * `times[0]` and `times[1]`, stripped, or None where `times[1]` does not
   * exist (the source's `IndexError`).
   */
  function DividePair(t: string): (r: Option<(string, string)>)
    ensures r.Some? <==> Contains(t, [EnDash])
    ensures r.Some? ==> r.value == (Strip(Before(t, [EnDash])), Strip(Before(After(t, [EnDash]), [EnDash])))
  {
    var times := Split(t, [EnDash]);
    SplitHead(t, [EnDash]);
    SplitMany(t, [EnDash]);
    if |times| > 1 then Some((Strip(times[0]), Strip(times[1]))) else None
  }

  /**
   * `time_divide(string)`: (from, to, duration), or None where the source
   * fails with an `IndexError`.
   */
  function TimeDivide(s: string): (r: Option<(string, string, string)>)
    ensures Group(s).None? ==> r.Some? && r.value.2 == ""
    ensures Group(s).None? && Contains(s, [EnDash]) ==>
      r.value.0 == Strip(Before(s, [EnDash])) && r.value.1 == Strip(Before(After(s, [EnDash]), [EnDash]))
    ensures Group(s).None? && !Contains(s, [EnDash]) ==> r == Some((Strip(s), "", ""))
    ensures Group(s).Some? ==> r.Some? ==> r.value.2 == s[Group(s).value.0 + 1..Group(s).value.1]
  {
    match Group(s)
    case Some(g) => DivideMatched(s, g)
    case None => DividePadded(s)
  }

  /**
   * The branch without a match: "––()" is appended and the duration is "()"
   * less its parentheses. The padding only shows where `s` runs out of en
   * dashes, so the dates are those of `s` split on its own dashes.
   */
  function DividePadded(s: string): (r: Option<(string, string, string)>)
    ensures r.Some? && r.value.2 == ""
    ensures Contains(s, [EnDash]) ==>
      r.value.0 == Strip(Before(s, [EnDash])) && r.value.1 == Strip(Before(After(s, [EnDash]), [EnDash]))
    ensures !Contains(s, [EnDash]) ==> r == Some((Strip(s), "", ""))
  {
    PaddedHasDash(s);
    var times := DividePair(s + [EnDash, EnDash, '(', ')']);
    assert Contains(s, [EnDash]) ==>
      times.value == (Strip(Before(s, [EnDash])), Strip(Before(After(s, [EnDash]), [EnDash]))) by {
      if Contains(s, [EnDash]) {
        PaddedSplitWithDash(s);
      }
    }
    assert !Contains(s, [EnDash]) ==> times.value == (Strip(s), "") by {
      if !Contains(s, [EnDash]) {
        LacksBeforeFind(s, EnDash);
        PaddedSplit(s);
      }
    }
    Some((times.value.0, times.value.1, ""))
  }

  /**
   * The branch where the regular expression matched `s[g.0..g.1 + 1]`; the
   * duration `duration[1:-1]` of that match is `s[g.0 + 1..g.1]`.
   */
  function DivideMatched(s: string, g: (nat, nat)): (r: Option<(string, string, string)>)
    requires g.0 < g.1 < |s|
    ensures r.Some? <==> DividePair(Remaining(s, g)).Some?
    ensures r.Some? ==> r.value.2 == s[g.0 + 1..g.1]
  {
    var times := DividePair(Remaining(s, g));
    if times.Some? then Some((times.value.0, times.value.1, s[g.0 + 1..g.1])) else None
  }

  /** The padding "––()" always supplies an en dash to split on. */
  lemma PaddedHasDash(s: string)
    ensures DividePair(s + [EnDash, EnDash, '(', ')']).Some?
  {
    var padded := s + [EnDash, EnDash, '(', ')'];
    assert OccursAt(padded, [EnDash], |s|);
    ContainsAt(padded, [EnDash], |s|);
  }

  /** With a group found, the division is the en-dash split of the remaining text; it fails iff no en dash is left. */
  lemma TimeDivideWithGroup(s: string)
    requires Group(s).Some?
    ensures TimeDivide(s).Some? <==> Contains(Remaining(s, Group(s).value), [EnDash])
    ensures TimeDivide(s).Some? ==>
      (TimeDivide(s).value.0, TimeDivide(s).value.1) == DividePair(Remaining(s, Group(s).value)).value
  {
  }

  /** The text left once every copy of the matched group is removed, stripped. */
  function Remaining(s: string, g: (nat, nat)): string
    requires g.0 < g.1 < |s|
  {
    Strip(Replace(s, s[g.0..g.1 + 1], ""))
  }

  lemma PaddedSplit(s: string)
    requires Lacks(s, EnDash)
    ensures DividePair(s + [EnDash, EnDash, '(', ')']) == Some((Strip(s), ""))
  {
    var w := s + [EnDash, EnDash, '(', ')'];
    assert w == s + [EnDash] + [EnDash, '(', ')'];
    FindCharAfter(s, EnDash, [EnDash, '(', ')']);
    assert After(w, [EnDash]) == [EnDash, '(', ')'];
    assert [EnDash, '(', ')'] == [] + [EnDash] + ['(', ')'];
    FindCharAfter([], EnDash, ['(', ')']);
  }

  /** Text appended after a one-character separator that already occurs does not move its first occurrence. */
  lemma FirstCharKept(s: string, t: string, c: char)
    requires Contains(s, [c])
    ensures Find(s + t, [c]) == Find(s, [c])
  {
    var i := Find(s, [c]).value;
    LacksBeforeFind(s, c);
    assert s == s[..i] + [c] + s[i + 1..];
    assert s + t == s[..i] + [c] + (s[i + 1..] + t);
    FindCharAfter(s[..i], c, s[i + 1..]);
    FindCharAfter(s[..i], c, s[i + 1..] + t);
  }

  /** A text followed by the en dash it lacks is cut right there. */
  lemma BeforeDashAppended(a: string, rest: string)
    requires Lacks(a, EnDash)
    ensures Before(a + [EnDash] + rest, [EnDash]) == a
  {
    FindCharAfter(a, EnDash, rest);
    assert (a + [EnDash] + rest)[..|a|] == a;
  }

  /** With an en dash in `s`, the padded split gives the dates of `s` itself. */
  lemma PaddedSplitWithDash(s: string)
    requires Contains(s, [EnDash])
    ensures var padded := s + [EnDash, EnDash, '(', ')'];
      Before(padded, [EnDash]) == Before(s, [EnDash]) &&
      Before(After(padded, [EnDash]), [EnDash]) == Before(After(s, [EnDash]), [EnDash])
  {
    var pad := [EnDash, EnDash, '(', ')'];
    var padded := s + pad;
    var i := Find(s, [EnDash]).value;
    FirstCharKept(s, pad, EnDash);
    assert padded[..i] == s[..i];
    var tail := After(s, [EnDash]);
    assert After(padded, [EnDash]) == tail + pad by {
      assert padded[i + 1..] == s[i + 1..] + pad;
    }
    if Contains(tail, [EnDash]) {
      FirstCharKept(tail, pad, EnDash);
    } else {
      LacksBeforeFind(tail, EnDash);
      assert tail + pad == tail + [EnDash] + [EnDash, '(', ')'];
      BeforeDashAppended(tail, [EnDash, '(', ')']);
    }
  }

  /** Without a parenthesised group and without an en dash, the whole text is the from date. */
  lemma {:induction false} TimeDivideWithoutDuration(s: string)
    requires Lacks(s, '(') && Lacks(s, EnDash)
    ensures TimeDivide(s) == Some((Strip(s), "", ""))
  {
    assert forall i, j :: !GroupAt(s, i, j);
    PaddedSplit(s);
  }

  /** A lone year such as "2015" gives that year and two empty fields. */
  lemma TimeDivideYear(s: string)
    requires IsAllDigits(s)
    ensures TimeDivide(s) == Some((s, "", ""))
  {
    assert Lacks(s, '(') && Lacks(s, EnDash);
    TimeDivideWithoutDuration(s);
    StripOfStripped(s);
  }

  /** The group of a text with no '(' before a final "(d)" is that final group. */
  lemma TrailingGroupFound(pre: string, d: string)
    requires Lacks(pre, '(') && Lacks(d, ')') && Lacks(d, '\n')
    ensures Group(pre + "(" + d + ")") == Some((|pre|, |pre| + |d| + 1))
  {
    var s := pre + "(" + d + ")";
    var c := |pre| + |d| + 1;
    assert GroupAt(s, |pre|, c);
    assert forall i, j :: 0 <= i < |pre| ==> !GroupAt(s, i, j) by {
      forall i, j | 0 <= i < |pre| ensures !GroupAt(s, i, j) {
        assert s[i] == pre[i];
      }
    }
    forall k | |pre| < k < c ensures s[k] != ')' {
      assert s[k] == d[k - |pre| - 1];
    }
  }

  /** Removing a group that starts with the only '(' of the text leaves what came before it. */
  lemma {:induction false} ReplaceTrailing(pre: string, g: string)
    requires Lacks(pre, '(') && |g| > 0 && g[0] == '('
    ensures Replace(pre + g, g, "") == pre
  {
    var s := pre + g;
    forall k | 0 <= k < |pre| ensures !OccursAt(s, g, k) {
      assert s[k..k + |g|][0] == pre[k];
    }
    assert s[|pre|..|pre| + |g|] == g;
    FindAt(s, g, |pre|);
    assert s[|pre| + |g|..] == [];
    assert Split([], g) == [[]];
    assert s[..|pre|] == pre;
    assert Split(s, g) == [pre, []];
    assert Join([pre, []], "") == pre + "" + Join([[]], "");
  }

  /** Once the group, its text and the remaining text are known, the division is that of the remaining text. */
  lemma DivideAroundGroup(s: string, g: (nat, nat), t: string, d: string)
    requires Group(s) == Some(g) && Remaining(s, g) == t && s[g.0 + 1..g.1] == d
    ensures TimeDivide(s).Some? <==> Contains(t, [EnDash])
    ensures TimeDivide(s).Some? ==>
      TimeDivide(s).value == (Strip(Before(t, [EnDash])), Strip(Before(After(t, [EnDash]), [EnDash])), d)
  {
    assert TimeDivide(s) == DivideMatched(s, g);
  }

  /** What is left once a group that only occurs after `pre` is removed. */
  lemma RemainingIs(s: string, g: (nat, nat), pre: string)
    requires g.0 < g.1 < |s| && Replace(s, s[g.0..g.1 + 1], "") == pre
    ensures Remaining(s, g) == Strip(pre)
  {
  }

  lemma RemainingTrailing(pre: string, d: string)
    requires Lacks(pre, '(')
    ensures Remaining(pre + "(" + d + ")", (|pre|, |pre| + |d| + 1)) == Strip(pre)
  {
    var s := pre + "(" + d + ")";
    var g := "(" + d + ")";
    var grp := (|pre|, |pre| + |d| + 1);
    assert s == pre + g && s[grp.0..grp.1 + 1] == g;
    ReplaceTrailing(pre, g);
    RemainingIs(s, grp, pre);
  }

  /** A text ending in its only group is divided without that group. */
  lemma TrailingGroup(pre: string, d: string)
    requires Lacks(pre, '(') && Lacks(d, ')') && Lacks(d, '\n')
    ensures TimeDivide(pre + "(" + d + ")").Some? <==> Contains(Strip(pre), [EnDash])
    ensures TimeDivide(pre + "(" + d + ")").Some? ==>
      TimeDivide(pre + "(" + d + ")").value ==
        (Strip(Before(Strip(pre), [EnDash])), Strip(Before(After(Strip(pre), [EnDash]), [EnDash])), d)
  {
    var s := pre + "(" + d + ")";
    var c := |pre| + |d| + 1;
    RemainingTrailing(pre, d);
    TrailingGroupFound(pre, d);
    assert s[|pre| + 1..c] == d;
    DivideAroundGroup(s, (|pre|, c), Strip(pre), d);
  }

  /** The legacy page format "start – end (length)" gives start, end and length. */
  lemma {:induction false} RangeWithDuration(from: string, to: string, d: string)
    requires Trimmed(from) && Trimmed(to)
    requires Lacks(from, EnDash) && Lacks(to, EnDash) && Lacks(from, '(') && Lacks(to, '(')
    requires Lacks(d, ')') && Lacks(d, '\n')
    ensures TimeDivide(from + " " + [EnDash] + " " + to + " (" + d + ")") == Some((from, to, d))
  {
    var t := from + " " + [EnDash] + " " + to;
    var pre := t + " ";
    assert from + " " + [EnDash] + " " + to + " (" + d + ")" == pre + "(" + d + ")";
    assert Lacks(pre, '(') by {
      forall i | 0 <= i < |pre| ensures pre[i] != '(' {
        if i < |from| { assert pre[i] == from[i]; }
        else if |from| + 3 <= i < |t| { assert pre[i] == to[i - |from| - 3]; }
      }
    }
    assert Strip(pre) == t by {
      assert Trimmed(t) by {
        assert t[0] == from[0] && t[|t| - 1] == to[|to| - 1];
      }
      StripTrailingSpace(t);
    }
    assert Before(t, [EnDash]) == from + " " && After(t, [EnDash]) == " " + to by {
      assert t == (from + " ") + [EnDash] + (" " + to);
      assert Lacks(from + " ", EnDash) by {
        forall i | 0 <= i < |from| + 1 ensures (from + " ")[i] != EnDash {
          if i < |from| { assert (from + " ")[i] == from[i]; }
        }
      }
      FindCharAfter(from + " ", EnDash, " " + to);
    }
    assert Before(" " + to, [EnDash]) == " " + to by {
      assert Lacks(" " + to, EnDash) by {
        forall i | 0 <= i < |to| + 1 ensures (" " + to)[i] != EnDash {
          if i > 0 { assert (" " + to)[i] == to[i - 1]; }
        }
      }
      NotFoundWithout(" " + to, [EnDash], 0);
    }
    assert Contains(t, [EnDash]);
    StripTrailingSpace(from);
    StripLeadingSpace(to);
    TrailingGroup(pre, d);
  }

  /** The example "Jan 2015 – Present (3 yrs)". */
  lemma TimeDivideRange(s: string)
    requires s == "Jan 2015 \U{2013} Present (3 yrs)"
    ensures TimeDivide(s) == Some(("Jan 2015", "Present", "3 yrs"))
  {
    var from, to, d := "Jan 2015", "Present", "3 yrs";
    assert s == from + " " + [EnDash] + " " + to + " (" + d + ")";
    RangeWithDuration(from, to, d);
  }

  /** A group with no en dash left around it makes the source fail on `times[1]`. */
  lemma TimeDivideFailsWithoutDash(s: string)
    requires s == "2015 (1 yr)"
    ensures TimeDivide(s).None?
  {
    var t, d := "2015", "1 yr";
    var pre := t + " ";
    assert s == pre + "(" + d + ")";
    assert Lacks(pre, '(') && Lacks(d, ')') && Lacks(d, '\n');
    assert Strip(pre) == t by { StripTrailingSpace(t); }
    assert !Contains(t, [EnDash]) by { NotFoundWithout(t, [EnDash], 0); }
    TrailingGroup(pre, d);
  }
}
