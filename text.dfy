/**
 * The Python string operations the scraper relies on, written out over
 * `seq<char>`: `str.strip`, `str.rstrip(c)`, `in`, `startswith`,
 * `str.split(sep)`, `sep.join`, `str.replace`, `str.lower`, `str.isdigit`
 * and string repetition.  Digits and case are ASCII.
 */
module Text {
  import opened Wrappers

  /**
   * The characters Python's `str.isspace` accepts, which are also those
   * `str.strip()` removes and `\s` matches: the ASCII controls 9-13 and
   * 28-31, the space, and the separators above ASCII.
   */
  predicate IsSpace(c: char) {
    if c <= ' ' then '\t' <= c <= '\r' || '\U{001C}' <= c
    else '\U{0085}' <= c && IsWideSpace(c)
  }

  /** The whitespace characters above ASCII. */
  predicate IsWideSpace(c: char) {
    c == '\U{0085}' || c == '\U{00A0}' || c == '\U{1680}' || '\U{2000}' <= c <= '\U{200A}' ||
    c == '\U{2028}' || c == '\U{2029}' || c == '\U{202F}' || c == '\U{205F}' || c == '\U{3000}'
  }

  predicate IsDigit(c: char) {
    '0' <= c <= '9'
  }

  /** Python `s.isdigit()`: non-empty and every character a digit. */
  predicate IsAllDigits(s: string) {
    |s| > 0 && forall i :: 0 <= i < |s| ==> IsDigit(s[i])
  }

  function LStrip(s: string): (r: string)
    ensures |r| <= |s| && r == s[|s| - |r|..]
    ensures r == [] || !IsSpace(r[0])
    ensures forall i :: 0 <= i < |s| - |r| ==> IsSpace(s[i])
    decreases |s|
  {
    if |s| > 0 && IsSpace(s[0]) then LStrip(s[1..]) else s
  }

  function RStrip(s: string): (r: string)
    ensures |r| <= |s| && r == s[..|r|]
    ensures r == [] || !IsSpace(r[|r| - 1])
    ensures forall i :: |r| <= i < |s| ==> IsSpace(s[i])
    decreases |s|
  {
    if |s| > 0 && IsSpace(s[|s| - 1]) then RStrip(s[..|s| - 1]) else s
  }

  /** Python `s.strip()`. */
  function Strip(s: string): (r: string)
    ensures |r| <= |s|
    ensures r == [] || (!IsSpace(r[0]) && !IsSpace(r[|r| - 1]))
  {
    RStrip(LStrip(s))
  }

  /** A string without surrounding whitespace is its own strip. */
  lemma StripOfStripped(s: string)
    requires s == [] || (!IsSpace(s[0]) && !IsSpace(s[|s| - 1]))
    ensures Strip(s) == s
  {
  }

  lemma StripIdempotent(s: string)
    ensures Strip(Strip(s)) == Strip(s)
  {
    StripOfStripped(Strip(s));
  }

  /** Python `s.rstrip(c)` for a single character `c`. */
  function RStripChar(s: string, c: char): (r: string)
    ensures |r| <= |s| && r == s[..|r|]
    ensures r == [] || r[|r| - 1] != c
    ensures forall i :: |r| <= i < |s| ==> s[i] == c
    decreases |s|
  {
    if |s| > 0 && s[|s| - 1] == c then RStripChar(s[..|s| - 1], c) else s
  }

  predicate StartsWith(s: string, p: string) {
    |p| <= |s| && s[..|p|] == p
  }

  predicate EndsWith(s: string, p: string) {
    |p| <= |s| && s[|s| - |p|..] == p
  }

  /** Does `p` occur in `s` at index `i`? */
  predicate OccursAt(s: string, p: string, i: int) {
    0 <= i && i + |p| <= |s| && s[i..i + |p|] == p
  }

  lemma StartsWithSuffix(s: string, p: string, i: nat)
    requires i <= |s|
    ensures StartsWith(s[i..], p) <==> OccursAt(s, p, i)
  {
  }

  /** The index of the first occurrence of `p` in `s` (Python `s.find(p)`, with None for -1). */
  function Find(s: string, p: string): (r: Option<nat>)
    ensures r.Some? ==> OccursAt(s, p, r.value)
    ensures r.Some? ==> forall j :: 0 <= j < r.value ==> !OccursAt(s, p, j)
    ensures r.None? ==> forall j :: 0 <= j ==> !OccursAt(s, p, j)
    decreases |s|
  {
    if StartsWith(s, p) then Some(0)
    else if |s| == 0 then None
    else
      var rest := Find(s[1..], p);
      assert forall j :: 1 <= j ==> (OccursAt(s, p, j) <==> OccursAt(s[1..], p, j - 1)) by {
        forall j | 1 <= j ensures OccursAt(s, p, j) <==> OccursAt(s[1..], p, j - 1) {
          if j + |p| <= |s| {
            assert s[1..][j - 1..j - 1 + |p|] == s[j..j + |p|];
          }
        }
      }
      match rest
      case None => None
      case Some(k) => Some(k + 1)
  }

  /** The first occurrence is the one no earlier occurrence precedes. */
  lemma FindAt(s: string, p: string, i: nat)
    requires OccursAt(s, p, i)
    requires forall j :: 0 <= j < i ==> !OccursAt(s, p, j)
    ensures Find(s, p) == Some(i)
  {
  }

  /** `c` does not occur in `s`. */
  predicate Lacks(s: string, c: char) {
    forall i :: 0 <= i < |s| ==> s[i] != c
  }

  /** A pattern one of whose characters never occurs in `s` is not found in `s`. */
  lemma NotFoundWithout(s: string, p: string, k: nat)
    requires k < |p| && Lacks(s, p[k])
    ensures Find(s, p) == None
  {
  }

  /** A one-character separator is found right after a prefix that lacks it. */
  lemma FindCharAfter(a: string, c: char, rest: string)
    requires Lacks(a, c)
    ensures Find(a + [c] + rest, [c]) == Some(|a|)
  {
    var w := a + [c] + rest;
    assert w[|a|..|a| + 1] == [c];
    forall j | 0 <= j < |a| ensures !OccursAt(w, [c], j) {
      assert w[j..j + 1][0] == a[j];
    }
    FindAt(w, [c], |a|);
  }

  /** `s` is non-empty and has no surrounding whitespace. */
  predicate Trimmed(s: string) {
    |s| > 0 && !IsSpace(s[0]) && !IsSpace(s[|s| - 1])
  }

  predicate AllSpace(s: string) {
    forall i :: 0 <= i < |s| ==> IsSpace(s[i])
  }

  /** Stripping removes exactly the whitespace around a trimmed text. */
  lemma StripAround(pre: string, s: string, post: string)
    requires AllSpace(pre) && AllSpace(post) && Trimmed(s)
    ensures Strip(pre + s + post) == s
    decreases |pre| + |post|
  {
    var w := pre + s + post;
    if |pre| > 0 {
      assert IsSpace(w[0]);
      assert w[1..] == pre[1..] + s + post;
      StripAround(pre[1..], s, post);
      assert LStrip(w) == LStrip(w[1..]);
    } else if |post| > 0 {
      var v := pre + s + post[..|post| - 1];
      StripAround(pre, s, post[..|post| - 1]);
      assert w == s + post;
      assert LStrip(w) == w;
      assert LStrip(v) == v;
      assert w[..|w| - 1] == v;
      assert IsSpace(w[|w| - 1]);
      assert RStrip(w) == RStrip(v);
    } else {
      assert w == s;
    }
  }

  lemma StripLeadingSpace(s: string)
    requires Trimmed(s)
    ensures Strip(" " + s) == s
  {
    StripAround(" ", s, "");
    assert " " + s + "" == " " + s;
  }

  lemma StripTrailingSpace(s: string)
    requires Trimmed(s)
    ensures Strip(s + " ") == s
  {
    StripAround("", s, " ");
    assert "" + s + " " == s + " ";
  }

  /** Python `p in s`. */
  predicate Contains(s: string, p: string) {
    Find(s, p).Some?
  }

  lemma ContainsAt(s: string, p: string, i: int)
    requires OccursAt(s, p, i)
    ensures Contains(s, p)
  {
  }

  lemma ContainsPrefix(s: string, p: string, t: string)
    requires Contains(s, p)
    ensures Contains(s + t, p)
  {
    var i := Find(s, p).value;
    assert (s + t)[i..i + |p|] == s[i..i + |p|];
    ContainsAt(s + t, p, i);
  }

  /** `m` is the part of `s` that starts at index `a`. */
  predicate SliceAt(s: string, m: string, a: nat) {
    a + |m| <= |s| && forall k :: 0 <= k < |m| ==> m[k] == s[a + k]
  }

  /** `Strip(t)` is a part of `t` with only whitespace around it. */
  lemma StripSlice(t: string) returns (a: nat)
    ensures SliceAt(t, Strip(t), a)
    ensures forall j :: 0 <= j < a ==> IsSpace(t[j])
    ensures forall j :: a + |Strip(t)| <= j < |t| ==> IsSpace(t[j])
  {
    var l := LStrip(t);
    a := |t| - |l|;
    var r := RStrip(l);
    assert Strip(t) == r;
    assert l == t[a..] && r == l[..|r|];
    forall k | 0 <= k < |r| ensures r[k] == t[a + k] {
      assert r[k] == l[k];
    }
    forall j | a + |r| <= j < |t| ensures IsSpace(t[j]) {
      assert t[j] == l[j - a];
      assert |r| <= j - a < |l|;
    }
  }

  /** An occurrence whose ends are not whitespace lies inside the non-blank middle `m`. */
  lemma OccurrenceInMiddle(s: string, m: string, p: string, a: nat, i: nat)
    requires SliceAt(s, m, a) && |p| > 0 && !IsSpace(p[0]) && !IsSpace(p[|p| - 1])
    requires forall j :: 0 <= j < a ==> IsSpace(s[j])
    requires forall j :: a + |m| <= j < |s| ==> IsSpace(s[j])
    requires OccursAt(s, p, i)
    ensures a <= i && OccursAt(m, p, i - a)
  {
    assert s[i] == s[i..i + |p|][0] == p[0];
    assert s[i + |p| - 1] == s[i..i + |p|][|p| - 1] == p[|p| - 1];
    assert a <= i && i + |p| <= a + |m|;
    forall k | 0 <= k < |p| ensures m[i - a + k] == p[k] {
      assert s[i + k] == s[i..i + |p|][k];
    }
  }

  /** An occurrence in a part of a string is one in the whole string, shifted. */
  lemma OccurrenceInSlice(s: string, m: string, p: string, a: nat, i: nat)
    requires SliceAt(s, m, a) && OccursAt(m, p, i)
    ensures OccursAt(s, p, a + i)
  {
    forall k | 0 <= k < |p| ensures s[a + i + k] == p[k] {
      assert m[i + k] == m[i..i + |p|][k];
    }
  }

  /** Dropping whitespace around a marker whose ends are not whitespace loses no occurrence of it. */
  lemma MiddleKeepsOccurrence(s: string, m: string, p: string, a: nat)
    requires SliceAt(s, m, a) && |p| > 0 && !IsSpace(p[0]) && !IsSpace(p[|p| - 1])
    requires forall j :: 0 <= j < a ==> IsSpace(s[j])
    requires forall j :: a + |m| <= j < |s| ==> IsSpace(s[j])
    ensures Contains(s, p) <==> Contains(m, p)
  {
    match Find(s, p)
    case Some(i) =>
      OccurrenceInMiddle(s, m, p, a, i);
      ContainsAt(m, p, i - a);
    case None =>
      match Find(m, p)
      case Some(i) =>
        OccurrenceInSlice(s, m, p, a, i);
        ContainsAt(s, p, a + i);
      case None =>
  }

  /** Stripping keeps exactly the occurrences of a marker that has no whitespace at its ends. */
  lemma StripKeepsMarker(t: string, p: string)
    requires |p| > 0 && !IsSpace(p[0]) && !IsSpace(p[|p| - 1])
    ensures Contains(t, p) <==> Contains(Strip(t), p)
  {
    var a := StripSlice(t);
    MiddleKeepsOccurrence(t, Strip(t), p, a);
  }

  /** Stripping keeps only characters of the text. */
  lemma StripKeepsLack(t: string, c: char)
    requires Lacks(t, c)
    ensures Lacks(Strip(t), c)
  {
    var a := StripSlice(t);
  }

  /** Stripping adds no occurrence of a character. */
  lemma StripKeepsAbsence(t: string, c: char)
    requires !Contains(t, [c])
    ensures !Contains(Strip(t), [c])
  {
    var a := StripSlice(t);
    match Find(Strip(t), [c])
    case Some(i) =>
      OccurrenceInSlice(t, Strip(t), [c], a, i);
      ContainsAt(t, [c], a + i);
    case None =>
  }

  /** The text before the first `sep`, or all of `s` when `sep` does not occur. */
  function Before(s: string, sep: string): (r: string)
    ensures |r| <= |s| && r == s[..|r|]
  {
    match Find(s, sep)
    case None => s
    case Some(i) => s[..i]
  }

  /** The text after the first `sep`, or "" when `sep` does not occur. */
  function After(s: string, sep: string): (r: string)
    ensures |r| <= |s|
  {
    match Find(s, sep)
    case None => []
    case Some(i) => s[i + |sep|..]
  }

  /** Python `s.split(sep)` for a non-empty separator. */
  function Split(s: string, sep: string): (r: seq<string>)
    requires |sep| > 0
    ensures |r| >= 1
    decreases |s|
  {
    match Find(s, sep)
    case None => [s]
    case Some(i) => [s[..i]] + Split(s[i + |sep|..], sep)
  }

  /** Python `sep.join(parts)`. */
  function Join(parts: seq<string>, sep: string): string {
    if |parts| == 0 then []
    else if |parts| == 1 then parts[0]
    else parts[0] + sep + Join(parts[1..], sep)
  }

  /** Python `s.replace(target, replacement)` for a non-empty `target`. */
  function Replace(s: string, target: string, replacement: string): string
    requires |target| > 0
  {
    Join(Split(s, target), replacement)
  }

  /** The first piece of a split is the text before the first separator. */
  lemma SplitHead(s: string, sep: string)
    requires |sep| > 0
    ensures Split(s, sep)[0] == Before(s, sep)
  {
  }

  /** A split has more than one piece exactly when the separator occurs. */
  lemma SplitMany(s: string, sep: string)
    requires |sep| > 0
    ensures |Split(s, sep)| > 1 <==> Contains(s, sep)
    ensures Contains(s, sep) ==> Split(s, sep)[1] == Before(After(s, sep), sep)
  {
  }

  /** Joining the pieces of a split with the same separator gives the string back. */
  lemma {:induction false} JoinSplit(s: string, sep: string)
    requires |sep| > 0
    ensures Join(Split(s, sep), sep) == s
    decreases |s|
  {
    match Find(s, sep)
    case None =>
    case Some(i) =>
      var rest := s[i + |sep|..];
      var parts := Split(rest, sep);
      assert Split(s, sep) == [s[..i]] + parts;
      JoinSplit(rest, sep);
      assert Join([s[..i]] + parts, sep) == s[..i] + sep + Join(parts, sep) by {
        assert ([s[..i]] + parts)[1..] == parts;
      }
      assert s == s[..i] + s[i..i + |sep|] + rest;
  }

  /** A piece before the first occurrence holds no occurrence. */
  lemma BeforeHasNoSep(s: string, sep: string)
    requires |sep| > 0
    ensures !Contains(Before(s, sep), sep)
  {
    var b := Before(s, sep);
    if Contains(b, sep) {
      var j := Find(b, sep).value;
      assert b[j..j + |sep|] == s[j..j + |sep|];
      assert OccursAt(s, sep, j);
      assert false;
    }
  }

  /** No piece of a split contains the separator. */
  lemma {:induction false} SplitPiecesHaveNoSep(s: string, sep: string, k: nat)
    requires |sep| > 0 && k < |Split(s, sep)|
    ensures !Contains(Split(s, sep)[k], sep)
    decreases |s|
  {
    BeforeHasNoSep(s, sep);
    match Find(s, sep)
    case None =>
    case Some(i) =>
      if k > 0 {
        SplitPiecesHaveNoSep(s[i + |sep|..], sep, k - 1);
      }
  }

  /** Splitting text joined on a character its pieces lack gives the pieces back. */
  lemma {:induction false} SplitJoin(parts: seq<string>, c: char)
    requires |parts| >= 1 && forall k :: 0 <= k < |parts| ==> Lacks(parts[k], c)
    ensures Split(Join(parts, [c]), [c]) == parts
    decreases |parts|
  {
    if |parts| == 1 {
      NotFoundWithout(parts[0], [c], 0);
    } else {
      var rest := Join(parts[1..], [c]);
      assert Join(parts, [c]) == parts[0] + [c] + rest;
      FindCharAfter(parts[0], c, rest);
      assert (parts[0] + [c] + rest)[..|parts[0]|] == parts[0];
      assert (parts[0] + [c] + rest)[|parts[0]| + 1..] == rest;
      SplitJoin(parts[1..], c);
      assert parts == [parts[0]] + parts[1..];
    }
  }

  /** Pieces of a split are pieces of the text: a character the text lacks, they lack. */
  lemma {:induction false} SplitPiecesLack(s: string, sep: string, c: char, k: nat)
    requires |sep| > 0 && Lacks(s, c) && k < |Split(s, sep)|
    ensures Lacks(Split(s, sep)[k], c)
    decreases |s|
  {
    if Find(s, sep).Some? {
      var i := Find(s, sep).value;
      SplitStep(s, sep, i);
      var rest := s[i + |sep|..];
      if k > 0 {
        assert Lacks(rest, c) by {
          forall j | 0 <= j < |rest| ensures rest[j] != c {
            assert rest[j] == s[i + |sep| + j];
          }
        }
        SplitPiecesLack(rest, sep, c, k - 1);
      }
    }
  }

  /** `s` without any `c` (Python `s.replace(c, "")`, see ReplaceRemoves). */
  function RemoveChar(s: string, c: char): (r: string)
    ensures |r| <= |s| && Lacks(r, c)
  {
    if |s| == 0 then []
    else (if s[0] == c then [] else [s[0]]) + RemoveChar(s[1..], c)
  }

  lemma {:induction false} RemoveCharAppend(a: string, b: string, c: char)
    ensures RemoveChar(a + b, c) == RemoveChar(a, c) + RemoveChar(b, c)
    decreases |a|
  {
    if |a| > 0 {
      assert (a + b)[1..] == a[1..] + b;
      RemoveCharAppend(a[1..], b, c);
    } else {
      assert a + b == b;
    }
  }

  lemma {:induction false} RemoveCharLacking(s: string, c: char)
    requires Lacks(s, c)
    ensures RemoveChar(s, c) == s
    decreases |s|
  {
    if |s| > 0 {
      RemoveCharLacking(s[1..], c);
    }
  }

  /** Before the first occurrence of a character there is none; without one, the text lacks it. */
  lemma LacksBeforeFind(s: string, c: char)
    ensures Find(s, [c]).None? ==> Lacks(s, c)
    ensures Find(s, [c]).Some? ==> Find(s, [c]).value < |s| && Lacks(s[..Find(s, [c]).value], c)
  {
    forall i | 0 <= i < |s| && s[i] == c ensures OccursAt(s, [c], i) {
      assert s[i..i + 1] == [c];
    }
  }

  /** A split unfolds at the first separator. */
  lemma {:induction false} SplitStep(s: string, sep: string, i: nat)
    requires |sep| > 0 && Find(s, sep) == Some(i)
    ensures i + |sep| <= |s| && Split(s, sep) == [s[..i]] + Split(s[i + |sep|..], sep)
  {
    assert i + |sep| <= |s| by { assert OccursAt(s, sep, i); }
    assert Split(s, sep) == [s[..i]] + Split(s[i + |sep|..], sep);
  }

  lemma JoinCons(x: string, parts: seq<string>, sep: string)
    requires |parts| >= 1
    ensures Join([x] + parts, sep) == x + sep + Join(parts, sep)
  {
    assert ([x] + parts)[1..] == parts;
  }

  /** One step of `replace(c, "")`: the text up to the first `c`, then the rest replaced. */
  lemma ReplaceStep(s: string, c: char, i: nat)
    requires Find(s, [c]) == Some(i)
    ensures i < |s| && Replace(s, [c], "") == s[..i] + Replace(s[i + 1..], [c], "")
  {
    SplitStep(s, [c], i);
    JoinCons(s[..i], Split(s[i + 1..], [c]), "");
  }

  /** Removing `c` around one of its occurrences. */
  lemma RemoveCharAround(s: string, c: char, i: nat)
    requires i < |s| && s[i] == c
    ensures RemoveChar(s, c) == RemoveChar(s[..i], c) + RemoveChar(s[i + 1..], c)
  {
    assert s == s[..i] + ([c] + s[i + 1..]);
    RemoveCharAppend(s[..i], [c] + s[i + 1..], c);
    RemoveCharAppend([c], s[i + 1..], c);
    assert RemoveChar([c], c) == [];
  }

  /** Replacing a character by nothing removes every occurrence of it. */
  lemma {:induction false} ReplaceRemoves(s: string, c: char)
    ensures Replace(s, [c], "") == RemoveChar(s, c)
    decreases |s|
  {
    LacksBeforeFind(s, c);
    if Find(s, [c]).None? {
      RemoveCharLacking(s, c);
    } else {
      var i := Find(s, [c]).value;
      ReplaceStep(s, c, i);
      ReplaceRemoves(s[i + 1..], c);
      RemoveCharLacking(s[..i], c);
      assert OccursAt(s, [c], i);
      assert s[i] == s[i..i + 1][0];
      RemoveCharAround(s, c, i);
    }
  }

  /** Removing a character that is not a digit keeps every digit. */
  lemma {:induction false} RemoveCharKeepsDigits(s: string, c: char)
    requires !IsDigit(c)
    ensures DigitCount(RemoveChar(s, c)) == DigitCount(s)
    decreases |s|
  {
    if |s| > 0 {
      RemoveCharKeepsDigits(s[1..], c);
      var head := if s[0] == c then [] else [s[0]];
      DigitCountAppend(head, RemoveChar(s[1..], c));
    }
  }

  lemma {:induction false} DigitCountAppend(a: string, b: string)
    ensures DigitCount(a + b) == DigitCount(a) + DigitCount(b)
    decreases |a|
  {
    if |a| > 0 {
      assert (a + b)[1..] == a[1..] + b;
      DigitCountAppend(a[1..], b);
    } else {
      assert a + b == b;
    }
  }

  function LowerChar(c: char): char {
    if 'A' <= c <= 'Z' then (c as int + 32) as char else c
  }

  /** Python `s.lower()` over ASCII letters. */
  function Lower(s: string): (r: string)
    ensures |r| == |s|
    ensures forall i :: 0 <= i < |s| ==> r[i] == LowerChar(s[i])
  {
    seq(|s|, i requires 0 <= i < |s| => LowerChar(s[i]))
  }

  /** Python's `any(p in s for p in pats)`. */
  predicate MentionsAny(s: string, pats: seq<string>) {
    exists k :: 0 <= k < |pats| && Contains(s, pats[k])
  }

  /** Python `str(c) * n`, which is "" for `n <= 0`. */
  function Repeat(c: char, n: int): (r: string)
    ensures |r| == if n <= 0 then 0 else n
    ensures forall i :: 0 <= i < |r| ==> r[i] == c
  {
    if n <= 0 then [] else seq(n, _ => c)
  }

  /** The number of digit characters in `s` (Python `sum(c.isdigit() for c in s)`). */
  function DigitCount(s: string): (n: nat)
    ensures n <= |s|
    ensures n > 0 <==> exists i :: 0 <= i < |s| && IsDigit(s[i])
  {
    if |s| == 0 then 0
    else
      var rest := DigitCount(s[1..]);
      assert forall i :: 1 <= i < |s| ==> s[i] == s[1..][i - 1];
      (if IsDigit(s[0]) then 1 else 0) + rest
  }

  function DigitValue(c: char): nat
    requires IsDigit(c)
  {
    c as int - '0' as int
  }

  /** Python `int(d)` for a string of ASCII digits. */
  function DecimalValue(d: string): nat
    requires forall i :: 0 <= i < |d| ==> IsDigit(d[i])
    decreases |d|
  {
    if |d| == 0 then 0 else 10 * DecimalValue(d[..|d| - 1]) + DigitValue(d[|d| - 1])
  }

  function DigitChar(k: nat): (c: char)
    requires k < 10
    ensures IsDigit(c) && DigitValue(c) == k
  {
    ('0' as int + k) as char
  }

  /** `str(n)`: the decimal digits of `n`, without leading zeros. */
  function Decimal(n: nat): (r: string)
    ensures |r| > 0 && forall i :: 0 <= i < |r| ==> IsDigit(r[i])
  {
    if n < 10 then [DigitChar(n)] else Decimal(n / 10) + [DigitChar(n % 10)]
  }

  /** Reading back the decimal text of a number gives the number. */
  lemma {:induction false} DecimalRoundTrip(n: nat)
    ensures DecimalValue(Decimal(n)) == n
  {
    if n >= 10 {
      DecimalRoundTrip(n / 10);
      var d := Decimal(n);
      assert d[..|d| - 1] == Decimal(n / 10);
    }
  }
}
