/** The Python string built-ins the core relies on: `str.strip`, `str.split`,
    `str.lower`, `str.rstrip`/`lstrip` with one character, `in` on strings,
    `str(int)`, `"sep".join`, and the two regular expressions of the chunker
    (`\s+` collapsing is `Collapse`; the sentence split lives in Chunker). */
module Text {

  /** Python's `str.isspace()`: the characters that `strip()`, `split()` and
      the regular expression class `\s` all treat as whitespace. */
  predicate IsSpace(c: char) {
    c == ' ' || c == '\t' || c == '\n' || c == '\r' || c == '\U{0b}' || c == '\U{0c}'
    || ('\U{1c}' <= c <= '\U{1f}') || c == '\U{85}' || c == '\U{a0}' || c == '\U{1680}'
    || ('\U{2000}' <= c <= '\U{200a}') || c == '\U{2028}' || c == '\U{2029}'
    || c == '\U{202f}' || c == '\U{205f}' || c == '\U{3000}'
  }

  /** No whitespace at all: one "word" in the sense of `str.split()`. */
  predicate NoSpace(s: string) {
    forall i :: 0 <= i < |s| ==> !IsSpace(s[i])
  }

  /** `s.lstrip()`: drops the leading whitespace run. */
  function StripStart(s: string): (r: string)
    ensures |r| <= |s| && r == s[|s| - |r|..]
    ensures r == [] || !IsSpace(r[0])
    ensures forall i :: 0 <= i < |s| - |r| ==> IsSpace(s[i])
  {
    if s != [] && IsSpace(s[0]) then StripStart(s[1..]) else s
  }

  /** `s.rstrip()`: drops the trailing whitespace run. */
  function StripEnd(s: string): (r: string)
    ensures |r| <= |s| && r == s[..|r|]
    ensures r == [] || !IsSpace(r[|r| - 1])
    ensures forall i :: |r| <= i < |s| ==> IsSpace(s[i])
  {
    if s != [] && IsSpace(s[|s| - 1]) then StripEnd(s[..|s| - 1]) else s
  }

  /** `s.strip()`: empty exactly when `s` is blank; otherwise it starts and
      ends with a non-space character. */
  function Strip(s: string): (r: string)
    ensures |r| <= |s|
    ensures r == [] <==> forall i :: 0 <= i < |s| ==> IsSpace(s[i])
    ensures r != [] ==> !IsSpace(r[0]) && !IsSpace(r[|r| - 1])
  {
    var a := StripStart(s);
    assert a != [] ==> a[0] == s[|s| - |a|];
    StripEnd(a)
  }

  /** `re.sub(r"\s+", " ", s)`: every maximal whitespace run becomes one space. */
  function Collapse(s: string): string
    decreases |s|
  {
    if s == [] then []
    else if IsSpace(s[0]) then " " + Collapse(StripStart(s))
    else [s[0]] + Collapse(s[1..])
  }

  /** The chunker's cleaning step `re.sub(r"\s+", " ", text.strip())`. */
  function Normalize(s: string): string {
    Collapse(Strip(s))
  }

  /** The shape of normalized text: the only whitespace is a single ' '
      strictly inside the text and followed by a non-space character. */
  predicate Normalized(t: string) {
    forall i :: 0 <= i < |t| && IsSpace(t[i]) ==> t[i] == ' ' && 0 < i < |t| - 1 && !IsSpace(t[i + 1])
  }

  lemma {:induction false} CollapseEnds(s: string)
    ensures Collapse(s) == [] <==> s == []
    ensures s != [] ==> (IsSpace(Collapse(s)[0]) <==> IsSpace(s[0]))
    ensures s != [] ==> (IsSpace(Collapse(s)[|Collapse(s)| - 1]) <==> IsSpace(s[|s| - 1]))
    decreases |s|
  {
    if s == [] {
    } else if IsSpace(s[0]) {
      var t := StripStart(s);
      CollapseEnds(t);
      assert Collapse(s) == " " + Collapse(t);
      if t != [] {
        assert t[|t| - 1] == s[|s| - 1];
      } else {
        assert IsSpace(s[|s| - 1]);
      }
    } else {
      CollapseEnds(s[1..]);
      assert Collapse(s) == [s[0]] + Collapse(s[1..]);
    }
  }

  /** Every whitespace character `Collapse` leaves is a single ' '. */
  lemma {:induction false} CollapseSingleSpaces(s: string)
    ensures forall i :: 0 <= i < |Collapse(s)| && IsSpace(Collapse(s)[i]) ==>
              Collapse(s)[i] == ' ' && (i + 1 < |Collapse(s)| ==> !IsSpace(Collapse(s)[i + 1]))
    decreases |s|
  {
    if s == [] {
    } else if IsSpace(s[0]) {
      var t := StripStart(s);
      var c := Collapse(t);
      CollapseSingleSpaces(t);
      CollapseEnds(t);
      assert Collapse(s) == " " + c;
      forall i | 0 <= i < |Collapse(s)| && IsSpace(Collapse(s)[i])
        ensures Collapse(s)[i] == ' ' && (i + 1 < |Collapse(s)| ==> !IsSpace(Collapse(s)[i + 1]))
      {
        if i > 0 {
          assert Collapse(s)[i] == c[i - 1];
        }
      }
    } else {
      var c := Collapse(s[1..]);
      CollapseSingleSpaces(s[1..]);
      assert Collapse(s) == [s[0]] + c;
      forall i | 0 <= i < |Collapse(s)| && IsSpace(Collapse(s)[i])
        ensures Collapse(s)[i] == ' ' && (i + 1 < |Collapse(s)| ==> !IsSpace(Collapse(s)[i + 1]))
      {
        assert Collapse(s)[i] == c[i - 1];
      }
    }
  }

  /** Cleaning always produces normalized text, and produces the empty string
      exactly for blank input. */
  lemma NormalizeShape(s: string)
    ensures Normalized(Normalize(s))
    ensures Normalize(s) == [] <==> Strip(s) == []
    ensures Normalize(s) == [] <==> forall i :: 0 <= i < |s| ==> IsSpace(s[i])
  {
    var x := Strip(s);
    CollapseEnds(x);
    CollapseSingleSpaces(x);
    var c := Collapse(x);
    forall i | 0 <= i < |c| && IsSpace(c[i])
      ensures c[i] == ' ' && 0 < i < |c| - 1 && !IsSpace(c[i + 1])
    {
    }
  }

  /** A normalized text is left unchanged by `strip()`. */
  lemma StripNormalized(t: string)
    requires Normalized(t)
    ensures Strip(t) == t
  {
    if t != [] {
      assert !IsSpace(t[0]);
      assert !IsSpace(t[|t| - 1]);
    }
  }

  lemma NormalizedPrefix(t: string, k: nat)
    requires Normalized(t) && k <= |t|
    requires k == 0 || !IsSpace(t[k - 1])
    ensures Normalized(t[..k])
  {
    var p := t[..k];
    forall i | 0 <= i < |p| && IsSpace(p[i])
      ensures p[i] == ' ' && 0 < i < |p| - 1 && !IsSpace(p[i + 1])
    {
      assert p[i] == t[i];
    }
  }

  lemma NormalizedSuffix(t: string, k: nat)
    requires Normalized(t) && k <= |t|
    requires k == |t| || !IsSpace(t[k])
    ensures Normalized(t[k..])
  {
    var p := t[k..];
    forall i | 0 <= i < |p| && IsSpace(p[i])
      ensures p[i] == ' ' && 0 < i < |p| - 1 && !IsSpace(p[i + 1])
    {
      assert p[i] == t[k + i];
    }
  }

  /** Joining two non-empty normalized texts with one space is normalized. */
  lemma NormalizedJoin2(a: string, b: string)
    requires Normalized(a) && Normalized(b) && a != [] && b != []
    ensures Normalized(a + " " + b)
  {
    var t := a + " " + b;
    assert !IsSpace(a[|a| - 1]) && !IsSpace(b[0]);
    forall i | 0 <= i < |t| && IsSpace(t[i])
      ensures t[i] == ' ' && 0 < i < |t| - 1 && !IsSpace(t[i + 1])
    {
      if i < |a| {
        assert t[i] == a[i];
        if i + 1 < |a| { assert t[i + 1] == a[i + 1]; }
      } else if i > |a| {
        assert t[i] == b[i - |a| - 1];
        assert t[i + 1] == b[i - |a|];
      }
    }
  }

  /** The longest whitespace-free prefix. */
  function WordPrefix(s: string): (w: string)
    ensures |w| <= |s| && w == s[..|w|]
    ensures NoSpace(w)
    ensures |w| < |s| ==> IsSpace(s[|w|])
    ensures s != [] && !IsSpace(s[0]) ==> w != []
  {
    if s == [] || IsSpace(s[0]) then [] else [s[0]] + WordPrefix(s[1..])
  }

  /** `s.split()` with no argument: the maximal whitespace-free runs, in order. */
  function Words(s: string): (ws: seq<string>)
    ensures forall k :: 0 <= k < |ws| ==> ws[k] != [] && NoSpace(ws[k])
    decreases |s|
  {
    var t := StripStart(s);
    if t == [] then []
    else
      var w := WordPrefix(t);
      [w] + Words(t[|w|..])
  }

  /** `sep.join(ws)`. */
  function Join(ws: seq<string>, sep: string): string {
    if ws == [] then [] else if |ws| == 1 then ws[0] else ws[0] + sep + Join(ws[1..], sep)
  }

  lemma {:induction false} JoinAppend(a: seq<string>, b: seq<string>, sep: string)
    requires a != [] && b != []
    ensures Join(a + b, sep) == Join(a, sep) + sep + Join(b, sep)
    decreases |a|
  {
    if |a| == 1 {
      assert (a + b)[1..] == b;
    } else {
      assert (a + b)[1..] == a[1..] + b;
      JoinAppend(a[1..], b, sep);
    }
  }

  /** Joining non-empty normalized pieces with single spaces is normalized. */
  lemma {:induction false} NormalizedJoin(ws: seq<string>)
    requires forall k :: 0 <= k < |ws| ==> ws[k] != [] && Normalized(ws[k])
    ensures Normalized(Join(ws, " "))
    ensures ws != [] ==> Join(ws, " ") != []
    decreases |ws|
  {
    if |ws| > 1 {
      NormalizedJoin(ws[1..]);
      NormalizedJoin2(ws[0], Join(ws[1..], " "));
    }
  }

  lemma SplitAround(c: string, k: nat)
    requires k < |c|
    ensures c == c[..k] + [c[k]] + c[k + 1..]
  {
  }

  lemma WordsStep(c: string)
    requires c != [] && !IsSpace(c[0])
    ensures Words(c) == [WordPrefix(c)] + Words(c[|WordPrefix(c)|..])
  {
    assert StripStart(c) == c;
  }

  lemma WordsSkipSpace(x: string)
    requires x != [] && IsSpace(x[0])
    ensures Words(x) == Words(x[1..])
  {
    assert StripStart(x) == StripStart(x[1..]);
  }

  lemma WordsJoinCons(c: string, rest: string)
    requires Normalized(c) && c != []
    requires |WordPrefix(c)| < |c| && rest == c[|WordPrefix(c)| + 1..]
    requires Join(Words(rest), " ") == rest
    ensures Join(Words(c), " ") == c
  {
    assert !IsSpace(c[0]);
    WordsStep(c);
    var w := WordPrefix(c);
    var k := |w|;
    assert c[k] == ' ' && !IsSpace(c[k + 1]);
    assert c[k..][1..] == rest;
    WordsSkipSpace(c[k..]);
    WordsStep(rest);
    assert Words(c) == [w] + Words(rest);
    SplitAround(c, k);
  }

  /** After the first word of a normalized text with more than one word comes
      exactly one space, and the rest is normalized again. */
  lemma WordsJoinRest(c: string)
    requires Normalized(c) && c != [] && |WordPrefix(c)| < |c|
    ensures |WordPrefix(c)| + 1 < |c| && Normalized(c[|WordPrefix(c)| + 1..])
  {
    var k := |WordPrefix(c)|;
    assert !IsSpace(c[0]);
    assert c[k] == ' ' && !IsSpace(c[k + 1]);
    NormalizedSuffix(c, k + 1);
  }

  /** Splitting a normalized text on whitespace and joining the words with
      single spaces gives the text back. */
  lemma {:induction false} WordsJoin(c: string)
    requires Normalized(c)
    ensures Join(Words(c), " ") == c
    decreases |c|
  {
    if c != [] {
      var k := |WordPrefix(c)|;
      if k < |c| {
        WordsJoinRest(c);
        var rest := c[k + 1..];
        WordsJoin(rest);
        WordsJoinCons(c, rest);
      } else {
        WordsJoinSingle(c);
      }
    }
  }

  lemma WordsJoinSingle(c: string)
    requires c != [] && !IsSpace(c[0]) && |WordPrefix(c)| == |c|
    ensures Join(Words(c), " ") == c
  {
    WordsStep(c);
    assert c[|c|..] == [];
  }

  /** `sub in s`. */
  predicate Contains(s: string, sub: string)
    decreases |s|
  {
    |sub| <= |s| && (s[..|sub|] == sub || (s != [] && Contains(s[1..], sub)))
  }

  /** Whatever surrounds it, a string holding `sub` contains it. */
  lemma {:induction false} ContainsInfix(a: string, sub: string, b: string)
    ensures Contains(a + sub + b, sub)
    decreases |a|
  {
    var s := a + sub + b;
    if a == [] {
      assert s[..|sub|] == sub;
    } else {
      assert s[1..] == a[1..] + sub + b;
      ContainsInfix(a[1..], sub, b);
    }
  }

  /** Text put in front of a string keeps what it contains. */
  lemma {:induction false} ContainsAfter(a: string, s: string, sub: string)
    requires Contains(s, sub)
    ensures Contains(a + s, sub)
    decreases |a|
  {
    if a == [] {
      assert a + s == s;
    } else {
      assert (a + s)[1..] == a[1..] + s;
      ContainsAfter(a[1..], s, sub);
    }
  }

  /** `s.startswith(p)`. */
  predicate StartsWith(s: string, p: string) {
    |p| <= |s| && s[..|p|] == p
  }

  lemma StartsWithExtend(p: string, q: string, s: string)
    requires StartsWith(s, p + q)
    ensures StartsWith(s, p)
  {
    assert s[..|p|] == (p + q)[..|p|];
  }

  /** `c.lower()` on ASCII letters; other characters are kept. */
  function LowerChar(c: char): char {
    if 'A' <= c <= 'Z' then (c as int + 32) as char else c
  }

  /** `s.lower()` (ASCII case mapping). */
  function Lower(s: string): (r: string)
    ensures |r| == |s| && forall i :: 0 <= i < |s| ==> r[i] == LowerChar(s[i])
  {
    seq(|s|, i requires 0 <= i < |s| => LowerChar(s[i]))
  }

  /** `s.rstrip(c)`: removes every trailing `c`. */
  function RStrip(s: string, c: char): (r: string)
    ensures |r| <= |s| && r == s[..|r|]
    ensures r == [] || r[|r| - 1] != c
    ensures forall i :: |r| <= i < |s| ==> s[i] == c
  {
    if s != [] && s[|s| - 1] == c then RStrip(s[..|s| - 1], c) else s
  }

  /** `s.lstrip(c)`: removes every leading `c`. */
  function LStrip(s: string, c: char): (r: string)
    ensures |r| <= |s| && r == s[|s| - |r|..]
    ensures r == [] || r[0] != c
    ensures forall i :: 0 <= i < |s| - |r| ==> s[i] == c
  {
    if s != [] && s[0] == c then LStrip(s[1..], c) else s
  }

  function SplitFrom(s: string, sep: char, cur: string): (parts: seq<string>)
    ensures parts != []
    decreases |s|
  {
    if s == [] then [cur]
    else if s[0] == sep then [cur] + SplitFrom(s[1..], sep, [])
    else SplitFrom(s[1..], sep, cur + [s[0]])
  }

  /** `s.split(sep)` with an explicit one-character separator: empty pieces
      are kept, so there is always at least one piece. */
  function SplitOn(s: string, sep: char): (parts: seq<string>)
    ensures parts != []
  {
    SplitFrom(s, sep, [])
  }

  lemma {:induction false} SplitFromJoin(s: string, sep: char, cur: string)
    requires sep !in cur
    ensures Join(SplitFrom(s, sep, cur), [sep]) == cur + s
    ensures forall k :: 0 <= k < |SplitFrom(s, sep, cur)| ==> sep !in SplitFrom(s, sep, cur)[k]
    decreases |s|
  {
    if s == [] {
    } else if s[0] == sep {
      SplitFromJoin(s[1..], sep, []);
      assert s == [sep] + s[1..];
    } else {
      SplitFromJoin(s[1..], sep, cur + [s[0]]);
      assert cur + s == (cur + [s[0]]) + s[1..];
    }
  }

  /** `s.split(sep)` is undone by `sep.join(...)`, and no piece holds `sep`. */
  lemma SplitOnJoin(s: string, sep: char)
    ensures Join(SplitOn(s, sep), [sep]) == s
    ensures forall k :: 0 <= k < |SplitOn(s, sep)| ==> sep !in SplitOn(s, sep)[k]
  {
    SplitFromJoin(s, sep, []);
  }

  function DigitChar(d: nat): char
    requires d < 10
  {
    "0123456789"[d]
  }

  /** `str(n)` for a natural number: decimal, no leading zeros. */
  function NatToString(n: nat): (s: string)
    ensures s != [] && forall i :: 0 <= i < |s| ==> '0' <= s[i] <= '9'
    decreases n
  {
    if n < 10 then [DigitChar(n)] else NatToString(n / 10) + [DigitChar(n % 10)]
  }

  /** `str(i)` for an integer. */
  function IntToString(i: int): string {
    if i < 0 then "-" + NatToString(-i) else NatToString(i)
  }

  /** The value of a string of decimal digits (the inverse of NatToString). */
  function DigitsValue(s: string): nat
    requires forall i :: 0 <= i < |s| ==> '0' <= s[i] <= '9'
  {
    if s == [] then 0 else 10 * DigitsValue(s[..|s| - 1]) + (s[|s| - 1] as int - '0' as int)
  }

  lemma {:induction false} NatToStringRoundTrip(n: nat)
    ensures DigitsValue(NatToString(n)) == n
    decreases n
  {
    if n >= 10 {
      var s := NatToString(n);
      NatToStringRoundTrip(n / 10);
      assert s[..|s| - 1] == NatToString(n / 10);
    }
  }

  /** Distinct numbers print differently, so ids built from them differ. */
  lemma NatToStringInjective(m: nat, n: nat)
    requires NatToString(m) == NatToString(n)
    ensures m == n
  {
    NatToStringRoundTrip(m);
    NatToStringRoundTrip(n);
  }
}
