/**
 * The text cleaner the backend applies to model output before using it as a
 * chat title or a profile summary: trim, delete Markdown emphasis characters,
 * delete heading markers, unwrap links, strip surrounding quotes, strip one
 * label prefix, collapse whitespace runs to one space, trim again. The two
 * copies of the cleaner differ only in the label prefixes they strip.
 */
module Cleaning {
  import opened Wrappers
  import opened Text

  /** The characters the emphasis, underline, strike-through and code passes delete. */
  predicate IsMarkup(c: char)
  {
    c == '*' || c == '_' || c == '~' || c == '`'
  }

  predicate Markdownless(s: string)
  {
    forall i :: 0 <= i < |s| ==> !IsMarkup(s[i])
  }

  /** Every whitespace character is a plain space and no two are adjacent. */
  predicate SingleSpaced(s: string)
  {
    && (forall i :: 0 <= i < |s| && IsSpace(s[i]) ==> s[i] == ' ')
    && (forall i, j :: 0 <= i < |s| && 0 <= j < |s| && j == i + 1 ==> !(IsSpace(s[i]) && IsSpace(s[j])))
  }

  /** The non-whitespace characters of `s`, in order. */
  function Visible(s: string): string
  {
    if |s| == 0 then "" else (if IsSpace(s[0]) then "" else [s[0]]) + Visible(s[1..])
  }

  lemma MarkdownlessFrom(r: string, s: string)
    requires CharsFrom(r, s) && Markdownless(s)
    ensures Markdownless(r)
  {
    forall i | 0 <= i < |r|
      ensures !IsMarkup(r[i])
    {
      var k :| 0 <= k < |s| && s[k] == r[i];
    }
  }

  /**
   * The `**`, `*`, `_{1,2}`, `~{1,2}` and `` `{1,3} `` passes. Each deletes
   * every run of its character, so together they delete every markup
   * character and keep every other character.
   */
  function StripMarkup(s: string): (r: string)
    ensures Markdownless(r)
    ensures forall d :: !IsMarkup(d) ==> multiset(r)[d] == multiset(s)[d]
    ensures |r| <= |s| && CharsFrom(r, s)
  {
    var a := RemoveChar(s, '*');
    var b := RemoveChar(a, '_');
    var c := RemoveChar(b, '~');
    var r := RemoveChar(c, '`');
    CharsFromLacks(r, c, '~');
    CharsFromLacks(c, b, '_');
    CharsFromLacks(r, c, '_');
    CharsFromLacks(b, a, '*');
    CharsFromLacks(c, b, '*');
    CharsFromLacks(r, c, '*');
    CharsFromTrans(r, c, b);
    CharsFromTrans(r, b, a);
    CharsFromTrans(r, a, s);
    r
  }

  /** The number of `#` characters `s` starts with, counting at most `cap`. */
  function LeadingHashes(s: string, cap: nat): (n: nat)
    ensures n <= cap && n <= |s|
    ensures forall i :: 0 <= i < n ==> s[i] == '#'
    ensures n < cap && n < |s| ==> s[n] != '#'
  {
    if cap > 0 && |s| > 0 && s[0] == '#' then 1 + LeadingHashes(s[1..], cap - 1) else 0
  }

  /**
   * The `#{1,6}\s` pass, scanning left to right: at a `#`, the longest run of
   * at most six `#` followed by a whitespace character is deleted together
   * with that character; otherwise one character is kept and the scan moves on.
   */
  function StripHeadings(s: string): (r: string)
    ensures |r| <= |s| && CharsFrom(r, s)
  {
    if |s| == 0 then ""
    else
      var n := LeadingHashes(s, 6);
      if n > 0 && n < |s| && IsSpace(s[n]) then
        var r := StripHeadings(s[n + 1..]);
        CharsFromTrans(r, s[n + 1..], s);
        r
      else
        var t := StripHeadings(s[1..]);
        CharsFromTrans(t, s[1..], s);
        [s[0]] + t
  }

  /** The first index of `c` in `s`. */
  function IndexOf(s: string, c: char): (r: Option<nat>)
    ensures r.Some? ==> r.value < |s| && s[r.value] == c && Lacks(s[..r.value], c)
    ensures r.None? ==> Lacks(s, c)
  {
    if |s| == 0 then None
    else if s[0] == c then Some(0)
    else
      match IndexOf(s[1..], c)
      case None => None
      case Some(k) =>
        assert s[..k + 1] == [s[0]] + s[1..][..k];
        Some(k + 1)
  }

  /**
   * A link `[text](url)` at the start of `s`, with `text` free of `]` and `url`
   * free of `)`, both non-empty: its text and the length of the whole link.
   */
  function LinkAt(s: string): (r: Option<(string, nat)>)
    requires |s| > 0 && s[0] == '['
    ensures r.Some? ==> var (text, n) := r.value;
      |text| + 4 <= n <= |s| && text == s[1..1 + |text|] && |text| > 0
  {
    match IndexOf(s[1..], ']')
    case None => None
    case Some(j) =>
      if j == 0 || j + 2 >= |s| || s[j + 2] != '(' then None
      else
        match IndexOf(s[j + 3..], ')')
        case None => None
        case Some(k) => if k == 0 then None else Some((s[1..1 + j], j + k + 4))
  }

  /** The `\[([^\]]+)\]\([^)]+\)` pass: every link is replaced by its text. */
  function StripLinks(s: string): (r: string)
    ensures |r| <= |s| && CharsFrom(r, s)
  {
    if |s| == 0 then ""
    else if s[0] == '[' && LinkAt(s).Some? then
      var (text, n) := LinkAt(s).value;
      var t := StripLinks(s[n..]);
      CharsFromTrans(t, s[n..], s);
      assert CharsFrom(text, s) by {
        forall i | 0 <= i < |text| ensures text[i] in s { assert text[i] == s[1 + i]; }
      }
      text + t
    else
      var t := StripLinks(s[1..]);
      CharsFromTrans(t, s[1..], s);
      [s[0]] + t
  }

  /** The quote characters of the first quote pass. */
  const Quotes: set<char> := {'"', '\'', '`'}
  /** The characters the second quote pass matches: only the ASCII double and single quote. */
  const AsciiQuotes: set<char> := {'"', '\''}

  predicate AllIn(s: string, q: set<char>)
  {
    forall k :: 0 <= k < |s| ==> s[k] in q
  }

  function DropLeading(s: string, q: set<char>): (r: string)
    ensures |r| <= |s| && r == s[|s| - |r|..]
    ensures AllIn(s[..|s| - |r|], q)
    ensures r == [] || r[0] !in q
  {
    if |s| > 0 && s[0] in q then DropLeading(s[1..], q) else s
  }

  function DropTrailing(s: string, q: set<char>): (r: string)
    ensures |r| <= |s| && r == s[..|r|]
    ensures AllIn(s[|r|..], q)
    ensures r == [] || r[|r| - 1] !in q
  {
    if |s| > 0 && s[|s| - 1] in q then
      var r := DropTrailing(s[..|s| - 1], q);
      assert s[|r|..] == s[..|s| - 1][|r|..] + [s[|s| - 1]];
      r
    else s
  }

  /** The `^[q]+|[q]+$` pass: the runs of quote characters at both ends are deleted. */
  function StripQuoteRuns(s: string, q: set<char>): (r: string)
    ensures exists i, j :: 0 <= i <= j <= |s| && r == s[i..j] && AllIn(s[..i], q) && AllIn(s[j..], q)
    ensures r == [] || (r[0] !in q && r[|r| - 1] !in q)
    ensures |r| <= |s| && CharsFrom(r, s)
  {
    var a := DropLeading(s, q);
    var r := DropTrailing(a, q);
    QuoteCutOf(s, a, r, q);
    SliceChars(s, |s| - |a|, |s| - |a| + |r|);
    r
  }

  /** The two quote passes compose into one cut of the original text. */
  lemma QuoteCutOf(s: string, a: string, r: string, q: set<char>)
    requires |a| <= |s| && a == s[|s| - |a|..] && AllIn(s[..|s| - |a|], q)
    requires |r| <= |a| && r == a[..|r|] && AllIn(a[|r|..], q)
    ensures exists i, j :: 0 <= i <= j <= |s| && r == s[i..j] && AllIn(s[..i], q) && AllIn(s[j..], q)
    ensures r == s[|s| - |a|..|s| - |a| + |r|]
  {
    var i := |s| - |a|;
    assert r == s[i..i + |r|];
    assert s[i + |r|..] == a[|r|..];
  }

  /** The ASCII-only second quote pass deletes nothing once the first pass has run. */
  lemma SecondQuotePassNoop(s: string)
    ensures StripQuoteRuns(StripQuoteRuns(s, Quotes), AsciiQuotes) == StripQuoteRuns(s, Quotes)
  {
    var r := StripQuoteRuns(s, Quotes);
    var r2 := StripQuoteRuns(r, AsciiQuotes);
    if r != [] {
      assert r[0] !in AsciiQuotes && r[|r| - 1] !in AsciiQuotes;
      assert DropLeading(r, AsciiQuotes) == r;
      assert DropTrailing(r, AsciiQuotes) == r;
    }
  }

  /** Alternative `k` is the first of `prefixes` that matches the start of `s`, ignoring case. */
  predicate FirstMatch(s: string, prefixes: seq<string>, k: nat)
    requires k < |prefixes|
  {
    StartsWithCI(s, prefixes[k]) && forall m :: 0 <= m < k ==> !StartsWithCI(s, prefixes[m])
  }

  /**
   * The `^(p1|p2|...)\s*` pass with the `i` flag: the first alternative that
   * matches the start of `s` case-insensitively is deleted with the
   * whitespace after it.
   */
  function StripPrefix(s: string, prefixes: seq<string>): (r: string)
    ensures (forall k :: 0 <= k < |prefixes| ==> !StartsWithCI(s, prefixes[k])) ==> r == s
    ensures r == s || exists k :: 0 <= k < |prefixes| && FirstMatch(s, prefixes, k) && r == TrimStart(s[|prefixes[k]|..])
    ensures |r| <= |s| && CharsFrom(r, s)
  {
    if |prefixes| == 0 then s
    else if StartsWithCI(s, prefixes[0]) then
      var r := TrimStart(s[|prefixes[0]|..]);
      SuffixOfSlice(s, |prefixes[0]|, r);
      r
    else
      var r := StripPrefix(s, prefixes[1..]);
      assert r != s ==> exists k :: 0 <= k < |prefixes| && FirstMatch(s, prefixes, k) && r == TrimStart(s[|prefixes[k]|..]) by {
        if r != s {
          var k :| 0 <= k < |prefixes[1..]| && FirstMatch(s, prefixes[1..], k) && r == TrimStart(s[|prefixes[1..][k]|..]);
          FirstMatchShift(s, prefixes, k);
          assert FirstMatch(s, prefixes, k + 1) && r == TrimStart(s[|prefixes[k + 1]|..]);
        }
      }
      r
  }

  /** A match further down the list of alternatives, when the first does not match. */
  lemma FirstMatchShift(s: string, prefixes: seq<string>, k: nat)
    requires 0 < |prefixes| && !StartsWithCI(s, prefixes[0])
    requires k < |prefixes| - 1 && FirstMatch(s, prefixes[1..], k)
    ensures FirstMatch(s, prefixes, k + 1) && prefixes[k + 1] == prefixes[1..][k]
  {
    forall m | 0 <= m < k + 1 ensures !StartsWithCI(s, prefixes[m]) {
      if m > 0 { assert prefixes[m] == prefixes[1..][m - 1]; }
    }
  }

  /** The `\s+` to `" "` pass: each run of whitespace becomes one space. */
  function CollapseSpaces(s: string): (r: string)
    ensures |r| <= |s|
    ensures |s| > 0 ==> |r| > 0 && (IsSpace(r[0]) <==> IsSpace(s[0]))
  {
    if |s| == 0 then ""
    else if IsSpace(s[0]) then " " + CollapseSpaces(TrimStart(s[1..]))
    else [s[0]] + CollapseSpaces(s[1..])
  }

  /** After collapsing, whitespace is single plain spaces. */
  lemma {:induction false} CollapseSingleSpaced(s: string)
    ensures SingleSpaced(CollapseSpaces(s))
  {
    if |s| > 0 {
      var r := CollapseSpaces(s);
      var tail := if IsSpace(s[0]) then TrimStart(s[1..]) else s[1..];
      var t := CollapseSpaces(tail);
      CollapseSingleSpaced(tail);
      assert r == [r[0]] + t;
      assert forall k :: 1 <= k < |r| ==> r[k] == t[k - 1];
      assert IsSpace(s[0]) ==> t == [] || !IsSpace(t[0]);
    }
  }

  /** Collapsing adds no character except the plain space. */
  lemma {:induction false} CollapseChars(s: string)
    ensures forall i :: 0 <= i < |CollapseSpaces(s)| ==> CollapseSpaces(s)[i] == ' ' || CollapseSpaces(s)[i] in s
  {
    if |s| > 0 {
      var r := CollapseSpaces(s);
      var tail := if IsSpace(s[0]) then TrimStart(s[1..]) else s[1..];
      var t := CollapseSpaces(tail);
      CollapseChars(tail);
      var c := if IsSpace(s[0]) then ' ' else s[0];
      assert r == [c] + t;
      CollapseCharsStep(s, c, tail, t);
    }
  }

  lemma CollapseCharsStep(s: string, c: char, tail: string, t: string)
    requires |s| > 0 && (c == ' ' || c == s[0])
    requires |tail| <= |s| - 1 && tail == s[1..][|s| - 1 - |tail|..]
    requires forall i :: 0 <= i < |t| ==> t[i] == ' ' || t[i] in tail
    ensures forall i :: 0 <= i < |[c] + t| ==> ([c] + t)[i] == ' ' || ([c] + t)[i] in s
  {
    SuffixOfSlice(s, 1, tail);
    ConsSpaceOrFrom(c, t, tail, s);
  }

  /** A suffix of the text after position `i` is a suffix of the text. */
  lemma SuffixOfSlice(s: string, i: nat, u: string)
    requires i <= |s| && |u| <= |s| - i && u == s[i..][|s| - i - |u|..]
    ensures u == s[|s| - |u|..|s|] && CharsFrom(u, s)
  {
    SliceChars(s, |s| - |u|, |s|);
  }

  lemma ConsSpaceOrFrom(c: char, t: string, tail: string, s: string)
    requires c == ' ' || c in s
    requires forall i :: 0 <= i < |t| ==> t[i] == ' ' || t[i] in tail
    requires CharsFrom(tail, s)
    ensures forall i :: 0 <= i < |[c] + t| ==> ([c] + t)[i] == ' ' || ([c] + t)[i] in s
  {
    forall i | 0 <= i < |[c] + t| ensures ([c] + t)[i] == ' ' || ([c] + t)[i] in s {
      if i > 0 {
        assert ([c] + t)[i] == t[i - 1];
      }
    }
  }

  /** Collapsing whitespace keeps every other character, in order. */
  lemma {:induction false} CollapseKeepsVisible(s: string)
    ensures Visible(CollapseSpaces(s)) == Visible(s)
  {
    if |s| > 0 {
      var r := CollapseSpaces(s);
      if IsSpace(s[0]) {
        var rest := TrimStart(s[1..]);
        var gap := s[1..][..|s[1..]| - |rest|];
        assert s[1..] == gap + rest;
        VisibleOfSpaces(gap);
        VisibleAppend(gap, rest);
        CollapseKeepsVisible(rest);
        assert r == " " + CollapseSpaces(rest);
        assert r[1..] == CollapseSpaces(rest);
      } else {
        CollapseKeepsVisible(s[1..]);
        assert r[1..] == CollapseSpaces(s[1..]);
      }
    }
  }

  lemma VisibleOfSpaces(s: string)
    requires AllSpace(s)
    ensures Visible(s) == ""
  {
  }

  lemma {:induction false} VisibleAppend(a: string, b: string)
    ensures Visible(a + b) == Visible(a) + Visible(b)
  {
    if |a| > 0 {
      assert (a + b)[1..] == a[1..] + b;
      VisibleAppend(a[1..], b);
    } else {
      assert a + b == b;
    }
  }

  /** A slice keeps the single-spacing and markup-freedom of the string it is cut from. */
  lemma SliceKeeps(g: string, i: nat, j: nat)
    requires i <= j <= |g| && SingleSpaced(g) && Markdownless(g)
    ensures SingleSpaced(g[i..j]) && Markdownless(g[i..j])
  {
    var r := g[i..j];
    assert forall k :: 0 <= k < |r| ==> r[k] == g[i + k];
  }

  /** The passes before whitespace collapsing; none of them adds a character. */
  function StripAll(s: string, prefixes: seq<string>): (r: string)
    ensures Markdownless(r) && |r| <= |s|
  {
    var b := StripMarkup(Trim(s));
    var c := StripHeadings(b);
    var d := StripLinks(c);
    var d2 := StripQuoteRuns(d, Quotes);
    var e := StripQuoteRuns(d2, AsciiQuotes);
    var f := StripPrefix(e, prefixes);
    MarkdownlessFrom(c, b);
    MarkdownlessFrom(d, c);
    MarkdownlessFrom(d2, d);
    MarkdownlessFrom(e, d2);
    MarkdownlessFrom(f, e);
    f
  }

  /**
   * `cleanGeneratedText`: the passes in source order. The result has no
   * markup characters, no whitespace at either end, and only single plain
   * spaces inside.
   */
  function Clean(s: string, prefixes: seq<string>): (r: string)
    ensures Markdownless(r) && Trimmed(r) && SingleSpaced(r)
    ensures |r| <= |s|
  {
    var f := StripAll(s, prefixes);
    var g := CollapseSpaces(f);
    CollapseKeepsMarkdownless(f);
    CollapseSingleSpaced(f);
    TrimKeeps(g);
    Trim(g)
  }

  lemma CollapseKeepsMarkdownless(f: string)
    requires Markdownless(f)
    ensures Markdownless(CollapseSpaces(f))
  {
    var g := CollapseSpaces(f);
    CollapseChars(f);
    forall i | 0 <= i < |g| ensures !IsMarkup(g[i]) {
      if g[i] != ' ' {
        var k :| 0 <= k < |f| && f[k] == g[i];
      }
    }
  }

  lemma TrimKeeps(g: string)
    requires SingleSpaced(g) && Markdownless(g)
    ensures SingleSpaced(Trim(g)) && Markdownless(Trim(g))
  {
    var r := Trim(g);
    var i, j :| TrimCut(g, r, i, j);
    SliceKeeps(g, i, j);
  }

  /** A heading marker of one to six `#` and a whitespace character is deleted. */
  lemma HeadingMarkerDeleted(n: nat, w: char, t: string)
    requires 1 <= n <= 6 && IsSpace(w)
    ensures StripHeadings(Repeat('#', n) + [w] + t) == StripHeadings(t)
  {
    var s := Repeat('#', n) + [w] + t;
    var k := LeadingHashes(s, 6);
    assert s[n] == w;
    assert k == n;
    assert s[n + 1..] == t;
  }

  /** Text without `#` passes the heading pass unchanged. */
  lemma {:induction false} HeadingsAbsent(s: string)
    requires Lacks(s, '#')
    ensures StripHeadings(s) == s
  {
    if |s| > 0 {
      HeadingsAbsent(s[1..]);
    }
  }

  /** A link is replaced by its text and the scan continues after it. */
  lemma LinkUnwrapped(text: string, url: string, rest: string)
    requires |text| > 0 && Lacks(text, ']') && |url| > 0 && Lacks(url, ')')
    ensures StripLinks("[" + text + "](" + url + ")" + rest) == text + StripLinks(rest)
  {
    var s := "[" + text + "](" + url + ")" + rest;
    var j := |text|;
    var after := "(" + url + ")" + rest;
    assert s[1..] == text + [']'] + after;
    IndexAfter(text, ']', after);
    assert IndexOf(s[1..], ']') == Some(j);
    assert s[j + 2] == '(';
    assert s[j + 3..] == url + [')'] + rest;
    IndexAfter(url, ')', rest);
    assert IndexOf(s[j + 3..], ')') == Some(|url|);
    assert s[1..1 + j] == text;
    assert LinkAt(s) == Some((text, j + |url| + 4));
    assert s[j + |url| + 4..] == rest;
  }

  /** The first `c` in `a + [c] + b` is the one after `a` when `a` has none. */
  lemma {:induction false} IndexAfter(a: string, c: char, b: string)
    requires Lacks(a, c)
    ensures IndexOf(a + [c] + b, c) == Some(|a|)
  {
    if |a| > 0 {
      assert (a + [c] + b)[1..] == a[1..] + [c] + b;
      IndexAfter(a[1..], c, b);
    } else {
      assert (a + [c] + b)[0] == c;
    }
  }

  /** Text without `[` passes the link pass unchanged. */
  lemma {:induction false} LinksAbsent(s: string)
    requires Lacks(s, '[')
    ensures StripLinks(s) == s
  {
    if |s| > 0 {
      LinksAbsent(s[1..]);
    }
  }

  /** Text already single-spaced passes the whitespace pass unchanged. */
  lemma {:induction false} CollapseNoop(s: string)
    requires SingleSpaced(s)
    ensures CollapseSpaces(s) == s
  {
    if |s| > 0 {
      SingleSpacedTail(s);
      CollapseNoop(s[1..]);
      CollapseStep(s);
      assert s == [s[0]] + s[1..];
    }
  }

  /** On single-spaced text the whitespace pass keeps the first character and moves on. */
  lemma CollapseStep(s: string)
    requires |s| > 0 && SingleSpaced(s)
    ensures CollapseSpaces(s) == [s[0]] + CollapseSpaces(s[1..])
  {
    if IsSpace(s[0]) {
      assert s[0] == ' ';
      if |s| > 1 {
        assert !IsSpace(s[1]);
      }
      assert TrimStart(s[1..]) == s[1..];
    }
  }

  lemma SingleSpacedTail(s: string)
    requires |s| > 0 && SingleSpaced(s)
    ensures SingleSpaced(s[1..])
  {
    var t := s[1..];
    assert forall k :: 0 <= k < |t| ==> t[k] == s[k + 1];
  }

  lemma {:induction false} RemoveAbsent(s: string, c: char)
    requires Lacks(s, c)
    ensures RemoveChar(s, c) == s
  {
    if |s| > 0 {
      RemoveAbsent(s[1..], c);
    }
  }

  /** Text the cleaner has nothing to remove from. */
  predicate Plain(s: string, prefixes: seq<string>)
  {
    && Trimmed(s) && SingleSpaced(s) && Markdownless(s)
    && Lacks(s, '#') && Lacks(s, '[')
    && (s == [] || (s[0] !in Quotes && s[|s| - 1] !in Quotes))
    && forall k :: 0 <= k < |prefixes| ==> !StartsWithCI(s, prefixes[k])
  }

  /** The cleaner leaves plain text as it is. */
  lemma CleanKeepsPlain(s: string, prefixes: seq<string>)
    requires Plain(s, prefixes)
    ensures Clean(s, prefixes) == s
  {
    TrimNoop(s);
    RemoveAbsent(s, '*');
    RemoveAbsent(s, '_');
    RemoveAbsent(s, '~');
    RemoveAbsent(s, '`');
    assert StripMarkup(s) == s;
    HeadingsAbsent(s);
    LinksAbsent(s);
    if s != [] {
      assert DropLeading(s, Quotes) == s;
      assert DropTrailing(s, Quotes) == s;
      assert DropLeading(s, AsciiQuotes) == s;
      assert DropTrailing(s, AsciiQuotes) == s;
    }
    assert StripQuoteRuns(StripQuoteRuns(s, Quotes), AsciiQuotes) == s;
    assert StripAll(s, prefixes) == s;
    CollapseNoop(s);
  }

  /** The label prefixes a chat title loses. */
  const TitlePrefixes: seq<string> := ["Title:", "Subject:", "Topic:"]

  /**
   * The label prefixes a profile summary loses: `Summary:` and a second
   * alternative whose characters are the UTF-8 bytes of an Arabic word read as
   * Windows-1252, followed by a colon.
   */
  const SummaryPrefixes: seq<string> := ["Summary:", "\U{D8}\U{A7}\U{D9}\U{201E}\U{D9}\U{2026}\U{D9}\U{201E}\U{D8}\U{AE}\U{D8}\U{B5}:"]
}
