/** The text half of knowledge-base ingestion: a markdown guide is cut into concepts at
    its `## ` headings, every concept gets a filename (from a fixed table, else a slug of
    its title), and is re-wrapped as a markdown document of its own. */
module Concepts {
  import opened Common

  datatype Concept = Concept(title: string, content: string, filename: string)

  datatype ConceptMarkdown = ConceptMarkdown(filename: string, markdown: string)

  // ---------------------------------------------------------------------------
  // Splitting at headings: `text.split(/^##\s+/m)`
  // ---------------------------------------------------------------------------

  /** `^` of a multiline regular expression: the start of the text or just after a line
      terminator. */
  predicate LineStart(s: string, q: nat)
    requires q <= |s|
  {
    q == 0 || IsLineTerminator(s[q - 1])
  }

  /** The length of the run of whitespace that starts at `i`. */
  function SpaceRun(s: string, i: nat): (n: nat)
    requires i <= |s|
    ensures i + n <= |s|
    ensures forall k :: i <= k < i + n ==> IsSpace(s[k])
    ensures i + n == |s| || !IsSpace(s[i + n])
    decreases |s| - i
  {
    if i < |s| && IsSpace(s[i]) then 1 + SpaceRun(s, i + 1) else 0
  }

  /** Where a match of `^##\s+` that starts at `q` ends; `\s+` is greedy, so the match
      takes the whole run of whitespace after the two hashes. */
  function HeadingMatch(s: string, q: nat): (e: Option<nat>)
    ensures e.Some? <==>
              q + 3 <= |s| && LineStart(s, q) && s[q] == '#' && s[q + 1] == '#' && IsSpace(s[q + 2])
    ensures e.Some? ==> q + 3 <= e.value <= |s| && AllSpace(s[q + 2..e.value])
    ensures e.Some? ==> e.value == |s| || !IsSpace(s[e.value])
  {
    if q + 3 <= |s| && LineStart(s, q) && s[q] == '#' && s[q + 1] == '#' && IsSpace(s[q + 2]) then
      Some(q + 2 + SpaceRun(s, q + 2))
    else None
  }

  datatype Span = Span(start: nat, end: nat)

  /** The matcher of the heading pattern over `s`. */
  function HeadingMatcher(s: string): nat -> Option<nat> {
    k => HeadingMatch(s, k)
  }

  /** The pieces `split` produces from a text of length `n`, as positions: the scan looks
      for a match of `m` at each position `q` from the end of the previous one; a piece
      ends where a match begins and the next piece starts where that match ends. */
  function Cut(n: nat, m: nat -> Option<nat>, p: nat, q: nat): (r: seq<Span>)
    requires p <= q <= n
    requires forall k :: q <= k < n && m(k).Some? ==> k < m(k).value <= n
    ensures |r| >= 1 && r[0].start == p && r[|r| - 1].end == n
    ensures forall i :: 0 <= i < |r| ==> r[i].start <= r[i].end <= n
    decreases n - q
  {
    if q == n then [Span(p, n)]
    else
      match m(q)
      case Some(e) => [Span(p, q)] + Cut(n, m, e, e)
      case None => Cut(n, m, p, q + 1)
  }

  /** Each piece but the last ends where a match begins, and the next piece starts where
      that match ends. */
  lemma {:induction false} CutAtMatches(n: nat, m: nat -> Option<nat>, p: nat, q: nat)
    requires p <= q <= n
    requires forall k :: q <= k < n && m(k).Some? ==> k < m(k).value <= n
    ensures forall i :: 0 <= i < |Cut(n, m, p, q)| - 1 ==>
              m(Cut(n, m, p, q)[i].end) == Some(Cut(n, m, p, q)[i + 1].start)
    decreases n - q
  {
    var r := Cut(n, m, p, q);
    if q == n {
      assert r == [Span(p, n)];
    } else if m(q).None? {
      CutAtMatches(n, m, p, q + 1);
      assert r == Cut(n, m, p, q + 1);
    } else {
      var e := m(q).value;
      CutAtMatches(n, m, e, e);
      var rest := Cut(n, m, e, e);
      assert r == [Span(p, q)] + rest;
      assert r[0] == Span(p, q) && rest[0].start == e;
      forall i | 0 <= i < |r| - 1
        ensures m(r[i].end) == Some(r[i + 1].start)
      {
        assert r[i + 1] == rest[i];
        if i > 0 {
          assert r[i] == rest[i - 1];
        }
      }
    }
  }

  /** No match of `m` begins at a position from `a` up to `b`. */
  ghost predicate NoMatchIn(m: nat -> Option<nat>, a: nat, b: nat) {
    forall k :: a <= k < b ==> m(k).None?
  }

  /** No match begins inside a piece. */
  lemma CutPiecesHaveNoMatch(n: nat, m: nat -> Option<nat>, p: nat, q: nat)
    requires p <= q <= n
    requires forall k :: q <= k < n && m(k).Some? ==> k < m(k).value <= n
    requires NoMatchIn(m, p, q)
    ensures forall i :: 0 <= i < |Cut(n, m, p, q)| ==> NoMatchIn(m, Cut(n, m, p, q)[i].start, Cut(n, m, p, q)[i].end)
  {
    forall i | 0 <= i < |Cut(n, m, p, q)|
      ensures NoMatchIn(m, Cut(n, m, p, q)[i].start, Cut(n, m, p, q)[i].end)
    {
      CutPieceHasNoMatch(n, m, p, q, i);
    }
  }

  /** Piece `i` of a cut holds no match. */
  lemma {:induction false} CutPieceHasNoMatch(n: nat, m: nat -> Option<nat>, p: nat, q: nat, i: nat)
    requires p <= q <= n
    requires forall k :: q <= k < n && m(k).Some? ==> k < m(k).value <= n
    requires NoMatchIn(m, p, q)
    requires i < |Cut(n, m, p, q)|
    ensures NoMatchIn(m, Cut(n, m, p, q)[i].start, Cut(n, m, p, q)[i].end)
    decreases n - q
  {
    if q < n {
      match m(q)
      case None =>
        assert NoMatchIn(m, p, q + 1);
        CutPieceHasNoMatch(n, m, p, q + 1, i);
      case Some(e) =>
        if i > 0 {
          CutPieceHasNoMatch(n, m, e, e, i - 1);
        }
    }
  }

  /** Without any match from `p` on, the rest is one piece. */
  lemma {:induction false} CutNoMatch(n: nat, m: nat -> Option<nat>, p: nat, q: nat)
    requires p <= q <= n
    requires forall k :: p <= k <= n ==> m(k).None?
    ensures Cut(n, m, p, q) == [Span(p, n)]
    decreases n - q
  {
    if q < n {
      CutNoMatch(n, m, p, q + 1);
    }
  }

  /** A heading match ends after the position it starts at, within the text. */
  lemma HeadingMatcherAdvances(s: string)
    ensures forall k :: 0 <= k < |s| && HeadingMatcher(s)(k).Some? ==>
              k < HeadingMatcher(s)(k).value <= |s|
  {
  }

  /** The pieces of the text at its `## ` headings. */
  function SectionSpans(text: string): (spans: seq<Span>)
    ensures |spans| >= 1 && spans[0].start == 0 && spans[|spans| - 1].end == |text|
    ensures forall i :: 0 <= i < |spans| ==> spans[i].start <= spans[i].end <= |text|
  {
    HeadingMatcherAdvances(text);
    Cut(|text|, HeadingMatcher(text), 0, 0)
  }

  /** The text is cut exactly at its headings: each section but the last is followed by a
      heading match that the next section starts after, and no heading starts inside a
      section. */
  lemma SectionSpansAtHeadings(text: string)
    ensures var r := SectionSpans(text);
            && (forall i :: 0 <= i < |r| - 1 ==> HeadingMatch(text, r[i].end) == Some(r[i + 1].start))
            && (forall i, k :: 0 <= i < |r| && r[i].start <= k < r[i].end ==> HeadingMatch(text, k).None?)
  {
    HeadingMatcherAdvances(text);
    var m := HeadingMatcher(text);
    CutAtMatches(|text|, m, 0, 0);
    CutPiecesHaveNoMatch(|text|, m, 0, 0);
    var r := SectionSpans(text);
    assert r == Cut(|text|, m, 0, 0);
    forall i | 0 <= i < |r| - 1
      ensures HeadingMatch(text, r[i].end) == Some(r[i + 1].start)
    {
      assert m(r[i].end) == HeadingMatch(text, r[i].end);
    }
    forall i, k | 0 <= i < |r| && r[i].start <= k < r[i].end
      ensures HeadingMatch(text, k).None?
    {
      assert NoMatchIn(m, r[i].start, r[i].end);
      assert m(k) == HeadingMatch(text, k);
    }
  }

  /** The sections of the text, in order. */
  function Sections(text: string): (sections: seq<string>)
    ensures |sections| >= 1
  {
    var spans := SectionSpans(text);
    seq(|spans|, i requires 0 <= i < |spans| => text[spans[i].start..spans[i].end])
  }

  /** Text without any heading line is a single section: itself. */
  lemma SectionsWithoutHeadings(text: string)
    requires forall k :: 0 <= k <= |text| ==> HeadingMatch(text, k).None?
    ensures Sections(text) == [text]
  {
    HeadingMatcherAdvances(text);
    CutNoMatch(|text|, HeadingMatcher(text), 0, 0);
    assert text[0..|text|] == text;
  }

  // ---------------------------------------------------------------------------
  // Separator lines: `replace(/^\*\*\*$/gm, '')`
  // ---------------------------------------------------------------------------

  /** A line made of exactly three asterisks starts at `i`. */
  predicate RuleAt(s: string, i: nat) {
    && i + 3 <= |s|
    && LineStart(s, i)
    && s[i] == '*' && s[i + 1] == '*' && s[i + 2] == '*'
    && (i + 3 == |s| || IsLineTerminator(s[i + 3]))
  }

  /** The text from `i` on with every `***` line emptied; the line terminators stay. */
  function RemoveRulesFrom(s: string, i: nat): (r: string)
    requires i <= |s|
    ensures |r| <= |s| - i
    decreases |s| - i
  {
    if i == |s| then []
    else if RuleAt(s, i) then RemoveRulesFrom(s, i + 3)
    else [s[i]] + RemoveRulesFrom(s, i + 1)
  }

  /** `r` has every character of `s` but asterisks as often as `s`, and no more
      asterisks. */
  predicate KeepsAllButAsterisks(r: string, s: string) {
    && (forall c :: c != '*' ==> multiset(r)[c] == multiset(s)[c])
    && multiset(r)['*'] <= multiset(s)['*']
  }

  lemma KeepsAfterRule(r: string, s: string)
    requires KeepsAllButAsterisks(r, s)
    ensures KeepsAllButAsterisks(r, "***" + s)
  {
    assert multiset("***" + s) == multiset("***") + multiset(s);
  }

  lemma KeepsAfterChar(x: char, r: string, s: string)
    requires KeepsAllButAsterisks(r, s)
    ensures KeepsAllButAsterisks([x] + r, [x] + s)
  {
    assert multiset([x] + r) == multiset([x]) + multiset(r);
    assert multiset([x] + s) == multiset([x]) + multiset(s);
  }

  /** Only the asterisks of separator lines are removed: every other character keeps
      its count. */
  lemma {:induction false} RemoveRulesFromKeeps(s: string, i: nat)
    requires i <= |s|
    ensures KeepsAllButAsterisks(RemoveRulesFrom(s, i), s[i..])
    decreases |s| - i
  {
    if i < |s| {
      if RuleAt(s, i) {
        RemoveRulesFromKeeps(s, i + 3);
        KeepsOverRule(s, i);
      } else {
        RemoveRulesFromKeeps(s, i + 1);
        KeepsOverChar(s, i);
      }
    }
  }

  lemma KeepsOverRule(s: string, i: nat)
    requires i < |s| && RuleAt(s, i)
    requires KeepsAllButAsterisks(RemoveRulesFrom(s, i + 3), s[i + 3..])
    ensures KeepsAllButAsterisks(RemoveRulesFrom(s, i), s[i..])
  {
    KeepsAfterRule(RemoveRulesFrom(s, i + 3), s[i + 3..]);
    assert s[i..] == s[i..i + 3] + s[i + 3..];
    assert s[i..i + 3] == "***";
  }

  lemma KeepsOverChar(s: string, i: nat)
    requires i < |s| && !RuleAt(s, i)
    requires KeepsAllButAsterisks(RemoveRulesFrom(s, i + 1), s[i + 1..])
    ensures KeepsAllButAsterisks(RemoveRulesFrom(s, i), s[i..])
  {
    KeepsAfterChar(s[i], RemoveRulesFrom(s, i + 1), s[i + 1..]);
    assert s[i..] == [s[i]] + s[i + 1..];
  }

  function RemoveRules(s: string): (r: string)
    ensures |r| <= |s|
    ensures forall c :: c != '*' ==> multiset(r)[c] == multiset(s)[c]
  {
    assert s[0..] == s;
    RemoveRulesFromKeeps(s, 0);
    RemoveRulesFrom(s, 0)
  }

  /** Text without separator lines is left as it is. */
  lemma {:induction false} RemoveRulesFromNoRules(s: string, i: nat)
    requires i <= |s|
    requires forall k :: i <= k < |s| ==> !RuleAt(s, k)
    ensures RemoveRulesFrom(s, i) == s[i..]
    decreases |s| - i
  {
    if i < |s| {
      RemoveRulesFromNoRules(s, i + 1);
      assert s[i..] == [s[i]] + s[i + 1..];
    }
  }

  /** A line as the separator pass leaves it: a line of exactly three asterisks is
      emptied, any other line is kept. */
  function BlankRule(line: string): string {
    if line == "***" then "" else line
  }

  predicate NoLineTerminator(s: string) {
    forall i :: 0 <= i < |s| ==> !IsLineTerminator(s[i])
  }

  lemma ConsSlice(s: string, p: nat, j: nat, rest: string)
    requires p < j <= |s|
    ensures [s[p]] + (s[p + 1..j] + rest) == s[p..j] + rest
  {
    assert s[p..j] == [s[p]] + s[p + 1..j];
  }

  /** A character at which no separator line starts is copied. */
  lemma RemoveRulesFromCopyOne(s: string, p: nat)
    requires p < |s| && !RuleAt(s, p)
    ensures RemoveRulesFrom(s, p) == [s[p]] + RemoveRulesFrom(s, p + 1)
  {
  }

  /** Characters at which no separator line starts are copied as they are. */
  lemma {:induction false} RemoveRulesFromCopies(s: string, p: nat, j: nat)
    requires p <= j <= |s|
    requires forall q :: p <= q < j ==> !RuleAt(s, q)
    ensures RemoveRulesFrom(s, p) == s[p..j] + RemoveRulesFrom(s, j)
    decreases j - p
  {
    if p < j {
      RemoveRulesFromCopies(s, p + 1, j);
      RemoveRulesFromCopyOne(s, p);
      var rest := RemoveRulesFrom(s, j);
      calc {
        RemoveRulesFrom(s, p);
        [s[p]] + RemoveRulesFrom(s, p + 1);
        [s[p]] + (s[p + 1..j] + rest);
        { ConsSlice(s, p, j, rest); }
        s[p..j] + rest;
      }
    }
  }

  /** The line from `i` to `j`: a separator line is dropped, any other line is copied. */
  lemma RemoveRulesFromLine(s: string, i: nat, j: nat)
    requires i <= j <= |s| && LineStart(s, i)
    requires NoLineTerminator(s[i..j])
    requires j == |s| || IsLineTerminator(s[j])
    ensures RemoveRulesFrom(s, i) == BlankRule(s[i..j]) + RemoveRulesFrom(s, j)
  {
    var line := s[i..j];
    if line == "***" {
      assert s[i] == line[0] && s[i + 1] == line[1] && s[i + 2] == line[2];
      assert RuleAt(s, i);
    } else {
      forall q | i <= q < j
        ensures !RuleAt(s, q)
      {
        if q > i {
          assert s[q - 1] == line[q - 1 - i];
        } else if i + 3 < j {
          assert s[i + 3] == line[3];
        } else if i + 3 == j {
          assert line == s[i..i + 3];
        }
      }
      RemoveRulesFromCopies(s, i, j);
    }
  }

  lemma AppendAssoc(a: string, b: string, c: string)
    ensures a + (b + c) == a + b + c
  {
  }

  /** Blanking separator lines line by line, split off the first line. */
  lemma BlankRulesCons(lines: seq<string>)
    requires lines != []
    ensures MapSeq(BlankRule, lines) == [BlankRule(lines[0])] + MapSeq(BlankRule, lines[1..])
  {
    MapSeqAppend(BlankRule, [lines[0]], lines[1..]);
    assert [lines[0]] + lines[1..] == lines;
    assert [lines[0]][..0] == [];
  }

  /** Where the first of several joined lines ends, a line break follows and the
      remaining lines begin. */
  lemma JoinedLinesSplit(s: string, i: nat, lines: seq<string>)
    requires i <= |s| && s[i..] == Join(lines, "\n") && |lines| > 1
    ensures i + |lines[0]| < |s| && s[i..i + |lines[0]|] == lines[0]
    ensures s[i + |lines[0]|] == '\n'
    ensures s[i + |lines[0]| + 1..] == Join(lines[1..], "\n")
  {
    var j := i + |lines[0]|;
    var rest := Join(lines[1..], "\n");
    assert s[i..] == lines[0] + "\n" + rest;
    assert s[i..j] == s[i..][..|lines[0]|];
    assert s[j] == s[i..][|lines[0]|];
    assert s[j + 1..] == s[i..][|lines[0]| + 1..];
  }

  predicate NoLineTerminators(lines: seq<string>) {
    forall k :: 0 <= k < |lines| ==> NoLineTerminator(lines[k])
  }

  /** From position `i`, at the start of a line, `s` is `lines` joined by line breaks. */
  predicate LinesAt(s: string, i: nat, lines: seq<string>) {
    i <= |s| && LineStart(s, i) && s[i..] == Join(lines, "\n") && NoLineTerminators(lines)
  }

  lemma NoLineTerminatorsTail(lines: seq<string>)
    requires lines != [] && NoLineTerminators(lines)
    ensures NoLineTerminator(lines[0]) && NoLineTerminators(lines[1..])
  {
    forall k | 0 <= k < |lines| - 1
      ensures NoLineTerminator(lines[1..][k])
    {
      assert lines[1..][k] == lines[k + 1];
    }
  }

  /** No line, or a last line: it keeps its content unless it is a separator line. */
  lemma RemoveRulesFromLastLine(s: string, i: nat, lines: seq<string>)
    requires LinesAt(s, i, lines) && |lines| <= 1
    ensures RemoveRulesFrom(s, i) == Join(MapSeq(BlankRule, lines), "\n")
  {
    if lines == [] {
      assert |s[i..]| == 0;
    } else {
      BlankRulesCons(lines);
      assert s[i..|s|] == lines[0];
      RemoveRulesFromLine(s, i, |s|);
    }
  }

  /** The first of several lines is blanked or kept, its line break is kept, and the
      next line starts after it. */
  lemma RemoveRulesFromFirstLine(s: string, i: nat, j: nat, lines: seq<string>)
    requires LinesAt(s, i, lines) && |lines| > 1 && j == i + |lines[0]|
    ensures j < |s| && LinesAt(s, j + 1, lines[1..])
    ensures RemoveRulesFrom(s, i) == BlankRule(lines[0]) + "\n" + RemoveRulesFrom(s, j + 1)
  {
    assert j < |s| && s[j] == '\n' && s[i..j] == lines[0] && NoLineTerminator(lines[0])
           && LinesAt(s, j + 1, lines[1..]) by {
      NoLineTerminatorsTail(lines);
      JoinedLinesSplit(s, i, lines);
    }
    var first, rest := BlankRule(lines[0]), RemoveRulesFrom(s, j + 1);
    assert RemoveRulesFrom(s, i) == first + RemoveRulesFrom(s, j) by {
      RemoveRulesFromLine(s, i, j);
    }
    assert RemoveRulesFrom(s, j) == "\n" + rest by {
      RemoveRulesFromCopyOne(s, j);
      assert [s[j]] == "\n";
    }
    AppendAssoc(first, "\n", rest);
  }

  /** Blanking and joining several lines: the first line blanked, a line break, and
      the rest blanked and joined. */
  lemma BlankRulesJoin(lines: seq<string>, whole: string, rest: string)
    requires |lines| > 1
    requires rest == Join(MapSeq(BlankRule, lines[1..]), "\n")
    requires whole == BlankRule(lines[0]) + "\n" + rest
    ensures whole == Join(MapSeq(BlankRule, lines), "\n")
  {
    BlankRulesCons(lines);
    var blanked := MapSeq(BlankRule, lines);
    assert blanked[1..] == MapSeq(BlankRule, lines[1..]);
  }

  /** From the start of a line on, text made of lines loses its separator lines and
      keeps every other line, with the line breaks between them. */
  lemma {:induction false} RemoveRulesFromLines(s: string, i: nat, lines: seq<string>)
    requires LinesAt(s, i, lines)
    ensures RemoveRulesFrom(s, i) == Join(MapSeq(BlankRule, lines), "\n")
    decreases |lines|, 1
  {
    if |lines| <= 1 {
      RemoveRulesFromLastLine(s, i, lines);
    } else {
      RemoveRulesFromLinesCons(s, i, lines);
    }
  }

  /** Several lines: the first line, its line break, and the rest in turn. */
  lemma {:induction false} RemoveRulesFromLinesCons(s: string, i: nat, lines: seq<string>)
    requires LinesAt(s, i, lines) && |lines| > 1
    ensures RemoveRulesFrom(s, i) == Join(MapSeq(BlankRule, lines), "\n")
    decreases |lines|, 0
  {
    var j := i + |lines[0]|;
    var tail := lines[1..];
    RemoveRulesFromFirstLine(s, i, j, lines);
    RemoveRulesFromLines(s, j + 1, tail);
    BlankRulesJoin(lines, RemoveRulesFrom(s, i), RemoveRulesFrom(s, j + 1));
  }

  /** Removing separator lines from text made of lines: every line of exactly three
      asterisks is emptied and every other line is kept, in order. */
  lemma RemoveRulesOfLines(lines: seq<string>)
    requires NoLineTerminators(lines)
    ensures RemoveRules(Join(lines, "\n")) == Join(MapSeq(BlankRule, lines), "\n")
  {
    var s := Join(lines, "\n");
    assert s[0..] == s;
    RemoveRulesFromLines(s, 0, lines);
  }

  // ---------------------------------------------------------------------------
  // Filenames
  // ---------------------------------------------------------------------------

  /** The fixed table from the guide's ten section titles to their filenames. */
  function TableFilename(title: string): (f: Option<string>)
    ensures f.Some? ==> EndsWith(f.value, ".md") && |f.value| > 3
  {
    match TableStem(title)
    case None => None
    case Some(stem) => Some(stem + ".md")
  }

  /** The table's file names without their `.md` extension. */
  function TableStem(title: string): (stem: Option<string>)
    ensures stem.Some? ==> stem.value != []
  {
    if title == "1. Authentication & Access Control" then Some("security_policy_auth")
    else if title == "2. Data Security \U{2013} Encryption & Storage" then Some("data_security_encryption")
    else if title == "3. Data Security \U{2013} Multi-tenancy & Isolation" then Some("data_security_multitenancy")
    else if title == "4. Infrastructure & Network Security" then Some("infrastructure_network_security")
    else if title == "5. Compliance & Certifications" then Some("compliance_certifications")
    else if title == "6. Operations & Risk Management" then Some("operations_risk_management")
    else if title == "7. Backup & Disaster Recovery" then Some("backup_disaster_recovery")
    else if title == "8. API & Integration Security" then Some("api_integration_security")
    else if title == "9. Legal & Contractual" then Some("legal_contractual")
    else if title == "10. Privacy & Data Handling" then Some("privacy_data_handling")
    else None
  }

  /** `[a-z0-9]`. */
  predicate IsSlugChar(c: char) {
    'a' <= c <= 'z' || '0' <= c <= '9'
  }

  /** A slug body: letters, digits and single underscores. */
  predicate SlugShaped(r: string) {
    && (forall i :: 0 <= i < |r| ==> IsSlugChar(r[i]) || r[i] == '_')
    && (forall i :: 0 <= i < |r| - 1 ==> !(r[i] == '_' && r[i + 1] == '_'))
  }

  /** The letters and digits of `s`, in order. */
  function Alnums(s: string): string {
    if s == [] then [] else (if IsSlugChar(s[0]) then [s[0]] else []) + Alnums(s[1..])
  }

  /** Drops the run of characters outside `[a-z0-9]` at the front. */
  function DropRun(s: string): (r: string)
    ensures |r| <= |s| && r == s[|s| - |r|..]
    ensures r == [] || IsSlugChar(r[0])
    ensures forall i :: 0 <= i < |s| - |r| ==> !IsSlugChar(s[i])
  {
    if s == [] || IsSlugChar(s[0]) then s else DropRun(s[1..])
  }

  lemma {:induction false} AlnumsOfDropRun(s: string)
    ensures Alnums(DropRun(s)) == Alnums(s)
  {
    if s != [] && !IsSlugChar(s[0]) {
      AlnumsOfDropRun(s[1..]);
    }
  }

  /** `replace(/[^a-z0-9]+/g, '_')`: each maximal run outside `[a-z0-9]` becomes one
      underscore. */
  function CollapseRuns(s: string): (r: string)
    ensures r == [] <==> s == []
    ensures r != [] ==> (r[0] == '_' <==> !IsSlugChar(s[0]))
    decreases |s|
  {
    if s == [] then []
    else if IsSlugChar(s[0]) then [s[0]] + CollapseRuns(s[1..])
    else ['_'] + CollapseRuns(DropRun(s))
  }

  predicate NoSlugChar(r: string) {
    forall i :: 0 <= i < |r| ==> !IsSlugChar(r[i])
  }

  /** A run outside `[a-z0-9]` is dropped up to the next letter or digit. */
  lemma {:induction false} DropRunOver(r: string, b: string)
    requires NoSlugChar(r)
    requires b == [] || IsSlugChar(b[0])
    ensures DropRun(r + b) == b
    decreases |r|
  {
    if r == [] {
      assert r + b == b;
    } else {
      assert (r + b)[0] == r[0];
      assert (r + b)[1..] == r[1..] + b;
      DropRunOver(r[1..], b);
    }
  }

  /** A leading run ends inside a text that ends with a letter or digit. */
  lemma {:induction false} DropRunWithin(a: string, x: string)
    requires a != [] && IsSlugChar(a[|a| - 1])
    ensures DropRun(a + x) == DropRun(a) + x
    decreases |a|
  {
    assert (a + x)[0] == a[0];
    if !IsSlugChar(a[0]) {
      assert (a + x)[1..] == a[1..] + x;
      DropRunWithin(a[1..], x);
    }
  }

  lemma EmptyAppend(a: string, x: string)
    requires a == []
    ensures a + x == x
  {
  }

  lemma LastOfTail(a: string)
    requires a != []
    ensures a[1..] == [] || a[1..][|a| - 2] == a[|a| - 1]
  {
  }

  lemma TailOfAppend(a: string, c: string)
    requires a != []
    ensures (a + c)[0] == a[0] && (a + c)[1..] == a[1..] + c
  {
  }

  lemma AppendAssoc4(p: string, q: string, u: string, v: string)
    ensures p + (q + u + v) == p + q + u + v
  {
  }

  /** Dropping a leading run of a text that ends with a letter or digit leaves a
      shorter, non-empty text with the same last character. */
  lemma DropRunKeepsLast(a: string)
    requires a != [] && !IsSlugChar(a[0]) && IsSlugChar(a[|a| - 1])
    ensures var d := DropRun(a); d != [] && |d| < |a| && IsSlugChar(d[|d| - 1])
  {
  }

  /** A run in front of `b` becomes one underscore. */
  lemma CollapseRunsOfRun(r: string, b: string)
    requires r != [] && NoSlugChar(r)
    requires b == [] || IsSlugChar(b[0])
    ensures CollapseRuns(r + b) == "_" + CollapseRuns(b)
  {
    TailOfAppend(r, b);
    DropRunOver(r, b);
  }

  /** With nothing in front, the run becomes the leading underscore. */
  lemma CollapseRunsAroundEmpty(a: string, r: string, b: string)
    requires a == [] && r != [] && NoSlugChar(r)
    requires b == [] || IsSlugChar(b[0])
    ensures CollapseRuns(a + r + b) == CollapseRuns(a) + "_" + CollapseRuns(b)
  {
    CollapseRunsOfRun(r, b);
    EmptyAppend(a, r + b);
    AppendAssoc(a, r, b);
    EmptyAppend(CollapseRuns(a), "_" + CollapseRuns(b));
    AppendAssoc(CollapseRuns(a), "_", CollapseRuns(b));
  }

  /** A leading letter or digit of `a` is copied in front of both sides. */
  lemma CollapseRunsAroundSlugStep(a: string, r: string, b: string)
    requires a != [] && IsSlugChar(a[0])
    requires CollapseRuns(a[1..] + r + b) == CollapseRuns(a[1..]) + "_" + CollapseRuns(b)
    ensures CollapseRuns(a + r + b) == CollapseRuns(a) + "_" + CollapseRuns(b)
  {
    var x := a + r + b;
    TailOfAppend(a, r + b);
    AppendAssoc(a, r, b);
    AppendAssoc(a[1..], r, b);
    calc {
      CollapseRuns(x);
      [a[0]] + CollapseRuns(a[1..] + r + b);
      [a[0]] + (CollapseRuns(a[1..]) + "_" + CollapseRuns(b));
      { AppendAssoc4([a[0]], CollapseRuns(a[1..]), "_", CollapseRuns(b)); }
      [a[0]] + CollapseRuns(a[1..]) + "_" + CollapseRuns(b);
      CollapseRuns(a) + "_" + CollapseRuns(b);
    }
  }

  /** A leading run of `a` becomes one underscore in front of both sides. */
  lemma CollapseRunsAroundRunStep(a: string, r: string, b: string)
    requires a != [] && !IsSlugChar(a[0]) && IsSlugChar(a[|a| - 1])
    requires CollapseRuns(DropRun(a) + r + b) == CollapseRuns(DropRun(a)) + "_" + CollapseRuns(b)
    ensures CollapseRuns(a + r + b) == CollapseRuns(a) + "_" + CollapseRuns(b)
  {
    var x := a + r + b;
    var d := DropRun(a);
    TailOfAppend(a, r + b);
    AppendAssoc(a, r, b);
    DropRunWithin(a, r + b);
    AppendAssoc(d, r, b);
    calc {
      CollapseRuns(x);
      "_" + CollapseRuns(DropRun(x));
      "_" + CollapseRuns(d + r + b);
      "_" + (CollapseRuns(d) + "_" + CollapseRuns(b));
      { AppendAssoc4("_", CollapseRuns(d), "_", CollapseRuns(b)); }
      "_" + CollapseRuns(d) + "_" + CollapseRuns(b);
      CollapseRuns(a) + "_" + CollapseRuns(b);
    }
  }

  /** A maximal run outside `[a-z0-9]` becomes exactly one underscore, whatever is
      collapsed on either side of it. */
  lemma {:induction false} CollapseRunsAround(a: string, r: string, b: string)
    requires a == [] || IsSlugChar(a[|a| - 1])
    requires r != [] && NoSlugChar(r)
    requires b == [] || IsSlugChar(b[0])
    ensures CollapseRuns(a + r + b) == CollapseRuns(a) + "_" + CollapseRuns(b)
    decreases |a|
  {
    if a == [] {
      CollapseRunsAroundEmpty(a, r, b);
    } else if IsSlugChar(a[0]) {
      LastOfTail(a);
      CollapseRunsAround(a[1..], r, b);
      CollapseRunsAroundSlugStep(a, r, b);
    } else {
      DropRunKeepsLast(a);
      CollapseRunsAround(DropRun(a), r, b);
      CollapseRunsAroundRunStep(a, r, b);
    }
  }

  /** Collapsing runs leaves letters, digits and single underscores. */
  lemma {:induction false} CollapseRunsSlugShaped(s: string)
    ensures SlugShaped(CollapseRuns(s))
    decreases |s|
  {
    if s != [] {
      var r := CollapseRuns(s);
      var rest := if IsSlugChar(s[0]) then s[1..] else DropRun(s);
      CollapseRunsSlugShaped(rest);
      assert r[1..] == CollapseRuns(rest);
    }
  }

  /** Collapsing runs keeps every letter and digit, in order. */
  lemma {:induction false} CollapseRunsKeepsAlnums(s: string)
    ensures Alnums(CollapseRuns(s)) == Alnums(s)
    decreases |s|
  {
    if s != [] {
      var r := CollapseRuns(s);
      if IsSlugChar(s[0]) {
        CollapseRunsKeepsAlnums(s[1..]);
        assert r[1..] == CollapseRuns(s[1..]);
      } else {
        CollapseRunsKeepsAlnums(DropRun(s));
        AlnumsOfDropRun(s);
        assert r[1..] == CollapseRuns(DropRun(s));
      }
    }
  }

  /** `replace(/^_|_$/g, '')`: one underscore off the front, then one off the back. */
  function StripEdges(t: string): (r: string)
    requires SlugShaped(t)
    ensures SlugShaped(r)
    ensures r == [] || (r[0] != '_' && r[|r| - 1] != '_')
    ensures t == r || t == "_" + r || t == r + "_" || t == "_" + r + "_"
    ensures Alnums(r) == Alnums(t)
  {
    var a := if t != [] && t[0] == '_' then 1 else 0;
    var b := if |t| > a && t[|t| - 1] == '_' then |t| - 1 else |t|;
    StripEdgesSlice(t, a, b);
    StripEdgesFrame(t, a, b);
    assert a < b ==> t[a..b][0] == t[a] && t[a..b][b - a - 1] == t[b - 1];
    t[a..b]
  }

  /** Cutting one underscore from either end, or none: the text is the middle with
      those underscores put back. */
  lemma StripEdgesFrame(t: string, a: nat, b: nat)
    requires a <= 1 && a <= b <= |t| && b + 1 >= |t|
    requires a == 1 ==> t[0] == '_'
    requires b < |t| ==> t[|t| - 1] == '_'
    ensures var m := t[a..b];
            t == m || t == "_" + m || t == m + "_" || t == "_" + m + "_"
  {
    assert t == t[..a] + t[a..b] + t[b..];
    assert a == 1 ==> t[..a] == "_";
    assert b < |t| ==> t[b..] == "_";
  }

  /** Cutting an edge underscore off each end keeps a slug body, its letters and digits,
      and leaves no underscore at either end. */
  lemma StripEdgesSlice(t: string, a: nat, b: nat)
    requires SlugShaped(t)
    requires a == (if t != [] && t[0] == '_' then 1 else 0)
    requires b == (if |t| > a && t[|t| - 1] == '_' then |t| - 1 else |t|)
    ensures a <= b <= |t|
    ensures SlugShaped(t[a..b])
    ensures a < b ==> t[a] != '_' && t[b - 1] != '_'
    ensures Alnums(t[a..b]) == Alnums(t)
  {
    SlugShapedSlice(t, a, b);
    AlnumsOfStrip(t, a, b);
    if a < b {
      StripEnds(t, a, b);
    }
  }

  lemma StripEnds(t: string, a: nat, b: nat)
    requires forall i :: 0 <= i < |t| - 1 ==> !(t[i] == '_' && t[i + 1] == '_')
    requires a == (if t != [] && t[0] == '_' then 1 else 0)
    requires b == (if |t| > a && t[|t| - 1] == '_' then |t| - 1 else |t|)
    requires a < b
    ensures t[a] != '_' && t[b - 1] != '_'
  {
    if b < |t| {
      assert t[b] == '_';
    }
  }

  lemma SlugShapedSlice(t: string, a: nat, b: nat)
    requires SlugShaped(t) && a <= b <= |t|
    ensures SlugShaped(t[a..b])
  {
    assert forall i :: 0 <= i < b - a ==> t[a..b][i] == t[a + i];
  }

  lemma AlnumsOfStrip(t: string, a: nat, b: nat)
    requires a <= 1 && a <= b <= |t| && |t| - b <= 1
    requires a == 1 ==> t[0] == '_'
    requires b < |t| ==> t[|t| - 1] == '_'
    ensures Alnums(t[a..b]) == Alnums(t)
  {
    var u := t[a..];
    assert a == 1 ==> Alnums(t) == Alnums(u);
    AlnumsDropLastUnderscore(u);
    assert b < |t| ==> t[a..b] == u[..|u| - 1];
    assert b == |t| ==> t[a..b] == u;
  }

  lemma {:induction false} AlnumsDropLastUnderscore(u: string)
    ensures u != [] && u[|u| - 1] == '_' ==> Alnums(u[..|u| - 1]) == Alnums(u)
  {
    if u != [] && u[|u| - 1] == '_' {
      if |u| > 1 {
        AlnumsDropLastUnderscore(u[1..]);
        assert u[1..][..|u| - 2] == u[..|u| - 1][1..];
      }
    }
  }

  /** The slug of a title: lower-cased, runs outside `[a-z0-9]` turned into one
      underscore, an edge underscore dropped at either end. */
  function Slug(title: string): (r: string)
    ensures SlugShaped(r)
    ensures r == [] || (r[0] != '_' && r[|r| - 1] != '_')
    ensures var t := CollapseRuns(Lower(title));
            t == r || t == "_" + r || t == r + "_" || t == "_" + r + "_"
    ensures Alnums(r) == Alnums(Lower(title))
  {
    CollapseRunsKeepsAlnums(Lower(title));
    CollapseRunsSlugShaped(Lower(title));
    StripEdges(CollapseRuns(Lower(title)))
  }

  /** A slug body is its own collapsed form. */
  lemma {:induction false} CollapseRunsOfSlugShaped(r: string)
    requires SlugShaped(r)
    requires r == [] || r[0] != '_' || |r| == 1 || IsSlugChar(r[1])
    ensures CollapseRuns(r) == r
  {
    if r != [] {
      var t := r[1..];
      assert SlugShaped(t);
      assert t == [] || t[0] != '_' || |t| == 1 || IsSlugChar(t[1]) by {
        if |t| > 1 && t[0] == '_' {
          assert r[1] == '_' && r[2] == t[1];
        }
      }
      CollapseRunsOfSlugShaped(t);
      if IsSlugChar(r[0]) {
        assert CollapseRuns(r) == [r[0]] + CollapseRuns(t);
      } else {
        assert t == [] || IsSlugChar(t[0]);
        assert DropRun(t) == t;
        assert DropRun(r) == t;
        assert CollapseRuns(r) == ['_'] + CollapseRuns(t);
      }
      assert r == [r[0]] + t;
    }
  }

  /** Slugging a slug changes nothing. */
  lemma SlugIdempotent(title: string)
    ensures Slug(Slug(title)) == Slug(title)
  {
    var r := Slug(title);
    LowerOfSlugShaped(r);
    CollapseRunsOfSlugShaped(r);
    assert StripEdges(r) == r;
  }

  /** Lower-casing leaves a slug body alone. */
  lemma LowerOfSlugShaped(r: string)
    requires SlugShaped(r)
    ensures Lower(r) == r
  {
    assert forall i :: 0 <= i < |r| ==> Lower(r)[i] == r[i];
  }

  /** The filename of a concept: the table's entry for its title, else its slug with
      `.md`. */
  function Filename(title: string): (f: string)
    ensures TableFilename(title).Some? ==> f == TableFilename(title).value
    ensures TableFilename(title).None? ==> f == Slug(title) + ".md"
    ensures EndsWith(f, ".md")
  {
    match TableFilename(title)
    case Some(f) => f
    case None => Slug(title) + ".md"
  }

  // ---------------------------------------------------------------------------
  // Concepts
  // ---------------------------------------------------------------------------

  /** The index of the first `\n`, or the length when there is none. */
  function FirstNewline(s: string): (k: nat)
    ensures k <= |s| && (k == |s| || s[k] == '\n')
    ensures forall i :: 0 <= i < k ==> s[i] != '\n'
  {
    if s == [] || s[0] == '\n' then 0 else 1 + FirstNewline(s[1..])
  }

  predicate NoNewline(s: string) {
    forall i :: 0 <= i < |s| ==> s[i] != '\n'
  }

  /** What a concept produced by the parser looks like. */
  predicate WellFormed(c: Concept) {
    && NoNewline(c.title) && IsTrimmed(c.title)
    && c.content != [] && IsTrimmed(c.content)
    && EndsWith(c.filename, ".md")
  }

  /** Everything after the title line, trimmed; empty when there is no second line. */
  function SectionBody(section: string): string {
    var k := FirstNewline(section);
    if k < |section| then Trim(section[k + 1..]) else ""
  }

  /** One section: its first line (trimmed) is the title, the rest (trimmed, separator
      lines removed, trimmed again) the content; a section without content gives
      nothing. */
  function SectionConcept(section: string): (c: Option<Concept>)
    ensures c.Some? ==> WellFormed(c.value)
    ensures c.Some? ==> c.value.filename == Filename(c.value.title)
  {
    var k := FirstNewline(section);
    var title := Trim(section[..k]);
    var clean := Trim(RemoveRules(SectionBody(section)));
    if clean == [] then None
    else
      TrimKeepsNoNewline(section[..k]);
      Some(Concept(title, clean, Filename(title)))
  }

  /** A section that is only a title line has no content and gives no concept. */
  lemma TitleOnlySection(section: string)
    requires NoNewline(section)
    ensures SectionConcept(section).None?
  {
    assert FirstNewline(section) == |section|;
    assert Trim("") == [];
    assert RemoveRules("") == [];
  }

  /** A section with a title line and a body: the title is the trimmed line; the body,
      trimmed, without its separator lines and trimmed again, is the content; and the
      section gives a concept exactly when that content is not empty. */
  lemma SectionConceptOfLines(t: string, body: string)
    requires NoNewline(t)
    ensures var c := SectionConcept(t + "\n" + body);
            var clean := Trim(RemoveRules(Trim(body)));
            && (c.None? <==> clean == [])
            && (c.Some? ==> c.value == Concept(Trim(t), clean, Filename(Trim(t))))
  {
    var section := t + "\n" + body;
    assert section == t + ("\n" + body);
    FirstNewlineAfter(t, "\n" + body);
    assert section[..|t|] == t;
    assert section[|t| + 1..] == body;
  }

  lemma AllSpaceSuffix(s: string, j: nat)
    requires AllSpace(s) && j <= |s|
    ensures AllSpace(s[j..])
  {
    forall i | 0 <= i < |s| - j
      ensures IsSpace(s[j..][i])
    {
      assert s[j..][i] == s[j + i];
    }
  }

  /** Text that is blank, or empty after removing separator lines, stays empty. */
  lemma BlankContent(content: string)
    requires content == []
    ensures Trim(RemoveRules(content)) == []
  {
    TrimEmptyIffAllSpace(RemoveRules(content));
  }

  /** A blank section has no content and gives no concept. */
  lemma BlankSectionHasNoConcept(section: string)
    requires Trim(section) == []
    ensures SectionConcept(section) == None
  {
    BlankSectionHasNoBody(section);
    BlankContent(SectionBody(section));
  }

  lemma BlankSectionHasNoBody(section: string)
    requires Trim(section) == []
    ensures SectionBody(section) == []
  {
    TrimEmptyIffAllSpace(section);
    var k := FirstNewline(section);
    if k < |section| {
      AllSpaceSuffix(section, k + 1);
      TrimEmptyIffAllSpace(section[k + 1..]);
    }
  }

  /** Filtering out blank sections first changes nothing. */
  lemma SectionStepIsSectionConcept(section: string)
    ensures SectionStep(section) == SectionConcept(section)
  {
    if Trim(section) == [] {
      BlankSectionHasNoConcept(section);
    }
  }

  lemma TrimKeepsNoNewline(s: string)
    requires NoNewline(s)
    ensures NoNewline(Trim(s))
  {
    var t := TrimStart(s);
    NoNewlineSlice(s, |s| - |t|, |s|);
    NoNewlineSlice(t, 0, |TrimEnd(t)|);
  }

  lemma NoNewlineSlice(s: string, a: nat, b: nat)
    requires NoNewline(s) && a <= b <= |s|
    ensures NoNewline(s[a..b])
  {
    assert forall i :: 0 <= i < b - a ==> s[a..b][i] == s[a + i];
  }

  /** One section as the loop sees it: blank sections are filtered out before parsing. */
  function SectionStep(section: string): (c: Option<Concept>)
    ensures c.Some? ==> WellFormed(c.value)
  {
    if Trim(section) != [] then SectionConcept(section) else None
  }

  /** The present values of a list of options, in order. */
  function Present<T>(xs: seq<Option<T>>): (r: seq<T>)
    ensures |r| <= |xs|
  {
    if xs == [] then []
    else
      var last := xs[|xs| - 1];
      Present(xs[..|xs| - 1]) + (if last.Some? then [last.value] else [])
  }

  /** Everything `Present` keeps was present in the list. */
  lemma {:induction false} PresentMembers<T>(xs: seq<Option<T>>)
    ensures forall i :: 0 <= i < |Present(xs)| ==> Some(Present(xs)[i]) in xs
  {
    if xs != [] {
      var init := xs[..|xs| - 1];
      PresentMembers(init);
      forall i | 0 <= i < |Present(xs)|
        ensures Some(Present(xs)[i]) in xs
      {
        if i < |Present(init)| {
          assert Present(xs)[i] == Present(init)[i];
          assert Some(Present(init)[i]) in init;
        } else {
          assert xs[|xs| - 1] == Some(Present(xs)[i]);
        }
      }
    }
  }

  /** `Present` of a concatenation is the concatenation of the two. */
  lemma {:induction false} PresentAppend<T>(a: seq<Option<T>>, b: seq<Option<T>>)
    ensures Present(a + b) == Present(a) + Present(b)
    decreases |b|
  {
    if b == [] {
      assert a + b == a;
    } else {
      var n := |b| - 1;
      assert (a + b)[..|a + b| - 1] == a + b[..n];
      assert (a + b)[|a + b| - 1] == b[n];
      PresentAppend(a, b[..n]);
    }
  }

  /** The concepts of a list of sections, in order: blank sections are filtered out first,
      and sections without content give none. */
  function ConceptsOf(sections: seq<string>): (cs: seq<Concept>)
    ensures |cs| <= |sections|
  {
    Present(MapSeq(SectionStep, sections))
  }

  /** Every concept the parser produces is well formed. */
  lemma ConceptsWellFormed(sections: seq<string>)
    ensures forall i :: 0 <= i < |ConceptsOf(sections)| ==> WellFormed(ConceptsOf(sections)[i])
  {
    PresentOfMapSatisfies(SectionStep, WellFormed, sections);
  }

  /** When every value `f` yields satisfies `p`, so does every value kept from mapping `f`. */
  lemma PresentOfMapSatisfies<A, B>(f: A -> Option<B>, p: B -> bool, xs: seq<A>)
    requires forall a :: f(a).Some? ==> p(f(a).value)
    ensures forall i :: 0 <= i < |Present(MapSeq(f, xs))| ==> p(Present(MapSeq(f, xs))[i])
  {
    var steps := MapSeq(f, xs);
    PresentMembers(steps);
    forall i | 0 <= i < |Present(steps)|
      ensures p(Present(steps)[i])
    {
      var j :| 0 <= j < |steps| && steps[j] == Some(Present(steps)[i]);
      MapSeqAt(f, xs, j);
    }
  }

  /** Concepts keep the order of their sections. */
  lemma ConceptsOfAppend(a: seq<string>, b: seq<string>)
    ensures ConceptsOf(a + b) == ConceptsOf(a) + ConceptsOf(b)
  {
    MapSeqAppend(SectionStep, a, b);
    PresentAppend(MapSeq(SectionStep, a), MapSeq(SectionStep, b));
  }

  /** The parsing loop: each item is handed to `step` (for sections, `SectionStep`: skip a
      blank one, else parse it) and what it yields is appended. */
  method CollectSteps<A, B>(step: A -> Option<B>, xs: seq<A>) returns (r: seq<B>)
    ensures r == Present(MapSeq(step, xs))
  {
    r := [];
    for i := 0 to |xs|
      invariant r == Present(MapSeq(step, xs[..i]))
    {
      var c := step(xs[i]);
      assert xs[..i + 1] == xs[..i] + [xs[i]];
      MapSeqAppend(step, xs[..i], [xs[i]]);
      PresentAppend(MapSeq(step, xs[..i]), [c]);
      if c.Some? {
        r := r + [c.value];
      }
    }
    assert xs[..|xs|] == xs;
  }

  /** `parseMarkdownText`: split at headings, then parse each non-blank section. */
  method ParseMarkdownText(text: string) returns (concepts: seq<Concept>)
    ensures concepts == ConceptsOf(Sections(text))
    ensures forall i :: 0 <= i < |concepts| ==> WellFormed(concepts[i])
  {
    concepts := CollectSteps(SectionStep, Sections(text));
    ConceptsWellFormed(Sections(text));
  }

  // ---------------------------------------------------------------------------
  // Concept markdown
  // ---------------------------------------------------------------------------

  /** The markdown document of one concept: its title as a level-one heading, a blank
      line, then its content. */
  function Wrap(c: Concept): string {
    "# " + c.title + "\n\n" + c.content
  }

  /** Reads a concept document back: the heading text and the body after the blank line. */
  function Unwrap(m: string): Option<(string, string)> {
    if |m| < 2 || m[..2] != "# " then None
    else
      var k := 2 + FirstNewline(m[2..]);
      if k + 2 <= |m| && m[k..k + 2] == "\n\n" then Some((m[2..k], m[k + 2..])) else None
  }

  lemma {:induction false} FirstNewlineAfter(t: string, rest: string)
    requires NoNewline(t) && rest != [] && rest[0] == '\n'
    ensures FirstNewline(t + rest) == |t|
  {
    if t != [] {
      assert (t + rest)[1..] == t[1..] + rest;
      FirstNewlineAfter(t[1..], rest);
    } else {
      assert t + rest == rest;
    }
  }

  /** A concept's document gives back its title and content. */
  lemma UnwrapWrap(c: Concept)
    requires NoNewline(c.title)
    ensures Unwrap(Wrap(c)) == Some((c.title, c.content))
  {
    var m := Wrap(c);
    assert m[2..] == c.title + ("\n\n" + c.content);
    FirstNewlineAfter(c.title, "\n\n" + c.content);
    var k := 2 + |c.title|;
    assert m[2..k] == c.title;
    assert m[k..k + 2] == "\n\n";
    assert m[k + 2..] == c.content;
  }

  /** `createConceptMarkdowns`: one document per concept, in order, under the concept's
      filename. */
  method CreateConceptMarkdowns(concepts: seq<Concept>) returns (markdowns: seq<ConceptMarkdown>)
    ensures |markdowns| == |concepts|
    ensures forall i :: 0 <= i < |concepts| ==>
              markdowns[i] == ConceptMarkdown(concepts[i].filename, Wrap(concepts[i]))
              && (NoNewline(concepts[i].title) ==>
                    Unwrap(markdowns[i].markdown) == Some((concepts[i].title, concepts[i].content)))
  {
    markdowns := [];
    for i := 0 to |concepts|
      invariant |markdowns| == i
      invariant forall j :: 0 <= j < i ==> markdowns[j] == ConceptMarkdown(concepts[j].filename, Wrap(concepts[j]))
    {
      markdowns := markdowns + [ConceptMarkdown(concepts[i].filename, Wrap(concepts[i]))];
    }
    forall j | 0 <= j < |concepts| && NoNewline(concepts[j].title)
      ensures Unwrap(markdowns[j].markdown) == Some((concepts[j].title, concepts[j].content))
    {
      UnwrapWrap(concepts[j]);
    }
  }
}
