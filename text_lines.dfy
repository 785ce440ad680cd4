/**
 * The Python string built-ins the cleaning transforms are made of:
 * `str.splitlines()` (on '\n' only), `"\n".join(...)`, `str.strip()` /
 * `str.rstrip()` over Python's whitespace set, `str.lstrip(" \t")` and
 * `re.sub(r" {2,}", " ", s)`.
 */
module TextLines {

  /** Python's `str.isspace()` set, which `strip()` and `rstrip()` remove. */
  predicate IsWs(c: char) {
    || ('\U{9}' <= c <= '\U{D}')
    || ('\U{1C}' <= c <= '\U{1F}')
    || c == ' ' || c == '\U{85}' || c == '\U{A0}' || c == '\U{1680}'
    || ('\U{2000}' <= c <= '\U{200A}')
    || c == '\U{2028}' || c == '\U{2029}' || c == '\U{202F}' || c == '\U{205F}' || c == '\U{3000}'
  }

  /** `not line.strip()`: the line holds whitespace only (or nothing). */
  predicate IsBlank(line: string) {
    line == [] || (IsWs(line[0]) && IsBlank(line[1..]))
  }

  /** A blank line is one whose every character is whitespace. */
  lemma {:induction false} BlankIffAllWs(line: string)
    ensures IsBlank(line) <==> forall i :: 0 <= i < |line| ==> IsWs(line[i])
  {
    if line != [] {
      BlankIffAllWs(line[1..]);
      assert forall i :: 1 <= i < |line| ==> line[i] == line[1..][i - 1];
    }
  }

  predicate NoNewline(line: string) {
    forall i :: 0 <= i < |line| ==> line[i] != '\n'
  }

  predicate AllNoNewline(ls: seq<string>) {
    forall k :: 0 <= k < |ls| ==> NoNewline(ls[k])
  }

  /** The position of the first '\n' in `s`, or `|s|` when there is none. */
  function NewlineIndex(s: string): (i: nat)
    ensures i <= |s|
    ensures i < |s| ==> s[i] == '\n'
    ensures NoNewline(s[..i])
  {
    if s == [] || s[0] == '\n' then 0 else 1 + NewlineIndex(s[1..])
  }

  /**
   * `s.splitlines()` restricted to '\n' as the only line break: the pieces
   * between the breaks, where a final break closes the last line instead of
   * opening an empty one.
   */
  function Lines(s: string): (ls: seq<string>)
    ensures ls == [] <==> s == []
    decreases |s|
  {
    if s == [] then []
    else
      var i := NewlineIndex(s);
      if i == |s| then [s] else [s[..i]] + Lines(s[i + 1..])
  }

  /** No line `splitlines` gives holds a '\n'. */
  lemma {:induction false} LinesHaveNoBreak(s: string)
    ensures AllNoNewline(Lines(s))
    decreases |s|
  {
    if s != [] {
      var i := NewlineIndex(s);
      if i < |s| {
        LinesHaveNoBreak(s[i + 1..]);
      } else {
        assert s[..i] == s;
      }
    }
  }

  /** `ls` without its last element when that element is the empty line. */
  function DropFinalEmpty(ls: seq<string>): seq<string> {
    if ls != [] && ls[|ls| - 1] == [] then ls[..|ls| - 1] else ls
  }

  /** `"\n".join(ls)`. */
  function Join(ls: seq<string>): string {
    if ls == [] then []
    else if |ls| == 1 then ls[0]
    else ls[0] + "\n" + Join(ls[1..])
  }

  /** Python `line.rstrip()`: drop the trailing run of whitespace. */
  function RStrip(line: string): (r: string)
    ensures r <= line
    ensures r == [] || !IsWs(r[|r| - 1])
    ensures forall i :: |r| <= i < |line| ==> IsWs(line[i])
  {
    if line != [] && IsWs(line[|line| - 1]) then RStrip(line[..|line| - 1]) else line
  }

  /** Right-stripping removes exactly a trailing run of whitespace. */
  lemma {:induction false} RStripAppend(l: string, w: string)
    requires l == [] || !IsWs(l[|l| - 1])
    requires forall i :: 0 <= i < |w| ==> IsWs(w[i])
    ensures RStrip(l + w) == l
  {
    var s := l + w;
    var r := RStrip(s);
    assert r == s[..|r|];
    assert l == s[..|l|];
  }

  /** Right-stripping a line leaves nothing exactly when the line is blank. */
  lemma {:induction false} RStripEmptyIffBlank(line: string)
    ensures RStrip(line) == [] <==> IsBlank(line)
  {
    BlankIffAllWs(line);
    var r := RStrip(line);
    if r != [] {
      assert r[|r| - 1] == line[|r| - 1];
    }
  }

  /** `[line.rstrip() for line in ls]`. */
  function RStripEach(ls: seq<string>): (r: seq<string>)
    ensures |r| == |ls|
    ensures forall k :: 0 <= k < |ls| ==> r[k] == RStrip(ls[k])
  {
    seq(|ls|, k requires 0 <= k < |ls| => RStrip(ls[k]))
  }

  predicate IsSpaceOrTab(c: char) {
    c == ' ' || c == '\t'
  }

  /** Python `line.lstrip(" \t")`: drop the leading run of spaces and tabs. */
  function LStripSpaceTab(line: string): (r: string)
    ensures |r| <= |line| && r == line[|line| - |r|..]
    ensures r == [] || !IsSpaceOrTab(r[0])
    ensures forall i :: 0 <= i < |line| - |r| ==> IsSpaceOrTab(line[i])
  {
    if line != [] && IsSpaceOrTab(line[0]) then LStripSpaceTab(line[1..]) else line
  }

  /**
   * `o` is what `lstrip(" \t")` leaves of `l`: a suffix of `l` that does not
   * start with a space or a tab, after a prefix made only of them.
   */
  ghost predicate IsLStripOf(o: string, l: string) {
    && |o| <= |l|
    && o == l[|l| - |o|..]
    && (o == [] || !IsSpaceOrTab(o[0]))
    && forall i :: 0 <= i < |l| - |o| ==> IsSpaceOrTab(l[i])
  }

  /** `[line.lstrip(" \t") for line in ls]`. */
  function LStripEach(ls: seq<string>): (r: seq<string>)
    ensures |r| == |ls|
    ensures forall k :: 0 <= k < |ls| ==> r[k] == LStripSpaceTab(ls[k])
  {
    seq(|ls|, k requires 0 <= k < |ls| => LStripSpaceTab(ls[k]))
  }

  /**
   * Each line kept after stripping a list of lines and dropping a final
   * empty one is the stripped form of the line at the same position.
   */
  lemma {:induction false} LStripEachKept(ls: seq<string>, out: seq<string>)
    requires out == DropFinalEmpty(LStripEach(ls))
    ensures |out| <= |ls|
    ensures forall k :: 0 <= k < |out| ==> IsLStripOf(out[k], ls[k])
  {
    var ss := LStripEach(ls);
    assert out <= ss;
    forall k | 0 <= k < |out| ensures IsLStripOf(out[k], ls[k]) {
      assert out[k] == ss[k] == LStripSpaceTab(ls[k]);
    }
  }

  /** No two adjacent characters of `s` are both ' '. */
  ghost predicate NoDoubleSpace(s: string) {
    forall i, j :: 0 <= i < j < |s| && j == i + 1 ==> !(s[i] == ' ' && s[j] == ' ')
  }

  /** The length of the run of ' ' that starts `s`. */
  function LeadingSpaces(s: string): (n: nat)
    ensures n <= |s|
    ensures forall i :: 0 <= i < n ==> s[i] == ' '
    ensures n < |s| ==> s[n] != ' '
  {
    if s != [] && s[0] == ' ' then 1 + LeadingSpaces(s[1..]) else 0
  }

  /**
   * `re.sub(r" {2,}", " ", line)`, with the regex engine's scan: at each
   * position a greedy match of two or more spaces is replaced by one space
   * and the scan resumes after it; otherwise one character is copied.
   * Only ' ' takes part: tabs are copied like any other character.
   */
  function CollapseSpaces(line: string): (r: string)
    ensures (r == []) == (line == [])
    ensures line != [] ==> r[0] == line[0] && r[|r| - 1] == line[|line| - 1]
    ensures |r| <= |line|
    ensures NoDoubleSpace(r)
    ensures forall c :: c in r ==> c in line
    decreases |line|
  {
    if line == [] then []
    else
      var n := LeadingSpaces(line);
      if n >= 2 then " " + CollapseSpaces(line[n..])
      else [line[0]] + CollapseSpaces(line[1..])
  }

  /** `[re.sub(r" {2,}", " ", line) for line in ls]`. */
  function CollapseEach(ls: seq<string>): (r: seq<string>)
    ensures |r| == |ls|
    ensures forall k :: 0 <= k < |ls| ==> r[k] == CollapseSpaces(ls[k])
  {
    seq(|ls|, k requires 0 <= k < |ls| => CollapseSpaces(ls[k]))
  }

  /**
   * An independent reference for `CollapseSpaces`: delete every space that
   * immediately follows another space.
   */
  function DropRepeatedSpaces(s: string): string {
    if |s| < 2 then s
    else if s[0] == ' ' && s[1] == ' ' then DropRepeatedSpaces(s[1..])
    else [s[0]] + DropRepeatedSpaces(s[1..])
  }

  /** The characters of `s` other than ' ', in order. */
  function NonSpaces(s: string): string {
    if s == [] then []
    else if s[0] == ' ' then NonSpaces(s[1..])
    else [s[0]] + NonSpaces(s[1..])
  }

  // ----- splitlines and join -----

  /** A break-free first line followed by a break ends exactly at that break. */
  lemma {:induction false} NewlineIndexAt(s: string, n: nat)
    requires n <= |s| && NoNewline(s[..n])
    requires n < |s| ==> s[n] == '\n'
    ensures NewlineIndex(s) == n
  {
    if n > 0 {
      assert s[0] == s[..n][0];
      assert s[1..][..n - 1] == s[..n][1..];
      NewlineIndexAt(s[1..], n - 1);
    }
  }

  /** A text with a break has its first line, then the lines after the break. */
  lemma {:induction false} LinesSplitAt(s: string)
    requires s != [] && NewlineIndex(s) < |s|
    ensures Lines(s) == [s[..NewlineIndex(s)]] + Lines(s[NewlineIndex(s) + 1..])
  {
  }

  /** A non-empty text without a break is one line. */
  lemma {:induction false} LinesWhole(s: string)
    requires s != [] && NewlineIndex(s) == |s|
    ensures Lines(s) == [s]
  {
    assert s[..|s|] == s;
  }

  /** A break right after a break-free first line splits that line off. */
  lemma {:induction false} LinesCons(l: string, t: string)
    requires NoNewline(l)
    ensures Lines(l + "\n" + t) == [l] + Lines(t)
  {
    var s := l + "\n" + t;
    assert s[..|l|] == l;
    NewlineIndexAt(s, |l|);
    assert s[|l| + 1..] == t;
  }

  /** A non-empty break-free text is one line. */
  lemma {:induction false} LinesSingle(l: string)
    requires NoNewline(l) && l != []
    ensures Lines(l) == [l]
  {
    assert l[..|l|] == l;
    NewlineIndexAt(l, |l|);
  }

  /** A line closed by a break is the only line. */
  lemma {:induction false} LinesClosed(l: string)
    requires NoNewline(l)
    ensures Lines(l + "\n") == [l]
  {
    LinesCons(l, "");
    assert l + "\n" + "" == l + "\n";
  }

  /** A line followed by an empty line closed by a break gives two lines. */
  lemma {:induction false} LinesClosedTwice(l: string)
    requires NoNewline(l)
    ensures Lines(l + "\n\n") == [l, ""]
  {
    assert l + "\n\n" == l + "\n" + ("" + "\n" + "");
    LinesCons(l, "" + "\n" + "");
    LinesCons("", "");
  }

  /** Two lines separated by a break, the second one unclosed. */
  lemma {:induction false} LinesPair(a: string, b: string)
    requires NoNewline(a) && NoNewline(b) && b != []
    ensures Lines(a + "\n" + b) == [a, b]
  {
    LinesCons(a, b);
    LinesSingle(b);
  }

  /** A line followed by two empty lines, each closed by a break, gives three lines. */
  lemma {:induction false} LinesClosedThrice(l: string)
    requires NoNewline(l)
    ensures Lines(l + "\n\n\n") == [l, "", ""]
  {
    var t := "\n\n";
    assert l + "\n\n\n" == l + "\n" + t;
    LinesCons(l, t);
    LinesOfTwoBreaks();
  }

  /** Two breaks alone close two empty lines. */
  lemma {:induction false} LinesOfTwoBreaks()
    ensures Lines("\n\n") == ["", ""]
  {
    LinesClosedTwice("");
    assert "" + "\n\n" == "\n\n";
  }

  /** Joining a line and two empty lines closes the line with two breaks. */
  lemma {:induction false} JoinThenTwoEmpty(l: string)
    ensures Join([l, "", ""]) == l + "\n\n"
  {
    JoinCons(l, ["", ""]);
    JoinThenEmpty("");
    assert [l] + ["", ""] == [l, "", ""];
  }

  /** Joining a line and an empty line closes the line with a break. */
  lemma {:induction false} JoinThenEmpty(l: string)
    ensures Join([l, ""]) == l + "\n"
  {
    assert [l, ""][1..] == [""];
    assert l + "\n" + "" == l + "\n";
  }

  lemma {:induction false} JoinCons(l: string, rest: seq<string>)
    ensures Join([l] + rest) == if rest == [] then l else l + "\n" + Join(rest)
  {
    assert ([l] + rest)[1..] == rest;
  }

  /** `s` without its final '\n', when it has one. */
  function Chomp(s: string): string {
    if s != [] && s[|s| - 1] == '\n' then s[..|s| - 1] else s
  }

  lemma {:induction false} ChompAfterBreak(s: string, i: nat)
    requires i + 1 < |s| && s[i] == '\n'
    ensures Chomp(s) == s[..i] + "\n" + Chomp(s[i + 1..])
  {
    var t := s[i + 1..];
    if s[|s| - 1] == '\n' {
      assert s[..|s| - 1] == s[..i] + "\n" + t[..|t| - 1];
    } else {
      assert s == s[..i] + "\n" + t;
    }
  }

  /**
   * Joining the lines of `s` gives `s` back, except that a final '\n' is
   * lost (`splitlines` reads it as closing the last line).
   */
  lemma {:induction false} JoinOfLines(s: string)
    ensures Join(Lines(s)) == Chomp(s)
    decreases |s|
  {
    if s != [] {
      var i := NewlineIndex(s);
      if i < |s| {
        var t := s[i + 1..];
        assert Join(Lines(s)) == if Lines(t) == [] then s[..i] else s[..i] + "\n" + Join(Lines(t)) by {
          LinesSplitAt(s);
          JoinCons(s[..i], Lines(t));
        }
        if i + 1 < |s| {
          JoinOfLines(t);
          ChompAfterBreak(s, i);
        }
      } else {
        LinesWhole(s);
      }
    }
  }

  lemma {:induction false} DropFinalEmptyCons(l: string, rest: seq<string>)
    requires rest != []
    ensures DropFinalEmpty([l] + rest) == [l] + DropFinalEmpty(rest)
  {
    if rest[|rest| - 1] == [] {
      assert ([l] + rest)[..|rest|] == [l] + rest[..|rest| - 1];
    }
  }

  /**
   * Splitting a join of break-free lines gives the lines back, except that
   * a final empty line is lost.
   */
  lemma {:induction false} LinesOfJoin(ls: seq<string>)
    requires AllNoNewline(ls)
    ensures Lines(Join(ls)) == DropFinalEmpty(ls)
  {
    if |ls| == 1 {
      if ls[0] != [] {
        LinesSingle(ls[0]);
      }
    } else if |ls| > 1 {
      var l, rest := ls[0], ls[1..];
      assert ls == [l] + rest;
      JoinCons(l, rest);
      assert NoNewline(l);
      LinesCons(l, Join(rest));
      assert AllNoNewline(rest) by {
        forall k | 0 <= k < |rest| ensures NoNewline(rest[k]) {
          assert rest[k] == ls[k + 1];
        }
      }
      LinesOfJoin(rest);
      DropFinalEmptyCons(l, rest);
    }
  }

  predicate AllBlank(ls: seq<string>) {
    forall k :: 0 <= k < |ls| ==> IsBlank(ls[k])
  }

  lemma {:induction false} AllBlankCons(l: string, rest: seq<string>)
    ensures AllBlank([l] + rest) <==> IsBlank(l) && AllBlank(rest)
  {
    var ls := [l] + rest;
    if IsBlank(l) && AllBlank(rest) {
      forall k | 0 <= k < |ls| ensures IsBlank(ls[k]) {
        if k > 0 { assert ls[k] == rest[k - 1]; }
      }
    }
    if AllBlank(ls) {
      assert IsBlank(ls[0]);
      forall k | 0 <= k < |rest| ensures IsBlank(rest[k]) { assert rest[k] == ls[k + 1]; }
    }
  }

  /** A text is blank exactly when both sides of a character and that character are. */
  lemma {:induction false} BlankAround(s: string, i: nat)
    requires i < |s|
    ensures IsBlank(s) <==> IsBlank(s[..i]) && IsWs(s[i]) && IsBlank(s[i + 1..])
  {
    BlankIffAllWs(s);
    BlankIffAllWs(s[..i]);
    BlankIffAllWs(s[i + 1..]);
    if IsBlank(s[..i]) && IsWs(s[i]) && IsBlank(s[i + 1..]) {
      forall j | 0 <= j < |s| ensures IsWs(s[j]) {
        if j < i {
          assert s[j] == s[..i][j];
        } else if j > i {
          assert s[j] == s[i + 1..][j - i - 1];
        }
      }
    }
  }

  /** Every line of `s` is blank exactly when `s` is whitespace only ('\n' included). */
  lemma {:induction false} AllLinesBlankIffBlank(s: string)
    ensures AllBlank(Lines(s)) <==> IsBlank(s)
    decreases |s|
  {
    if s != [] {
      var i := NewlineIndex(s);
      if i < |s| {
        LinesSplitAt(s);
        AllLinesBlankIffBlank(s[i + 1..]);
        AllBlankCons(s[..i], Lines(s[i + 1..]));
        BlankAround(s, i);
      } else {
        LinesWhole(s);
        AllBlankCons(s, []);
      }
    }
  }

  // ----- re.sub(r" {2,}", " ", line) -----

  /** Skipping the first of a run of at least two spaces changes nothing. */
  lemma {:induction false} DropRepeatedSpacesSkipRun(s: string, k: nat)
    requires k < LeadingSpaces(s)
    ensures DropRepeatedSpaces(s[k..]) == DropRepeatedSpaces(s[LeadingSpaces(s) - 1..])
    decreases LeadingSpaces(s) - k
  {
    var n := LeadingSpaces(s);
    if k < n - 1 {
      assert s[k..][1..] == s[k + 1..];
      DropRepeatedSpacesSkipRun(s, k + 1);
    }
  }

  /** The regex scan and the reference definition agree on every line. */
  lemma {:induction false} CollapseSpacesIsDropRepeatedSpaces(line: string)
    ensures CollapseSpaces(line) == DropRepeatedSpaces(line)
    decreases |line|
  {
    if line != [] {
      var n := LeadingSpaces(line);
      if n >= 2 {
        CollapseSpacesIsDropRepeatedSpaces(line[n..]);
        DropRepeatedSpacesOfLeadingRun(line);
      } else {
        CollapseSpacesIsDropRepeatedSpaces(line[1..]);
      }
    }
  }

  /** A leading run of two or more spaces is deleted down to one space. */
  lemma {:induction false} DropRepeatedSpacesOfLeadingRun(line: string)
    requires LeadingSpaces(line) >= 2
    ensures DropRepeatedSpaces(line) == " " + DropRepeatedSpaces(line[LeadingSpaces(line)..])
  {
    var n := LeadingSpaces(line);
    DropRepeatedSpacesSkipRun(line, 0);
    assert line[0..] == line;
    var u := line[n - 1..];
    assert u[0] == ' ';
    assert u[1..] == line[n..];
    if |u| >= 2 {
      assert u[1] != ' ';
    }
  }

  /** Deleting repeated spaces deletes nothing but spaces. */
  lemma {:induction false} DropRepeatedSpacesKeepsNonSpaces(s: string)
    ensures NonSpaces(DropRepeatedSpaces(s)) == NonSpaces(s)
    decreases |s|
  {
    if |s| >= 2 {
      DropRepeatedSpacesKeepsNonSpaces(s[1..]);
      var d := DropRepeatedSpaces(s[1..]);
      if !(s[0] == ' ' && s[1] == ' ') {
        assert ([s[0]] + d)[1..] == d;
      }
    }
  }

  /** A line without two adjacent spaces is left as it is. */
  lemma {:induction false} DropRepeatedSpacesFixpoint(s: string)
    requires NoDoubleSpace(s)
    ensures DropRepeatedSpaces(s) == s
    decreases |s|
  {
    if |s| >= 2 {
      assert NoDoubleSpace(s[1..]) by {
        forall i, j | 0 <= i < j < |s[1..]| && j == i + 1 ensures !(s[1..][i] == ' ' && s[1..][j] == ' ') {
          assert s[1..][i] == s[i + 1] && s[1..][j] == s[j + 1];
        }
      }
      DropRepeatedSpacesFixpoint(s[1..]);
      assert !(s[0] == ' ' && s[1] == ' ');
      assert s == [s[0]] + s[1..];
    }
  }

  /** Collapsing twice is collapsing once. */
  lemma {:induction false} CollapseSpacesIdempotent(line: string)
    ensures CollapseSpaces(CollapseSpaces(line)) == CollapseSpaces(line)
  {
    var r := CollapseSpaces(line);
    CollapseSpacesIsDropRepeatedSpaces(r);
    DropRepeatedSpacesFixpoint(r);
  }

  /** No line holds two adjacent spaces, and joining cannot create them: lines are separated by '\n'. */
  lemma {:induction false} JoinNoDoubleSpace(ls: seq<string>)
    requires forall k :: 0 <= k < |ls| ==> NoDoubleSpace(ls[k])
    ensures NoDoubleSpace(Join(ls))
  {
    if |ls| > 1 {
      var l, rest := ls[0], ls[1..];
      assert forall k :: 0 <= k < |rest| ==> rest[k] == ls[k + 1];
      JoinNoDoubleSpace(rest);
      var t := Join(rest);
      var s := l + "\n" + t;
      assert Join(ls) == s;
      forall i, j | 0 <= i < j < |s| && j == i + 1 ensures !(s[i] == ' ' && s[j] == ' ') {
        if i < |l| - 1 {
          assert s[i] == l[i] && s[j] == l[j];
        } else if i > |l| {
          assert s[i] == t[i - |l| - 1] && s[j] == t[j - |l| - 1];
        } else if i == |l| - 1 {
          assert s[j] == '\n';
        } else {
          assert s[i] == '\n';
        }
      }
    }
  }

  /** Collapsing spaces introduces no character, so no line break either. */
  lemma {:induction false} CollapseKeepsNoNewline(line: string)
    requires NoNewline(line)
    ensures NoNewline(CollapseSpaces(line))
  {
    var r := CollapseSpaces(line);
    forall i | 0 <= i < |r| ensures r[i] != '\n' {
      assert r[i] in r;
      var j :| 0 <= j < |line| && line[j] == r[i];
    }
  }

  /** A suffix of a line keeps its having no break, no two adjacent spaces and its last character. */
  lemma {:induction false} SuffixKeepsShape(line: string, n: nat)
    requires n <= |line|
    ensures NoNewline(line) ==> NoNewline(line[n..])
    ensures NoDoubleSpace(line) ==> NoDoubleSpace(line[n..])
    ensures n < |line| ==> line[n..][|line| - n - 1] == line[|line| - 1]
  {
    var t := line[n..];
    assert forall i :: 0 <= i < |t| ==> t[i] == line[n + i];
  }

  /** Stripping leading spaces and tabs cannot bring two spaces together. */
  lemma {:induction false} LStripKeepsNoDoubleSpace(line: string)
    requires NoDoubleSpace(line)
    ensures NoDoubleSpace(LStripSpaceTab(line))
  {
    SuffixKeepsShape(line, |line| - |LStripSpaceTab(line)|);
  }

  /** Stripping leading spaces and tabs leaves the last character of what remains in place. */
  lemma {:induction false} LStripKeepsLast(line: string)
    requires line == [] || !IsWs(line[|line| - 1])
    ensures LStripSpaceTab(line) == [] || !IsWs(LStripSpaceTab(line)[|LStripSpaceTab(line)| - 1])
  {
    SuffixKeepsShape(line, |line| - |LStripSpaceTab(line)|);
  }

  /** Deleting repeated spaces works piecewise across a boundary that is not between two spaces. */
  lemma {:induction false} DropRepeatedSpacesAppend(x: string, y: string)
    requires x == [] || y == [] || x[|x| - 1] != ' ' || y[0] != ' '
    ensures DropRepeatedSpaces(x + y) == DropRepeatedSpaces(x) + DropRepeatedSpaces(y)
    decreases |x|
  {
    if x == [] {
      assert x + y == y;
    } else if |x| == 1 {
      if y != [] {
        assert (x + y)[1..] == y;
      }
    } else {
      assert (x + y)[1..] == x[1..] + y;
      DropRepeatedSpacesAppend(x[1..], y);
    }
  }

  /** A run of spaces becomes a single space. */
  lemma {:induction false} DropRepeatedSpacesOfRun(g: string)
    requires g != [] && forall i :: 0 <= i < |g| ==> g[i] == ' '
    ensures DropRepeatedSpaces(g) == " "
    decreases |g|
  {
    if |g| >= 2 {
      DropRepeatedSpacesOfRun(g[1..]);
    }
  }

  /** A string without any ' ' is left as it is. */
  lemma {:induction false} DropRepeatedSpacesSpaceless(a: string)
    requires forall i :: 0 <= i < |a| ==> a[i] != ' '
    ensures DropRepeatedSpaces(a) == a
  {
    assert NoDoubleSpace(a);
    DropRepeatedSpacesFixpoint(a);
  }

  /** A run of spaces followed by a word without spaces becomes one space and the word. */
  lemma {:induction false} DropRepeatedSpacesGapWord(gap: string, b: string)
    requires b != [] && forall i :: 0 <= i < |b| ==> b[i] != ' '
    requires gap != [] && forall i :: 0 <= i < |gap| ==> gap[i] == ' '
    ensures DropRepeatedSpaces(gap + b) == " " + b
  {
    DropRepeatedSpacesAppend(gap, b);
    DropRepeatedSpacesOfRun(gap);
    DropRepeatedSpacesSpaceless(b);
  }

  /** Two words without spaces around a run of spaces end up one space apart. */
  lemma {:induction false} DropRepeatedSpacesWordPair(a: string, gap: string, b: string)
    requires a != [] && forall i :: 0 <= i < |a| ==> a[i] != ' '
    requires b != [] && forall i :: 0 <= i < |b| ==> b[i] != ' '
    requires gap != [] && forall i :: 0 <= i < |gap| ==> gap[i] == ' '
    ensures DropRepeatedSpaces(a + (gap + b)) == a + " " + b
  {
    DropRepeatedSpacesAppend(a, gap + b);
    DropRepeatedSpacesSpaceless(a);
    DropRepeatedSpacesGapWord(gap, b);
  }

  /** Collapsing every line twice is collapsing it once. */
  lemma {:induction false} CollapseEachIdempotent(ls: seq<string>)
    ensures CollapseEach(CollapseEach(ls)) == CollapseEach(ls)
  {
    var cs := CollapseEach(ls);
    forall k | 0 <= k < |cs| ensures CollapseSpaces(cs[k]) == cs[k] {
      CollapseSpacesIdempotent(ls[k]);
    }
  }

  /** Collapsing leaves lines without two adjacent spaces as they are. */
  lemma {:induction false} CollapseEachFixed(ls: seq<string>)
    requires forall k :: 0 <= k < |ls| ==> NoDoubleSpace(ls[k])
    ensures CollapseEach(ls) == ls
  {
    forall k | 0 <= k < |ls| ensures CollapseSpaces(ls[k]) == ls[k] {
      CollapseSpacesIsDropRepeatedSpaces(ls[k]);
      DropRepeatedSpacesFixpoint(ls[k]);
    }
  }

  /** Stripping leaves lines that start with neither a space nor a tab as they are. */
  lemma {:induction false} LStripEachFixed(ls: seq<string>)
    requires forall k :: 0 <= k < |ls| ==> ls[k] == [] || !IsSpaceOrTab(ls[k][0])
    ensures LStripEach(ls) == ls
  {
    forall k | 0 <= k < |ls| ensures LStripSpaceTab(ls[k]) == ls[k] {
      LStripAppend([], ls[k]);
      assert [] + ls[k] == ls[k];
    }
  }

  /**
   * What every line of a fully cleaned text looks like: no break, no two
   * adjacent spaces, no leading space or tab and no trailing whitespace.
   */
  ghost predicate Tidy(x: string) {
    && NoNewline(x)
    && NoDoubleSpace(x)
    && (x == [] || (!IsSpaceOrTab(x[0]) && !IsWs(x[|x| - 1])))
  }

  ghost predicate AllTidy(ls: seq<string>) {
    forall k :: 0 <= k < |ls| ==> Tidy(ls[k])
  }

  /** No line ends in whitespace. */
  predicate NoTrailingWhitespace(ls: seq<string>) {
    forall k :: 0 <= k < |ls| ==> ls[k] == [] || !IsWs(ls[k][|ls[k]| - 1])
  }

  /**
   * Collapsing and then stripping a break-free line that does not end in
   * whitespace gives a tidy line, empty only when the line was.
   */
  lemma {:induction false} CollapseStripLine(l: string)
    requires NoNewline(l) && (l == [] || !IsWs(l[|l| - 1]))
    ensures Tidy(LStripSpaceTab(CollapseSpaces(l)))
    ensures l != [] ==> LStripSpaceTab(CollapseSpaces(l)) != []
  {
    var c := CollapseSpaces(l);
    var x := LStripSpaceTab(c);
    CollapseKeepsNoNewline(l);
    SuffixKeepsShape(c, |c| - |x|);
    LStripKeepsLast(c);
    if l != [] {
      assert !IsSpaceOrTab(c[|c| - 1]);
    }
  }

  /** `CollapseStripLine` for every line of a list at once. */
  lemma {:induction false} CollapseStripEach(ls: seq<string>, xs: seq<string>)
    requires AllNoNewline(ls) && NoTrailingWhitespace(ls)
    requires |xs| == |ls| && forall k :: 0 <= k < |ls| ==> xs[k] == LStripSpaceTab(CollapseSpaces(ls[k]))
    ensures AllTidy(xs)
    ensures forall k :: 0 <= k < |xs| && ls[k] != [] ==> xs[k] != []
  {
    forall k | 0 <= k < |xs|
      ensures Tidy(xs[k]) && (ls[k] != [] ==> xs[k] != [])
    {
      CollapseStripLine(ls[k]);
    }
  }

  /** A line that starts with neither a space nor a tab strips to itself. */
  lemma {:induction false} LStripUnchanged(l: string)
    requires l == [] || !IsSpaceOrTab(l[0])
    ensures LStripSpaceTab(l) == l
  {
  }

  /** Stripping a pair of lines strips each of them. */
  lemma {:induction false} LStripPair(a: string, b: string)
    ensures LStripEach([a, b]) == [LStripSpaceTab(a), LStripSpaceTab(b)]
  {
    var r := LStripEach([a, b]);
    assert r[0] == LStripSpaceTab([a, b][0]);
    assert r[1] == LStripSpaceTab([a, b][1]);
  }

  /** A line made of spaces and tabs only strips to nothing. */
  lemma {:induction false} LStripAllSpaceTab(w: string)
    requires forall i :: 0 <= i < |w| ==> IsSpaceOrTab(w[i])
    ensures LStripSpaceTab(w) == []
  {
    var r := LStripSpaceTab(w);
    if r != [] {
      assert false;
    }
  }

  /** Stripping leading spaces and tabs removes exactly a leading run of them. */
  lemma {:induction false} LStripAppend(x: string, y: string)
    requires forall i :: 0 <= i < |x| ==> IsSpaceOrTab(x[i])
    requires y == [] || !IsSpaceOrTab(y[0])
    ensures LStripSpaceTab(x + y) == y
  {
    var s := x + y;
    var r := LStripSpaceTab(s);
    assert r == s[|s| - |r|..];
    assert y == s[|x|..];
  }
}
