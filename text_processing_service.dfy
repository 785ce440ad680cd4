/**
 * The stateless cleaning transforms of `TextProcessingService` and the
 * composition `apply_options` makes of them.
 */
module TextProcessingService {
  import opened TextLines
  import opened CleaningOptionsModel

  // ----- trim_whitespace -----

  /** The index of the first non-blank line: how many lines the first pop loop removes. */
  function ContentStart(ls: seq<string>): (lo: nat)
    ensures lo <= |ls|
    ensures forall i :: 0 <= i < lo ==> IsBlank(ls[i])
    ensures lo < |ls| ==> !IsBlank(ls[lo])
  {
    if ls == [] || !IsBlank(ls[0]) then 0 else 1 + ContentStart(ls[1..])
  }

  /** One past the index of the last non-blank line, or 0 when every line is blank. */
  function ContentEnd(ls: seq<string>): (hi: nat)
    ensures hi <= |ls|
    ensures forall i :: hi <= i < |ls| ==> IsBlank(ls[i])
    ensures 0 < hi ==> !IsBlank(ls[hi - 1])
  {
    if ls == [] || !IsBlank(ls[|ls| - 1]) then |ls| else ContentEnd(ls[..|ls| - 1])
  }

  /** Either some line is not blank and it lies in the content range, or every line is blank. */
  lemma {:induction false} ContentOrder(ls: seq<string>)
    ensures ContentStart(ls) < ContentEnd(ls) || (ContentStart(ls) == |ls| && ContentEnd(ls) == 0)
  {
    var lo, hi := ContentStart(ls), ContentEnd(ls);
    if lo < |ls| {
      assert !IsBlank(ls[lo]);
    }
  }

  /** The lines both pop loops leave: from the first non-blank line to the last one. */
  function Kept(ls: seq<string>): seq<string> {
    var lo, hi := ContentStart(ls), ContentEnd(ls);
    if lo < hi then ls[lo..hi] else []
  }

  /**
   * Both ends of what is kept are non-blank, and nothing is kept exactly
   * when every line is blank.
   */
  lemma {:induction false} KeptEnds(ls: seq<string>)
    ensures Kept(ls) == [] || (!IsBlank(Kept(ls)[0]) && !IsBlank(Kept(ls)[|Kept(ls)| - 1]))
    ensures Kept(ls) == [] <==> AllBlank(ls)
  {
    var lo, hi := ContentStart(ls), ContentEnd(ls);
    ContentOrder(ls);
    if lo < hi {
      var kept := ls[lo..hi];
      assert Kept(ls) == kept;
      assert kept[0] == ls[lo] && kept[|kept| - 1] == ls[hi - 1];
      assert !IsBlank(ls[lo]);
    } else {
      assert Kept(ls) == [];
      assert lo == |ls|;
    }
  }

  /** What `trim_whitespace` returns: the kept lines, right-stripped and re-joined. */
  function TrimmedText(text: string): string {
    Join(RStripEach(Kept(Lines(text))))
  }

  /**
   * `trim_whitespace`: pop blank lines off the front of the split text, then
   * off the back, then right-strip and join what is left. The list being
   * popped is `lines[lo..hi]`: popping the front advances `lo`, popping the
   * back retreats `hi`.
   */
  method TrimWhitespace(text: string) returns (r: string)
    ensures r == TrimmedText(text)
  {
    var lines := Lines(text);
    var lo, hi := 0, |lines|;
    while lo < hi && IsBlank(lines[lo])
      invariant lo <= ContentStart(lines) && hi == |lines|
      decreases hi - lo
    {
      lo := lo + 1;
    }
    while lo < hi && IsBlank(lines[hi - 1])
      invariant lo <= hi <= |lines| && lo == ContentStart(lines)
      invariant lo < ContentEnd(lines) ==> ContentEnd(lines) <= hi
      decreases hi - lo
    {
      hi := hi - 1;
    }
    assert lines[lo..hi] == Kept(lines) by {
      if lo < hi {
        assert hi == ContentEnd(lines);
      } else {
        assert lo < |lines| ==> lo < ContentEnd(lines);
      }
    }
    r := Join(RStripEach(lines[lo..hi]));
  }

  /** A right-stripped non-blank line is still non-blank. */
  lemma {:induction false} RStripKeepsContent(line: string)
    requires !IsBlank(line)
    ensures !IsBlank(RStrip(line))
  {
    BlankIffAllWs(line);
    BlankIffAllWs(RStrip(line));
    var j :| 0 <= j < |line| && !IsWs(line[j]);
    assert RStrip(line)[j] == line[j];
  }

  /**
   * The lines a joined text is made of are "settled" when none holds a line
   * break or ends in whitespace and the first and last are not blank: this
   * is the shape `trim_whitespace` leaves, and `splitlines` gives such lines
   * back unchanged.
   */
  predicate Settled(ls: seq<string>) {
    && AllNoNewline(ls)
    && (forall k :: 0 <= k < |ls| ==> ls[k] == [] || !IsWs(ls[k][|ls[k]| - 1]))
    && (ls == [] || (!IsBlank(ls[0]) && !IsBlank(ls[|ls| - 1])))
  }

  lemma {:induction false} SettledLinesRoundTrip(ls: seq<string>)
    requires Settled(ls)
    ensures Lines(Join(ls)) == ls
  {
    LinesOfJoin(ls);
    if ls != [] {
      assert ls[|ls| - 1] != [];
    }
  }

  /** Keeping a run of break-free lines keeps them break-free. */
  lemma {:induction false} KeptNoBreak(ls: seq<string>)
    requires AllNoNewline(ls)
    ensures AllNoNewline(Kept(ls))
  {
    var kept := Kept(ls);
    forall k | 0 <= k < |kept| ensures NoNewline(kept[k]) {
      KeptAt(ls, k);
    }
  }

  /** Right-stripping break-free lines keeps them break-free. */
  lemma {:induction false} RStripEachNoBreak(ls: seq<string>)
    requires AllNoNewline(ls)
    ensures AllNoNewline(RStripEach(ls))
  {
    var rs := RStripEach(ls);
    forall k | 0 <= k < |rs| ensures NoNewline(rs[k]) {
      assert rs[k] <= ls[k];
    }
  }

  /** Break-free lines with non-blank ends, right-stripped, are settled. */
  lemma {:induction false} RStripEachSettled(ls: seq<string>)
    requires AllNoNewline(ls)
    requires ls == [] || (!IsBlank(ls[0]) && !IsBlank(ls[|ls| - 1]))
    ensures Settled(RStripEach(ls))
  {
    RStripEachNoBreak(ls);
    if ls != [] {
      RStripKeepsContent(ls[0]);
      RStripKeepsContent(ls[|ls| - 1]);
    }
  }

  /** The kept lines of break-free lines, right-stripped, are settled. */
  lemma {:induction false} StrippedKeptSettled(ls: seq<string>)
    requires AllNoNewline(ls)
    ensures Settled(RStripEach(Kept(ls)))
  {
    KeptNoBreak(ls);
    KeptEnds(ls);
    RStripEachSettled(Kept(ls));
  }

  /** The `k`th kept line is the `k`th line from the first non-blank one. */
  lemma {:induction false} KeptAt(ls: seq<string>, k: nat)
    requires k < |Kept(ls)|
    ensures ContentStart(ls) + k < ContentEnd(ls) && Kept(ls)[k] == ls[ContentStart(ls) + k]
  {
    var lo, hi := ContentStart(ls), ContentEnd(ls);
    assert Kept(ls) == if lo < hi then ls[lo..hi] else [];
    assert lo < hi;
  }

  /**
   * The lines of the trimmed text are the input's lines from the first to the
   * last non-blank one, each right-stripped; together they are settled.
   */
  lemma {:induction false} TrimmedLines(text: string)
    ensures Lines(TrimmedText(text)) == RStripEach(Kept(Lines(text)))
    ensures Settled(Lines(TrimmedText(text)))
  {
    LinesHaveNoBreak(text);
    StrippedKeptSettled(Lines(text));
    SettledLinesRoundTrip(RStripEach(Kept(Lines(text))));
  }

  /** No line of the trimmed text ends in whitespace. */
  lemma {:induction false} TrimmedNoTrailingWhitespace(text: string)
    ensures NoTrailingWhitespace(Lines(TrimmedText(text)))
  {
    TrimmedSettled(text);
    SettledNoTrailingWhitespace(Lines(TrimmedText(text)));
  }

  lemma {:induction false} SettledNoTrailingWhitespace(ls: seq<string>)
    requires Settled(ls)
    ensures NoTrailingWhitespace(ls)
  {
  }

  lemma {:induction false} TrimmedSettled(text: string)
    ensures Settled(Lines(TrimmedText(text)))
  {
    TrimmedLines(text);
  }

  /** The trimmed text is empty, or its first and last lines hold a non-whitespace character. */
  lemma {:induction false} TrimmedEndsNotBlank(text: string)
    ensures var out := Lines(TrimmedText(text));
      TrimmedText(text) == [] || (out != [] && !IsBlank(out[0]) && !IsBlank(out[|out| - 1]))
  {
    TrimmedLines(text);
  }

  /** Trimming gives "" exactly for the empty or whitespace-only inputs. */
  lemma {:induction false} TrimmedEmptyIffBlank(text: string)
    ensures TrimmedText(text) == [] <==> IsBlank(text)
  {
    TrimmedLines(text);
    KeptEnds(Lines(text));
    AllLinesBlankIffBlank(text);
  }

  /**
   * Line `j` of the trimmed text is kept line `j`, right-stripped; a kept
   * blank line (one inside the content range) survives as an empty line.
   * `KeptLineAt` says which input line kept line `j` is.
   */
  lemma {:induction false} TrimmedKeepsInteriorLines(text: string, j: nat)
    requires j < |Kept(Lines(text))|
    ensures j < |Lines(TrimmedText(text))|
    ensures Lines(TrimmedText(text))[j] == RStrip(Kept(Lines(text))[j])
    ensures IsBlank(Kept(Lines(text))[j]) ==> Lines(TrimmedText(text))[j] == []
  {
    TrimmedLines(text);
    RStripEmptyIffBlank(Kept(Lines(text))[j]);
  }

  /**
   * The kept lines are exactly the content range: there are
   * `ContentEnd(ls) - ContentStart(ls)` of them, and line `k` of the range
   * is kept at position `k - ContentStart(ls)`.
   */
  lemma {:induction false} KeptLineAt(ls: seq<string>, k: nat)
    requires ContentStart(ls) <= k < ContentEnd(ls)
    ensures |Kept(ls)| == ContentEnd(ls) - ContentStart(ls)
    ensures k - ContentStart(ls) < |Kept(ls)|
    ensures Kept(ls)[k - ContentStart(ls)] == ls[k]
  {
    var lo, hi := ContentStart(ls), ContentEnd(ls);
    assert Kept(ls) == ls[lo..hi];
  }

  /** Re-joining settled lines is a fixed point of trimming. */
  lemma {:induction false} TrimmedOfSettled(ls: seq<string>)
    requires Settled(ls)
    ensures TrimmedText(Join(ls)) == Join(ls)
  {
    SettledLinesRoundTrip(ls);
    if ls != [] {
      assert ContentStart(ls) == 0;
      assert ContentEnd(ls) == |ls|;
      assert Kept(ls) == ls;
    } else {
      assert Kept(ls) == [];
    }
    assert RStripEach(ls) == ls;
  }

  /** Trimming twice is trimming once. */
  lemma {:induction false} TrimIdempotent(text: string)
    ensures TrimmedText(TrimmedText(text)) == TrimmedText(text)
  {
    TrimmedLines(text);
    TrimmedOfSettled(Lines(TrimmedText(text)));
  }

  /** Two break-free lines followed by an empty line split into those three lines. */
  lemma {:induction false} LinesOfPairThenEmpty(l1: string, l2: string)
    requires NoNewline(l1) && NoNewline(l2)
    ensures Lines(l1 + "\n" + l2 + "\n\n") == [l1, l2, ""]
  {
    var t := l2 + "\n\n";
    AppendAssoc(l1 + "\n", l2, "\n\n");
    LinesClosedTwice(l2);
    LinesCons(l1, t);
  }

  /** Concatenation can be regrouped. */
  lemma AppendAssoc(a: string, b: string, c: string)
    ensures a + b + c == a + (b + c)
  {
  }

  /** A line whose last character is not whitespace stays non-blank when padded. */
  lemma {:induction false} PaddedNotBlank(a: string, w: string)
    requires a != [] && !IsWs(a[|a| - 1])
    ensures !IsBlank(a + w)
  {
    BlankIffAllWs(a + w);
    assert (a + w)[|a| - 1] == a[|a| - 1];
  }

  /**
   * Two lines padded with trailing whitespace and followed by a blank line
   * come back as the bare lines: `"hello   \nworld   \n\n"` trims to
   * `"hello\nworld"`.
   */
  lemma {:induction false} TrimPaddedLines(a: string, w1: string, b: string, w2: string)
    requires NoNewline(a) && NoNewline(b) && NoNewline(w1) && NoNewline(w2)
    requires a != [] && !IsWs(a[|a| - 1]) && b != [] && !IsWs(b[|b| - 1])
    requires forall i :: 0 <= i < |w1| ==> IsWs(w1[i])
    requires forall i :: 0 <= i < |w2| ==> IsWs(w2[i])
    ensures TrimmedText(a + w1 + "\n" + b + w2 + "\n\n") == a + "\n" + b
  {
    var l1, l2 := a + w1, b + w2;
    var ls := [l1, l2, ""];
    assert NoNewline(l1) && NoNewline(l2);
    assert a + w1 + "\n" + b + w2 + "\n\n" == l1 + "\n" + l2 + "\n\n";
    LinesOfPairThenEmpty(l1, l2);
    PaddedNotBlank(a, w1);
    PaddedNotBlank(b, w2);
    assert ContentStart(ls) == 0 && ContentEnd(ls) == 2;
    assert Kept(ls) == [l1, l2];
    RStripAppend(a, w1);
    RStripAppend(b, w2);
    assert RStripEach(Kept(ls)) == [a, b];
    assert Join([a, b]) == a + "\n" + b;
  }

  /** The padded-lines case on the text `"hello   \nworld   \n\n"`. */
  lemma {:induction false} TrimScenario()
    ensures TrimmedText("hello   \nworld   \n\n") == "hello\nworld"
  {
    assert "hello" + "   " + "\n" + "world" + "   " + "\n\n" == "hello   \nworld   \n\n";
    assert "hello" + "\n" + "world" == "hello\nworld";
    TrimPaddedLines("hello", "   ", "world", "   ");
  }

  // ----- clean_whitespace -----

  /** `clean_whitespace`: collapse runs of two or more spaces on every line. */
  function CleanWhitespace(text: string): (r: string)
    ensures NoDoubleSpace(r)
  {
    var cs := CollapseEach(Lines(text));
    JoinNoDoubleSpace(cs);
    Join(cs)
  }

  /**
   * The lines of the cleaned text are the input's lines, each collapsed,
   * except that a final empty line is lost on re-splitting: the line count
   * is the input's unless its last line is empty.
   */
  lemma {:induction false} CleanedLines(text: string)
    ensures Lines(CleanWhitespace(text)) == DropFinalEmpty(CollapseEach(Lines(text)))
    ensures var ls := Lines(text);
      ls == [] || ls[|ls| - 1] != [] ==> Lines(CleanWhitespace(text)) == CollapseEach(ls)
  {
    var ls := Lines(text);
    LinesHaveNoBreak(text);
    var cs := CollapseEach(ls);
    forall k | 0 <= k < |cs| ensures NoNewline(cs[k]) {
      CollapseKeepsNoNewline(ls[k]);
    }
    LinesOfJoin(cs);
  }

  /** Neither the cleaned text nor any of its lines holds two adjacent spaces. */
  lemma {:induction false} CleanedNoDoubleSpace(text: string)
    ensures NoDoubleSpace(CleanWhitespace(text))
    ensures var out := Lines(CleanWhitespace(text));
      forall k :: 0 <= k < |out| ==> NoDoubleSpace(out[k])
  {
    var cs := CollapseEach(Lines(text));
    JoinNoDoubleSpace(cs);
    CleanedLines(text);
  }

  /**
   * Cleaning twice is cleaning once, as long as the last line is not empty
   * (the text does not end in "\n\n" and is not "\n").
   */
  lemma {:induction false} CleanIdempotent(text: string)
    requires Lines(text) == [] || Lines(text)[|Lines(text)| - 1] != []
    ensures CleanWhitespace(CleanWhitespace(text)) == CleanWhitespace(text)
  {
    var cs := CollapseEach(Lines(text));
    CleanedLines(text);
    CollapseEachIdempotent(Lines(text));
    CleanOfLines(CleanWhitespace(text), cs);
  }

  /** Cleaning collapses each of the lines `splitlines` gives and joins them back. */
  lemma {:induction false} CleanOfLines(text: string, ls: seq<string>)
    requires Lines(text) == ls
    ensures CleanWhitespace(text) == Join(CollapseEach(ls))
  {
  }

  /**
   * Every pass loses a final empty line, so cleaning is not idempotent on
   * text ending in "\n\n": `"a\n\n"` cleans to `"a\n"`, which cleans to `"a"`.
   */
  lemma {:induction false} CleanDropsFinalEmptyLine(l: string)
    requires NoNewline(l) && NoDoubleSpace(l)
    ensures CleanWhitespace(l + "\n") == l
    ensures CleanWhitespace(l + "\n\n") == l + "\n"
    ensures CleanWhitespace(CleanWhitespace(l + "\n\n")) != CleanWhitespace(l + "\n\n")
  {
    assert CollapseSpaces(l) == l by {
      CollapseSpacesIsDropRepeatedSpaces(l);
      DropRepeatedSpacesFixpoint(l);
    }
    LinesClosed(l);
    LinesClosedTwice(l);
    assert CollapseEach([l]) == [l];
    assert CollapseEach([l, ""]) == [l, ""];
    JoinThenEmpty(l);
  }

  // ----- remove_tabs -----

  /**
   * `remove_tabs`: strip the leading spaces and tabs of every line. The
   * lines of the result are the input's lines, each stripped, except that
   * a final line left empty is lost on re-splitting.
   */
  function RemoveTabs(text: string): (r: string)
    ensures Lines(r) == DropFinalEmpty(LStripEach(Lines(text)))
  {
    var ls := Lines(text);
    var ss := LStripEach(ls);
    assert AllNoNewline(ss) by {
      LinesHaveNoBreak(text);
      forall k | 0 <= k < |ss| ensures NoNewline(ss[k]) {
        SuffixKeepsShape(ls[k], |ls[k]| - |ss[k]|);
      }
    }
    LinesOfJoin(ss);
    Join(ss)
  }

  /**
   * Removing tabs twice is removing them once, as long as the last line
   * does not consist of spaces and tabs only (and is not empty).
   */
  lemma {:induction false} RemoveTabsIdempotent(text: string)
    requires Lines(text) == [] || LStripSpaceTab(Lines(text)[|Lines(text)| - 1]) != []
    ensures RemoveTabs(RemoveTabs(text)) == RemoveTabs(text)
  {
    var xs := LStripEach(Lines(text));
    RemoveTabsKeepsLastLine(text);
    LStripEachTwice(Lines(text));
    RemoveTabsOfLines(text, Lines(text));
    RemoveTabsOfLines(RemoveTabs(text), xs);
  }

  /** When the last line keeps a character after stripping, no stripped line is lost. */
  lemma {:induction false} RemoveTabsKeepsLastLine(text: string)
    requires Lines(text) == [] || LStripSpaceTab(Lines(text)[|Lines(text)| - 1]) != []
    ensures Lines(RemoveTabs(text)) == LStripEach(Lines(text))
  {
    var xs := LStripEach(Lines(text));
    assert xs == [] || xs[|xs| - 1] != [];
  }

  /**
   * A last line made of spaces and tabs only becomes empty and is lost on
   * the next pass: `"a\n\t"` becomes `"a\n"`, which becomes `"a"`.
   */
  lemma {:induction false} RemoveTabsBlankLastLine(l: string, w: string)
    requires NoNewline(l) && (l == [] || !IsSpaceOrTab(l[0]))
    requires w != [] && forall i :: 0 <= i < |w| ==> IsSpaceOrTab(w[i])
    ensures RemoveTabs(l + "\n" + w) == l + "\n"
    ensures RemoveTabs(RemoveTabs(l + "\n" + w)) != RemoveTabs(l + "\n" + w)
  {
    RemoveTabsOfBlankLast(l, w);
    RemoveTabsClosed(l);
    assert |l| < |l + "\n"|;
  }

  lemma {:induction false} RemoveTabsOfBlankLast(l: string, w: string)
    requires NoNewline(l) && (l == [] || !IsSpaceOrTab(l[0]))
    requires w != [] && forall i :: 0 <= i < |w| ==> IsSpaceOrTab(w[i])
    ensures RemoveTabs(l + "\n" + w) == l + "\n"
  {
    assert NoNewline(w);
    LinesPair(l, w);
    StripBlankSecond(l, w);
    JoinThenEmpty(l);
    RemoveTabsOfLines(l + "\n" + w, [l, w]);
  }

  lemma {:induction false} StripBlankSecond(l: string, w: string)
    requires l == [] || !IsSpaceOrTab(l[0])
    requires forall i :: 0 <= i < |w| ==> IsSpaceOrTab(w[i])
    ensures LStripEach([l, w]) == [l, ""]
  {
    LStripPair(l, w);
    LStripUnchanged(l);
    LStripAllSpaceTab(w);
  }

  /**
   * Like cleaning, removing tabs loses a final empty line on every pass:
   * `"a\n\n"` becomes `"a\n"`, which becomes `"a"`.
   */
  lemma {:induction false} RemoveTabsDropsFinalEmptyLine(l: string)
    requires NoNewline(l) && (l == [] || !IsSpaceOrTab(l[0]))
    ensures RemoveTabs(l + "\n") == l
    ensures RemoveTabs(l + "\n\n") == l + "\n"
    ensures RemoveTabs(RemoveTabs(l + "\n\n")) != RemoveTabs(l + "\n\n")
  {
    RemoveTabsClosed(l);
    RemoveTabsClosedTwice(l);
    assert |l| < |l + "\n"|;
  }

  lemma {:induction false} RemoveTabsClosed(l: string)
    requires NoNewline(l) && (l == [] || !IsSpaceOrTab(l[0]))
    ensures RemoveTabs(l + "\n") == l
  {
    LinesClosed(l);
    LStripEachFixed([l]);
    RemoveTabsOfLines(l + "\n", [l]);
  }

  lemma {:induction false} RemoveTabsClosedTwice(l: string)
    requires NoNewline(l) && (l == [] || !IsSpaceOrTab(l[0]))
    ensures RemoveTabs(l + "\n\n") == l + "\n"
  {
    LinesClosedTwice(l);
    LStripEachFixed([l, ""]);
    JoinThenEmpty(l);
    RemoveTabsOfLines(l + "\n\n", [l, ""]);
  }

  /** `RemoveTabs` strips each of the lines `splitlines` gives and joins them back. */
  lemma {:induction false} RemoveTabsOfLines(text: string, ls: seq<string>)
    requires Lines(text) == ls
    ensures RemoveTabs(text) == Join(LStripEach(ls))
  {
  }

  /**
   * No line of the result starts with a space or a tab; each is what is left
   * of the input line at the same position after a run of spaces and tabs,
   * so whitespace after the first other character survives.
   */
  lemma {:induction false} RemovedTabsShape(text: string)
    ensures var out, ls := Lines(RemoveTabs(text)), Lines(text);
      && |out| <= |ls|
      && forall k :: 0 <= k < |out| ==> IsLStripOf(out[k], ls[k])
  {
    LStripEachKept(Lines(text), Lines(RemoveTabs(text)));
  }

  // ----- apply_options -----

  /** What `apply_options` returns: trim, then clean, then remove tabs, each only when enabled. */
  function Cleaned(text: string, options: CleaningOptions): string {
    var trimmed := if options.trimWhitespace then TrimmedText(text) else text;
    var collapsed := if options.cleanWhitespace then CleanWhitespace(trimmed) else trimmed;
    if options.removeTabs then RemoveTabs(collapsed) else collapsed
  }

  /** `apply_options`: the enabled transforms, in the fixed order trim, clean, remove tabs. */
  method ApplyOptions(text: string, options: CleaningOptions) returns (r: string)
    ensures r == Cleaned(text, options)
    ensures !options.trimWhitespace && !options.cleanWhitespace && !options.removeTabs ==> r == text
  {
    r := text;
    if options.trimWhitespace {
      r := TrimWhitespace(r);
    }
    if options.cleanWhitespace {
      r := CleanWhitespace(r);
    }
    if options.removeTabs {
      r := RemoveTabs(r);
    }
  }

  /** With no option set the text comes back unchanged. */
  lemma {:induction false} NoOptionsIsIdentity(text: string)
    ensures Cleaned(text, CleaningOptions()) == text
  {
  }

  /** Each flag switches on exactly its own transform and nothing else. */
  lemma {:induction false} EachFlagGatesOneTransform(text: string)
    ensures Cleaned(text, CleaningOptions(trimWhitespace := true)) == TrimmedText(text)
    ensures Cleaned(text, CleaningOptions(cleanWhitespace := true)) == CleanWhitespace(text)
    ensures Cleaned(text, CleaningOptions(removeTabs := true)) == RemoveTabs(text)
    ensures Cleaned(text, CleaningOptions(true, true, true)) ==
      RemoveTabs(CleanWhitespace(TrimmedText(text)))
  {
  }

  /** Collapsing spaces keeps the last character of every line. */
  lemma {:induction false} CollapseEachKeepsLineEnds(ls: seq<string>)
    requires NoTrailingWhitespace(ls)
    ensures NoTrailingWhitespace(CollapseEach(ls))
  {
    var cs := CollapseEach(ls);
    forall k | 0 <= k < |cs| ensures cs[k] == [] || !IsWs(cs[k][|cs[k]| - 1]) {
      assert cs[k] == CollapseSpaces(ls[k]);
    }
  }

  /** Cleaning lines that do not end in whitespace leaves them so. */
  lemma {:induction false} CleanedKeepsLineEnds(t: string)
    requires Settled(Lines(t))
    ensures NoTrailingWhitespace(Lines(CleanWhitespace(t)))
  {
    var tl := Lines(t);
    assert Lines(CleanWhitespace(t)) == CollapseEach(tl) by {
      assert tl == [] || tl[|tl| - 1] != [];
      CleanedLines(t);
    }
    SettledNoTrailingWhitespace(tl);
    CollapseEachKeepsLineEnds(tl);
  }

  /** A line that ends in a character other than whitespace is not blank. */
  lemma {:induction false} EndsInContentNotBlank(l: string)
    requires l != [] && !IsWs(l[|l| - 1])
    ensures !IsBlank(l)
  {
    BlankIffAllWs(l);
  }

  /**
   * Collapsing and then stripping break-free lines that do not end in
   * whitespace gives tidy lines, settled as a list when the first and the
   * last line were not empty.
   */
  lemma {:induction false} CollapseStripSettled(ls: seq<string>, xs: seq<string>)
    requires AllNoNewline(ls) && NoTrailingWhitespace(ls)
    requires ls == [] || (ls[0] != [] && ls[|ls| - 1] != [])
    requires |xs| == |ls| && forall k :: 0 <= k < |ls| ==> xs[k] == LStripSpaceTab(CollapseSpaces(ls[k]))
    ensures Settled(xs)
    ensures AllTidy(xs)
  {
    CollapseStripEach(ls, xs);
    TidySettled(xs);
  }

  /** Tidy lines are settled as soon as the first and the last are not empty. */
  lemma {:induction false} TidySettled(xs: seq<string>)
    requires AllTidy(xs)
    requires xs == [] || (xs[0] != [] && xs[|xs| - 1] != [])
    ensures Settled(xs)
  {
    assert AllNoNewline(xs);
    if xs != [] {
      EndsInContentNotBlank(xs[0]);
      EndsInContentNotBlank(xs[|xs| - 1]);
    }
  }

  /**
   * Removing tabs from a text whose lines are settled lines, collapsed,
   * gives settled, tidy lines that join back into the result.
   */
  lemma {:induction false} RemoveTabsOfCollapsed(c: string, ls: seq<string>)
    requires Settled(ls) && Lines(c) == CollapseEach(ls)
    ensures Settled(Lines(RemoveTabs(c)))
    ensures Join(Lines(RemoveTabs(c))) == RemoveTabs(c)
    ensures AllTidy(Lines(RemoveTabs(c)))
  {
    var xs := LStripEach(Lines(c));
    assert |xs| == |ls| && forall k :: 0 <= k < |ls| ==> xs[k] == LStripSpaceTab(CollapseSpaces(ls[k])) by {
      StripCollapsedAt(ls);
    }
    assert ls == [] || (ls[0] != [] && ls[|ls| - 1] != []);
    SettledNoTrailingWhitespace(ls);
    CollapseStripSettled(ls, xs);
    RemoveTabsOfStripSettled(c);
  }

  lemma {:induction false} StripCollapsedAt(ls: seq<string>)
    ensures |LStripEach(CollapseEach(ls))| == |ls|
    ensures forall k :: 0 <= k < |ls| ==> LStripEach(CollapseEach(ls))[k] == LStripSpaceTab(CollapseSpaces(ls[k]))
  {
  }

  /**
   * When the stripped lines are settled, removing tabs gives exactly them,
   * joined.
   */
  lemma {:induction false} RemoveTabsOfStripSettled(c: string)
    requires Settled(LStripEach(Lines(c)))
    ensures Lines(RemoveTabs(c)) == LStripEach(Lines(c))
    ensures RemoveTabs(c) == Join(LStripEach(Lines(c)))
  {
    var xs := LStripEach(Lines(c));
    assert DropFinalEmpty(xs) == xs by {
      if xs != [] {
        assert !IsBlank(xs[|xs| - 1]);
      }
    }
    RemoveTabsOfLines(c, Lines(c));
  }

  /**
   * With every option set, the lines of the result are settled and tidy,
   * and joining them gives the result back.
   */
  lemma {:induction false} AllOptionsLines(text: string)
    ensures Settled(Lines(Cleaned(text, CleaningOptions(true, true, true))))
    ensures Join(Lines(Cleaned(text, CleaningOptions(true, true, true)))) == Cleaned(text, CleaningOptions(true, true, true))
    ensures AllTidy(Lines(Cleaned(text, CleaningOptions(true, true, true))))
  {
    var t := TrimmedText(text);
    var ls := Lines(t);
    assert Settled(ls) by {
      TrimmedLines(text);
    }
    var c := CleanWhitespace(t);
    assert Lines(c) == CollapseEach(ls) by {
      CleanedLines(t);
    }
    RemoveTabsOfCollapsed(c, ls);
  }

  /**
   * With every option set, no line of the result starts with a space or a
   * tab, ends in whitespace, or holds two adjacent spaces.
   */
  lemma {:induction false} AllOptionsLineShape(text: string)
    ensures var out := Lines(Cleaned(text, CleaningOptions(true, true, true)));
      forall k :: 0 <= k < |out| ==>
        && (out[k] == [] || (!IsSpaceOrTab(out[k][0]) && !IsWs(out[k][|out[k]| - 1])))
        && NoDoubleSpace(out[k])
  {
    AllOptionsTidy(text);
    TidyLineShape(Lines(Cleaned(text, CleaningOptions(true, true, true))));
  }

  lemma {:induction false} AllOptionsTidy(text: string)
    ensures AllTidy(Lines(Cleaned(text, CleaningOptions(true, true, true))))
  {
    AllOptionsLines(text);
  }

  /** Tidy lines, spelled out. */
  lemma {:induction false} TidyLineShape(out: seq<string>)
    requires AllTidy(out)
    ensures forall k :: 0 <= k < |out| ==>
      && (out[k] == [] || (!IsSpaceOrTab(out[k][0]) && !IsWs(out[k][|out[k]| - 1])))
      && NoDoubleSpace(out[k])
  {
    assert forall k :: 0 <= k < |out| ==> Tidy(out[k]);
  }

  /** Collapsing does nothing to the text of settled, tidy lines. */
  lemma {:induction false} CleanOfTidy(xs: seq<string>)
    requires Settled(xs) && AllTidy(xs)
    ensures CleanWhitespace(Join(xs)) == Join(xs)
  {
    SettledLinesRoundTrip(xs);
    CollapseEachFixed(xs);
  }

  /** Removing tabs does nothing to the text of settled, tidy lines. */
  lemma {:induction false} RemoveTabsOfTidy(xs: seq<string>)
    requires Settled(xs) && AllTidy(xs)
    ensures RemoveTabs(Join(xs)) == Join(xs)
  {
    SettledLinesRoundTrip(xs);
    LStripEachFixed(xs);
    RemoveTabsOfLines(Join(xs), xs);
  }

  /** Every transform leaves the text of settled, tidy lines as it is. */
  lemma {:induction false} AllOptionsOfTidy(xs: seq<string>)
    requires Settled(xs) && AllTidy(xs)
    ensures Cleaned(Join(xs), CleaningOptions(true, true, true)) == Join(xs)
  {
    TrimmedOfSettled(xs);
    CleanOfTidy(xs);
    RemoveTabsOfTidy(xs);
  }

  /** Applying every option twice is applying them once, for every text. */
  lemma {:induction false} AllOptionsIdempotent(text: string)
    ensures var all := CleaningOptions(true, true, true);
      Cleaned(Cleaned(text, all), all) == Cleaned(text, all)
  {
    AllOptionsLines(text);
    AllOptionsOfTidy(Lines(Cleaned(text, CleaningOptions(true, true, true))));
  }

  /** Collapsing spaces keeps settled lines settled. */
  lemma {:induction false} CollapseEachSettled(ls: seq<string>)
    requires Settled(ls)
    ensures Settled(CollapseEach(ls))
  {
    var cs := CollapseEach(ls);
    forall k | 0 <= k < |cs| ensures NoNewline(cs[k]) {
      CollapseKeepsNoNewline(ls[k]);
    }
    SettledNoTrailingWhitespace(ls);
    CollapseEachKeepsLineEnds(ls);
    assert ls == [] || (ls[0] != [] && ls[|ls| - 1] != []);
    ShapeSettled(cs);
  }

  /**
   * Stripping leading spaces and tabs keeps a break-free line that does not
   * end in whitespace so, and leaves it non-empty if it was.
   */
  lemma {:induction false} LStripLineShape(line: string)
    requires NoNewline(line) && (line == [] || !IsWs(line[|line| - 1]))
    ensures NoNewline(LStripSpaceTab(line))
    ensures LStripSpaceTab(line) == [] || !IsWs(LStripSpaceTab(line)[|LStripSpaceTab(line)| - 1])
    ensures line != [] ==> LStripSpaceTab(line) != []
  {
    SuffixKeepsShape(line, |line| - |LStripSpaceTab(line)|);
    if line != [] {
      assert !IsSpaceOrTab(line[|line| - 1]);
    }
  }

  /** Stripping leading spaces and tabs keeps settled lines settled. */
  lemma {:induction false} LStripEachSettled(ls: seq<string>)
    requires Settled(ls)
    ensures Settled(LStripEach(ls))
  {
    SettledNoTrailingWhitespace(ls);
    LStripEachShape(ls);
    assert ls == [] || (ls[0] != [] && ls[|ls| - 1] != []);
    ShapeSettled(LStripEach(ls));
  }

  /** Break-free lines without trailing whitespace are settled as soon as the first and the last are not empty. */
  lemma {:induction false} ShapeSettled(xs: seq<string>)
    requires AllNoNewline(xs) && NoTrailingWhitespace(xs)
    requires xs == [] || (xs[0] != [] && xs[|xs| - 1] != [])
    ensures Settled(xs)
  {
    if xs != [] {
      EndsInContentNotBlank(xs[0]);
      EndsInContentNotBlank(xs[|xs| - 1]);
    }
  }

  /** `LStripLineShape`, line by line. */
  lemma {:induction false} LStripEachShape(ls: seq<string>)
    requires AllNoNewline(ls) && NoTrailingWhitespace(ls)
    ensures AllNoNewline(LStripEach(ls)) && NoTrailingWhitespace(LStripEach(ls))
    ensures forall k :: 0 <= k < |ls| && ls[k] != [] ==> LStripEach(ls)[k] != []
  {
    var xs := LStripEach(ls);
    forall k | 0 <= k < |xs| ensures StripShape(ls[k], xs[k]) {
      LStripLineShape(ls[k]);
    }
    StripShapeEach(ls, xs);
  }

  /** `x` is what stripping leaves of the break-free line `l` that does not end in whitespace. */
  ghost predicate StripShape(l: string, x: string) {
    NoNewline(x) && (x == [] || !IsWs(x[|x| - 1])) && (l != [] ==> x != [])
  }

  lemma {:induction false} StripShapeEach(ls: seq<string>, xs: seq<string>)
    requires |xs| == |ls| && forall k :: 0 <= k < |xs| ==> StripShape(ls[k], xs[k])
    ensures AllNoNewline(xs) && NoTrailingWhitespace(xs)
    ensures forall k :: 0 <= k < |ls| && ls[k] != [] ==> xs[k] != []
  {
    forall k | 0 <= k < |xs| ensures NoNewline(xs[k]) {
      assert StripShape(ls[k], xs[k]);
    }
  }

  /** With trimming and cleaning set, applying the options twice is applying them once. */
  lemma {:induction false} TrimCleanIdempotent(text: string)
    ensures Cleaned(Cleaned(text, CleaningOptions(true, true, false)), CleaningOptions(true, true, false)) ==
      Cleaned(text, CleaningOptions(true, true, false))
  {
    var t := TrimmedText(text);
    var ls := Lines(t);
    TrimmedLines(text);
    CleanIdempotent(t);
    CollapseEachSettled(ls);
    TrimmedOfSettled(CollapseEach(ls));
  }

  /** With trimming and tab removal set, applying the options twice is applying them once. */
  lemma {:induction false} TrimRemoveTabsIdempotent(text: string)
    ensures Cleaned(Cleaned(text, CleaningOptions(true, false, true)), CleaningOptions(true, false, true)) ==
      Cleaned(text, CleaningOptions(true, false, true))
  {
    TrimThenStrip(text);
    TrimRemoveTabsOfStripped(Lines(TrimmedText(text)));
  }

  /** Trimming then removing tabs joins the stripped trimmed lines, which are settled. */
  lemma {:induction false} TrimThenStrip(text: string)
    ensures Settled(LStripEach(Lines(TrimmedText(text))))
    ensures RemoveTabs(TrimmedText(text)) == Join(LStripEach(Lines(TrimmedText(text))))
  {
    TrimmedLines(text);
    LStripEachSettled(Lines(TrimmedText(text)));
    RemoveTabsOfStripSettled(TrimmedText(text));
  }

  /** Stripped lines, once settled, are a fixed point of trim with remove tabs. */
  lemma {:induction false} TrimRemoveTabsOfStripped(ls: seq<string>)
    requires Settled(LStripEach(ls))
    ensures Cleaned(Join(LStripEach(ls)), CleaningOptions(true, false, true)) == Join(LStripEach(ls))
  {
    var xs := LStripEach(ls);
    TrimmedOfSettled(xs);
    SettledLinesRoundTrip(xs);
    LStripEachTwice(ls);
    RemoveTabsOfLines(Join(xs), xs);
  }

  /** Stripping every line twice is stripping every line once. */
  lemma {:induction false} LStripEachTwice(ls: seq<string>)
    ensures LStripEach(LStripEach(ls)) == LStripEach(ls)
  {
    var xs := LStripEach(ls);
    assert forall k :: 0 <= k < |xs| ==> xs[k] == [] || !IsSpaceOrTab(xs[k][0]);
    LStripEachFixed(xs);
  }

  /**
   * Without trimming, cleaning and removing tabs together still lose one
   * final empty line per pass, each transform dropping one: `l + "\n\n"`
   * reaches the fixed point `l` at once, but `l + "\n\n\n"` gives
   * `l + "\n"`, and a second pass gives `l`.
   */
  lemma {:induction false} CleanRemoveTabsBreaks(l: string)
    requires NoNewline(l) && NoDoubleSpace(l) && l != [] && !IsSpaceOrTab(l[0])
    ensures Cleaned(l + "\n\n", CleaningOptions(false, true, true)) == l
    ensures Cleaned(Cleaned(l + "\n\n", CleaningOptions(false, true, true)), CleaningOptions(false, true, true))
         == Cleaned(l + "\n\n", CleaningOptions(false, true, true))
    ensures Cleaned(l + "\n\n\n", CleaningOptions(false, true, true)) == l + "\n"
    ensures Cleaned(Cleaned(l + "\n\n\n", CleaningOptions(false, true, true)), CleaningOptions(false, true, true))
         != Cleaned(l + "\n\n\n", CleaningOptions(false, true, true))
  {
    CleanDropsFinalEmptyLine(l);
    RemoveTabsClosed(l);
    RemoveTabsClosedTwice(l);
    CleanClosedThrice(l);
    assert CollapseSpaces(l) == l by {
      CollapseSpacesIsDropRepeatedSpaces(l);
      DropRepeatedSpacesFixpoint(l);
    }
    CleanSingleLine(l);
    RemoveTabsSingleLine(l);
    LStripUnchanged(l);
    assert |l| < |l + "\n"|;
  }

  /** Cleaning a collapsed line followed by two empty lines keeps both of them but the last. */
  lemma {:induction false} CleanClosedThrice(l: string)
    requires NoNewline(l) && NoDoubleSpace(l)
    ensures CleanWhitespace(l + "\n\n\n") == l + "\n\n"
  {
    var ls := [l, "", ""];
    LinesClosedThrice(l);
    assert CollapseSpaces(l) == l by {
      CollapseSpacesIsDropRepeatedSpaces(l);
      DropRepeatedSpacesFixpoint(l);
    }
    assert CollapseEach(ls) == ls;
    CleanOfLines(l + "\n\n\n", ls);
    JoinThenTwoEmpty(l);
  }

  // ----- the all-options scenario -----

  /** Splitting a line surrounded by blank lines. */
  lemma {:induction false} LinesOfSurroundedLine(line: string)
    requires NoNewline(line)
    ensures Lines("\n" + line + "\n\n") == ["", line, ""]
  {
    assert "\n" + line + "\n\n" == "" + "\n" + (line + "\n" + ("" + "\n" + ""));
    LinesCons("", line + "\n" + ("" + "\n" + ""));
    LinesCons(line, "" + "\n" + "");
    LinesCons("", "");
  }

  /** A single content line between blank lines trims to that line without its trailing whitespace. */
  lemma {:induction false} TrimSurroundedLine(core: string, tail: string)
    requires NoNewline(core) && NoNewline(tail)
    requires core != [] && !IsWs(core[|core| - 1])
    requires forall i :: 0 <= i < |tail| ==> IsWs(tail[i])
    ensures TrimmedText("\n" + core + tail + "\n\n") == core
  {
    var line := core + tail;
    var ls := ["", line, ""];
    assert Lines("\n" + core + tail + "\n\n") == ls by {
      assert NoNewline(line);
      assert "\n" + core + tail + "\n\n" == "\n" + line + "\n\n";
      LinesOfSurroundedLine(line);
    }
    PaddedNotBlank(core, tail);
    KeptOfSurrounded(line);
    RStripPadded(core, tail);
  }

  /** Of a non-blank line between two empty lines, only that line is kept. */
  lemma {:induction false} KeptOfSurrounded(line: string)
    requires !IsBlank(line)
    ensures Kept(["", line, ""]) == [line]
  {
    var ls := ["", line, ""];
    assert IsBlank(ls[0]) && IsBlank(ls[2]);
    assert ContentStart(ls) == 1 by {
      assert ls[1..] == [line, ""];
    }
    assert ContentEnd(ls) == 2 by {
      assert ls[..2] == ["", line];
    }
  }

  /** A padded line on its own right-strips to its content. */
  lemma {:induction false} RStripPadded(core: string, tail: string)
    requires core != [] && !IsWs(core[|core| - 1])
    requires forall i :: 0 <= i < |tail| ==> IsWs(tail[i])
    ensures RStripEach([core + tail]) == [core]
  {
    RStripAppend(core, tail);
  }

  /** On a single line, `clean_whitespace` is the collapse of that line. */
  lemma {:induction false} CleanSingleLine(line: string)
    requires NoNewline(line) && line != []
    ensures CleanWhitespace(line) == CollapseSpaces(line)
  {
    LinesSingle(line);
    assert CollapseEach([line]) == [CollapseSpaces(line)];
  }

  /** On a single line, `remove_tabs` is the strip of that line. */
  lemma {:induction false} RemoveTabsSingleLine(line: string)
    requires NoNewline(line) && line != []
    ensures RemoveTabs(line) == LStripSpaceTab(line)
  {
    LinesSingle(line);
    assert LStripEach([line]) == [LStripSpaceTab(line)];
  }

  /** A word: non-empty and without whitespace of any kind. */
  predicate IsWord(w: string) {
    w != [] && forall i :: 0 <= i < |w| ==> !IsWs(w[i])
  }

  /** Collapsing an indented pair of words apart by a run of spaces leaves one space between them. */
  lemma {:induction false} CollapsePaddedPair(indent: string, a: string, gap: string, b: string)
    requires a != [] && b != []
    requires forall i :: 0 <= i < |a| ==> a[i] != ' '
    requires forall i :: 0 <= i < |b| ==> b[i] != ' '
    requires gap != [] && forall i :: 0 <= i < |gap| ==> gap[i] == ' '
    ensures CollapseSpaces(indent + a + gap + b) == DropRepeatedSpaces(indent) + (a + " " + b)
  {
    var core := indent + a + gap + b;
    var tail := a + (gap + b);
    assert core == indent + tail;
    CollapseSpacesIsDropRepeatedSpaces(core);
    assert tail[0] == a[0];
    DropRepeatedSpacesAppend(indent, tail);
    DropRepeatedSpacesWordPair(a, gap, b);
  }


  /** What is left of an indentation after collapsing is still spaces and tabs. */
  lemma {:induction false} CollapsedIndent(indent: string)
    requires forall i :: 0 <= i < |indent| ==> IsSpaceOrTab(indent[i])
    ensures forall i :: 0 <= i < |DropRepeatedSpaces(indent)| ==> IsSpaceOrTab(DropRepeatedSpaces(indent)[i])
    ensures NoNewline(DropRepeatedSpaces(indent))
  {
    var lead := DropRepeatedSpaces(indent);
    CollapseSpacesIsDropRepeatedSpaces(indent);
    forall i | 0 <= i < |lead| ensures IsSpaceOrTab(lead[i]) {
      assert lead[i] in CollapseSpaces(indent);
    }
  }

  /** Joining two break-free pieces gives a break-free line. */
  lemma {:induction false} NoNewlineAppend(x: string, y: string)
    requires NoNewline(x) && NoNewline(y)
    ensures NoNewline(x + y)
  {
    forall i | 0 <= i < |x + y| ensures (x + y)[i] != '\n' {
      if i < |x| {
        assert (x + y)[i] == x[i];
      } else {
        assert (x + y)[i] == y[i - |x|];
      }
    }
  }

  /**
   * With every option set, an indented line holding two words apart by a
   * run of spaces, padded at the end and surrounded by blank lines, comes
   * out as the two words with one space between them.
   */
  lemma {:induction false} AllOptionsOnPaddedPair(indent: string, a: string, gap: string, b: string, tail: string)
    requires forall i :: 0 <= i < |indent| ==> IsSpaceOrTab(indent[i])
    requires IsWord(a) && IsWord(b)
    requires gap != [] && forall i :: 0 <= i < |gap| ==> gap[i] == ' '
    requires forall i :: 0 <= i < |tail| ==> tail[i] == ' '
    ensures Cleaned("\n" + indent + a + gap + b + tail + "\n\n", CleaningOptions(true, true, true)) == a + " " + b
  {
    var core := indent + a + gap + b;
    var pair := a + " " + b;
    var lead := DropRepeatedSpaces(indent);
    assert IsWs('\n') && IsWs(' ') && IsWs('\t');
    assert NoNewline(a) && NoNewline(b) && NoNewline(gap) && NoNewline(indent) && NoNewline(" ");
    assert NoNewline(core) by {
      NoNewlineAppend(indent, a);
      NoNewlineAppend(indent + a, gap);
      NoNewlineAppend(indent + a + gap, b);
    }
    assert TrimmedText("\n" + indent + a + gap + b + tail + "\n\n") == core by {
      assert "\n" + indent + a + gap + b + tail + "\n\n" == "\n" + core + tail + "\n\n";
      assert core[|core| - 1] == b[|b| - 1];
      TrimSurroundedLine(core, tail);
    }
    assert CleanWhitespace(core) == lead + pair by {
      CleanSingleLine(core);
      assert forall i :: 0 <= i < |a| ==> a[i] != ' ';
      assert forall i :: 0 <= i < |b| ==> b[i] != ' ';
      CollapsePaddedPair(indent, a, gap, b);
    }
    CollapsedIndent(indent);
    assert NoNewline(lead + pair) by {
      NoNewlineAppend(a, " ");
      NoNewlineAppend(a + " ", b);
      NoNewlineAppend(lead, pair);
    }
    assert RemoveTabs(lead + pair) == pair by {
      RemoveTabsSingleLine(lead + pair);
      assert !IsSpaceOrTab(pair[0]) by {
        assert pair[0] == a[0];
      }
      LStripAppend(lead, pair);
    }
  }

  /** The three options together on `"\n\t  hello    world  \n\n"`. */
  lemma {:induction false} AllOptionsScenario()
    ensures Cleaned("\n\t  hello    world  \n\n", CleaningOptions(true, true, true)) == "hello world"
  {
    assert "\n" + "\t  " + "hello" + "    " + "world" + "  " + "\n\n" == "\n\t  hello    world  \n\n";
    assert "hello" + " " + "world" == "hello world";
    AllOptionsOnPaddedPair("\t  ", "hello", "    ", "world", "  ");
  }
}
