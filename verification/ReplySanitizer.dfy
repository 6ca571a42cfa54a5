/** Removing knowledge-base leakage from a reply (apps/ai-service/app/services/suggest_reply.py). */
module ReplySanitizer {
  import opened PyText

  /** The three tests a stripped line is put to; their patterns are not modelled. */
  datatype Patterns = Patterns(heading: string -> bool, title: string -> bool, metadata: string -> bool)

  // ------------------------------------------------------------------ the filter

  /** A sources heading: it and everything after it goes. */
  predicate Heads(p: Patterns, line: string) { Strip(line) != [] && p.heading(Strip(line)) }

  /** Neither an article title nor metadata. Blank lines pass. */
  predicate Passes(p: Patterns, line: string) {
    Strip(line) == [] || (!p.title(Strip(line)) && !p.metadata(Strip(line)))
  }

  /** The lines the loop keeps; `inBlock` once a sources heading has been seen. */
  function KeepLines(p: Patterns, lines: seq<string>, inBlock: bool): seq<string>
    decreases |lines|
  {
    if lines == [] then []
    else
      var block := inBlock || Heads(p, lines[0]);
      (if !block && Passes(p, lines[0]) then [lines[0]] else []) + KeepLines(p, lines[1..], block)
  }

  /** One turn of the loop, after `kept` has been collected. */
  lemma KeepNext(p: Patterns, lines: seq<string>, i: nat, kept: seq<string>, inBlock: bool)
    requires i < |lines|
    ensures kept + KeepLines(p, lines[i..], inBlock)
         == (if !inBlock && !Heads(p, lines[i]) && Passes(p, lines[i]) then kept + [lines[i]] else kept)
          + KeepLines(p, lines[i + 1..], inBlock || Heads(p, lines[i]))
  {
    assert lines[i..][1..] == lines[i + 1..];
  }

  method StripKbLines(p: Patterns, lines: seq<string>) returns (keptLines: seq<string>)
    ensures keptLines == KeepLines(p, lines, false)
  {
    keptLines := [];
    var inMetadataBlock := false;
    for i := 0 to |lines|
      invariant keptLines + KeepLines(p, lines[i..], inMetadataBlock) == KeepLines(p, lines, false)
    {
      KeepNext(p, lines, i, keptLines, inMetadataBlock);
      var line := lines[i];
      var stripped := Strip(line);
      if stripped == [] {
        if !inMetadataBlock { keptLines := keptLines + [line]; }
        continue;
      }
      if p.heading(stripped) {
        inMetadataBlock := true;
        continue;
      }
      if inMetadataBlock { continue; }
      if p.title(stripped) { continue; }
      if p.metadata(stripped) { continue; }
      keptLines := keptLines + [line];
    }
  }

  /** Every run of three or more LF becomes two; `run` counts the LF already written. */
  function Collapse(s: string, run: nat): string {
    if s == [] then []
    else if s[0] != '\n' then [s[0]] + Collapse(s[1..], 0)
    else if run >= 2 then Collapse(s[1..], run)
    else ['\n'] + Collapse(s[1..], run + 1)
  }

  function Clean(p: Patterns, text: string): string {
    Strip(Collapse(Strip(Join(KeepLines(p, SplitLines(text), false), "\n")), 0))
  }

  method StripKbLeakage(p: Patterns, text: string) returns (cleaned: string)
    ensures cleaned == Clean(p, text)
  {
    var kept := StripKbLines(p, SplitLines(text));
    cleaned := Strip(Collapse(Strip(Join(kept, "\n")), 0));
  }

  // ------------------------------------------------------------------ what a text says, line by line

  function Content(line: string): seq<string> { if Strip(line) == [] then [] else [Strip(line)] }

  /** The nonblank lines, stripped. */
  function Nonblank(lines: seq<string>): seq<string> {
    if lines == [] then [] else Content(lines[0]) + Nonblank(lines[1..])
  }

  /** The same for a text that uses LF alone, read character by character after an unfinished line. */
  function Says(line: string, s: string): seq<string>
    decreases |s|
  {
    if s == [] then Content(line)
    else if s[0] == '\n' then Content(line) + Says("", s[1..])
    else Says(line + [s[0]], s[1..])
  }

  lemma {:induction false} SaysLine(line: string, l: string, s: string)
    requires Unbroken(l)
    ensures Says(line, l + s) == Says(line + l, s)
    decreases |l|
  {
    if l == [] {
      assert l + s == s && line + l == line;
    } else {
      assert (l + s)[1..] == l[1..] + s;
      SaysLine(line + [l[0]], l[1..], s);
      assert line + [l[0]] + l[1..] == line + l;
    }
  }

  lemma {:induction false} SaysSplit(s: string)
    requires OnlyLF(s)
    ensures Says("", s) == Nonblank(SplitLines(s))
    decreases |s|
  {
    if s != [] {
      var k := BreakAt(s);
      var tail := s[k..];
      assert s == s[..k] + tail;
      SaysLine("", s[..k], tail);
      assert "" + s[..k] == s[..k];
      if k < |s| {
        assert tail[0] == '\n' && tail[1..] == s[k + 1..];
        SaysSplit(s[k + 1..]);
        assert SplitLines(s)[1..] == SplitLines(s[k + 1..]);
      } else {
        assert s[..k] == s && SplitLines(s) == [s];
        assert Nonblank([s]) == Content(s) + [];
      }
    }
  }

  lemma {:induction false} SaysJoin(lines: seq<string>)
    requires forall i :: 0 <= i < |lines| ==> Unbroken(lines[i])
    ensures Says("", Join(lines, "\n")) == Nonblank(lines)
    decreases |lines|
  {
    if lines == [] {
    } else if |lines| == 1 {
      SaysLine("", lines[0], "");
      assert lines[0] + "" == lines[0] && "" + lines[0] == lines[0];
      assert Nonblank(lines) == Content(lines[0]) + [];
    } else {
      var tail := "\n" + Join(lines[1..], "\n");
      assert Join(lines, "\n") == lines[0] + tail;
      SaysLine("", lines[0], tail);
      assert "" + lines[0] == lines[0] && tail[1..] == Join(lines[1..], "\n");
      SaysJoin(lines[1..]);
    }
  }

  lemma {:induction false} SaysAfterSpace(c: char, line: string, s: string)
    requires IsSpace(c)
    ensures Says([c] + line, s) == Says(line, s)
    decreases |s|
  {
    StripDropsFirst(line, c);
    if s != [] && s[0] != '\n' {
      assert [c] + line + [s[0]] == [c] + (line + [s[0]]);
      SaysAfterSpace(c, line + [s[0]], s[1..]);
    }
  }

  lemma {:induction false} SaysBeforeSpace(line: string, s: string, c: char)
    requires IsSpace(c)
    ensures Says(line, s + [c]) == Says(line, s)
    decreases |s|
  {
    if s == [] {
      assert (s + [c])[1..] == [];
      StripDropsLast(line, c);
      assert Strip("") == [];
    } else {
      assert (s + [c])[1..] == s[1..] + [c];
      SaysBeforeSpace(if s[0] == '\n' then "" else line + [s[0]], s[1..], c);
    }
  }

  lemma {:induction false} SaysStripRight(s: string)
    ensures Says("", StripRight(s)) == Says("", s)
    decreases |s|
  {
    if s != [] && IsSpace(s[|s| - 1]) {
      assert s == s[..|s| - 1] + [s[|s| - 1]];
      SaysBeforeSpace("", s[..|s| - 1], s[|s| - 1]);
      SaysStripRight(s[..|s| - 1]);
    }
  }

  lemma {:induction false} SaysStripLeft(s: string)
    ensures Says("", StripLeft(s)) == Says("", s)
    decreases |s|
  {
    if s != [] && IsSpace(s[0]) {
      SaysStripLeft(s[1..]);
      if s[0] == '\n' { assert Content("") == []; }
      else {
        assert "" + [s[0]] == [s[0]] + "";
        SaysAfterSpace(s[0], "", s[1..]);
      }
    }
  }

  lemma SaysStrip(s: string)
    ensures Says("", Strip(s)) == Says("", s)
  {
    SaysStripRight(s);
    SaysStripLeft(StripRight(s));
  }

  lemma {:induction false} SaysCollapse(line: string, s: string, run: nat)
    requires run > 0 ==> line == []
    ensures Says(line, Collapse(s, run)) == Says(line, s)
    decreases |s|
  {
    if s == [] {
    } else if s[0] != '\n' {
      SaysCollapse(line + [s[0]], s[1..], 0);
    } else if run >= 2 {
      SaysCollapse("", s[1..], run);
      assert Content("") == [];
    } else {
      SaysCollapse("", s[1..], run + 1);
    }
  }

  // ------------------------------------------------------------------ what the filter promises

  /** Lines before the first sources heading. */
  function BeforeHeading(p: Patterns, said: seq<string>): (k: nat)
    ensures k <= |said|
    ensures forall i :: 0 <= i < k ==> !p.heading(said[i])
    ensures k < |said| ==> p.heading(said[k])
  {
    if said == [] || p.heading(said[0]) then 0 else 1 + BeforeHeading(p, said[1..])
  }

  function Select(said: seq<string>, wanted: string -> bool): seq<string> {
    if said == [] then [] else (if wanted(said[0]) then [said[0]] else []) + Select(said[1..], wanted)
  }

  function Wanted(p: Patterns): string -> bool { (l: string) => !p.title(l) && !p.metadata(l) }

  /** The part of what was said that may be told to a customer. */
  function Public(p: Patterns, said: seq<string>): seq<string> {
    Select(said[..BeforeHeading(p, said)], Wanted(p))
  }

  lemma {:induction false} KeepInBlock(p: Patterns, lines: seq<string>)
    ensures KeepLines(p, lines, true) == []
    decreases |lines|
  {
    if lines != [] { KeepInBlock(p, lines[1..]); }
  }

  lemma {:induction false} NonblankConcat(a: seq<string>, b: seq<string>)
    ensures Nonblank(a + b) == Nonblank(a) + Nonblank(b)
  {
    if a == [] { assert a + b == b; } else { assert (a + b)[1..] == a[1..] + b; NonblankConcat(a[1..], b); }
  }

  lemma PublicFirst(p: Patterns, l: string, said: seq<string>)
    ensures Public(p, [l] + said)
         == if p.heading(l) then [] else (if Wanted(p)(l) then [l] else []) + Public(p, said)
  {
    assert ([l] + said)[1..] == said;
    if !p.heading(l) {
      var front := ([l] + said)[..1 + BeforeHeading(p, said)];
      assert front == [l] + said[..BeforeHeading(p, said)];
      assert front[1..] == said[..BeforeHeading(p, said)];
    }
  }

  lemma {:induction false} KeepIsPublic(p: Patterns, lines: seq<string>)
    ensures Nonblank(KeepLines(p, lines, false)) == Public(p, Nonblank(lines))
    decreases |lines|
  {
    if lines != [] {
      var line, rest := lines[0], lines[1..];
      KeepIsPublic(p, rest);
      if Heads(p, line) {
        KeepInBlock(p, rest);
        PublicFirst(p, Strip(line), Nonblank(rest));
      } else {
        var kept := if Passes(p, line) then [line] else [];
        NonblankConcat(kept, KeepLines(p, rest, false));
        assert Nonblank([line]) == Content(line) + Nonblank([]);
        if Strip(line) == [] {
          assert Nonblank(lines) == Nonblank(rest);
        } else {
          PublicFirst(p, Strip(line), Nonblank(rest));
        }
      }
    }
  }

  lemma {:induction false} KeptAreLines(p: Patterns, lines: seq<string>, inBlock: bool)
    requires forall i :: 0 <= i < |lines| ==> Unbroken(lines[i])
    ensures forall i :: 0 <= i < |KeepLines(p, lines, inBlock)| ==> Unbroken(KeepLines(p, lines, inBlock)[i])
    decreases |lines|
  {
    if lines != [] { KeptAreLines(p, lines[1..], inBlock || Heads(p, lines[0])); }
  }

  lemma {:induction false} StripLeftOnlyLF(s: string)
    requires OnlyLF(s)
    ensures OnlyLF(StripLeft(s))
  {
    if s != [] && IsSpace(s[0]) { StripLeftOnlyLF(s[1..]); }
  }

  lemma {:induction false} StripRightOnlyLF(s: string)
    requires OnlyLF(s)
    ensures OnlyLF(StripRight(s))
  {
    if s != [] && IsSpace(s[|s| - 1]) { StripRightOnlyLF(s[..|s| - 1]); }
  }

  lemma {:induction false} CollapseOnlyLF(s: string, run: nat)
    requires OnlyLF(s)
    ensures OnlyLF(Collapse(s, run))
  {
    if s != [] { CollapseOnlyLF(s[1..], if s[0] != '\n' then 0 else if run >= 2 then run else run + 1); }
  }

  lemma StripOnlyLF(s: string)
    requires OnlyLF(s)
    ensures OnlyLF(Strip(s))
  {
    StripRightOnlyLF(s);
    StripLeftOnlyLF(StripRight(s));
  }

  lemma CleanOnlyLF(p: Patterns, text: string)
    ensures OnlyLF(Clean(p, text))
    ensures Says("", Clean(p, text)) == Public(p, Nonblank(SplitLines(text)))
  {
    var lines := SplitLines(text);
    var kept := KeepLines(p, lines, false);
    SplitIsUnbroken(text);
    KeptAreLines(p, lines, false);
    JoinIsOnlyLF(kept);
    var joined := Join(kept, "\n");
    StripOnlyLF(joined);
    CollapseOnlyLF(Strip(joined), 0);
    StripOnlyLF(Collapse(Strip(joined), 0));
    SaysJoin(kept);
    SaysStrip(joined);
    SaysCollapse("", Strip(joined), 0);
    SaysStrip(Collapse(Strip(joined), 0));
    KeepIsPublic(p, lines);
  }

  /**
   * The nonblank lines of the cleaned reply are, in order and up to outer white space, the nonblank
   * lines before the first sources heading that are neither a title nor
   metadata. */
  lemma CleanSaysThePublicPart(p: Patterns, text: string)
    ensures Nonblank(SplitLines(Clean(p, text))) == Public(p, Nonblank(SplitLines(text)))
  {
    CleanOnlyLF(p, text);
    SaysSplit(Clean(p, text));
  }

  lemma {:induction false} SelectedAreWanted(said: seq<string>, wanted: string -> bool, l: string)
    ensures l in Select(said, wanted) <==> l in said && wanted(l)
    decreases |said|
  {
    if said != [] {
      SelectedAreWanted(said[1..], wanted, l);
      assert said == [said[0]] + said[1..];
    }
  }

  /** No line of the cleaned reply is a sources heading, a title or metadata. */
  lemma NothingLeaks(p: Patterns, text: string, l: string)
    requires l in Nonblank(SplitLines(Clean(p, text)))
    ensures !p.heading(l) && !p.title(l) && !p.metadata(l)
  {
    var said := Nonblank(SplitLines(text));
    CleanSaysThePublicPart(p, text);
    SelectedAreWanted(said[..BeforeHeading(p, said)], Wanted(p), l);
  }

  /** And nothing else is lost: every line before the first heading that is neither a title nor metadata stays. */
  lemma NothingElseIsLost(p: Patterns, text: string, i: nat)
    requires i < |Nonblank(SplitLines(text))|
    requires var said := Nonblank(SplitLines(text));
             (forall j :: 0 <= j <= i ==> !p.heading(said[j])) && !p.title(said[i]) && !p.metadata(said[i])
    ensures Nonblank(SplitLines(text))[i] in Nonblank(SplitLines(Clean(p, text)))
  {
    var said := Nonblank(SplitLines(text));
    CleanSaysThePublicPart(p, text);
    assert i < BeforeHeading(p, said) && said[..BeforeHeading(p, said)][i] == said[i];
    SelectedAreWanted(said[..BeforeHeading(p, said)], Wanted(p), said[i]);
  }

  /** What is said is the lines stripped, without the blank ones. */
  lemma {:induction false} NonblankMeans(lines: seq<string>, l: string)
    ensures l in Nonblank(lines) <==> l != "" && exists i :: 0 <= i < |lines| && Strip(lines[i]) == l
    decreases |lines|
  {
    if lines != [] {
      NonblankMeans(lines[1..], l);
      assert forall i :: 0 < i < |lines| ==> lines[i] == lines[1..][i - 1];
      if exists i :: 0 <= i < |lines| && Strip(lines[i]) == l {
        var i :| 0 <= i < |lines| && Strip(lines[i]) == l;
        if i > 0 { assert Strip(lines[1..][i - 1]) == l; }
      }
      if exists i :: 0 <= i < |lines[1..]| && Strip(lines[1..][i]) == l {
        var i :| 0 <= i < |lines[1..]| && Strip(lines[1..][i]) == l;
        assert Strip(lines[i + 1]) == l;
      }
    }
  }

  predicate ThreeBreaks(s: string, i: nat) { i + 2 < |s| && s[i] == '\n' && s[i + 1] == '\n' && s[i + 2] == '\n' }

  /** LF written just before, at most two of them. */
  function Breaks(run: nat): string { if run == 0 then "" else if run == 1 then "\n" else "\n\n" }

  ghost predicate NoGaps(s: string) { forall i: nat :: !ThreeBreaks(s, i) }

  function NextRun(c: char, run: nat): nat { if c != '\n' then 0 else if run >= 2 then run else run + 1 }

  lemma NoGapsAfterText(before: string, c: char, rest: string)
    requires c != '\n' && |before| <= 2
    ensures NoGaps(before + ([c] + rest)) <==> NoGaps(rest)
  {
    var text, at := before + ([c] + rest), |before| + 1;
    assert forall k :: 0 <= k < |rest| ==> text[at + k] == rest[k];
    forall i: nat | ThreeBreaks(text, i) ensures ThreeBreaks(rest, i - at) { assert text[|before|] == c; }
    forall i: nat | ThreeBreaks(rest, i) ensures ThreeBreaks(text, i + at) {}
  }

  /** Collapsing leaves no three LF in a row. */
  lemma {:induction false} CollapseLeavesNoGaps(s: string, run: nat)
    requires run <= 2
    ensures NoGaps(Breaks(run) + Collapse(s, run))
    decreases |s|
  {
    if s != [] {
      var next := NextRun(s[0], run);
      CollapseLeavesNoGaps(s[1..], next);
      var rest := Collapse(s[1..], next);
      if s[0] != '\n' {
        assert Breaks(0) + rest == rest;
        NoGapsAfterText(Breaks(run), s[0], rest);
      } else if run < 2 {
        assert Breaks(run) + Collapse(s, run) == Breaks(next) + rest;
      }
    }
  }

  /** And it leaves a text without three in a row alone. */
  lemma {:induction false} CollapseKeepsNoGaps(s: string, run: nat)
    requires run <= 2 && NoGaps(Breaks(run) + s)
    ensures Collapse(s, run) == s
    decreases |s|
  {
    if s != [] {
      assert run == 2 && s[0] == '\n' ==> ThreeBreaks(Breaks(run) + s, 0);
      var next := NextRun(s[0], run);
      if s[0] != '\n' {
        assert Breaks(run) + s == Breaks(run) + ([s[0]] + s[1..]) && Breaks(0) + s[1..] == s[1..];
        NoGapsAfterText(Breaks(run), s[0], s[1..]);
      } else {
        assert Breaks(run) + s == Breaks(next) + s[1..];
      }
      CollapseKeepsNoGaps(s[1..], next);
    }
  }

  /** A cleaned text holds no three LF in a row. */
  lemma CleanHasNoGaps(p: Patterns, text: string)
    ensures NoGaps(Clean(p, text))
  {
    CleanIsTight(p, text);
    CollapseLeavesNoGaps(Clean(p, text), 0);
    assert Breaks(0) + Collapse(Clean(p, text), 0) == Clean(p, text);
  }

  // ------------------------------------------------------------------ cleaning twice

  lemma {:induction false} KeepsEverything(p: Patterns, lines: seq<string>)
    requires forall l :: l in Nonblank(lines) ==> !p.heading(l) && !p.title(l) && !p.metadata(l)
    ensures KeepLines(p, lines, false) == lines
    decreases |lines|
  {
    if lines != [] {
      assert Strip(lines[0]) != [] ==> Strip(lines[0]) in Content(lines[0]);
      KeepsEverything(p, lines[1..]);
    }
  }

  lemma {:induction false} CollapseTwice(s: string, run: nat)
    ensures Collapse(Collapse(s, run), run) == Collapse(s, run)
    decreases |s|
  {
    if s == [] {
    } else if s[0] != '\n' {
      CollapseTwice(s[1..], 0);
    } else if run >= 2 {
      CollapseTwice(s[1..], run);
    } else {
      CollapseTwice(s[1..], run + 1);
    }
  }

  lemma {:induction false} CollapseKeepsEnd(s: string, run: nat)
    requires s != [] && s[|s| - 1] != '\n'
    ensures Collapse(s, run) != [] && Collapse(s, run)[|Collapse(s, run)| - 1] == s[|s| - 1]
    decreases |s|
  {
    if |s| > 1 { CollapseKeepsEnd(s[1..], if s[0] != '\n' then 0 else if run >= 2 then run else run + 1); }
  }

  lemma CollapseKeepsTight(s: string)
    requires Tight(s)
    ensures Tight(Collapse(s, 0))
  {
    if s != [] { CollapseKeepsEnd(s, 0); }
  }

  /** A kept text without three LF in a row is only stripped. */
  lemma CleanOnlyStrips(p: Patterns, text: string)
    requires NoGaps(Strip(Join(KeepLines(p, SplitLines(text), false), "\n")))
    ensures Clean(p, text) == Strip(Join(KeepLines(p, SplitLines(text), false), "\n"))
  {
    var kept := Strip(Join(KeepLines(p, SplitLines(text), false), "\n"));
    assert Breaks(0) + kept == kept;
    CollapseKeepsNoGaps(kept, 0);
    StripIsTight(Join(KeepLines(p, SplitLines(text), false), "\n"));
    StripIsTight(kept);
  }

  /** The second `strip` never does anything: a cleaned text is tight and holds no run of three LF. */
  lemma CleanIsTight(p: Patterns, text: string)
    ensures Tight(Clean(p, text)) && Collapse(Clean(p, text), 0) == Clean(p, text)
    ensures Clean(p, text) == Collapse(Strip(Join(KeepLines(p, SplitLines(text), false), "\n")), 0)
  {
    var joined := Join(KeepLines(p, SplitLines(text), false), "\n");
    StripIsTight(joined);
    var inner := Strip(joined);
    CollapseKeepsTight(inner);
    StripIsTight(Collapse(inner, 0));
    CollapseTwice(inner, 0);
  }

  lemma CleanFixes(p: Patterns, s: string)
    requires Tight(s) && OnlyLF(s) && Collapse(s, 0) == s
    requires KeepLines(p, SplitLines(s), false) == SplitLines(s)
    ensures Clean(p, s) == s
  {
    JoinUndoesSplit(s);
    StripIsTight(s);
  }

  /** Cleaning is idempotent. */
  lemma CleanTwice(p: Patterns, text: string)
    ensures Clean(p, Clean(p, text)) == Clean(p, text)
  {
    var cleaned := Clean(p, text);
    CleanIsTight(p, text);
    CleanOnlyLF(p, text);
    forall l | l in Nonblank(SplitLines(cleaned)) ensures !p.heading(l) && !p.title(l) && !p.metadata(l) {
      NothingLeaks(p, text, l);
    }
    KeepsEverything(p, SplitLines(cleaned));
    CleanFixes(p, cleaned);
  }
}
