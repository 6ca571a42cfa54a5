/** The string operations of Python that the reply filters use. */
module PyText {

  /** Characters `str.strip` and `str.split` treat as white space. */
  predicate IsSpace(c: char) {
    || '\t' <= c <= '\r' || '\U{001C}' <= c <= ' ' || c == '\U{0085}' || c == '\U{00A0}' || c == '\U{1680}'
    || '\U{2000}' <= c <= '\U{200A}' || c == '\U{2028}' || c == '\U{2029}' || c == '\U{202F}' || c == '\U{205F}'
         || c == '\U{3000}'
  }

  /** Characters `str.splitlines` cuts at. All of them are white space. */
  predicate IsBreak(c: char) {
    '\n' <= c <= '\r' || '\U{001C}' <= c <= '\U{001E}' || c == '\U{0085}' || c == '\U{2028}' || c == '\U{2029}'
  }

  function StripLeft(s: string): string { if s != [] && IsSpace(s[0]) then StripLeft(s[1..]) else s }

  function StripRight(s: string): string { if s != [] && IsSpace(s[|s| - 1]) then StripRight(s[..|s| - 1]) else s }

  function Strip(s: string): string { StripLeft(StripRight(s)) }

  /** No white space at either end. */
  predicate Tight(s: string) { s == [] || (!IsSpace(s[0]) && !IsSpace(s[|s| - 1])) }

  lemma {:induction false} StripLeftKeepsEnd(s: string)
    requires s == [] || !IsSpace(s[|s| - 1])
    ensures Tight(StripLeft(s))
    decreases |s|
  {
    if s != [] && IsSpace(s[0]) { StripLeftKeepsEnd(s[1..]); }
  }

  lemma {:induction false} StripRightEnds(s: string)
    ensures StripRight(s) == [] || !IsSpace(StripRight(s)[|StripRight(s)| - 1])
    decreases |s|
  {
    if s != [] && IsSpace(s[|s| - 1]) { StripRightEnds(s[..|s| - 1]); }
  }

  /** Stripping leaves no white space at the ends, and changes exactly the strings that had some. */
  lemma StripIsTight(s: string)
    ensures Tight(Strip(s))
    ensures Strip(s) == s <==> Tight(s)
  {
    StripRightEnds(s);
    StripLeftKeepsEnd(StripRight(s));
  }

  predicate SpaceAround(s: string, inner: string, i: nat) {
    && i + |inner| <= |s| && s[i..i + |inner|] == inner
    && (forall k :: 0 <= k < i ==> IsSpace(s[k])) && (forall k :: i + |inner| <= k < |s| ==> IsSpace(s[k]))
  }

  lemma {:induction false} StripRightKeeps(s: string)
    ensures StripRight(s) <= s && (forall k :: |StripRight(s)| <= k < |s| ==> IsSpace(s[k]))
    decreases |s|
  {
    if s != [] && IsSpace(s[|s| - 1]) { StripRightKeeps(s[..|s| - 1]); }
  }

  lemma {:induction false} StripLeftKeeps(s: string) returns (i: nat)
    ensures i <= |s| && StripLeft(s) == s[i..] && (forall k :: 0 <= k < i ==> IsSpace(s[k]))
    decreases |s|
  {
    i := 0;
    if s != [] && IsSpace(s[0]) {
      i := StripLeftKeeps(s[1..]);
      assert forall k :: 0 < k < |s| ==> s[k] == s[1..][k - 1];
      i := i + 1;
    }
  }

  /** Stripping cuts white space off both ends and nothing else. */
  lemma StripKeeps(s: string) returns (i: nat)
    ensures SpaceAround(s, Strip(s), i)
  {
    StripRightKeeps(s);
    i := StripLeftKeeps(StripRight(s));
  }

  /** The white space of the language, and the line breaks among it. */
  lemma SpaceCodes(c: char)
    ensures IsSpace(c) <==>
              9 <= c as int <= 13 || 28 <= c as int <= 32 || 0x2000 <= c as int <= 0x200A
              || c as int in {0x85, 0xA0, 0x1680, 0x2028, 0x2029, 0x202F, 0x205F, 0x3000}
    ensures IsBreak(c) <==> 10 <= c as int <= 13 || 28 <= c as int <= 30 || c as int in {0x85, 0x2028, 0x2029}
    ensures IsBreak(c) ==> IsSpace(c)
  {
  }

  lemma StripDropsLast(s: string, c: char)
    requires IsSpace(c)
    ensures Strip(s + [c]) == Strip(s)
  {
    assert (s + [c])[..|s|] == s;
  }

  lemma {:induction false} StripRightPrepend(s: string, c: char)
    requires IsSpace(c)
    ensures StripRight([c] + s) == if StripRight(s) == [] then [] else [c] + StripRight(s)
    decreases |s|
  {
    if s == [] {
      assert ([c] + s)[..0] == [];
    } else if IsSpace(s[|s| - 1]) {
      assert ([c] + s)[..|s|] == [c] + s[..|s| - 1];
      StripRightPrepend(s[..|s| - 1], c);
    }
  }

  lemma StripDropsFirst(s: string, c: char)
    requires IsSpace(c)
    ensures Strip([c] + s) == Strip(s)
  {
    StripRightPrepend(s, c);
    if StripRight(s) != [] { assert ([c] + StripRight(s))[1..] == StripRight(s); }
  }

  // ------------------------------------------------------------------ lines

  /** Index of the first line break, or the length. */
  function BreakAt(s: string): (k: nat)
    ensures k <= |s| && (forall i :: 0 <= i < k ==> !IsBreak(s[i])) && (k < |s| ==> IsBreak(s[k]))
  {
    if s == [] || IsBreak(s[0]) then 0 else 1 + BreakAt(s[1..])
  }

  function SkipBreak(s: string, k: nat): nat
    requires k < |s|
    ensures k < SkipBreak(s, k) <= |s|
  {
    if s[k] == '\r' && k + 1 < |s| && s[k + 1] == '\n' then k + 2 else k + 1
  }

  function SplitLines(s: string): seq<string>
    decreases |s|
  {
    if s == [] then []
    else
      var k := BreakAt(s);
      if k == |s| then [s] else [s[..k]] + SplitLines(s[SkipBreak(s, k)..])
  }

  function Join(lines: seq<string>, separator: string): string {
    if lines == [] then [] else if |lines| == 1 then lines[0] else lines[0] + separator + Join(lines[1..], separator)
  }

  predicate Unbroken(line: string) { forall i :: 0 <= i < |line| ==> !IsBreak(line[i]) }

  /** The only line break in use is LF. */
  predicate OnlyLF(s: string) { forall i :: 0 <= i < |s| && IsBreak(s[i]) ==> s[i] == '\n' }

  lemma {:induction false} SplitIsUnbroken(s: string)
    ensures forall i :: 0 <= i < |SplitLines(s)| ==> Unbroken(SplitLines(s)[i])
    decreases |s|
  {
    if s != [] && BreakAt(s) < |s| { SplitIsUnbroken(s[SkipBreak(s, BreakAt(s))..]); }
  }

  lemma {:induction false} JoinIsOnlyLF(lines: seq<string>)
    requires forall i :: 0 <= i < |lines| ==> Unbroken(lines[i])
    ensures OnlyLF(Join(lines, "\n"))
    decreases |lines|
  {
    if |lines| > 1 { JoinIsOnlyLF(lines[1..]); }
  }

  /** Joining undoes splitting on texts that use LF alone and do not end in it. */
  lemma {:induction false} JoinUndoesSplit(s: string)
    requires OnlyLF(s) && (s == [] || s[|s| - 1] != '\n')
    ensures Join(SplitLines(s), "\n") == s
    decreases |s|
  {
    if s != [] {
      var k := BreakAt(s);
      if k < |s| {
        var rest := s[k + 1..];
        assert s == s[..k] + "\n" + rest;
        JoinUndoesSplit(rest);
        assert SplitLines(s)[1..] == SplitLines(rest) && SplitLines(rest) != [];
      }
    }
  }

  /** A line, its break and the rest: CR LF is one break, every other break is one character. */
  lemma SplitCuts(line: string, rest: string)
    requires Unbroken(line)
    ensures SplitLines(line + "\r\n" + rest) == [line] + SplitLines(rest)
    ensures forall c: char :: IsBreak(c) && (c == '\r' && rest != [] ==> rest[0] != '\n') ==>
              SplitLines(line + [c] + rest) == [line] + SplitLines(rest)
  {
    CutsAt(line, "\r\n", rest);
    forall c: char | IsBreak(c) && (c == '\r' && rest != [] ==> rest[0] != '\n')
      ensures SplitLines(line + [c] + rest) == [line] + SplitLines(rest)
    {
      CutsAt(line, [c], rest);
    }
  }

  lemma CutsAt(line: string, cut: string, rest: string)
    requires Unbroken(line) && cut != [] && IsBreak(cut[0])
    requires cut == "\r\n" || (|cut| == 1 && (cut == "\r" && rest != [] ==> rest[0] != '\n'))
    ensures SplitLines(line + cut + rest) == [line] + SplitLines(rest)
  {
    var s := line + cut + rest;
    assert s[|line|] == cut[0];
    assert forall k :: 0 <= k < |line| ==> s[k] == line[k];
    assert BreakAt(s) == |line|;
    assert s[..|line|] == line && s[|line| + |cut|..] == rest;
    assert SkipBreak(s, |line|) == |line| + |cut|;
  }
}
