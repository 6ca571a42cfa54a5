/** White space as JavaScript strings see it. */
module JsText {

  /** The characters `String.prototype.trim` removes. */
  predicate IsSpace(c: char) {
    || '\t' <= c <= '\r' || c == ' ' || c == '\U{00A0}' || c == '\U{1680}' || '\U{2000}' <= c <= '\U{200A}'
    || c == '\U{2028}' || c == '\U{2029}' || c == '\U{202F}' || c == '\U{205F}' || c == '\U{3000}' || c == '\U{FEFF}'
  }

  predicate Blank(s: string) { forall i :: 0 <= i < |s| ==> IsSpace(s[i]) }

  function TrimLeft(s: string): string {
    if s != [] && IsSpace(s[0]) then TrimLeft(s[1..]) else s
  }

  function TrimRight(s: string): string {
    if s != [] && IsSpace(s[|s| - 1]) then TrimRight(s[..|s| - 1]) else s
  }

  function Trim(s: string): string { TrimRight(TrimLeft(s)) }

  /** A text is blank exactly when trimming leaves nothing. */
  lemma {:induction false} BlankTrims(s: string)
    ensures Blank(s) <==> Trim(s) == ""
    decreases |s|
  {
    if s != [] && IsSpace(s[0]) {
      BlankTrims(s[1..]);
      assert Blank(s) <==> Blank(s[1..]) by {
        assert s == [s[0]] + s[1..];
      }
    } else if s != [] {
      TrimRightKeepsFirst(s);
    }
  }

  lemma {:induction false} TrimRightKeepsFirst(s: string)
    requires s != [] && !IsSpace(s[0])
    ensures TrimRight(s) != []
    decreases |s|
  {
    if IsSpace(s[|s| - 1]) { TrimRightKeepsFirst(s[..|s| - 1]); }
  }

  predicate BlankAround(s: string, inner: string, i: nat) {
    && i + |inner| <= |s| && s[i..i + |inner|] == inner
    && (forall k :: 0 <= k < i ==> IsSpace(s[k])) && (forall k :: i + |inner| <= k < |s| ==> IsSpace(s[k]))
  }

  lemma {:induction false} TrimRightKeeps(s: string)
    ensures TrimRight(s) <= s && (forall k :: |TrimRight(s)| <= k < |s| ==> IsSpace(s[k]))
    ensures TrimRight(s) == "" || !IsSpace(TrimRight(s)[|TrimRight(s)| - 1])
    decreases |s|
  {
    if s != [] && IsSpace(s[|s| - 1]) { TrimRightKeeps(s[..|s| - 1]); }
  }

  /** Trimming cuts white space off both ends and nothing else. */
  lemma {:induction false} TrimKeeps(s: string) returns (i: nat)
    ensures BlankAround(s, Trim(s), i)
    ensures Trim(s) == "" || (!IsSpace(Trim(s)[0]) && !IsSpace(Trim(s)[|Trim(s)| - 1]))
    decreases |s|
  {
    if s != [] && IsSpace(s[0]) {
      i := TrimKeeps(s[1..]);
      assert forall k :: 0 < k < |s| ==> s[k] == s[1..][k - 1];
      i := i + 1;
    } else {
      i := 0;
      TrimRightKeeps(s);
    }
  }

  /** The white space of the language: tab to carriage return, space, the Unicode space separators, the line and
      paragraph separators and the byte-order mark. */
  lemma SpaceCodes(c: char)
    ensures IsSpace(c) <==>
              c as int in {9, 10, 11, 12, 13, 32, 0xA0, 0x1680, 0x2028, 0x2029, 0x202F, 0x205F, 0x3000, 0xFEFF}
              || 0x2000 <= c as int <= 0x200A
  {
  }
}
