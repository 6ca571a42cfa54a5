/** Limiting the length of a reply (apps/ai-service/app/services/suggest_reply.py). */
module ReplyLength {
  import opened PyText

  const MAX_REPLY_WORDS := 120

  function Word(word: string): seq<string> { if word == [] then [] else [word] }

  /** `str.split()`: the maximal runs of other characters than white space; `word` is an unfinished one. */
  function Words(word: string, s: string): seq<string>
    decreases |s|
  {
    if s == [] then Word(word)
    else if IsSpace(s[0]) then Word(word) + Words("", s[1..])
    else Words(word + [s[0]], s[1..])
  }

  predicate IsPunctuation(c: char) { c == '.' || c == ',' || c == ';' || c == ':' }

  /** `rstrip(".,;:")` */
  function StripPunctuation(s: string): string {
    if s != [] && IsPunctuation(s[|s| - 1]) then StripPunctuation(s[..|s| - 1]) else s
  }

  function LimitReplyLength(text: string): string {
    var stripped := Strip(text);
    var words := Words("", stripped);
    if |words| <= MAX_REPLY_WORDS then stripped
    else StripPunctuation(Join(words[..MAX_REPLY_WORDS], " ")) + "..."
  }

  // ------------------------------------------------------------------ words

  predicate IsWord(w: string) { w != [] && forall i :: 0 <= i < |w| ==> !IsSpace(w[i]) }

  predicate AllWords(words: seq<string>) { forall i :: 0 <= i < |words| ==> IsWord(words[i]) }

  lemma {:induction false} WordsAreWords(word: string, s: string)
    requires word == [] || IsWord(word)
    ensures AllWords(Words(word, s))
    decreases |s|
  {
    if s != [] { WordsAreWords(if IsSpace(s[0]) then "" else word + [s[0]], s[1..]); }
  }

  lemma {:induction false} WordsOfWord(word: string, w: string, s: string)
    requires forall i :: 0 <= i < |w| ==> !IsSpace(w[i])
    ensures Words(word, w + s) == Words(word + w, s)
    decreases |w|
  {
    if w == [] {
      assert w + s == s && word + w == word;
    } else {
      assert (w + s)[1..] == w[1..] + s;
      WordsOfWord(word + [w[0]], w[1..], s);
      assert word + [w[0]] + w[1..] == word + w;
    }
  }

  /** Splitting undoes joining with single spaces. */
  lemma {:induction false} WordsOfJoin(words: seq<string>)
    requires AllWords(words)
    ensures Words("", Join(words, " ")) == words
    decreases |words|
  {
    if words != [] {
      assert "" + words[0] == words[0];
      if |words| == 1 {
        assert words[0] + "" == words[0];
        WordsOfWord("", words[0], "");
      } else {
        var tail := " " + Join(words[1..], " ");
        assert Join(words, " ") == words[0] + tail;
        assert tail[1..] == Join(words[1..], " ");
        WordsOfWord("", words[0], tail);
        WordsOfJoin(words[1..]);
      }
    }
  }

  lemma {:induction false} WordsBeforeSpace(word: string, s: string, c: char)
    requires IsSpace(c)
    ensures Words(word, s + [c]) == Words(word, s)
    decreases |s|
  {
    if s == [] {
      assert (s + [c])[1..] == [];
    } else {
      assert (s + [c])[1..] == s[1..] + [c];
      WordsBeforeSpace(if IsSpace(s[0]) then "" else word + [s[0]], s[1..], c);
    }
  }

  lemma {:induction false} WordsStripRight(s: string)
    ensures Words("", StripRight(s)) == Words("", s)
    decreases |s|
  {
    if s != [] && IsSpace(s[|s| - 1]) {
      assert s == s[..|s| - 1] + [s[|s| - 1]];
      WordsBeforeSpace("", s[..|s| - 1], s[|s| - 1]);
      WordsStripRight(s[..|s| - 1]);
    }
  }

  lemma {:induction false} WordsStripLeft(s: string)
    ensures Words("", StripLeft(s)) == Words("", s)
  {
    if s != [] && IsSpace(s[0]) { WordsStripLeft(s[1..]); }
  }

  // ------------------------------------------------------------------ cutting

  lemma {:induction false} StripPunctuationAfter(a: string, b: string)
    requires a != [] && !IsPunctuation(a[|a| - 1])
    ensures StripPunctuation(a + b) == a + StripPunctuation(b)
    decreases |b|
  {
    if b == [] {
      assert a + b == a;
    } else if IsPunctuation(b[|b| - 1]) {
      assert (a + b)[..|a + b| - 1] == a + b[..|b| - 1];
      StripPunctuationAfter(a, b[..|b| - 1]);
    }
  }

  lemma {:induction false} PunctuationStripped(w: string)
    requires forall i :: 0 <= i < |w| ==> !IsSpace(w[i])
    ensures IsWord(StripPunctuation(w) + "...")
    decreases |w|
  {
    if w != [] && IsPunctuation(w[|w| - 1]) { PunctuationStripped(w[..|w| - 1]); }
  }

  /** Exactly the trailing full stops, commas, semicolons and colons go. */
  lemma {:induction false} StripPunctuationKeeps(s: string)
    ensures var r := StripPunctuation(s);
            && r <= s && (forall k :: |r| <= k < |s| ==> s[k] in ".,;:") && (r != "" ==> r[|r| - 1] !in ".,;:")
    decreases |s|
  {
    if s != [] && IsPunctuation(s[|s| - 1]) { StripPunctuationKeeps(s[..|s| - 1]); }
  }

  /** The words with the last one ending in an ellipsis instead of its own punctuation. */
  function Ellipsis(words: seq<string>): seq<string>
    requires words != []
  {
    words[..|words| - 1] + [StripPunctuation(words[|words| - 1]) + "..."]
  }

  lemma {:induction false} CutIsEllipsis(words: seq<string>)
    requires words != [] && AllWords(words)
    ensures StripPunctuation(Join(words, " ")) + "..." == Join(Ellipsis(words), " ")
    decreases |words|
  {
    if |words| > 1 {
      var head, tail := words[0] + " ", words[1..];
      CutIsEllipsis(tail);
      StripPunctuationAfter(head, Join(tail, " "));
      assert Ellipsis(words)[1..] == Ellipsis(tail);
      assert Join(words, " ") == head + Join(tail, " ");
      assert Join(Ellipsis(words), " ") == head + Join(Ellipsis(tail), " ");
    }
  }

  lemma {:induction false} JoinIsTight(words: seq<string>)
    requires AllWords(words)
    ensures Tight(Join(words, " ")) && (words != [] ==> Join(words, " ") != [])
    decreases |words|
  {
    if |words| > 1 { JoinIsTight(words[1..]); }
  }

  /**
   * A reply of at most 120 words only loses its outer white space. A longer one becomes exactly 120
   * words: its first 119, unchanged, and its 120th with an ellipsis for its trailing
   punctuation. */
  lemma LimitKeepsTheFirstWords(text: string)
    ensures var words := Words("", text);
      if |words| <= 120 then
        LimitReplyLength(text) == Strip(text) && Words("", LimitReplyLength(text)) == words
      else
        Words("", LimitReplyLength(text)) == Ellipsis(words[..120])
    ensures Tight(LimitReplyLength(text)) && |Words("", LimitReplyLength(text))| <= 120
  {
    WordsStripRight(text);
    WordsStripLeft(StripRight(text));
    StripIsTight(text);
    var words := Words("", text);
    WordsAreWords("", text);
    if |words| > MAX_REPLY_WORDS {
      var first := words[..MAX_REPLY_WORDS];
      CutIsEllipsis(first);
      PunctuationStripped(first[|first| - 1]);
      WordsOfJoin(Ellipsis(first));
      JoinIsTight(Ellipsis(first));
    }
  }

  /** Limiting is idempotent. */
  lemma LimitTwice(text: string)
    ensures LimitReplyLength(LimitReplyLength(text)) == LimitReplyLength(text)
  {
    LimitKeepsTheFirstWords(text);
    LimitKeepsTheFirstWords(LimitReplyLength(text));
    StripIsTight(LimitReplyLength(text));
  }

  /** The last word of a cut reply: the 120th without its trailing punctuation, and three dots. */
  lemma CutEndsInDots(text: string)
    requires |Words("", text)| > 120
    ensures var w, last := Words("", text)[119], Words("", LimitReplyLength(text));
            && |last| == 120 && (forall i :: 0 <= i < 119 ==> last[i] == Words("", text)[i])
            && exists n :: 0 <= n <= |w| && last[119] == w[..n] + "..."
                 && (forall k :: n <= k < |w| ==> w[k] in ".,;:") && (n > 0 ==> w[n - 1] !in ".,;:")
  {
    var words := Words("", text);
    LimitKeepsTheFirstWords(text);
    StripPunctuationKeeps(words[119]);
    assert words[119][..|StripPunctuation(words[119])|] == StripPunctuation(words[119]);
  }
}
