/**
 Splitting a speech into chunks for a text-to-speech engine: whitespace is normalised, the text is cut
 into sentences, and sentences (or the words of one that is too long) are packed greedily.
 */
module SpeechChunks {
  import opened Outcomes
  import opened JavaScriptText

  predicate IsStop(c: char) {
    c == '.' || c == '!' || c == '?'
  }

  function StopRun(s: string): (n: nat)
    ensures n <= |s| && (forall k :: 0 <= k < n ==> IsStop(s[k])) && (n < |s| ==> !IsStop(s[n]))
  {
    if s == [] || !IsStop(s[0]) then 0 else 1 + StopRun(s[1..])
  }

  function ClauseRun(s: string): (n: nat)
    ensures n <= |s| && (forall k :: 0 <= k < n ==> !IsStop(s[k])) && (n < |s| ==> IsStop(s[n]))
  {
    if s == [] || IsStop(s[0]) then 0 else 1 + ClauseRun(s[1..])
  }

  // ----- the regular expressions -----

  /** replace(/\s+/g, " ") */
  function Collapse(s: string): string
    decreases |s|
  {
    if s == [] then []
    else if IsSpace(s[0]) then " " + Collapse(s[SpaceRun(s)..])
    else [s[0]] + Collapse(s[1..])
  }

  /** match(/[^.!?]+[.!?]+|[^.!?]+$/g): a position on a stop matches nothing and is passed over. */
  function Matches(s: string): seq<string>
    decreases |s|
  {
    if s == [] then []
    else if IsStop(s[0]) then Matches(s[1..])
    else
      [s[..SentenceEnd(s)]] + Matches(s[SentenceEnd(s)..])
  }

  /** A clause and the stops after it. */
  function SentenceEnd(s: string): (m: nat)
    requires s != [] && !IsStop(s[0])
    ensures 0 < m <= |s| && (m < |s| ==> !IsStop(s[m]))
  {
    var n := ClauseRun(s);
    var m := n + StopRun(s[n..]);
    assert m < |s| ==> s[m] == s[n..][m - n];
    m
  }

  function TrimAll(parts: seq<string>): seq<string> {
    if parts == [] then []
    else (if Trim(parts[0]) == "" then [] else [Trim(parts[0])]) + TrimAll(parts[1..])
  }

  function Sentences(text: string): seq<string> {
    TrimAll(Matches(Trim(Collapse(text))))
  }

  function AllWords(parts: seq<string>): seq<string> {
    if parts == [] then [] else AllWords(parts[..|parts| - 1]) + Words(parts[|parts| - 1])
  }

  lemma AllWordsSnoc(parts: seq<string>, last: string)
    ensures AllWords(parts + [last]) == AllWords(parts) + Words(last)
  {
    assert (parts + [last])[..|parts + [last]| - 1] == parts;
  }

  // ----- single blanks -----

  /** White space only as single blanks. */
  predicate Collapsed(s: string) {
    forall k :: 0 <= k < |s| && IsSpace(s[k]) ==> s[k] == ' ' && (k + 1 < |s| ==> !IsSpace(s[k + 1]))
  }

  /** Words with single blanks between them, and nothing at the ends. */
  predicate Spaced(s: string) {
    s != "" && !IsSpace(s[0]) && !IsSpace(s[|s| - 1]) && Collapsed(s)
  }

  predicate AllSpaced(parts: seq<string>) {
    forall k :: 0 <= k < |parts| ==> Spaced(parts[k])
  }

  lemma SpacedJoins(a: string, b: string)
    requires Spaced(a) && Spaced(b)
    ensures Spaced(a + " " + b)
  {
    hide IsSpace;
    BlankIsSpace();
    var s := a + " " + b;
    forall k | 0 <= k < |s| && IsSpace(s[k])
      ensures s[k] == ' ' && (k + 1 < |s| ==> !IsSpace(s[k + 1]))
    {
      if k > |a| {
        assert s[k] == b[k - |a| - 1];
      }
    }
  }

  lemma WordIsSpaced(word: string)
    requires IsWord(word)
    ensures Spaced(word)
  {
    hide IsSpace;
  }

  lemma {:induction false} CollapseIsCollapsed(s: string)
    ensures Collapsed(Collapse(s)) && (Collapse(s) == [] <==> s == [])
    ensures s != [] ==> (IsSpace(Collapse(s)[0]) <==> IsSpace(s[0]))
    decreases |s|
  {
    hide IsSpace;
    if s != [] && IsSpace(s[0]) {
      BlankIsSpace();
      var rest := s[SpaceRun(s)..];
      CollapseIsCollapsed(rest);
      PrependsBlank(Collapse(rest));
    } else if s != [] {
      CollapseIsCollapsed(s[1..]);
    }
  }

  lemma PrependsBlank(rest: string)
    requires Collapsed(rest) && (rest != [] ==> !IsSpace(rest[0]))
    ensures Collapsed(" " + rest)
  {
    hide IsSpace;
    var s := " " + rest;
    assert forall k :: 1 <= k < |s| ==> s[k] == rest[k - 1];
  }

  lemma PartIsCollapsed(s: string, i: nat, j: nat)
    requires Collapsed(s) && i <= j <= |s|
    ensures Collapsed(s[i..j])
  {
    hide IsSpace;
  }

  lemma {:induction false} TrimEndIsPart(s: string)
    ensures |TrimEnd(s)| <= |s| && TrimEnd(s) == s[..|TrimEnd(s)|]
    ensures TrimEnd(s) != [] ==> !IsSpace(TrimEnd(s)[|TrimEnd(s)| - 1])
    decreases |s|
  {
    hide IsSpace;
    if s != [] && IsSpace(s[|s| - 1]) {
      TrimEndIsPart(s[..|s| - 1]);
    }
  }

  lemma TrimmedIsSpaced(s: string)
    requires Collapsed(s)
    ensures Collapsed(Trim(s)) && (Trim(s) != [] ==> Spaced(Trim(s)))
  {
    hide IsSpace;
    var t := TrimStart(s);
    TrimEndIsPart(t);
    PartIsCollapsed(s, SpaceRun(s), |s|);
    PartIsCollapsed(t, 0, |Trim(s)|);
    assert t[0..|Trim(s)|] == t[..|Trim(s)|];
  }

  lemma {:induction false} MatchesAreCollapsed(s: string)
    requires Collapsed(s)
    ensures forall k :: 0 <= k < |Matches(s)| ==> Collapsed(Matches(s)[k])
    decreases |s|
  {
    hide Collapsed, SentenceEnd;
    if s != [] && IsStop(s[0]) {
      PartIsCollapsed(s, 1, |s|);
      assert s[1..|s|] == s[1..];
      MatchesAreCollapsed(s[1..]);
    } else if s != [] {
      var m := SentenceEnd(s);
      PartIsCollapsed(s, m, |s|);
      PartIsCollapsed(s, 0, m);
      assert s[0..m] == s[..m] && s[m..|s|] == s[m..];
      MatchesAreCollapsed(s[m..]);
    }
  }

  lemma {:induction false} TrimAllIsSpaced(parts: seq<string>)
    requires forall k :: 0 <= k < |parts| ==> Collapsed(parts[k])
    ensures AllSpaced(TrimAll(parts))
    decreases |parts|
  {
    hide Collapsed, Spaced;
    if parts != [] {
      TrimmedIsSpaced(parts[0]);
      TrimAllIsSpaced(parts[1..]);
    }
  }

  lemma SentencesAreSpaced(text: string)
    ensures AllSpaced(Sentences(text))
  {
    hide Collapsed, AllSpaced;
    CollapseIsCollapsed(text);
    TrimmedIsSpaced(Collapse(text));
    MatchesAreCollapsed(Trim(Collapse(text)));
    TrimAllIsSpaced(Matches(Trim(Collapse(text))));
  }

  // ----- packing -----

  /** A chunk the engine can take: not empty, and within the limit unless it is one single word. */
  predicate Fits(chunk: string, limit: nat) {
    chunk != "" && (|chunk| <= limit || IsWord(chunk))
  }

  predicate AllFit(chunks: seq<string>, limit: nat) {
    forall k :: 0 <= k < |chunks| ==> Fits(chunks[k], limit)
  }

  /** From the given chunk on, no two neighbours would have fitted into one chunk. */
  predicate Tight(chunks: seq<string>, start: nat, limit: nat) {
    forall k :: start <= k < |chunks| - 1 ==> |chunks[k]| + 1 + |chunks[k + 1]| > limit
  }

  /** The chunk being filled would not have fitted behind the last one either. */
  predicate TightWith(chunks: seq<string>, current: string, start: nat, limit: nat) {
    Tight(chunks, start, limit) && (|chunks| > start ==> |chunks[|chunks| - 1]| + 1 + |current| > limit)
  }

  function WordsSoFar(chunks: seq<string>, current: string): seq<string> {
    AllWords(chunks) + Words(current)
  }

  lemma PushKeepsWords(chunks: seq<string>, current: string)
    ensures WordsSoFar(chunks + [current], "") == WordsSoFar(chunks, current)
  {
    AllWordsSnoc(chunks, current);
  }

  /** Both ways of adding a part keep the words: on the current chunk, or on a new one after it. */
  lemma PartKeepsWords(chunks: seq<string>, current: string, part: string)
    ensures current != "" ==> WordsSoFar(chunks, current + " " + part) == WordsSoFar(chunks, current) + Words(part)
    ensures current == "" ==> WordsSoFar(chunks, part) == WordsSoFar(chunks, current) + Words(part)
    ensures WordsSoFar(chunks + [current], part) == WordsSoFar(chunks, current) + Words(part)
  {
    hide Words, AllWords;
    NoWords(chunks);
    WordsOfJoined(current, part);
    AllWordsSnoc(chunks, current);
  }

  /** The words of one sentence that is too long, packed onto chunks of its own. */
  method PackWords(chunks: seq<string>, sentence: string, limit: nat) returns (packed: seq<string>)
    requires AllFit(chunks, limit)
    ensures AllFit(packed, limit) && AllWords(packed) == AllWords(chunks) + Words(sentence)
    ensures |chunks| <= |packed| && packed[..|chunks|] == chunks && Tight(packed, |chunks|, limit)
    ensures AllSpaced(chunks) ==> AllSpaced(packed)
  {
    hide Words, AllWords, Fits, Spaced;
    packed := chunks;
    var words := Words(sentence);
    var longChunk := "";
    WordsAreWords(sentence);
    NoWords(chunks);
    for j := 0 to |words|
      invariant AllFit(packed, limit) && WordsSoFar(packed, longChunk) == AllWords(chunks) + words[..j]
      invariant longChunk == "" || (Fits(longChunk, limit) && Spaced(longChunk))
      invariant AllSpaced(chunks) ==> AllSpaced(packed)
      invariant |chunks| <= |packed| && packed[..|chunks|] == chunks
      invariant TightWith(packed, longChunk, |chunks|, limit) && (j == 0 ==> packed == chunks)
    {
      var word := words[j];
      assert words[..j + 1] == words[..j] + [word];
      var candidate := if longChunk != "" then longChunk + " " + word else word;
      WordAlone(word);
      PartKeepsWords(packed, longChunk, word);
      WordFits(word, candidate, limit);
      WordIsSpaced(word);
      if longChunk != "" {
        SpacedJoins(longChunk, word);
      }
      if |candidate| > limit && longChunk != "" {
        packed := packed + [longChunk];
        longChunk := word;
      } else {
        longChunk := candidate;
      }
    }
    assert words[..|words|] == words;
    if longChunk != "" {
      PushKeepsWords(packed, longChunk);
      packed := packed + [longChunk];
    }
    NoWords(packed);
  }

  lemma NoWords(chunks: seq<string>)
    ensures WordsSoFar(chunks, "") == AllWords(chunks)
  {
  }

  lemma WordFits(word: string, candidate: string, limit: nat)
    requires IsWord(word)
    ensures Fits(word, limit) && (candidate != "" && |candidate| <= limit ==> Fits(candidate, limit))
  {
  }

  /**
   The packing loop: the words of the chunks in order are the words of the sentences in order, no
   chunk is empty, and a chunk over the limit is a single word.
   */
  method Pack(sentences: seq<string>, limit: nat) returns (chunks: seq<string>)
    requires forall k :: 0 <= k < |sentences| ==> sentences[k] != ""
    ensures AllFit(chunks, limit) && AllWords(chunks) == AllWords(sentences)
    ensures (forall k :: 0 <= k < |sentences| ==> |sentences[k]| <= limit) ==> Tight(chunks, 0, limit)
    ensures AllSpaced(sentences) ==> AllSpaced(chunks)
  {
    hide Words, AllWords, Spaced;
    chunks := [];
    var current := "";
    NothingYet();
    for i := 0 to |sentences|
      invariant AllFit(chunks, limit) && |current| <= limit
      invariant WordsSoFar(chunks, current) == AllWords(sentences[..i])
      invariant AllSpaced(sentences) ==> AllSpaced(chunks) && (current == "" || Spaced(current))
      invariant (forall k :: 0 <= k < |sentences| ==> |sentences[k]| <= limit) ==>
                  TightWith(chunks, current, 0, limit) && (i > 0 ==> current != "") && (i == 0 ==> chunks == [])
    {
      var sentence := sentences[i];
      assert sentences[..i + 1] == sentences[..i] + [sentence];
      AllWordsSnoc(sentences[..i], sentence);
      NoWords(chunks);
      if |sentence| > limit {
        if current != "" {
          PushKeepsWords(chunks, current);
          chunks := chunks + [current];
          current := "";
          NoWords(chunks);
        }
        chunks := PackWords(chunks, sentence, limit);
        NoWords(chunks);
      } else {
        var candidate := if current != "" then current + " " + sentence else sentence;
        PartKeepsWords(chunks, current, sentence);
        if current != "" && AllSpaced(sentences) {
          SpacedJoins(current, sentence);
        }
        if |candidate| > limit && current != "" {
          chunks := chunks + [current];
          current := sentence;
        } else {
          current := candidate;
        }
      }
    }
    assert sentences[..|sentences|] == sentences;
    if current != "" {
      PushKeepsWords(chunks, current);
      chunks := chunks + [current];
    }
    NoWords(chunks);
  }

  lemma NothingYet()
    ensures WordsSoFar([], "") == AllWords([])
  {
  }

  // ----- what reaches the speaker -----

  /** The characters that are not space. */
  function Visible(s: string): string {
    if s == [] then [] else (if IsSpace(s[0]) then [] else [s[0]]) + Visible(s[1..])
  }

  function Concat(parts: seq<string>): string {
    if parts == [] then [] else parts[0] + Concat(parts[1..])
  }

  lemma {:induction false} VisibleConcat(a: string, b: string)
    ensures Visible(a + b) == Visible(a) + Visible(b)
  {
    if a == [] {
      assert a + b == b;
    } else {
      assert (a + b)[1..] == a[1..] + b;
      VisibleConcat(a[1..], b);
    }
  }

  lemma {:induction false} SpaceIsInvisible(s: string)
    requires forall k :: 0 <= k < |s| ==> IsSpace(s[k])
    ensures Visible(s) == []
  {
    if s != [] {
      SpaceIsInvisible(s[1..]);
    }
  }

  lemma {:induction false} WordIsVisible(s: string)
    requires forall k :: 0 <= k < |s| ==> !IsSpace(s[k])
    ensures Visible(s) == s
  {
    if s != [] {
      WordIsVisible(s[1..]);
    }
  }

  lemma {:induction false} CollapseKeepsVisible(s: string)
    ensures Visible(Collapse(s)) == Visible(s)
    decreases |s|
  {
    if s != [] {
      if IsSpace(s[0]) {
        var n := SpaceRun(s);
        CollapseKeepsVisible(s[n..]);
        SpaceIsInvisible(s[..n]);
        VisibleConcat(s[..n], s[n..]);
        assert s == s[..n] + s[n..];
        assert Collapse(s)[1..] == Collapse(s[n..]);
      } else {
        CollapseKeepsVisible(s[1..]);
        assert Collapse(s)[1..] == Collapse(s[1..]);
      }
    }
  }

  lemma TrimStartKeepsVisible(s: string)
    ensures Visible(TrimStart(s)) == Visible(s)
  {
    var n := SpaceRun(s);
    SpaceIsInvisible(s[..n]);
    VisibleConcat(s[..n], s[n..]);
    assert s == s[..n] + s[n..];
  }

  lemma {:induction false} TrimEndKeepsVisible(s: string)
    ensures Visible(TrimEnd(s)) == Visible(s)
    ensures TrimEnd(s) != [] ==> s != [] && TrimEnd(s)[0] == s[0]
  {
    if s != [] && IsSpace(s[|s| - 1]) {
      var init, last := s[..|s| - 1], s[|s| - 1..];
      TrimEndKeepsVisible(init);
      SpaceIsInvisible(last);
      VisibleConcat(init, last);
      assert s == init + last;
    }
  }

  lemma TrimKeepsVisible(s: string)
    ensures Visible(Trim(s)) == Visible(s)
  {
    TrimStartKeepsVisible(s);
    TrimEndKeepsVisible(TrimStart(s));
  }

  lemma {:induction false} WordsAreVisible(s: string)
    ensures Concat(Words(s)) == Visible(s)
    decreases |s|
  {
    if s != [] {
      if IsSpace(s[0]) {
        WordsAreVisible(s[1..]);
      } else {
        var n := WordRun(s);
        WordsAreVisible(s[n..]);
        WordIsVisible(s[..n]);
        VisibleConcat(s[..n], s[n..]);
        assert s == s[..n] + s[n..];
        assert Words(s)[1..] == Words(s[n..]);
      }
    }
  }

  lemma {:induction false} ConcatConcat(a: seq<string>, b: seq<string>)
    ensures Concat(a + b) == Concat(a) + Concat(b)
  {
    if a == [] {
      assert a + b == b;
    } else {
      assert (a + b)[1..] == a[1..] + b;
      ConcatConcat(a[1..], b);
    }
  }

  lemma {:induction false} AllWordsAreVisible(parts: seq<string>)
    ensures Concat(AllWords(parts)) == Visible(Concat(parts))
    decreases |parts|
  {
    hide Words, Visible;
    if parts != [] {
      var init, last := parts[..|parts| - 1], parts[|parts| - 1];
      AllWordsAreVisible(init);
      WordsAreVisible(last);
      ConcatConcat(AllWords(init), Words(last));
      ConcatSnoc(init, last);
      VisibleConcat(Concat(init), last);
      assert parts == init + [last];
    } else {
      SpaceIsInvisible([]);
    }
  }

  lemma ConcatSnoc(parts: seq<string>, last: string)
    ensures Concat(parts + [last]) == Concat(parts) + last
  {
    ConcatConcat(parts, [last]);
    assert Concat([last]) == last + Concat([]);
  }

  lemma {:induction false} TrimAllKeepsVisible(parts: seq<string>)
    ensures Visible(Concat(TrimAll(parts))) == Visible(Concat(parts))
    ensures forall k :: 0 <= k < |TrimAll(parts)| ==> TrimAll(parts)[k] != ""
  {
    if parts != [] {
      TrimAllKeepsVisible(parts[1..]);
      TrimKeepsVisible(parts[0]);
      VisibleConcat(parts[0], Concat(parts[1..]));
      var t := Trim(parts[0]);
      VisibleConcat(t, Concat(TrimAll(parts[1..])));
      if t != "" {
        assert TrimAll(parts)[1..] == TrimAll(parts[1..]);
      } else {
        assert TrimAll(parts) == TrimAll(parts[1..]);
      }
    }
  }

  lemma OneConcat(s: string)
    ensures Concat([s]) == s
  {
  }

  /** The matches cover all but the stops the text starts with. */
  lemma {:induction false} MatchesCover(s: string)
    ensures Concat(Matches(s)) == s[StopRun(s)..]
    decreases |s|
  {
    hide Concat, SentenceEnd;
    if s == [] {
      assert Concat([]) == [] by { NoConcat(); }
    } else if IsStop(s[0]) {
      MatchesCover(s[1..]);
    } else {
      var m := SentenceEnd(s);
      MatchesCover(s[m..]);
      assert StopRun(s[m..]) == 0 && s[m..][0..] == s[m..];
      ConcatConcat([s[..m]], Matches(s[m..]));
      OneConcat(s[..m]);
      assert s[..m] + s[m..] == s;
    }
  }

  /** A clause and stops behind it; the last one may do without. */
  ghost predicate IsSentence(m: string, last: bool) {
    exists n: nat :: 0 < n <= |m| && (n < |m| || last) && Clause(m, n)
  }

  predicate Clause(m: string, n: nat)
    requires n <= |m|
  {
    && (forall k :: 0 <= k < n ==> m[k] != '.' && m[k] != '!' && m[k] != '?')
    && (forall k :: n <= k < |m| ==> m[k] == '.' || m[k] == '!' || m[k] == '?')
  }

  /** Each match is such a sentence, which with MatchesCover leaves one way to cut the text. */
  lemma {:induction false} MatchesAreSentences(s: string)
    ensures forall k :: 0 <= k < |Matches(s)| ==> IsSentence(Matches(s)[k], k == |Matches(s)| - 1)
    decreases |s|
  {
    hide IsSentence, SentenceEnd;
    if s != [] && IsStop(s[0]) {
      MatchesAreSentences(s[1..]);
    } else if s != [] {
      var rest := s[SentenceEnd(s)..];
      MatchesAreSentences(rest);
      FirstSentence(s, rest);
    }
  }

  lemma FirstSentence(s: string, rest: string)
    requires s != [] && !IsStop(s[0]) && rest == s[SentenceEnd(s)..]
    ensures IsSentence(s[..SentenceEnd(s)], Matches(rest) == [])
  {
    var n, m := ClauseRun(s), SentenceEnd(s);
    var part := s[..m];
    assert forall k :: n <= k < m ==> part[k] == s[n..][k - n];
    assert Clause(part, n);
    if n < |s| {
      StopStarts(s[n..]);
    } else {
      assert rest == [];
    }
  }

  lemma StopStarts(s: string)
    requires s != [] && IsStop(s[0])
    ensures StopRun(s) >= 1
  {
  }

  lemma NoConcat()
    ensures Concat([]) == []
  {
  }

  /** What is spoken of a text: everything after the run of stops it may start with. */
  function Spoken(text: string): string {
    TrimStart(text)[StopRun(TrimStart(text))..]
  }

  lemma {:induction false} StopsAreVisible(s: string, n: nat)
    requires n <= |s| && (forall k :: 0 <= k < n ==> !IsSpace(s[k]))
    ensures n <= |Visible(s)| && Visible(s[n..]) == Visible(s)[n..]
  {
    VisibleConcat(s[..n], s[n..]);
    WordIsVisible(s[..n]);
    assert s == s[..n] + s[n..];
  }

  /** A run of stops at the head of what is visible is cut alike before and after normalisation. */
  lemma {:induction false} LeadingStops(s: string)
    requires s == [] || !IsSpace(s[0])
    ensures StopRun(TrimEnd(Collapse(s))) == StopRun(s)
    decreases |s|
  {
    CollapsedHead(s);
    StopRunOfTrimmed(Collapse(s));
  }

  lemma {:induction false} CollapsedHead(s: string)
    ensures StopRun(Collapse(s)) == StopRun(s)
    decreases |s|
  {
    if s != [] {
      if IsStop(s[0]) {
        CollapsedHead(s[1..]);
        assert Collapse(s)[1..] == Collapse(s[1..]);
      } else {
        assert Collapse(s) != [] && !IsStop(Collapse(s)[0]);
      }
    }
  }

  lemma {:induction false} StopRunOfTrimmed(s: string)
    ensures StopRun(TrimEnd(s)) == StopRun(s)
    decreases |s|
  {
    if s != [] && IsSpace(s[|s| - 1]) {
      StopRunOfTrimmed(s[..|s| - 1]);
      StopRunOfInit(s);
    }
  }

  lemma {:induction false} StopRunOfInit(s: string)
    requires s != [] && !IsStop(s[|s| - 1])
    ensures StopRun(s[..|s| - 1]) == StopRun(s)
  {
    if |s| > 1 && IsStop(s[0]) {
      StopRunOfInit(s[1..]);
      assert s[1..][..|s| - 2] == s[..|s| - 1][1..];
    }
  }

  lemma CollapseOfTrimmed(text: string)
    ensures TrimStart(Collapse(text)) == Collapse(TrimStart(text))
  {
    var t := TrimStart(text);
    if text != [] && IsSpace(text[0]) {
      assert Collapse(text) == " " + Collapse(t);
      assert t == [] || !IsSpace(t[0]);
      assert Collapse(t) == [] || !IsSpace(Collapse(t)[0]);
      assert SpaceRun(Collapse(text)[1..]) == 0 && Collapse(text)[1..] == Collapse(t);
    } else {
      assert t == text;
      assert Collapse(t) == [] || !IsSpace(Collapse(t)[0]);
    }
  }

  lemma StartsVisible(s: string)
    ensures TrimStart(s) == [] || !IsSpace(TrimStart(s)[0])
  {
  }

  lemma StopsAreNotSpace(s: string)
    ensures forall k :: 0 <= k < StopRun(s) ==> !IsSpace(s[k])
  {
  }

  /** The words of the sentences spell the visible characters of the text after its leading stops. */
  lemma SentencesSpell(text: string)
    ensures Concat(AllWords(Sentences(text))) == Visible(Spoken(text))
    ensures forall k :: 0 <= k < |Sentences(text)| ==> Sentences(text)[k] != ""
  {
    hide Collapse, TrimStart, TrimEnd, Visible, AllWords, TrimAll, Matches, StopRun, Concat;
    var normal := Trim(Collapse(text));
    var t := TrimStart(text);
    StartsVisible(text);
    AllWordsAreVisible(Sentences(text));
    TrimAllKeepsVisible(Matches(normal));
    MatchesCover(normal);
    TrimKeepsVisible(Collapse(text));
    CollapseKeepsVisible(text);
    TrimStartKeepsVisible(text);
    CollapseOfTrimmed(text);
    LeadingStops(t);
    StopsAreNotSpace(normal);
    StopsAreNotSpace(t);
    StopsAreVisible(normal, StopRun(normal));
    StopsAreVisible(t, StopRun(t));
  }

  // ----- the function -----

  /**
   Refuses a limit below 80. Otherwise the words of the chunks are the words of the sentences, no chunk
   is empty, a chunk over the limit is one word, and the chunks spell all visible characters of the
   text in order, save the stops it starts with. Without an over-long sentence no two neighbouring
   chunks would have fitted into one.
   */
  method SplitSpeechIntoChunks(text: string, maximumLength: int) returns (r: Result<seq<string>, string>)
    ensures r.Err? <==> maximumLength < 80
    ensures r.Ok? ==> AllFit(r.value, maximumLength) && AllWords(r.value) == AllWords(Sentences(text))
    ensures r.Ok? && (forall k :: 0 <= k < |Sentences(text)| ==> |Sentences(text)[k]| <= maximumLength) ==>
              Tight(r.value, 0, maximumLength)
    ensures r.Ok? ==> Concat(AllWords(r.value)) == Visible(Spoken(text)) && AllSpaced(r.value)
  {
    SentencesAreSpaced(text);
    hide AllSpaced, AllWords, Sentences, Spoken, Visible, Concat, AllFit;
    if maximumLength < 80 {
      return Err("Speech chunk length must be an integer of at least 80 characters.");
    }
    SentencesSpell(text);
    var chunks := Pack(Sentences(text), maximumLength);
    return Ok(chunks);
  }

  /** Nothing visible is lost exactly when the text does not start with a stop. */
  lemma NothingLostExactly(text: string)
    ensures Visible(Spoken(text)) == Visible(text) <==> TrimStart(text) == [] || !IsStop(TrimStart(text)[0])
  {
    var t := TrimStart(text);
    TrimStartKeepsVisible(text);
    StopsAreVisible(t, StopRun(t));
  }
}
