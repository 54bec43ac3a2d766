/**
 JavaScript's white space, trimming and splitting into words. A character is one UTF-16 code unit, so
 characters outside the Basic Multilingual Plane are not part of the model.
 */
module JavaScriptText {
  /** JavaScript's \s, for one code unit. */
  predicate IsSpace(c: char) {
    var n := c as int;
    || 9 <= n <= 13 || n == 0x20 || n == 0xA0 || n == 0x1680 || 0x2000 <= n <= 0x200A
    || n == 0x2028 || n == 0x2029 || n == 0x202F || n == 0x205F || n == 0x3000 || n == 0xFEFF
  }

  /** The white space, or the word, a text starts with. */
  function SpaceRun(s: string): (n: nat)
    ensures n <= |s| && (forall k :: 0 <= k < n ==> IsSpace(s[k])) && (n < |s| ==> !IsSpace(s[n]))
  {
    if s == [] || !IsSpace(s[0]) then 0 else 1 + SpaceRun(s[1..])
  }

  function WordRun(s: string): (n: nat)
    ensures n <= |s| && (forall k :: 0 <= k < n ==> !IsSpace(s[k])) && (n < |s| ==> IsSpace(s[n]))
  {
    if s == [] || IsSpace(s[0]) then 0 else 1 + WordRun(s[1..])
  }

  function TrimStart(s: string): string {
    s[SpaceRun(s)..]
  }

  function TrimEnd(s: string): string {
    if s == [] || !IsSpace(s[|s| - 1]) then s else TrimEnd(s[..|s| - 1])
  }

  function Trim(s: string): string {
    TrimEnd(TrimStart(s))
  }

  /** split(/\s+/) of a trimmed text that is not empty. */
  function Words(s: string): seq<string>
    decreases |s|
  {
    if s == [] then []
    else if IsSpace(s[0]) then Words(s[1..])
    else [s[..WordRun(s)]] + Words(s[WordRun(s)..])
  }

  // ----- facts about words -----

  predicate IsWord(w: string) {
    w != "" && forall k :: 0 <= k < |w| ==> !IsSpace(w[k])
  }

  lemma WordAlone(w: string)
    requires IsWord(w)
    ensures Words(w) == [w]
  {
    assert WordRun(w) == |w|;
    assert w[..|w|] == w;
  }

  lemma {:induction false} WordsAreWords(s: string)
    ensures forall k :: 0 <= k < |Words(s)| ==> IsWord(Words(s)[k])
    decreases |s|
  {
    if s != [] {
      WordsAreWords(if IsSpace(s[0]) then s[1..] else s[WordRun(s)..]);
    }
  }

  lemma BlankIsSpace()
    ensures IsSpace(' ')
  {
  }

  lemma SpaceFirst(s: string)
    requires s != [] && IsSpace(s[0])
    ensures Words(s) == Words(s[1..])
  {
  }

  lemma WordFirst(s: string, n: nat)
    requires s != [] && !IsSpace(s[0]) && WordRun(s) == n
    ensures 0 < n <= |s| && Words(s) == [s[..n]] + Words(s[n..])
  {
  }

  /** A blank between two texts separates their words. */
  lemma {:induction false} WordsOfJoined(a: string, b: string)
    ensures Words(a + " " + b) == Words(a) + Words(b)
    decreases |a|
  {
    if a == [] {
      BlankIsSpace();
      SpaceFirst(a + " " + b);
      assert (a + " " + b)[1..] == b;
    } else if IsSpace(a[0]) {
      SpaceJoined(a, b);
      WordsOfJoined(a[1..], b);
    } else {
      var n := WordRun(a);
      WordFirst(a, n);
      WordJoined(a, b, n);
      WordsOfJoined(a[n..], b);
    }
  }

  lemma SpaceJoined(a: string, b: string)
    requires a != [] && IsSpace(a[0])
    ensures Words(a + " " + b) == Words(a[1..] + " " + b) && Words(a) == Words(a[1..])
  {
    hide IsSpace, Words;
    var s := a + " " + b;
    SpaceFirst(s);
    SpaceFirst(a);
    assert s[1..] == a[1..] + " " + b;
  }

  lemma WordJoined(a: string, b: string, n: nat)
    requires a != [] && !IsSpace(a[0]) && WordRun(a) == n
    ensures n <= |a| && Words(a + " " + b) == [a[..n]] + Words(a[n..] + " " + b)
  {
    hide IsSpace, Words, WordRun;
    var s := a + " " + b;
    RunOfJoined(a, b, n);
    WordFirst(s, n);
    assert s[..n] == a[..n] && s[n..] == a[n..] + " " + b;
  }

  /** The first word of a is the first word of the joined text. */
  lemma RunOfJoined(a: string, b: string, n: nat)
    requires a != [] && !IsSpace(a[0]) && n == WordRun(a)
    ensures WordRun(a + " " + b) == n
  {
    hide IsSpace, WordRun;
    var s := a + " " + b;
    BlankIsSpace();
    assert s[|a|] == ' ';
    assert forall k :: 0 <= k < |a| ==> s[k] == a[k];
    WordRunIs(s, n);
  }

  lemma {:induction false} WordRunIs(s: string, n: nat)
    requires n <= |s| && (forall k :: 0 <= k < n ==> !IsSpace(s[k])) && (n < |s| ==> IsSpace(s[n]))
    ensures WordRun(s) == n
  {
  }
}
