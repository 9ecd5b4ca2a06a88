/** The few Python string operations the wallet client applies to RPC reply text. */
module Text {
  /** Python's `str.isspace()`: the characters `str.split()` with no argument splits on. */
  predicate IsSpace(c: char) {
    || c == ' '
    || '\t' <= c <= '\r'
    || '\U{1C}' <= c <= '\U{1F}'
    || c == '\U{85}' || c == '\U{A0}' || c == '\U{1680}'
    || '\U{2000}' <= c <= '\U{200A}'
    || c == '\U{2028}' || c == '\U{2029}' || c == '\U{202F}' || c == '\U{205F}' || c == '\U{3000}'
  }

  predicate IsWord(w: string) {
    w != [] && forall i :: 0 <= i < |w| ==> !IsSpace(w[i])
  }

  /** `s.split()`: the maximal runs of non-space characters, in order. */
  function Words(s: string): (ws: seq<string>)
    ensures forall k :: 0 <= k < |ws| ==> IsWord(ws[k])
  {
    WordsFrom(s, [])
  }

  /** Splitting the rest `s` of a text while the word `cur` is being read. */
  function WordsFrom(s: string, cur: string): (ws: seq<string>)
    requires forall i :: 0 <= i < |cur| ==> !IsSpace(cur[i])
    ensures forall k :: 0 <= k < |ws| ==> IsWord(ws[k])
    ensures cur != [] ==> |ws| > 0 && |ws[0]| >= |cur| && ws[0][..|cur|] == cur
    decreases |s|
  {
    if s == [] then
      (if cur == [] then [] else [cur])
    else if IsSpace(s[0]) then
      (if cur == [] then WordsFrom(s[1..], []) else [cur] + WordsFrom(s[1..], []))
    else
      var ws := WordsFrom(s[1..], cur + [s[0]]);
      assert ws[0][..|cur|] == (ws[0][..|cur| + 1])[..|cur|];
      ws
  }

  /** A text that begins with a non-space character has at least one word, and it is the first. */
  lemma WordsOfUnpadded(s: string)
    requires s != [] && !IsSpace(s[0])
    ensures |Words(s)| > 0 && Words(s)[0][0] == s[0]
  {
    assert s == [s[0]] + s[1..];
  }

  /** Python's `str.lower()` on the ASCII letters. */
  function Lower(s: string): (r: string)
    ensures |r| == |s|
    ensures forall i :: 0 <= i < |s| ==> r[i] == (if 'A' <= s[i] <= 'Z' then (s[i] as int + 32) as char else s[i])
  {
    seq(|s|, i requires 0 <= i < |s| => if 'A' <= s[i] <= 'Z' then (s[i] as int + 32) as char else s[i])
  }

  predicate StartsWith(s: string, prefix: string) {
    |prefix| <= |s| && s[..|prefix|] == prefix
  }

  /** Python's `sub in s`. */
  predicate Contains(s: string, sub: string)
    decreases |s|
  {
    StartsWith(s, sub) || (s != [] && Contains(s[1..], sub))
  }

  lemma {:induction false} ContainsAt(s: string, sub: string, i: nat)
    requires i + |sub| <= |s| && s[i..i + |sub|] == sub
    ensures Contains(s, sub)
    decreases i
  {
    if i > 0 {
      assert s[1..][i - 1..i - 1 + |sub|] == s[i..i + |sub|];
      ContainsAt(s[1..], sub, i - 1);
    }
  }

  /** The `n` consecutive ASCII characters from `start` on. */
  function Run(start: char, n: nat): (s: string)
    requires start as int + n <= 128
    ensures |s| == n && forall c :: c in s <==> start <= c && c as int < start as int + n
  {
    var s := seq(n, i requires 0 <= i < n => (start as int + i) as char);
    forall c | start <= c && c as int < start as int + n
      ensures c in s
    {
      assert s[c as int - start as int] == c;
    }
    s
  }

  /** Two words separated by one space split into exactly those two words. */
  lemma TwoWords(a: string, b: string)
    requires IsWord(a) && IsWord(b)
    ensures Words(a + " " + b) == [a, b]
  {
    var tail := " " + b;
    WordsFromWord(a, tail, []);
    assert a + " " + b == a + tail;
    assert [] + a == a;
    assert tail[0] == ' ' && tail[1..] == b;
    assert WordsFrom(tail, a) == [a] + WordsFrom(b, []);
    WordsFromWord(b, [], []);
    assert b + [] == b && [] + b == b;
  }

  /** Reading a word `w` while `cur` is pending extends the pending text by `w`. */
  lemma {:induction false} WordsFromWord(w: string, rest: string, cur: string)
    requires forall i :: 0 <= i < |cur| ==> !IsSpace(cur[i])
    requires forall i :: 0 <= i < |w| ==> !IsSpace(w[i])
    ensures WordsFrom(w + rest, cur) == WordsFrom(rest, cur + w)
    decreases |w|
  {
    if w == [] {
      assert w + rest == rest && cur + w == cur;
    } else {
      assert (w + rest)[0] == w[0] && (w + rest)[1..] == w[1..] + rest;
      assert cur + w == (cur + [w[0]]) + w[1..];
      WordsFromWord(w[1..], rest, cur + [w[0]]);
    }
  }
}
