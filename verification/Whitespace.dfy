/** Collapsing runs of white space, as the intake normalises every free-text field. */
module Whitespace {
  /** The characters that separate words. */
  predicate IsSpace(c: char) {
    var n := c as int;
    9 <= n <= 13 || 28 <= n <= 32 || n == 0x85 || n == 0xA0 || n == 0x1680 || 0x2000 <= n <= 0x200A
    || n == 0x2028 || n == 0x2029 || n == 0x202F || n == 0x205F || n == 0x3000
  }

  predicate Solid(w: string) {
    w != "" && forall i :: 0 <= i < |w| ==> !IsSpace(w[i])
  }

  /** Length of the word at the start. */
  function WordEnd(s: string): (n: nat)
    ensures n <= |s|
    ensures forall i :: 0 <= i < n ==> !IsSpace(s[i])
    ensures n < |s| ==> IsSpace(s[n])
  {
    if s == "" || IsSpace(s[0]) then 0 else 1 + WordEnd(s[1..])
  }

  function Words(s: string): (r: seq<string>)
    ensures forall i :: 0 <= i < |r| ==> Solid(r[i])
    decreases |s|
  {
    if s == "" then []
    else if IsSpace(s[0]) then Words(s[1..])
    else
      var n := WordEnd(s);
      [s[..n]] + Words(s[n..])
  }

  function JoinWords(ws: seq<string>): string {
    if ws == [] then "" else if |ws| == 1 then ws[0] else ws[0] + " " + JoinWords(ws[1..])
  }

  function Collapse(s: string): string {
    JoinWords(Words(s))
  }

  lemma WordEndUnique(s: string, n: nat)
    requires n <= |s| && (forall i :: 0 <= i < n ==> !IsSpace(s[i])) && (n < |s| ==> IsSpace(s[n]))
    ensures WordEnd(s) == n
  {
  }

  lemma FirstWord(w: string, rest: string)
    requires Solid(w) && (rest == "" || IsSpace(rest[0]))
    ensures Words(w + rest) == [w] + Words(rest)
  {
    var s := w + rest;
    assert s[0] == w[0];
    WordEndUnique(s, |w|);
    assert s[..|w|] == w && s[|w|..] == rest;
  }

  function AfterFirst(ws: seq<string>): string
    requires ws != []
  {
    if |ws| == 1 then "" else " " + JoinWords(ws[1..])
  }

  lemma JoinFirst(ws: seq<string>)
    requires ws != []
    ensures JoinWords(ws) == ws[0] + AfterFirst(ws)
  {
    if |ws| > 1 { assert ws[0] + " " + JoinWords(ws[1..]) == ws[0] + (" " + JoinWords(ws[1..])); }
  }

  lemma WordsAfterFirst(ws: seq<string>)
    requires ws != []
    ensures Words(AfterFirst(ws)) == Words(JoinWords(ws[1..]))
    ensures AfterFirst(ws) == "" || IsSpace(AfterFirst(ws)[0])
  {
    if |ws| > 1 { assert AfterFirst(ws)[1..] == JoinWords(ws[1..]); }
  }

  lemma {:induction false} WordsOfJoin(ws: seq<string>)
    requires forall i :: 0 <= i < |ws| ==> Solid(ws[i])
    ensures Words(JoinWords(ws)) == ws
  {
    if ws != [] {
      assert Solid(ws[0]);
      JoinFirst(ws);
      WordsAfterFirst(ws);
      FirstWord(ws[0], AfterFirst(ws));
      WordsOfJoin(ws[1..]);
    }
  }

  lemma CollapseIdempotent(s: string)
    ensures Collapse(Collapse(s)) == Collapse(s)
  {
    WordsOfJoin(Words(s));
  }

  /** Collapsing never lengthens a text; the slack pays for the separator before a following word. */
  lemma {:induction false} CollapseShortens(s: string)
    ensures |Collapse(s)| <= |s|
    ensures s != "" && IsSpace(s[0]) ==> |Collapse(s)| < |s|
    decreases |s|
  {
    if s != "" {
      if IsSpace(s[0]) {
        CollapseShortens(s[1..]);
      } else {
        CollapseShortens(s[WordEnd(s)..]);
        assert ([s[..WordEnd(s)]] + Words(s[WordEnd(s)..]))[1..] == Words(s[WordEnd(s)..]);
      }
    }
  }

  lemma {:induction false} JoinWordsFlat(ws: seq<string>)
    requires forall i :: 0 <= i < |ws| ==> Solid(ws[i])
    ensures forall i :: 0 <= i < |JoinWords(ws)| ==> JoinWords(ws)[i] != '\n'
  {
    if ws != [] {
      assert Solid(ws[0]);
      assert IsSpace('\n');
      if |ws| > 1 { JoinWordsFlat(ws[1..]); }
    }
  }

  lemma {:induction false} WordsEmptyExactly(s: string)
    ensures Words(s) == [] <==> forall i :: 0 <= i < |s| ==> IsSpace(s[i])
    ensures Collapse(s) == "" <==> Words(s) == []
  {
    if Words(s) != [] { assert Solid(Words(s)[0]); }
    if s != "" && IsSpace(s[0]) {
      WordsEmptyExactly(s[1..]);
      assert s == [s[0]] + s[1..];
    }
  }
}
