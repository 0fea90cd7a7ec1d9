/** Splitting text at newlines, as both the order log and the node streams are read. */
module Lines {

  /** The pieces between newlines; there is always at least one, and the last one is unterminated. */
  function Split(text: string): (pieces: seq<string>)
    ensures pieces != []
  {
    if text == "" then [""]
    else if text[0] == '\n' then [""] + Split(text[1..])
    else Longer(text[0], Split(text[1..]))
  }

  function Longer(c: char, pieces: seq<string>): (r: seq<string>)
    requires pieces != []
    ensures |r| == |pieces|
  {
    [[c] + pieces[0]] + pieces[1..]
  }

  /** The pieces of a text cut in two: the piece at the cut is joined. */
  function Join(p: seq<string>, q: seq<string>): seq<string>
    requires p != [] && q != []
  {
    p[..|p| - 1] + [p[|p| - 1] + q[0]] + q[1..]
  }

  /** What follows the last newline. */
  function Fragment(text: string): string {
    var pieces := Split(text);
    pieces[|pieces| - 1]
  }

  /** The pieces that a newline terminated. */
  function Complete(text: string): seq<string> {
    var pieces := Split(text);
    pieces[..|pieces| - 1]
  }

  lemma JoinAfterNewline(p: seq<string>, q: seq<string>)
    requires p != [] && q != []
    ensures Join([""] + p, q) == [""] + Join(p, q)
  {
  }

  lemma JoinLonger(c: char, p: seq<string>, q: seq<string>)
    requires p != [] && q != []
    ensures Join(Longer(c, p), q) == Longer(c, Join(p, q))
  {
    if |p| == 1 {
      assert ([c] + p[0]) + q[0] == [c] + (p[0] + q[0]);
    }
  }

  lemma {:induction false} SplitAppend(a: string, b: string)
    ensures Split(a + b) == Join(Split(a), Split(b))
  {
    if a == "" {
      assert a + b == b;
      assert "" + Split(b)[0] == Split(b)[0];
    } else {
      assert (a + b)[1..] == a[1..] + b;
      SplitAppend(a[1..], b);
      if a[0] == '\n' {
        JoinAfterNewline(Split(a[1..]), Split(b));
      } else {
        JoinLonger(a[0], Split(a[1..]), Split(b));
      }
    }
  }

  lemma {:induction false} SplitWithoutNewline(a: string)
    requires '\n' !in a
    ensures Split(a) == [a]
  {
    if a != "" {
      SplitWithoutNewline(a[1..]);
      assert [a[0]] + a[1..] == a;
    }
  }

  /** One more terminated line. */
  lemma SplitLine(text: string, line: string)
    requires '\n' !in line
    ensures Split(text + line + "\n") == Complete(text) + [Fragment(text) + line, ""]
    ensures Complete(text + line + "\n") == Complete(text) + [Fragment(text) + line]
    ensures Fragment(text + line + "\n") == ""
  {
    SplitWithoutNewline(line);
    SplitAppend(text, line);
    SplitAppend(text + line, "\n");
    assert Split("\n") == ["", ""] by { assert "\n"[1..] == ""; }
    assert Split(text + line) == Complete(text) + [Fragment(text) + line];
    assert Complete(text + line) == Complete(text);
    assert (Fragment(text) + line) + "" == Fragment(text) + line;
  }

  lemma {:induction false} PiecesHaveNoNewline(text: string, i: nat)
    requires i < |Split(text)|
    ensures '\n' !in Split(text)[i]
    decreases text
  {
    if text != "" {
      PiecesHaveNoNewline(text[1..], if text[0] == '\n' && i > 0 then i - 1 else if text[0] == '\n' then 0 else i);
    }
  }

  // ----- White space, as the host language trims it -----

  predicate IsSpace(c: char) {
    var u := c as int;
    9 <= u <= 13 || u == 32 || u == 160 || u == 0x1680 || 0x2000 <= u <= 0x200a ||
    u == 0x2028 || u == 0x2029 || u == 0x202f || u == 0x205f || u == 0x3000 || u == 0xfeff
  }

  function TrimStart(s: string): string {
    if s != "" && IsSpace(s[0]) then TrimStart(s[1..]) else s
  }

  function TrimEnd(s: string): string {
    if s != "" && IsSpace(s[|s| - 1]) then TrimEnd(s[..|s| - 1]) else s
  }

  function Trim(s: string): string {
    TrimEnd(TrimStart(s))
  }

  lemma {:induction false} TrimStartMeans(s: string)
    ensures var t := TrimStart(s); |t| <= |s| && t == s[|s| - |t|..] && (t == "" || !IsSpace(t[0]))
  {
    if s != "" && IsSpace(s[0]) {
      TrimStartMeans(s[1..]);
    }
  }

  lemma {:induction false} TrimEndMeans(s: string)
    ensures var t := TrimEnd(s); t <= s && (t == "" || !IsSpace(t[|t| - 1]))
  {
    if s != "" && IsSpace(s[|s| - 1]) {
      TrimEndMeans(s[..|s| - 1]);
    }
  }

  /** Trimming takes characters off the ends, and once is enough. */
  lemma TrimMeans(s: string)
    ensures Trim(Trim(s)) == Trim(s)
    ensures forall c :: c in Trim(s) ==> c in s
  {
    var t := TrimStart(s);
    TrimStartMeans(s);
    TrimEndMeans(t);
    assert forall c :: c in t ==> c in s;
  }

  /** The white space and line ends of the host language: tab to carriage return, and the spaces of Unicode. */
  lemma SpaceIs(c: char)
    ensures IsSpace(c) <==>
              c in "\t\U{000B}\U{000C}\r\n " || c in "\U{00A0}\U{1680}\U{2028}\U{2029}\U{202F}\U{205F}\U{3000}\U{FEFF}" ||
              '\U{2000}' <= c <= '\U{200A}'
  {
    assert "\t\U{000B}\U{000C}\r\n " == ['\t', '\U{000B}', '\U{000C}', '\r', '\n', ' '];
    assert "\U{00A0}\U{1680}\U{2028}\U{2029}\U{202F}\U{205F}\U{3000}\U{FEFF}" ==
             ['\U{00A0}', '\U{1680}', '\U{2028}', '\U{2029}', '\U{202F}', '\U{205F}', '\U{3000}', '\U{FEFF}'];
    var u := c as int;
    assert u == 0x0B ==> c == '\U{000B}';
    assert u == 0x0C ==> c == '\U{000C}';
  }

  lemma {:induction false} TrimStartTakes(s: string)
    ensures |TrimStart(s)| <= |s| && forall i :: 0 <= i < |s| - |TrimStart(s)| ==> IsSpace(s[i])
  {
    if s != "" && IsSpace(s[0]) {
      TrimStartTakes(s[1..]);
    }
  }

  lemma {:induction false} TrimEndTakes(s: string)
    ensures |TrimEnd(s)| <= |s| && forall i :: |TrimEnd(s)| <= i < |s| ==> IsSpace(s[i])
  {
    if s != "" && IsSpace(s[|s| - 1]) {
      TrimEndTakes(s[..|s| - 1]);
    }
  }

  /** Trimming takes off all white space at both ends, and nothing else: `k` characters before, and the rest behind. */
  lemma TrimsExactly(s: string) returns (k: nat)
    ensures var t := Trim(s);
            && k + |t| <= |s| && t == s[k..k + |t|]
            && (forall i :: 0 <= i < k || k + |t| <= i < |s| ==> IsSpace(s[i]))
            && (t != "" ==> !IsSpace(t[0]) && !IsSpace(t[|t| - 1]))
  {
    var start := TrimStart(s);
    var t := TrimEnd(start);
    TrimStartMeans(s);
    TrimStartTakes(s);
    k := |s| - |start|;
    TrimEndMeans(start);
    TrimEndTakes(start);
    forall i | k + |t| <= i < |s| ensures IsSpace(s[i]) {
      assert s[i] == start[i - k];
    }
    if t != "" { assert t[0] == start[0]; }
  }
}
