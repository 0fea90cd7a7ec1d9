/** Newline-delimited JSON from a node, received in chunks that respect no line boundary. */
module LineStream {
  import opened Basics
  import opened Lines

  /** What a stream has yielded, and whether it then ended in a parse error. */
  datatype Yield<+V> = Yield(values: seq<V>, failed: bool)

  function Concat(chunks: seq<string>): string {
    if chunks == [] then "" else chunks[0] + Concat(chunks[1..])
  }

  /** The pieces worth parsing: trimmed, and not blank. */
  function Records(pieces: seq<string>): seq<string> {
    if pieces == [] then [] else Kept(Trim(pieces[0])) + Records(pieces[1..])
  }

  function Kept(line: string): seq<string> {
    if line == "" then [] else [line]
  }

  /** Parsing in order, up to the first record that does not parse. */
  function Parsed<V>(parse: string -> Option<V>, records: seq<string>): Yield<V> {
    if records == [] then Yield([], false)
    else if parse(records[0]).None? then Yield([], true)
    else
      var more := Parsed(parse, records[1..]);
      Yield([parse(records[0]).value] + more.values, more.failed)
  }

  /** What the whole text means, its unterminated last line included. */
  function Meaning<V>(parse: string -> Option<V>, text: string): Yield<V> {
    Parsed(parse, Records(Split(text)))
  }

  // ----- Lemmas -----

  lemma {:induction false} ConcatLast(chunks: seq<string>, i: nat)
    requires i < |chunks|
    ensures Concat(chunks[i..]) == chunks[i] + Concat(chunks[i + 1..])
  {
    assert chunks[i..][1..] == chunks[i + 1..];
  }

  lemma {:induction false} RecordsAppend(p: seq<string>, q: seq<string>)
    ensures Records(p + q) == Records(p) + Records(q)
  {
    if p == [] {
      assert p + q == q;
    } else {
      RecordsAppend(p[1..], q);
      RecordsOfCons(p[0], p[1..] + q);
      Associate(Kept(Trim(p[0])), Records(p[1..]), Records(q));
      assert p + q == [p[0]] + (p[1..] + q);
    }
  }

  lemma RecordsOfCons(piece: string, more: seq<string>)
    ensures Records([piece] + more) == Kept(Trim(piece)) + Records(more)
  {
    assert ([piece] + more)[1..] == more;
  }

  lemma {:induction false} ParsedAppend<V>(parse: string -> Option<V>, p: seq<string>, q: seq<string>)
    ensures Parsed(parse, p).failed ==> Parsed(parse, p + q) == Parsed(parse, p)
    ensures !Parsed(parse, p).failed ==>
              Parsed(parse, p + q) == Yield(Parsed(parse, p).values + Parsed(parse, q).values, Parsed(parse, q).failed)
  {
    if p == [] {
      assert p + q == q;
    } else {
      assert (p + q)[1..] == p[1..] + q;
      ParsedAppend(parse, p[1..], q);
      if parse(p[0]).Some? {
        Associate([parse(p[0]).value], Parsed(parse, p[1..]).values, Parsed(parse, q).values);
      }
    }
  }

  lemma JoinBehind(taken: seq<string>, p: seq<string>, q: seq<string>)
    requires p != [] && q != []
    ensures Join(taken + p, q) == taken + Join(p, q)
  {
  }

  /** Pieces already taken off the front stay what they are when more text arrives behind the rest. */
  lemma MoreText(text: string, taken: seq<string>, buf: string, more: string)
    requires Split(text) == taken + Split(buf)
    ensures Split(text + more) == taken + Split(buf + more)
  {
    SplitAppend(text, more);
    SplitAppend(buf, more);
    JoinBehind(taken, Split(buf), Split(more));
  }

  lemma FirstLine(buf: string, nl: nat)
    requires nl < |buf| && buf[nl] == '\n' && '\n' !in buf[..nl]
    ensures Split(buf) == [buf[..nl]] + Split(buf[nl + 1..])
  {
    var a, b := buf[..nl], buf[nl + 1..];
    assert buf == a + ("\n" + b);
    SplitAppend(a, "\n" + b);
    SplitWithoutNewline(a);
    assert ("\n" + b)[1..] == b;
    assert Split("\n" + b) == [""] + Split(b);
    assert a + "" == a;
  }

  /** One more piece, parsed after all the earlier ones parsed. */
  lemma OnePiece<V>(parse: string -> Option<V>, taken: seq<string>, piece: string, line: string, values: seq<V>)
    requires Parsed(parse, Records(taken)) == Yield(values, false) && line == Trim(piece)
    ensures Parsed(parse, Records(taken + [piece])) ==
              if line == "" then Yield(values, false)
              else if parse(line).None? then Yield(values, true)
              else Yield(values + [parse(line).value], false)
  {
    RecordsAppend(taken, [piece]);
    RecordsOfCons(piece, []);
    assert [piece] + [] == [piece] && Kept(line) + [] == Kept(line);
    ParsedAppend(parse, Records(taken), Kept(line));
    assert line != "" ==> Kept(line)[1..] == [];
  }

  /** After a failure nothing that follows matters. */
  lemma FailureIsFinal<V>(parse: string -> Option<V>, taken: seq<string>, text: string, buf: string, more: string)
    requires Split(text) == taken + Split(buf) && Parsed(parse, Records(taken)).failed
    ensures Meaning(parse, text + more) == Parsed(parse, Records(taken))
  {
    MoreText(text, taken, buf, more);
    RecordsAppend(taken, Split(buf + more));
    ParsedAppend(parse, Records(taken), Records(Split(buf + more)));
  }

  /** Of the text received so far, `taken` has been parsed into `values` and `buf` is still to be looked at. */
  ghost predicate Progress<V>(parse: string -> Option<V>, text: string, taken: seq<string>, buf: string, values: seq<V>) {
    Split(text) == taken + Split(buf) && Parsed(parse, Records(taken)) == Yield(values, false)
  }

  lemma LineTaken<V>(parse: string -> Option<V>, text: string, taken: seq<string>, buf: string, values: seq<V>,
                     nl: nat, line: string)
    requires Progress(parse, text, taken, buf, values)
    requires nl < |buf| && buf[nl] == '\n' && '\n' !in buf[..nl] && line == Trim(buf[..nl])
    ensures Split(text) == taken + [buf[..nl]] + Split(buf[nl + 1..])
    ensures Parsed(parse, Records(taken + [buf[..nl]])) ==
              if line == "" then Yield(values, false)
              else if parse(line).None? then Yield(values, true)
              else Yield(values + [parse(line).value], false)
  {
    FirstLine(buf, nl);
    OnePiece(parse, taken, buf[..nl], line, values);
    Associate(taken, [buf[..nl]], Split(buf[nl + 1..]));
  }

  lemma StreamEnds<V>(parse: string -> Option<V>, text: string, taken: seq<string>, buf: string, values: seq<V>)
    requires Progress(parse, text, taken, buf, values) && '\n' !in buf
    ensures Meaning(parse, text) ==
              if Trim(buf) == "" then Yield(values, false)
              else if parse(Trim(buf)).None? then Yield(values, true)
              else Yield(values + [parse(Trim(buf)).value], false)
  {
    SplitWithoutNewline(buf);
    OnePiece(parse, taken, buf, Trim(buf), values);
  }

  // ----- The loop -----

  method IndexOfNewline(buf: string) returns (nl: int)
    ensures -1 <= nl < |buf|
    ensures nl == -1 ==> '\n' !in buf
    ensures nl >= 0 ==> buf[nl] == '\n' && '\n' !in buf[..nl]
  {
    nl := 0;
    while nl < |buf|
      invariant 0 <= nl <= |buf| && '\n' !in buf[..nl]
    {
      if buf[nl] == '\n' {
        return;
      }
      nl := nl + 1;
    }
    nl := -1;
  }

  /** The inner loop: every complete line of the buffer is taken off it and parsed. */
  method TakeLines<V>(parse: string -> Option<V>, received: string, before: seq<V>,
                      ghost text: string, ghost done: seq<string>, ghost more: string)
    returns (buf: string, values: seq<V>, failed: bool, ghost taken: seq<string>)
    requires Progress(parse, text, done, received, before)
    ensures failed ==> Meaning(parse, text + more) == Yield(values, true)
    ensures !failed ==> Progress(parse, text, taken, buf, values) && '\n' !in buf
  {
    buf, values, failed, taken := received, before, false, done;
    var nl := IndexOfNewline(buf);
    while nl >= 0
      invariant -1 <= nl < |buf|
      invariant nl == -1 ==> '\n' !in buf
      invariant nl >= 0 ==> buf[nl] == '\n' && '\n' !in buf[..nl]
      invariant Progress(parse, text, taken, buf, values)
      decreases |buf|
    {
      var line := Trim(buf[..nl]);
      LineTaken(parse, text, taken, buf, values, nl, line);
      taken := taken + [buf[..nl]];
      buf := buf[nl + 1..];
      if line != "" {
        if parse(line).None? {
          FailureIsFinal(parse, taken, text, buf, more);
          failed := true;
          return;
        }
        values := values + [parse(line).value];
      }
      nl := IndexOfNewline(buf);
    }
  }

  lemma NothingYet<V>(parse: string -> Option<V>)
    ensures Progress(parse, "", [], "", [])
  {
  }

  lemma ChunkArrives<V>(parse: string -> Option<V>, text: string, taken: seq<string>, buf: string, values: seq<V>, chunk: string)
    requires Progress(parse, text, taken, buf, values)
    ensures Progress(parse, text + chunk, taken, buf + chunk, values)
  {
    MoreText(text, taken, buf, chunk);
  }

  lemma ChunkCounted(text: string, chunks: seq<string>, i: nat)
    requires i < |chunks| && text + Concat(chunks[i..]) == Concat(chunks)
    ensures (text + chunks[i]) + Concat(chunks[i + 1..]) == Concat(chunks)
  {
    ConcatLast(chunks, i);
    assert text + (chunks[i] + Concat(chunks[i + 1..])) == (text + chunks[i]) + Concat(chunks[i + 1..]);
  }

  /** The loops over chunks and lines yield what the whole text means, however it was cut into chunks. */
  method Stream<V>(chunks: seq<string>, parse: string -> Option<V>) returns (r: Yield<V>)
    ensures r == Meaning(parse, Concat(chunks))
  {
    var buf := "";
    var values: seq<V> := [];
    ghost var text, taken := "", [];
    NothingYet(parse);
    for i := 0 to |chunks|
      invariant text + Concat(chunks[i..]) == Concat(chunks)
      invariant Progress(parse, text, taken, buf, values) && '\n' !in buf
    {
      ChunkArrives(parse, text, taken, buf, values, chunks[i]);
      ChunkCounted(text, chunks, i);
      text := text + chunks[i];
      var failed;
      buf, values, failed, taken := TakeLines(parse, buf + chunks[i], values, text, taken, Concat(chunks[i + 1..]));
      if failed {
        return Yield(values, true);
      }
    }
    StreamEnds(parse, text, taken, buf, values);
    assert text + "" == text;
    var tail := Trim(buf);
    if tail == "" {
      return Yield(values, false);
    }
    if parse(tail).None? {
      return Yield(values, true);
    }
    return Yield(values + [parse(tail).value], false);
  }

  // ----- What the text means for whoever wrote it -----

  predicate IsLine(line: string) {
    line != "" && '\n' !in line && Trim(line) == line
  }

  function Written(lines: seq<string>): string {
    if lines == [] then "" else lines[0] + "\n" + Written(lines[1..])
  }

  lemma LineThenRest(line: string, rest: string)
    requires IsLine(line)
    ensures Records(Split(line + "\n" + rest)) == [line] + Records(Split(rest))
  {
    var all := line + "\n" + rest;
    assert all[..|line|] == line && all[|line| + 1..] == rest;
    FirstLine(all, |line|);
    RecordsOfCons(line, Split(rest));
  }

  lemma {:induction false} WrittenSplits(lines: seq<string>, tail: string)
    requires forall i :: 0 <= i < |lines| ==> IsLine(lines[i])
    requires '\n' !in tail
    ensures Records(Split(Written(lines) + tail)) == lines + Kept(Trim(tail))
  {
    if lines == [] {
      assert Written(lines) + tail == tail;
      SplitWithoutNewline(tail);
      RecordsOfCons(tail, []);
      assert [tail] + [] == [tail];
    } else {
      WrittenSplits(lines[1..], tail);
      LineThenRest(lines[0], Written(lines[1..]) + tail);
      assert Written(lines) + tail == lines[0] + "\n" + (Written(lines[1..]) + tail);
      assert lines == [lines[0]] + lines[1..];
    }
  }

  /** Lines written one by one are read back as they were, in order, whether or not the last one was
      terminated before the stream ended. */
  lemma WrittenLinesAreRead(lines: seq<string>, last: string)
    requires (forall i :: 0 <= i < |lines| ==> IsLine(lines[i])) && IsLine(last)
    ensures Records(Split(Written(lines))) == lines
    ensures Records(Split(Written(lines) + last)) == lines + [last]
  {
    WrittenSplits(lines, "");
    WrittenSplits(lines, last);
    assert Written(lines) + "" == Written(lines);
    assert lines + [] == lines;
  }

  lemma {:induction false} KeptAreLines(pieces: seq<string>)
    requires forall i :: 0 <= i < |pieces| ==> '\n' !in pieces[i]
    ensures forall i :: 0 <= i < |Records(pieces)| ==> IsLine(Records(pieces)[i])
  {
    if pieces != [] {
      TrimMeans(pieces[0]);
      KeptAreLines(pieces[1..]);
    }
  }

  /** Whatever a node sends, what is handed to the parser are lines that could have been written one by one, and
      written so they are read the same again. */
  lemma RecordsAreLines(text: string)
    ensures var records := Records(Split(text));
            && (forall i :: 0 <= i < |records| ==> IsLine(records[i]))
            && Records(Split(Written(records))) == records
  {
    forall i | 0 <= i < |Split(text)| ensures '\n' !in Split(text)[i] {
      PiecesHaveNoNewline(text, i);
    }
    KeptAreLines(Split(text));
    WrittenSplits(Records(Split(text)), "");
    assert Written(Records(Split(text))) + "" == Written(Records(Split(text)));
    assert Records(Split(text)) + [] == Records(Split(text));
  }
}
