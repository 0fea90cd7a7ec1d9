/** The append-only order log as text: what a restart reads back after a crash cut the last record short.
    JSON itself stays abstract; only a few lexical facts about it are used. */
module OrderLog {
  import opened Basics
  import opened Orders
  import opened Lines

  datatype LogLine =
    | CreateLine(order: Order, at: int)
    | UpdateLine(order: Order, at: int, detail: Option<Detail>, fromState: OrderState)

  // ----- What the store holds in memory, and what loading one record does to it -----

  datatype Memory = Memory(orders: map<OrderId, Order>, byHash: map<Hash, OrderId>, log: map<OrderId, seq<OrderEvent>>)

  const EMPTY := Memory(map[], map[], map[])

  function Row(line: LogLine): OrderEvent {
    match line
    case CreateLine(order, at) => OrderEvent(order.orderId, at, None, order.state, None)
    case UpdateLine(order, at, detail, fromState) => OrderEvent(order.orderId, at, Some(fromState), order.state, detail)
  }

  function EventsOf(mem: Memory, id: OrderId): seq<OrderEvent> {
    if id in mem.log then mem.log[id] else []
  }

  function Load(mem: Memory, line: LogLine): Memory {
    var o := line.order;
    Memory(mem.orders[o.orderId := o], mem.byHash[o.paymentHash := o.orderId],
           mem.log[o.orderId := EventsOf(mem, o.orderId) + [Row(line)]])
  }

  function LoadAll(mem: Memory, lines: seq<LogLine>): Memory {
    if lines == [] then mem else Load(LoadAll(mem, lines[..|lines| - 1]), lines[|lines| - 1])
  }

  /** Every order is filed under its own id and has a trail. */
  ghost predicate Filed(mem: Memory) {
    && mem.log.Keys == mem.orders.Keys
    && (forall id :: id in mem.orders ==> mem.orders[id].orderId == id && mem.orders[id].paymentHash in mem.byHash)
    && (forall h :: h in mem.byHash ==> mem.byHash[h] in mem.orders)
  }

  /** Every order is the one its payment hash leads to: no two orders share a hash. */
  ghost predicate OnePerHash(mem: Memory) {
    forall id :: id in mem.orders ==>
      mem.orders[id].paymentHash in mem.byHash && mem.byHash[mem.orders[id].paymentHash] == id
  }

  lemma LoadKeepsOnePerHash(mem: Memory, line: LogLine)
    requires OnePerHash(mem)
    requires line.order.orderId in mem.orders ==> mem.orders[line.order.orderId].paymentHash == line.order.paymentHash
    requires line.order.orderId !in mem.orders ==> line.order.paymentHash !in mem.byHash
    ensures OnePerHash(Load(mem, line))
    ensures line.order.orderId in mem.orders ==> Load(mem, line).byHash == mem.byHash
  {
  }

  lemma LoadKeepsFiled(mem: Memory, line: LogLine)
    requires Filed(mem)
    ensures Filed(Load(mem, line))
  {
  }

  lemma {:induction false} LoadedIsFiled(mem: Memory, lines: seq<LogLine>)
    requires Filed(mem)
    ensures Filed(LoadAll(mem, lines))
  {
    if lines != [] {
      LoadedIsFiled(mem, lines[..|lines| - 1]);
      LoadKeepsFiled(LoadAll(mem, lines[..|lines| - 1]), lines[|lines| - 1]);
    }
  }

  // ----- JSON, lexically -----

  /** Where a scan of a JSON object text stands. */
  datatype Scan = Outside(depth: nat) | InString(depth: nat) | Escaped(depth: nat) | AfterString(depth: nat) | Closed | Dead

  predicate JsonSpace(c: char) {
    c == ' ' || c == '\t' || c == '\n' || c == '\r'
  }

  function ScanOutside(depth: nat, c: char): Scan {
    if c == '{' || c == '[' then Outside(depth + 1)
    else if c == '}' || c == ']' then (if depth == 0 then Dead else if depth == 1 then Closed else Outside(depth - 1))
    else if c == '"' then InString(depth)
    else Outside(depth)
  }

  /** A closing quote can only be followed by punctuation or space. */
  function ScanChar(q: Scan, c: char): Scan {
    match q
    case Outside(depth) => ScanOutside(depth, c)
    case InString(depth) => if c == '"' then AfterString(depth) else if c == '\\' then Escaped(depth) else q
    case Escaped(depth) => InString(depth)
    case AfterString(depth) =>
      if c == ',' || c == ':' || c == '}' || c == ']' || JsonSpace(c) then ScanOutside(depth, c) else Dead
    case Closed => if JsonSpace(c) then Closed else Dead
    case Dead => Dead
  }

  function ScanText(q: Scan, s: string): Scan
    decreases s
  {
    if s == "" then q else ScanText(ScanChar(q, s[0]), s[1..])
  }

  lemma {:induction false} ScanAppend(q: Scan, a: string, b: string)
    ensures ScanText(q, a + b) == ScanText(ScanText(q, a), b)
    decreases a
  {
    if a == "" {
      assert a + b == b;
    } else {
      assert (a + b)[1..] == a[1..] + b;
      ScanAppend(ScanChar(q, a[0]), a[1..], b);
    }
  }

  lemma {:induction false} DeadStays(s: string)
    ensures ScanText(Dead, s) == Dead
  {
    if s != "" { DeadStays(s[1..]); }
  }

  lemma {:induction false} ClosedStays(s: string)
    ensures ScanText(Closed, s) == Closed || ScanText(Closed, s) == Dead
    ensures ScanText(Closed, s) == Closed ==> forall i :: 0 <= i < |s| ==> JsonSpace(s[i])
  {
    if s != "" {
      ClosedStays(s[1..]);
      DeadStays(s[1..]);
    }
  }

  predicate Same(q: Scan, r: Scan, above: nat) {
    match q
    case Outside(depth) => r == Outside(depth + above)
    case InString(depth) => r == InString(depth + above)
    case Escaped(depth) => r == Escaped(depth + above)
    case AfterString(depth) => r == AfterString(depth + above)
    case Closed => r == Outside(above)
    case Dead => r == Dead
  }

  /** An object text inside an open bracket leaves that bracket open. */
  lemma {:induction false} ScanDeeper(q: Scan, r: Scan, above: nat, s: string)
    requires above > 0 && Same(q, r, above) && q != Closed
    requires forall k :: 0 <= k < |s| ==> ScanText(q, s[..k]) != Closed
    requires ScanText(q, s) == Closed
    ensures ScanText(r, s) == Outside(above)
    decreases s
  {
    if s != "" {
      var q', r' := ScanChar(q, s[0]), ScanChar(r, s[0]);
      if q == Dead { DeadStays(s); }
      if q' == Dead { DeadStays(s[1..]); }
      if |s| == 1 {
        assert s[1..] == "";
      } else {
        assert s[..1][1..] == "";
        assert ScanText(q, s[..1]) == q';
        forall k | 0 <= k < |s| - 1 ensures ScanText(q', s[1..][..k]) != Closed {
          assert s[..k + 1][1..] == s[1..][..k];
          assert ScanText(q, s[..k + 1]) == ScanText(q', s[1..][..k]);
        }
        ScanDeeper(q', r', above, s[1..]);
      }
    }
  }

  // ----- The codec -----

  /** `JSON.stringify` of a record and `JSON.parse` of a line. */
  datatype Codec = Codec(encode: LogLine -> string, decode: string -> Option<LogLine>)

  predicate Accepted(s: string) {
    ScanText(Outside(0), s) == Closed
  }

  predicate ObjectText(s: string) {
    && |s| >= 3 && s[0] == '{' && s[1] == '"' && 'a' <= s[2] <= 'z' && s[|s| - 1] == '}' && '\n' !in s
  }

  /** The facts about JSON used here: a record is written as one line, starting with a brace and a quoted key
      and ending with a brace; it is read back as itself; and whatever is read at all closes its brackets. */
  ghost predicate Json(codec: Codec) {
    && (forall l :: ObjectText(codec.encode(l)) && codec.decode(codec.encode(l)) == Some(l))
    && (forall s :: codec.decode(s).Some? ==> Accepted(s))
  }

  /** A record that is cut short is not read. */
  lemma CutIsNotRead(codec: Codec, l: LogLine, k: nat)
    requires Json(codec) && k < |codec.encode(l)|
    ensures !Accepted(codec.encode(l)[..k]) && codec.decode(codec.encode(l)[..k]) == None
  {
    var s := codec.encode(l);
    assert s == s[..k] + s[k..] && s[k..][|s| - k - 1] == '}';
    ScanAppend(Outside(0), s[..k], s[k..]);
    ClosedStays(s[k..]);
  }

  lemma ScanOpening(q: Scan, s: string)
    requires ObjectText(s) && (q.InString? || q.Escaped? || q.AfterString? || q == Closed || q == Dead)
    ensures ScanText(q, s) == Dead
  {
    var q1 := ScanChar(q, s[0]);
    var q2 := ScanChar(q1, s[1]);
    var q3 := ScanChar(q2, s[2]);
    assert s[1..][0] == s[1] && s[1..][1..] == s[2..] && s[2..][0] == s[2] && s[2..][1..] == s[3..];
    assert ScanText(q, s) == ScanText(q1, s[1..]) == ScanText(q2, s[2..]);
    assert ScanText(q2, s[2..]) == ScanText(q3, s[3..]);
    DeadStays(s[3..]);
  }

  /** A record written right behind a fragment that a record began is not read, whatever the fragment is. */
  lemma GluedIsNotRead(codec: Codec, f: string, next: LogLine)
    requires Json(codec) && f != "" && f[0] == '{'
    ensures codec.decode(f + codec.encode(next)) == None
  {
    var g := codec.encode(next);
    var q := ScanText(Outside(0), f);
    ScanAppend(Outside(0), f, g);
    if q.Outside? {
      StaysDeep(ScanChar(Outside(0), f[0]), f[1..]);
      forall i | 0 <= i < |g| ensures ScanText(Outside(0), g[..i]) != Closed {
        CutIsNotRead(codec, next, i);
      }
      assert Accepted(g);
      ScanDeeper(Outside(0), q, q.depth, g);
    } else {
      ScanOpening(q, g);
    }
  }

  /** Once a bracket is open the scan is never outside at depth zero again. */
  lemma {:induction false} StaysDeep(q: Scan, s: string)
    requires q == Closed || q == Dead || q.depth > 0
    ensures ScanText(q, s) == Closed || ScanText(q, s) == Dead || ScanText(q, s).depth > 0
    decreases s
  {
    if s != "" { StaysDeep(ScanChar(q, s[0]), s[1..]); }
  }

  // ----- The file -----

  function Written(codec: Codec, l: LogLine): string {
    codec.encode(l) + "\n"
  }

  function WrittenAll(codec: Codec, lines: seq<LogLine>): string {
    if lines == [] then "" else WrittenAll(codec, lines[..|lines| - 1]) + Written(codec, lines[|lines| - 1])
  }

  predicate Blank(line: string) {
    Trim(line) == ""
  }

  /** The records among some lines: blank lines and lines that do not parse are passed over. */
  function Readable(codec: Codec, lines: seq<string>): seq<LogLine> {
    if lines == [] then [] else Readable(codec, lines[..|lines| - 1]) + ReadLine(codec, lines[|lines| - 1])
  }

  function ReadLine(codec: Codec, line: string): seq<LogLine> {
    if Blank(line) then []
    else match codec.decode(line)
         case None => []
         case Some(l) => [l]
  }

  function Records(codec: Codec, text: string): seq<LogLine> {
    Readable(codec, Split(text))
  }

  function Replay(codec: Codec, text: string): Memory {
    LoadAll(EMPTY, Records(codec, text))
  }

  /** The file ends where a record ends. */
  predicate OnBoundary(text: string) {
    Fragment(text) == ""
  }

  lemma EncodedIsRead(codec: Codec, l: LogLine)
    requires Json(codec)
    ensures ReadLine(codec, codec.encode(l)) == [l]
  {
    var s := codec.encode(l);
    assert ObjectText(s);
    assert TrimStart(s) == s && TrimEnd(s) == s;
  }

  lemma RecordsByFragment(codec: Codec, text: string)
    ensures Records(codec, text) == Readable(codec, Complete(text)) + ReadLine(codec, Fragment(text))
  {
  }

  lemma RecordsAppend(codec: Codec, text: string, l: LogLine)
    requires Json(codec)
    ensures Records(codec, text + Written(codec, l))
         == Readable(codec, Complete(text)) + ReadLine(codec, Fragment(text) + codec.encode(l))
    ensures OnBoundary(text + Written(codec, l))
  {
    var s := codec.encode(l);
    assert ObjectText(s);
    SplitLine(text, s);
    assert text + Written(codec, l) == text + s + "\n";
    RecordsByFragment(codec, text + Written(codec, l));
    var lines := Complete(text) + [Fragment(text) + s];
    assert lines[..|lines| - 1] == Complete(text);
    assert ReadLine(codec, "") == [];
  }

  /** On a boundary, one more record is one more record. */
  lemma AppendOnBoundary(codec: Codec, text: string, l: LogLine)
    requires Json(codec) && OnBoundary(text)
    ensures Records(codec, text + Written(codec, l)) == Records(codec, text) + [l]
    ensures OnBoundary(text + Written(codec, l))
  {
    RecordsAppend(codec, text, l);
    EncodedIsRead(codec, l);
    RecordsByFragment(codec, text);
    assert "" + codec.encode(l) == codec.encode(l);
    assert ReadLine(codec, "") == [];
  }

  lemma {:induction false} AppendAllOnBoundary(codec: Codec, text: string, lines: seq<LogLine>)
    requires Json(codec) && OnBoundary(text)
    ensures Records(codec, text + WrittenAll(codec, lines)) == Records(codec, text) + lines
    ensures OnBoundary(text + WrittenAll(codec, lines))
  {
    if lines == [] {
      assert text + "" == text;
    } else {
      var init, l := lines[..|lines| - 1], lines[|lines| - 1];
      AppendAllOnBoundary(codec, text, init);
      AppendOnBoundary(codec, text + WrittenAll(codec, init), l);
      Associate(text, WrittenAll(codec, init), Written(codec, l));
      Associate(Records(codec, text), init, [l]);
      InitAndLast(lines);
    }
  }

  // ----- Main results -----

  lemma FragmentAppended(text: string, f: string)
    requires OnBoundary(text) && '\n' !in f
    ensures Complete(text + f) == Complete(text) && Fragment(text + f) == f
  {
    SplitWithoutNewline(f);
    SplitAppend(text, f);
    assert "" + f == f;
  }

  lemma RecordsAfterCut(codec: Codec, text: string, l: LogLine, k: nat)
    requires Json(codec) && OnBoundary(text) && k <= |codec.encode(l)|
    ensures Records(codec, text + codec.encode(l)[..k])
         == Records(codec, text) + if k < |codec.encode(l)| then [] else [l]
  {
    var s := codec.encode(l);
    assert ObjectText(s);
    FragmentAppended(text, s[..k]);
    RecordsByFragment(codec, text);
    RecordsByFragment(codec, text + s[..k]);
    assert ReadLine(codec, "") == [];
    if k < |s| {
      CutIsNotRead(codec, l, k);
    } else {
      assert s[..k] == s;
      EncodedIsRead(codec, l);
    }
  }

  lemma LoadOneMore(mem: Memory, lines: seq<LogLine>, l: LogLine)
    ensures LoadAll(mem, lines + [l]) == Load(LoadAll(mem, lines), l)
  {
    assert (lines + [l])[..|lines|] == lines;
  }

  /** A crash after k characters of an append: the restart finds the state before the append, or, once the whole
      record is out, the state after it. */
  lemma CrashDuringAppend(codec: Codec, text: string, l: LogLine, k: nat)
    requires Json(codec) && OnBoundary(text) && k <= |Written(codec, l)|
    ensures Replay(codec, text + Written(codec, l)[..k])
         == if k < |codec.encode(l)| then Replay(codec, text) else Load(Replay(codec, text), l)
  {
    LoadOneMore(EMPTY, Records(codec, text), l);
    if k <= |codec.encode(l)| {
      assert Written(codec, l)[..k] == codec.encode(l)[..k];
      RecordsAfterCut(codec, text, l, k);
      assert Records(codec, text) + [] == Records(codec, text);
    } else {
      assert Written(codec, l)[..k] == Written(codec, l);
      AppendOnBoundary(codec, text, l);
    }
  }

  /** Either the file ends where a record ends, or with a fragment that a record began. */
  predicate Tidy(text: string) {
    Fragment(text) == "" || Fragment(text)[0] == '{'
  }

  /** Every file is like that: it starts empty, and all that ever happens to it is an append, possibly cut short. */
  lemma FilesAreTidy(codec: Codec, text: string, l: LogLine, k: nat)
    requires Json(codec) && k <= |Written(codec, l)|
    ensures Tidy("")
    ensures Tidy(text) ==> Tidy(text + Written(codec, l)[..k])
  {
    var s := codec.encode(l);
    assert ObjectText(s);
    if k <= |s| {
      assert Written(codec, l)[..k] == s[..k];
      SplitWithoutNewline(s[..k]);
      SplitAppend(text, s[..k]);
      assert Fragment(text + s[..k]) == Fragment(text) + s[..k];
    } else {
      assert Written(codec, l)[..k] == Written(codec, l);
      RecordsAppend(codec, text, l);
    }
  }

  /** The records written after a restart are all read back, and with them everything before, exactly when the
      file they were appended to ended where a record ends. Otherwise the first of them is glued to the fragment
      and lost with it. */
  lemma AppendedRecordsReadBackExactly(codec: Codec, text: string, lines: seq<LogLine>)
    requires Json(codec) && lines != [] && Tidy(text)
    ensures Replay(codec, text + WrittenAll(codec, lines)) == LoadAll(Replay(codec, text), lines) <==> OnBoundary(text)
  {
    if OnBoundary(text) {
      AppendAllOnBoundary(codec, text, lines);
      LoadAllAppend(EMPTY, Records(codec, text), lines);
    } else {
      GluedIsLost(codec, text, lines);
      RecordsByFragment(codec, text);
      var kept, id := Readable(codec, Complete(text)), lines[0].order.orderId;
      CountAppend(kept, lines[1..], id);
      CountAppend([lines[0]], lines[1..], id);
      assert [lines[0]] + lines[1..] == lines;
      CountAppend(kept, ReadLine(codec, Fragment(text)), id);
      RowsLoaded(EMPTY, kept + lines[1..], id);
      RowsLoaded(EMPTY, Records(codec, text), id);
      RowsLoaded(Replay(codec, text), lines, id);
      assert [lines[0]][..0] == [];
      assert |EventsOf(Replay(codec, text + WrittenAll(codec, lines)), id)|
           < |EventsOf(LoadAll(Replay(codec, text), lines), id)|;
    }
  }

  lemma {:induction false} LoadAllAppend(mem: Memory, a: seq<LogLine>, b: seq<LogLine>)
    ensures LoadAll(mem, a + b) == LoadAll(LoadAll(mem, a), b)
  {
    if b == [] {
      assert a + b == a;
    } else {
      var init, l := b[..|b| - 1], b[|b| - 1];
      LoadAllAppend(mem, a, init);
      InitAndLast(b);
      Associate(a, init, [l]);
      LoadOneMore(mem, a + init, l);
      LoadOneMore(LoadAll(mem, a), init, l);
    }
  }

  // Trails count records: each one read adds one row for its order.

  function CountFor(lines: seq<LogLine>, id: OrderId): nat {
    if lines == [] then 0
    else CountFor(lines[..|lines| - 1], id) + if lines[|lines| - 1].order.orderId == id then 1 else 0
  }

  lemma {:induction false} CountAppend(a: seq<LogLine>, b: seq<LogLine>, id: OrderId)
    ensures CountFor(a + b, id) == CountFor(a, id) + CountFor(b, id)
  {
    if b == [] {
      assert a + b == a;
    } else {
      CountAppend(a, b[..|b| - 1], id);
      assert (a + b)[..|a + b| - 1] == a + b[..|b| - 1];
    }
  }

  lemma {:induction false} RowsLoaded(mem: Memory, lines: seq<LogLine>, id: OrderId)
    ensures |EventsOf(LoadAll(mem, lines), id)| == |EventsOf(mem, id)| + CountFor(lines, id)
  {
    if lines != [] {
      RowsLoaded(mem, lines[..|lines| - 1], id);
    }
  }

  lemma {:induction false} GluedIsLost(codec: Codec, text: string, lines: seq<LogLine>)
    requires Json(codec) && lines != [] && Tidy(text) && !OnBoundary(text)
    ensures Records(codec, text + WrittenAll(codec, lines)) == Readable(codec, Complete(text)) + lines[1..]
    ensures OnBoundary(text + WrittenAll(codec, lines))
  {
    var init, l := lines[..|lines| - 1], lines[|lines| - 1];
    assert text + WrittenAll(codec, lines) == (text + WrittenAll(codec, init)) + Written(codec, l);
    if init == [] {
      assert text + WrittenAll(codec, init) == text;
      RecordsAppend(codec, text, l);
      GluedIsNotRead(codec, Fragment(text), l);
    } else {
      GluedIsLost(codec, text, init);
      AppendOnBoundary(codec, text + WrittenAll(codec, init), l);
      assert lines[1..] == init[1..] + [l];
    }
  }

  /** So a record that was synced to disk before its side effect can be forgotten: after a crash that cut one
      append short, the next record is not seen by the restart after that, and neither is the cut one even if
      only its newline was missing. */
  lemma DurableRecordIsForgotten(codec: Codec, text: string, cut: LogLine, k: nat, next: LogLine)
    requires Json(codec) && OnBoundary(text) && 0 < k <= |codec.encode(cut)|
    ensures Replay(codec, text + codec.encode(cut)[..k] + Written(codec, next)) == Replay(codec, text)
  {
    var f := codec.encode(cut)[..k];
    assert ObjectText(codec.encode(cut));
    FragmentAppended(text, f);
    RecordsAppend(codec, text + f, next);
    GluedIsNotRead(codec, f, next);
    RecordsByFragment(codec, text);
    assert ReadLine(codec, "") == [];
  }
}
