/** What the log file amounts to: its readable records, and how it ends. Proved of the text, appends and torn appends. */
module OrderDisk {
  import opened Basics
  import opened Orders
  import opened Lines
  import opened OrderLog

  /** The file ends where a record ends, in a fragment that is not read, or in a record that only lacks its newline. */
  datatype Tail = Clean | Torn | Whole(line: LogLine)

  datatype Disk = Disk(lines: seq<LogLine>, tail: Tail)

  const BLANK_DISK := Disk([], Clean)

  /** How much of an append is on disk when the process dies. */
  datatype Cut = Nothing | Part | AllButNewline | Full

  /** What the next process reads. */
  function ReadBack(d: Disk): seq<LogLine> {
    d.lines + if d.tail.Whole? then [d.tail.line] else []
  }

  /** An append is written right behind what is there: behind a fragment it is lost, and behind a record that lacks
      its newline it is lost together with that record. */
  function Put(d: Disk, l: LogLine, cut: Cut): Disk {
    match cut
    case Nothing => d
    case Part => Disk(d.lines, Torn)
    case AllButNewline => Disk(d.lines, if d.tail == Clean then Whole(l) else Torn)
    case Full => Disk(if d.tail == Clean then d.lines + [l] else d.lines, Clean)
  }

  // ----- The text -----

  function DiskOf(codec: Codec, text: string): Disk {
    var end := ReadLine(codec, Fragment(text));
    Disk(Readable(codec, Complete(text)),
         if OnBoundary(text) then Clean else if end == [] then Torn else Whole(end[0]))
  }

  /** So much of a record of length `n` is on disk after `k` characters. */
  function CutOf(n: nat, k: nat): Cut {
    if k == 0 then Nothing else if k < n then Part else if k == n then AllButNewline else Full
  }

  function CutAt(codec: Codec, l: LogLine, k: nat): Cut {
    CutOf(|codec.encode(l)|, k)
  }

  lemma ReadsBackRecords(codec: Codec, text: string)
    ensures ReadBack(DiskOf(codec, text)) == Records(codec, text)
  {
    RecordsByFragment(codec, text);
    assert ReadLine(codec, "") == [];
  }

  /** A partial record behind a fragment that a record began is not read either. */
  lemma GluedPartIsNotRead(codec: Codec, f: string, next: LogLine, k: nat)
    requires Json(codec) && f != "" && f[0] == '{' && 0 < k <= |codec.encode(next)|
    ensures codec.decode(f + codec.encode(next)[..k]) == None
  {
    var g := codec.encode(next);
    if k == |g| {
      assert g[..k] == g;
      GluedIsNotRead(codec, f, next);
    } else {
      var q := ScanText(Outside(0), f);
      ScanAppend(Outside(0), f, g[..k]);
      if q.Outside? {
        StaysDeep(ScanChar(Outside(0), f[0]), f[1..]);
        forall i | 0 <= i <= k
          ensures ScanText(Outside(0), g[..k][..i]) != Closed && ScanText(Outside(0), g[..k][..i]) != Dead
        {
          CutIsNotRead(codec, next, i);
          NotDeadYet(g, i);
          assert g[..k][..i] == g[..i];
        }
        StaysOpen(Outside(0), q, q.depth, g[..k]);
      } else {
        OpeningIsNotClosed(q, g, k);
      }
    }
  }

  lemma NotDeadYet(g: string, i: nat)
    requires Accepted(g) && i <= |g|
    ensures ScanText(Outside(0), g[..i]) != Dead
  {
    assert g == g[..i] + g[i..];
    ScanAppend(Outside(0), g[..i], g[i..]);
    DeadStays(g[i..]);
  }

  /** What never closes its own bracket never closes the ones around it. */
  lemma {:induction false} StaysOpen(q: Scan, r: Scan, above: nat, s: string)
    requires above > 0 && Same(q, r, above) && q != Closed
    requires forall k :: 0 <= k <= |s| ==> ScanText(q, s[..k]) != Closed && ScanText(q, s[..k]) != Dead
    ensures ScanText(r, s) != Closed
    decreases s
  {
    assert s[..0] == "";
    if s != "" {
      var q', r' := ScanChar(q, s[0]), ScanChar(r, s[0]);
      forall k | 0 <= k <= |s| - 1 ensures ScanText(q', s[1..][..k]) != Closed && ScanText(q', s[1..][..k]) != Dead {
        assert s[..k + 1][1..] == s[1..][..k];
        assert ScanText(q, s[..k + 1]) == ScanText(q', s[1..][..k]);
      }
      assert s[1..][..0] == "";
      StaysOpen(q', r', above, s[1..]);
    }
  }

  lemma OpeningIsNotClosed(q: Scan, g: string, k: nat)
    requires ObjectText(g) && 0 < k < |g|
    requires q.InString? || q.Escaped? || q.AfterString? || q == Closed || q == Dead
    ensures ScanText(q, g[..k]) != Closed
  {
    var q1 := ScanChar(q, g[0]);
    var q2 := ScanChar(q1, g[1]);
    var q3 := ScanChar(q2, g[2]);
    assert g[..k][1..] == g[1..k];
    if k == 1 {
      assert g[1..k] == "";
    } else if k == 2 {
      assert g[1..k][1..] == "" && g[1..k][0] == g[1];
      assert ScanText(q, g[..k]) == ScanText(q1, g[1..k]) == ScanText(q2, "");
    } else {
      assert g[1..k][1..] == g[2..k] && g[2..k][1..] == g[3..k];
      assert ScanText(q, g[..k]) == ScanText(q1, g[1..k]) == ScanText(q2, g[2..k]) == ScanText(q3, g[3..k]);
      DeadStays(g[3..k]);
    }
  }

  lemma CutAppended(codec: Codec, text: string, l: LogLine, k: nat)
    requires Json(codec) && k <= |codec.encode(l)|
    ensures Complete(text + codec.encode(l)[..k]) == Complete(text)
    ensures Fragment(text + codec.encode(l)[..k]) == Fragment(text) + codec.encode(l)[..k]
  {
    assert ObjectText(codec.encode(l));
    var s := codec.encode(l)[..k];
    SplitWithoutNewline(s);
    SplitAppend(text, s);
  }

  lemma LineAppended(codec: Codec, text: string, l: LogLine)
    requires Json(codec)
    ensures Complete(text + Written(codec, l)) == Complete(text) + [Fragment(text) + codec.encode(l)]
    ensures OnBoundary(text + Written(codec, l))
  {
    assert ObjectText(codec.encode(l));
    SplitLine(text, codec.encode(l));
    assert text + Written(codec, l) == text + codec.encode(l) + "\n";
  }

  lemma ReadableOneMore(codec: Codec, lines: seq<string>, line: string)
    ensures Readable(codec, lines + [line]) == Readable(codec, lines) + ReadLine(codec, line)
  {
    assert (lines + [line])[..|lines|] == lines;
  }

  lemma PartIsPut(codec: Codec, text: string, l: LogLine, k: nat)
    requires Json(codec) && Tidy(text) && 0 < k <= |codec.encode(l)|
    ensures DiskOf(codec, text + codec.encode(l)[..k]) == Put(DiskOf(codec, text), l, CutAt(codec, l, k))
  {
    var s := codec.encode(l)[..k];
    CutAppended(codec, text, l, k);
    if OnBoundary(text) {
      assert "" + s == s;
      if k < |codec.encode(l)| {
        CutIsNotRead(codec, l, k);
      } else {
        assert s == codec.encode(l);
        EncodedIsRead(codec, l);
      }
    } else {
      GluedPartIsNotRead(codec, Fragment(text), l, k);
    }
  }

  lemma LineIsPut(codec: Codec, text: string, l: LogLine)
    requires Json(codec) && Tidy(text)
    ensures DiskOf(codec, text + Written(codec, l)) == Put(DiskOf(codec, text), l, Full)
  {
    LineAppended(codec, text, l);
    ReadableOneMore(codec, Complete(text), Fragment(text) + codec.encode(l));
    if OnBoundary(text) {
      assert "" + codec.encode(l) == codec.encode(l);
      EncodedIsRead(codec, l);
    } else {
      GluedIsNotRead(codec, Fragment(text), l);
    }
  }

  /** The file is this disk: after an append, and after one that was cut short anywhere. */
  lemma FileIsDisk(codec: Codec, text: string, l: LogLine, k: nat)
    requires Json(codec) && Tidy(text) && k <= |Written(codec, l)|
    ensures DiskOf(codec, text + Written(codec, l)[..k]) == Put(DiskOf(codec, text), l, CutAt(codec, l, k))
    ensures Tidy(text + Written(codec, l)[..k])
  {
    FilesAreTidy(codec, text, l, k);
    if k == 0 {
      assert text + Written(codec, l)[..0] == text;
    } else if k <= |codec.encode(l)| {
      assert Written(codec, l)[..k] == codec.encode(l)[..k];
      PartIsPut(codec, text, l, k);
    } else {
      assert Written(codec, l)[..k] == Written(codec, l);
      LineIsPut(codec, text, l);
    }
  }

  lemma EmptyFile(codec: Codec)
    ensures DiskOf(codec, "") == BLANK_DISK && Tidy("")
  {
  }

  // ----- The records of one order -----

  function Mine(lines: seq<LogLine>, id: OrderId): seq<LogLine> {
    if lines == [] then []
    else
      var l := lines[|lines| - 1];
      Mine(lines[..|lines| - 1], id) + if l.order.orderId == id then [l] else []
  }

  /** The disk as far as one order is concerned; a record of another order that lacks its newline is only a fragment. */
  function MyDisk(d: Disk, id: OrderId): Disk {
    Disk(Mine(d.lines, id), if d.tail.Whole? && d.tail.line.order.orderId != id then Torn else d.tail)
  }

  /** An append of another order's record. */
  function PutOther(d: Disk, cut: Cut): Disk {
    match cut
    case Nothing => d
    case Part => Disk(d.lines, Torn)
    case AllButNewline => Disk(d.lines, Torn)
    case Full => Disk(d.lines, Clean)
  }

  lemma MineOneMore(lines: seq<LogLine>, l: LogLine, id: OrderId)
    ensures Mine(lines + [l], id) == Mine(lines, id) + if l.order.orderId == id then [l] else []
  {
    assert (lines + [l])[..|lines|] == lines;
  }

  lemma MyPut(d: Disk, l: LogLine, cut: Cut, id: OrderId)
    ensures MyDisk(Put(d, l, cut), id) ==
              if l.order.orderId == id then Put(MyDisk(d, id), l, cut) else PutOther(MyDisk(d, id), cut)
  {
    MineOneMore(d.lines, l, id);
  }

  lemma MyReadBack(d: Disk, id: OrderId)
    ensures ReadBack(MyDisk(d, id)) == Mine(ReadBack(d), id)
  {
    if d.tail.Whole? {
      MineOneMore(d.lines, d.tail.line, id);
    } else {
      assert ReadBack(d) == d.lines;
    }
  }

  function Rows(lines: seq<LogLine>): seq<OrderEvent> {
    if lines == [] then [] else Rows(lines[..|lines| - 1]) + [Row(lines[|lines| - 1])]
  }

  lemma RowsOneMore(lines: seq<LogLine>, l: LogLine)
    ensures Rows(lines + [l]) == Rows(lines) + [Row(l)]
  {
    assert (lines + [l])[..|lines|] == lines;
  }

  /** Loading finds of an order exactly its own records: the last one and the rows of all. */
  lemma {:induction false} LoadsMine(lines: seq<LogLine>, id: OrderId)
    ensures var mem, mine := LoadAll(OrderLog.EMPTY, lines), Mine(lines, id);
            && (id in mem.orders <==> mine != [])
            && (mine != [] ==> mem.orders[id] == mine[|mine| - 1].order)
            && EventsOf(mem, id) == Rows(mine)
  {
    if lines != [] {
      var init, l := lines[..|lines| - 1], lines[|lines| - 1];
      LoadsMine(init, id);
      if l.order.orderId == id {
        RowsOneMore(Mine(init, id), l);
        assert Mine(lines, id) == Mine(init, id) + [l];
      } else {
        assert Mine(init, id) + [] == Mine(init, id);
        assert EventsOf(LoadAll(OrderLog.EMPTY, lines), id) == EventsOf(LoadAll(OrderLog.EMPTY, init), id);
      }
    }
  }
}
