/** The file-backed order store: three maps, each change of which is first appended to the log. */
module OrderStore {
  import opened Basics
  import opened Orders
  import opened Lines
  import opened OrderLog

  datatype CreateResult = Stored | DuplicateOrder | DuplicateHash(holder: OrderId)

  class FileOrderStore {
    const codec: Codec
    var orders: map<OrderId, Order>
    var byHash: map<Hash, OrderId>
    var log: map<OrderId, seq<OrderEvent>>
    // The text of the file; only ever extended.
    var file: string
    // The file as this process found it, and the records it has appended since.
    ghost const found: string
    ghost var appended: seq<LogLine>

    ghost function Mem(): Memory
      reads this
    {
      Memory(orders, byHash, log)
    }

    /** Memory is what the file held at start-up plus every record appended since, and so is the file. */
    ghost predicate Valid()
      reads this
    {
      && Json(codec)
      && file == found + WrittenAll(codec, appended)
      && Mem() == LoadAll(Replay(codec, found), appended)
    }

    lemma ValidIsFiled()
      requires Valid()
      ensures Filed(Mem())
    {
      LoadedIsFiled(EMPTY, Records(codec, found));
      LoadedIsFiled(Replay(codec, found), appended);
    }

    lemma FiledUnderItsId(id: OrderId)
      requires Valid() && id in orders
      ensures orders[id].orderId == id
    {
      ValidIsFiled();
    }

    /** Start over an existing file, or over an empty one. */
    constructor (codec: Codec, raw: string)
      requires Json(codec)
      ensures Valid() && this.codec == codec && file == raw && found == raw && appended == []
      ensures Mem() == Replay(codec, raw)
    {
      this.codec := codec;
      orders, byHash, log := map[], map[], map[];
      file, found, appended := raw, raw, [];
      new;
      ReplayFile();
      assert raw + "" == raw;
    }

    method ReadRecord(line: LogLine)
      modifies this`orders, this`byHash, this`log
      ensures Mem() == Load(old(Mem()), line)
    {
      var order := line.order;
      var events := if order.orderId in log then log[order.orderId] else [];
      orders := orders[order.orderId := order];
      byHash := byHash[order.paymentHash := order.orderId];
      log := log[order.orderId := events + [Row(line)]];
    }

    /** Blank and unreadable lines are skipped. */
    method ReadPiece(line: string)
      modifies this`orders, this`byHash, this`log
      ensures Mem() == LoadRead(old(Mem()), ReadLine(codec, line))
    {
      if !Blank(line) {
        var parsed := codec.decode(line);
        if parsed.Some? { ReadRecord(parsed.value); }
      }
    }

    method ReplayFile()
      requires Mem() == EMPTY
      modifies this`orders, this`byHash, this`log
      ensures Mem() == Replay(codec, file)
    {
      var lines := Split(file);
      var i := 0;
      while i < |lines|
        invariant i <= |lines|
        invariant Mem() == LoadAll(EMPTY, Readable(codec, lines[..i]))
      {
        ReadOneMore(codec, lines, i);
        ReadPiece(lines[i]);
        i := i + 1;
      }
      assert lines[..|lines|] == lines;
    }

    method Persist(line: LogLine)
      modifies this`file, this`appended
      ensures file == old(file) + Written(codec, line) && appended == old(appended) + [line]
    {
      file := file + (codec.encode(line) + "\n");
      appended := appended + [line];
    }

    method Create(order: Order) returns (r: CreateResult)
      requires Valid()
      modifies this
      ensures Valid()
      ensures r == if order.orderId in old(orders) then DuplicateOrder
                   else if order.paymentHash in old(byHash) then DuplicateHash(old(byHash)[order.paymentHash])
                   else Stored
      ensures r != Stored ==> Mem() == old(Mem()) && file == old(file) && appended == old(appended)
      ensures r == Stored ==>
                && Mem() == Load(old(Mem()), CreateLine(order, order.createdAt))
                && log[order.orderId] == [OrderEvent(order.orderId, order.createdAt, None, order.state, None)]
                && file == old(file) + Written(codec, CreateLine(order, order.createdAt))
                && appended == old(appended) + [CreateLine(order, order.createdAt)]
    {
      if order.orderId in orders {
        return DuplicateOrder;
      }
      if order.paymentHash in byHash {
        return DuplicateHash(byHash[order.paymentHash]);
      }
      var line := CreateLine(order, order.createdAt);
      ghost var before := appended;
      ValidIsFiled();
      CreatedLoads(Mem(), order);
      Persist(line);
      orders := orders[order.orderId := order];
      byHash := byHash[order.paymentHash := order.orderId];
      log := log[order.orderId := [OrderEvent(order.orderId, order.createdAt, None, order.state, None)]];
      Extended(before, line);
      r := Stored;
    }

    /** Apply `mutate` to the stored order and persist the result before anyone sees it. The source trusts the
        callback to keep the order's id; that is all the log relies on. */
    method Transition(orderId: OrderId, mutate: Order -> Order, detail: Option<Detail>) returns (r: Option<Order>)
      requires Valid()
      requires orderId in orders ==> mutate(orders[orderId]).orderId == orderId
      modifies this
      ensures Valid()
      ensures orderId !in old(orders) ==> r == None && Mem() == old(Mem()) && file == old(file) && appended == old(appended)
      ensures orderId in old(orders) ==>
                var next := mutate(old(orders)[orderId]);
                var line := UpdateLine(next, next.updatedAt, detail, old(orders)[orderId].state);
                && r == Some(next) && Mem() == Load(old(Mem()), line)
                && file == old(file) + Written(codec, line) && appended == old(appended) + [line]
    {
      if orderId !in orders {
        return None;
      }
      var fromState := orders[orderId].state;
      var next := mutate(orders[orderId]);
      var line := UpdateLine(next, next.updatedAt, detail, fromState);
      ghost var before := appended;
      Persist(line);
      orders := orders[orderId := next];
      byHash := byHash[next.paymentHash := next.orderId];
      var events := if orderId in log then log[orderId] else [];
      log := log[orderId := events + [OrderEvent(orderId, next.updatedAt, Some(fromState), next.state, detail)]];
      Extended(before, line);
      r := Some(next);
    }

    lemma Extended(before: seq<LogLine>, line: LogLine)
      ensures WrittenAll(codec, before + [line]) == WrittenAll(codec, before) + Written(codec, line)
      ensures found + (WrittenAll(codec, before) + Written(codec, line))
           == (found + WrittenAll(codec, before)) + Written(codec, line)
      ensures LoadAll(Replay(codec, found), before + [line]) == Load(LoadAll(Replay(codec, found), before), line)
    {
      assert (before + [line])[..|before|] == before;
    }

    method Get(orderId: OrderId) returns (r: Option<Order>)
      ensures r == if orderId in orders then Some(orders[orderId]) else None
    {
      r := if orderId in orders then Some(orders[orderId]) else None;
    }

    /** An order filed under the empty id is not found by its hash. */
    method GetByHash(paymentHash: Hash) returns (r: Option<Order>)
      ensures r == if paymentHash in byHash && byHash[paymentHash] != "" && byHash[paymentHash] in orders
                   then Some(orders[byHash[paymentHash]]) else None
    {
      r := None;
      if paymentHash in byHash && byHash[paymentHash] != "" {
        r := Get(byHash[paymentHash]);
      }
    }

    /** The ids of the orders that are not terminal. */
    method ListNonTerminal() returns (r: set<OrderId>)
      ensures forall id :: id in r <==> id in orders && !Terminal(orders[id].state)
    {
      r := set id | id in orders && !Terminal(orders[id].state);
    }

    /** A restart over the file as it is now finds exactly what is in memory, if and only if the file ended where
        a record ends when this process opened it, or nothing was written since. */
    lemma RestartReadsBackMemoryExactly()
      requires Valid() && Tidy(found)
      ensures Replay(codec, file) == Mem() <==> OnBoundary(found) || appended == []
    {
      if appended == [] {
        assert found + "" == found;
      } else {
        AppendedRecordsReadBackExactly(codec, found, appended);
      }
    }
  }

  function LoadRead(mem: Memory, read: seq<LogLine>): Memory {
    if read == [] then mem else Load(mem, read[0])
  }

  lemma ReadOneMore(codec: Codec, lines: seq<string>, i: nat)
    requires i < |lines|
    ensures LoadAll(EMPTY, Readable(codec, lines[..i + 1])) ==
            LoadRead(LoadAll(EMPTY, Readable(codec, lines[..i])), ReadLine(codec, lines[i]))
  {
    assert lines[..i + 1][..i] == lines[..i];
    var records, read := Readable(codec, lines[..i]), ReadLine(codec, lines[i]);
    if read == [] {
      assert records + read == records;
    } else {
      LoadOneMore(EMPTY, records, read[0]);
    }
  }

  lemma CreatedLoads(mem: Memory, order: Order)
    requires Filed(mem) && order.orderId !in mem.orders
    ensures Load(mem, CreateLine(order, order.createdAt)).log
         == mem.log[order.orderId := [OrderEvent(order.orderId, order.createdAt, None, order.state, None)]]
  {
    var row := OrderEvent(order.orderId, order.createdAt, None, order.state, None);
    assert EventsOf(mem, order.orderId) + [row] == [row];
  }
}
