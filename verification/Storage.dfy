/** The metrics storage object (storage/duckdb.go). Each method body is one
    critical section of the mutex, or the write between two of them. */
module Storage {
  import opened Sequences
  import opened Models
  import FlushProtocol

  class DuckDBStorage {
    var buffer: seq<Event>
    var table: seq<Event>

    constructor ()
      ensures buffer == [] && table == []
    {
      buffer, table := [], [];
    }

    /** The protocol state of a storage no flush of which is in flight. */
    ghost function AtRest(returned: seq<int>): FlushProtocol.State
      reads this
    {
      FlushProtocol.State(table, [], buffer, returned)
    }

    method AddEvent(event: Event)
      modifies this`buffer
      ensures buffer == old(buffer) + [event]
      ensures forall r :: AtRest(r) == FlushProtocol.Step(old(AtRest(r)), FlushProtocol.Add([event]))
    {
      buffer := buffer + [event];
    }

    method AddEvents(events: seq<Event>)
      modifies this`buffer
      ensures buffer == old(buffer) + events
      ensures forall r :: AtRest(r) == FlushProtocol.Step(old(AtRest(r)), FlushProtocol.Add(events))
    {
      buffer := buffer + events;
    }

    method BufferSize() returns (n: int)
      ensures n == |buffer|
    {
      n := |buffer|;
    }

    /** Creating the file, rendering the rows and COPY succeed or fail as a whole. */
    method WriteBatch(batch: seq<Event>, succeeds: bool) returns (r: Result<int>)
      modifies this`table
      ensures succeeds ==> r == Ok(|batch|) && table == old(table) + batch
      ensures !succeeds ==> r.Err? && table == old(table)
    {
      if !succeeds { return Err("duckdb copy error"); }
      table := table + batch;
      r := Ok(|batch|);
    }

    /** A flush no other flush overlaps: all of the buffer moves to the table and
        is counted, or nothing changes. */
    method Flush(succeeds: bool) returns (r: Result<int>)
      modifies this
      ensures old(buffer) == [] || succeeds ==>
        r == Ok(|old(buffer)|) && table == old(table) + old(buffer) && buffer == []
      ensures old(buffer) != [] && !succeeds ==> r.Err? && table == old(table) && buffer == old(buffer)
      ensures forall counts ::
        var s := FlushProtocol.Step(old(AtRest(counts)), FlushProtocol.Take);
        AtRest(counts + [if r.Ok? then r.value else 0])
        == if old(buffer) == [] then s else FlushProtocol.Step(s, FlushProtocol.Write(0, succeeds))
    {
      if |buffer| == 0 { return Ok(0); }
      var batch := buffer;
      buffer := [];
      var written := WriteBatch(batch, succeeds);
      if written.Err? {
        buffer := batch + buffer;
        return written;
      }
      r := written;
    }
  }
}
