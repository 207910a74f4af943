/**
  The pipeline (services/api/src/pipeline/ingest.ts) under the protocol: what
  `Ingest.IngestBatch` stores of a batch is what the step `Insert` stores of it.
*/
module IngestRefinement {
  import opened Base
  import opened Events
  import Ingest
  import opened IngestProtocol

  /** What the pipeline reads off an event besides what reaches the sorting key. */
  datatype Reader = Reader(message: Event -> string, tag: Event -> string -> Option<string>)

  /** An event as the parser of its batch reads it. */
  function Read(reader: Reader, o: Options, e: Event): Ingest.Raw {
    Ingest.Raw(if Parses(o, e) then Some(Ingest.Parsed(ServiceOf(o, e), LevelOf(o, e), reader.message(e))) else None,
               e.id, e.stamp, reader.tag(e))
  }

  function ReadAll(reader: Reader, b: Batch): seq<Ingest.Raw> {
    seq(|b.events|, i requires 0 <= i < |b.events| => Read(reader, b.options, b.events[i]))
  }

  function LetsPass(gate: Severity): string -> bool { (level: string) => SeverityOf(level) >= gate }

  /** The sorting key of a row that the pipeline inserts. */
  function KeyOf(tenant: string, row: Ingest.Row, generated: nat): OrderKey {
    OrderKey(tenant, row.service, row.timestamp, row.level,
             if row.eventId.Some? then Given(row.eventId.value) else Generated(generated))
  }

  /** Row `i` of the pipeline, which is of event `j`. */
  function Inserted(b: Batch, rows: seq<Ingest.Row>, origin: seq<nat>, generated: seq<nat>, i: nat): Row
    requires i < |rows| == |origin| && origin[i] < |b.events| == |generated|
  {
    Row(b.events[origin[i]], KeyOf(b.tenant, rows[i], generated[origin[i]]))
  }

  lemma EventPasses(reader: Reader, b: Batch, gate: Severity, j: nat)
    requires j < |b.events|
    ensures Ingest.Passes(ReadAll(reader, b)[j], LetsPass(gate)) <==> Kept(b, b.events[j], gate)
  {
    assert b.events[j] in b.events;
  }

  /** A row that the pipeline makes of an event is that of the protocol. */
  lemma RowIsRow(reader: Reader, b: Batch, row: Ingest.Row, now: Time, generated: nat, e: Event)
    requires !Throws(b) && e in b.events && Ingest.IsRowOf(row, Read(reader, b.options, e), now)
    ensures Row(e, KeyOf(b.tenant, row, generated)) == RowIn(b, e, now, generated)
  {
  }

  /** The pipeline throws where the protocol does. */
  lemma ThrowsAlike(reader: Reader, b: Batch)
    ensures var events := ReadAll(reader, b);
            Throws(b) <==> exists i :: 0 <= i < |events| && events[i].parsed.Some? && events[i].stamp.Unprintable?
  {
    var events := ReadAll(reader, b);
    if Throws(b) {
      var e :| e in b.events && Parses(b.options, e) && e.stamp.Unprintable?;
      var i :| 0 <= i < |b.events| && b.events[i] == e;
      assert events[i].parsed.Some? && events[i].stamp.Unprintable?;
    }
  }

  /** Where it does not throw, the rows of the pipeline are, event by event, those that
      `Insert` adds, and any of them may be left by a `Fail`. */
  lemma StoredIsInserted(reader: Reader, b: Batch, now: Time, gate: Severity, generated: seq<nat>,
        rows: seq<Ingest.Row>, origin: seq<nat>)
    requires |generated| == |b.events| && !Throws(b)
    requires Ingest.Stores(ReadAll(reader, b), now, LetsPass(gate), rows, origin)
    ensures forall i :: 0 <= i < |rows| ==> origin[i] < |b.events|
    ensures forall r :: r in RowsOf(b, now, gate, generated)
                        <==> exists i :: 0 <= i < |rows| && r == Inserted(b, rows, origin, generated, i)
    ensures forall i :: 0 <= i < |rows| ==> FromBatch(b, Inserted(b, rows, origin, generated, i))
  {
    var events := ReadAll(reader, b);
    forall i | 0 <= i < |rows|
      ensures origin[i] < |b.events| && Kept(b, b.events[origin[i]], gate)
      ensures Inserted(b, rows, origin, generated, i) == RowIn(b, b.events[origin[i]], now, generated[origin[i]])
    {
      assert origin[i] in origin;
      EventPasses(reader, b, gate, origin[i]);
      RowIsRow(reader, b, rows[i], now, generated[origin[i]], b.events[origin[i]]);
    }
    forall j: nat | j < |b.events| && Kept(b, b.events[j], gate) ensures j in origin {
      EventPasses(reader, b, gate, j);
    }
  }
}
