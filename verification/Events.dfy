/**
  What the delivery path reads off a log event, under the options of the batch it is
  sent in, and the key its rows collapse by.
*/
module Events {
  import opened Base

  type Id = string
  type Time = string

  /** The parser of the route: JsonLogParser, or GenericLogParser with its wider names. */
  datatype Parser = Json | Generic

  /** The options of a batch that reach the sorting key: its parser, its service for
      events that name none, and the names it forbids to extract. */
  datatype Options = Options(parser: Parser, service: string, never: set<string>)

  /** A raw event: its well-formed `event_id`, its time, its other values at the top and
      under `fields`, as text, and the parsers that find a message in it. */
  datatype Event = Event(id: Option<Id>, stamp: Stamp, top: map<string, string>, nested: map<string, string>,
                         parsers: set<Parser>)

  predicate Parses(o: Options, e: Event) { o.parser in e.parsers }

  /** The value under the first of some names. */
  function FirstOf(fields: map<string, string>, names: seq<string>): Option<string> {
    if names == [] then None
    else if names[0] in fields then Some(fields[names[0]])
    else FirstOf(fields, names[1..])
  }

  /** A field: none if one of its names is forbidden, or if its text is empty. */
  function Extracted(o: Options, e: Event, names: seq<string>): Option<string> {
    if exists n :: n in names && (n in o.never || "fields." + n in o.never) then None
    else
      var raw := if FirstOf(e.top, names).Some? then FirstOf(e.top, names) else FirstOf(e.nested, names);
      if raw == Some("") then None else raw
  }

  predicate Forbidden(o: Options, names: seq<string>) {
    exists n :: n in names && (n in o.never || "fields." + n in o.never)
  }

  predicate NoneOf(fields: map<string, string>, names: seq<string>) { forall n :: n in names ==> n !in fields }

  lemma {:induction false} FirstOfIs(fields: map<string, string>, names: seq<string>, i: nat)
    ensures NoneOf(fields, names) ==> FirstOf(fields, names) == None
    ensures i < |names| && names[i] in fields && NoneOf(fields, names[..i])
            ==> FirstOf(fields, names) == Some(fields[names[i]])
  {
    if names != [] {
      FirstOfIs(fields, names[1..], if i > 0 then i - 1 else 0);
      assert i > 0 && i < |names| ==> names[..i] == [names[0]] + names[1..][..i - 1];
    }
  }

  /** The first of some names that is there, at the top before under `fields`; not
      where a name is forbidden, and not an empty text. */
  lemma ExtractedIs(o: Options, e: Event, names: seq<string>, i: nat)
    ensures Forbidden(o, names) || (NoneOf(e.top, names) && NoneOf(e.nested, names)) ==> Extracted(o, e, names) == None
    ensures !Forbidden(o, names) && i < |names| && names[i] in e.top && NoneOf(e.top, names[..i])
            ==> Extracted(o, e, names) == if e.top[names[i]] == "" then None else Some(e.top[names[i]])
    ensures !Forbidden(o, names) && NoneOf(e.top, names)
            && i < |names| && names[i] in e.nested && NoneOf(e.nested, names[..i])
            ==> Extracted(o, e, names) == if e.nested[names[i]] == "" then None else Some(e.nested[names[i]])
  {
    FirstOfIs(e.top, names, i);
    FirstOfIs(e.nested, names, i);
  }

  function LevelNames(p: Parser): seq<string> {
    match p case Json => ["level", "lvl"] case Generic => ["level", "lvl", "severity"]
  }

  function ServiceOf(o: Options, e: Event): string {
    var own := Extracted(o, e, ["service"]);
    if own.Some? then own.value else o.service
  }

  function LevelOf(o: Options, e: Event): string {
    var own := Extracted(o, e, LevelNames(o.parser));
    if own.Some? then own.value else ""
  }

  /** How severe a level is, from TRACE on; one that is unknown counts as INFO. */
  type Severity = n: nat | n <= 5 witness 0

  function SeverityOf(level: string): Severity {
    match Upper(level)
    case "TRACE" => 0
    case "DEBUG" => 1
    case "WARN" => 3
    case "ERROR" => 4
    case "FATAL" => 5
    case _ => 2
  }

  /** The names of the levels, in any case. */
  lemma SeverityIs(level: string, n: nat)
    requires n < 6
    ensures Upper(level) == ["TRACE", "DEBUG", "INFO", "WARN", "ERROR", "FATAL"][n] ==> SeverityOf(level) == n
    ensures Upper(level) !in ["TRACE", "DEBUG", "INFO", "WARN", "ERROR", "FATAL"] ==> SeverityOf(level) == 2
  {
  }

  /** The id of a row: the event's, or one made up for the row. */
  datatype RowId = Given(id: Id) | Generated(n: nat)

  /** The sorting key of log_metadata (services/api/src/db/schema.ts): rows that
      agree on it collapse to one. */
  datatype OrderKey = OrderKey(tenant: string, service: string, time: Time, level: string, id: RowId)

  datatype Row = Row(event: Event, key: OrderKey)

  /** The row of an event, under the options of its batch and ingested at some time. */
  function RowOf(tenant: string, o: Options, e: Event, now: Time, generated: nat): Row {
    Row(e, OrderKey(tenant, ServiceOf(o, e), if e.stamp.At? then e.stamp.time else now, Upper(LevelOf(o, e)),
                    if e.id.Some? then Given(e.id.value) else Generated(generated)))
  }

  function Ids(events: seq<Event>): seq<Id> {
    if events == [] then []
    else (if events[0].id.Some? then [events[0].id.value] else []) + Ids(events[1..])
  }

  function Parsed(o: Options, events: seq<Event>): seq<Event> {
    if events == [] then []
    else (if Parses(o, events[0]) then [events[0]] else []) + Parsed(o, events[1..])
  }

  predicate HasId(events: seq<Event>, id: Option<Id>) { exists e :: e in events && e.id == id }

  lemma {:induction false} IdsAre(events: seq<Event>, id: Id)
    ensures id in Ids(events) <==> HasId(events, Some(id))
  {
    if events != [] {
      IdsAre(events[1..], id);
      assert events == [events[0]] + events[1..];
    }
  }

  lemma {:induction false} ParsedAre(o: Options, events: seq<Event>)
    ensures forall e :: e in Parsed(o, events) <==> e in events && Parses(o, e)
  {
    if events != [] {
      ParsedAre(o, events[1..]);
      assert events == [events[0]] + events[1..];
    }
  }
}
