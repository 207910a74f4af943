/**
  One batch through the ingest pipeline (services/api/src/pipeline/ingest.ts).
*/
module Ingest {
  import opened Base
  import opened ClusterClient

  /** What the pipeline reads off a raw event: its parse, its own id and time, and the
      value it has for a configured tag. A time that cannot be printed throws. */
  datatype Parsed = Parsed(service: string, level: string, message: string)
  datatype Raw = Raw(parsed: Option<Parsed>, id: Option<string>, stamp: Stamp, tag: string -> Option<string>)

  datatype Item = Item(parsed: Parsed, timestamp: string, raw: Raw)
  /** A row keeps its message only while it has no template. */
  datatype Row = Row(timestamp: string, service: string, level: string, message: Option<string>,
      eventId: Option<string>, template: ClusterResult)
  datatype Tag = Tag(row: Row, key: string, value: string)

  datatype Counts = Counts(accepted: nat, clustered: nat, unclustered: nat, newTemplates: nat)

  datatype Outcome =
    | Threw                                   // a time that cannot be printed
    | Replayed(result: Counts)
    | Written(result: Counts, rows: seq<Row>, tags: seq<Tag>)
    | Unavailable(rows: seq<Row>)             // the insert failed

  // -------------------------------------------------------------- what a batch means

  /** What is made of an event that parses: its time, or the time of ingest. */
  function ItemOf(e: Raw, now: string): Item
    requires e.parsed.Some?
  {
    Item(e.parsed.value, if e.stamp.At? then e.stamp.time else now, e)
  }

  /** The items: the events that parse, in order. */
  function Items(events: seq<Raw>, now: string): seq<Item> {
    if events == [] then []
    else
      var e := events[|events| - 1];
      Items(events[..|events| - 1], now)
      + if e.parsed.None? then [] else [ItemOf(e, now)]
  }

  /** The items that the gate lets pass. */
  function Gated(items: seq<Item>, gate: string -> bool): seq<Item> {
    if items == [] then []
    else Gated(items[..|items| - 1], gate) + if gate(items[|items| - 1].parsed.level) then [items[|items| - 1]] else []
  }

  function RowOf(item: Item, result: ClusterResult): Row {
    Row(item.timestamp, item.parsed.service, Upper(item.parsed.level),
        if result.templateId == UNCLUSTERED then Some(item.parsed.message) else None, item.raw.id, result)
  }

  /** Row by row, as far as there are results. */
  function Rows(items: seq<Item>, results: seq<ClusterResult>): (rows: seq<Row>)
    ensures |rows| == if |items| <= |results| then |items| else |results|
    ensures forall i :: 0 <= i < |rows| ==> rows[i] == RowOf(items[i], results[i])
  {
    seq(if |items| <= |results| then |items| else |results|,
        i requires 0 <= i < |items| && i < |results| => RowOf(items[i], results[i]))
  }

  /** How many rows have a template, and how many of those a new one. */
  function Clustered(rows: seq<Row>): nat {
    if rows == [] then 0
    else Clustered(rows[..|rows| - 1]) + if rows[|rows| - 1].template.templateId != UNCLUSTERED then 1 else 0
  }

  function Unclustered(rows: seq<Row>): nat {
    if rows == [] then 0
    else Unclustered(rows[..|rows| - 1]) + if rows[|rows| - 1].template.templateId == UNCLUSTERED then 1 else 0
  }

  function New(rows: seq<Row>): nat {
    if rows == [] then 0
    else
      var t := rows[|rows| - 1].template;
      New(rows[..|rows| - 1]) + if t.templateId != UNCLUSTERED && t.isNewTemplate then 1 else 0
  }

  /** What the caller is told of rows. */
  function CountsOf(rows: seq<Row>): Counts { Counts(|rows|, Clustered(rows), Unclustered(rows), New(rows)) }

  /** Positions of the rows with a template, and of those with a new one. */
  function WithTemplate(rows: seq<Row>): set<nat> {
    set i: nat | i < |rows| && rows[i].template.templateId != UNCLUSTERED
  }

  function WithNewOne(rows: seq<Row>): set<nat> {
    set i: nat | i in WithTemplate(rows) && rows[i].template.isNewTemplate
  }

  /** Clustered and unclustered add up to accepted, and new ones are clustered. */
  lemma {:induction false} CountsAddUp(rows: seq<Row>)
    ensures var c := CountsOf(rows);
            c.clustered + c.unclustered == c.accepted == |rows| && c.newTemplates <= c.clustered
  {
    if rows != [] {
      CountsAddUp(rows[..|rows| - 1]);
    }
  }

  /** The counts are of the rows with a template, and of those with a new one. */
  lemma {:induction false} CountsAre(rows: seq<Row>)
    ensures Clustered(rows) == |WithTemplate(rows)| && New(rows) == |WithNewOne(rows)|
  {
    if rows != [] {
      var n := |rows| - 1;
      CountsAre(rows[..n]);
      OneMore(rows[..n], rows[n], rows);
      OneMoreNew(rows[..n], rows[n], rows);
    }
  }

  lemma OneMore(most: seq<Row>, row: Row, rows: seq<Row>)
    requires rows == most + [row]
    ensures |WithTemplate(rows)| == |WithTemplate(most)| + if row.template.templateId != UNCLUSTERED then 1 else 0
  {
    assert WithTemplate(rows) == WithTemplate(most) + if row.template.templateId != UNCLUSTERED then {|most|} else {};
  }

  lemma OneMoreNew(most: seq<Row>, row: Row, rows: seq<Row>)
    requires rows == most + [row]
    ensures var isNew := row.template.templateId != UNCLUSTERED && row.template.isNewTemplate;
            |WithNewOne(rows)| == |WithNewOne(most)| + if isNew then 1 else 0
  {
    var isNew := row.template.templateId != UNCLUSTERED && row.template.isNewTemplate;
    assert WithNewOne(rows) == WithNewOne(most) + if isNew then {|most|} else {};
  }

  predicate TagFits(value: Option<string>) { value.Some? && 0 < |value.value| <= 256 }

  /** The tags of one row, from one raw event. */
  function TagsOf(row: Row, raw: Raw, keys: seq<string>): seq<Tag> {
    if keys == [] then []
    else
      var key := keys[|keys| - 1];
      TagsOf(row, raw, keys[..|keys| - 1]) + if TagFits(raw.tag(key)) then [Tag(row, key, raw.tag(key).value)] else []
  }

  /** The tags of all rows: those of row `i` are read from item `i`. */
  function Tags(rows: seq<Row>, items: seq<Item>, keys: seq<string>): seq<Tag>
    requires |rows| <= |items|
    decreases |rows|
  {
    if rows == [] then []
    else
      var n := |rows| - 1;
      Tags(rows[..n], items, keys) + TagsOf(rows[n], items[n].raw, keys)
  }

  /** Where a tag comes from: a row and a key. */
  datatype Source = Source(row: nat, key: nat)
  {
    predicate Before(other: Source) { row < other.row || (row == other.row && key < other.key) }
  }

  /** The event of the row has a value of a fitting length under the key. */
  predicate HasTag(rows: seq<Row>, items: seq<Item>, keys: seq<string>, s: Source) {
    s.row < |rows| <= |items| && s.key < |keys| && TagFits(items[s.row].raw.tag(keys[s.key]))
  }

  function TagAt(rows: seq<Row>, items: seq<Item>, keys: seq<string>, s: Source): Tag
    requires HasTag(rows, items, keys, s)
  {
    Tag(rows[s.row], keys[s.key], items[s.row].raw.tag(keys[s.key]).value)
  }

  ghost predicate Ascending(origin: seq<Source>) {
    forall x, y :: 0 <= x < y < |origin| ==> origin[x].Before(origin[y])
  }

  /** Each tag is the one of its row and key. */
  ghost predicate Reads(rows: seq<Row>, items: seq<Item>, keys: seq<string>, tags: seq<Tag>, origin: seq<Source>) {
    && |origin| == |tags|
    && forall x :: 0 <= x < |tags|
        ==> HasTag(rows, items, keys, origin[x]) && tags[x] == TagAt(rows, items, keys, origin[x])
  }

  /** All that come before `bound`, and no other. */
  ghost predicate AllBefore(rows: seq<Row>, items: seq<Item>, keys: seq<string>, origin: seq<Source>, bound: Source) {
    forall s :: s in origin <==> HasTag(rows, items, keys, s) && s.Before(bound)
  }

  ghost predicate TagsUpTo(rows: seq<Row>, items: seq<Item>, keys: seq<string>, bound: Source, tags: seq<Tag>,
        origin: seq<Source>) {
    Ascending(origin) && Reads(rows, items, keys, tags, origin) && AllBefore(rows, items, keys, origin, bound)
  }

  /** One more key of a row. */
  lemma NextTag(rows: seq<Row>, items: seq<Item>, keys: seq<string>, s: Source, tags: seq<Tag>, origin: seq<Source>)
    requires s.row < |rows| <= |items| && s.key < |keys| && TagsUpTo(rows, items, keys, s, tags, origin)
    ensures var fits := HasTag(rows, items, keys, s);
            TagsUpTo(rows, items, keys, s.(key := s.key + 1),
                     tags + if fits then [TagAt(rows, items, keys, s)] else [],
                     origin + if fits then [s] else [])
  {
    var fits, next := HasTag(rows, items, keys, s), s.(key := s.key + 1);
    var more := origin + if fits then [s] else [];
    forall x, y | 0 <= x < y < |more| ensures more[x].Before(more[y]) {
      if y == |origin| {
        assert origin[x] in origin;
      }
    }
    forall u ensures u in more <==> HasTag(rows, items, keys, u) && u.Before(next) {
      assert u.Before(next) <==> u.Before(s) || u == s;
      assert u in more <==> u in origin || (fits && u == s);
    }
  }

  lemma {:induction false} OwnTagsAre(rows: seq<Row>, items: seq<Item>, keys: seq<string>, i: nat, n: nat,
        tags: seq<Tag>, origin: seq<Source>)
    returns (more: seq<Source>)
    requires i < |rows| <= |items| && n <= |keys| && TagsUpTo(rows, items, keys, Source(i, 0), tags, origin)
    ensures TagsUpTo(rows, items, keys, Source(i, n), tags + TagsOf(rows[i], items[i].raw, keys[..n]), more)
  {
    more := origin;
    if n == 0 {
      assert tags + [] == tags;
    } else {
      var before := OwnTagsAre(rows, items, keys, i, n - 1, tags, origin);
      var own, s := TagsOf(rows[i], items[i].raw, keys[..n - 1]), Source(i, n - 1);
      assert keys[..n][..n - 1] == keys[..n - 1] && keys[..n][n - 1] == keys[n - 1];
      NextTag(rows, items, keys, s, tags + own, before);
      more := before + if HasTag(rows, items, keys, s) then [s] else [];
      var last := if HasTag(rows, items, keys, s) then [TagAt(rows, items, keys, s)] else [];
      assert (tags + own) + last == tags + (own + last);
    }
  }

  /** The first key of a row comes right after the last of the row before. */
  lemma NextRow(rows: seq<Row>, items: seq<Item>, keys: seq<string>, i: nat, tags: seq<Tag>, origin: seq<Source>)
    requires TagsUpTo(rows, items, keys, Source(i, |keys|), tags, origin)
    ensures TagsUpTo(rows, items, keys, Source(i + 1, 0), tags, origin)
  {
  }

  lemma {:induction false} FirstTagsAre(rows: seq<Row>, items: seq<Item>, keys: seq<string>, m: nat)
    returns (origin: seq<Source>)
    requires m <= |rows| <= |items|
    ensures TagsUpTo(rows, items, keys, Source(m, 0), Tags(rows[..m], items, keys), origin)
  {
    origin := [];
    if m > 0 {
      var before := FirstTagsAre(rows, items, keys, m - 1);
      var tags := Tags(rows[..m - 1], items, keys);
      origin := OwnTagsAre(rows, items, keys, m - 1, |keys|, tags, before);
      assert rows[..m][..m - 1] == rows[..m - 1] && keys[..|keys|] == keys;
      NextRow(rows, items, keys, m - 1, Tags(rows[..m], items, keys), origin);
    }
  }

  /** What the tags of rows are: one for each pair of a row and a key whose event has a
      fitting value under the key, and no other, by row and then by key. */
  lemma TagsAre(rows: seq<Row>, items: seq<Item>, keys: seq<string>) returns (origin: seq<Source>)
    requires |rows| <= |items|
    ensures Ascending(origin) && Reads(rows, items, keys, Tags(rows, items, keys), origin)
    ensures forall s :: s in origin
              <==> s.row < |rows| && s.key < |keys|
                   && var value := items[s.row].raw.tag(keys[s.key]); value.Some? && 1 <= |value.value| <= 256
  {
    origin := FirstTagsAre(rows, items, keys, |rows|);
    assert rows[..|rows|] == rows;
    forall s ensures s in origin <==> HasTag(rows, items, keys, s) {
      assert s in origin <==> HasTag(rows, items, keys, s) && s.Before(Source(|rows|, 0));
    }
  }

  // -------------------------------------------------------------------- the pipeline

  method Parse(events: seq<Raw>, now: string) returns (threw: bool, items: seq<Item>, parseErrors: nat)
    ensures threw <==> exists i :: 0 <= i < |events| && events[i].parsed.Some? && events[i].stamp.Unprintable?
    ensures !threw ==> items == Items(events, now) && |items| + parseErrors == |events|
  {
    threw, items, parseErrors := false, [], 0;
    for i := 0 to |events|
      invariant forall j :: 0 <= j < i ==> events[j].parsed.None? || !events[j].stamp.Unprintable?
      invariant items == Items(events[..i], now) && |items| + parseErrors == i && !threw
    {
      var event := events[i];
      assert events[..i + 1][..i] == events[..i];
      if event.parsed.None? {
        parseErrors := parseErrors + 1;
        continue;
      }
      if event.stamp.Unprintable? {
        threw := true;
        return;
      }
      items := items + [Item(event.parsed.value, if event.stamp.At? then event.stamp.time else now, event)];
    }
    assert events[..|events|] == events;
  }

  method Gate(all: seq<Item>, gate: string -> bool) returns (items: seq<Item>, levelFiltered: nat)
    ensures items == Gated(all, gate) && |items| + levelFiltered == |all|
  {
    items, levelFiltered := [], 0;
    for i := 0 to |all|
      invariant items == Gated(all[..i], gate) && |items| + levelFiltered == i
    {
      assert all[..i + 1][..i] == all[..i];
      if gate(all[i].parsed.level) {
        items := items + [all[i]];
      } else {
        levelFiltered := levelFiltered + 1;
      }
    }
    assert all[..|all|] == all;
  }

  /** Rows and counts. They add up to what was accepted exactly when the clusterer gave
      a result for every item. */
  method BuildRows(items: seq<Item>, results: seq<ClusterResult>) returns (rows: seq<Row>, counts: Counts)
    ensures rows == Rows(items, results) && counts == CountsOf(rows).(accepted := |items|)
    ensures counts.clustered + counts.unclustered == counts.accepted <==> |results| >= |items|
  {
    rows := [];
    var clustered, unclustered, newTemplates := 0, 0, 0;
    var n := if |items| <= |results| then |items| else |results|;
    for i := 0 to |items|
      invariant |rows| == if i <= n then i else n
      invariant forall j :: 0 <= j < |rows| ==> rows[j] == RowOf(items[j], results[j])
      invariant clustered == Clustered(rows) && unclustered == Unclustered(rows) && newTemplates == New(rows)
    {
      if i >= |results| {
        continue; // no result for this item: no row
      }
      var cluster := results[i];
      assert (rows + [RowOf(items[i], cluster)])[..|rows|] == rows;
      rows := rows + [RowOf(items[i], cluster)];
      if cluster.templateId == UNCLUSTERED {
        unclustered := unclustered + 1;
      } else {
        clustered := clustered + 1;
        if cluster.isNewTemplate {
          newTemplates := newTemplates + 1;
        }
      }
    }
    CountsAddUp(rows);
    counts := Counts(|items|, clustered, unclustered, newTemplates);
  }

  method ExtractTags(rows: seq<Row>, items: seq<Item>, keys: seq<string>) returns (tags: seq<Tag>)
    requires |rows| <= |items|
    ensures tags == Tags(rows, items, keys)
  {
    tags := [];
    for i := 0 to |rows|
      invariant tags == Tags(rows[..i], items, keys)
    {
      assert rows[..i + 1][..i] == rows[..i];
      var own := [];
      for j := 0 to |keys|
        invariant own == TagsOf(rows[i], items[i].raw, keys[..j])
      {
        assert keys[..j + 1][..j] == keys[..j];
        var value := items[i].raw.tag(keys[j]);
        if TagFits(value) {
          own := own + [Tag(rows[i], keys[j], value.value)];
        }
      }
      assert keys[..|keys|] == keys;
      tags := tags + own;
    }
    assert rows[..|rows|] == rows;
  }

  /** The rows of items: with the templates of the reply, in order, if there was a usable
      one, else all of them without one. */
  predicate RowsFrom(items: seq<Item>, rows: seq<Row>, goes: bool, reply: Reply) {
    rows == Rows(items, if goes && Usable(reply, |items|) then reply.body.results else Fallbacks(|items|))
  }

  /** A batch: `cached` is what the idempotency cache has for it, `reply` what the
      clusterer answers, `inserted` whether the insert succeeds. In every batch that is
      not replayed, parse errors, filtered and accepted events add up to the input;
      the clusterer's contract makes clustered and unclustered add up to accepted, and
      gives every accepted item its row. */
  method IngestBatch(events: seq<Raw>, now: string, cached: Option<Counts>, gate: string -> bool,
        client: ClusterClient, reply: Reply, inserted: bool, tagKeys: seq<string>)
    returns (outcome: Outcome, parseErrors: nat, levelFiltered: nat)
    requires client.Valid()
    modifies client
    ensures client.Valid()
    ensures outcome.Threw? <==> exists i :: 0 <= i < |events| && events[i].parsed.Some? && events[i].stamp.Unprintable?
    ensures outcome.Replayed? <==> !outcome.Threw? && cached.Some?
    ensures outcome.Replayed? ==> cached == Some(outcome.result)
    ensures !outcome.Threw? ==> parseErrors == |events| - |Items(events, now)|
    ensures !outcome.Threw? && cached.None?
            ==> Done(Gated(Items(events, now), gate), old(client.GoesOut()), reply, inserted, tagKeys, outcome)
    ensures !outcome.Threw? && cached.None?
            ==> parseErrors + levelFiltered + |Gated(Items(events, now), gate)| == |events|
    ensures outcome.Written? || outcome.Unavailable?
            ==> IsStored(events, now, gate, outcome.rows)
  {
    levelFiltered := 0;
    var threw, items;
    threw, items, parseErrors := Parse(events, now);
    if threw {
      return Outcome.Threw, parseErrors, 0;
    }
    if cached.Some? {
      return Replayed(cached.value), parseErrors, 0;
    }
    items, levelFiltered := Gate(items, gate);
    ghost var goes := client.GoesOut();
    outcome := Process(items, client, reply, inserted, tagKeys);
    RowsAreStored(events, now, gate, items, outcome.rows, goes, reply);
  }

  /** What becomes of the items of a batch: rows and tags, or a failed insert. */
  predicate Done(items: seq<Item>, goes: bool, reply: Reply, inserted: bool, tagKeys: seq<string>, outcome: Outcome) {
    match outcome
    case Written(result, rows, tags) =>
      (inserted || items == []) && RowsFrom(items, rows, goes, reply) && result == CountsOf(rows) && |rows| == |items|
      && tags == Tags(rows, items, tagKeys)
    case Unavailable(rows) => !inserted && items != [] && RowsFrom(items, rows, goes, reply) && |rows| == |items|
    case _ => false
  }

  /** The phases from clustering on. */
  method Process(items: seq<Item>, client: ClusterClient, reply: Reply, inserted: bool, tagKeys: seq<string>)
    returns (outcome: Outcome)
    requires client.Valid()
    modifies client
    ensures client.Valid() && Done(items, old(client.GoesOut()), reply, inserted, tagKeys, outcome)
  {
    if |items| == 0 {
      return Written(Counts(0, 0, 0, 0), [], []);
    }
    var counts, rows := Enrich(items, client, reply);
    if !inserted {
      return Unavailable(rows);
    }
    var tags := ExtractTags(rows, items, tagKeys);
    outcome := Written(counts, rows, tags);
  }

  /** Clustering and building rows. */
  method Enrich(items: seq<Item>, client: ClusterClient, reply: Reply) returns (counts: Counts, rows: seq<Row>)
    requires client.Valid()
    modifies client
    ensures client.Valid() && RowsFrom(items, rows, old(client.GoesOut()), reply)
    ensures |rows| == |items| && counts == CountsOf(rows)
  {
    var messages := seq(|items|, i requires 0 <= i < |items| => items[i].parsed.message);
    var results := client.Cluster(messages, reply);
    rows, counts := BuildRows(items, results);
  }

  // ------------------------------------------------------------- whose rows these are

  /** The event parses, and its level passes. */
  predicate Passes(e: Raw, gate: string -> bool) { e.parsed.Some? && gate(e.parsed.value.level) }

  ghost predicate Rising(origin: seq<nat>) { forall i, j :: 0 <= i < j < |origin| ==> origin[i] < origin[j] }

  /** What an item has of its event: the parse, and the event's time or that of ingest. */
  ghost predicate IsItemOf(item: Item, e: Raw, now: string) {
    && e.parsed == Some(item.parsed) && item.raw == e
    && item.timestamp == match e.stamp case At(time) => time case _ => now
  }

  /** What a row has of its event. */
  predicate IsRowOf(row: Row, e: Raw, now: string) {
    && e.parsed.Some? && row.eventId == e.id
    && row.service == e.parsed.value.service && row.level == Upper(e.parsed.value.level)
    && (row.template.templateId == UNCLUSTERED ==> row.message == Some(e.parsed.value.message))
    && (row.template.templateId != UNCLUSTERED ==> row.message == None)
    && row.timestamp == match e.stamp case At(time) => time case _ => now
  }

  /** The rows are those of the events that parse and pass, and of no other, each once and
      in their order. */
  ghost predicate Stores(events: seq<Raw>, now: string, gate: string -> bool, rows: seq<Row>, origin: seq<nat>) {
    && |origin| == |rows| && Rising(origin)
    && (forall j: nat :: j in origin <==> j < |events| && Passes(events[j], gate))
    && forall i :: 0 <= i < |rows| ==> origin[i] < |events| && IsRowOf(rows[i], events[origin[i]], now)
  }

  ghost predicate IsStored(events: seq<Raw>, now: string, gate: string -> bool, rows: seq<Row>) {
    exists origin :: Stores(events, now, gate, rows, origin)
  }

  /** The items that are kept are those of the events that parse and pass. */
  ghost predicate Keeps(events: seq<Raw>, now: string, gate: string -> bool, items: seq<Item>, origin: seq<nat>) {
    && |origin| == |items| && Rising(origin)
    && (forall j: nat :: j in origin <==> j < |events| && Passes(events[j], gate))
    && forall i :: 0 <= i < |items| ==> origin[i] < |events| && IsItemOf(items[i], events[origin[i]], now)
  }

  lemma {:induction false} KeptAre(events: seq<Raw>, now: string, gate: string -> bool) returns (origin: seq<nat>)
    ensures Keeps(events, now, gate, Gated(Items(events, now), gate), origin)
  {
    origin := [];
    if events != [] {
      var n := |events| - 1;
      var most, e := events[..n], events[n];
      var before := KeptAre(most, now, gate);
      var items, all := Gated(Items(most, now), gate), Gated(Items(events, now), gate);
      GatedLast(most, e, events, now, gate, items, all);
      KeepsMore(most, e, events, now, gate, items, before);
      if Passes(e, gate) {
        origin := before + [n];
      } else {
        origin := before;
        assert all == items;
      }
    }
  }

  /** One more event. */
  lemma KeepsMore(most: seq<Raw>, e: Raw, events: seq<Raw>, now: string, gate: string -> bool, items: seq<Item>,
        origin: seq<nat>)
    requires events == most + [e] && Keeps(most, now, gate, items, origin)
    ensures if Passes(e, gate) then Keeps(events, now, gate, items + [ItemOf(e, now)], origin + [|most|])
            else Keeps(events, now, gate, items, origin)
  {
    assert forall i :: 0 <= i < |origin| ==> origin[i] in origin;
    assert forall j: nat :: j in origin + [|most|] <==> j in origin || j == |most|;
  }

  /** What the gate makes of one more event. */
  lemma GatedLast(most: seq<Raw>, e: Raw, events: seq<Raw>, now: string, gate: string -> bool, before: seq<Item>,
        after: seq<Item>)
    requires events == most + [e] && before == Gated(Items(most, now), gate) && after == Gated(Items(events, now), gate)
    ensures after == before + if Passes(e, gate) then [ItemOf(e, now)] else []
  {
    var items := Items(most, now);
    assert events[..|most|] == most;
    if e.parsed.Some? {
      assert (items + [ItemOf(e, now)])[..|items|] == items;
    } else {
      assert items + [] == items && Gated(items, gate) + [] == Gated(items, gate);
    }
  }

  lemma RowsAreStored(events: seq<Raw>, now: string, gate: string -> bool, items: seq<Item>, rows: seq<Row>,
        goes: bool, reply: Reply)
    requires items == Gated(Items(events, now), gate) && RowsFrom(items, rows, goes, reply) && |rows| == |items|
    ensures IsStored(events, now, gate, rows)
  {
    var origin := KeptAre(events, now, gate);
    forall i | 0 <= i < |rows| ensures IsRowOf(rows[i], events[origin[i]], now) {
      assert IsItemOf(items[i], events[origin[i]], now);
    }
    assert Stores(events, now, gate, rows, origin);
  }

  /** Which event an item came from: the `i`-th that parses. */
  function Origin(events: seq<Raw>, i: nat): nat {
    if events == [] then 0
    else
      var most := events[..|events| - 1];
      if i < |Items(most, "")| then Origin(most, i) else |most|
  }

  lemma {:induction false} ItemsKeepCount(events: seq<Raw>, now: string, later: string)
    ensures |Items(events, now)| == |Items(events, later)|
  {
    if events != [] {
      ItemsKeepCount(events[..|events| - 1], now, later);
    }
  }

  /** An item is the parse of its own event, and items keep the order of their events. */
  lemma {:induction false} ItemIsItsEvent(events: seq<Raw>, now: string, i: nat)
    requires i < |Items(events, now)|
    ensures Origin(events, i) < |events|
    ensures Items(events, now)[i].raw == events[Origin(events, i)]
    ensures events[Origin(events, i)].parsed == Some(Items(events, now)[i].parsed)
    ensures i > 0 ==> Origin(events, i - 1) < Origin(events, i)
  {
    var most := events[..|events| - 1];
    ItemsKeepCount(most, now, "");
    if i < |Items(most, now)| {
      ItemIsItsEvent(most, now, i);
    } else if i > 0 {
      ItemIsItsEvent(most, now, i - 1);
    }
  }
}
