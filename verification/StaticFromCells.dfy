/** What a static load leaves in the tables, stated from the cells of the feed's files alone. */
module StaticFromCells {
  import opened Basics
  import opened ChunkedUpsert
  import opened StaticFeed
  import opened StaticLoad

  // ---------------------------------------------------------------- cells

  predicate Blank(r: Record, column: string) {
    column in r ==> r[column] == ""
  }

  ghost predicate TextIs(r: Record, column: string, v: string) {
    column in r && v == r[column]
  }

  ghost predicate OptionalTextIs(r: Record, column: string, v: Option<string>) {
    if Blank(r, column) then v == None else v == Some(r[column])
  }

  ghost predicate DefaultedTextIs(r: Record, column: string, default_: string, v: string) {
    if Blank(r, column) then v == default_ else v == r[column]
  }

  ghost predicate IntIs(p: Parsers, r: Record, column: string, v: int) {
    column in r && p.toInt(r[column]) == Some(v)
  }

  ghost predicate OptionalIntIs(p: Parsers, r: Record, column: string, v: Option<int>) {
    if Blank(r, column) then v == None else v.Some? && p.toInt(r[column]) == v
  }

  ghost predicate FloatIs(p: Parsers, r: Record, column: string, v: real) {
    !Blank(r, column) && p.toFloat(r[column]) == Some(v)
  }

  ghost predicate OptionalFloatIs(p: Parsers, r: Record, column: string, v: Option<real>) {
    if Blank(r, column) then v == None else v.Some? && p.toFloat(r[column]) == v
  }

  ghost predicate DateIs(p: Parsers, r: Record, column: string, v: int) {
    column in r && p.toDate(r[column]) == Some(v)
  }

  ghost predicate TimeIs(p: Parsers, r: Record, column: string, seconds: int) {
    column in r && exists hh, mm, ss :: ReadsAs(p, r[column], hh, mm, ss, seconds)
  }

  ghost predicate AllSpace(s: string) {
    forall i :: 0 <= i < |s| ==> s[i] in " \t\r\n"
  }

  ghost predicate PaddedOne(text: string, before: string, after: string) {
    text == before + "1" + after && AllSpace(before) && AllSpace(after)
  }

  /** True exactly for a 1 with nothing but white space around it. */
  ghost predicate FlagIs(r: Record, column: string, v: bool) {
    column in r && (v <==> exists before, after :: PaddedOne(r[column], before, after))
  }

  lemma {:induction false} StripIsOne(s: string)
    ensures Strip(s) == "1" <==> exists before, after :: PaddedOne(s, before, after)
    decreases |s|
  {
    if s == "" {
      forall before, after
        ensures !PaddedOne(s, before, after)
      {
        assert |before + "1" + after| > 0;
      }
    } else if s[0] in " \t\r\n" {
      StripIsOne(s[1..]);
      StripFront(s);
    } else if s[|s| - 1] in " \t\r\n" {
      StripIsOne(s[..|s| - 1]);
      StripBack(s, s[..|s| - 1]);
    } else {
      StripNothing(s);
    }
  }

  lemma EndsOf(before: string, after: string)
    ensures var s := before + "1" + after;
            && s[0] == (if before == "" then '1' else before[0])
            && s[|s| - 1] == (if after == "" then '1' else after[|after| - 1])
  {
  }

  lemma StripFront(s: string)
    requires s != "" && s[0] in " \t\r\n"
    ensures (exists before, after :: PaddedOne(s, before, after))
            <==> exists before, after :: PaddedOne(s[1..], before, after)
  {
    if before, after :| PaddedOne(s, before, after) {
      EndsOf(before, after);
      assert s[1..] == before[1..] + "1" + after;
      assert PaddedOne(s[1..], before[1..], after);
    }
    if before, after :| PaddedOne(s[1..], before, after) {
      assert s == [s[0]] + s[1..];
      assert s == ([s[0]] + before) + "1" + after;
      assert PaddedOne(s, [s[0]] + before, after);
    }
  }

  lemma StripBack(s: string, shorter: string)
    requires s != "" && s[|s| - 1] in " \t\r\n" && shorter == s[..|s| - 1]
    ensures (exists before, after :: PaddedOne(s, before, after))
            <==> exists before, after :: PaddedOne(shorter, before, after)
  {
    var n := |s| - 1;
    if before, after :| PaddedOne(s, before, after) {
      EndsOf(before, after);
      assert shorter == before + "1" + after[..|after| - 1];
      assert PaddedOne(shorter, before, after[..|after| - 1]);
    }
    if before, after :| PaddedOne(shorter, before, after) {
      assert s == shorter + [s[n]];
      assert s == before + "1" + (after + [s[n]]);
      assert PaddedOne(s, before, after + [s[n]]);
    }
  }

  lemma StripNothing(s: string)
    requires s != "" && s[0] !in " \t\r\n" && s[|s| - 1] !in " \t\r\n"
    ensures s == "1" <==> exists before, after :: PaddedOne(s, before, after)
  {
    if s == "1" {
      assert PaddedOne(s, "", "");
    }
    if before, after :| PaddedOne(s, before, after) {
      EndsOf(before, after);
    }
  }

  lemma FlagReads(r: Record, column: string)
    ensures forall v :: Flag(r, column) == Some(v) <==> FlagIs(r, column, v)
  {
    hide Strip, PaddedOne;
    if column in r {
      StripIsOne(r[column]);
    }
  }

  lemma TimeReads(p: Parsers, r: Record, column: string)
    ensures forall v :: RequiredHms(p, r, column) == Some(v) <==> TimeIs(p, r, column, v)
  {
    hide Hms, ReadsAs;
    forall v
      ensures RequiredHms(p, r, column) == Some(v) <==> TimeIs(p, r, column, v)
    {
      if column in r {
        HmsIff(p, r[column], v);
      }
    }
  }

  // ---------------------------------------------------------------- rows

  ghost predicate IsAgency(r: Record, row: Row<string, Agency>) {
    && DefaultedTextIs(r, "agency_id", "default", row.0)
    && DefaultedTextIs(r, "agency_name", "Unknown Agency", row.1.name)
    && OptionalTextIs(r, "agency_url", row.1.url)
    && DefaultedTextIs(r, "agency_timezone", "Australia/Brisbane", row.1.timezone)
  }

  ghost predicate IsRoute(p: Parsers, r: Record, row: Row<string, Route>) {
    && TextIs(r, "route_id", row.0) && DefaultedTextIs(r, "agency_id", "default", row.1.agency)
    && OptionalTextIs(r, "route_short_name", row.1.shortName) && OptionalTextIs(r, "route_long_name", row.1.longName)
    && (if Blank(r, "route_type") then row.1.kind == 3 else IntIs(p, r, "route_type", row.1.kind))
    && OptionalTextIs(r, "route_color", row.1.color) && OptionalTextIs(r, "route_text_color", row.1.textColor)
  }

  ghost predicate IsStop(p: Parsers, r: Record, row: Row<string, Stop>) {
    && TextIs(r, "stop_id", row.0) && TextIs(r, "stop_name", row.1.name)
    && FloatIs(p, r, "stop_lat", row.1.lat) && FloatIs(p, r, "stop_lon", row.1.lon)
    && OptionalTextIs(r, "stop_code", row.1.code) && OptionalTextIs(r, "stop_desc", row.1.description)
    && OptionalIntIs(p, r, "location_type", row.1.locationType)
    && OptionalTextIs(r, "parent_station", row.1.parent) && OptionalTextIs(r, "platform_code", row.1.platform)
  }

  /** A coordinate is blank and the other one, if there, can be read. */
  ghost predicate StopSkipped(p: Parsers, r: Record) {
    && (Blank(r, "stop_lat") || Blank(r, "stop_lon"))
    && (Blank(r, "stop_lat") || p.toFloat(r["stop_lat"]).Some?)
    && (Blank(r, "stop_lon") || p.toFloat(r["stop_lon"]).Some?)
  }

  ghost predicate IsTrip(p: Parsers, r: Record, row: Row<string, Trip>) {
    && TextIs(r, "trip_id", row.0) && TextIs(r, "route_id", row.1.route) && TextIs(r, "service_id", row.1.service)
    && OptionalTextIs(r, "trip_headsign", row.1.headsign) && OptionalTextIs(r, "trip_short_name", row.1.shortName)
    && OptionalIntIs(p, r, "direction_id", row.1.direction)
    && OptionalTextIs(r, "block_id", row.1.block) && OptionalTextIs(r, "shape_id", row.1.shape)
  }

  ghost predicate IsService(p: Parsers, r: Record, row: Row<string, Service>) {
    && TextIs(r, "service_id", row.0) && |row.1.days| == 7
    && FlagIs(r, "monday", row.1.days[0]) && FlagIs(r, "tuesday", row.1.days[1])
    && FlagIs(r, "wednesday", row.1.days[2]) && FlagIs(r, "thursday", row.1.days[3])
    && FlagIs(r, "friday", row.1.days[4]) && FlagIs(r, "saturday", row.1.days[5])
    && FlagIs(r, "sunday", row.1.days[6])
    && DateIs(p, r, "start_date", row.1.start) && DateIs(p, r, "end_date", row.1.end)
  }

  ghost predicate IsException(p: Parsers, r: Record, row: Row<ServiceDay, int>) {
    TextIs(r, "service_id", row.0.0) && DateIs(p, r, "date", row.0.1) && IntIs(p, r, "exception_type", row.1)
  }

  ghost predicate IsStopTime(p: Parsers, r: Record, row: Row<TripStop, StopTime>) {
    && !Blank(r, "arrival_time") && !Blank(r, "departure_time")
    && TextIs(r, "trip_id", row.0.0) && IntIs(p, r, "stop_sequence", row.0.1) && TextIs(r, "stop_id", row.1.stop)
    && TimeIs(p, r, "arrival_time", row.1.arrival) && TimeIs(p, r, "departure_time", row.1.departure)
    && OptionalIntIs(p, r, "pickup_type", row.1.pickup) && OptionalIntIs(p, r, "drop_off_type", row.1.dropOff)
    && OptionalFloatIs(p, r, "shape_dist_traveled", row.1.distance)
  }

  ghost predicate StopTimeSkipped(r: Record) {
    Blank(r, "arrival_time") || Blank(r, "departure_time")
  }

  lemma AgencyReads(r: Record, row: Row<string, Agency>)
    ensures AgencyOf(r) == Some(Some(row)) <==> IsAgency(r, row)
    ensures AgencyOf(r) != Some(None)
  {
  }

  lemma RouteReads(p: Parsers, r: Record, row: Row<string, Route>)
    ensures RouteOf(p, r) == Some(Some(row)) <==> IsRoute(p, r, row)
    ensures RouteOf(p, r) != Some(None)
  {
  }

  lemma StopReads(p: Parsers, r: Record, row: Row<string, Stop>)
    ensures StopOf(p, r) == Some(Some(row)) <==> IsStop(p, r, row)
    ensures StopOf(p, r) == Some(None) <==> StopSkipped(p, r)
  {
  }

  lemma TripReads(p: Parsers, r: Record, row: Row<string, Trip>)
    ensures TripOf(p, r) == Some(Some(row)) <==> IsTrip(p, r, row)
    ensures TripOf(p, r) != Some(None)
  {
  }

  lemma ServiceReads(p: Parsers, r: Record, row: Row<string, Service>)
    ensures ServiceOf(p, r) == Some(Some(row)) <==> IsService(p, r, row)
    ensures ServiceOf(p, r) != Some(None)
  {
    hide Flag, FlagIs;
    FlagReads(r, "monday");
    FlagReads(r, "tuesday");
    FlagReads(r, "wednesday");
    FlagReads(r, "thursday");
    FlagReads(r, "friday");
    FlagReads(r, "saturday");
    FlagReads(r, "sunday");
    if IsService(p, r, row) {
      var d := row.1.days;
      assert d == [d[0], d[1], d[2], d[3], d[4], d[5], d[6]];
    }
  }

  lemma ExceptionReads(p: Parsers, r: Record, row: Row<ServiceDay, int>)
    ensures ExceptionOf(p, r) == Some(Some(row)) <==> IsException(p, r, row)
    ensures ExceptionOf(p, r) != Some(None)
  {
  }

  lemma StopTimeReads(p: Parsers, r: Record, row: Row<TripStop, StopTime>)
    ensures StopTimeOf(p, r) == Some(Some(row)) <==> IsStopTime(p, r, row)
    ensures StopTimeOf(p, r) == Some(None) <==> StopTimeSkipped(r)
  {
    hide RequiredHms, TimeIs;
    TimeReads(p, r, "arrival_time");
    TimeReads(p, r, "departure_time");
  }

  // ---------------------------------------------------------------- files and tables

  /** Some record reads as a row with this key. */
  ghost predicate KeyRead<K, V(!new)>(records: seq<Record>, reads_: (Record, Row<K, V>) -> bool, k: K) {
    exists i, v :: ReadAt(records, reads_, i, (k, v))
  }

  ghost predicate ReadAt<K, V>(records: seq<Record>, reads_: (Record, Row<K, V>) -> bool, i: int, row: Row<K, V>) {
    0 <= i < |records| && reads_(records[i], row)
  }

  /** Record i reads as this row, and no later one as a row with the same key. */
  ghost predicate LastRead<K, V(!new)>(records: seq<Record>, reads_: (Record, Row<K, V>) -> bool, i: int,
                                       row: Row<K, V>)
  {
    ReadAt(records, reads_, i, row) && forall j, v :: i < j ==> !ReadAt(records, reads_, j, (row.0, v))
  }

  /** The table holds, for each key read, the last row read for it, and the old rows for all other keys. */
  ghost predicate Filled<K(!new), V(!new)>(before: map<K, V>, records: seq<Record>, reads_: (Record, Row<K, V>) -> bool,
                                           after: map<K, V>)
  {
    && (forall k :: k in after <==> k in before || KeyRead(records, reads_, k))
    && (forall i, row :: LastRead(records, reads_, i, row) ==> row.0 in after && after[row.0] == row.1)
    && (forall k :: k in before && !KeyRead(records, reads_, k) ==> k in after && after[k] == before[k])
  }

  ghost predicate ParsesAs<K(!new), V(!new)>(parse: Record -> Parsed<Row<K, V>>, reads_: (Record, Row<K, V>) -> bool) {
    forall r, row :: parse(r) == Some(Some(row)) <==> reads_(r, row)
  }

  lemma {:induction false} LastKept<K(!new), V(!new)>(records: seq<Record>, parse: Record -> Parsed<Row<K, V>>,
                                                      reads_: (Record, Row<K, V>) -> bool, i: int, row: Row<K, V>)
    returns (a: nat)
    requires ParsesAs(parse, reads_) && Collect(records, parse).Some? && LastRead(records, reads_, i, row)
    ensures var rows := Collect(records, parse).value;
            a < |rows| && rows[a] == row && forall b :: a < b < |rows| ==> rows[b].0 != row.0
    decreases |records|
  {
    var n := |records| - 1;
    var before := Collect(records[..n], parse).value;
    assert parse(records[n]).Some?;
    if i == n {
      assert parse(records[n]) == Some(Some(row));
      a := |before|;
    } else {
      assert ReadAt(records[..n], reads_, i, row);
      forall j, v | i < j
        ensures !ReadAt(records[..n], reads_, j, (row.0, v))
      {
        assert !ReadAt(records, reads_, j, (row.0, v));
      }
      a := LastKept(records[..n], parse, reads_, i, row);
      if parse(records[n]).value.Some? {
        var last := parse(records[n]).value.value;
        assert reads_(records[n], last) && last == (last.0, last.1);
        assert !ReadAt(records, reads_, n, (row.0, last.1));
      }
    }
  }

  lemma KeyCollected<K(!new), V(!new)>(records: seq<Record>, parse: Record -> Parsed<Row<K, V>>,
                                       reads_: (Record, Row<K, V>) -> bool, k: K)
    requires ParsesAs(parse, reads_) && Collect(records, parse).Some?
    ensures Mentions(Collect(records, parse).value, k) <==> KeyRead(records, reads_, k)
  {
    hide Collect;
    CollectIsExact(records, parse);
    var rows := Collect(records, parse).value;
    if Mentions(rows, k) {
      var a :| 0 <= a < |rows| && rows[a].0 == k;
      assert rows[a] in rows;
      var i :| 0 <= i < |records| && parse(records[i]) == Some(Some(rows[a]));
      assert rows[a] == (k, rows[a].1);
      assert ReadAt(records, reads_, i, (k, rows[a].1));
    }
    if KeyRead(records, reads_, k) {
      var i, v :| ReadAt(records, reads_, i, (k, v));
      assert parse(records[i]) == Some(Some((k, v)));
      YieldsAt(records, parse, i);
      assert (k, v) in rows;
      var a :| 0 <= a < |rows| && rows[a] == (k, v);
    }
  }

  lemma OverrideFills<K(!new), V(!new)>(before: map<K, V>, records: seq<Record>, parse: Record -> Parsed<Row<K, V>>,
                                        reads_: (Record, Row<K, V>) -> bool)
    requires ParsesAs(parse, reads_) && Collect(records, parse).Some?
    ensures Filled(before, records, reads_, Override(before, Collect(records, parse).value))
  {
    hide Collect, Override, KeyRead, LastRead, Mentions, ParsesAs;
    var rows := Collect(records, parse).value;
    var after := Override(before, rows);
    forall k
      ensures k in after <==> k in before || KeyRead(records, reads_, k)
      ensures k in before && !KeyRead(records, reads_, k) ==> k in after && after[k] == before[k]
    {
      OverrideOrigin(before, rows, k);
      KeyCollected(records, parse, reads_, k);
    }
    forall i, row | LastRead(records, reads_, i, row)
      ensures row.0 in after && after[row.0] == row.1
    {
      var a := LastKept(records, parse, reads_, i, row);
      OverrideLast(before, rows, a);
    }
  }

  /** Every record reads as a row or is one to be left out. */
  ghost predicate Readable<K(!new), V(!new)>(records: seq<Record>, reads_: (Record, Row<K, V>) -> bool,
                                             skipped: Record -> bool)
  {
    forall i :: 0 <= i < |records| ==> skipped(records[i]) || exists row :: reads_(records[i], row)
  }

  lemma CollectReadable<K(!new), V(!new)>(records: seq<Record>, parse: Record -> Parsed<Row<K, V>>,
                                          reads_: (Record, Row<K, V>) -> bool, skipped: Record -> bool)
    requires ParsesAs(parse, reads_) && forall r :: parse(r) == Some(None) <==> skipped(r)
    ensures Collect(records, parse).Some? <==> Readable(records, reads_, skipped)
  {
    hide Collect;
    CollectIsExact(records, parse);
    forall i | 0 <= i < |records|
      ensures parse(records[i]).Some? <==> skipped(records[i]) || exists row :: reads_(records[i], row)
    {
      if parse(records[i]).Some? && parse(records[i]).value.Some? {
        assert reads_(records[i], parse(records[i]).value.value);
      }
      if row :| reads_(records[i], row) {
        assert parse(records[i]) == Some(Some(row));
      }
    }
  }

  /** The rows collected are exactly the rows read. */
  lemma CollectMembers<K(!new), V(!new)>(records: seq<Record>, parse: Record -> Parsed<Row<K, V>>,
                                         reads_: (Record, Row<K, V>) -> bool)
    requires ParsesAs(parse, reads_) && Collect(records, parse).Some?
    ensures forall row :: row in Collect(records, parse).value <==> exists i :: ReadAt(records, reads_, i, row)
  {
    hide Collect;
    CollectIsExact(records, parse);
    forall row
      ensures Yields(records, parse, row) <==> exists i :: ReadAt(records, reads_, i, row)
    {
      if Yields(records, parse, row) {
        var i :| 0 <= i < |records| && parse(records[i]) == Some(Some(row));
        assert ReadAt(records, reads_, i, row);
      }
      if i :| ReadAt(records, reads_, i, row) {
        assert parse(records[i]) == Some(Some(row));
      }
    }
  }

  ghost function AgencyReader(): (Record, Row<string, Agency>) -> bool { (r, row) => IsAgency(r, row) }

  ghost function RouteReader(p: Parsers): (Record, Row<string, Route>) -> bool { (r, row) => IsRoute(p, r, row) }

  ghost function StopReader(p: Parsers): (Record, Row<string, Stop>) -> bool { (r, row) => IsStop(p, r, row) }

  ghost function TripReader(p: Parsers): (Record, Row<string, Trip>) -> bool { (r, row) => IsTrip(p, r, row) }

  ghost function ServiceReader(p: Parsers): (Record, Row<string, Service>) -> bool { (r, row) => IsService(p, r, row) }

  ghost function ExceptionReader(p: Parsers): (Record, Row<ServiceDay, int>) -> bool {
    (r, row) => IsException(p, r, row)
  }

  ghost function StopTimeReader(p: Parsers): (Record, Row<TripStop, StopTime>) -> bool {
    (r, row) => IsStopTime(p, r, row)
  }

  ghost function Never(): Record -> bool { r => false }

  ghost function StopSkipper(p: Parsers): Record -> bool { r => StopSkipped(p, r) }

  ghost function StopTimeSkipper(): Record -> bool { r => StopTimeSkipped(r) }

  lemma AgencyParses()
    ensures ParsesAs(AgencyOf, AgencyReader()) && forall r :: AgencyOf(r) == Some(None) <==> Never()(r)
  {
    forall r, row
      ensures AgencyOf(r) == Some(Some(row)) <==> AgencyReader()(r, row)
      ensures AgencyOf(r) != Some(None)
    {
      AgencyReads(r, row);
    }
  }

  lemma RouteParses(p: Parsers)
    ensures ParsesAs(RouteParser(p), RouteReader(p)) && forall r :: RouteParser(p)(r) == Some(None) <==> Never()(r)
  {
    hide RouteOf, IsRoute;
    forall r, row
      ensures RouteParser(p)(r) == Some(Some(row)) <==> RouteReader(p)(r, row)
    {
      RouteReads(p, r, row);
    }
    forall r
      ensures RouteParser(p)(r) != Some(None)
    {
      var row: Row<string, Route> :| true;
      RouteReads(p, r, row);
    }
  }

  lemma StopParses(p: Parsers)
    ensures ParsesAs(StopParser(p), StopReader(p))
    ensures forall r :: StopParser(p)(r) == Some(None) <==> StopSkipper(p)(r)
  {
    hide StopOf, IsStop, StopSkipped;
    forall r, row
      ensures StopParser(p)(r) == Some(Some(row)) <==> StopReader(p)(r, row)
    {
      StopReads(p, r, row);
    }
    forall r
      ensures StopParser(p)(r) == Some(None) <==> StopSkipper(p)(r)
    {
      var row: Row<string, Stop> :| true;
      StopReads(p, r, row);
    }
  }

  lemma TripParses(p: Parsers)
    ensures ParsesAs(TripParser(p), TripReader(p)) && forall r :: TripParser(p)(r) == Some(None) <==> Never()(r)
  {
    hide TripOf, IsTrip;
    forall r, row
      ensures TripParser(p)(r) == Some(Some(row)) <==> TripReader(p)(r, row)
    {
      TripReads(p, r, row);
    }
    forall r
      ensures TripParser(p)(r) != Some(None)
    {
      var row: Row<string, Trip> :| true;
      TripReads(p, r, row);
    }
  }

  lemma ServiceParses(p: Parsers)
    ensures ParsesAs(ServiceParser(p), ServiceReader(p))
    ensures forall r :: ServiceParser(p)(r) == Some(None) <==> Never()(r)
  {
    hide ServiceOf, IsService;
    forall r, row
      ensures ServiceParser(p)(r) == Some(Some(row)) <==> ServiceReader(p)(r, row)
    {
      ServiceReads(p, r, row);
    }
    forall r
      ensures ServiceParser(p)(r) != Some(None)
    {
      var row: Row<string, Service> :| true;
      ServiceReads(p, r, row);
    }
  }

  lemma ExceptionParses(p: Parsers)
    ensures ParsesAs(ExceptionParser(p), ExceptionReader(p))
    ensures forall r :: ExceptionParser(p)(r) == Some(None) <==> Never()(r)
  {
    hide ExceptionOf, IsException;
    forall r, row
      ensures ExceptionParser(p)(r) == Some(Some(row)) <==> ExceptionReader(p)(r, row)
    {
      ExceptionReads(p, r, row);
    }
    forall r
      ensures ExceptionParser(p)(r) != Some(None)
    {
      var row: Row<ServiceDay, int> :| true;
      ExceptionReads(p, r, row);
    }
  }

  lemma StopTimeParses(p: Parsers)
    ensures ParsesAs(StopTimeParser(p), StopTimeReader(p))
    ensures forall r :: StopTimeParser(p)(r) == Some(None) <==> StopTimeSkipper()(r)
  {
    hide StopTimeOf, IsStopTime, StopTimeSkipped;
    forall r, row
      ensures StopTimeParser(p)(r) == Some(Some(row)) <==> StopTimeReader(p)(r, row)
    {
      StopTimeReads(p, r, row);
    }
    forall r
      ensures StopTimeParser(p)(r) == Some(None) <==> StopTimeSkipper()(r)
    {
      var row: Row<TripStop, StopTime> :| true;
      StopTimeReads(p, r, row);
    }
  }

  // ---------------------------------------------------------------- a whole load

  /** Every file that must be there is, and every row of every file can be read. */
  ghost predicate FeedReadable(p: Parsers, frames: Frames) {
    && {"agency.txt", "routes.txt", "stops.txt", "trips.txt", "stop_times.txt", "calendar.txt"} <= frames.Keys
    && Readable(frames["agency.txt"], AgencyReader(), Never())
    && Readable(frames["routes.txt"], RouteReader(p), Never())
    && Readable(frames["stops.txt"], StopReader(p), StopSkipper(p))
    && Readable(frames["trips.txt"], TripReader(p), Never())
    && Readable(frames["calendar.txt"], ServiceReader(p), Never())
    && ("calendar_dates.txt" in frames ==> Readable(frames["calendar_dates.txt"], ExceptionReader(p), Never()))
    && Readable(frames["stop_times.txt"], StopTimeReader(p), StopTimeSkipper())
  }

  /** What the rows of the feed make of each table. */
  ghost predicate TablesFilled(p: Parsers, before: Db, frames: Frames, after: Db)
    requires {"agency.txt", "routes.txt", "stops.txt", "trips.txt", "stop_times.txt", "calendar.txt"} <= frames.Keys
  {
    && Filled(before.agencies, frames["agency.txt"], AgencyReader(), after.agencies)
    && Filled(before.routes, frames["routes.txt"], RouteReader(p), after.routes)
    && Filled(before.stops, frames["stops.txt"], StopReader(p), after.stops)
    && Filled(before.trips, frames["trips.txt"], TripReader(p), after.trips)
    && Filled(before.calendar, frames["calendar.txt"], ServiceReader(p), after.calendar)
    && (if "calendar_dates.txt" in frames
        then Filled(before.exceptions, frames["calendar_dates.txt"], ExceptionReader(p), after.exceptions)
        else after.exceptions == before.exceptions)
    && Filled(map[], frames["stop_times.txt"], StopTimeReader(p), after.stopTimes)
  }

  /** A feed's rows exist exactly if all its cells can be read. */
  lemma RowsReadableIff(p: Parsers, frames: Frames)
    ensures RowsOf(p, frames).Some? <==> FeedReadable(p, frames)
  {
    hide Collect, Readable, ParsesAs, RouteParser, StopParser, TripParser, ServiceParser, ExceptionParser,
      StopTimeParser, AgencyReader, RouteReader, StopReader, TripReader, ServiceReader, ExceptionReader,
      StopTimeReader, Never, StopSkipper, StopTimeSkipper;
    if REQUIRED_FILES <= frames.Keys {
      AgencyParses();
      CollectReadable(frames["agency.txt"], AgencyOf, AgencyReader(), Never());
      RouteParses(p);
      CollectReadable(frames["routes.txt"], RouteParser(p), RouteReader(p), Never());
      StopParses(p);
      CollectReadable(frames["stops.txt"], StopParser(p), StopReader(p), StopSkipper(p));
      TripParses(p);
      CollectReadable(frames["trips.txt"], TripParser(p), TripReader(p), Never());
      ServiceParses(p);
      CollectReadable(frames["calendar.txt"], ServiceParser(p), ServiceReader(p), Never());
      if "calendar_dates.txt" in frames {
        ExceptionParses(p);
        CollectReadable(frames["calendar_dates.txt"], ExceptionParser(p), ExceptionReader(p), Never());
      }
      StopTimeParses(p);
      CollectReadable(frames["stop_times.txt"], StopTimeParser(p), StopTimeReader(p), StopTimeSkipper());
    }
  }

  /** After a successful load every table holds, for each key of its file, the cells of the last row read
      for it; other keys keep their row, except in stop_times, which has no others. */
  lemma LoadFollowsCells(p: Parsers, db: Db, frames: Frames)
    requires Loaded(p, db, frames).Ok?
    ensures FeedReadable(p, frames) && TablesFilled(p, db, frames, Loaded(p, db, frames).value)
  {
    hide Loaded, Loadable, Collect, ParsesAs, Override, Filled, RowsOf, FeedReadable, RouteParser, StopParser,
      TripParser, ServiceParser, ExceptionParser, StopTimeParser, AgencyReader, RouteReader, StopReader, TripReader,
      ServiceReader, ExceptionReader, StopTimeReader;
    LoadsIff(p, db, frames);
    RowsReadableIff(p, frames);
    RowsOfFeed(p, frames);
    AgencyParses();
    OverrideFills(db.agencies, frames["agency.txt"], AgencyOf, AgencyReader());
    RouteParses(p);
    OverrideFills(db.routes, frames["routes.txt"], RouteParser(p), RouteReader(p));
    StopParses(p);
    OverrideFills(db.stops, frames["stops.txt"], StopParser(p), StopReader(p));
    TripParses(p);
    OverrideFills(db.trips, frames["trips.txt"], TripParser(p), TripReader(p));
    ServiceParses(p);
    OverrideFills(db.calendar, frames["calendar.txt"], ServiceParser(p), ServiceReader(p));
    if "calendar_dates.txt" in frames {
      ExceptionParses(p);
      OverrideFills(db.exceptions, frames["calendar_dates.txt"], ExceptionParser(p), ExceptionReader(p));
    } else {
      NoOverride(db.exceptions);
    }
    StopTimeParses(p);
    OverrideFills(map[], frames["stop_times.txt"], StopTimeParser(p), StopTimeReader(p));
  }

  lemma NoOverride<K, V>(table: map<K, V>)
    ensures Override(table, []) == table
  {
  }
}
