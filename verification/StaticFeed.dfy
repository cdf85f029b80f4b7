/** Rows of a decoded GTFS archive and what each table makes of them. */
module StaticFeed {
  import opened Basics
  import opened ChunkedUpsert

  /** A CSV row: the cells of the columns the file has. */
  type Record = map<string, string>

  /** File name to rows, as the archive was parsed. */
  type Frames = map<string, seq<Record>>

  const REQUIRED_FILES := {"agency.txt", "routes.txt", "stops.txt", "trips.txt", "stop_times.txt", "calendar.txt"}

  /** int, float and strptime(..., "%Y%m%d"); None where they raise. */
  datatype Parsers = Parsers(toInt: string -> Option<int>, toFloat: string -> Option<real>,
                             toDate: string -> Option<int>)

  datatype Agency = Agency(name: string, url: Option<string>, timezone: string)

  datatype Route = Route(agency: string, shortName: Option<string>, longName: Option<string>, kind: int,
                         color: Option<string>, textColor: Option<string>)

  datatype Stop = Stop(code: Option<string>, name: string, description: Option<string>, lat: real, lon: real,
                       locationType: Option<int>, parent: Option<string>, platform: Option<string>)

  datatype Trip = Trip(route: string, service: string, headsign: Option<string>, shortName: Option<string>,
                       direction: Option<int>, block: Option<string>, shape: Option<string>)

  datatype Service = Service(days: seq<bool>, start: int, end: int)

  datatype StopTime = StopTime(stop: string, arrival: int, departure: int, pickup: Option<int>,
                               dropOff: Option<int>, distance: Option<real>)

  type ServiceDay = (string, int)
  type TripStop = (string, int)

  // ---------------------------------------------------------------- cells

  /** row.get(column), with a missing column read as blank: both are falsy. */
  function Cell(r: Record, column: string): string {
    if column in r then r[column] else ""
  }

  function CellOr(r: Record, column: string, default_: string): string {
    if Cell(r, column) != "" then Cell(r, column) else default_
  }

  function OrNone(r: Record, column: string): Option<string> {
    if Cell(r, column) != "" then Some(r[column]) else None
  }

  /** row[column]: a missing column raises. */
  function Required(r: Record, column: string): Option<string> {
    if column in r then Some(r[column]) else None
  }

  function OptionalInt(p: Parsers, r: Record, column: string): Option<Option<int>> {
    if Cell(r, column) == "" then Some(None)
    else
      var x :- p.toInt(Cell(r, column));
      Some(Some(x))
  }

  function OptionalFloat(p: Parsers, r: Record, column: string): Option<Option<real>> {
    if Cell(r, column) == "" then Some(None)
    else
      var x :- p.toFloat(Cell(r, column));
      Some(Some(x))
  }

  function RequiredInt(p: Parsers, r: Record, column: string): Option<int> {
    var text :- Required(r, column);
    p.toInt(text)
  }

  function RequiredDate(p: Parsers, r: Record, column: string): Option<int> {
    var text :- Required(r, column);
    p.toDate(text)
  }

  /** str.strip() on blanks and tabs. */
  function Strip(s: string): string
    decreases |s|
  {
    if s == "" then s
    else if s[0] in " \t\r\n" then Strip(s[1..])
    else if s[|s| - 1] in " \t\r\n" then Strip(s[..|s| - 1])
    else s
  }

  /** _to_bool of a required column. */
  function Flag(r: Record, column: string): Option<bool> {
    var text :- Required(r, column);
    Some(Strip(text) == "1")
  }

  /** value.split(":") */
  function Split(s: string): (parts: seq<string>)
    ensures |parts| > 0
  {
    if s == "" then [""]
    else
      var rest := Split(s[1..]);
      if s[0] == ':' then [""] + rest else [[s[0]] + rest[0]] + rest[1..]
  }

  lemma {:induction false} SplitFirst(field: string, rest: string)
    requires ':' !in field
    ensures Split(field + ":" + rest) == [field] + Split(rest)
  {
    var s := field + ":" + rest;
    if field == "" {
      assert s[1..] == rest;
    } else {
      SplitFirst(field[1..], rest);
      assert s[1..] == field[1..] + ":" + rest;
      assert s[0] == field[0] && [field[0]] + field[1..] == field;
    }
  }

  lemma {:induction false} SplitSingle(field: string)
    requires ':' !in field
    ensures Split(field) == [field]
  {
    if field != "" {
      SplitSingle(field[1..]);
      assert [field[0]] + field[1..] == field;
    }
  }

  /** _hms_to_interval, in seconds. */
  function Hms(p: Parsers, value: string): Option<int> {
    var parts := Split(value);
    if |parts| != 3 then None
    else
      var hh :- p.toInt(parts[0]);
      var mm :- p.toInt(parts[1]);
      var ss :- p.toInt(parts[2]);
      Some(3600 * hh + 60 * mm + ss)
  }

  function Join3(a: string, b: string, c: string): string {
    a + ":" + b + ":" + c
  }

  lemma SplitOfJoin(a: string, b: string, c: string)
    requires ':' !in a && ':' !in b && ':' !in c
    ensures Split(Join3(a, b, c)) == [a, b, c]
  {
    SplitFirst(a, b + ":" + c);
    SplitFirst(b, c);
    SplitSingle(c);
    assert Join3(a, b, c) == a + ":" + (b + ":" + c);
  }

  /** The text behind the first colon is split on its own. */
  lemma {:induction false} SplitHead(s: string)
    ensures ':' !in Split(s)[0]
    ensures |Split(s)| == 1 ==> s == Split(s)[0]
    ensures |Split(s)| > 1 ==> |Split(s)[0]| < |s| && s == Split(s)[0] + ":" + s[|Split(s)[0]| + 1..]
                               && Split(s[|Split(s)[0]| + 1..]) == Split(s)[1..]
  {
    if s != "" && s[0] != ':' {
      SplitHead(s[1..]);
      assert s == [s[0]] + s[1..];
      if |Split(s)| > 1 {
        var k := |Split(s[1..])[0]|;
        assert s[1..][k + 1..] == s[k + 2..];
      }
    }
  }

  lemma JoinOfSplit(s: string)
    requires |Split(s)| == 3
    ensures var p := Split(s); s == Join3(p[0], p[1], p[2]) && ':' !in p[0] && ':' !in p[1] && ':' !in p[2]
  {
    hide Split;
    var p := Split(s);
    SplitHead(s);
    var rest := s[|p[0]| + 1..];
    assert Split(rest) == p[1..] && Split(rest)[0] == p[1];
    SplitHead(rest);
    SplitHead(rest[|p[1]| + 1..]);
    assert p[1..][1..] == [p[2]];
    assert s == p[0] + ":" + (p[1] + ":" + p[2]);
  }

  /** value is hh:mm:ss, its three fields read as integers. */
  ghost predicate ReadsAs(p: Parsers, value: string, hh: string, mm: string, ss: string, seconds: int) {
    && value == Join3(hh, mm, ss) && ':' !in hh && ':' !in mm && ':' !in ss
    && p.toInt(hh).Some? && p.toInt(mm).Some? && p.toInt(ss).Some?
    && seconds == 3600 * p.toInt(hh).value + 60 * p.toInt(mm).value + p.toInt(ss).value
  }

  /** A text is a time exactly if it consists of three fields between two colons that all read as
      integers, with no bound on any of them; every other text raises. */
  lemma HmsIff(p: Parsers, value: string, seconds: int)
    ensures Hms(p, value) == Some(seconds) <==> exists hh, mm, ss :: ReadsAs(p, value, hh, mm, ss, seconds)
  {
    if Hms(p, value) == Some(seconds) {
      JoinOfSplit(value);
      assert ReadsAs(p, value, Split(value)[0], Split(value)[1], Split(value)[2], seconds);
    }
    if hh, mm, ss :| ReadsAs(p, value, hh, mm, ss, seconds) {
      SplitOfJoin(hh, mm, ss);
    }
  }

  function RequiredHms(p: Parsers, r: Record, column: string): Option<int> {
    var text :- Required(r, column);
    Hms(p, text)
  }

  // ---------------------------------------------------------------- rows; None raises, Some(None) is skipped

  type Parsed<T> = Option<Option<T>>

  function AgencyOf(r: Record): Parsed<Row<string, Agency>> {
    Some(Some((CellOr(r, "agency_id", "default"),
               Agency(CellOr(r, "agency_name", "Unknown Agency"), OrNone(r, "agency_url"),
                      CellOr(r, "agency_timezone", "Australia/Brisbane")))))
  }

  function RouteOf(p: Parsers, r: Record): Parsed<Row<string, Route>> {
    var id :- Required(r, "route_id");
    var kind :- OptionalInt(p, r, "route_type");
    Some(Some((id, Route(CellOr(r, "agency_id", "default"), OrNone(r, "route_short_name"),
                         OrNone(r, "route_long_name"), if kind.Some? then kind.value else 3, OrNone(r, "route_color"),
                         OrNone(r, "route_text_color")))))
  }

  function StopOf(p: Parsers, r: Record): Parsed<Row<string, Stop>> {
    var lat :- OptionalFloat(p, r, "stop_lat");
    var lon :- OptionalFloat(p, r, "stop_lon");
    if lat.None? || lon.None? then Some(None)
    else
      var id :- Required(r, "stop_id");
      var name :- Required(r, "stop_name");
      var locationType :- OptionalInt(p, r, "location_type");
      Some(Some((id, Stop(OrNone(r, "stop_code"), name, OrNone(r, "stop_desc"), lat.value, lon.value,
                          locationType, OrNone(r, "parent_station"), OrNone(r, "platform_code")))))
  }

  function TripOf(p: Parsers, r: Record): Parsed<Row<string, Trip>> {
    var id :- Required(r, "trip_id");
    var route :- Required(r, "route_id");
    var service :- Required(r, "service_id");
    var direction :- OptionalInt(p, r, "direction_id");
    Some(Some((id, Trip(route, service, OrNone(r, "trip_headsign"), OrNone(r, "trip_short_name"), direction,
                        OrNone(r, "block_id"), OrNone(r, "shape_id")))))
  }

  function ServiceOf(p: Parsers, r: Record): Parsed<Row<string, Service>> {
    var id :- Required(r, "service_id");
    var monday :- Flag(r, "monday");
    var tuesday :- Flag(r, "tuesday");
    var wednesday :- Flag(r, "wednesday");
    var thursday :- Flag(r, "thursday");
    var friday :- Flag(r, "friday");
    var saturday :- Flag(r, "saturday");
    var sunday :- Flag(r, "sunday");
    var start :- RequiredDate(p, r, "start_date");
    var end :- RequiredDate(p, r, "end_date");
    Some(Some((id, Service([monday, tuesday, wednesday, thursday, friday, saturday, sunday], start, end))))
  }

  function ExceptionOf(p: Parsers, r: Record): Parsed<Row<ServiceDay, int>> {
    var id :- Required(r, "service_id");
    var date :- RequiredDate(p, r, "date");
    var kind :- RequiredInt(p, r, "exception_type");
    Some(Some(((id, date), kind)))
  }

  function StopTimeOf(p: Parsers, r: Record): Parsed<Row<TripStop, StopTime>> {
    if Cell(r, "arrival_time") == "" || Cell(r, "departure_time") == "" then Some(None)
    else
      var trip :- Required(r, "trip_id");
      var sequence :- RequiredInt(p, r, "stop_sequence");
      var stop :- Required(r, "stop_id");
      var arrival :- RequiredHms(p, r, "arrival_time");
      var departure :- RequiredHms(p, r, "departure_time");
      var pickup :- OptionalInt(p, r, "pickup_type");
      var dropOff :- OptionalInt(p, r, "drop_off_type");
      var distance :- OptionalFloat(p, r, "shape_dist_traveled");
      Some(Some(((trip, sequence), StopTime(stop, arrival, departure, pickup, dropOff, distance))))
  }

  // ---------------------------------------------------------------- whole files

  /** The kept rows of a file in order, or None if any row raises. */
  function Collect<T>(records: seq<Record>, parse: Record -> Parsed<T>): Option<seq<T>>
    decreases |records|
  {
    if records == [] then Some([])
    else
      var n := |records| - 1;
      var before :- Collect(records[..n], parse);
      var row :- parse(records[n]);
      Some(if row.Some? then before + [row.value] else before)
  }

  ghost predicate Yields<T>(records: seq<Record>, parse: Record -> Parsed<T>, x: T) {
    exists i :: 0 <= i < |records| && parse(records[i]) == Some(Some(x))
  }

  lemma YieldsStep<T>(records: seq<Record>, parse: Record -> Parsed<T>, x: T)
    requires records != []
    ensures var n := |records| - 1;
            Yields(records, parse, x) <==> Yields(records[..n], parse, x) || parse(records[n]) == Some(Some(x))
  {
    var n := |records| - 1;
    if Yields(records[..n], parse, x) {
      var i :| 0 <= i < n && parse(records[..n][i]) == Some(Some(x));
      assert parse(records[i]) == Some(Some(x));
    }
    if i :| 0 <= i < n && parse(records[i]) == Some(Some(x)) {
      assert parse(records[..n][i]) == Some(Some(x));
    }
  }

  /** A file is readable exactly if no row raises, and the result holds exactly the rows not skipped. */
  lemma {:induction false} CollectIsExact<T(!new)>(records: seq<Record>, parse: Record -> Parsed<T>)
    ensures Collect(records, parse).Some? <==> forall i :: 0 <= i < |records| ==> parse(records[i]).Some?
    ensures Collect(records, parse).Some? ==>
              forall x :: x in Collect(records, parse).value <==> Yields(records, parse, x)
    decreases |records|
  {
    if records != [] {
      hide Yields;
      var n := |records| - 1;
      CollectIsExact(records[..n], parse);
      assert forall i :: 0 <= i < n ==> records[..n][i] == records[i];
      assert Collect(records, parse).Some? <==> Collect(records[..n], parse).Some? && parse(records[n]).Some?;
      forall x
        ensures Yields(records, parse, x) <==> Yields(records[..n], parse, x) || parse(records[n]) == Some(Some(x))
      {
        YieldsStep(records, parse, x);
      }
    }
  }

  lemma {:induction false} CollectFailsEarly<T>(records: seq<Record>, parse: Record -> Parsed<T>, i: nat)
    requires i < |records| && parse(records[i]).None?
    ensures Collect(records, parse).None?
    decreases |records|
  {
    var n := |records| - 1;
    if i < n {
      CollectFailsEarly(records[..n], parse, i);
    }
  }

  function RouteParser(p: Parsers): Record -> Parsed<Row<string, Route>> { r => RouteOf(p, r) }

  function StopParser(p: Parsers): Record -> Parsed<Row<string, Stop>> { r => StopOf(p, r) }

  function TripParser(p: Parsers): Record -> Parsed<Row<string, Trip>> { r => TripOf(p, r) }

  function ServiceParser(p: Parsers): Record -> Parsed<Row<string, Service>> { r => ServiceOf(p, r) }

  function ExceptionParser(p: Parsers): Record -> Parsed<Row<ServiceDay, int>> { r => ExceptionOf(p, r) }

  function StopTimeParser(p: Parsers): Record -> Parsed<Row<TripStop, StopTime>> { r => StopTimeOf(p, r) }

  /** The rows of every table, or None if a required file is missing or some row raises. */
  datatype Rows = Rows(agencies: seq<Row<string, Agency>>, routes: seq<Row<string, Route>>,
                       stops: seq<Row<string, Stop>>, trips: seq<Row<string, Trip>>,
                       calendar: seq<Row<string, Service>>, exceptions: seq<Row<ServiceDay, int>>,
                       stopTimes: seq<Row<TripStop, StopTime>>)

  function RowsOf(p: Parsers, frames: Frames): Option<Rows> {
    if !(REQUIRED_FILES <= frames.Keys) then None
    else
      var agencies :- Collect(frames["agency.txt"], AgencyOf);
      var routes :- Collect(frames["routes.txt"], RouteParser(p));
      var stops :- Collect(frames["stops.txt"], StopParser(p));
      var trips :- Collect(frames["trips.txt"], TripParser(p));
      var calendar :- Collect(frames["calendar.txt"], ServiceParser(p));
      var exceptions :-
        if "calendar_dates.txt" in frames then Collect(frames["calendar_dates.txt"], ExceptionParser(p)) else Some([]);
      var stopTimes :- Collect(frames["stop_times.txt"], StopTimeParser(p));
      Some(Rows(agencies, routes, stops, trips, calendar, exceptions, stopTimes))
  }
}
