/**
 * LogEventHelpers.cs: level mapping and the well-known properties
 * ("EventId", "SourceContext") read from a Serilog log event.
 */
module LogEventHelpers {
  import opened Wrappers
  import opened Events
  import opened Dictionaries
  import opened PropertyConverter

  /** Serilog's `LogEventLevel`: a C# enum, so any 32-bit value can be cast to it. */
  newtype LogEventLevel = x: int | -0x8000_0000 <= x < 0x8000_0000 {
    static const Verbose: LogEventLevel := 0
    static const Debug: LogEventLevel := 1
    static const Information: LogEventLevel := 2
    static const Warning: LogEventLevel := 3
    static const Error: LogEventLevel := 4
    static const Fatal: LogEventLevel := 5
  }

  /** Microsoft.Extensions.Logging's `LogLevel`. */
  newtype LogLevel = x: int | -0x8000_0000 <= x < 0x8000_0000 {
    static const Trace: LogLevel := 0
    static const Debug: LogLevel := 1
    static const Information: LogLevel := 2
    static const Warning: LogLevel := 3
    static const Error: LogLevel := 4
    static const Critical: LogLevel := 5
    static const None: LogLevel := 6
  }

  /**
   * `ToLogLevel`: the six defined levels map one to one, keeping their order
   * (Fatal becomes Critical); any other value throws.
   */
  function ToLogLevel(logEventLevel: LogEventLevel): (r: Result<LogLevel, Exception>)
    ensures r.Success? <==> LogEventLevel.Verbose <= logEventLevel <= LogEventLevel.Fatal
    ensures r.Success? ==> r.value as int == logEventLevel as int
    ensures r.Success? ==> LogLevel.Trace <= r.value <= LogLevel.Critical
    ensures r.Failure? ==> r.error == ArgumentOutOfRange("logEventLevel", Some(logEventLevel as int))
  {
    if logEventLevel == LogEventLevel.Verbose then Success(LogLevel.Trace)
    else if logEventLevel == LogEventLevel.Debug then Success(LogLevel.Debug)
    else if logEventLevel == LogEventLevel.Information then Success(LogLevel.Information)
    else if logEventLevel == LogEventLevel.Warning then Success(LogLevel.Warning)
    else if logEventLevel == LogEventLevel.Error then Success(LogLevel.Error)
    else if logEventLevel == LogEventLevel.Fatal then Success(LogLevel.Critical)
    else Failure(ArgumentOutOfRange("logEventLevel", Some(logEventLevel as int)))
  }

  /** Microsoft.Extensions.Logging's `EventId`. */
  datatype EventId = EventId(id: int, name: Option<string>)

  /** The "Name" of an event id structure: the first property so named, when it holds a string. */
  function EventName(ps: seq<LogEventProperty>): Option<string> {
    match FirstNamed(ps, "Name")
    case Some(LogEventProperty(_, Scalar(Str(s)))) => Some(s)
    case _ => None
  }

  /**
   * `GetEventId`: present only when "EventId" is a structure whose first "Id"
   * property is a 32-bit integer scalar.
   */
  function GetEventId(properties: EventProperties): (r: Option<EventId>)
    ensures "EventId" !in KeySet(properties) ==> r.None?
    ensures r.Some? <==>
              && Lookup(properties, "EventId").Some?
              && Lookup(properties, "EventId").value.Structure?
              && var first := FirstNamed(Lookup(properties, "EventId").value.properties, "Id");
                 && first.Some?
                 && first.value.value.Scalar?
                 && first.value.value.obj.Integral?
                 && first.value.value.obj.kind == Int32
    ensures r.Some? ==>
              && Lookup(properties, "EventId").Some?
              && Lookup(properties, "EventId").value.Structure?
              && var ps := Lookup(properties, "EventId").value.properties;
                 && (exists i :: 0 <= i < |ps| && ps[i] == LogEventProperty("Id", Scalar(Integral(Int32, r.value.id)))
                                  && forall j :: 0 <= j < i ==> ps[j].name != "Id")
                 && r.value.name == EventName(ps)
  {
    match Lookup<PropertyValue>(properties, "EventId")
    case Some(Structure(_, ps)) =>
      (match FirstNamed(ps, "Id")
       case Some(LogEventProperty(_, Scalar(Integral(Int32, id)))) => Some(EventId(id, EventName(ps)))
       case _ => None)
    case _ => None
  }

  /**
   * How Serilog's logging provider records an `EventId` on the event: a
   * structure with "Id" when it is non-zero and "Name" when it is set.
   */
  function EventIdProperty(e: EventId): PropertyValue {
    Structure(None,
      (if e.id != 0 then [LogEventProperty("Id", Scalar(Integral(Int32, e.id)))] else [])
      + (if e.name.Some? then [LogEventProperty("Name", Scalar(Str(e.name.value)))] else []))
  }

  /** The structure the logging provider records reads back as the id and name it was made from. */
  lemma EventIdStructureReadsBack(e: EventId)
    requires e.id != 0
    ensures var ps := EventIdProperty(e).properties;
            && FirstNamed(ps, "Id") == Some(LogEventProperty("Id", Scalar(Integral(Int32, e.id))))
            && EventName(ps) == e.name
  {
    var ps := EventIdProperty(e).properties;
    assert ps[0] == LogEventProperty("Id", Scalar(Integral(Int32, e.id)));
    if e.name.Some? {
      var name := LogEventProperty("Name", Scalar(Str(e.name.value)));
      assert ps[1..] == [name];
      assert FirstNamed(ps[1..], "Name") == Some(name);
      assert FirstNamed(ps, "Name") == Some(name);
    } else {
      assert ps[1..] == [];
    }
  }

  /** Reading back an event id the logging provider recorded gives the same id and name. */
  lemma EventIdRoundTrip(properties: EventProperties, e: EventId)
    requires e.id != 0
    ensures var recorded: EventProperties := Put(properties, "EventId", EventIdProperty(e));
            GetEventId(recorded) == Some(e)
  {
    var recorded: EventProperties := Put(properties, "EventId", EventIdProperty(e));
    assert Lookup(recorded, "EventId") == Some(EventIdProperty(e));
    EventIdStructureReadsBack(e);
  }

  /**
   * With two "Id" properties, `GetEventId` takes the first, while the
   * converted dictionary keeps the last.
   */
  lemma DuplicateIdExample()
    ensures var structure := Structure(None, [LogEventProperty("Id", Scalar(Integral(Int32, 1))),
                                              LogEventProperty("Id", Scalar(Integral(Int32, 2)))]);
            && GetEventId([KeyValuePair("EventId", structure)]) == Some(EventId(1, None))
            && Lookup(DictionaryOf(structure), "Id") == Some(ClrScalar(Integral(Int32, 2)))
  {
    var ps := [LogEventProperty("Id", Scalar(Integral(Int32, 1))), LogEventProperty("Id", Scalar(Integral(Int32, 2)))];
    var structure := Structure(None, ps);
    var properties: EventProperties := [KeyValuePair("EventId", structure)];
    assert Lookup(properties, "EventId") == Some(structure);
    assert FirstNamed(ps, "Id") == Some(ps[0]);
    assert ps[1..][1..] == [];
    assert EventName(ps) == None;
    assert LastNamed(ps, "Id") == Some(ps[1]);
    DictionaryLookup(structure, "Id");
  }

  /** `GetSourceContext`: the "SourceContext" property when it is a string scalar. */
  function GetSourceContext(properties: EventProperties): (r: Option<string>)
    ensures r.Some? ==> Lookup(properties, "SourceContext") == Some(Scalar(Str(r.value)))
    ensures r.None? <==> !(Lookup(properties, "SourceContext").Some?
                          && Lookup(properties, "SourceContext").value.Scalar?
                          && Lookup(properties, "SourceContext").value.obj.Str?)
  {
    match Lookup<PropertyValue>(properties, "SourceContext")
    case Some(Scalar(Str(sourceContext))) => Some(sourceContext)
    case _ => None
  }

  /** A source context recorded as a string property is read back unchanged. */
  lemma SourceContextRoundTrip(properties: EventProperties, context: string)
    ensures var recorded: EventProperties := Put(properties, "SourceContext", Scalar(Str(context)));
            GetSourceContext(recorded) == Some(context)
  {
  }
}
