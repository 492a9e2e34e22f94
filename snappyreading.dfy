/**
 * The back end's response to a "reading" message
 * (`aws-iot-backend/lambda/snappy_reading.py`): the reading is recorded in
 * the sending device's history, and if an actuator at the device's
 * location controls the same factor and the reading is off its ideal, a
 * command is sent to that actuator and recorded in its history.
 *
 * The database is a `Database` object holding the three tables as maps
 * from their keys; fetching a history record gives a fresh `HistoryEntry`
 * and writing one stores its value.  The MQTT publication is left to the
 * caller: the handler returns the messages to publish.
 */
module SnappyReading {
  import opened Wrappers
  import opened SnappyData

  // ------------------------------------------------------------ str.split

  /** `s.split(sep)` in Python: the pieces between separators, at least one. */
  function Split(s: string, sep: char): (parts: seq<string>)
    ensures |parts| >= 1
    decreases |s|
  {
    if s == [] then [""]
    else
      var rest := Split(s[1..], sep);
      if s[0] == sep then [""] + rest else [[s[0]] + rest[0]] + rest[1..]
  }

  /** `sep.join(parts)`. */
  function Join(parts: seq<string>, sep: char): string
    requires |parts| >= 1
  {
    if |parts| == 1 then parts[0] else parts[0] + [sep] + Join(parts[1..], sep)
  }

  /** Splitting loses nothing: joining the pieces with the separator gives back the string, and no piece holds a separator. */
  lemma {:induction false} SplitJoin(s: string, sep: char)
    ensures Join(Split(s, sep), sep) == s
    ensures forall i :: 0 <= i < |Split(s, sep)| ==> sep !in Split(s, sep)[i]
    decreases |s|
  {
    if s != [] {
      var rest := Split(s[1..], sep);
      SplitJoin(s[1..], sep);
      if s[0] == sep {
        assert ([""] + rest)[1..] == rest;
        assert s == [s[0]] + s[1..];
      } else {
        var parts := [[s[0]] + rest[0]] + rest[1..];
        if |rest| == 1 {
          assert s == [s[0]] + rest[0];
        } else {
          assert parts[1..] == rest[1..];
          assert Join(rest, sep) == rest[0] + [sep] + Join(rest[1..], sep);
          assert s == [s[0]] + s[1..];
        }
        forall i | 0 <= i < |parts|
          ensures sep !in parts[i]
        {
          if i > 0 {
            assert parts[i] == rest[i];
          }
        }
      }
    }
  }

  /** A string without the separator splits into itself alone. */
  lemma {:induction false} SplitWhole(a: string, sep: char)
    requires sep !in a
    ensures Split(a, sep) == [a]
    decreases |a|
  {
    if a != [] {
      SplitWhole(a[1..], sep);
      assert a == [a[0]] + a[1..];
    }
  }

  /** The piece before the first separator comes off first. */
  lemma {:induction false} SplitAt(a: string, b: string, sep: char)
    requires sep !in a
    ensures Split(a + [sep] + b, sep) == [a] + Split(b, sep)
    decreases |a|
  {
    var s := a + [sep] + b;
    if a == [] {
      assert s[1..] == b;
    } else {
      assert s[1..] == a[1..] + [sep] + b;
      SplitAt(a[1..], b, sep);
      assert [s[0]] + a[1..] == a;
    }
  }

  // ------------------------------------------------------------- the ideal

  /** `idealfns`: the ideal functions known, with their arity. */
  const IdealFns: map<string, nat> := map["constant" := 1]

  /** `idealfn_constant`. */
  function IdealConstant(c: int): int { c }

  /**
   * `evaluate_ideal`: the ideal function's name and arguments are the
   * pieces of the string between slashes; an unknown name or a wrong number
   * of arguments has no ideal, and an argument that is not a numeral raises
   * `ValueError`.
   */
  function EvaluateIdeal(idealfn: string): (r: Result<Option<int>, Exception>)
    ensures r == Ok(None) <==>
      (Split(idealfn, '/')[0] !in IdealFns || IdealFns[Split(idealfn, '/')[0]] != |Split(idealfn, '/')| - 1)
  {
    var parts := Split(idealfn, '/');
    var fname := parts[0];
    var args := parts[1..];
    if fname !in IdealFns then Ok(None)
    else if IdealFns[fname] != |args| then Ok(None)
    else if |args| == 1 then
      match PyInt(args[0])
      case Err(e) => Err(e)
      case Ok(c) => Ok(Some(IdealConstant(c)))
    else Ok(None)
  }

  /** `evaluate_ideal("constant/N")` is N. */
  lemma ConstantIdeal(n: int)
    ensures EvaluateIdeal("constant/" + Str(n)) == Ok(Some(n))
  {
    var s := Str(n);
    assert '/' !in s by {
      if n < 0 {
        assert s == "-" + Bytes.Decimal(-n);
      }
    }
    assert "constant/" + s == "constant" + ['/'] + s;
    SplitAt("constant", s, '/');
    SplitWhole(s, '/');
    IntOfStr(n);
  }

  /** An ideal function whose one argument is not a numeral raises. */
  lemma BadArgumentRaises(arg: string)
    requires '/' !in arg && PyInt(arg).Err?
    ensures EvaluateIdeal("constant/" + arg) == Err(ValueError)
  {
    assert "constant/" + arg == "constant" + ['/'] + arg;
    SplitAt("constant", arg, '/');
    SplitWhole(arg, '/');
  }

  // ------------------------------------------------------------ the tables

  /** The three tables the handler uses, keyed by location and by device. */
  datatype Tables = Tables(locations: map<string, Location>, devices: map<string, Device>, histories: map<string, History>)

  /** Every history record is stored under its own device. */
  predicate Keyed(t: Tables) {
    forall k :: k in t.histories ==> t.histories[k].device == k
  }

  /** The MQTT payload of a command to an actuator. */
  datatype Outgoing = Outgoing(factor: string, reading: int, ideal: int)

  /** A message to publish: `[topic, payload, qos]`. */
  datatype Response = Response(topic: string, payload: Outgoing, qos: int)

  /** The history once a reading has been recorded in it. */
  function Recorded(h: History, time: string, factor: string, reading: int): History {
    h.(lastContact := time, readings := AddTo(h.readings, factor, Reading(time, reading), MaxFactorHistory))
  }

  /** The history once an action has been recorded in it. */
  function Acted(h: History, time: string, factor: string, reading: int, ideal: int): History {
    h.(lastContact := time, actions := AddTo(h.actions, factor, Action(time, reading, ideal), MaxActionHistory))
  }

  /** A device that is on record and not disabled. */
  predicate Enabled(t: Tables, device: string) {
    device in t.devices && !DeviceIsDisabled(t.devices[device])
  }

  /** What `record_timestamp_and_reading` returns, and the tables it leaves. */
  function RecordSpec(t: Tables, device: string, time: string, factor: string, reading: int): (Option<Device>, Tables) {
    if !Enabled(t, device) || device !in t.histories then (None, t)
    else (Some(t.devices[device]), t.(histories := t.histories[device := Recorded(t.histories[device], time, factor, reading)]))
  }

  /** What `trigger_actuator_if_necessary` returns, and the tables it leaves. */
  function TriggerSpec(t: Tables, location: string, time: string, factor: string, last: int): (Result<seq<Response>, Exception>, Tables) {
    if location !in t.locations then (Ok([]), t)
    else
      match FirstActuator(t.locations[location].actuators, factor)
      case None => (Ok([]), t)
      case Some(a) =>
        match EvaluateIdeal(a.idealfn)
        case Err(e) => (Err(e), t)
        case Ok(None) => (Ok([]), t)
        case Ok(Some(ideal)) =>
          if !Enabled(t, a.device) || a.device !in t.histories || ideal == last then (Ok([]), t)
          else
            (Ok([Response("snappy/control/" + t.devices[a.device].deviceClass + "/" + a.device, Outgoing(factor, last, ideal), 1)]),
             t.(histories := t.histories[a.device := Acted(t.histories[a.device], time, factor, last, ideal)]))
  }

  /** A "reading" message. */
  datatype Event = Event(device: string, deviceClass: string, time: string, factor: string, reading: int)

  /** What `handle_reading_event` returns, and the tables it leaves. */
  function HandleSpec(t: Tables, e: Event): (Result<seq<Response>, Exception>, Tables) {
    var (entry, t1) := RecordSpec(t, e.device, e.time, e.factor, e.reading);
    if entry.None? then (Ok([]), t1)
    else TriggerSpec(t1, entry.value.location, e.time, e.factor, e.reading)
  }

  // --------------------------------------------------- what the specs mean

  /** A reading from a device that is unknown, disabled or without history changes nothing and sends nothing. */
  lemma IgnoredReading(t: Tables, e: Event)
    requires !Enabled(t, e.device) || e.device !in t.histories
    ensures HandleSpec(t, e) == (Ok([]), t)
  {
  }

  /**
   * A recorded reading touches the sending device's history only: its last
   * contact is the reading's time and the reading is the newest of its
   * factor.
   */
  lemma RecordedReading(t: Tables, device: string, time: string, factor: string, reading: int)
    requires Enabled(t, device) && device in t.histories
    ensures var t' := RecordSpec(t, device, time, factor, reading).1;
      var h := t'.histories[device];
      var k := IndexOfFactor(t.histories[device].readings, factor);
      && t'.locations == t.locations && t'.devices == t.devices
      && t'.histories.Keys == t.histories.Keys
      && (forall d :: d in t.histories && d != device ==> t'.histories[d] == t.histories[d])
      && h.lastContact == time && h.actions == t.histories[device].actions
      && h.readings[k].factor == factor && h.readings[k].last[0] == Reading(time, reading)
  {
    AddToMeaning(t.histories[device].readings, factor, Reading(time, reading), MaxFactorHistory);
  }

  /**
   * An actuator is commanded, at most once, only when its ideal differs
   * from the reading: the command carries the reading and the ideal, goes
   * to the actuator's control topic with QoS 1, and is recorded as the
   * newest action of the actuator's history, which is the only record that
   * changes.  Without a command no record changes.
   */
  lemma TriggerActsOnDifference(t: Tables, location: string, time: string, factor: string, last: int)
    ensures var (r, t') := TriggerSpec(t, location, time, factor, last);
      && t'.locations == t.locations && t'.devices == t.devices
      && (r.Ok? ==> |r.value| <= 1)
      && (r.Err? ==> t' == t)
      && (r == Ok([]) ==> t' == t)
      && (r.Ok? && |r.value| == 1 ==>
            && location in t.locations
            && var a := FirstActuator(t.locations[location].actuators, factor).value;
            && EvaluateIdeal(a.idealfn) == Ok(Some(r.value[0].payload.ideal))
            && r.value[0].payload == Outgoing(factor, last, r.value[0].payload.ideal)
            && r.value[0].payload.ideal != last
            && r.value[0].qos == 1
            && Enabled(t, a.device) && a.device in t.histories
            && r.value[0].topic == "snappy/control/" + t.devices[a.device].deviceClass + "/" + a.device
            && (forall d :: d in t.histories && d != a.device ==> t'.histories[d] == t.histories[d])
            && var k := IndexOfFactor(t.histories[a.device].actions, factor);
            && t'.histories[a.device].actions[k].last[0] == Action(time, last, r.value[0].payload.ideal))
  {
    var (r, t') := TriggerSpec(t, location, time, factor, last);
    if r.Ok? && |r.value| == 1 {
      var a := FirstActuator(t.locations[location].actuators, factor).value;
      var ideal := r.value[0].payload.ideal;
      AddToMeaning(t.histories[a.device].actions, factor, Action(time, last, ideal), MaxActionHistory);
    }
  }

  /**
   * A reading from an enabled device whose location has an actuator for
   * the factor with the ideal function "constant/N" commands that actuator
   * exactly when the reading is not N.
   */
  lemma ConstantActuator(t: Tables, e: Event, n: int)
    requires Enabled(t, e.device) && e.device in t.histories
    requires t.devices[e.device].location in t.locations
    requires var a := FirstActuator(t.locations[t.devices[e.device].location].actuators, e.factor);
      a.Some? && a.value.idealfn == "constant/" + Str(n) && Enabled(t, a.value.device) && a.value.device in t.histories
    ensures var a := FirstActuator(t.locations[t.devices[e.device].location].actuators, e.factor).value;
      HandleSpec(t, e).0 == Ok(if e.reading == n then []
        else [Response("snappy/control/" + t.devices[a.device].deviceClass + "/" + a.device, Outgoing(e.factor, e.reading, n), 1)])
  {
    ConstantIdeal(n);
  }

  /** Both specs keep every history record under its own device. */
  lemma SpecsKeepKeys(t: Tables, e: Event)
    requires Keyed(t)
    ensures Keyed(RecordSpec(t, e.device, e.time, e.factor, e.reading).1)
    ensures Keyed(HandleSpec(t, e).1)
  {
    var t1 := RecordSpec(t, e.device, e.time, e.factor, e.reading).1;
    if RecordSpec(t, e.device, e.time, e.factor, e.reading).0.Some? {
      var loc := RecordSpec(t, e.device, e.time, e.factor, e.reading).0.value.location;
      TriggerKeepsKeys(t1, loc, e.time, e.factor, e.reading);
    }
  }

  lemma TriggerKeepsKeys(t: Tables, location: string, time: string, factor: string, last: int)
    requires Keyed(t)
    ensures Keyed(TriggerSpec(t, location, time, factor, last).1)
  {
  }

  // ------------------------------------------------------------ the database

  class Database {
    var locations: map<string, Location>
    var devices: map<string, Device>
    var histories: map<string, History>

    function Contents(): Tables
      reads this
    {
      Tables(locations, devices, histories)
    }

    predicate Valid()
      reads this
    {
      Keyed(Contents())
    }

    constructor (t: Tables)
      requires Keyed(t)
      ensures Valid() && Contents() == t
    {
      locations, devices, histories := t.locations, t.devices, t.histories;
    }

    /** `get_history_entry`: a fresh copy of the device's history record, or none. */
    method GetHistoryEntry(device: string) returns (h: HistoryEntry?)
      ensures h == null <==> device !in histories
      ensures h != null ==> fresh(h) && h.Value() == histories[device]
    {
      if device !in histories {
        return null;
      }
      h := new HistoryEntry(histories[device]);
    }

    /** `write_history_entry`: the record is stored under its device. */
    method WriteHistoryEntry(h: HistoryEntry)
      modifies this
      ensures Contents() == old(Contents()).(histories := old(histories)[h.device := h.Value()])
    {
      histories := histories[h.device := h.Value()];
    }
  }

  /** `record_timestamp_and_reading`. */
  method RecordTimestampAndReading(db: Database, device: string, time: string, factor: string, reading: int)
    returns (entry: Option<Device>)
    requires db.Valid()
    modifies db
    ensures db.Valid()
    ensures (entry, db.Contents()) == RecordSpec(old(db.Contents()), device, time, factor, reading)
  {
    if device !in db.devices || DeviceIsDisabled(db.devices[device]) {
      return None;
    }
    var h := db.GetHistoryEntry(device);
    if h == null {
      return None;
    }
    h.SetLastContact(time);
    h.AddReading(factor, time, reading);
    db.WriteHistoryEntry(h);
    entry := Some(db.devices[device]);
  }

  /** `trigger_actuator_if_necessary`. */
  method TriggerActuatorIfNecessary(db: Database, location: string, time: string, factor: string, last: int)
    returns (r: Result<seq<Response>, Exception>)
    requires db.Valid()
    modifies db
    ensures db.Valid()
    ensures (r, db.Contents()) == TriggerSpec(old(db.Contents()), location, time, factor, last)
  {
    if location !in db.locations {
      return Ok([]);
    }
    var found := FindActuatorDevice(db.locations[location], factor);
    if found.None? {
      return Ok([]);
    }
    var (device, idealfn) := found.value;
    var ideal := EvaluateIdeal(idealfn);
    if ideal.Err? {
      return Err(ideal.error);
    }
    if ideal.value.None? {
      return Ok([]);
    }
    if device !in db.devices || DeviceIsDisabled(db.devices[device]) {
      return Ok([]);
    }
    var h := db.GetHistoryEntry(device);
    if h == null {
      return Ok([]);
    }
    if ideal.value.value == last {
      return Ok([]);
    }
    var outgoing := Outgoing(factor, last, ideal.value.value);
    h.AddAction(factor, time, last, ideal.value.value);
    h.SetLastContact(time);
    db.WriteHistoryEntry(h);
    var deviceClass := db.devices[device].deviceClass;
    r := Ok([Response("snappy/control/" + deviceClass + "/" + device, outgoing, 1)]);
  }

  /** `handle_reading_event`: record the reading, then trigger the actuator at the device's location. */
  method HandleReadingEvent(db: Database, e: Event) returns (r: Result<seq<Response>, Exception>)
    requires db.Valid()
    modifies db
    ensures db.Valid()
    ensures (r, db.Contents()) == HandleSpec(old(db.Contents()), e)
  {
    var entry := RecordTimestampAndReading(db, e.device, e.time, e.factor, e.reading);
    if entry.None? {
      return Ok([]);
    }
    r := TriggerActuatorIfNecessary(db, entry.value.location, e.time, e.factor, e.reading);
  }
}
