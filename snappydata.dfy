/**
 * The database records of the SnappySense back end and the helpers that
 * read and update them (`aws-iot-backend/lambda/snappy_data.py`).
 *
 * DynamoDB items are nested maps of typed attributes; here each record is a
 * datatype with one field per attribute the helpers use, an attribute the
 * record may lack is an `Option`, and numbers that the records keep as
 * decimal strings are kept as the strings (`enabled`, `reading_interval`)
 * or, where the helpers only ever write `str(n)` and read `int(...)`
 * back, as the numbers, which `IntOfStr` justifies.
 */
module SnappyData {
  import opened Wrappers
  import opened Bytes

  /** Seconds between readings when a device record does not say. */
  const DefaultReadingInterval := 5

  /** Readings kept per factor per device. */
  const MaxFactorHistory := 10

  /** Actuator commands kept per factor per device. */
  const MaxActionHistory := 5

  /** The exception Python's `int` raises on a string that is not a numeral. */
  datatype Exception = ValueError

  // ------------------------------------------------------------ numerals

  predicate AllDigits(s: string) {
    |s| > 0 && forall i :: 0 <= i < |s| ==> IsDigit(s[i])
  }

  /** `int(s)` on a string: an optional sign and one or more decimal digits. */
  function PyInt(s: string): (r: Result<int, Exception>)
    ensures r.Ok? <==> AllDigits(s) || (|s| > 0 && (s[0] == '-' || s[0] == '+') && AllDigits(s[1..]))
  {
    if |s| > 0 && (s[0] == '-' || s[0] == '+') then
      var v: int := if AllDigits(s[1..]) then DigitsValue(s[1..]) else 0;
      if AllDigits(s[1..]) then Ok(if s[0] == '-' then -v else v)
      else Err(ValueError)
    else if AllDigits(s) then Ok(DigitsValue(s))
    else Err(ValueError)
  }

  /** `str(n)` of an integer. */
  function Str(n: int): string {
    if n < 0 then "-" + Decimal(-n) else Decimal(n)
  }

  /** `int(str(n)) == n`: the numbers the helpers write as strings read back unchanged. */
  lemma IntOfStr(n: int)
    ensures PyInt(Str(n)) == Ok(n)
  {
    if n < 0 {
      assert Str(n)[1..] == Decimal(-n);
      DecimalValue(-n);
    } else {
      DecimalValue(n);
    }
  }

  // ------------------------------------------------------------ locations

  /** An entry of a location's `actuators` list. */
  datatype Actuator = Actuator(factor: string, device: string, idealfn: string)

  datatype Location = Location(actuators: seq<Actuator>)

  /** The first actuator for `factor`, if any. */
  function FirstActuator(actuators: seq<Actuator>, factor: string): (r: Option<Actuator>)
    ensures r.None? <==> forall i :: 0 <= i < |actuators| ==> actuators[i].factor != factor
    ensures r.Some? ==> r.value in actuators && r.value.factor == factor
  {
    if actuators == [] then None
    else if actuators[0].factor == factor then Some(actuators[0])
    else FirstActuator(actuators[1..], factor)
  }

  /** The actuator found is the first one for `factor`: every actuator before it is for another factor. */
  lemma {:induction false} FirstActuatorIsFirst(actuators: seq<Actuator>, factor: string)
    ensures FirstActuator(actuators, factor).Some? ==>
      exists j :: 0 <= j < |actuators| && actuators[j] == FirstActuator(actuators, factor).value
        && forall k :: 0 <= k < j ==> actuators[k].factor != factor
  {
    if actuators != [] && actuators[0].factor != factor && FirstActuator(actuators, factor).Some? {
      FirstActuatorIsFirst(actuators[1..], factor);
      var j :| 0 <= j < |actuators| - 1 && actuators[1..][j] == FirstActuator(actuators[1..], factor).value
        && forall k :: 0 <= k < j ==> actuators[1..][k].factor != factor;
      assert actuators[j + 1] == actuators[1..][j];
      assert forall k :: 1 <= k < j + 1 ==> actuators[k] == actuators[1..][k - 1];
    } else if actuators != [] && actuators[0].factor == factor {
      assert actuators[0] == FirstActuator(actuators, factor).value;
    }
  }

  /** `find_actuator_device`: the device and ideal function of the first actuator for `factor`, or none. */
  method FindActuatorDevice(location: Location, factor: string) returns (r: Option<(string, string)>)
    ensures r == (match FirstActuator(location.actuators, factor)
                  case None => None
                  case Some(a) => Some((a.device, a.idealfn)))
  {
    var i := 0;
    while i < |location.actuators|
      invariant i <= |location.actuators|
      invariant FirstActuator(location.actuators, factor) == FirstActuator(location.actuators[i..], factor)
    {
      var a := location.actuators[i];
      if a.factor == factor {
        return Some((a.device, a.idealfn));
      }
      assert location.actuators[i..][1..] == location.actuators[i + 1..];
      i := i + 1;
    }
    return None;
  }

  // --------------------------------------------------------------- devices

  datatype Device = Device(deviceClass: string, location: string, enabled: Option<string>, readingInterval: Option<string>)

  /** `device_is_disabled`: only an `enabled` attribute that is the numeral "0" disables a device. */
  predicate DeviceIsDisabled(d: Device) {
    d.enabled == Some("0")
  }

  /** `device_reading_interval`: the record's interval, or the default when it has none. */
  function DeviceReadingInterval(d: Device): (r: Result<int, Exception>)
    ensures d.readingInterval.None? ==> r == Ok(DefaultReadingInterval)
    ensures d.readingInterval.Some? ==> r == PyInt(d.readingInterval.value)
  {
    if d.readingInterval.Some? then PyInt(d.readingInterval.value) else Ok(DefaultReadingInterval)
  }

  /** A device record is disabled exactly when it carries `enabled` with the value 0, so a record without it is enabled. */
  lemma DisabledMeans(d: Device)
    ensures DeviceIsDisabled(d) <==> d.enabled.Some? && PyInt(d.enabled.value) == Ok(0) && d.enabled.value == "0"
    ensures d.enabled.None? ==> !DeviceIsDisabled(d)
  {
    if d.enabled == Some("0") {
      assert DigitsValue("0") == 0 by {
        assert "0"[..0] == [];
      }
    }
  }

  // --------------------------------------------------------------- history

  datatype Reading = Reading(time: string, value: int)

  datatype Action = Action(time: string, reading: int, ideal: int)

  /** An entry of the `readings` or `actions` list: the factor and its latest items, newest first. */
  datatype Factor<T> = Factor(factor: string, last: seq<T>)

  /** A history record. */
  datatype History = History(device: string, lastContact: string, readings: seq<Factor<Reading>>, actions: seq<Factor<Action>>)

  /** `get_history_entry_or_create`'s record for a device without history. */
  function NewHistory(device: string): History {
    History(device, "", [], [])
  }

  /** The index of the first entry for `factor`, or the length when there is none. */
  function IndexOfFactor<T>(fs: seq<Factor<T>>, factor: string): (k: nat)
    ensures k <= |fs| && (k < |fs| ==> fs[k].factor == factor)
    ensures forall j :: 0 <= j < k ==> fs[j].factor != factor
  {
    if fs == [] then 0
    else if fs[0].factor == factor then 0
    else 1 + IndexOfFactor(fs[1..], factor)
  }

  /** The list once `find_for_factor` has made sure it has an entry for `factor`. */
  function WithFactor<T>(fs: seq<Factor<T>>, factor: string): (g: seq<Factor<T>>)
    ensures IndexOfFactor(fs, factor) < |g|
  {
    if IndexOfFactor(fs, factor) < |fs| then fs else fs + [Factor(factor, [])]
  }

  /** `x` pushed onto the front of `last`, which is then cut back to `max` items. */
  function Pushed<T>(last: seq<T>, x: T, max: nat): seq<T> {
    var l := [x] + last;
    if |l| > max then l[..max] else l
  }

  /** The list once `x` has been added to the items of `factor`, keeping at most `max` of them. */
  function AddTo<T>(fs: seq<Factor<T>>, factor: string, x: T, max: nat): seq<Factor<T>> {
    var g := WithFactor(fs, factor);
    var k := IndexOfFactor(fs, factor);
    g[k := Factor(factor, Pushed(g[k].last, x, max))]
  }

  /**
   * Adding to a factor changes that factor's entry only, appending one when
   * the factor has none: the item goes first, the items it had follow in
   * their order, and at most `max` are kept.
   */
  lemma AddToMeaning<T>(fs: seq<Factor<T>>, factor: string, x: T, max: nat)
    requires max >= 1
    ensures var r := AddTo(fs, factor, x, max);
      var k := IndexOfFactor(fs, factor);
      && (k < |fs| ==> |r| == |fs|)
      && (k == |fs| ==> |r| == |fs| + 1)
      && r[k].factor == factor
      && 0 < |r[k].last| <= max && r[k].last[0] == x
      && (k < |fs| ==> r[k].last[1..] == fs[k].last[..|r[k].last| - 1])
      && (k == |fs| ==> r[k].last == [x])
      && (forall j :: 0 <= j < |fs| && j != k ==> r[j] == fs[j])
  {
    var k := IndexOfFactor(fs, factor);
    if k < |fs| {
      var l := [x] + fs[k].last;
      assert l[1..] == fs[k].last;
    }
  }

  /**
   * `find_for_factor`: the index of the entry for `factor`, appending an
   * empty one when there is none; the loop stops at the first match.
   */
  method FindForFactor<T>(fs: seq<Factor<T>>, factor: string) returns (k: nat, g: seq<Factor<T>>)
    ensures k == IndexOfFactor(fs, factor) && g == WithFactor(fs, factor)
    ensures k < |g| && g[k].factor == factor
    ensures g == fs || g == fs + [Factor(factor, [])]
  {
    k := 0;
    while k < |fs|
      invariant k <= |fs| && IndexOfFactor(fs, factor) == k + IndexOfFactor(fs[k..], factor)
    {
      if fs[k].factor == factor {
        return k, fs;
      }
      assert fs[k..][1..] == fs[k + 1..];
      k := k + 1;
    }
    g := fs + [Factor(factor, [])];
  }

  /** The `while len(...) > MAX: pop()` loop: the items past the first `max` are dropped from the end. */
  method Retire<T>(last: seq<T>, max: nat) returns (r: seq<T>)
    ensures |r| <= max && IsPrefix(r, last)
    ensures |last| <= max ==> r == last
    ensures |last| > max ==> |r| == max
  {
    r := last;
    while |r| > max
      invariant IsPrefix(r, last) && (|last| <= max ==> r == last) && (|last| > max ==> |r| >= max)
    {
      r := r[..|r| - 1];
    }
  }

  /** One row of `history_readings`. */
  datatype ReadingRow = ReadingRow(time: string, factor: string, value: int)

  /** One row of `history_actions`. */
  datatype ActionRow = ActionRow(time: string, factor: string, reading: int, ideal: int)

  function ReadingRows(f: string, last: seq<Reading>): (rows: seq<ReadingRow>)
    ensures |rows| == |last|
    ensures forall i :: 0 <= i < |last| ==> rows[i] == ReadingRow(last[i].time, f, last[i].value)
  {
    if last == [] then [] else [ReadingRow(last[0].time, f, last[0].value)] + ReadingRows(f, last[1..])
  }

  function ActionRows(f: string, last: seq<Action>): (rows: seq<ActionRow>)
    ensures |rows| == |last|
    ensures forall i :: 0 <= i < |last| ==> rows[i] == ActionRow(last[i].time, f, last[i].reading, last[i].ideal)
  {
    if last == [] then [] else [ActionRow(last[0].time, f, last[0].reading, last[0].ideal)] + ActionRows(f, last[1..])
  }

  /** `history_readings`: the readings of every factor, factor by factor in stored order. */
  function HistoryReadings(fs: seq<Factor<Reading>>): seq<ReadingRow> {
    if fs == [] then [] else ReadingRows(fs[0].factor, fs[0].last) + HistoryReadings(fs[1..])
  }

  /** `history_actions`: the actions of every factor, factor by factor in stored order. */
  function HistoryActions(fs: seq<Factor<Action>>): seq<ActionRow> {
    if fs == [] then [] else ActionRows(fs[0].factor, fs[0].last) + HistoryActions(fs[1..])
  }

  lemma {:induction false} ReadingsConcat(a: seq<Factor<Reading>>, b: seq<Factor<Reading>>)
    ensures HistoryReadings(a + b) == HistoryReadings(a) + HistoryReadings(b)
  {
    if a == [] {
      assert a + b == b;
    } else {
      assert (a + b)[1..] == a[1..] + b;
      ReadingsConcat(a[1..], b);
    }
  }

  /**
   * A reading just added is the first row of its factor in
   * `history_readings`, after the rows of the factors stored before it.
   */
  lemma NewestReadingFirst(fs: seq<Factor<Reading>>, factor: string, x: Reading)
    ensures var rows := HistoryReadings(AddTo(fs, factor, x, MaxFactorHistory));
      var before := HistoryReadings(fs[..IndexOfFactor(fs, factor)]);
      |before| < |rows| && rows[..|before|] == before && rows[|before|] == ReadingRow(x.time, factor, x.value)
  {
    hide AddTo, IndexOfFactor, WithFactor, Pushed, ReadingRows;
    var k := IndexOfFactor(fs, factor);
    var r := AddTo(fs, factor, x, MaxFactorHistory);
    AddToMeaning(fs, factor, x, MaxFactorHistory);
    assert r == r[..k] + ([r[k]] + r[k + 1..]);
    assert r[..k] == fs[..k];
    ReadingsConcat(r[..k], [r[k]] + r[k + 1..]);
    ReadingsConcat([r[k]], r[k + 1..]);
    assert HistoryReadings([r[k]]) == ReadingRows(factor, r[k].last) by {
      assert [r[k]][1..] == [];
    }
  }

  /**
   * A history entry fetched from the database: the helpers update its lists
   * in place before it is written back.
   */
  class HistoryEntry {
    var device: string
    var lastContact: string
    var readings: seq<Factor<Reading>>
    var actions: seq<Factor<Action>>

    function Value(): History
      reads this
    {
      History(device, lastContact, readings, actions)
    }

    constructor (h: History)
      ensures Value() == h
    {
      device, lastContact, readings, actions := h.device, h.lastContact, h.readings, h.actions;
    }

    /** `set_history_last_contact`. */
    method SetLastContact(time: string)
      modifies this
      ensures Value() == old(Value()).(lastContact := time)
    {
      lastContact := time;
    }

    /** `history_entry_add_reading`: the newest reading goes first and at most `MaxFactorHistory` are kept. */
    method AddReading(factor: string, time: string, value: int)
      modifies this
      ensures Value() == old(Value()).(readings := AddTo(old(readings), factor, Reading(time, value), MaxFactorHistory))
    {
      var k, g := FindForFactor(readings, factor);
      readings := g;
      var last := Retire([Reading(time, value)] + readings[k].last, MaxFactorHistory);
      readings := readings[k := Factor(factor, last)];
    }

    /** `history_entry_add_action`: the newest action goes first and at most `MaxActionHistory` are kept. */
    method AddAction(factor: string, time: string, reading: int, ideal: int)
      modifies this
      ensures Value() == old(Value()).(actions := AddTo(old(actions), factor, Action(time, reading, ideal), MaxActionHistory))
    {
      var k, g := FindForFactor(actions, factor);
      actions := g;
      var last := Retire([Action(time, reading, ideal)] + actions[k].last, MaxActionHistory);
      actions := actions[k := Factor(factor, last)];
    }
  }
}
