/**
 * The IDF firmware's slideshow: every clock tick shows the next screen of a
 * cycle that opens with a splash screen and then shows each sensor reading
 * the current data holds.  A message queued with `slideshow_show_message_once`
 * takes the place of one tick.  Fresh sensor data waits in `next_data` until
 * the cycle comes back to the splash screen.
 *
 * The OLED calls become the returned `Screen`; floats are carried as reals and
 * their printf formatting is not modelled.  The compile-time options
 * SNAPPY_READ_MOTION and SNAPPY_READ_SOUND, which add the movement and sound
 * slides, are constants of the slideshow object.
 */
module Slideshow {
  import opened Wrappers
  import opened Bytes

  /** `sensor_state_t`: each reading with its `have_*` flag. */
  datatype SensorState = SensorState(
    haveTemperature: bool, temperature: real,
    haveHumidity: bool, humidity: real,
    haveAtmosphericPressure: bool, atmosphericPressure: nat,
    haveUvIntensity: bool, uvIntensity: real,
    haveLuminousIntensity: bool, luminousIntensity: real,
    haveCo2: bool, co2: nat,
    haveTvoc: bool, tvoc: nat,
    haveAqi: bool, aqi: nat,
    motion: bool,
    haveSoundLevel: bool, soundLevel: nat)

  /** What one tick puts on the display. */
  datatype Screen =
    | Text(message: Text)
    | Splash
    | Temperature(celsius: real)
    | Humidity(percent: real)
    | Pressure(hpa: nat)
    | UvIndex(uv: real)
    | Light(lux: real)
    | Co2(ppm: nat, co2Quality: Text)
    | Tvoc(ppb: nat, tvocQuality: Text)
    | AirQuality(aqi: nat, aqiQuality: Text)
    | Movement(seen: bool)
    | SoundLevel(level: nat, soundQuality: Text)
    | OutOfTable(value: nat)
    | Nothing

  /** The CO2 scale of the data sheet. */
  function Co2Text(ppm: nat): (r: Text)
    ensures ppm <= 600 ==> r == "excellent"
    ensures 600 < ppm <= 800 ==> r == "good"
    ensures 800 < ppm <= 1000 ==> r == "adequate"
    ensures 1000 < ppm <= 1500 ==> r == "bad"
    ensures 1500 < ppm ==> r == "terrible"
  {
    if ppm <= 600 then "excellent"
    else if ppm <= 800 then "good"
    else if ppm <= 1000 then "adequate"
    else if ppm <= 1500 then "bad"
    else "terrible"
  }

  /** The volatile-organics scale; the bounds are exclusive, unlike the CO2 ones. */
  function TvocText(ppb: nat): (r: Text)
    ensures ppb < 50 ==> r == "good"
    ensures 50 <= ppb < 200 ==> r == "adequate"
    ensures 200 <= ppb < 750 ==> r == "not great"
    ensures 750 <= ppb < 6000 ==> r == "bad"
    ensures 6000 <= ppb ==> r == "dangerous"
  {
    if ppb < 50 then "good"
    else if ppb < 200 then "adequate"
    else if ppb < 750 then "not great"
    else if ppb < 6000 then "bad"
    else "dangerous"
  }

  const AqiTexts: seq<Text> := ["", "excellent", "good", "adequate", "bad", "terrible"]
  const SoundTexts: seq<Text> := ["", "eerie", "quiet", "normal", "bad", "runway?"]

  /** The last slide number of the `switch`; on it the index wraps round to the splash screen. */
  const LastSlide := 11

  /**
   * Whether slide `k` (1 to 10) has something to show: a reading with its
   * flag set, the motion flag when motion is read at all, the sound level
   * when sound is read.
   */
  predicate HasSlide(k: int, d: Option<SensorState>, readMotion: bool, readSound: bool) {
    d.Some? &&
    match k
    case 1 => d.value.haveTemperature
    case 2 => d.value.haveHumidity
    case 3 => d.value.haveAtmosphericPressure
    case 4 => d.value.haveUvIntensity
    case 5 => d.value.haveLuminousIntensity
    case 6 => d.value.haveCo2
    case 7 => d.value.haveTvoc
    case 8 => d.value.haveAqi
    case 9 => readMotion
    case 10 => readSound && d.value.haveSoundLevel
    case _ => false
  }

  /**
   * The screen of slide `k`, when it has one.  The index and sound-level
   * tables have six entries; an index or level beyond them reads outside the
   * table, which is `OutOfTable`.
   */
  function SlideScreen(k: int, d: Option<SensorState>, readMotion: bool, readSound: bool): (r: Screen)
    requires HasSlide(k, d, readMotion, readSound)
    ensures r != Nothing && !r.Text? && r != Splash
    ensures r.OutOfTable? <==> (k == 8 && d.value.aqi >= |AqiTexts|) || (k == 10 && d.value.soundLevel >= |SoundTexts|)
  {
    var s := d.value;
    match k
    case 1 => Temperature(s.temperature)
    case 2 => Humidity(s.humidity)
    case 3 => Pressure(s.atmosphericPressure)
    case 4 => UvIndex(s.uvIntensity)
    case 5 => Light(s.luminousIntensity)
    case 6 => Co2(s.co2, Co2Text(s.co2))
    case 7 => Tvoc(s.tvoc, TvocText(s.tvoc))
    case 8 => if s.aqi < |AqiTexts| then AirQuality(s.aqi, AqiTexts[s.aqi]) else OutOfTable(s.aqi)
    case 9 => Movement(s.motion)
    case _ => if s.soundLevel < |SoundTexts| then SoundLevel(s.soundLevel, SoundTexts[s.soundLevel]) else OutOfTable(s.soundLevel)
  }

  /**
   * Where the fall-through chain of `slideshow_next` stops when it enters at
   * slide `k`: the first slide from `k` on that has something to show, or
   * LastSlide when none has.
   */
  function FirstSlide(k: int, d: Option<SensorState>, readMotion: bool, readSound: bool): (r: int)
    requires 1 <= k <= LastSlide
    ensures k <= r <= LastSlide
    ensures r < LastSlide ==> HasSlide(r, d, readMotion, readSound)
    ensures forall j :: k <= j < r ==> !HasSlide(j, d, readMotion, readSound)
    decreases LastSlide - k
  {
    if k == LastSlide || HasSlide(k, d, readMotion, readSound) then k
    else FirstSlide(k + 1, d, readMotion, readSound)
  }

  class Show {
    const readMotion: bool
    const readSound: bool
    var slideIndex: int
    var current: Option<SensorState>
    var next: Option<SensorState>
    var message: Option<Text>

    /**
     * Pending data exists only beside current data (the `assert` of
     * `slideshow_new_data`), and the index stays within the `switch`.
     */
    ghost predicate Valid()
      reads this
    {
      (current.None? ==> next.None?)
      && 0 <= slideIndex <= LastSlide
    }

    /** The zero-initialised statics. */
    constructor (motion: bool, sound: bool)
      ensures Valid() && readMotion == motion && readSound == sound
      ensures slideIndex == 0 && current == None && next == None && message == None
    {
      readMotion, readSound := motion, sound;
      slideIndex, current, next, message := 0, None, None, None;
    }

    /** `slideshow_reset`. */
    method Reset()
      requires Valid()
      modifies this
      ensures Valid() && slideIndex == 0
      ensures current == old(current) && next == old(next) && message == old(message)
    {
      slideIndex := 0;
    }

    /** `slideshow_new_data`: the first data becomes current; later data replaces any pending data. */
    method NewData(data: SensorState)
      requires Valid()
      modifies this
      ensures Valid() && slideIndex == old(slideIndex) && message == old(message)
      ensures old(current) == None ==> current == Some(data) && next == None
      ensures old(current) != None ==> current == old(current) && next == Some(data)
    {
      if current == None {
        current := Some(data);
      } else {
        next := Some(data);
      }
    }

    /** `slideshow_show_message_once`: the new message replaces any earlier one. */
    method ShowMessageOnce(msg: Text)
      requires Valid()
      modifies this
      ensures Valid() && message == Some(msg)
      ensures slideIndex == old(slideIndex) && current == old(current) && next == old(next)
    {
      message := Some(msg);
    }

    /**
     * `slideshow_next`.  A pending message is shown and dropped, and nothing
     * else moves.  Otherwise slide 0 is the splash screen, which also swaps
     * in pending data; from any other slide the walk falls through to the
     * first slide with something to show and leaves the index just past it,
     * or wraps the index to 0 after the last slide.
     */
    method Next() returns (screen: Screen)
      requires Valid()
      modifies this
      ensures Valid()
      ensures old(message).Some? ==>
        screen == Text(old(message).value) && message == None
        && slideIndex == old(slideIndex) && current == old(current) && next == old(next)
      ensures old(message).None? && old(slideIndex) == 0 ==>
        screen == Splash && slideIndex == 1 && message == None
        && (old(next).Some? ==> current == old(next) && next == None)
        && (old(next).None? ==> current == old(current) && next == None)
      ensures old(message).None? && old(slideIndex) != 0 ==>
        var k := FirstSlide(old(slideIndex), old(current), readMotion, readSound);
        current == old(current) && next == old(next) && message == None
        && (k < LastSlide ==> slideIndex == k + 1 && screen == SlideScreen(k, current, readMotion, readSound))
        && (k == LastSlide ==> slideIndex == 0 && screen == Nothing)
    {
      if message.Some? {
        screen := Text(message.value);
        message := None;
        return;
      }
      if slideIndex == 0 {
        slideIndex := 1;
        screen := Splash;
        if next.Some? {
          current, next := next, None;
        }
        return;
      }
      // The fall-through chain: each case steps the index and shows its slide if it has one.
      while slideIndex < LastSlide && !HasSlide(slideIndex, current, readMotion, readSound)
        invariant 1 <= slideIndex <= LastSlide
        invariant current == old(current) && next == old(next) && message == None
        invariant FirstSlide(slideIndex, current, readMotion, readSound)
               == FirstSlide(old(slideIndex), current, readMotion, readSound)
        decreases LastSlide - slideIndex
      {
        slideIndex := slideIndex + 1;
      }
      if slideIndex < LastSlide {
        screen := SlideScreen(slideIndex, current, readMotion, readSound);
        slideIndex := slideIndex + 1;
      } else {
        screen := Nothing;
        slideIndex := 0;
      }
    }
  }

  /** With no current data no sensor slide has anything to show, so the cycle is splash, blank. */
  lemma {:induction false} NoDataOnlySplash(k: int, m: bool, s: bool)
    requires 1 <= k <= LastSlide
    ensures FirstSlide(k, None, m, s) == LastSlide
    decreases LastSlide - k
  {
    if k < LastSlide {
      NoDataOnlySplash(k + 1, m, s);
    }
  }

  /**
   * From the splash screen, the next two ticks over data that has only a
   * temperature show the temperature and then wrap round.
   */
  method TemperatureOnlyCycle(sh: Show, t: real) returns (a: Screen, b: Screen, c: Screen)
    requires sh.Valid() && sh.slideIndex == 0 && sh.message == None && sh.next == None && !sh.readMotion
    requires sh.current == Some(SensorState(true, t, false, 0.0, false, 0, false, 0.0, false, 0.0,
                                            false, 0, false, 0, false, 0, false, false, 0))
    modifies sh
    ensures a == Splash && b == Temperature(t) && c == Nothing && sh.slideIndex == 0
  {
    a := sh.Next();
    b := sh.Next();
    c := sh.Next();
  }
}
