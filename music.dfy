/**
 * The melody compiler of `music-compiler/main.go`: it reads one RTTTL line
 *
 *   Melody   ::= Preamble Defaults Notes?
 *   Preamble ::= [^:]* ':'
 *   Defaults ::= 'd=' digits ',o=' digit ',b=' digits ':'
 *   Notes    ::= Note (',' Note)*
 *   Note     ::= digits? [cdefgabp] '#'? '.'? digit?
 *
 * and prints a C table of (frequency, duration) tones.  The parser works on
 * the bytes of the line with an index cursor; here the line is a string of
 * byte-valued characters.  A `log.Fatalf` is a `BadTune` failure carrying
 * the cursor, and the Go run-time panics (integer division by zero, slice
 * index out of range) are failures of their own.
 */
module Music {
  import opened Bytes
  import opened Wrappers
  import Util

  /** `notes`: silence, then C4 up to D#8, a semitone apart. */
  const Notes: seq<nat> := [0,
    262, 277, 294, 311, 330, 349, 370, 392, 415, 440, 466, 494,
    523, 554, 587, 622, 659, 698, 740, 784, 831, 880, 932, 988,
    1047, 1109, 1175, 1245, 1319, 1397, 1480, 1568, 1661, 1760, 1865, 1976,
    2093, 2217, 2349, 2489, 2637, 2794, 2960, 3136, 3322, 3520, 3729, 3951,
    4186, 4435, 4699, 4978]

  /** The semitone of a note letter within its octave; 0 for a letter that is not a note. */
  function NoteNumber(c: char): (n: nat)
    ensures n <= 14 && (n == 0 <==> c !in "cdefgabp")
  {
    match c
    case 'c' => 1
    case 'd' => 3
    case 'e' => 5
    case 'f' => 6
    case 'g' => 8
    case 'a' => 10
    case 'b' => 12
    case 'p' => 14
    case _ => 0
  }

  datatype Tone = Tone(frequency: nat, durationMs: nat)

  /** Division of a duration by a positive count of notes. */
  function Div(a: nat, b: nat): (q: nat)
    requires b > 0
    ensures q * b <= a < (q + 1) * b
  {
    a / b
  }

  datatype Failure =
    | BadTune(at: nat)              // log.Fatalf("Bad tune at location %d", idx)
    | DivideByZero                  // run-time panic: 60*1000/bpm with bpm == 0
    | IndexOutOfRange(index: int)   // run-time panic: notes[(scale-4)*12+note]

  // ---------------------------------------------------------------- scan_int

  /** Where the run of digits starting at `i` ends. */
  function ScanEnd(t: string, i: nat): (e: nat)
    requires i <= |t|
    ensures i <= e <= |t| && (e < |t| ==> !IsDigit(t[e]))
    ensures forall k :: i <= k < e ==> IsDigit(t[k])
    decreases |t| - i
  {
    if i == |t| || !IsDigit(t[i]) then i else ScanEnd(t, i + 1)
  }

  /** The decimal value of the run of digits starting at `i` (0 for no digits). */
  function ScanValue(t: string, i: nat): nat
    requires i <= |t|
  {
    DigitsValue(t[i..ScanEnd(t, i)])
  }

  /** `scan_int`: the value of the digits at the cursor and the cursor after them. */
  method ScanInt(tune: string, idx0: nat) returns (num: nat, idx: nat)
    requires idx0 <= |tune|
    ensures idx == ScanEnd(tune, idx0) && num == ScanValue(tune, idx0)
  {
    num, idx := 0, idx0;
    while idx < |tune| && IsDigit(tune[idx])
      invariant idx0 <= idx <= |tune| && ScanEnd(tune, idx) == ScanEnd(tune, idx0)
      invariant forall k :: idx0 <= k < idx ==> IsDigit(tune[k])
      invariant num == DigitsValue(tune[idx0..idx])
      decreases |tune| - idx
    {
      Bytes.DigitsStep(tune, idx0, idx);
      num := num * 10 + DigitValue(tune[idx]);
      idx := idx + 1;
    }
  }

  /** A run of `k` digits or fewer has a value below 10^k. */
  lemma {:induction false} DigitsValueBelow(s: seq<char>, k: nat)
    requires forall i :: 0 <= i < |s| ==> IsDigit(s[i])
    requires |s| <= k
    ensures DigitsValue(s) < Util.Pow10(k)
  {
    if |s| > 0 {
      DigitsValueBelow(s[..|s| - 1], k - 1);
    }
  }

  /**
   * `scan_int` accumulates in Go's 64-bit `int`. A run of at most 18 digits
   * stays below 10^18 < 2^63, so there the unbounded value is exactly Go's.
   */
  lemma ScanIntFits(t: string, i: nat)
    requires i <= |t| && ScanEnd(t, i) - i <= 18
    ensures ScanValue(t, i) < 0x8000_0000_0000_0000
  {
    DigitsValueBelow(t[i..ScanEnd(t, i)], 18);
    assert Util.Pow10(6) == 1_000_000;
    assert Util.Pow10(12) == 1_000_000 * Util.Pow10(6) by { TenToSum(6, 6); }
    assert Util.Pow10(18) == 1_000_000 * Util.Pow10(12) by { TenToSum(6, 12); }
  }

  lemma {:induction false} TenToSum(a: nat, b: nat)
    ensures Util.Pow10(a + b) == Util.Pow10(a) * Util.Pow10(b)
  {
    if a > 0 {
      TenToSum(a - 1, b);
    }
  }

  /** A run of digits ended by a non-digit or by the end of the line is scanned whole. */
  lemma {:induction false} ScanEndAt(t: string, i: nat, e: nat)
    requires i <= e <= |t| && (e < |t| ==> !IsDigit(t[e]))
    requires forall k :: i <= k < e ==> IsDigit(t[k])
    ensures ScanEnd(t, i) == e
    decreases e - i
  {
    if i < e {
      ScanEndAt(t, i + 1, e);
    }
  }

  /** `scan_int` reads a run of digits ended by a non-digit or by the end of the line. */
  lemma ScanDigits(t: string, i: nat, ds: string)
    requires i + |ds| <= |t| && (i + |ds| < |t| ==> !IsDigit(t[i + |ds|]))
    requires forall k :: 0 <= k < |ds| ==> IsDigit(ds[k]) && t[i + k] == ds[k]
    ensures ScanEnd(t, i) == i + |ds| && ScanValue(t, i) == DigitsValue(ds)
  {
    forall k | i <= k < i + |ds|
      ensures IsDigit(t[k])
    {
      assert t[i + (k - i)] == ds[k - i];
    }
    ScanEndAt(t, i, i + |ds|);
    assert t[i..i + |ds|] == ds;
  }

  /** `scan_int` reads back a decimal rendering that is followed by a non-digit or by the end. */
  lemma ScanDecimal(p: string, n: nat, rest: string)
    requires rest == [] || !IsDigit(rest[0])
    ensures var t := p + Decimal(n) + rest;
      ScanEnd(t, |p|) == |p| + |Decimal(n)| && ScanValue(t, |p|) == n
  {
    var t := p + Decimal(n) + rest;
    ScanEndAt(t, |p|, |p| + |Decimal(n)|);
    assert t[|p|..|p| + |Decimal(n)|] == Decimal(n);
    DecimalValue(n);
  }

  // -------------------------------------------------------------- the header

  /** The defaults line of the melody, and the cursor after it. */
  datatype Header = Header(name: string, defaultDur: nat, defaultOct: nat, bpm: nat, wholenote: nat, start: nat)

  /**
   * How the tempo field is taken.  As written, the guard tests the current
   * tempo (the default 63) rather than the field, so the field always
   * replaces it, a zero included; as intended, only a positive field
   * replaces it.
   */
  datatype Guard = AsWritten | Intended

  function Tempo(g: Guard, bpm: nat, num: nat): (r: nat)
    ensures g == Intended && bpm > 0 ==> r > 0
  {
    match g
    case AsWritten => if bpm != 0 then num else bpm
    case Intended => if num > 0 then num else bpm
  }

  /** Where the preamble ends: the first ':' at or after `i`, or the end of the line. */
  function NameEnd(t: string, i: nat): (e: nat)
    requires i <= |t|
    ensures i <= e <= |t| && (e < |t| ==> t[e] == ':')
    ensures forall k :: i <= k < e ==> t[k] != ':'
    decreases |t| - i
  {
    if i == |t| || t[i] == ':' then i else NameEnd(t, i + 1)
  }

  /** `d=`, digits and `,` at cursor `i`: the default duration, replaced by a positive field, and the cursor after the comma. */
  function DurationField(t: string, i: nat, dur: nat): (r: Result<(nat, nat), Failure>)
    requires i <= |t|
    ensures r.Ok? ==> (r.value.0 == dur || r.value.0 > 0) && i < r.value.1 <= |t|
  {
    if i + 1 >= |t| || t[i] != 'd' || t[i + 1] != '=' then Err(BadTune(i))
    else
      var e, num := ScanEnd(t, i + 2), ScanValue(t, i + 2);
      if e >= |t| || t[e] != ',' then Err(BadTune(e))
      else Ok((if num > 0 then num else dur, e + 1))
  }

  /** `o=`, one digit and `,` at cursor `i`: the default octave, replaced by a digit from 3 to 7, and the cursor after the comma. */
  function OctaveField(t: string, i: nat, oct: nat): (r: Result<(nat, nat), Failure>)
    requires i <= |t|
    ensures r.Ok? ==> (r.value.0 == oct || 3 <= r.value.0 <= 7) && i < r.value.1 <= |t|
  {
    if i + 1 >= |t| || t[i] != 'o' || t[i + 1] != '=' then Err(BadTune(i))
    else if i + 2 >= |t| || !IsDigit(t[i + 2]) then Err(BadTune(i + 2))
    else
      var num := DigitValue(t[i + 2]);
      if i + 3 >= |t| || t[i + 3] != ',' then Err(BadTune(i + 3))
      else Ok((if 3 <= num <= 7 then num else oct, i + 4))
  }

  /** `b=`, digits and `:` at cursor `i`: the tempo, taken as `g` says, and the cursor after the colon. */
  function TempoField(t: string, i: nat, bpm: nat, g: Guard): (r: Result<(nat, nat), Failure>)
    requires i <= |t|
    ensures r.Ok? ==> i < r.value.1 <= |t|
  {
    if i + 1 >= |t| || t[i] != 'b' || t[i + 1] != '=' then Err(BadTune(i))
    else
      var e, num := ScanEnd(t, i + 2), ScanValue(t, i + 2);
      if e >= |t| || t[e] != ':' then Err(BadTune(e))
      else Ok((Tempo(g, bpm, num), e + 1))
  }

  /** The length of a whole note in milliseconds: four beats at `bpm` beats a minute, each beat rounded down. */
  function WholeNote(bpm: nat): nat
    requires bpm > 0
  {
    (60 * 1000 / bpm) * 4
  }

  /** The preamble and the defaults (duration 4, octave 6 and tempo 63 unless replaced), with the tempo taken as `g` says. */
  function ParseHeader(t: string, g: Guard): (r: Result<Header, Failure>)
    ensures r.Ok? ==> var h := r.value;
      0 < h.defaultDur && 3 <= h.defaultOct <= 7 && 0 < h.bpm && h.start <= |t|
      && h.wholenote == WholeNote(h.bpm)
  {
    var c := NameEnd(t, 0);
    if c == |t| then Err(BadTune(c))
    else
      var name := if c > 0 then t[..c] else "(no name)";
      match DurationField(t, c + 1, 4)
      case Err(f) => Err(f)
      case Ok((dur, i)) =>
        match OctaveField(t, i, 6)
        case Err(f) => Err(f)
        case Ok((oct, j)) =>
          match TempoField(t, j, 63, g)
          case Err(f) => Err(f)
          case Ok((bpm, k)) =>
            if bpm == 0 then Err(DivideByZero)
            else Ok(Header(name, dur, oct, bpm, WholeNote(bpm), k))
  }

  /** The preamble and the defaults of `main`, with the tempo as written. */
  method ReadHeader(tune: string) returns (r: Result<Header, Failure>)
    ensures r == ParseHeader(tune, AsWritten)
  {
    hide DurationField, OctaveField, TempoField;
    var idx, lim := 0, |tune|;
    var defaultDur, defaultOct, bpm := 4, 6, 63;
    var tuneName := "(no name)";
    var nameStart := idx;
    while idx < lim && tune[idx] != ':'
      invariant idx <= lim && NameEnd(tune, idx) == NameEnd(tune, 0)
    {
      idx := idx + 1;
    }
    if idx == lim {
      return Err(BadTune(idx));
    }
    if idx > nameStart {
      tuneName := tune[nameStart..idx];
    }
    idx := idx + 1;
    var field := ReadDuration(tune, idx, defaultDur);
    if field.Err? {
      return Err(field.error);
    }
    defaultDur, idx := field.value.0, field.value.1;
    field := ReadOctave(tune, idx, defaultOct);
    if field.Err? {
      return Err(field.error);
    }
    defaultOct, idx := field.value.0, field.value.1;
    field := ReadTempo(tune, idx, bpm);
    if field.Err? {
      return Err(field.error);
    }
    bpm, idx := field.value.0, field.value.1;
    if bpm == 0 {
      return Err(DivideByZero);
    }
    var wholenote := WholeNote(bpm);
    r := Ok(Header(tuneName, defaultDur, defaultOct, bpm, wholenote, idx));
  }

  /** The duration default of `main`. */
  method ReadDuration(tune: string, idx0: nat, dur: nat) returns (r: Result<(nat, nat), Failure>)
    requires idx0 <= |tune|
    ensures r == DurationField(tune, idx0, dur)
  {
    var idx, lim := idx0, |tune|;
    var defaultDur := dur;
    if idx + 1 >= lim || tune[idx] != 'd' || tune[idx + 1] != '=' {
      return Err(BadTune(idx));
    }
    idx := idx + 2;
    var num;
    num, idx := ScanInt(tune, idx);
    if num > 0 {
      defaultDur := num;
    }
    if idx >= lim || tune[idx] != ',' {
      return Err(BadTune(idx));
    }
    idx := idx + 1;
    r := Ok((defaultDur, idx));
  }

  /** The octave default of `main`. */
  method ReadOctave(tune: string, idx0: nat, oct: nat) returns (r: Result<(nat, nat), Failure>)
    requires idx0 <= |tune|
    ensures r == OctaveField(tune, idx0, oct)
  {
    var idx, lim := idx0, |tune|;
    var defaultOct := oct;
    if idx + 1 >= lim || tune[idx] != 'o' || tune[idx + 1] != '=' {
      return Err(BadTune(idx));
    }
    idx := idx + 2;
    if idx >= lim || !IsDigit(tune[idx]) {
      return Err(BadTune(idx));
    }
    var num := DigitValue(tune[idx]);
    idx := idx + 1;
    if num >= 3 && num <= 7 {
      defaultOct := num;
    }
    if idx >= lim || tune[idx] != ',' {
      return Err(BadTune(idx));
    }
    idx := idx + 1;
    r := Ok((defaultOct, idx));
  }

  /** The tempo of `main`, with its guard as written. */
  method ReadTempo(tune: string, idx0: nat, bpm0: nat) returns (r: Result<(nat, nat), Failure>)
    requires idx0 <= |tune|
    ensures r == TempoField(tune, idx0, bpm0, AsWritten)
  {
    var idx, lim := idx0, |tune|;
    var bpm := bpm0;
    if idx + 1 >= lim || tune[idx] != 'b' || tune[idx + 1] != '=' {
      return Err(BadTune(idx));
    }
    idx := idx + 2;
    var num;
    num, idx := ScanInt(tune, idx);
    if bpm != 0 {
      bpm := num;
    }
    if idx >= lim || tune[idx] != ':' {
      return Err(BadTune(idx));
    }
    idx := idx + 1;
    r := Ok((bpm, idx));
  }

  // --------------------------------------------------------------- the notes

  /** The index into `notes` of a semitone in an octave. */
  function TableIndex(scale: int, note: int): int {
    (scale - 4) * 12 + note
  }

  /** The frequency of a semitone in an octave: 440 Hz for no semitone, else the table entry if there is one. */
  function Frequency(scale: nat, note: nat): Result<nat, Failure> {
    if note == 0 then Ok(440)
    else if 0 <= TableIndex(scale, note) < |Notes| then Ok(Notes[TableIndex(scale, note)])
    else Err(IndexOutOfRange(TableIndex(scale, note)))
  }

  /** A note letter's semitone and duration after its marks, the octave it is played in, and the cursor after its comma. */
  datatype Marked = Marked(note: nat, dur: nat, scale: nat, next: nat)

  /**
   * The marks after a note letter at cursor `j`: a `#` raises the semitone
   * by one, a `.` makes the note half as long again, a digit is the octave
   * (the default octave otherwise), and a `,` ends the note.
   */
  function Marks(t: string, j: nat, note: nat, dur: nat, defaultOct: nat): (m: Marked)
    requires j <= |t|
    ensures j <= m.next <= |t|
  {
    var sharp := j < |t| && t[j] == '#';
    DotMark(t, if sharp then j + 1 else j, if sharp then note + 1 else note, dur, defaultOct)
  }

  /** The marks from the `.` on. */
  function DotMark(t: string, j: nat, note: nat, dur: nat, defaultOct: nat): (m: Marked)
    requires j <= |t|
    ensures j <= m.next <= |t|
  {
    var dotted := j < |t| && t[j] == '.';
    OctaveMark(t, if dotted then j + 1 else j, note, if dotted then dur + dur / 2 else dur, defaultOct)
  }

  /** The marks from the octave digit on. */
  function OctaveMark(t: string, j: nat, note: nat, dur: nat, defaultOct: nat): (m: Marked)
    requires j <= |t|
    ensures j <= m.next <= |t|
  {
    var octave := j < |t| && IsDigit(t[j]);
    var scale := if octave then DigitValue(t[j]) else defaultOct;
    var j := if octave then j + 1 else j;
    Marked(note, dur, scale, if j < |t| && t[j] == ',' then j + 1 else j)
  }

  /** One note at cursor `i` (not at the end of the line): its tone and the cursor after it and its comma. */
  function ParseNote(t: string, i: nat, h: Header): (r: Result<(Tone, nat), Failure>)
    requires i < |t| && h.defaultDur > 0
    ensures r.Ok? ==> i < r.value.1 <= |t|
  {
    var e, n := ScanEnd(t, i), ScanValue(t, i);
    var dur := Div(h.wholenote, if n == 0 then h.defaultDur else n);
    if e >= |t| then Err(BadTune(e))
    else
      var m := Marks(t, e + 1, NoteNumber(t[e]), dur, h.defaultOct);
      match Frequency(m.scale, m.note)
      case Err(f) => Err(f)
      case Ok(freq) => Ok((Tone(freq, m.dur), m.next))
  }

  /** The notes from cursor `i` to the end of the line; the first failure ends the compilation. */
  function ParseNotes(t: string, i: nat, h: Header): Result<seq<Tone>, Failure>
    requires i <= |t| && h.defaultDur > 0
    decreases |t| - i
  {
    if i == |t| then Ok([])
    else
      match ParseNote(t, i, h)
      case Err(f) => Err(f)
      case Ok((tone, j)) => Prepend([tone], ParseNotes(t, j, h))
  }

  /** Tones already appended to `music`, in front of what the rest of the loop produces. */
  function Prepend(music: seq<Tone>, r: Result<seq<Tone>, Failure>): Result<seq<Tone>, Failure> {
    match r
    case Ok(ts) => Ok(music + ts)
    case Err(f) => Err(f)
  }

  /** Appending a tone and then the rest is prepending both. */
  lemma PrependAssoc(music: seq<Tone>, tone: Tone, r: Result<seq<Tone>, Failure>)
    ensures Prepend(music, Prepend([tone], r)) == Prepend(music + [tone], r)
  {
    if r.Ok? {
      assert music + ([tone] + r.value) == music + [tone] + r.value;
    }
  }

  /** One trip of the note loop of `main`. */
  method ReadNote(tune: string, idx0: nat, h: Header) returns (r: Result<(Tone, nat), Failure>)
    requires idx0 < |tune| && h.defaultDur > 0
    ensures r == ParseNote(tune, idx0, h)
  {
    hide Marks, Frequency;
    var lim := |tune|;
    var num, idx := ScanInt(tune, idx0);
    if num == 0 {
      num := h.defaultDur;
    }
    var durationMs := Div(h.wholenote, num);
    if idx >= lim {
      return Err(BadTune(idx));
    }
    var c := tune[idx];
    idx := idx + 1;
    var note, scale;
    note, durationMs, scale, idx := ReadMarks(tune, idx, NoteNumber(c), durationMs, h.defaultOct);
    var frequency := Lookup(scale, note);
    if frequency.Err? {
      return Err(frequency.error);
    }
    r := Ok((Tone(frequency.value, durationMs), idx));
  }

  /** The `#`, `.`, octave and `,` steps of the note loop of `main`. */
  method ReadMarks(tune: string, idx0: nat, note0: nat, dur0: nat, defaultOct: nat)
    returns (note: nat, durationMs: nat, scale: nat, idx: nat)
    requires idx0 <= |tune|
    ensures Marked(note, durationMs, scale, idx) == Marks(tune, idx0, note0, dur0, defaultOct)
  {
    var lim := |tune|;
    note, durationMs, idx := note0, dur0, idx0;
    if idx < lim && tune[idx] == '#' {
      note := note + 1;
      idx := idx + 1;
    }
    if idx < lim && tune[idx] == '.' {
      durationMs := durationMs + durationMs / 2;
      idx := idx + 1;
    }
    if idx < lim && IsDigit(tune[idx]) {
      scale := DigitValue(tune[idx]);
      idx := idx + 1;
    } else {
      scale := defaultOct;
    }
    if idx < lim && tune[idx] == ',' {
      idx := idx + 1;
    }
  }

  /** `frequency := 440`, or the table entry of the semitone in the octave (a run-time panic outside the table). */
  method Lookup(scale: nat, note: nat) returns (r: Result<nat, Failure>)
    ensures r == Frequency(scale, note)
  {
    var frequency := 440;
    if note > 0 {
      var k := (scale as int - 4) * 12 + note;
      if k < 0 || k >= |Notes| {
        return Err(IndexOutOfRange(k));
      }
      frequency := Notes[k];
    }
    r := Ok(frequency);
  }

  /** The note loop of `main`: tones are appended until the cursor reaches the end of the line. */
  method ReadNotes(tune: string, h: Header) returns (r: Result<seq<Tone>, Failure>)
    requires h.start <= |tune| && h.defaultDur > 0
    ensures r == ParseNotes(tune, h.start, h)
  {
    var idx := h.start;
    var music: seq<Tone> := [];
    assert Prepend(music, ParseNotes(tune, idx, h)) == ParseNotes(tune, idx, h) by {
      if ParseNotes(tune, idx, h).Ok? {
        assert [] + ParseNotes(tune, idx, h).value == ParseNotes(tune, idx, h).value;
      }
    }
    while idx != |tune|
      invariant idx <= |tune|
      invariant ParseNotes(tune, h.start, h) == Prepend(music, ParseNotes(tune, idx, h))
      decreases |tune| - idx
    {
      var step := ReadNote(tune, idx, h);
      if step.Err? {
        return Err(step.error);
      }
      PrependAssoc(music, step.value.0, ParseNotes(tune, step.value.1, h));
      music := music + [step.value.0];
      idx := step.value.1;
    }
    assert music + [] == music;
    r := Ok(music);
  }

  // ------------------------------------------------------------- the program

  datatype Melody = Melody(name: string, tones: seq<Tone>)

  /** The whole line, with the tempo taken as `g` says. */
  function Compile(t: string, g: Guard): Result<Melody, Failure> {
    match ParseHeader(t, g)
    case Err(f) => Err(f)
    case Ok(h) =>
      match ParseNotes(t, h.start, h)
      case Err(f) => Err(f)
      case Ok(ts) => Ok(Melody(h.name, ts))
  }

  /** The `{frequency,duration},` initialisers of the tone table. */
  function ToneList(ts: seq<Tone>): string {
    if ts == [] then ""
    else "{" + Decimal(ts[0].frequency) + "," + Decimal(ts[0].durationMs) + "}," + ToneList(ts[1..])
  }

  /** The C source printed for a melody; `suffix` is the random number naming the tone table. */
  function Emit(m: Melody, suffix: nat): string {
    var notesName := "notes_" + Decimal(suffix);
    "/* Generated by the music-compiler program (see repo root) */\n"
    + ("/* " + m.name + " */\n")
    + ("const struct tone " + notesName + "[] = {" + ToneList(m.tones) + "};\n")
    + ("const struct music melody = { " + Decimal(|m.tones|) + ", " + notesName + " };\n")
  }

  /**
   * `main` on one line of input: the printed program, or the failure that
   * ends the run.  The random table name is the parameter `suffix`.
   */
  method CompileLine(line: string, suffix: nat) returns (r: Result<string, Failure>)
    ensures r.Ok? <==> Compile(line, AsWritten).Ok?
    ensures r.Ok? ==> r.value == Emit(Compile(line, AsWritten).value, suffix)
    ensures r.Err? ==> r.error == Compile(line, AsWritten).error
  {
    var header := ReadHeader(line);
    if header.Err? {
      return Err(header.error);
    }
    var music := ReadNotes(line, header.value);
    if music.Err? {
      return Err(music.error);
    }
    r := Ok(Emit(Melody(header.value.name, music.value), suffix));
  }

  // ---------------------------------------------------------------- rendering

  /** A note as written in a melody: optional duration (0 = none), letter, `#`, `.`, optional octave digit. */
  datatype NoteSpec = NoteSpec(dur: nat, letter: char, sharp: bool, dotted: bool, octave: Option<nat>)

  predicate SpecOk(n: NoteSpec) {
    n.letter in "cdefgabp" && (n.octave.Some? ==> n.octave.value < 10)
  }

  function NoteText(n: NoteSpec): string
    requires SpecOk(n)
  {
    DurText(n.dur) + [n.letter] + MarksText(n)
  }

  /** The duration of a note as written: no digits for none. */
  function DurText(dur: nat): (r: string)
    ensures (r == []) == (dur == 0)
    ensures forall k :: 0 <= k < |r| ==> IsDigit(r[k])
    ensures DigitsValue(r) == dur
  {
    if dur > 0 then DecimalValue(dur); Decimal(dur) else ""
  }

  /** The octave a note is played in: its own, or the default. */
  function OctaveOr(octave: Option<nat>, defaultOct: nat): nat {
    match octave
    case Some(o) => o
    case None => defaultOct
  }

  /** The note's semitone: its letter, raised one by a sharp. */
  function SemitoneOf(n: NoteSpec): nat {
    NoteNumber(n.letter) + (if n.sharp then 1 else 0)
  }

  /** The table holds the note. */
  predicate InTable(n: NoteSpec, defaultOct: nat) {
    0 <= TableIndex(OctaveOr(n.octave, defaultOct), SemitoneOf(n)) < |Notes|
  }

  /**
   * What a note means under a header: the whole note divided by the note's
   * duration (the default when it has none), half as long again when
   * dotted; the table entry of its octave and semitone.
   */
  function ToneOf(n: NoteSpec, h: Header): Tone
    requires SpecOk(n) && InTable(n, h.defaultOct) && h.defaultDur > 0
  {
    var base := Div(h.wholenote, if n.dur > 0 then n.dur else h.defaultDur);
    Tone(Notes[TableIndex(OctaveOr(n.octave, h.defaultOct), SemitoneOf(n))], if n.dotted then base + base / 2 else base)
  }

  /** The notes of a melody, separated by commas. */
  function NotesText(ns: seq<NoteSpec>): string
    requires forall k :: 0 <= k < |ns| ==> SpecOk(ns[k])
  {
    if ns == [] then "" else if |ns| == 1 then NoteText(ns[0]) else NoteText(ns[0]) + "," + NotesText(ns[1..])
  }

  /** The defaults line: name, default duration, default octave and tempo. */
  function HeaderText(name: string, d: nat, o: nat, b: nat): string
    requires o < 10
  {
    name + ":" + DurationText(d) + OctaveFieldText(o) + TempoText(b)
  }

  function DurationText(d: nat): string {
    "d=" + Decimal(d) + ","
  }

  function OctaveFieldText(o: nat): string
    requires o < 10
  {
    "o=" + [DigitChar(o)] + ","
  }

  function TempoText(b: nat): string {
    "b=" + Decimal(b) + ":"
  }

  /** The tone of each note under a header. */
  function TonesOf(ns: seq<NoteSpec>, h: Header): (ts: seq<Tone>)
    requires forall k :: 0 <= k < |ns| ==> SpecOk(ns[k]) && InTable(ns[k], h.defaultOct)
    requires h.defaultDur > 0
    ensures |ts| == |ns|
  {
    if ns == [] then [] else [ToneOf(ns[0], h)] + TonesOf(ns[1..], h)
  }

  // ------------------------------------------------------------ round trips

  /** The preamble ends at the first colon. */
  lemma {:induction false} NameEndAt(t: string, i: nat, e: nat)
    requires i <= e < |t| && t[e] == ':'
    requires forall k :: i <= k < e ==> t[k] != ':'
    ensures NameEnd(t, i) == e
    decreases e - i
  {
    if i < e {
      NameEndAt(t, i + 1, e);
    }
  }

  /** A written `d=` field reads back; a zero field keeps the default. */
  lemma DurationFieldRoundTrip(p: string, d: nat, rest: string, dur: nat)
    ensures DurationField(p + DurationText(d) + rest, |p|, dur) == Ok((if d > 0 then d else dur, |p| + |DurationText(d)|))
  {
    hide Decimal, ScanEnd, ScanValue;
    var t := p + DurationText(d) + rest;
    var ds := Decimal(d);
    assert DurationText(d) == "d=" + ds + ",";
    assert t[|p|] == 'd' && t[|p| + 1] == '=';
    assert forall k :: 0 <= k < |ds| ==> t[|p| + 2 + k] == ds[k];
    assert t[|p| + 2 + |ds|] == ',';
    ScanDigits(t, |p| + 2, ds);
    DecimalValue(d);
  }

  /** A written `o=` field reads back; an octave outside 3 to 7 keeps the default. */
  lemma OctaveFieldRoundTrip(p: string, o: nat, rest: string, oct: nat)
    requires o < 10
    ensures OctaveField(p + OctaveFieldText(o) + rest, |p|, oct) == Ok((if 3 <= o <= 7 then o else oct, |p| + |OctaveFieldText(o)|))
  {
    var t := p + OctaveFieldText(o) + rest;
    assert t[|p|] == 'o' && t[|p| + 1] == '=' && t[|p| + 2] == DigitChar(o) && t[|p| + 3] == ',';
  }

  /** A written `b=` field reads back under either guard when it is positive. */
  lemma TempoFieldRoundTrip(p: string, b: nat, rest: string, g: Guard)
    requires b > 0
    ensures TempoField(p + TempoText(b) + rest, |p|, 63, g) == Ok((b, |p| + |TempoText(b)|))
  {
    hide Decimal, ScanEnd, ScanValue;
    var t := p + TempoText(b) + rest;
    var ds := Decimal(b);
    assert TempoText(b) == "b=" + ds + ":";
    assert t[|p|] == 'b' && t[|p| + 1] == '=';
    assert forall k :: 0 <= k < |ds| ==> t[|p| + 2 + k] == ds[k];
    assert t[|p| + 2 + |ds|] == ':';
    ScanDigits(t, |p| + 2, ds);
    DecimalValue(b);
  }

  /**
   * A written defaults line reads back: the name (or "(no name)" for an
   * empty one), the duration, the octave and the tempo, with the whole note
   * four beats long; the notes start right after it.
   */
  lemma HeaderRoundTrip(name: string, d: nat, o: nat, b: nat, rest: string, g: Guard)
    requires ':' !in name && d > 0 && 3 <= o <= 7 && b > 0
    ensures ParseHeader(HeaderText(name, d, o, b) + rest, g)
      == Ok(Header(if |name| > 0 then name else "(no name)", d, o, b, WholeNote(b), |HeaderText(name, d, o, b)|))
  {
    hide DurationText, OctaveFieldText, TempoText, DurationField, OctaveField, TempoField;
    var t := HeaderText(name, d, o, b) + rest;
    var p1 := name + ":";
    var p2 := p1 + DurationText(d);
    var p3 := p2 + OctaveFieldText(o);
    assert t == p1 + DurationText(d) + (OctaveFieldText(o) + TempoText(b) + rest);
    assert t == p2 + OctaveFieldText(o) + (TempoText(b) + rest);
    assert t == p3 + TempoText(b) + rest;
    assert t[|name|] == ':';
    NameEndAt(t, 0, |name|);
    assert t[..|name|] == name;
    DurationFieldRoundTrip(p1, d, OctaveFieldText(o) + TempoText(b) + rest, 4);
    OctaveFieldRoundTrip(p2, o, TempoText(b) + rest, 6);
    TempoFieldRoundTrip(p3, b, rest, g);
  }

  /** The marks of a note, as written after its letter. */
  function MarksText(n: NoteSpec): string
    requires SpecOk(n)
  {
    SharpText(n.sharp) + DotText(n.dotted) + OctaveText(n.octave)
  }

  function SharpText(sharp: bool): (r: string)
    ensures |r| == (if sharp then 1 else 0) && (sharp ==> r[0] == '#')
  {
    if sharp then "#" else ""
  }

  function DotText(dotted: bool): (r: string)
    ensures |r| == (if dotted then 1 else 0) && (dotted ==> r[0] == '.')
  {
    if dotted then "." else ""
  }

  function OctaveText(octave: Option<nat>): (r: string)
    requires octave.Some? ==> octave.value < 10
    ensures |r| == (if octave.Some? then 1 else 0)
    ensures octave.Some? ==> IsDigit(r[0]) && DigitValue(r[0]) == octave.value
  {
    match octave
    case Some(o) => [DigitChar(o)]
    case None => ""
  }

  /** The `#` step: taken exactly when the cursor is at a `#`. */
  lemma SharpStep(t: string, j: nat, sharp: bool, note: nat, dur: nat, defaultOct: nat)
    requires j <= |t| && (sharp <==> j < |t| && t[j] == '#')
    ensures Marks(t, j, note, dur, defaultOct)
      == DotMark(t, if sharp then j + 1 else j, if sharp then note + 1 else note, dur, defaultOct)
  {
  }

  /** The `.` step: taken exactly when the cursor is at a `.`. */
  lemma DotStep(t: string, j: nat, dotted: bool, note: nat, dur: nat, defaultOct: nat)
    requires j <= |t| && (dotted <==> j < |t| && t[j] == '.')
    ensures DotMark(t, j, note, dur, defaultOct)
      == OctaveMark(t, if dotted then j + 1 else j, note, if dotted then dur + dur / 2 else dur, defaultOct)
  {
  }

  /** The octave and comma steps. */
  lemma OctaveStep(t: string, j: nat, octave: Option<nat>, note: nat, dur: nat, defaultOct: nat)
    requires j <= |t| && (octave.Some? <==> j < |t| && IsDigit(t[j]))
    requires octave.Some? ==> octave.value == DigitValue(t[j])
    ensures var k := if octave.Some? then j + 1 else j;
      OctaveMark(t, j, note, dur, defaultOct)
      == Marked(note, dur, OctaveOr(octave, defaultOct),
                if k < |t| && t[k] == ',' then k + 1 else k)
  {
  }

  /** Written marks read back, and a following comma is consumed. */
  lemma MarksRoundTrip(q: string, n: NoteSpec, rest: string, dur: nat, defaultOct: nat)
    requires SpecOk(n) && (rest == [] || rest[0] == ',')
    ensures Marks(q + MarksText(n) + rest, |q|, NoteNumber(n.letter), dur, defaultOct)
      == Marked(SemitoneOf(n), if n.dotted then dur + dur / 2 else dur,
                OctaveOr(n.octave, defaultOct),
                |q| + |MarksText(n)| + if rest == [] then 0 else 1)
  {
    hide Marks, DotMark, OctaveMark, SharpText, DotText, OctaveText;
    var t := q + MarksText(n) + rest;
    var m, s, d, o := MarksText(n), SharpText(n.sharp), DotText(n.dotted), OctaveText(n.octave);
    assert m == s + d + o;
    var j1 := |q| + |s|;
    var j2 := j1 + |d|;
    var j3 := j2 + |o|;
    assert |t| == j3 + |rest|;
    assert n.sharp ==> t[|q|] == '#';
    assert !n.sharp && |q| < |t| ==> t[|q|] != '#';
    SharpStep(t, |q|, n.sharp, NoteNumber(n.letter), dur, defaultOct);
    assert n.dotted ==> t[j1] == '.';
    assert !n.dotted && j1 < |t| ==> t[j1] != '.';
    DotStep(t, j1, n.dotted, SemitoneOf(n), dur, defaultOct);
    assert n.octave.Some? ==> t[j2] == o[0];
    assert n.octave.None? && j2 < |t| ==> t[j2] == rest[0];
    assert rest != [] ==> t[j3] == ',';
    OctaveStep(t, j2, n.octave, SemitoneOf(n), if n.dotted then dur + dur / 2 else dur, defaultOct);
  }

  /** A written note within the table sounds the table entry of its octave and semitone. */
  lemma FrequencyOf(n: NoteSpec, defaultOct: nat)
    requires SpecOk(n) && InTable(n, defaultOct)
    ensures Frequency(OctaveOr(n.octave, defaultOct), SemitoneOf(n))
      == Ok(Notes[TableIndex(OctaveOr(n.octave, defaultOct), SemitoneOf(n))])
  {
  }

  /** A written note reads back as its tone, and a following comma is consumed. */
  lemma NoteRoundTrip(p: string, n: NoteSpec, rest: string, h: Header)
    requires SpecOk(n) && InTable(n, h.defaultOct) && h.defaultDur > 0 && (rest == [] || rest[0] == ',')
    ensures |p| < |p + NoteText(n) + rest|
    ensures ParseNote(p + NoteText(n) + rest, |p|, h) == Ok((ToneOf(n, h), |p| + |NoteText(n)| + if rest == [] then 0 else 1))
  {
    hide Marks, MarksText, DurText, ScanEnd, ScanValue, Div, NoteNumber, Frequency;
    NoteScan(p, n, rest);
    FrequencyOf(n, h.defaultOct);
    var q := p + DurText(n.dur) + [n.letter];
    var dur := Div(h.wholenote, if n.dur > 0 then n.dur else h.defaultDur);
    MarksRoundTrip(q, n, rest, dur, h.defaultOct);
    assert |NoteText(n)| == |DurText(n.dur)| + 1 + |MarksText(n)|;
  }

  /** The duration and the letter of a written note. */
  lemma NoteScan(p: string, n: NoteSpec, rest: string)
    requires SpecOk(n) && (rest == [] || rest[0] == ',')
    ensures var t := p + NoteText(n) + rest; var e := |p| + |DurText(n.dur)|;
      e < |t| && ScanEnd(t, |p|) == e && ScanValue(t, |p|) == n.dur && t[e] == n.letter
      && t == p + DurText(n.dur) + [n.letter] + MarksText(n) + rest
  {
    hide Marks, MarksText, DurText, ScanEnd, ScanValue;
    var d, m := DurText(n.dur), MarksText(n);
    var tail := [n.letter] + m + rest;
    assert p + NoteText(n) + rest == p + d + tail == p + d + [n.letter] + m + rest;
    ScanDigitsAt(p, d, tail);
  }

  /** Digits written after `p` read back as their value, and scanning stops where they end. */
  lemma ScanDigitsAt(p: string, ds: string, tail: string)
    requires (forall k :: 0 <= k < |ds| ==> IsDigit(ds[k])) && tail != [] && !IsDigit(tail[0])
    ensures var t := p + ds + tail;
      ScanEnd(t, |p|) == |p| + |ds| && ScanValue(t, |p|) == DigitsValue(ds) && t[|p| + |ds|] == tail[0]
  {
    hide ScanEnd, ScanValue, DigitsValue;
    var t := p + ds + tail;
    forall k | 0 <= k < |ds| ensures IsDigit(ds[k]) && t[|p| + k] == ds[k] {
      assert t[|p| + k] == (p + ds)[|p| + k];
    }
    assert t[|p| + |ds|] == tail[0];
    ScanDigits(t, |p|, ds);
  }

  /** Written notes read back as their tones, one tone per note. */
  lemma {:induction false} NotesRoundTrip(p: string, ns: seq<NoteSpec>, h: Header)
    requires forall k :: 0 <= k < |ns| ==> SpecOk(ns[k]) && InTable(ns[k], h.defaultOct)
    requires h.defaultDur > 0
    ensures ParseNotes(p + NotesText(ns), |p|, h) == Ok(TonesOf(ns, h))
    decreases |ns|
  {
    hide ParseNote, NoteText, ToneOf;
    if ns == [] {
      assert p + NotesText(ns) == p;
    } else if |ns| == 1 {
      NoteRoundTrip(p, ns[0], [], h);
      assert p + NotesText(ns) == p + NoteText(ns[0]) + [];
      assert ParseNotes(p + NotesText(ns), |p| + |NoteText(ns[0])|, h) == Ok([]);
    } else {
      var t := p + NotesText(ns);
      var rest := "," + NotesText(ns[1..]);
      assert t == p + NoteText(ns[0]) + rest;
      NoteRoundTrip(p, ns[0], rest, h);
      var p' := p + NoteText(ns[0]) + ",";
      assert t == p' + NotesText(ns[1..]);
      NotesRoundTrip(p', ns[1..], h);
    }
  }

  /**
   * A melody written as a defaults line and notes compiles, under either
   * tempo guard, to its name and to one tone per note, each as the note
   * means under those defaults.
   */
  lemma TuneRoundTrip(name: string, d: nat, o: nat, b: nat, ns: seq<NoteSpec>, g: Guard)
    requires ':' !in name && d > 0 && 3 <= o <= 7 && b > 0
    requires forall k :: 0 <= k < |ns| ==> SpecOk(ns[k]) && InTable(ns[k], o)
    ensures var h := Header(if |name| > 0 then name else "(no name)", d, o, b, WholeNote(b), |HeaderText(name, d, o, b)|);
      Compile(HeaderText(name, d, o, b) + NotesText(ns), g) == Ok(Melody(h.name, TonesOf(ns, h)))
  {
    hide ParseHeader, ParseNotes, HeaderText, NotesText, TonesOf, WholeNote;
    var h := Header(if |name| > 0 then name else "(no name)", d, o, b, WholeNote(b), |HeaderText(name, d, o, b)|);
    HeaderRoundTrip(name, d, o, b, NotesText(ns), g);
    NotesRoundTrip(HeaderText(name, d, o, b), ns, h);
  }

  // --------------------------------------------------------------- behaviour

  /** The tone table holds one brace-opened initialiser per tone, as many as the length printed beside it. */
  lemma {:induction false} ToneListCount(ts: seq<Tone>)
    ensures multiset(ToneList(ts))['{'] == |ts|
  {
    if ts != [] {
      var f, d := Decimal(ts[0].frequency), Decimal(ts[0].durationMs);
      assert '{' !in f && '{' !in d;
      assert ToneList(ts) == "{" + f + "," + d + "}," + ToneList(ts[1..]);
      ToneListCount(ts[1..]);
    }
  }

  /**
   * As written, the tempo field always replaces the default 63, so an empty
   * tempo field makes the whole-note division a run-time panic; with the
   * intended guard the default stays.
   */
  lemma EmptyTempoDividesByZero()
    ensures ParseHeader("x:d=4,o=6,b=:c", AsWritten) == Err(DivideByZero)
    ensures Compile("x:d=4,o=6,b=:c", AsWritten) == Err(DivideByZero)
    ensures ParseHeader("x:d=4,o=6,b=:c", Intended) == Ok(Header("x", 4, 6, 63, WholeNote(63), 13))
  {
    var t := "x:d=4,o=6,b=:c";
    DefaultsLine(t, 6, "b=:c");
    ScanDigits(t, 12, "");
    hide DurationField, OctaveField, NameEnd, ScanEnd, ScanValue, ParseNotes;
    assert TempoField(t, 10, 63, AsWritten) == Ok((0, 13));
    assert TempoField(t, 10, 63, Intended) == Ok((63, 13));
  }

  /** The name `x` and the fields `d=4` and `o=` with digit `o` of a line. */
  lemma DefaultsLine(t: string, o: nat, rest: string)
    requires 3 <= o <= 7 && t == "x:d=4,o=" + [DigitChar(o)] + "," + rest
    ensures NameEnd(t, 0) == 1 && t[..1] == "x"
    ensures DurationField(t, 2, 4) == Ok((4, 6)) && OctaveField(t, 6, 6) == Ok((o, 10))
  {
    NameEndAt(t, 0, 1);
    ScanDigits(t, 4, "4");
  }

  /**
   * The intended tempo guard never divides by zero, and it differs from the
   * guard as written only where that one divides by zero.
   */
  lemma IntendedTempo(t: string)
    ensures ParseHeader(t, Intended) != Err(DivideByZero)
    ensures ParseHeader(t, AsWritten).Ok? ==> ParseHeader(t, Intended) == ParseHeader(t, AsWritten)
    ensures ParseHeader(t, Intended).Err? ==> ParseHeader(t, AsWritten) == ParseHeader(t, Intended)
  {
    var c := NameEnd(t, 0);
    if c < |t| && DurationField(t, c + 1, 4).Ok? {
      var i := DurationField(t, c + 1, 4).value.1;
      if OctaveField(t, i, 6).Ok? {
        var j := OctaveField(t, i, 6).value.1;
        if j + 1 < |t| && t[j] == 'b' && t[j + 1] == '=' {
          var num := ScanValue(t, j + 2);
          assert Tempo(Intended, 63, num) > 0;
          assert num > 0 ==> Tempo(Intended, 63, num) == Tempo(AsWritten, 63, num);
        }
      }
    }
  }

  /** Octave 3 passes the defaults line, but the table starts at octave 4: a `c` there indexes before the table. */
  lemma OctaveThreeOutOfTable()
    ensures Compile("x:d=4,o=3,b=63:c", AsWritten) == Err(IndexOutOfRange(-11))
  {
    var t := "x:d=4,o=3,b=63:c";
    var h := OneNoteLine(t, 3, 'c');
    assert Marks(t, 16, 1, 952, 3) == Marked(1, 952, 3, 16);
    hide Marks, ParseHeader;
    assert ParseNote(t, 15, h) == Err(IndexOutOfRange(-11));
  }

  /** A `p` is not silent: at octave 6 it sounds 2217 Hz, the C sharp three octaves above the table's first C. */
  lemma PauseSounds()
    ensures Compile("x:d=4,o=6,b=63:p", AsWritten) == Ok(Melody("x", [Tone(2217, 952)]))
  {
    var t := "x:d=4,o=6,b=63:p";
    var h := OneNoteLine(t, 6, 'p');
    PauseNote(t, h);
    hide ParseHeader, ParseNotes;
  }

  lemma PauseNote(t: string, h: Header)
    requires |t| == 16 && t[15] == 'p' && ScanEnd(t, 15) == 15 && ScanValue(t, 15) == 0
    requires h.defaultDur == 4 && h.defaultOct == 6 && h.wholenote == 3808
    ensures ParseNotes(t, 15, h) == Ok([Tone(2217, 952)])
  {
    assert Div(h.wholenote, 4) == 952;
    assert Marks(t, 16, 14, 952, 6) == Marked(14, 952, 6, 16);
    hide Marks, ScanEnd, ScanValue, Div;
    assert ParseNote(t, 15, h) == Ok((Tone(2217, 952), 16));
    assert ParseNotes(t, 16, h) == Ok([]);
    assert [Tone(2217, 952)] + [] == [Tone(2217, 952)];
  }

  /** The line `x:d=4,o=<o>,b=63:<letter>`: its header, and its one note scanned with no duration digits. */
  lemma OneNoteLine(t: string, o: nat, letter: char) returns (h: Header)
    requires 3 <= o <= 7 && !IsDigit(letter) && t == "x:d=4,o=" + [DigitChar(o)] + ",b=63:" + [letter]
    ensures h == Header("x", 4, o, 63, 3808, 15) && h.defaultDur > 0
    ensures ParseHeader(t, AsWritten) == Ok(h)
    ensures |t| == 16 && t[15] == letter && ScanEnd(t, 15) == 15 && ScanValue(t, 15) == 0
    ensures Div(h.wholenote, 4) == 952
  {
    DefaultsLine(t, o, "b=63:" + [letter]);
    ScanDigits(t, 12, "63");
    ScanDigits(t, 15, "");
    h := Header("x", 4, o, 63, 3808, 15);
    hide DurationField, OctaveField, NameEnd, ScanEnd, ScanValue;
    assert TempoField(t, 10, 63, AsWritten) == Ok((63, 15));
    assert WholeNote(63) == 3808;
  }

  /**
   * The line is read with its newline: a newline left after the last note
   * is read as one more note, with no letter, so a 440 Hz tone of the
   * default duration ends the melody.
   */
  lemma TrailingNewlineTone(t: string, i: nat, h: Header)
    requires i + 1 == |t| && t[i] == '\n' && h.defaultDur > 0
    ensures ParseNotes(t, i, h) == Ok([Tone(440, Div(h.wholenote, h.defaultDur))])
  {
    ScanEndAt(t, i, i);
    assert t[i..i] == [];
    assert [Tone(440, Div(h.wholenote, h.defaultDur))] + [] == [Tone(440, Div(h.wholenote, h.defaultDur))];
  }
}
