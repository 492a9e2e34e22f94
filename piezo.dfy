/**
 * The RTTTL player of the early firmware (`src/piezo.cpp`): `start_playing`
 * parses the defaults line of a melody and leaves the global `tune` pointer
 * at the first note; each `get_note` reads one note and yields its frequency
 * and duration, until the terminating NUL.
 *
 * The melody is a C string: its characters, which hold no NUL, followed by
 * the terminator, so the character under the pointer is `At(s, i)` for
 * `i <= |s|`.  The globals are the fields of a `Player`.  The player task,
 * its command queue and the sound output are not part of this model; what
 * C leaves undefined (a division by zero, a read past the terminator, an
 * index outside `notes`) is an `Undefined` outcome.
 */
module Piezo {
  import opened Bytes
  import opened Wrappers
  import opened Music

  /** The characters of a NUL-terminated string. */
  type CText = s: string | '\0' !in s

  /** The character under a pointer `i` characters into the string. */
  function At(s: CText, i: nat): (c: char)
    requires i <= |s|
    ensures c == '\0' <==> i == |s|
  {
    if i < |s| then s[i] else '\0'
  }

  /** `notes`: silence, then C4 up to B7 (the compiler's table without its last four entries). */
  const Table: seq<nat> := Notes[..49]

  /** What C leaves undefined. */
  datatype Fault =
    | DivisionByZero          // 60 * 1000L / bpm with bpm == 0, or wholenote / default_dur with default_dur == 0
    | ReadPastEnd           // the note letter was the terminator, and the marks are read after it
    | OutsideTable(index: int)  // notes[(scale - 4) * 12 + note] outside the 49 entries

  /** The player's globals, `tune` aside: the pointer offset and the defaults. */
  datatype Regs = Regs(pos: nat, defaultDur: nat, defaultOct: nat, bpm: nat, wholenote: nat)

  /** How `start_playing` ends: ready, "Bad tune" logged, or undefined. */
  datatype Begun = Ready | Borked | Undefined(fault: Fault)

  datatype Start = Start(outcome: Begun, regs: Regs)

  // ---------------------------------------------------------- start_playing

  /**
   * `start_playing`: the defaults 4, 6 and 63, then the preamble and the
   * three fields.  A bad line logs "Bad tune" and leaves the pointer where
   * the parse stopped, with the fields read so far and the previous whole
   * note `w`.
   */
  function Begin(s: CText, w: nat): (r: Start)
    ensures r.regs.pos <= |s| && r.regs.defaultDur < 256 && r.regs.defaultOct <= 9 && r.regs.bpm < 256
    ensures r.outcome == Ready ==> r.regs.bpm > 0 && r.regs.wholenote == WholeNote(r.regs.bpm)
    ensures r.outcome != Ready ==> r.regs.wholenote == w
  {
    var c := NameEnd(s, 0);
    if At(s, c) == '\0' then Start(Borked, Regs(c, 4, 6, 63, w))
    else DurationStage(s, c + 1, w)
  }

  /** `d=`, digits and `,`: a positive field replaces the duration, truncated to `uint8_t`. */
  function DurationStage(s: CText, i: nat, w: nat): (r: Start)
    requires i <= |s|
    ensures r.regs.pos <= |s| && r.regs.defaultDur < 256 && r.regs.defaultOct <= 9 && r.regs.bpm < 256
    ensures r.outcome == Ready ==> r.regs.bpm > 0 && r.regs.wholenote == WholeNote(r.regs.bpm)
    ensures r.outcome != Ready ==> r.regs.wholenote == w
  {
    if At(s, i) != 'd' || At(s, i + 1) != '=' then Start(Borked, Regs(i, 4, 6, 63, w))
    else
      var e, num := ScanEnd(s, i + 2), ScanValue(s, i + 2);
      var dur := if num > 0 then num % 256 else 4;
      if At(s, e) != ',' then Start(Borked, Regs(e, dur, 6, 63, w))
      else OctaveStage(s, e + 1, dur, w)
  }

  /** `o=`, one digit and `,`: a digit from 3 to 7 replaces the octave. */
  function OctaveStage(s: CText, i: nat, dur: nat, w: nat): (r: Start)
    requires i <= |s| && dur < 256
    ensures r.regs.pos <= |s| && r.regs.defaultDur < 256 && r.regs.defaultOct <= 9 && r.regs.bpm < 256
    ensures r.outcome == Ready ==> r.regs.bpm > 0 && r.regs.wholenote == WholeNote(r.regs.bpm)
    ensures r.outcome != Ready ==> r.regs.wholenote == w
  {
    if At(s, i) != 'o' || At(s, i + 1) != '=' then Start(Borked, Regs(i, dur, 6, 63, w))
    else if !IsDigit(At(s, i + 2)) then Start(Borked, Regs(i + 2, dur, 6, 63, w))
    else
      var num := DigitValue(At(s, i + 2));
      var oct := if 3 <= num <= 7 then num else 6;
      if At(s, i + 3) != ',' then Start(Borked, Regs(i + 3, dur, oct, 63, w))
      else TempoStage(s, i + 4, dur, oct, 63, w)
  }

  /**
   * `b=`, digits and `:`: the field replaces the tempo whenever the tempo
   * so far is not zero, which the default 63 never is, truncated to
   * `uint8_t`; then the whole note, undefined for a zero tempo.
   */
  function TempoStage(s: CText, i: nat, dur: nat, oct: nat, bpm: nat, w: nat): (r: Start)
    requires i <= |s| && dur < 256 && oct <= 9 && bpm < 256
    ensures r.regs.pos <= |s| && r.regs.defaultDur < 256 && r.regs.defaultOct <= 9 && r.regs.bpm < 256
    ensures r.outcome == Ready ==> r.regs.bpm > 0 && r.regs.wholenote == WholeNote(r.regs.bpm)
    ensures r.outcome != Ready ==> r.regs.wholenote == w
  {
    if At(s, i) != 'b' || At(s, i + 1) != '=' then Start(Borked, Regs(i, dur, oct, bpm, w))
    else
      var e, num := ScanEnd(s, i + 2), ScanValue(s, i + 2);
      var b := Tempo(AsWritten, bpm, num) % 256;
      if At(s, e) != ':' then Start(Borked, Regs(e, dur, oct, b, w))
      else if b == 0 then Start(Undefined(DivisionByZero), Regs(e + 1, dur, oct, b, w))
      else Start(Ready, Regs(e + 1, dur, oct, b, WholeNote(b)))
  }

  // --------------------------------------------------------------- get_note

  /** One `get_note`: no note at the terminator, else a tone and the pointer after it and its comma. */
  datatype Step = Done | Play(frequency: nat, durationMs: nat, next: nat) | Fails(fault: Fault)

  /**
   * The note under the pointer: its digits (the default duration for
   * none) divide the whole note, its letter and `#` give the semitone, a
   * `.` adds half the duration, a digit is its octave (the default
   * otherwise), and a `,` after it is skipped; a semitone of 0 sounds
   * 440 Hz.
   */
  function NoteStep(s: CText, pos: nat, r: Regs): (st: Step)
    requires pos <= |s|
    ensures st.Done? <==> pos == |s|
    ensures st.Play? ==> pos < st.next <= |s|
  {
    if At(s, pos) == '\0' then Done
    else
      var e, num := ScanEnd(s, pos), ScanValue(s, pos);
      var n := if num != 0 then num else r.defaultDur;
      if n == 0 then Fails(DivisionByZero)
      else if At(s, e) == '\0' then Fails(ReadPastEnd)
      else
        var m := Marks(s, e + 1, NoteNumber(s[e]), Div(r.wholenote, n), r.defaultOct);
        if m.note == 0 then Play(440, m.dur, m.next)
        else
          var k := TableIndex(m.scale, m.note);
          if 0 <= k < |Table| then Play(Table[k], m.dur, m.next) else Fails(OutsideTable(k))
  }

  /** The tones `get_note` yields from `pos` until it returns false, or the first undefined step. */
  function Plays(s: CText, pos: nat, r: Regs): Result<seq<Tone>, Fault>
    requires pos <= |s|
    decreases |s| - pos
  {
    match NoteStep(s, pos, r)
    case Done => Ok([])
    case Fails(f) => Err(f)
    case Play(f, d, next) =>
      match Plays(s, next, r)
      case Ok(ts) => Ok([Tone(f, d)] + ts)
      case Err(x) => Err(x)
  }

  // ------------------------------------------------------------ the player

  /** `while (isdigit(*tune)) num = num * 10 + (*tune++ - '0')`, from offset `i`. */
  method ReadNumber(s: CText, i: nat) returns (num: nat, e: nat)
    requires i <= |s|
    ensures e == ScanEnd(s, i) && num == ScanValue(s, i)
  {
    num, e := 0, i;
    while IsDigit(At(s, e))
      invariant i <= e <= |s| && ScanEnd(s, e) == ScanEnd(s, i)
      invariant forall k :: i <= k < e ==> IsDigit(s[k])
      invariant num == DigitsValue(s[i..e])
      decreases |s| - e
    {
      Bytes.DigitsStep(s, i, e);
      num := num * 10 + DigitValue(s[e]);
      e := e + 1;
    }
  }

  class Player {
    var tune: CText
    var pos: nat
    var defaultDur: nat
    var defaultOct: nat
    var bpm: nat
    var wholenote: nat

    function State(): Regs
      reads this
    {
      Regs(pos, defaultDur, defaultOct, bpm, wholenote)
    }

    /** The globals before any melody: zero, and no tune. */
    constructor ()
      ensures tune == [] && State() == Regs(0, 0, 0, 0, 0)
    {
      tune, pos := [], 0;
      defaultDur, defaultOct, bpm, wholenote := 0, 0, 0, 0;
    }

    /** `start_playing(melody)`. */
    method StartPlaying(melody: CText) returns (b: Begun)
      modifies this
      ensures tune == melody && Start(b, State()) == Begin(melody, old(wholenote))
    {
      tune, pos := melody, 0;
      defaultDur, defaultOct, bpm := 4, 6, 63;
      while At(tune, pos) != '\0' && At(tune, pos) != ':'
        invariant tune == melody && pos <= |tune| && NameEnd(tune, pos) == NameEnd(tune, 0)
        invariant defaultDur == 4 && defaultOct == 6 && bpm == 63 && wholenote == old(wholenote)
        decreases |tune| - pos
      {
        pos := pos + 1;
      }
      if At(tune, pos) == '\0' {
        return Borked;
      }
      pos := pos + 1;
      b := ReadDurationField();
    }

    /** The `d=` field and what follows it. */
    method ReadDurationField() returns (b: Begun)
      requires pos <= |tune| && defaultDur == 4 && defaultOct == 6 && bpm == 63
      modifies this
      ensures tune == old(tune) && Start(b, State()) == DurationStage(tune, old(pos), old(wholenote))
    {
      hide OctaveStage, ScanEnd, ScanValue;
      if At(tune, pos) != 'd' || At(tune, pos + 1) != '=' {
        return Borked;
      }
      var num;
      num, pos := ReadNumber(tune, pos + 2);
      if num > 0 {
        defaultDur := num % 256;
      }
      if At(tune, pos) != ',' {
        return Borked;
      }
      pos := pos + 1;
      b := ReadOctaveField();
    }

    /** The `o=` field and what follows it. */
    method ReadOctaveField() returns (b: Begun)
      requires pos <= |tune| && defaultDur < 256 && defaultOct == 6 && bpm == 63
      modifies this
      ensures tune == old(tune) && Start(b, State()) == OctaveStage(tune, old(pos), old(defaultDur), old(wholenote))
    {
      if At(tune, pos) != 'o' || At(tune, pos + 1) != '=' {
        return Borked;
      }
      pos := pos + 2;
      if !IsDigit(At(tune, pos)) {
        return Borked;
      }
      var num := DigitValue(At(tune, pos));
      pos := pos + 1;
      if num >= 3 && num <= 7 {
        defaultOct := num;
      }
      if At(tune, pos) != ',' {
        return Borked;
      }
      pos := pos + 1;
      b := ReadTempoField();
    }

    /** The `b=` field and the whole note. */
    method ReadTempoField() returns (b: Begun)
      requires pos <= |tune| && defaultDur < 256 && defaultOct <= 9 && bpm < 256
      modifies this
      ensures tune == old(tune)
      ensures Start(b, State()) == TempoStage(tune, old(pos), old(defaultDur), old(defaultOct), old(bpm), old(wholenote))
    {
      if At(tune, pos) != 'b' || At(tune, pos + 1) != '=' {
        return Borked;
      }
      var num;
      num, pos := ReadNumber(tune, pos + 2);
      if bpm != 0 {
        bpm := num % 256;
      }
      if At(tune, pos) != ':' {
        return Borked;
      }
      pos := pos + 1;
      if bpm == 0 {
        return Undefined(DivisionByZero);
      }
      wholenote := WholeNote(bpm);
      b := Ready;
    }

    /**
     * `get_note`: the next note, the pointer moved past it; the pointer
     * stays at the terminator once the melody is over.
     */
    method GetNote() returns (st: Step)
      requires pos <= |tune|
      modifies this
      ensures st == NoteStep(old(tune), old(pos), old(State()))
      ensures tune == old(tune) && State() == old(State()).(pos := if st.Play? then st.next else old(pos))
    {
      hide Marks, ScanEnd, ScanValue, Div;
      if At(tune, pos) == '\0' {
        return Done;
      }
      var num, p := ReadNumber(tune, pos);
      var n := if num != 0 then num else defaultDur;
      if n == 0 {
        return Fails(DivisionByZero);
      }
      var durationMs := Div(wholenote, n);
      var c := At(tune, p);
      if c == '\0' {
        return Fails(ReadPastEnd);
      }
      var note, scale;
      note, durationMs, scale, p := ReadNoteMarks(tune, p + 1, NoteNumber(c), durationMs, defaultOct);
      var frequency := 440;
      if note != 0 {
        var k := (scale as int - 4) * 12 + note;
        if k < 0 || k >= |Table| {
          return Fails(OutsideTable(k));
        }
        frequency := Table[k];
      }
      pos := p;
      st := Play(frequency, durationMs, p);
    }
  }

  /** The `#`, `.`, octave and `,` steps of `get_note`, each looking at the character under the pointer. */
  method ReadNoteMarks(s: CText, p0: nat, note0: nat, dur0: nat, defaultOct: nat)
    returns (note: nat, durationMs: nat, scale: nat, p: nat)
    requires p0 <= |s|
    ensures Marked(note, durationMs, scale, p) == Marks(s, p0, note0, dur0, defaultOct)
  {
    note, durationMs, p := note0, dur0, p0;
    if At(s, p) == '#' {
      note := note + 1;
      p := p + 1;
    }
    if At(s, p) == '.' {
      durationMs := durationMs + durationMs / 2;
      p := p + 1;
    }
    if IsDigit(At(s, p)) {
      scale := DigitValue(At(s, p));
      p := p + 1;
    } else {
      scale := defaultOct;
    }
    if At(s, p) == ',' {
      p := p + 1;
    }
  }

  // ------------------------------------------------- agreement with main.go

  /** The `d=` field is read as the compiler reads it, truncated to `uint8_t`. */
  lemma DurationAgrees(s: CText, i: nat, w: nat)
    requires i <= |s|
    ensures var f := DurationField(s, i, 4);
      && (f.Err? ==> f.error.BadTune? && DurationStage(s, i, w).outcome == Borked && DurationStage(s, i, w).regs.pos == f.error.at)
      && (f.Ok? ==> DurationStage(s, i, w) == OctaveStage(s, f.value.1, f.value.0 % 256, w))
  {
    hide OctaveStage;
  }

  /** The `o=` field is read as the compiler reads it. */
  lemma OctaveAgrees(s: CText, i: nat, dur: nat, w: nat)
    requires i <= |s| && dur < 256
    ensures var f := OctaveField(s, i, 6);
      && (f.Err? ==> f.error.BadTune? && OctaveStage(s, i, dur, w).outcome == Borked && OctaveStage(s, i, dur, w).regs.pos == f.error.at)
      && (f.Ok? ==> f.value.0 <= 9 && OctaveStage(s, i, dur, w) == TempoStage(s, f.value.1, dur, f.value.0, 63, w))
  {
    hide TempoStage;
  }

  /** The `b=` field is read as the compiler reads it, truncated to `uint8_t`; a zero tempo leaves the whole note undefined. */
  lemma TempoAgrees(s: CText, i: nat, dur: nat, oct: nat, w: nat)
    requires i <= |s| && dur < 256 && oct <= 9
    ensures var f := TempoField(s, i, 63, AsWritten);
      && (f.Err? ==> f.error.BadTune? && TempoStage(s, i, dur, oct, 63, w).outcome == Borked
                     && TempoStage(s, i, dur, oct, 63, w).regs.pos == f.error.at)
      && (f.Ok? ==> var b := f.value.0 % 256;
            TempoStage(s, i, dur, oct, 63, w)
            == if b == 0 then Start(Undefined(DivisionByZero), Regs(f.value.1, dur, oct, 0, w))
               else Start(Ready, Regs(f.value.1, dur, oct, b, WholeNote(b))))
  {
  }

  /**
   * `start_playing` and the compiler agree on the defaults line: the same
   * lines are bad, at the same place; a zero tempo is undefined in both;
   * and with fields below 256 the player is left where the compiler starts
   * reading notes, with the compiler's defaults and whole note.
   */
  lemma StartAgrees(s: CText, w: nat)
    ensures var r, ph := Begin(s, w), ParseHeader(s, AsWritten);
      && (r.outcome == Borked <==> ph.Err? && ph.error.BadTune?)
      && (r.outcome == Borked ==> r.regs.pos == ph.error.at)
      && (ph == Err(DivideByZero) ==> r.outcome == Undefined(DivisionByZero))
      && (ph.Ok? && ph.value.defaultDur < 256 && ph.value.bpm < 256 ==>
            r == Start(Ready, Regs(ph.value.start, ph.value.defaultDur, ph.value.defaultOct, ph.value.bpm, ph.value.wholenote)))
  {
    hide DurationStage, OctaveStage, TempoStage, DurationField, OctaveField, TempoField, WholeNote;
    var c := NameEnd(s, 0);
    if c < |s| {
      DurationAgrees(s, c + 1, w);
      var f := DurationField(s, c + 1, 4);
      if f.Ok? {
        OctaveAgrees(s, f.value.1, f.value.0 % 256, w);
        var g := OctaveField(s, f.value.1, 6);
        if g.Ok? {
          TempoAgrees(s, g.value.1, f.value.0 % 256, g.value.0, w);
        }
      }
    }
  }

  /** Defaults that agree with the compiler's header. */
  predicate SameDefaults(r: Regs, h: Header) {
    r.defaultDur == h.defaultDur && r.defaultOct == h.defaultOct && r.wholenote == h.wholenote
  }

  /**
   * `get_note` and the compiler's note agree: a played note is the
   * compiler's tone, ending at the same place; a note the compiler rejects
   * is undefined here; and the only note the player fails on that the
   * compiler accepts is one in the compiler's last four table entries.
   */
  lemma NoteAgrees(s: CText, pos: nat, h: Header, r: Regs)
    requires pos < |s| && h.defaultDur > 0 && SameDefaults(r, h)
    ensures var st, pn := NoteStep(s, pos, r), ParseNote(s, pos, h);
      && (st.Play? ==> pn == Ok((Tone(st.frequency, st.durationMs), st.next)))
      && (pn.Err? ==> st.Fails? && st.fault != DivisionByZero)
      && (st.Fails? && pn.Ok? ==> st.fault.OutsideTable? && |Table| <= st.fault.index < |Notes|)
  {
  }

  /**
   * The melody `get_note` plays from `pos` is the compiler's, whenever the
   * player gets to its end; where it does not, the compiler fails too or
   * the melody reaches past the player's table.
   */
  lemma {:induction false} PlaysAgree(s: CText, pos: nat, h: Header, r: Regs)
    requires pos <= |s| && h.defaultDur > 0 && SameDefaults(r, h)
    ensures Plays(s, pos, r).Ok? ==> ParseNotes(s, pos, h) == Ok(Plays(s, pos, r).value)
    ensures Plays(s, pos, r).Err? && ParseNotes(s, pos, h).Ok? ==> Plays(s, pos, r).error.OutsideTable?
    decreases |s| - pos
  {
    if pos < |s| {
      NoteAgrees(s, pos, h, r);
      var st := NoteStep(s, pos, r);
      if st.Play? {
        PlaysAgree(s, st.next, h, r);
      }
    }
  }

  /**
   * A melody the compiler accepts, with fields below 256, is played by the
   * player tone for tone, unless a note lies past the player's table.
   */
  lemma SongAgrees(s: CText, w: nat)
    requires ParseHeader(s, AsWritten).Ok?
    requires ParseHeader(s, AsWritten).value.defaultDur < 256 && ParseHeader(s, AsWritten).value.bpm < 256
    ensures var r := Begin(s, w).regs;
      && Begin(s, w).outcome == Ready
      && (Plays(s, r.pos, r).Ok? ==> Compile(s, AsWritten) == Ok(Melody(ParseHeader(s, AsWritten).value.name, Plays(s, r.pos, r).value)))
      && (Plays(s, r.pos, r).Err? && Compile(s, AsWritten).Ok? ==> Plays(s, r.pos, r).error.OutsideTable?)
  {
    StartAgrees(s, w);
    var h := ParseHeader(s, AsWritten).value;
    PlaysAgree(s, h.start, h, Begin(s, w).regs);
  }

  /**
   * A written note within the player's table plays as it means: the table
   * entry of its octave and semitone, for the whole note divided by its
   * duration (the default when it has none), half as long again when
   * dotted; and a comma after it is skipped.
   */
  lemma NoteMeaning(p: CText, n: NoteSpec, rest: CText, h: Header, r: Regs)
    requires SpecOk(n) && InTable(n, h.defaultOct) && h.defaultDur > 0 && SameDefaults(r, h)
    requires TableIndex(OctaveOr(n.octave, h.defaultOct), SemitoneOf(n)) < |Table|
    requires rest == [] || rest[0] == ','
    ensures '\0' !in p + NoteText(n) + rest
    ensures NoteStep(p + NoteText(n) + rest, |p|, r)
      == Play(ToneOf(n, h).frequency, ToneOf(n, h).durationMs, |p| + |NoteText(n)| + if rest == [] then 0 else 1)
  {
    hide Marks, MarksText, DurText, ScanEnd, ScanValue, Div, NoteStep;
    NoteChars(n);
    var s: CText := p + NoteText(n) + rest;
    NoteScan(p, n, rest);
    var q := p + DurText(n.dur) + [n.letter];
    var dur := Div(h.wholenote, if n.dur > 0 then n.dur else h.defaultDur);
    MarksRoundTrip(q, n, rest, dur, h.defaultOct);
    var m := Marks(s, |q|, NoteNumber(n.letter), dur, h.defaultOct);
    PlayAt(s, |p|, r, |q| - 1, n.dur, m);
  }

  /** `get_note` on a note whose digits, letter and marks are known. */
  lemma PlayAt(s: CText, pos: nat, r: Regs, e: nat, num: nat, m: Marked)
    requires pos <= e < |s| && ScanEnd(s, pos) == e && ScanValue(s, pos) == num
    requires num != 0 || r.defaultDur > 0
    requires m == Marks(s, e + 1, NoteNumber(s[e]), Div(r.wholenote, if num != 0 then num else r.defaultDur), r.defaultOct)
    requires m.note != 0 && 0 <= TableIndex(m.scale, m.note) < |Table|
    ensures NoteStep(s, pos, r) == Play(Notes[TableIndex(m.scale, m.note)], m.dur, m.next)
  {
    hide Marks, ScanEnd, ScanValue, Div;
  }

  /** A written note holds no NUL. */
  lemma NoteChars(n: NoteSpec)
    requires SpecOk(n)
    ensures '\0' !in NoteText(n)
  {
    var d, m := DurText(n.dur), MarksText(n);
    assert NoteText(n) == d + [n.letter] + m;
    assert '\0' !in d;
    assert '\0' !in m by {
      assert m == SharpText(n.sharp) + DotText(n.dotted) + OctaveText(n.octave);
    }
  }

  /** A letter that is not a note, without a `#`, sounds 440 Hz; a comma right after it is skipped. */
  lemma UnknownLetter(s: CText, pos: nat, r: Regs)
    requires pos < |s| && (ScanValue(s, pos) > 0 || r.defaultDur > 0)
    requires ScanEnd(s, pos) < |s| && NoteNumber(s[ScanEnd(s, pos)]) == 0
    requires ScanEnd(s, pos) + 1 < |s| && s[ScanEnd(s, pos) + 1] == ','
    ensures NoteStep(s, pos, r).Play? && NoteStep(s, pos, r).frequency == 440
    ensures NoteStep(s, pos, r).next == ScanEnd(s, pos) + 2
  {
  }

  // -------------------------------------------------------------- behaviour

  /** As in the compiler, an empty tempo field replaces the default 63 and the whole-note division is undefined. */
  lemma EmptyTempoUndefined(s: CText, w: nat)
    requires s == "x:d=4,o=6,b=:c"
    ensures Begin(s, w).outcome == Undefined(DivisionByZero)
  {
    EmptyTempoDividesByZero();
    hide Begin, ParseHeader, Compile;
    StartAgrees(s, w);
  }

  /**
   * A duration field of 256 is positive, so it replaces the default, but
   * it is stored in a `uint8_t` as 0: the first note without digits then
   * divides the whole note by zero.
   */
  lemma TruncatedDuration(s: CText, w: nat)
    requires s == "x:d=256,o=6,b=63:c"
    ensures Begin(s, w) == Start(Ready, Regs(17, 0, 6, 63, 3808))
    ensures NoteStep(s, 17, Regs(17, 0, 6, 63, 3808)) == Fails(DivisionByZero)
  {
    TruncatedLine(s);
    hide NameEnd, ScanEnd, ScanValue, WholeNote;
    assert TempoStage(s, 12, 0, 6, 63, w) == Start(Ready, Regs(17, 0, 6, 63, 3808));
    hide TempoStage;
    assert OctaveStage(s, 8, 0, w) == Start(Ready, Regs(17, 0, 6, 63, 3808));
    hide OctaveStage;
    assert DurationStage(s, 2, w) == Start(Ready, Regs(17, 0, 6, 63, 3808));
  }

  /** Where the name and the numbers of `x:d=256,o=6,b=63:c` end, and what they are. */
  lemma TruncatedLine(s: CText)
    requires s == "x:d=256,o=6,b=63:c"
    ensures |s| == 18 && NameEnd(s, 0) == 1 && WholeNote(63) == 3808
    ensures ScanEnd(s, 4) == 7 && ScanValue(s, 4) == 256
    ensures ScanEnd(s, 14) == 16 && ScanValue(s, 14) == 63
    ensures ScanEnd(s, 17) == 17 && ScanValue(s, 17) == 0
  {
    NameEndAt(s, 0, 1);
    TruncatedNumber(s);
    TruncatedTempo(s);
  }

  lemma TruncatedTempo(s: CText)
    requires s == "x:d=256,o=6,b=63:c"
    ensures ScanEnd(s, 14) == 16 && ScanValue(s, 14) == 63
    ensures ScanEnd(s, 17) == 17 && ScanValue(s, 17) == 0
  {
    ScanDigits(s, 14, "63");
    ScanDigits(s, 17, "");
  }

  lemma TruncatedNumber(s: CText)
    requires s == "x:d=256,o=6,b=63:c"
    ensures ScanEnd(s, 4) == 7 && ScanValue(s, 4) == 256
  {
    var ds := "256";
    assert DigitsValue(ds[..1]) == 2;
    assert ds[..2][..1] == ds[..1];
    assert DigitsValue(ds[..2]) == 25;
    assert ds[..2] == ds[..|ds| - 1];
    assert DigitsValue(ds) == 256;
    ScanDigits(s, 4, ds);
  }
}
