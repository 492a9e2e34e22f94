/**
 * The SerialCommands library of the early firmware: characters read from a
 * stream collect in a fixed buffer until the terminator string (`"\r\n"` in
 * the firmware) has been matched; the line before it is split with `strtok`
 * and its first word selects a registered command, or else the default
 * handler.
 *
 * The stream is a parameter (the values `read()` returns while `available()`
 * is positive).  Handlers are foreign function pointers: a dispatch is the
 * returned `Action`, which carries the index of the command or the word given
 * to the default handler, and the words that the handler's `Next()` calls
 * would return.
 */
module SerialCmd {
  import opened Wrappers
  import opened Bytes

  const MaxCommands := 16

  /** A C string holds no NUL. */
  predicate CString(s: Text) { forall i :: 0 <= i < |s| ==> s[i] != '\0' }

  /** Byte `k` of the terminator, its NUL at `k == |term|`. */
  function TermChar(term: Text, k: nat): char {
    if k < |term| then term[k] else '\0'
  }

  // ------------------------------------------------------------ tokenizing

  predicate IsDelim(c: char, delim: Text) { c in delim }

  /** `strtok_r`: the first position at or after `i` that is not a delimiter. */
  function SkipDelims(s: Text, i: nat, delim: Text): (r: nat)
    requires i <= |s|
    ensures i <= r <= |s| && (r < |s| ==> !IsDelim(s[r], delim))
    ensures forall k :: i <= k < r ==> IsDelim(s[k], delim)
    decreases |s| - i
  {
    if i == |s| || !IsDelim(s[i], delim) then i else SkipDelims(s, i + 1, delim)
  }

  /** The first delimiter at or after `i`, or the end. */
  function TokenEnd(s: Text, i: nat, delim: Text): (r: nat)
    requires i <= |s|
    ensures i <= r <= |s| && (r < |s| ==> IsDelim(s[r], delim))
    ensures forall k :: i <= k < r ==> !IsDelim(s[k], delim)
    decreases |s| - i
  {
    if i == |s| || IsDelim(s[i], delim) then i else TokenEnd(s, i + 1, delim)
  }

  /**
   * One `strtok_r` call from position `i`: the token and the saved position,
   * just past the delimiter that ended it (which `strtok` overwrites with
   * NUL), or `None` when only delimiters remain.
   */
  function Token(s: Text, i: nat, delim: Text): (r: Option<(Text, nat)>)
    requires i <= |s|
    ensures r.Some? ==> i < r.value.1 <= |s| && |r.value.0| > 0
    ensures r.Some? ==> forall k :: 0 <= k < |r.value.0| ==> !IsDelim(r.value.0[k], delim)
    ensures r.None? <==> forall k :: i <= k < |s| ==> IsDelim(s[k], delim)
  {
    var b := SkipDelims(s, i, delim);
    if b == |s| then None
    else
      var e := TokenEnd(s, b, delim);
      Some((s[b..e], if e < |s| then e + 1 else e))
  }

  /** The tokens that successive `strtok_r(NULL, …)` calls return from position `i`. */
  function Tokens(s: Text, i: nat, delim: Text): seq<Text>
    requires i <= |s|
    decreases |s| - i
  {
    match Token(s, i, delim)
    case None => []
    case Some((w, j)) => [w] + Tokens(s, j, delim)
  }

  // ------------------------------------------------------------ the line machine

  /** The buffered characters `buffer_[0..buffer_pos_)` and the terminator match `term_pos_`. */
  /** What `read()` returns: a byte, or -1 when nothing is available. */
  type Code = c: int | -1 <= c < 256

  datatype Machine = Machine(buf: seq<char>, termPos: nat)

  /** The empty buffer `ClearBuffer` leaves. */
  const Cleared := Machine([], 0)

  /** What one character read from the stream does. */
  datatype Fed =
    | Ignored                                   // `ch <= 0`: skipped
    | Overflow                                  // no room: buffer cleared, BUFFER_FULL
    | Stored(m: Machine, line: Option<Text>)    // stored; `line` when the terminator completed

  /**
   * The body of the `ReadSerial` loop for character `ch`.  A character that
   * does not continue the terminator resets the match to 0 without being
   * compared with the terminator's first character again.
   */
  function Feed(m: Machine, ch: Code, term: Text, cap: nat): (r: Fed)
    requires m.termPos <= |m.buf| && (0 < |term| ==> m.termPos < |term|)
    ensures r.Stored? ==> 0 < ch
    ensures r.Stored? && r.line.Some? ==> r.m == Cleared && |r.line.value| + |term| == |m.buf| + 1
    ensures r.Stored? && r.line.None? ==> 0 < ch && r.m.buf == m.buf + [ch as char]
  {
    if ch <= 0 then Ignored
    else if |m.buf| >= cap then Overflow
    else
      var b := m.buf + [ch as char];
      if TermChar(term, m.termPos) != ch as char then Stored(Machine(b, 0), None)
      else if m.termPos + 1 == |term| then Stored(Cleared, Some(b[..|b| - |term|]))
      else Stored(Machine(b, m.termPos + 1), None)
  }

  /**
   * The machine's invariant: the last `termPos` buffered characters are the
   * terminator's first `termPos`, and a match never reaches the whole
   * terminator without being consumed.
   */
  predicate Tracks(m: Machine, term: Text) {
    m.termPos <= |m.buf| && (0 < |term| ==> m.termPos < |term|) && (|term| == 0 ==> m.termPos == 0)
    && m.buf[|m.buf| - m.termPos..] == term[..m.termPos]
  }

  /**
   * What `Feed` stores for a character that fits: `Feed`'s own definition for
   * that case, stated as a lemma so that proofs which hide `Feed` can use it.
   * It is a proof device and adds no property of its own.
   */
  lemma FeedStoredCases(m: Machine, ch: Code, term: Text, cap: nat)
    requires m.termPos <= |m.buf| && (0 < |term| ==> m.termPos < |term|) && 0 < ch && |m.buf| < cap
    ensures var b := m.buf + [ch as char];
      Feed(m, ch, term, cap)
        == if TermChar(term, m.termPos) != ch as char then Stored(Machine(b, 0), None)
           else if m.termPos + 1 == |term| then Stored(Cleared, Some(b[..|b| - |term|]))
           else Stored(Machine(b, m.termPos + 1), None)
  {
  }

  lemma TracksFeedable(m: Machine, term: Text)
    requires Tracks(m, term)
    ensures m.termPos <= |m.buf| && (0 < |term| ==> m.termPos < |term|)
  {
  }

  /**
   * `Feed` keeps the invariant, and a completed line is exactly the buffer
   * with its terminator cut off (`buffer_[buffer_pos_ - strlen(term_)] = '\0'`).
   */
  lemma FeedTracks(m: Machine, ch: Code, term: Text, cap: nat)
    requires Tracks(m, term)
    ensures var r := Feed(m, ch, term, cap);
      (r.Stored? ==> Tracks(r.m, term))
      && (r.Stored? && r.line.Some? ==> m.buf + [ch as char] == r.line.value + term)
  {
    var r := Feed(m, ch, term, cap);
    if r.Stored? && r.line.Some? {
      FeedCompletes(m, ch, term, cap);
    } else if r.Stored? && r.m.termPos > 0 {
      FeedExtends(m, ch, term, cap);
    }
  }

  lemma FeedCompletes(m: Machine, ch: Code, term: Text, cap: nat)
    requires Tracks(m, term)
    requires var r := Feed(m, ch, term, cap); r.Stored? && r.line.Some?
    ensures m.buf + [ch as char] == Feed(m, ch, term, cap).line.value + term
  {
    var b := m.buf + [ch as char];
    assert b[|b| - |term|..] == m.buf[|m.buf| - m.termPos..] + [ch as char];
    assert term == term[..m.termPos] + [term[m.termPos]];
    assert b == b[..|b| - |term|] + b[|b| - |term|..];
  }

  lemma FeedExtends(m: Machine, ch: Code, term: Text, cap: nat)
    requires Tracks(m, term)
    requires var r := Feed(m, ch, term, cap); r.Stored? && r.line.None? && r.m.termPos > 0
    ensures Tracks(Feed(m, ch, term, cap).m, term)
  {
    var r := Feed(m, ch, term, cap);
    var b := m.buf + [ch as char];
    assert TermChar(term, m.termPos) == ch as char;
    assert m.termPos < |term|;
    assert b[|b| - r.m.termPos..] == b[|b| - 1 - m.termPos..|b| - 1] + [ch as char];
    assert b[|b| - 1 - m.termPos..|b| - 1] == m.buf[|m.buf| - m.termPos..];
    assert term[..r.m.termPos] == term[..m.termPos] + [term[m.termPos]];
  }

  /** The (possibly stopped) result of reading a stream. */
  datatype Status = Success | NoSerial | BufferFull

  datatype Run = Run(status: Status, m: Machine, lines: seq<Text>, consumed: nat)

  /**
   * Reading `input` from machine `m`: the lines completed on the way, the
   * machine left behind, and how many characters were read before a full
   * buffer stopped the loop.
   */
  function ReadAll(m: Machine, input: seq<Code>, term: Text, cap: nat): (r: Run)
    requires Tracks(m, term)
    ensures r.consumed <= |input| && Tracks(r.m, term) && r.status != NoSerial
    ensures r.status == Success ==> r.consumed == |input|
    ensures r.status == BufferFull ==> r.m == Cleared && r.consumed > 0
    decreases |input|
  {
    if input == [] then Run(Success, m, [], 0)
    else
      FeedTracks(m, input[0], term, cap);
      match Feed(m, input[0], term, cap)
      case Ignored =>
        var r := ReadAll(m, input[1..], term, cap);
        r.(consumed := r.consumed + 1)
      case Overflow => Run(BufferFull, Cleared, [], 1)
      case Stored(m', line) =>
        var r := ReadAll(m', input[1..], term, cap);
        r.(lines := (if line.Some? then [line.value] else []) + r.lines, consumed := r.consumed + 1)
  }

  /** The machine after one character was fed. */
  function After(m: Machine, f: Fed): Machine {
    match f
    case Ignored => m
    case Overflow => Cleared
    case Stored(m', _) => m'
  }

  /** The line one character completed, if any. */
  function Completed(f: Fed): seq<Text> {
    if f.Stored? && f.line.Some? then [f.line.value] else []
  }

  /** Reading a non-empty input is its first character, then the rest from where it left the machine. */
  lemma ReadAllFirst(m: Machine, input: seq<Code>, term: Text, cap: nat)
    requires Tracks(m, term) && 0 < |input|
    ensures var f := Feed(m, input[0], term, cap);
      Tracks(After(m, f), term)
      && (f.Overflow? ==> ReadAll(m, input, term, cap) == Run(BufferFull, Cleared, [], 1))
      && (!f.Overflow? ==>
            ReadAll(m, input, term, cap) == Combine(Completed(f), 1, ReadAll(After(m, f), input[1..], term, cap)))
  {
    FeedTracks(m, input[0], term, cap);
  }

  /**
   * A return that is doubled before the newline is not recognised: the
   * second `\r` resets the match and is not taken as a new start, so
   * `"\r\r\n"` after any text completes no line although it ends with the
   * terminator.
   */
  lemma DoubledReturnMissed(b: Text, cap: nat)
    requires |b| + 3 <= cap
    ensures ReadAll(Machine(b, 0), [13, 13, 10], "\r\n", cap)
         == Run(Success, Machine(b + "\r\r\n", 0), [], 3)
  {
    var t := "\r\n";
    assert t[0] == '\r' && t[1] == '\n' && |t| == 2;
    var m0, m1, m2, m3 := Machine(b, 0), Machine(b + ['\r'], 1), Machine(b + ['\r', '\r'], 0), Machine(b + ['\r', '\r', '\n'], 0);
    assert (b + ['\r']) + ['\r'] == b + ['\r', '\r'];
    assert (b + ['\r', '\r']) + ['\n'] == b + ['\r', '\r', '\n'];
    assert (b + ['\r'])[|b|] == '\r';
    assert Tracks(m0, t) && Tracks(m1, t) && Tracks(m2, t) && Tracks(m3, t);
    assert Feed(m0, 13, t, cap) == Stored(m1, None);
    assert Feed(m1, 13, t, cap) == Stored(m2, None);
    assert Feed(m2, 10, t, cap) == Stored(m3, None);
    assert [13, 13, 10] == [13] + [13, 10] && [13, 10] == [13] + [10] && [10] == [10] + [];
    ReadAllNil(m3, t, cap);
    ReadAllQuiet(m2, 10, [], t, cap);
    ReadAllQuiet(m1, 13, [10], t, cap);
    ReadAllQuiet(m0, 13, [13, 10], t, cap);
    assert b + ['\r', '\r', '\n'] == b + "\r\r\n";
  }

  lemma ReadAllNil(m: Machine, term: Text, cap: nat)
    requires Tracks(m, term)
    ensures ReadAll(m, [], term, cap) == Run(Success, m, [], 0)
  {
  }

  /** A character that completes no line adds one to the count and nothing else. */
  lemma ReadAllQuiet(m: Machine, ch: Code, rest: seq<Code>, term: Text, cap: nat)
    requires Tracks(m, term)
    requires Feed(m, ch, term, cap).Stored? && Feed(m, ch, term, cap).line.None?
    ensures var m' := Feed(m, ch, term, cap).m;
      Tracks(m', term) &&
      ReadAll(m, [ch] + rest, term, cap) == ReadAll(m', rest, term, cap).(consumed := ReadAll(m', rest, term, cap).consumed + 1)
  {
    FeedTracks(m, ch, term, cap);
    assert ([ch] + rest)[0] == ch && ([ch] + rest)[1..] == rest;
  }

  /** A line with its terminator, read into an empty buffer with room for it, is one line. */
  lemma {:induction false} OneLine(m: Machine, s: Text, term: Text, cap: nat, k: nat)
    requires ByteText(term) && CString(term) && |term| > 0
    requires k <= |s| && m.buf == s[..k] && m.termPos == 0
    requires ByteText(s) && CString(s) && forall i :: 0 <= i < |s| ==> s[i] !in term
    requires |s| + |term| <= cap
    ensures ReadAll(m, Codes(s[k..] + term), term, cap).lines == [s]
    decreases |s| - k
  {
    if k < |s| {
      var r := Codes(s[k..] + term);
      assert r == [s[k] as int] + Codes(s[k + 1..] + term);
      assert s[..k] + [s[k]] == s[..k + 1];
      assert s[k] != TermChar(term, 0);
      var m' := Machine(s[..k + 1], 0);
      assert Tracks(m, term);
      assert Feed(m, s[k] as int, term, cap) == Stored(m', None);
      ReadAllQuiet(m, s[k] as int, Codes(s[k + 1..] + term), term, cap);
      hide ReadAll, Feed, Tracks;
      OneLine(m', s, term, cap, k + 1);
    } else {
      assert s[k..] + term == term;
      assert s + term[..0] == s && term[0..] == term;
      TermRead(s, term, cap, 0);
    }
  }

  /** The terminator, read after `s` with `j` of it already matched, completes exactly line `s`. */
  lemma {:induction false} TermRead(s: Text, term: Text, cap: nat, j: nat)
    requires ByteText(term) && CString(term) && |term| > 0 && j < |term|
    requires |s| + |term| <= cap
    ensures Tracks(Machine(s + term[..j], j), term)
    ensures ReadAll(Machine(s + term[..j], j), Codes(term[j..]), term, cap).lines == [s]
    decreases |term| - j
  {
    var m := Machine(s + term[..j], j);
    assert m.buf[|m.buf| - j..] == term[..j];
    var c := Codes(term[j..]);
    assert c[0] == term[j] as int && c[1..] == Codes(term[j + 1..]);
    var b := m.buf + [term[j]];
    assert b == s + term[..j + 1];
    assert 0 < c[0] < 256 && TermChar(term, j) == term[j];
    if j + 1 == |term| {
      assert b[..|b| - |term|] == s;
      assert Feed(m, c[0], term, cap) == Stored(Cleared, Some(s));
      assert c[1..] == [];
    } else {
      assert Feed(m, c[0], term, cap) == Stored(Machine(s + term[..j + 1], j + 1), None);
      TermRead(s, term, cap, j + 1);
    }
  }

  predicate ByteText(s: Text) { forall i :: 0 <= i < |s| ==> s[i] as int < 256 }

  /** The character codes `read()` returns for a text. */
  function Codes(s: Text): (r: seq<Code>)
    requires ByteText(s)
    ensures |r| == |s| && forall i :: 0 <= i < |s| ==> r[i] == s[i] as int
  {
    seq(|s|, i requires 0 <= i < |s| => s[i] as int)
  }

  // ------------------------------------------------------------ dispatch

  datatype Action =
    | Command(index: nat, args: seq<Text>)  // `commands_ptr[index]->function`, then `Next()` yields `args`
    | Unrecognized(command: Text)           // the default handler with the first word

  /** The first registered command equal to `w` (`strncmp` over the length with its NUL). */
  function FindCommand(commands: seq<Text>, w: Text, i: nat): (r: Option<nat>)
    requires i <= |commands|
    ensures r.Some? ==> i <= r.value < |commands| && commands[r.value] == w
    ensures r.Some? ==> forall k :: i <= k < r.value ==> commands[k] != w
    ensures r.None? ==> forall k :: i <= k < |commands| ==> commands[k] != w
    decreases |commands| - i
  {
    if i == |commands| then None
    else if commands[i] == w then Some(i)
    else FindCommand(commands, w, i + 1)
  }

  /** What a completed line does: nothing for a line of delimiters only. */
  function Dispatch(line: Text, delim: Text, commands: seq<Text>, hasDefault: bool): (r: Option<Action>)
  {
    match Token(line, 0, delim)
    case None => None
    case Some((w, j)) =>
      match FindCommand(commands, w, 0)
      case Some(k) => Some(Command(k, Tokens(line, j, delim)))
      case None => if hasDefault then Some(Unrecognized(w)) else None
  }

  /** The actions of a sequence of completed lines, in order. */
  function DispatchAll(lines: seq<Text>, delim: Text, commands: seq<Text>, hasDefault: bool): seq<Action>
  {
    if lines == [] then []
    else
      var a := Dispatch(lines[0], delim, commands, hasDefault);
      (if a.Some? then [a.value] else []) + DispatchAll(lines[1..], delim, commands, hasDefault)
  }

  /** A line whose first word is registered runs the first command of that name. */
  lemma DispatchRegistered(line: Text, w: Text, rest: Text, delim: Text, commands: seq<Text>, k: nat, hd: bool)
    requires |delim| > 0 && |w| > 0 && forall i :: 0 <= i < |w| ==> !IsDelim(w[i], delim)
    requires line == w + [delim[0]] + rest
    requires k < |commands| && commands[k] == w && forall i :: 0 <= i < k ==> commands[i] != w
    ensures Dispatch(line, delim, commands, hd) == Some(Command(k, Tokens(line, |w| + 1, delim)))
  {
    assert line[|w|] == delim[0];
    assert SkipDelims(line, 0, delim) == 0;
    TokenEndAt(line, 0, |w|, delim);
    assert line[0..|w|] == w;
    FindCommandAt(commands, w, 0, k);
  }

  lemma {:induction false} TokenEndAt(s: Text, i: nat, e: nat, delim: Text)
    requires i <= e < |s| && IsDelim(s[e], delim) && forall k :: i <= k < e ==> !IsDelim(s[k], delim)
    ensures TokenEnd(s, i, delim) == e
    decreases e - i
  {
    if i < e {
      TokenEndAt(s, i + 1, e, delim);
    }
  }

  lemma {:induction false} FindCommandAt(commands: seq<Text>, w: Text, i: nat, k: nat)
    requires i <= k < |commands| && commands[k] == w && forall j :: i <= j < k ==> commands[j] != w
    ensures FindCommand(commands, w, i) == Some(k)
    decreases k - i
  {
    if i < k {
      FindCommandAt(commands, w, i + 1, k);
    }
  }

  // ------------------------------------------------------------ the object

  class SerialCommands {
    /** `serial_ != NULL`. */
    var hasSerial: bool
    const buffer: array<char>
    /** `buffer_len_`: one less than the caller's buffer, for the NUL. */
    const bufferLen: nat
    const term: Text
    const delim: Text
    var hasDefault: bool
    var bufferPos: nat
    var termPos: nat
    const commandsPtr: array<Text>
    var commandsCount: nat
    /** The line `strtok_r` works on and its saved position `last_token_`. */
    var tokenLine: Text
    var lastToken: nat

    /** The layout: the buffer has room for the NUL, the command table its 16 slots. */
    ghost predicate Sound()
      reads this
    {
      buffer.Length == bufferLen + 1 && bufferPos <= bufferLen
      && commandsPtr.Length == MaxCommands && commandsCount < MaxCommands
      && lastToken <= |tokenLine|
    }

    /** Between characters, the terminator match agrees with the buffer's tail. */
    ghost predicate Valid()
      reads this, buffer
    {
      Sound() && Tracks(State(), term)
    }

    ghost function State(): Machine
      reads this, buffer
      requires bufferPos <= buffer.Length
    {
      Machine(buffer[..bufferPos], termPos)
    }

    /** The registered commands, oldest first. */
    ghost function Commands(): seq<Text>
      reads this, commandsPtr
      requires commandsCount <= commandsPtr.Length
    {
      commandsPtr[..commandsCount]
    }

    /** The constructor, for a caller's buffer of `length` (at least one) characters. */
    constructor (serial: bool, length: nat, terminator: Text, delimiters: Text)
      requires 0 < length < 32768 && CString(terminator)
      ensures Valid() && fresh(buffer) && fresh(commandsPtr)
      ensures hasSerial == serial && bufferLen == length - 1 && term == terminator && delim == delimiters
      ensures !hasDefault && Commands() == [] && State() == Cleared
    {
      hasSerial := serial;
      buffer := new char[length];
      bufferLen := length - 1;
      term, delim := terminator, delimiters;
      hasDefault := false;
      bufferPos, termPos := 0, 0;
      commandsPtr := new Text[MaxCommands];
      commandsCount := 0;
      tokenLine, lastToken := "", 0;
    }

    /** `AddCommand`: stored only while fewer than `MAX_COMMANDS - 1` are registered. */
    method AddCommand(command: Text)
      requires Valid()
      modifies this, commandsPtr
      ensures Valid() && State() == old(State())
      ensures old(commandsCount) < MaxCommands - 1 ==> Commands() == old(Commands()) + [command]
      ensures old(commandsCount) >= MaxCommands - 1 ==> Commands() == old(Commands())
    {
      if commandsCount < MaxCommands - 1 {
        commandsPtr[commandsCount] := command;
        commandsCount := commandsCount + 1;
      }
    }

    /** `SetDefaultHandler`, with a handler or with NULL. */
    method SetDefaultHandler(present: bool)
      requires Valid()
      modifies this
      ensures Valid() && hasDefault == present && State() == old(State()) && Commands() == old(Commands())
    {
      hasDefault := present;
    }

    /** `AttachSerial` and `DetachSerial`. */
    method AttachSerial(present: bool)
      requires Valid()
      modifies this
      ensures Valid() && hasSerial == present && State() == old(State()) && Commands() == old(Commands())
    {
      hasSerial := present;
    }

    /** `ClearBuffer`: an empty line and no terminator match. */
    method ClearBuffer()
      requires Sound()
      modifies this, buffer
      ensures Valid() && State() == Cleared && Commands() == old(Commands())
      ensures hasSerial == old(hasSerial) && hasDefault == old(hasDefault)
      ensures tokenLine == old(tokenLine) && lastToken == old(lastToken)
    {
      buffer[0] := '\0';
      bufferPos := 0;
      termPos := 0;
      assert buffer[..bufferPos] == [];
      assert Commands() == old(Commands());
    }

    /** `Next`: the next word of the line, or `None` for NULL. */
    method Next() returns (w: Option<Text>)
      requires Valid()
      modifies this
      ensures Valid() && State() == old(State()) && tokenLine == old(tokenLine)
      ensures var ws := Tokens(old(tokenLine), old(lastToken), delim);
        (ws == [] ==> w == None) && (ws != [] ==> w == Some(ws[0]))
        && Tokens(tokenLine, lastToken, delim) == if ws == [] then [] else ws[1..]
    {
      match Token(tokenLine, lastToken, delim)
      case None =>
        w := None;
        lastToken := |tokenLine|;
      case Some((t, j)) =>
        w := Some(t);
        lastToken := j;
    }

    /** What one completed line does, and the `strtok` state it leaves. */
    method DispatchLine(line: Text) returns (a: Option<Action>)
      requires Valid()
      modifies this
      ensures Valid() && State() == old(State()) && Commands() == old(Commands())
      ensures hasSerial == old(hasSerial) && hasDefault == old(hasDefault)
      ensures a == Dispatch(line, delim, Commands(), hasDefault)
    {
      tokenLine := line;
      var first := Token(line, 0, delim);
      if first.None? {
        lastToken := |line|;
        return None;
      }
      var (w, j) := first.value;
      lastToken := j;
      var cx := 0;
      while cx < commandsCount
        invariant cx <= commandsCount
        invariant forall k :: 0 <= k < cx ==> commandsPtr[k] != w
      {
        if commandsPtr[cx] == w {
          FindCommandAt(Commands(), w, 0, cx);
          return Some(Command(cx, Tokens(line, j, delim)));
        }
        cx := cx + 1;
      }
      assert FindCommand(Commands(), w, 0).None?;
      a := if hasDefault then Some(Unrecognized(w)) else None;
    }

    /**
     * The body of the `ReadSerial` loop for one character `ch`: skipped,
     * stored, or refused by a full buffer (which is cleared); a completed
     * line is dispatched and the buffer cleared.
     */
    method Receive(ch: Code) returns (fed: Fed, action: Option<Action>)
      requires Valid()
      modifies this, buffer
      ensures Valid() && Commands() == old(Commands()) && hasSerial == old(hasSerial) && hasDefault == old(hasDefault)
      ensures fed == Feed(old(State()), ch, term, bufferLen)
      ensures State() == After(old(State()), fed)
      ensures action == if fed.Stored? && fed.line.Some? then Dispatch(fed.line.value, delim, Commands(), hasDefault) else None
    {
      var before := Machine(buffer[..bufferPos], termPos);
      fed := Feed(before, ch, term, bufferLen);
      FeedTracks(before, ch, term, bufferLen);
      action := None;
      if ch <= 0 {
        return;
      }
      if bufferPos < bufferLen {
        Store(ch as char);
      } else {
        ClearBuffer();
        return;
      }
      var line := Match(before, ch);
      if line.Some? {
        action := DispatchLine(line.value);
      }
    }

    /**
     * The terminator test after `c` was stored behind the characters of
     * `prev`: a mismatch resets the match, and the last terminator character
     * cuts the line before the terminator and clears the buffer.
     */
    method Match(ghost prev: Machine, ch: Code) returns (line: Option<Text>)
      requires Sound() && Tracks(prev, term) && 0 < ch && |prev.buf| < bufferLen
      requires buffer[..bufferPos] == prev.buf + [ch as char] && termPos == prev.termPos
      modifies this, buffer
      ensures Sound() && Feed(prev, ch, term, bufferLen) == Stored(State(), line)
      ensures Commands() == old(Commands()) && hasSerial == old(hasSerial) && hasDefault == old(hasDefault)
    {
      hide Feed, Tracks;
      TracksFeedable(prev, term);
      FeedStoredCases(prev, ch, term, bufferLen);
      ghost var b := prev.buf + [ch as char];
      if TermChar(term, termPos) != ch as char {
        termPos := 0;
        return None;
      }
      // `term_[++term_pos_] == 0`: the whole terminator has been matched.
      if termPos + 1 == |term| {
        assert |term| <= bufferPos == |b|;
        assert buffer[..bufferPos - |term|] == b[..|b| - |term|];
        line := Some(buffer[..bufferPos - |term|]);
        ClearBuffer();
      } else {
        termPos := termPos + 1;
        line := None;
      }
    }

    /** `buffer_[buffer_pos_++] = ch`, with room for it. */
    method Store(c: char)
      requires Sound() && bufferPos < bufferLen
      modifies this, buffer
      ensures Sound() && buffer[..bufferPos] == old(buffer[..bufferPos]) + [c]
      ensures termPos == old(termPos) && Commands() == old(Commands())
      ensures hasSerial == old(hasSerial) && hasDefault == old(hasDefault)
    {
      buffer[bufferPos] := c;
      bufferPos := bufferPos + 1;
      assert Commands() == old(Commands());
    }

    /**
     * One turn of the `ReadSerial` loop, character `input[i]`: the run of
     * the whole input seen after it, and whether a full buffer stopped it.
     */
    method Advance(input: seq<Code>, i: nat, ghost m0: Machine, ghost lines: seq<Text>, actions: seq<Action>)
      returns (stop: bool, actions': seq<Action>, ghost lines': seq<Text>)
      requires Valid() && i < |input| && Tracks(m0, term)
      requires ReadAll(m0, input, term, bufferLen) == Combine(lines, i, ReadAll(State(), input[i..], term, bufferLen))
      requires actions == DispatchAll(lines, delim, Commands(), hasDefault)
      modifies this, buffer
      ensures Valid() && Commands() == old(Commands()) && hasSerial == old(hasSerial) && hasDefault == old(hasDefault)
      ensures actions' == DispatchAll(lines', delim, Commands(), hasDefault)
      ensures stop ==> ReadAll(m0, input, term, bufferLen) == Run(BufferFull, State(), lines', i + 1)
      ensures !stop ==> ReadAll(m0, input, term, bufferLen) == Combine(lines', i + 1, ReadAll(State(), input[i + 1..], term, bufferLen))
    {
      hide ReadAll, Feed, Tracks, Dispatch, DispatchAll;
      ghost var cmds := Commands();
      ReadAllAdvance(m0, input, i, lines, State(), term, bufferLen);
      var fed, a := Receive(input[i]);
      lines' := lines + Completed(fed);
      DispatchAllAppend(lines, Completed(fed), delim, cmds, hasDefault);
      DispatchCompleted(fed, delim, cmds, hasDefault);
      actions' := actions + (if a.Some? then [a.value] else []);
      stop := fed.Overflow?;
    }

    /**
     * `ReadSerial` over the characters the stream delivers.  Without a
     * stream nothing is read.  Otherwise the characters are read in order;
     * each completed line is dispatched, and a full buffer clears the buffer
     * and stops with BUFFER_FULL, leaving the rest of the input unread.
     */
    method ReadSerial(input: seq<Code>) returns (status: Status, consumed: nat, actions: seq<Action>)
      requires Valid()
      modifies this, buffer
      ensures Valid() && Commands() == old(Commands()) && hasSerial == old(hasSerial) && hasDefault == old(hasDefault)
      ensures !old(hasSerial) ==> status == NoSerial && consumed == 0 && actions == [] && State() == old(State())
      ensures old(hasSerial) ==>
        var r := ReadAll(old(State()), input, term, bufferLen);
        status == r.status && consumed == r.consumed && State() == r.m
        && actions == DispatchAll(r.lines, delim, Commands(), hasDefault)
    {
      hide ReadAll, Feed, Tracks, Dispatch, DispatchAll;
      if !hasSerial {
        return NoSerial, 0, [];
      }
      ghost var m0 := State();
      ghost var cmds := Commands();
      var i := 0;
      actions := [];
      ghost var lines: seq<Text> := [];
      ReadAllStart(m0, input, term, bufferLen, delim, cmds, hasDefault);
      while i < |input|
        invariant 0 <= i <= |input| && Valid()
        invariant Commands() == cmds && hasSerial && hasDefault == old(hasDefault)
        invariant ReadAll(m0, input, term, bufferLen) == Combine(lines, i, ReadAll(State(), input[i..], term, bufferLen))
        invariant actions == DispatchAll(lines, delim, cmds, hasDefault)
        decreases |input| - i
      {
        var stop;
        stop, actions, lines := Advance(input, i, m0, lines, actions);
        if stop {
          return BufferFull, i + 1, actions;
        }
        i := i + 1;
      }
      ReadAllDone(m0, input, lines, State(), term, bufferLen);
      status, consumed := Success, i;
    }
  }

  /** The run of a whole input, seen after `i` characters that completed `lines`. */
  function Combine(lines: seq<Text>, i: nat, r: Run): Run {
    r.(lines := lines + r.lines, consumed := r.consumed + i)
  }

  /** One more character of the input, read from where the first `i` left the machine. */
  lemma ReadAllAdvance(m0: Machine, input: seq<Code>, i: nat, lines: seq<Text>, m: Machine, term: Text, cap: nat)
    requires Tracks(m0, term) && Tracks(m, term) && i < |input|
    requires ReadAll(m0, input, term, cap) == Combine(lines, i, ReadAll(m, input[i..], term, cap))
    ensures var f := Feed(m, input[i], term, cap);
      Tracks(After(m, f), term)
      && (f.Overflow? ==> ReadAll(m0, input, term, cap) == Run(BufferFull, Cleared, lines, i + 1))
      && (!f.Overflow? ==>
            ReadAll(m0, input, term, cap) == Combine(lines + Completed(f), i + 1, ReadAll(After(m, f), input[i + 1..], term, cap)))
  {
    hide ReadAll, Feed, Tracks;
    TracksFeedable(m, term);
    assert input[i..][0] == input[i] && input[i..][1..] == input[i + 1..];
    ReadAllFirst(m, input[i..], term, cap);
    var f := Feed(m, input[i], term, cap);
    if !f.Overflow? {
      var r := ReadAll(After(m, f), input[i + 1..], term, cap);
      assert lines + (Completed(f) + r.lines) == (lines + Completed(f)) + r.lines;
    } else {
      assert lines + [] == lines;
    }
  }

  /** Before the first character: nothing read, no line, no action. */
  lemma ReadAllStart(m0: Machine, input: seq<Code>, term: Text, cap: nat, delim: Text, commands: seq<Text>, hd: bool)
    requires Tracks(m0, term)
    ensures ReadAll(m0, input, term, cap) == Combine([], 0, ReadAll(m0, input[0..], term, cap))
    ensures DispatchAll([], delim, commands, hd) == []
  {
    assert input[0..] == input;
    assert [] + ReadAll(m0, input, term, cap).lines == ReadAll(m0, input, term, cap).lines;
  }

  /** The run of the entire input, once all of it has been read. */
  lemma ReadAllDone(m0: Machine, input: seq<Code>, lines: seq<Text>, m: Machine, term: Text, cap: nat)
    requires Tracks(m0, term) && Tracks(m, term)
    requires ReadAll(m0, input, term, cap) == Combine(lines, |input|, ReadAll(m, input[|input|..], term, cap))
    ensures ReadAll(m0, input, term, cap) == Run(Success, m, lines, |input|)
  {
    assert input[|input|..] == [];
    assert lines + [] == lines;
  }

  /** The actions of the lines one character completed. */
  lemma DispatchCompleted(f: Fed, delim: Text, commands: seq<Text>, hd: bool)
    ensures DispatchAll(Completed(f), delim, commands, hd)
         == if f.Stored? && f.line.Some? && Dispatch(f.line.value, delim, commands, hd).Some?
            then [Dispatch(f.line.value, delim, commands, hd).value] else []
  {
  }

  lemma {:induction false} DispatchAllAppend(a: seq<Text>, b: seq<Text>, delim: Text, commands: seq<Text>, hd: bool)
    ensures DispatchAll(a + b, delim, commands, hd) == DispatchAll(a, delim, commands, hd) + DispatchAll(b, delim, commands, hd)
    decreases |a|
  {
    hide Dispatch;
    if a == [] {
      assert a + b == b;
    } else {
      assert (a + b)[0] == a[0] && (a + b)[1..] == a[1..] + b;
      var x := Dispatch(a[0], delim, commands, hd);
      var e := if x.Some? then [x.value] else [];
      assert DispatchAll(a + b, delim, commands, hd) == e + DispatchAll(a[1..] + b, delim, commands, hd);
      assert DispatchAll(a, delim, commands, hd) == e + DispatchAll(a[1..], delim, commands, hd);
      DispatchAllAppend(a[1..], b, delim, commands, hd);
    }
  }
}
