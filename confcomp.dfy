/**
 * The configuration-language compiler (util/config-compiler/confcomp.go).
 *
 * A text program such as
 *
 *     snappysense-compiled-config 1.0.0
 *     clear
 *     set enabled 1
 *     set ssid1 "my network"
 *     save
 *
 * is read as a sequence of lines, parsed into a `Program`, and compiled to a
 * byte stream of START, SETI, SETS and STOP records.  Every fatal diagnostic of
 * the compiler is an `Err(Failure(kind, line))`; the message text is not
 * modelled, only its kind and the line number the compiler reports.
 */
module ConfComp {
  import opened Wrappers
  import opened Bytes

  // ---------------------------------------------------------------- constants

  const InstrStart: Byte := 1
  const InstrStop: Byte := 2
  const InstrSeti: Byte := 3
  const InstrSets: Byte := 4

  const MaxVersionValue := 255
  const MaxStringLength := 65535
  const MinObservationInterval := 60
  const MaxObservationInterval := 8 * 60 * 60
  const MaxUploadInterval := 48 * 60 * 60
  const MinInetPort := 1000
  const MaxInetPort := 65535

  /** Range of Go's 64-bit `int`, the type `strconv.Atoi` produces. */
  const MinInt64 := -0x8000_0000_0000_0000
  const MaxInt64 := 0x7fff_ffff_ffff_ffff

  /** Number of integer and string slots the registry uses. */
  const NumIntSlots := 5
  const NumStrSlots := 16

  // ---------------------------------------------------------------- registry

  datatype VarTy = IntTy | StrTy

  datatype VarInfo = VarInfo(ty: VarTy, index: nat)

  datatype IntLimit = IntLimit(min: int, max: int)

  /** The `int_limits` table: a range for four of the five integer slots. */
  function IntLimits(index: nat): (r: Option<IntLimit>)
    ensures r.Some? <==> index < 4
  {
    if index == 0 then Some(IntLimit(0, 1))
    else if index == 1 then Some(IntLimit(MinObservationInterval, MaxObservationInterval))
    else if index == 2 then Some(IntLimit(MinObservationInterval, MaxUploadInterval))
    else if index == 3 then Some(IntLimit(MinInetPort, MaxInetPort))
    else None
  }

  predicate WithinLimits(index: nat, n: int) {
    IntLimits(index).Some? ==> IntLimits(index).value.min <= n <= IntLimits(index).value.max
  }

  /** The `variables` table: each name with its kind and slot. */
  const Registry: seq<(Text, VarInfo)> := [
    ("enabled", VarInfo(IntTy, 0)),
    ("mqtt-endpoint-port", VarInfo(IntTy, 3)),
    ("observation-interval", VarInfo(IntTy, 1)),
    ("upload-interval", VarInfo(IntTy, 2)),
    ("mqtt-use-tls", VarInfo(IntTy, 4)),
    ("device-id", VarInfo(StrTy, 0)),
    ("device-class", VarInfo(StrTy, 1)),
    ("ssid1", VarInfo(StrTy, 2)),
    ("ssid2", VarInfo(StrTy, 3)),
    ("ssid3", VarInfo(StrTy, 4)),
    ("password1", VarInfo(StrTy, 5)),
    ("password2", VarInfo(StrTy, 6)),
    ("password3", VarInfo(StrTy, 7)),
    ("mqtt-endpoint-host", VarInfo(StrTy, 8)),
    ("mqtt-id", VarInfo(StrTy, 9)),
    ("mqtt-root-cert", VarInfo(StrTy, 10)),
    ("mqtt-device-cert", VarInfo(StrTy, 12)),
    ("mqtt-private-key", VarInfo(StrTy, 13)),
    ("mqtt-username", VarInfo(StrTy, 14)),
    ("mqtt-password", VarInfo(StrTy, 15)),
    ("mqtt-auth", VarInfo(StrTy, 11))
  ]

  /** Every registry entry names a slot of the device's tables. */
  predicate InSlotRange(v: VarInfo) {
    match v.ty
    case IntTy => v.index < NumIntSlots
    case StrTy => v.index < NumStrSlots
  }

  /** The first entry named `name` at index `i` or later. */
  function LookupFrom(table: seq<(Text, VarInfo)>, name: Text, i: nat): (r: Option<VarInfo>)
    requires i <= |table|
    ensures r.Some? ==> exists j :: i <= j < |table| && table[j] == (name, r.value)
    decreases |table| - i
  {
    if i == |table| then None
    else if table[i].0 == name then Some(table[i].1)
    else LookupFrom(table, name, i + 1)
  }

  /** Lookup in the `variables` table. */
  function Variables(name: Text): (r: Option<VarInfo>)
    ensures r.Some? ==> InSlotRange(r.value)
    ensures r.Some? ==> exists j :: 0 <= j < |Registry| && Registry[j] == (name, r.value)
  {
    RegistryInSlots();
    LookupFrom(Registry, name, 0)
  }

  lemma RegistryInSlots()
    ensures forall j :: 0 <= j < |Registry| ==> InSlotRange(Registry[j].1)
  {
  }

  /** The registry name of each slot: the inverse of `Variables`. */
  function SlotName(ty: VarTy, index: nat): Text
    requires ty == IntTy ==> index < NumIntSlots
    requires ty == StrTy ==> index < NumStrSlots
  {
    match ty
    case IntTy =>
      ["enabled", "observation-interval", "upload-interval", "mqtt-endpoint-port", "mqtt-use-tls"][index]
    case StrTy =>
      ["device-id", "device-class", "ssid1", "ssid2", "ssid3", "password1", "password2", "password3",
       "mqtt-endpoint-host", "mqtt-id", "mqtt-root-cert", "mqtt-auth", "mqtt-device-cert",
       "mqtt-private-key", "mqtt-username", "mqtt-password"][index]
  }

  /** No name appears twice in the table. */
  lemma RegistryDistinct()
    ensures forall a, b :: 0 <= a < b < |Registry| ==> Registry[a].0 != Registry[b].0
  {
  }

  /** The lookup finds the first entry with the name. */
  lemma {:induction false} LookupFromFinds(table: seq<(Text, VarInfo)>, name: Text, i: nat, j: nat)
    requires i <= j < |table| && table[j].0 == name
    requires forall k :: i <= k < j ==> table[k].0 != name
    ensures LookupFrom(table, name, i) == Some(table[j].1)
    decreases j - i
  {
    if i < j {
      LookupFromFinds(table, name, i + 1, j);
    }
  }

  /** Every slot of both tables has exactly the registry entry its name says. */
  lemma RegistryCoversSlots(ty: VarTy, index: nat)
    requires ty == IntTy ==> index < NumIntSlots
    requires ty == StrTy ==> index < NumStrSlots
    ensures Variables(SlotName(ty, index)) == Some(VarInfo(ty, index))
  {
    RegistryDistinct();
    var j := if ty == IntTy then [0, 2, 3, 1, 4][index]
             else [5, 6, 7, 8, 9, 10, 11, 12, 13, 14, 15, 20, 16, 17, 18, 19][index];
    assert Registry[j] == (SlotName(ty, index), VarInfo(ty, index));
    LookupFromFinds(Registry, SlotName(ty, index), 0, j);
  }

  // ---------------------------------------------------------------- program

  /** One `set` statement; `ival` is meaningful for integers, `sval` for strings. */
  datatype SetStmt = SetStmt(v: VarInfo, sval: Text, ival: int)

  datatype Program = Program(v0: Byte, v1: Byte, v2: Byte, clear: bool, save: bool, body: seq<SetStmt>)

  datatype ErrorKind =
    | EmptyProgram
    | BadPreambleSyntax
    | BadVersionValue
    | UnknownVersion
    | MissingPreamble
    | BadSetSyntax
    | BadValue
    | HomeUndefined
    | EmptyFilename
    | CannotOpen
    | CannotRead
    | UnknownVariable
    | BadInteger
    | OutOfRange
    | StringTooLong
    | IllegalStatement
    | MissingTerminator
    | TrailingInput

  /** A fatal diagnostic and the line number it reports. */
  datatype Failure = Failure(kind: ErrorKind, line: nat)

  /** What an indirect value may find in the file system. */
  datatype FileEntry = Contents(data: Text) | Unreadable

  /** The environment: `HOME`, and the files an indirect value can name (absent = cannot open). */
  datatype Env = Env(home: Option<Text>, files: map<Text, FileEntry>)

  // ---------------------------------------------------------------- lines

  /** ASCII white space, the one-byte characters `unicode.IsSpace` accepts: \t \n \v \f \r and space. */
  predicate IsSpace(c: char) { c == ' ' || '\t' <= c <= '\r' }

  /** `\s` in a Go regular expression: \t \n \f \r and space (not \v). */
  predicate IsRegexSpace(c: char) { c == ' ' || c == '\t' || c == '\n' || c as int == 12 || c == '\r' }

  /**
   * The two- and three-byte UTF-8 encodings of the other code points that
   * `unicode.IsSpace` accepts: U+0085 and U+00A0; U+1680, U+2000 to U+200A,
   * U+2028, U+2029, U+202F, U+205F and U+3000.
   */
  predicate IsSpace2(a: char, b: char) {
    a as int == 0xC2 && (b as int == 0x85 || b as int == 0xA0)
  }

  predicate IsSpace3(a: char, b: char, c: char) {
    (a as int == 0xE1 && b as int == 0x9A && c as int == 0x80) ||
    (a as int == 0xE2 && b as int == 0x80 &&
      (0x80 <= c as int <= 0x8A || c as int == 0xA8 || c as int == 0xA9 || c as int == 0xAF)) ||
    (a as int == 0xE2 && b as int == 0x81 && c as int == 0x9F) ||
    (a as int == 0xE3 && b as int == 0x80 && c as int == 0x80)
  }

  /**
   * The length of the white-space character that `s` starts with, or 0.  A
   * complete encoding at the front is exactly what `utf8.DecodeRuneInString`
   * decodes there; the lead byte fixes the length, so at most one length fits.
   */
  function SpaceLen(s: Text): (n: nat)
    ensures n <= |s| && n <= 3
    ensures n == 0 ==> |s| == 0 || !IsSpace(s[0])
  {
    if |s| >= 1 && IsSpace(s[0]) then 1
    else if |s| >= 2 && IsSpace2(s[0], s[1]) then 2
    else if |s| >= 3 && IsSpace3(s[0], s[1], s[2]) then 3
    else 0
  }

  /**
   * The length of the white-space character that `s` ends with, or 0: what
   * `utf8.DecodeLastRuneInString` decodes when the text ends in a complete
   * encoding (continuation bytes are at least 0x80, so no shorter or
   * longer encoding can end there too).
   */
  function SpaceLenEnd(s: Text): (n: nat)
    ensures n <= |s| && n <= 3
    ensures n == 0 ==> |s| == 0 || !IsSpace(s[|s| - 1])
  {
    var k := |s|;
    if k >= 1 && IsSpace(s[k - 1]) then 1
    else if k >= 2 && IsSpace2(s[k - 2], s[k - 1]) then 2
    else if k >= 3 && IsSpace3(s[k - 3], s[k - 2], s[k - 1]) then 3
    else 0
  }

  /** A run of white-space characters, read from the front. */
  predicate Spaces(p: Text)
    decreases |p|
  {
    |p| == 0 || (SpaceLen(p) > 0 && Spaces(p[SpaceLen(p)..]))
  }

  /** A run of white-space characters, read from the back. */
  predicate SpacesEnd(p: Text)
    decreases |p|
  {
    |p| == 0 || (SpaceLenEnd(p) > 0 && SpacesEnd(p[..|p| - SpaceLenEnd(p)]))
  }

  /** `strings.TrimLeftFunc(s, unicode.IsSpace)`. */
  function TrimLeft(s: Text): (r: Text)
    ensures |r| <= |s|
    ensures SpaceLen(r) == 0
    decreases |s|
  {
    var n := SpaceLen(s);
    if n > 0 then TrimLeft(s[n..]) else s
  }

  /** `strings.TrimRightFunc(s, unicode.IsSpace)`. */
  function TrimRight(s: Text): (r: Text)
    ensures |r| <= |s|
    ensures SpaceLenEnd(r) == 0
    decreases |s|
  {
    var n := SpaceLenEnd(s);
    if n > 0 then TrimRight(s[..|s| - n]) else s
  }

  /** A prefix long enough to hold the white-space character in front of `s` starts with the same one. */
  lemma SpaceLenPrefix(p: Text, s: Text)
    requires |p| <= |s| && p == s[..|p|] && SpaceLen(s) <= |p|
    ensures SpaceLen(p) == SpaceLen(s)
  {
    hide IsSpace2, IsSpace3;
    assert forall i :: 0 <= i < |p| ==> p[i] == s[i];
  }

  /** A suffix long enough to hold the white-space character at the end of `s` ends with the same one. */
  lemma SpaceLenEndSuffix(p: Text, s: Text)
    requires |p| <= |s| && p == s[|s| - |p|..] && SpaceLenEnd(s) <= |p|
    ensures SpaceLenEnd(p) == SpaceLenEnd(s)
  {
    hide IsSpace2, IsSpace3;
    var d := |s| - |p|;
    assert forall i :: 0 <= i < |p| ==> p[i] == s[d + i];
  }

  /** `TrimLeft` keeps a suffix and drops exactly the white-space characters in front of it. */
  lemma {:induction false} TrimLeftSuffix(s: Text)
    ensures TrimLeft(s) == s[|s| - |TrimLeft(s)|..]
    ensures Spaces(s[..|s| - |TrimLeft(s)|])
    decreases |s|
  {
    hide TrimLeft, Spaces, SpaceLen;
    var n := SpaceLen(s);
    if n > 0 {
      var t := s[n..];
      TrimLeftSuffix(t);
      TrimLeftStep(s);
      var m := |TrimLeft(t)|;
      var p := s[..|s| - m];
      assert p[n..] == s[n..|s| - m] == t[..|t| - m];
      SpaceLenPrefix(p, s);
      SpacesStep(p, t[..|t| - m]);
    } else {
      TrimLeftStep(s);
      assert s[..0] == [];
      SpacesEmpty();
    }
  }

  /** `TrimRight` keeps a prefix and drops exactly the white-space characters behind it. */
  lemma {:induction false} TrimRightPrefix(s: Text)
    ensures TrimRight(s) == s[..|TrimRight(s)|]
    ensures SpacesEnd(s[|TrimRight(s)|..])
    decreases |s|
  {
    hide TrimRight, SpacesEnd, SpaceLenEnd;
    var n := SpaceLenEnd(s);
    if n > 0 {
      var t := s[..|s| - n];
      TrimRightPrefix(t);
      TrimRightStep(s);
      var m := |TrimRight(t)|;
      assert t[..m] == s[..m];
      var p := s[m..];
      assert p[..|p| - n] == s[m..|s| - n] == t[m..];
      SpaceLenEndSuffix(p, s);
      SpacesEndStep(p, t[m..]);
    } else {
      TrimRightStep(s);
      assert s[|s|..] == [];
      SpacesEndEmpty();
    }
  }

  lemma TrimLeftStep(s: Text)
    ensures SpaceLen(s) > 0 ==> TrimLeft(s) == TrimLeft(s[SpaceLen(s)..])
    ensures SpaceLen(s) == 0 ==> TrimLeft(s) == s
  {
  }

  lemma TrimRightStep(s: Text)
    ensures SpaceLenEnd(s) > 0 ==> TrimRight(s) == TrimRight(s[..|s| - SpaceLenEnd(s)])
    ensures SpaceLenEnd(s) == 0 ==> TrimRight(s) == s
  {
  }

  lemma SpacesStep(p: Text, q: Text)
    requires SpaceLen(p) > 0 && q == p[SpaceLen(p)..] && Spaces(q)
    ensures Spaces(p)
  {
  }

  lemma SpacesEndStep(p: Text, q: Text)
    requires SpaceLenEnd(p) > 0 && q == p[..|p| - SpaceLenEnd(p)] && SpacesEnd(q)
    ensures SpacesEnd(p)
  {
  }

  lemma SpacesEmpty()
    ensures Spaces([])
  {
  }

  lemma SpacesEndEmpty()
    ensures SpacesEnd([])
  {
  }

  /** A trailing no-break space (bytes C2 A0) is trimmed, and a line of only one is blank. */
  lemma TrimNoBreakSpace()
    ensures Trim("set ssid1 Home\U{00C2}\U{00A0}") == "set ssid1 Home"
    ensures Trim("\U{00C2}\U{00A0}\n") == ""
  {
    var t: Text := "set ssid1 Home\U{00C2}\U{00A0}";
    assert SpaceLen(t) == 0;
    assert SpaceLenEnd(t) == 2 && t[..|t| - 2] == "set ssid1 Home";
    assert SpaceLenEnd("set ssid1 Home") == 0;
    var u: Text := "\U{00C2}\U{00A0}\n";
    assert SpaceLen(u) == 2 && u[2..] == "\n";
    assert SpaceLen("\n") == 1 && "\n"[1..] == [];
  }

  /** `strings.TrimSpace`: white-space characters removed from both ends. */
  function Trim(s: Text): Text {
    TrimRight(TrimLeft(s))
  }

  /** A text that neither starts nor ends with a white-space character. */
  predicate Unpadded(l: Text) {
    SpaceLen(l) == 0 && SpaceLenEnd(l) == 0
  }

  /** A line as `match_preamble` and `match_set` receive it: trimmed, no newline inside. */
  predicate IsTrimmedLine(l: Text) {
    '\n' !in l && (|l| == 0 || (!IsSpace(l[0]) && !IsSpace(l[|l| - 1])))
  }

  /** A raw line as `read_input` stores it: a newline can only be its last byte. */
  predicate IsRawLine(l: Text) {
    |l| == 0 || '\n' !in l[..|l| - 1]
  }

  lemma TrimRawLine(l: Text)
    requires IsRawLine(l)
    ensures IsTrimmedLine(Trim(l))
  {
    hide TrimLeft, TrimRight, SpaceLen, SpaceLenEnd;
    var t := TrimLeft(l);
    var r := TrimRight(t);
    var a := |l| - |t|;
    TrimLeftSuffix(l);
    TrimRightPrefix(t);
    assert r == l[a..a + |r|];
    if |r| > 0 {
      assert r[0] == t[0];
    }
    forall i | 0 <= i < |r|
      ensures r[i] != '\n'
    {
      assert r[i] == l[a + i];
      if a + i < |l| - 1 {
        assert l[a + i] == l[..|l| - 1][a + i];
      } else {
        assert i == |r| - 1;
      }
    }
  }

  /** `read_input`: the text split after each newline, plus the final partial line. */
  function ReadLines(text: Text): (r: seq<Text>)
    ensures |r| > 0
    ensures forall k :: 0 <= k < |r| ==> IsRawLine(r[k])
    decreases |text|
  {
    var i := NewlineAt(text);
    if i == |text| then [text] else [text[..i + 1]] + ReadLines(text[i + 1..])
  }

  /** The index of the first newline, or the length when there is none. */
  function NewlineAt(s: Text): (i: nat)
    ensures i <= |s|
    ensures '\n' !in s[..i]
    ensures i < |s| ==> s[i] == '\n'
  {
    if |s| == 0 || s[0] == '\n' then 0 else 1 + NewlineAt(s[1..])
  }

  function Concat(ls: seq<Text>): Text {
    if |ls| == 0 then [] else ls[0] + Concat(ls[1..])
  }

  /** The stored lines, put back together, are the input text. */
  lemma {:induction false} ReadLinesConcat(text: Text)
    ensures Concat(ReadLines(text)) == text
    decreases |text|
  {
    var i := NewlineAt(text);
    if i < |text| {
      ReadLinesConcat(text[i + 1..]);
      assert text == text[..i + 1] + text[i + 1..];
    }
  }

  /** A significant line: neither blank nor a comment. */
  predicate Significant(t: Text) {
    t != [] && t[0] != '#'
  }

  /** A trimmed significant line and its 1-based line number. */
  datatype Line = Line(text: Text, no: nat)

  /** The significant, trimmed lines from index `k` on, with their line numbers. */
  function SigFrom(lines: seq<Text>, k: nat): seq<Line>
    requires k <= |lines|
    decreases |lines| - k
  {
    if k == |lines| then []
    else if Significant(Trim(lines[k])) then [Line(Trim(lines[k]), k + 1)] + SigFrom(lines, k + 1)
    else SigFrom(lines, k + 1)
  }

  /** Each line the source yields is the trimmed text of the raw line it names, in increasing order. */
  lemma {:induction false} SigFromLines(lines: seq<Text>, k: nat)
    requires k <= |lines|
    ensures SigFacts(lines, k, SigFrom(lines, k))
    decreases |lines| - k
  {
    hide Trim, Significant;
    if k < |lines| {
      SigFromLines(lines, k + 1);
      var rest := SigFrom(lines, k + 1);
      var t := Trim(lines[k]);
      if Significant(t) {
        assert SigFrom(lines, k) == [Line(t, k + 1)] + rest;
        SigFactsCons(lines, k, rest);
      } else {
        assert SigFrom(lines, k) == rest;
      }
    }
  }

  /** The line numbers are above `k`, increasing, and name raw lines whose trimmed text is significant. */
  lemma SigFactsCons(lines: seq<Text>, k: nat, rest: seq<Line>)
    requires k < |lines| && Significant(Trim(lines[k])) && SigFacts(lines, k + 1, rest)
    ensures SigFacts(lines, k, [Line(Trim(lines[k]), k + 1)] + rest)
  {
    hide Trim, Significant;
    var s := [Line(Trim(lines[k]), k + 1)] + rest;
    forall i | 0 <= i < |s|
      ensures k < s[i].no <= |lines| && s[i].text == Trim(lines[s[i].no - 1]) && Significant(s[i].text)
    {
      if i > 0 {
        assert s[i] == rest[i - 1];
      }
    }
    forall i, j | 0 <= i < j < |s|
      ensures s[i].no < s[j].no
    {
      assert s[j] == rest[j - 1];
      if i > 0 {
        assert s[i] == rest[i - 1];
      }
    }
  }

  predicate SigFacts(lines: seq<Text>, k: nat, s: seq<Line>) {
    (forall i :: 0 <= i < |s| ==>
      k < s[i].no <= |lines| && s[i].text == Trim(lines[s[i].no - 1]) && Significant(s[i].text)) &&
    (forall i, j :: 0 <= i < j < |s| ==> s[i].no < s[j].no)
  }

  predicate AllRawLines(lines: seq<Text>) {
    forall k :: 0 <= k < |lines| ==> IsRawLine(lines[k])
  }

  predicate AllTrimmed(sig: seq<Line>) {
    forall i :: 0 <= i < |sig| ==> IsTrimmedLine(sig[i].text)
  }

  lemma SigFromTrimmed(lines: seq<Text>, k: nat)
    requires k <= |lines| && AllRawLines(lines)
    ensures AllTrimmed(SigFrom(lines, k))
  {
    SigFromLines(lines, k);
    var s := SigFrom(lines, k);
    forall i | 0 <= i < |s|
      ensures IsTrimmedLine(s[i].text)
    {
      TrimRawLine(lines[s[i].no - 1]);
    }
  }

  /** The line source (`input`): the stored lines and the index of the next one to read. */
  class Input {
    var lines: seq<Text>
    var lineno: nat

    ghost predicate Valid()
      reads this
    {
      lineno <= |lines| && AllRawLines(lines)
    }

    /** The significant lines not yet delivered. */
    ghost function Pending(): (r: seq<Line>)
      reads this
      requires Valid()
      ensures AllTrimmed(r)
    {
      SigFromTrimmed(lines, lineno);
      SigFrom(lines, lineno)
    }

    constructor (text: Text)
      ensures Valid() && lines == ReadLines(text) && lineno == 0
    {
      lines := ReadLines(text);
      lineno := 0;
    }

    /** `next`: the next significant line, or end of input. */
    method Next() returns (line: Text, no: nat, have: bool)
      requires Valid()
      modifies this
      ensures Valid() && lines == old(lines)
      ensures have ==> old(Pending()) == [Line(line, no)] + Pending()
      ensures have ==> 1 <= no == lineno && line == Trim(lines[no - 1]) && Significant(line) && IsTrimmedLine(line)
      ensures !have ==> old(Pending()) == [] && Pending() == [] && line == [] && no == 0 && lineno == |lines|
    {
      hide Trim;
      while true
        invariant Valid() && lines == old(lines)
        invariant SigFrom(lines, lineno) == old(Pending())
        decreases |lines| - lineno
      {
        if lineno == |lines| {
          return [], 0, false;
        }
        var l := Trim(lines[lineno]);
        lineno := lineno + 1;
        if l == [] || l[0] == '#' {
          continue;
        }
        TrimRawLine(lines[lineno - 1]);
        return l, lineno, true;
      }
    }
  }

  // ---------------------------------------------------------------- preamble

  const PreambleKeyword: Text := "snappysense-compiled-config"

  datatype PreambleMatch =
    | NotPreamble
    | PreambleBadSyntax
    | PreambleBadValue
    | Preamble(v0: Byte, v1: Byte, v2: Byte)

  /** The length of the leading run of `\s` characters. */
  function RegexSpaceRun(s: Text): (n: nat)
    ensures n <= |s|
    ensures n > 0 ==> IsRegexSpace(s[n - 1])
    ensures n < |s| ==> !IsRegexSpace(s[n])
  {
    if |s| > 0 && IsRegexSpace(s[0]) then 1 + RegexSpaceRun(s[1..]) else 0
  }

  /** The length of the leading run of digits. */
  function DigitRun(s: Text): (n: nat)
    ensures n <= |s|
    ensures AllDigits(s[..n])
    ensures n < |s| ==> !IsDigit(s[n])
  {
    if |s| > 0 && IsDigit(s[0]) then 1 + DigitRun(s[1..]) else 0
  }

  /** `(\d+)(\.\d+){k-1}$`: the `k` dot-separated numbers that make up all of `s`, if it is exactly that. */
  function DottedNumbers(s: Text, k: nat): (r: Option<seq<nat>>)
    requires k > 0
    ensures r.Some? ==> |r.value| == k
    decreases k
  {
    var a := DigitRun(s);
    if a == 0 then None
    else if k == 1 then (if a == |s| then Some([DigitsValue(s[..a])]) else None)
    else if a == |s| || s[a] != '.' then None
    else match DottedNumbers(s[a + 1..], k - 1)
      case None => None
      case Some(ns) => Some([DigitsValue(s[..a])] + ns)
  }

  /**
   * `match_preamble`: the regular expression
   * `^snappysense-compiled-config\s+(\d+)\.(\d+)\.(\d+)$`, with the fatal
   * errors for a line that starts with the keyword but does not match and for
   * a component above 255.
   */
  function MatchPreamble(l: Text): (r: PreambleMatch)
    ensures r == NotPreamble <==> !IsPrefix(PreambleKeyword, l)
    ensures r.Preamble? ==> r.v0 <= MaxVersionValue && r.v1 <= MaxVersionValue && r.v2 <= MaxVersionValue
  {
    if !IsPrefix(PreambleKeyword, l) then NotPreamble
    else
      var rest := l[|PreambleKeyword|..];
      var w := RegexSpaceRun(rest);
      if w == 0 then PreambleBadSyntax
      else match DottedNumbers(rest[w..], 3)
        case None => PreambleBadSyntax
        case Some(ns) =>
          if ns[0] > MaxVersionValue || ns[1] > MaxVersionValue || ns[2] > MaxVersionValue then PreambleBadValue
          else Preamble(ns[0], ns[1], ns[2])
  }

  /** The preamble line for a version, with a single space. */
  function PreambleLine(x: nat, y: nat, z: nat): Text {
    PreambleKeyword + " " + VersionText(x, y, z)
  }

  function VersionText(x: nat, y: nat, z: nat): Text {
    Decimal(x) + "." + (Decimal(y) + "." + Decimal(z))
  }

  lemma VersionNumbersOfDecimals(x: nat, y: nat, z: nat)
    ensures DottedNumbers(VersionText(x, y, z), 3) == Some([x, y, z])
  {
    var s1 := Decimal(y) + "." + Decimal(z);
    hide DottedNumbers, Decimal, DigitsValue;
    TwoNumbers(y, z);
    DecimalValue(x);
    DottedCons(Decimal(x), s1, 3);
    assert [x] + [y, z] == [x, y, z];
  }

  lemma TwoNumbers(y: nat, z: nat)
    ensures DottedNumbers(Decimal(y) + "." + Decimal(z), 2) == Some([y, z])
  {
    hide DottedNumbers, Decimal, DigitsValue;
    DecimalValue(y);
    DecimalValue(z);
    DottedOne(Decimal(z));
    DottedCons(Decimal(y), Decimal(z), 2);
    assert [y] + [z] == [y, z];
  }

  lemma DottedOne(d: Text)
    requires |d| > 0 && AllDigits(d)
    ensures DottedNumbers(d, 1) == Some([DigitsValue(d)])
  {
    DigitRunAll(d, []);
    assert d + [] == d;
    assert d[..|d|] == d;
  }

  /** A run of digits and a dot put one more number in front of the numbers that follow. */
  lemma DottedCons(d: Text, t: Text, k: nat)
    requires |d| > 0 && AllDigits(d) && k > 1
    ensures DottedNumbers(d + "." + t, k) ==
      match DottedNumbers(t, k - 1)
      case None => None
      case Some(ns) => Some([DigitsValue(d)] + ns)
  {
    SplitAtDot(d, t);
  }

  lemma SplitAtDot(d: Text, t: Text)
    requires |d| > 0 && AllDigits(d)
    ensures DigitRun(d + "." + t) == |d|
    ensures (d + "." + t)[|d|] == '.'
    ensures (d + "." + t)[..|d|] == d
    ensures (d + "." + t)[|d| + 1..] == t
  {
    assert d + "." + t == d + ("." + t);
    DigitRunAll(d, "." + t);
  }

  lemma {:induction false} DigitRunAll(d: Text, t: Text)
    requires forall i :: 0 <= i < |d| ==> IsDigit(d[i])
    requires |t| == 0 || !IsDigit(t[0])
    ensures DigitRun(d + t) == |d|
  {
    hide IsDigit;
    if |d| > 0 {
      assert (d + t)[1..] == d[1..] + t;
      DigitRunAll(d[1..], t);
    }
  }

  /** A keyword, one space and a text that does not start with white space. */
  lemma KeywordSpaceSplit(k: Text, v: Text)
    requires |v| > 0 && !IsRegexSpace(v[0])
    ensures IsPrefix(k, k + " " + v)
    ensures var rest := (k + " " + v)[|k|..]; RegexSpaceRun(rest) == 1 && rest[1..] == v
  {
    var l := k + " " + v;
    assert l == k + (" " + v);
    var rest := l[|k|..];
    assert rest == " " + v;
    assert rest[1..] == v;
  }

  /** The preamble line splits into the keyword, one space and the version text. */
  lemma PreambleLineParts(x: nat, y: nat, z: nat)
    ensures IsPrefix(PreambleKeyword, PreambleLine(x, y, z))
    ensures var rest := PreambleLine(x, y, z)[|PreambleKeyword|..];
      RegexSpaceRun(rest) == 1 && rest[1..] == VersionText(x, y, z)
  {
    var v := VersionText(x, y, z);
    assert IsDigit(v[0]);
    KeywordSpaceSplit(PreambleKeyword, v);
  }

  /** The preamble of any version with components up to 255 is read back exactly. */
  lemma MatchPreambleLine(x: Byte, y: Byte, z: Byte)
    ensures MatchPreamble(PreambleLine(x, y, z)) == Preamble(x, y, z)
  {
    PreambleLineParts(x, y, z);
    VersionNumbersOfDecimals(x, y, z);
  }

  /** A well-formed preamble whose version has a component above 255 is fatal, not "no preamble". */
  lemma MatchPreambleTooLarge(x: nat, y: nat, z: nat)
    requires x > MaxVersionValue || y > MaxVersionValue || z > MaxVersionValue
    ensures MatchPreamble(PreambleLine(x, y, z)) == PreambleBadValue
  {
    PreambleLineParts(x, y, z);
    VersionNumbersOfDecimals(x, y, z);
  }

  // ---------------------------------------------------------------- set lines

  const SetKeyword: Text := "set"

  datatype SetMatch = NotSet | SetLine(name: Text, val: Text)

  predicate IsAlpha(c: char) { 'a' <= c <= 'z' || 'A' <= c <= 'Z' }

  predicate IsNameChar(c: char) { IsAlpha(c) || IsDigit(c) || c == '_' || c == '-' }

  /** `[a-zA-Z][a-zA-Z0-9_-]*` */
  predicate IsName(s: Text) {
    |s| > 0 && IsAlpha(s[0]) && AllNameChars(s)
  }

  predicate AllNameChars(s: Text) {
    forall i :: 0 <= i < |s| ==> IsNameChar(s[i])
  }

  function NameRun(s: Text): (n: nat)
    ensures n <= |s|
    ensures AllNameChars(s[..n])
    ensures n < |s| ==> !IsNameChar(s[n])
  {
    if |s| > 0 && IsNameChar(s[0]) then 1 + NameRun(s[1..]) else 0
  }

  /** Resolution of an `@` value: tilde expansion, then the file's whole contents. */
  function ReadIndirect(val: Text, lineno: nat, env: Env): (r: Result<Text, Failure>)
    ensures r.Err? ==> r.error.line == lineno
    ensures r.Err? ==> r.error.kind in {HomeUndefined, EmptyFilename, CannotOpen, CannotRead}
    ensures r.Ok? ==> exists path :: path in env.files && env.files[path] == Contents(r.value)
  {
    var path :- (if IsPrefix("~/", val) then
                   (match env.home
                    case None => Err(Failure(HomeUndefined, lineno))
                    case Some(h) => Ok(h + val[1..]))
                 else Ok(val));
    if |path| == 0 then Err(Failure(EmptyFilename, lineno))
    else if path !in env.files then Err(Failure(CannotOpen, lineno))
    else match env.files[path]
      case Unreadable => Err(Failure(CannotRead, lineno))
      case Contents(d) => Ok(d)
  }

  /** The value part of a `set` line: `@` for indirection, then an optional pair of quotes. */
  function SetValue(name: Text, v: Text, lineno: nat, env: Env): (r: Result<SetMatch, Failure>)
    requires |v| > 0
    ensures r.Ok? ==> r.value.SetLine? && r.value.name == name
    ensures r.Err? ==> r.error.line == lineno
  {
    var indirect := v[0] == '@';
    var w := if indirect then v[1..] else v;
    var quoted := |w| > 0 && w[0] == '"';
    if quoted && (|w| < 2 || w[|w| - 1] != '"') then Err(Failure(BadValue, lineno))
    else
      var val := if quoted then w[1..|w| - 1] else w;
      if !indirect then Ok(SetLine(name, val))
      else
        var d :- ReadIndirect(val, lineno, env);
        Ok(SetLine(name, d))
  }

  /**
   * `match_set`: the regular expression `^set\s+([a-zA-Z][a-zA-Z0-9_-]*)\s+(.*)$`,
   * with the fatal error for a line that starts with `set` but does not match.
   */
  function MatchSet(l: Text, lineno: nat, env: Env): (r: Result<SetMatch, Failure>)
    requires IsTrimmedLine(l)
    ensures r == Ok(NotSet) <==> !IsPrefix(SetKeyword, l)
    ensures r.Ok? && r.value.SetLine? ==> IsName(r.value.name)
    ensures r.Err? ==> r.error.line == lineno
  {
    if !IsPrefix(SetKeyword, l) then Ok(NotSet)
    else
      var t := l[|SetKeyword|..];
      assert |t| > 0 ==> t[|t| - 1] == l[|l| - 1];
      SetArguments(t, lineno, env)
  }

  /** What follows `set`: white space, the name, white space, and the value. */
  function SetArguments(t: Text, lineno: nat, env: Env): (r: Result<SetMatch, Failure>)
    requires |t| == 0 || !IsSpace(t[|t| - 1])
    ensures r.Ok? ==> r.value.SetLine? && IsName(r.value.name)
    ensures r.Err? ==> r.error.line == lineno
  {
    hide SetValue, RegexSpaceRun, NameRun;
    var a := RegexSpaceRun(t);
    var u := t[a..];
    if a == 0 || |u| == 0 || !IsAlpha(u[0]) then Err(Failure(BadSetSyntax, lineno))
    else
      var n := NameRun(u);
      var w := u[n..];
      var b := RegexSpaceRun(w);
      if b == 0 then Err(Failure(BadSetSyntax, lineno))
      else
        assert n > 0 && u[..n][0] == u[0];
        assert b < |w| by {
          assert w[|w| - 1] == t[|t| - 1];
        }
        SetValue(u[..n], w[b..], lineno, env)
  }

  /** A literal value needs no quoting: it does not start with `@` or `"` and has no edge space. */
  predicate IsPlainValue(val: Text) {
    IsTrimmedLine(val) && |val| > 0 && val[0] != '@' && val[0] != '"'
  }

  /** `set NAME VALUE` with one space each. */
  function SetLineText(name: Text, v: Text): Text {
    SetKeyword + " " + name + " " + v
  }

  /** A `set` line with a valid name is split at the spaces around the name. */
  lemma MatchSetParts(name: Text, v: Text, lineno: nat, env: Env)
    requires IsName(name) && IsTrimmedLine(v) && |v| > 0
    ensures IsTrimmedLine(SetLineText(name, v))
    ensures MatchSet(SetLineText(name, v), lineno, env) == SetValue(name, v, lineno, env)
  {
    MatchSetShape(name, v);
    var w := " " + v;
    var u := name + w;
    SpaceThen(v);
    NameThen(name, w);
    SpaceThen(u);
    assert SetLineText(name, v) == SetKeyword + (" " + u);
  }

  /** One `\s` and then a text that does not start with white space. */
  lemma SpaceThen(x: Text)
    requires |x| > 0 && !IsRegexSpace(x[0])
    ensures RegexSpaceRun(" " + x) == 1 && (" " + x)[1..] == x
  {
    assert (" " + x)[1..] == x;
  }

  /** A name and then a text that does not start with a name character. */
  lemma NameThen(name: Text, x: Text)
    requires AllNameChars(name) && (|x| == 0 || !IsNameChar(x[0]))
    ensures NameRun(name + x) == |name| && (name + x)[..|name|] == name && (name + x)[|name|..] == x
  {
    NameRunAll(name, x);
  }

  lemma MatchSetShape(name: Text, v: Text)
    requires IsName(name) && IsTrimmedLine(v) && |v| > 0
    ensures IsTrimmedLine(SetLineText(name, v))
  {
    var l := SetLineText(name, v);
    assert l[|l| - 1] == v[|v| - 1];
  }

  lemma {:induction false} NameRunAll(d: Text, t: Text)
    requires forall i :: 0 <= i < |d| ==> IsNameChar(d[i])
    requires |t| == 0 || !IsNameChar(t[0])
    ensures NameRun(d + t) == |d|
  {
    hide IsNameChar;
    if |d| > 0 {
      assert (d + t)[1..] == d[1..] + t;
      NameRunAll(d[1..], t);
    }
  }

  /** `set NAME VALUE` with a plain value is read back as that name and value. */
  lemma MatchSetPlain(name: Text, val: Text, lineno: nat, env: Env)
    requires IsName(name) && IsPlainValue(val)
    ensures IsTrimmedLine(SetLineText(name, val))
    ensures MatchSet(SetLineText(name, val), lineno, env) == Ok(SetLine(name, val))
  {
    MatchSetParts(name, val, lineno, env);
  }

  /** The value between a pair of quotes. */
  function Quoted(val: Text): Text {
    "\"" + val + "\""
  }

  /** `set NAME "VALUE"` is read back as that name and the text between the quotes. */
  lemma MatchSetQuoted(name: Text, val: Text, lineno: nat, env: Env)
    requires IsName(name) && '\n' !in val
    ensures IsTrimmedLine(SetLineText(name, Quoted(val)))
    ensures MatchSet(SetLineText(name, Quoted(val)), lineno, env) == Ok(SetLine(name, val))
  {
    var q := Quoted(val);
    assert q[|q| - 1] == '"';
    MatchSetParts(name, q, lineno, env);
    assert q[1..|q| - 1] == val;
  }

  /** The tilde form `@~/PATH` of an indirect value. */
  function HomeRef(path: Text): Text {
    "@~/" + path
  }

  /** An indirect value with `~/` and no `HOME` is fatal. */
  lemma SetIndirectNoHome(name: Text, path: Text, lineno: nat, env: Env)
    requires IsName(name) && IsPlainValue(path) && env.home.None?
    ensures IsTrimmedLine(SetLineText(name, HomeRef(path)))
    ensures MatchSet(SetLineText(name, HomeRef(path)), lineno, env) == Err(Failure(HomeUndefined, lineno))
  {
    var v := HomeRef(path);
    assert v[|v| - 1] == path[|path| - 1];
    MatchSetParts(name, v, lineno, env);
    SetValueNoHome(name, path, lineno, env);
  }

  lemma SetValueNoHome(name: Text, path: Text, lineno: nat, env: Env)
    requires env.home.None?
    ensures SetValue(name, HomeRef(path), lineno, env) == Err(Failure(HomeUndefined, lineno))
  {
    var v := HomeRef(path);
    assert v[0] == '@' && v[1] == '~' && v[1..] == "~/" + path;
    assert IsPrefix("~/", v[1..]);
  }

  /** An indirect value naming a readable file stands for the file's contents. */
  lemma SetIndirectFile(name: Text, path: Text, lineno: nat, env: Env)
    requires IsName(name) && IsPlainValue(path) && !IsPrefix("~/", path)
    requires path in env.files && env.files[path].Contents?
    ensures IsTrimmedLine(SetLineText(name, "@" + path))
    ensures MatchSet(SetLineText(name, "@" + path), lineno, env) == Ok(SetLine(name, env.files[path].data))
  {
    var v: Text := "@" + path;
    assert v[|v| - 1] == path[|path| - 1];
    MatchSetParts(name, v, lineno, env);
    assert v[1..] == path;
  }

  // ---------------------------------------------------------------- integers

  predicate AllDigits(s: Text) {
    forall i :: 0 <= i < |s| ==> IsDigit(s[i])
  }

  /** `strconv.Atoi` on a 64-bit platform: optional sign, at least one digit, `int` range. */
  function Atoi(s: Text): (r: Option<int>)
    ensures r.Some? ==> MinInt64 <= r.value <= MaxInt64 && |s| > 0
  {
    var signed := |s| > 0 && (s[0] == '-' || s[0] == '+');
    var digits := if signed then s[1..] else s;
    if |digits| == 0 || !AllDigits(digits) then None
    else
      var n: int := if signed && s[0] == '-' then -(DigitsValue(digits) as int) else DigitsValue(digits);
      if n < MinInt64 || n > MaxInt64 then None else Some(n)
  }

  /** The decimal rendering of an integer, with a minus sign when negative. */
  function FormatInt(n: int): Text {
    if n < 0 then "-" + Decimal(-n) else Decimal(n)
  }

  /** Every 64-bit integer is read back from its decimal rendering. */
  lemma AtoiFormatInt(n: int)
    requires MinInt64 <= n <= MaxInt64
    ensures Atoi(FormatInt(n)) == Some(n)
  {
    hide Decimal, DigitsValue;
    if n < 0 {
      assert FormatInt(n)[1..] == Decimal(-n);
      DecimalValue(-n);
    } else {
      DecimalValue(n);
    }
  }

  // ---------------------------------------------------------------- statements

  /**
   * The checks `parse` makes on one line inside the statement run: a
   * `set` line whose variable exists and whose value has the variable's kind,
   * within its limits.
   */
  function SetStatement(line: Line, env: Env): (r: Result<SetStmt, Failure>)
    requires IsTrimmedLine(line.text)
    ensures r.Err? ==> r.error.line == line.no
    ensures r.Ok? ==> r.value.v.ty == IntTy ==> WithinLimits(r.value.v.index, r.value.ival)
    ensures r.Ok? ==> r.value.v.ty == StrTy ==> |r.value.sval| <= MaxStringLength
    ensures r.Ok? ==> InSlotRange(r.value.v)
    ensures r.Ok? ==> IsPrefix(SetKeyword, line.text)
  {
    match MatchSet(line.text, line.no, env)
    case Err(f) => Err(f)
    case Ok(NotSet) => Err(Failure(IllegalStatement, line.no))
    case Ok(SetLine(name, val)) => Assignment(name, val, line.no)
  }

  /** The statement for `set NAME VALUE`: the variable must exist and the value must suit it. */
  function Assignment(name: Text, val: Text, lineno: nat): (r: Result<SetStmt, Failure>)
    ensures r.Err? ==> r.error.line == lineno
    ensures r.Ok? ==> Variables(name) == Some(r.value.v)
    ensures r.Ok? ==> r.value.v.ty == IntTy ==> WithinLimits(r.value.v.index, r.value.ival) && Atoi(val) == Some(r.value.ival)
    ensures r.Ok? ==> r.value.v.ty == StrTy ==> |r.value.sval| <= MaxStringLength && r.value.sval == val
  {
    match Variables(name)
    case None => Err(Failure(UnknownVariable, lineno))
    case Some(vi) =>
      match vi.ty
      case IntTy =>
        (match Atoi(val)
         case None => Err(Failure(BadInteger, lineno))
         case Some(n) =>
           if !WithinLimits(vi.index, n) then Err(Failure(OutOfRange, lineno))
           else Ok(SetStmt(vi, [], n)))
      case StrTy =>
        if |val| > MaxStringLength then Err(Failure(StringTooLong, lineno))
        else Ok(SetStmt(vi, val, 0))
  }

  lemma SetStatementOfSet(line: Line, env: Env, name: Text, val: Text)
    requires IsTrimmedLine(line.text) && MatchSet(line.text, line.no, env) == Ok(SetLine(name, val))
    ensures SetStatement(line, env) == Assignment(name, val, line.no)
  {
    hide MatchSet, Assignment;
  }

  /** A decimal rendering is a plain value: a sign or digit first and last, no newline. */
  lemma FormatIntPlain(n: int)
    ensures IsPlainValue(FormatInt(n))
  {
    var f := FormatInt(n);
    assert f[0] == '-' || IsDigit(f[0]);
    assert forall i :: 0 <= i < |f| ==> f[i] == '-' || IsDigit(f[i]);
  }

  /** `set NAME N` for an integer variable stores N exactly when N is within its limits. */
  lemma SetIntStatement(name: Text, n: int, lineno: nat, env: Env)
    requires IsName(name) && Variables(name).Some? && Variables(name).value.ty == IntTy
    requires MinInt64 <= n <= MaxInt64
    ensures IsTrimmedLine(SetLineText(name, FormatInt(n)))
    ensures SetStatement(Line(SetLineText(name, FormatInt(n)), lineno), env) ==
      if WithinLimits(Variables(name).value.index, n) then Ok(SetStmt(Variables(name).value, [], n))
      else Err(Failure(OutOfRange, lineno))
  {
    var f := FormatInt(n);
    FormatIntPlain(n);
    MatchSetPlain(name, f, lineno, env);
    SetStatementOfSet(Line(SetLineText(name, f), lineno), env, name, f);
    AtoiFormatInt(n);
  }

  /** A value that is not an optionally signed run of digits is a bad integer. */
  lemma SetIntNotNumeric(name: Text, val: Text, lineno: nat, env: Env)
    requires IsName(name) && Variables(name).Some? && Variables(name).value.ty == IntTy
    requires IsPlainValue(val) && Atoi(val).None?
    ensures IsTrimmedLine(SetLineText(name, val))
    ensures SetStatement(Line(SetLineText(name, val), lineno), env) == Err(Failure(BadInteger, lineno))
  {
    MatchSetPlain(name, val, lineno, env);
    SetStatementOfSet(Line(SetLineText(name, val), lineno), env, name, val);
  }

  /** A quoted string value is stored verbatim exactly when it has at most 65535 bytes. */
  lemma SetStrStatement(name: Text, val: Text, lineno: nat, env: Env)
    requires IsName(name) && Variables(name).Some? && Variables(name).value.ty == StrTy
    requires '\n' !in val
    ensures IsTrimmedLine(SetLineText(name, Quoted(val)))
    ensures SetStatement(Line(SetLineText(name, Quoted(val)), lineno), env) ==
      if |val| <= MaxStringLength then Ok(SetStmt(Variables(name).value, val, 0))
      else Err(Failure(StringTooLong, lineno))
  {
    MatchSetQuoted(name, val, lineno, env);
    SetStatementOfSet(Line(SetLineText(name, Quoted(val)), lineno), env, name, val);
  }

  // ---------------------------------------------------------------- diagnostics as printed

  /**
   * The line number that the printed diagnostic actually shows.  The
   * empty-program message has no `%d`.  Two format calls of `match_set` lack
   * the line argument: the bad-value message passes only the value, and the
   * empty-filename message passes nothing, so `%d` prints a formatting error
   * in place of the number.
   */
  function ReportedLine(f: Failure): (r: Option<nat>)
    ensures r.None? <==> f.kind == EmptyProgram || f.kind == BadValue || f.kind == EmptyFilename
    ensures r.Some? ==> r.value == f.line
  {
    if f.kind == EmptyProgram || f.kind == BadValue || f.kind == EmptyFilename then None else Some(f.line)
  }

  /** A program of only comments and blank lines is empty, and that message shows no line. */
  lemma EmptyProgramNoLine(env: Env)
    ensures ParseText(CommentOnly + "\n" + "\n", env) == Err(Failure(EmptyProgram, 0))
    ensures ReportedLine(Failure(EmptyProgram, 0)) == None
  {
    hide ReadLines, SigFrom;
    CommentLines();
    CommentSig();
  }

  /** A comment line that the empty-program example surrounds with newlines. */
  const CommentOnly: Text := "# comment"

  /** `read_input` cuts the comment line, the blank line and the empty rest after the last newline. */
  lemma CommentLines()
    ensures ReadLines(CommentOnly + "\n" + "\n") == [CommentOnly + "\n", "\n", ""]
  {
    hide ReadLines;
    ReadLinesLine(CommentOnly, "\n");
    assert "\n" == "" + "\n" + "";
    ReadLinesLine("", "");
    ReadLinesEmpty();
  }

  /** None of those three lines is significant. */
  lemma CommentSig()
    ensures SigFrom([CommentOnly + "\n", "\n", ""], 0) == []
  {
    hide Trim;
    assert IsTrimmedLine(CommentOnly) && Unpadded(CommentOnly) && IsTrimmedLine("") && Unpadded("");
    TrimLine(CommentOnly);
    TrimLine("");
    TrimEmpty();
    assert "\n" == "" + "\n";
    var lines := [CommentOnly + "\n", "\n", ""];
    assert SigFrom(lines, 3) == [];
    assert Trim(lines[2]) == "" && SigFrom(lines, 2) == [];
    assert Trim(lines[1]) == "" && SigFrom(lines, 1) == [];
    assert Trim(lines[0]) == CommentOnly && !Significant(CommentOnly);
  }

  /** An unclosed quote on line 7 is a failure at line 7, but its message shows no line number. */
  lemma BadValueLineLost(env: Env)
    ensures IsTrimmedLine(SetLineText("ssid1", "\"abc"))
    ensures SetStatement(Line(SetLineText("ssid1", "\"abc"), 7), env) == Err(Failure(BadValue, 7))
    ensures ReportedLine(Failure(BadValue, 7)) == None
  {
    hide MatchSet, SetValue;
    var v: Text := "\"abc";
    assert IsName("ssid1") && IsTrimmedLine(v);
    MatchSetParts("ssid1", v, 7, env);
    SetValueUnclosed("ssid1", v, 7, env);
  }

  /** A value that opens a quote and does not close it is a bad value. */
  lemma SetValueUnclosed(name: Text, v: Text, lineno: nat, env: Env)
    requires |v| > 0 && v[0] == '"' && (|v| < 2 || v[|v| - 1] != '"')
    ensures SetValue(name, v, lineno, env) == Err(Failure(BadValue, lineno))
  {
  }

  /** `set ssid1 @` on line 7 names no file: a failure at line 7 whose message shows no line number. */
  lemma EmptyFilenameLineLost(env: Env)
    ensures IsTrimmedLine(SetLineText("ssid1", "@"))
    ensures SetStatement(Line(SetLineText("ssid1", "@"), 7), env) == Err(Failure(EmptyFilename, 7))
    ensures ReportedLine(Failure(EmptyFilename, 7)) == None
  {
    hide MatchSet;
    var v: Text := "@";
    assert IsName("ssid1") && IsTrimmedLine(v);
    MatchSetParts("ssid1", v, 7, env);
    assert v[1..] == [] && !IsPrefix("~/", v[1..]);
  }

  // ---------------------------------------------------------------- parser

  predicate IsTerminator(t: Text) { t == "save" || t == "end" }

  /**
   * The grammar `Preamble Clear? Set* Terminator` over the significant lines,
   * with every fatal error `parse` reports.
   */
  function ParseProgram(sig: seq<Line>, env: Env): Result<Program, Failure>
    requires AllTrimmed(sig)
  {
    hide MatchPreamble, ParseBody;
    if |sig| == 0 then Err(Failure(EmptyProgram, 0))
    else match MatchPreamble(sig[0].text)
      case NotPreamble => Err(Failure(MissingPreamble, sig[0].no))
      case PreambleBadSyntax => Err(Failure(BadPreambleSyntax, sig[0].no))
      case PreambleBadValue => Err(Failure(BadVersionValue, sig[0].no))
      case Preamble(x, y, z) =>
        if !(x == 1 && y == 0 && z == 0) then Err(Failure(UnknownVersion, sig[0].no))
        else
          var rest := sig[1..];
          var clear := |rest| > 0 && rest[0].text == "clear";
          ParseBody(if clear then rest[1..] else rest, env, Program(x, y, z, clear, false, []))
  }

  /** A `set` line is neither a terminator nor `clear`. */
  lemma SetLineIsNot(t: Text)
    requires IsPrefix(SetKeyword, t)
    ensures !IsTerminator(t) && t != "clear"
  {
    assert t[0] == 's' && t[2] == 't' by {
      assert t[..3] == SetKeyword;
    }
  }

  /** The statement run, the terminator, and nothing after it. */
  function ParseBody(sig: seq<Line>, env: Env, prog: Program): Result<Program, Failure>
    requires AllTrimmed(sig)
    decreases |sig|
  {
    if |sig| == 0 then Err(Failure(MissingTerminator, 0))
    else if IsTerminator(sig[0].text) then
      if |sig| > 1 then Err(Failure(TrailingInput, sig[1].no))
      else Ok(prog.(save := sig[0].text == "save"))
    else match SetStatement(sig[0], env)
      case Err(f) => Err(f)
      case Ok(s) => ParseBody(sig[1..], env, prog.(body := prog.body + [s]))
  }

  /** The lines `ParseBody` consumed to accept `result`: one `set` line per statement, then the terminator. */
  lemma {:induction false} ParseBodyShape(sig: seq<Line>, env: Env, prog: Program, result: Program)
    requires AllTrimmed(sig)
    requires ParseBody(sig, env, prog) == Ok(result)
    ensures result.v0 == prog.v0 && result.v1 == prog.v1 && result.v2 == prog.v2 && result.clear == prog.clear
    ensures |result.body| >= |prog.body| && result.body[..|prog.body|] == prog.body
    ensures |sig| == |result.body| - |prog.body| + 1
    ensures sig[|sig| - 1].text == (if result.save then "save" else "end")
    ensures forall i :: 0 <= i < |sig| - 1 ==>
      !IsTerminator(sig[i].text) && SetStatement(sig[i], env) == Ok(result.body[|prog.body| + i])
    decreases |sig|
  {
    hide SetStatement, ParseBody, IsTerminator;
    ParseBodyOk(sig, env, prog, result);
    if !IsTerminator(sig[0].text) {
      var s := SetStatement(sig[0], env).value;
      var prog' := prog.(body := prog.body + [s]);
      ParseBodyShape(sig[1..], env, prog', result);
      ShapeStep(sig, env, prog, s, result);
    } else {
      assert result.body[..|prog.body|] == prog.body;
    }
  }

  /** An accepted body starts either with its terminator, as its only line, or with a statement. */
  lemma ParseBodyOk(sig: seq<Line>, env: Env, prog: Program, result: Program)
    requires AllTrimmed(sig) && ParseBody(sig, env, prog) == Ok(result)
    ensures |sig| > 0
    ensures IsTerminator(sig[0].text) ==>
      (|sig| == 1 && result == prog.(save := sig[0].text == "save")
       && sig[0].text == (if result.save then "save" else "end"))
    ensures !IsTerminator(sig[0].text) ==>
      (SetStatement(sig[0], env).Ok?
       && ParseBody(sig[1..], env, prog.(body := prog.body + [SetStatement(sig[0], env).value])) == Ok(result))
  {
    hide SetStatement;
  }

  /** One step of `ParseBodyShape`: the first line's statement joins the ones after it. */
  lemma ShapeStep(sig: seq<Line>, env: Env, prog: Program, s: SetStmt, result: Program)
    requires AllTrimmed(sig) && |sig| > 0 && !IsTerminator(sig[0].text) && SetStatement(sig[0], env) == Ok(s)
    requires |result.body| >= |prog.body| + 1 && result.body[..|prog.body| + 1] == prog.body + [s]
    requires |sig| == |result.body| - |prog.body| + 1
    requires forall i :: 0 <= i < |sig| - 2 ==>
      !IsTerminator(sig[1..][i].text) && SetStatement(sig[1..][i], env) == Ok(result.body[|prog.body| + 1 + i])
    ensures result.body[..|prog.body|] == prog.body
    ensures forall i :: 0 <= i < |sig| - 1 ==>
      !IsTerminator(sig[i].text) && SetStatement(sig[i], env) == Ok(result.body[|prog.body| + i])
  {
    hide SetStatement;
    assert result.body[..|prog.body|] == result.body[..|prog.body| + 1][..|prog.body|];
    forall i | 0 <= i < |sig| - 1
      ensures !IsTerminator(sig[i].text) && SetStatement(sig[i], env) == Ok(result.body[|prog.body| + i])
    {
      if i > 0 {
        assert sig[i] == sig[1..][i - 1];
      } else {
        assert result.body[|prog.body|] == result.body[..|prog.body| + 1][|prog.body|];
      }
    }
  }

  /**
   * An accepted program: preamble 1.0.0 on the first line, an optional `clear`,
   * one statement per `set` line in input order (duplicates kept), and the
   * terminator as the last significant line.
   */
  lemma ParseProgramShape(sig: seq<Line>, env: Env, p: Program)
    requires AllTrimmed(sig)
    requires ParseProgram(sig, env) == Ok(p)
    ensures p.v0 == 1 && p.v1 == 0 && p.v2 == 0
    ensures MatchPreamble(sig[0].text) == Preamble(1, 0, 0)
    ensures var h := if p.clear then 2 else 1;
      |sig| == h + |p.body| + 1 &&
      (p.clear ==> sig[1].text == "clear") &&
      sig[|sig| - 1].text == (if p.save then "save" else "end") &&
      forall i :: 0 <= i < |p.body| ==> SetStatement(sig[h + i], env) == Ok(p.body[i])
  {
    hide SetStatement, MatchPreamble, ParseProgram, ParseBody;
    ParseProgramOk(sig, env, p);
    var rest := sig[1..];
    var clear := |rest| > 0 && rest[0].text == "clear";
    var b := if clear then rest[1..] else rest;
    var x := MatchPreamble(sig[0].text);
    ParseBodyShape(b, env, Program(x.v0, x.v1, x.v2, clear, false, []), p);
    var h := if p.clear then 2 else 1;
    assert p.clear == clear && b == sig[h..];
    forall i | 0 <= i < |p.body|
      ensures SetStatement(sig[h + i], env) == Ok(p.body[i])
    {
      assert sig[h + i] == b[i];
    }
  }

  /** An accepted program starts with the 1.0.0 preamble, and the body after it and the optional `clear` is accepted. */
  lemma ParseProgramOk(sig: seq<Line>, env: Env, p: Program)
    requires AllTrimmed(sig) && ParseProgram(sig, env) == Ok(p)
    ensures |sig| > 0 && MatchPreamble(sig[0].text) == Preamble(1, 0, 0)
    ensures var rest := sig[1..]; var clear := |rest| > 0 && rest[0].text == "clear";
      ParseBody(if clear then rest[1..] else rest, env, Program(1, 0, 0, clear, false, [])) == Ok(p)
  {
    hide MatchPreamble, ParseBody;
  }

  /** Every statement of an accepted program names an existing slot and fits the binary format. */
  lemma ParsedProgramFits(sig: seq<Line>, env: Env, p: Program)
    requires AllTrimmed(sig)
    requires ParseProgram(sig, env) == Ok(p)
    ensures p.v0 == 1 && p.v1 == 0 && p.v2 == 0
    ensures forall i :: 0 <= i < |p.body| ==> Fits(p.body[i])
  {
    hide ParseProgram, SetStatement, MatchPreamble;
    ParseProgramShape(sig, env, p);
    var h := if p.clear then 2 else 1;
    forall i | 0 <= i < |p.body|
      ensures Fits(p.body[i])
    {
      assert SetStatement(sig[h + i], env) == Ok(p.body[i]);
    }
  }

  /**
   * What the parser guarantees of every statement it returns: a valid slot,
   * an integer within its variable's limits, a string of at most 65535 bytes.
   */
  predicate Fits(s: SetStmt) {
    InSlotRange(s.v)
    && (s.v.ty == IntTy ==> WithinLimits(s.v.index, s.ival))
    && (s.v.ty == StrTy ==> |s.sval| <= MaxStringLength)
  }

  /** The converse: lines of that shape are accepted, with the statements and flags they spell. */
  lemma ParseProgramAccepts(sig: seq<Line>, env: Env, clear: bool, body: seq<SetStmt>, save: bool)
    requires AllTrimmed(sig)
    requires |sig| > 0 && MatchPreamble(sig[0].text) == Preamble(1, 0, 0)
    requires var h := if clear then 2 else 1;
      |sig| == h + |body| + 1 &&
      (clear ==> sig[1].text == "clear") &&
      sig[|sig| - 1].text == (if save then "save" else "end") &&
      forall i :: 0 <= i < |body| ==> SetStatement(sig[h + i], env) == Ok(body[i])
    ensures ParseProgram(sig, env) == Ok(Program(1, 0, 0, clear, save, body))
  {
    hide SetStatement, MatchPreamble;
    var h := if clear then 2 else 1;
    if !clear {
      if |body| > 0 {
        assert SetStatement(sig[1], env) == Ok(body[0]);
        SetLineIsNot(sig[1].text);
      }
    }
    var b := sig[h..];
    assert b == (if clear then sig[1..][1..] else sig[1..]);
    forall i | 0 <= i < |body|
      ensures SetStatement(b[i], env) == Ok(body[i])
    {
      assert b[i] == sig[h + i];
    }
    ParseBodyAccepts(b, env, Program(1, 0, 0, clear, false, []), body, save);
    assert [] + body == body;
  }

  lemma {:induction false} ParseBodyAccepts(sig: seq<Line>, env: Env, prog: Program, body: seq<SetStmt>, save: bool)
    requires AllTrimmed(sig)
    requires |sig| == |body| + 1
    requires sig[|sig| - 1].text == (if save then "save" else "end")
    requires forall i :: 0 <= i < |body| ==> SetStatement(sig[i], env) == Ok(body[i])
    ensures ParseBody(sig, env, prog) == Ok(prog.(body := prog.body + body, save := save))
    decreases |sig|
  {
    hide SetStatement;
    if |body| == 0 {
      assert prog.body + body == prog.body;
    } else {
      assert SetStatement(sig[0], env) == Ok(body[0]);
      SetLineIsNot(sig[0].text);
      ParseBodyAccepts(sig[1..], env, prog.(body := prog.body + [body[0]]), body[1..], save);
      assert prog.body + [body[0]] + body[1..] == prog.body + body;
    }
  }

  /** Without a terminator line there is no program, whatever else the lines hold. */
  lemma {:induction false} ParseBodyNeedsTerminator(sig: seq<Line>, env: Env, prog: Program)
    requires AllTrimmed(sig)
    requires forall i :: 0 <= i < |sig| ==> !IsTerminator(sig[i].text)
    ensures ParseBody(sig, env, prog).Err?
    ensures ParseBody(sig, env, prog).error.kind == MissingTerminator ||
      exists i :: 0 <= i < |sig| && SetStatement(sig[i], env) == Err(ParseBody(sig, env, prog).error)
    decreases |sig|
  {
    hide SetStatement;
    if |sig| > 0 {
      match SetStatement(sig[0], env)
      case Err(f) =>
      case Ok(s) =>
        ParseBodyNeedsTerminator(sig[1..], env, prog.(body := prog.body + [s]));
        var e := ParseBody(sig, env, prog).error;
        if e.kind != MissingTerminator {
          var i :| 0 <= i < |sig[1..]| && SetStatement(sig[1..][i], env) == Err(e);
          assert SetStatement(sig[i + 1], env) == Err(e);
        }
    }
  }

  /** Any significant line after the terminator is fatal, and reported at its own line. */
  lemma {:induction false} ParseBodyTrailing(sig: seq<Line>, env: Env, prog: Program, t: nat)
    requires AllTrimmed(sig)
    requires t + 1 < |sig| && IsTerminator(sig[t].text)
    requires forall i :: 0 <= i < t ==> SetStatement(sig[i], env).Ok?
    ensures ParseBody(sig, env, prog) == Err(Failure(TrailingInput, sig[t + 1].no))
    decreases t
  {
    hide SetStatement;
    if t > 0 {
      assert SetStatement(sig[0], env).Ok?;
      SetLineIsNot(sig[0].text);
      ParseBodyTrailing(sig[1..], env, prog.(body := prog.body + [SetStatement(sig[0], env).value]), t - 1);
    }
  }

  /** One accepted statement line: the rest of the body is parsed with the statement appended. */
  lemma ParseBodyStep(sig: seq<Line>, env: Env, prog: Program, s: SetStmt)
    requires AllTrimmed(sig) && |sig| > 0 && !IsTerminator(sig[0].text)
    requires SetStatement(sig[0], env) == Ok(s)
    ensures ParseBody(sig, env, prog) == ParseBody(sig[1..], env, prog.(body := prog.body + [s]))
  {
    hide SetStatement;
  }

  /** The body of `parse`'s statement loop for one line: the checks of `SetStatement`, in order. */
  method Statement(l: Text, lineno: nat, env: Env) returns (r: Result<SetStmt, Failure>)
    requires IsTrimmedLine(l)
    ensures r == SetStatement(Line(l, lineno), env)
  {
    hide MatchSet;
    var m := MatchSet(l, lineno, env);
    if m.Err? {
      return Err(m.error);
    }
    if m.value.NotSet? {
      return Err(Failure(IllegalStatement, lineno));
    }
    var name, val := m.value.name, m.value.val;
    var theVar := Variables(name);
    if theVar.None? {
      return Err(Failure(UnknownVariable, lineno));
    }
    match theVar.value.ty
    case IntTy =>
      var ival := Atoi(val);
      if ival.None? {
        return Err(Failure(BadInteger, lineno));
      }
      var limits := IntLimits(theVar.value.index);
      if limits.Some? {
        if ival.value < limits.value.min || ival.value > limits.value.max {
          return Err(Failure(OutOfRange, lineno));
        }
      }
      return Ok(SetStmt(theVar.value, [], ival.value));
    case StrTy =>
      if |val| > MaxStringLength {
        return Err(Failure(StringTooLong, lineno));
      }
      return Ok(SetStmt(theVar.value, val, 0));
  }

  /** `parse`, line by line, as the compiler runs it. */
  method Parse(inp: Input, env: Env) returns (r: Result<Program, Failure>)
    requires inp.Valid()
    modifies inp
    ensures r == ParseProgram(old(inp.Pending()), env)
  {
    hide SetStatement, MatchPreamble;
    ghost var sig := inp.Pending();
    var l, lineno, haveLine := inp.Next();
    if !haveLine {
      return Err(Failure(EmptyProgram, 0));
    }
    match MatchPreamble(l)
    case NotPreamble =>
      return Err(Failure(MissingPreamble, lineno));
    case PreambleBadSyntax =>
      return Err(Failure(BadPreambleSyntax, lineno));
    case PreambleBadValue =>
      return Err(Failure(BadVersionValue, lineno));
    case Preamble(x, y, z) =>
      if !(x == 1 && y == 0 && z == 0) {
        return Err(Failure(UnknownVersion, lineno));
      }
      var prog := Program(x, y, z, false, false, []);
      l, lineno, haveLine := inp.Next();
      if haveLine && l == "clear" {
        prog := prog.(clear := true);
        l, lineno, haveLine := inp.Next();
      }
      r := ParseStatements(inp, env, prog, l, lineno, haveLine);
  }

  /**
   * The rest of `parse`, from the first line after the preamble and `clear`:
   * the statement loop, the terminator, and the check for trailing input.
   */
  method ParseStatements(inp: Input, env: Env, prog0: Program, l0: Text, lineno0: nat, haveLine0: bool)
    returns (r: Result<Program, Failure>)
    requires inp.Valid()
    requires haveLine0 ==> IsTrimmedLine(l0)
    requires !haveLine0 ==> inp.Pending() == [] && lineno0 == 0
    modifies inp
    ensures r == ParseBody((if haveLine0 then [Line(l0, lineno0)] else []) + old(inp.Pending()), env, prog0)
  {
    hide SetStatement;
    ghost var sig := (if haveLine0 then [Line(l0, lineno0)] else []) + inp.Pending();
    var prog, l, lineno, haveLine := prog0, l0, lineno0, haveLine0;
    while haveLine && l != "save" && l != "end"
      invariant inp.Valid() && inp.lines == old(inp.lines)
      invariant haveLine ==> IsTrimmedLine(l)
      invariant !haveLine ==> inp.Pending() == [] && lineno == 0
      invariant ParseBody((if haveLine then [Line(l, lineno)] else []) + inp.Pending(), env, prog) == ParseBody(sig, env, prog0)
      decreases |inp.Pending()| + (if haveLine then 1 else 0)
    {
      ghost var lines := [Line(l, lineno)] + inp.Pending();
      assert lines[1..] == inp.Pending();
      var st := Statement(l, lineno, env);
      if st.Err? {
        return Err(st.error);
      }
      var stmt := st.value;
      ParseBodyStep(lines, env, prog, stmt);
      prog := prog.(body := prog.body + [stmt]);
      l, lineno, haveLine := inp.Next();
    }
    if !haveLine {
      return Err(Failure(MissingTerminator, lineno));
    }
    prog := prog.(save := l == "save");
    var l2, lineno2, haveLine2 := inp.Next();
    if haveLine2 {
      return Err(Failure(TrailingInput, lineno2));
    }
    return Ok(prog);
  }

  // ---------------------------------------------------------------- code generator

  function StartRecord(p: Program): seq<Byte> {
    [InstrStart, p.v0, p.v1, p.v2, if p.clear then 1 else 0]
  }

  function StopRecord(p: Program): seq<Byte> {
    [InstrStop, if p.save then 1 else 0]
  }

  /** SETI: opcode, slot, then the value's low 32 bits little-endian. */
  function SetiRecord(slot: Byte, ival: int): (r: seq<Byte>)
    ensures |r| == 6 && r[0] == InstrSeti && r[1] == slot
    ensures LE32(r[2], r[3], r[4], r[5]) == ival % 0x1_0000_0000
  {
    LE32OfBytes(ival);
    [InstrSeti, slot, ByteAt(ival, 0), ByteAt(ival, 1), ByteAt(ival, 2), ByteAt(ival, 3)]
  }

  /** SETS: opcode, slot, the length's low 16 bits little-endian, then the bytes. */
  function SetsRecord(slot: Byte, s: Text): (r: seq<Byte>)
    ensures |r| == 4 + |s| && r[0] == InstrSets && r[1] == slot
    ensures LE16(r[2], r[3]) == |s| % 0x1_0000
    ensures r[4..] == BytesOf(s)
  {
    LE16OfBytes(|s|);
    [InstrSets, slot, ByteAt(|s|, 0), ByteAt(|s|, 1)] + BytesOf(s)
  }

  function StmtRecord(s: SetStmt): seq<Byte> {
    match s.v.ty
    case IntTy => SetiRecord(s.v.index % 256, s.ival)
    case StrTy => SetsRecord(s.v.index % 256, s.sval)
  }

  function EncodeBody(body: seq<SetStmt>): seq<Byte> {
    if |body| == 0 then [] else EncodeBody(body[..|body| - 1]) + StmtRecord(body[|body| - 1])
  }

  /** The whole byte stream `codegen` emits for a program. */
  function Encode(p: Program): seq<Byte> {
    StartRecord(p) + EncodeBody(p.body) + StopRecord(p)
  }

  /** The size of a statement's record. */
  function RecordSize(s: SetStmt): nat {
    match s.v.ty
    case IntTy => 6
    case StrTy => 4 + |s.sval|
  }

  function BodySize(body: seq<SetStmt>): nat {
    if |body| == 0 then 0 else BodySize(body[..|body| - 1]) + RecordSize(body[|body| - 1])
  }

  lemma {:induction false} EncodeBodyAppend(a: seq<SetStmt>, b: seq<SetStmt>)
    ensures EncodeBody(a + b) == EncodeBody(a) + EncodeBody(b)
    decreases |b|
  {
    hide StmtRecord;
    if |b| == 0 {
      assert a + b == a;
    } else {
      var b' := b[..|b| - 1];
      assert (a + b)[..|a + b| - 1] == a + b';
      assert (a + b)[|a + b| - 1] == b[|b| - 1];
      EncodeBodyAppend(a, b');
      AppendAssoc(EncodeBody(a), EncodeBody(b'), StmtRecord(b[|b| - 1]));
    }
  }

  lemma AppendAssoc<T>(a: seq<T>, b: seq<T>, c: seq<T>)
    ensures a + b + c == a + (b + c)
  {
  }

  lemma EncodeBodySnoc(body: seq<SetStmt>, i: nat)
    requires i < |body|
    ensures EncodeBody(body[..i + 1]) == EncodeBody(body[..i]) + StmtRecord(body[i])
  {
    assert body[..i + 1][..i] == body[..i];
  }

  /** Statements are emitted in order, one record each: the first statement's record comes first. */
  lemma EncodeBodyFront(body: seq<SetStmt>)
    requires |body| > 0
    ensures EncodeBody(body) == StmtRecord(body[0]) + EncodeBody(body[1..])
  {
    hide StmtRecord;
    assert body == [body[0]] + body[1..];
    EncodeBodyAppend([body[0]], body[1..]);
    assert EncodeBody([body[0]]) == StmtRecord(body[0]) by {
      assert [body[0]][..0] == [];
    }
  }

  /** The body takes 6 bytes per integer and 4 + length per string. */
  lemma {:induction false} EncodeBodySize(body: seq<SetStmt>)
    ensures |EncodeBody(body)| == BodySize(body)
    decreases |body|
  {
    if |body| > 0 {
      EncodeBodySize(body[..|body| - 1]);
    }
  }

  /**
   * The layout: a 5-byte START first, a 2-byte STOP last, and in between the
   * body records, for a total of 5 + (6 per integer, 4 + length per string) + 2.
   */
  lemma EncodeLayout(p: Program)
    ensures |Encode(p)| == 5 + BodySize(p.body) + 2
    ensures Encode(p)[..5] == [InstrStart, p.v0, p.v1, p.v2, if p.clear then 1 else 0]
    ensures Encode(p)[|Encode(p)| - 2..] == [InstrStop, if p.save then 1 else 0]
    ensures Encode(p)[5..|Encode(p)| - 2] == EncodeBody(p.body)
  {
    EncodeBodySize(p.body);
  }

  /** The output sink: an append-only byte buffer. */
  class Output {
    var bytes: seq<Byte>

    constructor ()
      ensures bytes == []
    {
      bytes := [];
    }

    /** `emitn` and `emit`: append bytes. */
    method Emit(bs: seq<Byte>)
      modifies this
      ensures bytes == old(bytes) + bs
    {
      bytes := bytes + bs;
    }
  }

  /** The bytes of one record, field by field. */
  lemma RecordBytes(s: SetStmt)
    ensures s.v.ty == IntTy ==>
      StmtRecord(s) == [InstrSeti, s.v.index % 256, ByteAt(s.ival, 0), ByteAt(s.ival, 1), ByteAt(s.ival, 2), ByteAt(s.ival, 3)]
    ensures s.v.ty == StrTy ==>
      StmtRecord(s) == [InstrSets, s.v.index % 256, ByteAt(|s.sval|, 0), ByteAt(|s.sval|, 1)] + BytesOf(s.sval)
  {
    hide ByteAt, BytesOf, LE32, LE16;
  }

  /** The body of `codegen`'s loop: the record of one statement. */
  method EmitRecord(s: SetStmt, out: Output)
    modifies out
    ensures out.bytes == old(out.bytes) + StmtRecord(s)
  {
    RecordBytes(s);
    hide SetiRecord, SetsRecord, ByteAt, BytesOf;
    match s.v.ty
    case IntTy =>
      out.Emit([InstrSeti, s.v.index % 256, ByteAt(s.ival, 0), ByteAt(s.ival, 1), ByteAt(s.ival, 2), ByteAt(s.ival, 3)]);
    case StrTy =>
      out.Emit([InstrSets, s.v.index % 256, ByteAt(|s.sval|, 0), ByteAt(|s.sval|, 1)]);
      out.Emit(BytesOf(s.sval));
  }

  /** `codegen`: emits START, one record per statement, and STOP. */
  method Codegen(prog: Program, out: Output)
    modifies out
    ensures out.bytes == old(out.bytes) + Encode(prog)
  {
    var clearb: Byte := if prog.clear then 1 else 0;
    out.Emit([InstrStart, prog.v0, prog.v1, prog.v2, clearb]);
    assert out.bytes == old(out.bytes) + StartRecord(prog);
    ghost var start := out.bytes;
    var i := 0;
    while i < |prog.body|
      invariant 0 <= i <= |prog.body|
      invariant out.bytes == start + EncodeBody(prog.body[..i])
    {
      EmitRecord(prog.body[i], out);
      EncodeBodySnoc(prog.body, i);
      AppendAssoc(start, EncodeBody(prog.body[..i]), StmtRecord(prog.body[i]));
      i := i + 1;
    }
    assert prog.body[..i] == prog.body;
    var saveb: Byte := if prog.save then 1 else 0;
    out.Emit([InstrStop, saveb]);
    assert out.bytes == start + EncodeBody(prog.body) + StopRecord(prog);
    AppendAssoc(old(out.bytes), StartRecord(prog), EncodeBody(prog.body));
    AppendAssoc(old(out.bytes), StartRecord(prog) + EncodeBody(prog.body), StopRecord(prog));
  }

  /**
   * `parse` of the whole input text: split into lines, trimmed and numbered,
   * then parsed. A program it returns has version 1.0.0 and only statements
   * that fit the device's tables.
   */
  function ParseText(text: Text, env: Env): (r: Result<Program, Failure>)
    ensures r.Ok? ==> r.value.v0 == 1 && r.value.v1 == 0 && r.value.v2 == 0
    ensures r.Ok? ==> forall i :: 0 <= i < |r.value.body| ==> Fits(r.value.body[i])
  {
    var sig := SigFrom(ReadLines(text), 0);
    SigFromTrimmed(ReadLines(text), 0);
    var r := ParseProgram(sig, env);
    if r.Ok? then ParsedProgramFits(sig, env, r.value); r else r
  }

  /** The whole compiler: `parse` of the input text, then `codegen` of the program. */
  function Compile(text: Text, env: Env): Result<seq<Byte>, Failure> {
    var p :- ParseText(text, env);
    Ok(Encode(p))
  }

  // ---------------------------------------------------------------- worked example

  /** `read_input` cuts after the first newline. */
  lemma ReadLinesLine(a: Text, rest: Text)
    requires '\n' !in a
    ensures ReadLines(a + "\n" + rest) == [a + "\n"] + ReadLines(rest)
  {
    var t := a + "\n" + rest;
    assert t == a + ("\n" + rest);
    NewlineAtFirst(a, "\n" + rest);
    assert t[..|a| + 1] == a + "\n";
    assert t[|a| + 1..] == rest;
  }

  lemma {:induction false} NewlineAtFirst(a: Text, t: Text)
    requires '\n' !in a && |t| > 0 && t[0] == '\n'
    ensures NewlineAt(a + t) == |a|
    decreases |a|
  {
    if |a| > 0 {
      assert (a + t)[0] == a[0];
      assert (a + t)[1..] == a[1..] + t;
      assert '\n' !in a[1..] by {
        assert forall i :: 0 <= i < |a[1..]| ==> a[1..][i] == a[i + 1];
      }
      NewlineAtFirst(a[1..], t);
    } else {
      assert a + t == t;
    }
  }

  /** A trimmed line followed by its newline trims back to the line. */
  lemma TrimLine(a: Text)
    requires IsTrimmedLine(a) && Unpadded(a)
    ensures Trim(a + "\n") == a
  {
    var t := a + "\n";
    assert t[..|t| - 1] == a;
    if |a| == 0 {
      assert SpaceLen(t) == 1 && t[1..] == [];
      assert TrimLeft(t) == TrimLeft([]) == [];
    } else {
      assert SpaceLen(t) == 0 by {
        assert forall i :: 0 <= i < |a| ==> t[i] == a[i];
        assert t[|a|] == '\n';
      }
      assert TrimLeft(t) == t;
      assert SpaceLenEnd(t) == 1;
      assert TrimRight(t) == TrimRight(a) == a;
    }
  }

  /** The example program of the configuration format. */
  const ExampleSource: Text := "snappysense-compiled-config 1.0.0\nset enabled 1\nsave\n"

  const ExamplePreamble: Text := "snappysense-compiled-config 1.0.0"
  const ExampleSet: Text := "set enabled 1"

  lemma ExampleLines()
    ensures ReadLines(ExampleSource) == [ExamplePreamble + "\n", ExampleSet + "\n", "save\n", ""]
  {
    hide ReadLines, NewlineAt;
    var r3: Text := "save" + "\n" + "";
    var r2 := ExampleSet + "\n" + r3;
    ExampleSplit();
    ReadLinesLine(ExamplePreamble, r2);
    ReadLinesLine(ExampleSet, r3);
    ReadLinesLine("save", "");
    ReadLinesEmpty();
    assert "save" + "\n" + "" == "save" + "\n" == "save\n";
  }

  lemma ExampleSig()
    ensures SigFrom(ReadLines(ExampleSource), 0) ==
      [Line(ExamplePreamble, 1), Line(ExampleSet, 2), Line("save", 3)]
  {
    hide ReadLines, NewlineAt, Trim, TrimLeft, TrimRight;
    ExampleLines();
    ExampleTrims();
    var lines := [ExamplePreamble + "\n", ExampleSet + "\n", "save\n", ""];
    assert SigFrom(lines, 3) == [];
    assert SigFrom(lines, 2) == [Line("save", 3)];
    assert SigFrom(lines, 1) == [Line(ExampleSet, 2), Line("save", 3)];
  }

  lemma ExampleTrims()
    ensures Trim(ExamplePreamble + "\n") == ExamplePreamble
    ensures Trim(ExampleSet + "\n") == ExampleSet
    ensures Trim("save\n") == "save"
    ensures Trim("") == ""
    ensures IsTrimmedLine(ExamplePreamble) && IsTrimmedLine(ExampleSet) && IsTrimmedLine("save")
  {
    hide TrimLeft, TrimRight;
    assert IsTrimmedLine(ExamplePreamble) && Unpadded(ExamplePreamble);
    assert IsTrimmedLine(ExampleSet) && Unpadded(ExampleSet);
    assert IsTrimmedLine("save") && Unpadded("save");
    TrimLine(ExamplePreamble);
    TrimLine(ExampleSet);
    TrimLine("save");
    assert "save\n" == "save" + "\n";
    TrimEmpty();
  }

  lemma TrimEmpty()
    ensures Trim("") == ""
  {
  }

  /** The example's one statement: `enabled` is integer slot 0 and 1 is within its range. */
  const ExampleStmt := SetStmt(VarInfo(IntTy, 0), [], 1)

  lemma ExamplePreambleMatches()
    ensures MatchPreamble(ExamplePreamble) == Preamble(1, 0, 0)
  {
    hide MatchPreamble;
    ExampleTexts();
    MatchPreambleLine(1, 0, 0);
  }

  lemma ExampleSetMatches(env: Env)
    ensures IsTrimmedLine(ExampleSet)
    ensures SetStatement(Line(ExampleSet, 2), env) == Ok(ExampleStmt)
  {
    hide SetStatement;
    ExampleTexts();
    RegistryCoversSlots(IntTy, 0);
    assert IsName("enabled");
    SetIntStatement("enabled", 1, 2, env);
  }

  lemma ExampleEncode(p: Program)
    requires p == Program(1, 0, 0, false, true, [ExampleStmt])
    ensures Encode(p) == [InstrStart, 1, 0, 0, 0] + [InstrSeti, 0, 1, 0, 0, 0] + [InstrStop, 1]
  {
    hide SetiRecord, ByteAt, Pow256;
    SetiSmall(0, 1);
    assert EncodeBody(p.body) == [] + StmtRecord(p.body[0]);
  }

  /** A value that fits in one byte is its own low byte, followed by three zero bytes. */
  lemma SetiSmall(slot: Byte, v: int)
    requires 0 <= v < 256
    ensures SetiRecord(slot, v) == [InstrSeti, slot, v, 0, 0, 0]
  {
    var r := SetiRecord(slot, v);
    hide SetiRecord;
    assert r == [InstrSeti, slot, v, 0, 0, 0];
  }

  /**
   * The example compiles to START 1.0.0 without clear, one SETI of 1 into
   * integer slot 0, and STOP with save.
   */
  lemma CompileExample(env: Env)
    ensures Compile(ExampleSource, env) == Ok([InstrStart, 1, 0, 0, 0] + [InstrSeti, 0, 1, 0, 0, 0] + [InstrStop, 1])
  {
    hide ReadLines, SigFrom, ParseProgram, MatchPreamble, SetStatement, Encode, IsTrimmedLine;
    ExampleSig();
    ExamplePreambleMatches();
    ExampleSetMatches(env);
    ExampleTrims();
    var sig := SigFrom(ReadLines(ExampleSource), 0);
    assert AllTrimmed(sig);
    ParseProgramAccepts(sig, env, false, [ExampleStmt], true);
    ExampleEncode(Program(1, 0, 0, false, true, [ExampleStmt]));
  }

  lemma ExampleSplit()
    ensures ExampleSource == ExamplePreamble + "\n" + (ExampleSet + "\n" + ("save" + "\n" + ""))
  {
  }

  lemma ReadLinesEmpty()
    ensures ReadLines("") == [""]
  {
  }

  lemma ExampleTexts()
    ensures PreambleLine(1, 0, 0) == ExamplePreamble
    ensures SetLineText("enabled", FormatInt(1)) == ExampleSet
  {
    assert Decimal(1) == "1";
    assert Decimal(0) == "0";
  }
}
