/**
 * The Arduino firmware's configuration manager: the preferences table with
 * its factory defaults, `reset_configuration`, `get_pref`, the access-point
 * accessors, and the interpreter `evaluate_configuration` for configuration
 * programs made of `version`, `set`, `cert`, `clear`, `save` and `end`
 * statements.
 *
 * The table is a fixed array of slots.  The slot after the last preference
 * is never written and holds the null `long_key` that ends every scan.
 */
module Prefs {
  import opened Wrappers
  import opened Bytes
  import Util
  import FifoList

  // ---------------------------------------------------------------- the table

  /** The flag bits of a preference. */
  const StrFlag := 1
  const IntFlag := 2
  const CertFlag := 4
  const PasswdFlag := 8

  /** A preference: its script name, its NVRAM name, flags and both values. */
  datatype Pref = Pref(longKey: Text, shortKey: Text, flags: nat, intValue: int, strValue: Text)

  /** `flags & Str`. */
  predicate IsString(p: Pref) { p.flags % 2 == 1 }

  /** `flags & Cert`. */
  predicate IsCert(p: Pref) { (p.flags / 4) % 2 == 1 }

  /** A slot of the table: `Null` is an entry whose `long_key` is null. */
  datatype Slot = Null | Entry(pref: Pref)

  function Str(long: Text, short: Text): Pref { Pref(long, short, StrFlag, 0, "") }
  function Int(long: Text, short: Text, v: int): Pref { Pref(long, short, IntFlag, v, "") }

  /** The factory table of a production build. */
  const FactoryPrefs: seq<Pref> := [
    Int("enabled", "en", 1),
    Str("location", "loc"),
    Str("ssid1", "s1"),
    Str("ssid2", "s2"),
    Str("ssid3", "s3"),
    Pref("password1", "p1", StrFlag + PasswdFlag, 0, ""),
    Pref("password2", "p2", StrFlag + PasswdFlag, 0, ""),
    Pref("password3", "p3", StrFlag + PasswdFlag, 0, ""),
    Str("time-server-host", "tsh"),
    Int("time-server-port", "tsp", 8086),
    Str("http-upload-host", "huh"),
    Int("http-upload-port", "hup", 8086),
    Str("web-config-access-point", "wcap"),
    Str("aws-iot-id", "aid"),
    Str("aws-iot-class", "acls"),
    Str("aws-iot-endpoint-host", "ahost"),
    Int("aws-iot-endpoint-port", "aport", 8883),
    Pref("aws-iot-root-ca", "aroot", StrFlag + CertFlag, 0, ""),
    Pref("aws-iot-device-cert", "acert", StrFlag + CertFlag, 0, ""),
    Pref("aws-iot-private-key", "akey", StrFlag + CertFlag, 0, "")
  ]

  /** The number of slots: the factory entries and the terminator. */
  const TableSize := |FactoryPrefs| + 1

  /** The first slot at or after `i` that is `Null`, or the end. */
  function Live(s: seq<Slot>, i: nat): (r: nat)
    requires i <= |s|
    ensures i <= r <= |s| && (r < |s| ==> s[r].Null?)
    ensures forall k :: i <= k < r ==> s[k].Entry?
    decreases |s| - i
  {
    if i == |s| || s[i].Null? then i else Live(s, i + 1)
  }

  /** `get_pref` from slot `i` on: the first live entry named `name`. */
  function FindPref(s: seq<Slot>, i: nat, name: Text): (r: Option<nat>)
    requires i <= |s|
    ensures r.Some? ==> (i <= r.value < Live(s, i) && s[r.value].pref.longKey == name
      && forall k :: i <= k < r.value ==> s[k].pref.longKey != name)
    ensures r.None? ==> forall k :: i <= k < Live(s, i) ==> s[k].pref.longKey != name
    decreases |s| - i
  {
    if i == |s| || s[i].Null? then None
    else if s[i].pref.longKey == name then Some(i)
    else FindPref(s, i + 1, name)
  }

  /** The table after `reset_configuration`: the factory entries, then what was there. */
  function Reset(s: seq<Slot>): (r: seq<Slot>)
    requires |s| == TableSize
    ensures |r| == TableSize && r[|FactoryPrefs|] == s[|FactoryPrefs|]
    ensures forall k :: 0 <= k < |FactoryPrefs| ==> r[k] == Entry(FactoryPrefs[k])
  {
    seq(TableSize, k requires 0 <= k < TableSize => if k < |FactoryPrefs| then Entry(FactoryPrefs[k]) else s[k])
  }

  /** A table whose live entries carry the factory names and flags, in factory order. */
  predicate HasFactoryKeys(s: seq<Slot>) {
    |s| == TableSize && s[|FactoryPrefs|].Null?
    && (forall k :: 0 <= k < |FactoryPrefs| ==>
         s[k].Entry? && s[k].pref.longKey == FactoryPrefs[k].longKey && s[k].pref.flags == FactoryPrefs[k].flags)
  }

  /** The value a table gives a string preference that is known to exist. */
  function StringPref(s: seq<Slot>, name: Text): Text
    requires FindPref(s, 0, name).Some?
  {
    s[FindPref(s, 0, name).value].pref.strValue
  }

  /** Every factory name is found at its own factory position. */
  lemma FindFactoryKey(s: seq<Slot>, k: nat)
    requires HasFactoryKeys(s) && k < |FactoryPrefs|
    ensures FindPref(s, 0, FactoryPrefs[k].longKey) == Some(k)
  {
    assert Live(s, 0) == |FactoryPrefs| by {
      LiveAt(s, 0, |FactoryPrefs|);
    }
    forall j | 0 <= j < k ensures s[j].pref.longKey != FactoryPrefs[k].longKey {
      FactoryKeysDistinct(j, k);
    }
    FindPrefAt(s, 0, k, FactoryPrefs[k].longKey);
  }

  lemma {:induction false} LiveAt(s: seq<Slot>, i: nat, j: nat)
    requires i <= j < |s| && s[j].Null? && forall k :: i <= k < j ==> s[k].Entry?
    ensures Live(s, i) == j
    decreases j - i
  {
    if i < j {
      LiveAt(s, i + 1, j);
    }
  }

  lemma {:induction false} FindPrefAt(s: seq<Slot>, i: nat, j: nat, name: Text)
    requires i <= j < |s| && j < Live(s, i) && s[j].pref.longKey == name
    requires forall k :: i <= k < j ==> s[k].pref.longKey != name
    ensures FindPref(s, i, name) == Some(j)
    decreases j - i
  {
    if i < j {
      assert s[i].Entry? && Live(s, i) == Live(s, i + 1);
      FindPrefAt(s, i + 1, j, name);
    }
  }

  /** The position of each factory name in the table. */
  function FactoryIndex(name: Text): int {
    if name == "enabled" then 0 else if name == "location" then 1
    else if name == "ssid1" then 2 else if name == "ssid2" then 3 else if name == "ssid3" then 4
    else if name == "password1" then 5 else if name == "password2" then 6
    else if name == "password3" then 7 else if name == "time-server-host" then 8
    else if name == "time-server-port" then 9 else if name == "http-upload-host" then 10
    else if name == "http-upload-port" then 11 else if name == "web-config-access-point" then 12
    else if name == "aws-iot-id" then 13 else if name == "aws-iot-class" then 14
    else if name == "aws-iot-endpoint-host" then 15 else if name == "aws-iot-endpoint-port" then 16
    else if name == "aws-iot-root-ca" then 17 else if name == "aws-iot-device-cert" then 18
    else if name == "aws-iot-private-key" then 19 else -1
  }

  /** The factory names are pairwise different. */
  lemma FactoryKeysDistinct(j: nat, k: nat)
    requires j < k < |FactoryPrefs|
    ensures FactoryPrefs[j].longKey != FactoryPrefs[k].longKey
  {
    FactoryIndexOf(j);
    FactoryIndexOf(k);
  }

  lemma FactoryIndexOf(k: nat)
    requires k < |FactoryPrefs|
    ensures FactoryIndex(FactoryPrefs[k].longKey) == k
  {
  }

  // ---------------------------------------------------------------- library calls

  /** The end of the run of digits at `i`. */
  function DigitRun(s: Text, i: nat): (r: nat)
    requires i <= |s|
    ensures i <= r <= |s| && (r < |s| ==> !IsDigit(s[r]))
    ensures forall k :: i <= k < r ==> IsDigit(s[k])
    decreases |s| - i
  {
    if i == |s| || !IsDigit(s[i]) then i else DigitRun(s, i + 1)
  }

  /**
   * One `%d` conversion of `sscanf` from position `i`: spaces, an optional
   * sign, then at least one digit; the value and the position after it.
   */
  function ScanDec(s: Text, i: nat): (r: Option<(int, nat)>)
    requires i <= |s|
    ensures r.Some? ==> i < r.value.1 <= |s|
  {
    var b := Util.SkipSpaces(s, i);
    var signed := b < |s| && (s[b] == '-' || s[b] == '+');
    var d := if signed then b + 1 else b;
    var e := DigitRun(s, d);
    if e == d then None
    else
      var m: int := DigitsValue(s[d..e]);
      var v: int := if signed && s[b] == '-' then -m else m;
      Some((v, e))
  }

  /** A `%d` conversion followed by a literal `.`, and the position after the dot. */
  function ScanDot(w: Text, i: nat): (r: Option<(int, nat)>)
    requires i <= |w|
    ensures r.Some? ==> i < r.value.1 <= |w|
  {
    match ScanDec(w, i)
    case None => None
    case Some((v, e)) => if e < |w| && w[e] == '.' then Some((v, e + 1)) else None
  }

  /** `sscanf(w, "%d.%d.%d", ...) == 3`, with the three numbers. */
  function ScanVersion(w: Text): Option<(int, int, int)> {
    match ScanDot(w, 0)
    case None => None
    case Some((a, i)) =>
      match ScanDot(w, i)
      case None => None
      case Some((b, j)) =>
        match ScanDec(w, j)
        case None => None
        case Some((c, _)) => Some((a, b, c))
  }

  /** `String::toInt`, that is `atol`: the `%d` value, or 0 when there is no number. */
  function Atol(s: Text): int {
    match ScanDec(s, 0)
    case None => 0
    case Some((v, _)) => v
  }

  lemma {:induction false} DigitRunAt(s: Text, i: nat, j: nat)
    requires i <= j <= |s| && (j < |s| ==> !IsDigit(s[j]))
    requires forall k :: i <= k < j ==> IsDigit(s[k])
    ensures DigitRun(s, i) == j
    decreases j - i
  {
    if i < j {
      DigitRunAt(s, i + 1, j);
    }
  }

  /** `%d` reads back the decimal rendering of a natural number at `i`. */
  lemma ScanDecimal(s: Text, i: nat, n: nat)
    requires i + |Decimal(n)| <= |s| && s[i..i + |Decimal(n)|] == Decimal(n)
    requires i + |Decimal(n)| < |s| ==> !IsDigit(s[i + |Decimal(n)|])
    ensures ScanDec(s, i) == Some((n, i + |Decimal(n)|))
  {
    var d := Decimal(n);
    var e := i + |d|;
    assert s[i] == d[0];
    assert Util.SkipSpaces(s, i) == i;
    forall k | i <= k < e ensures IsDigit(s[k]) {
      assert s[k] == s[i..e][k - i] == d[k - i];
    }
    DigitRunAt(s, i, e);
    DecimalValue(n);
  }

  /** `%d` reads back a minus sign followed by the decimal rendering of `n`. */
  lemma ScanNegative(s: Text, i: nat, n: nat)
    requires i + 1 + |Decimal(n)| <= |s| && s[i] == '-' && s[i + 1..i + 1 + |Decimal(n)|] == Decimal(n)
    requires i + 1 + |Decimal(n)| < |s| ==> !IsDigit(s[i + 1 + |Decimal(n)|])
    ensures ScanDec(s, i) == Some((-(n as int), i + 1 + |Decimal(n)|))
  {
    var d := Decimal(n);
    var e := i + 1 + |d|;
    assert Util.SkipSpaces(s, i) == i;
    forall k | i + 1 <= k < e ensures IsDigit(s[k]) {
      assert s[k] == s[i + 1..e][k - i - 1] == d[k - i - 1];
    }
    DigitRunAt(s, i + 1, e);
    DecimalValue(n);
  }

  /** `%d` of `printf`: an optional minus sign and the decimal digits. */
  function IntText(n: int): Text {
    if n < 0 then "-" + Decimal(-n) else Decimal(n)
  }

  /** `toInt` reads back what `%d` printed: an integer preference set from its own rendering keeps its value. */
  lemma AtolIntText(n: int)
    ensures Atol(IntText(n)) == n
  {
    var s := IntText(n);
    if n < 0 {
      assert s[1..1 + |Decimal(-n)|] == Decimal(-n);
      ScanNegative(s, 0, -n);
    } else {
      assert s[0..|Decimal(n)|] == Decimal(n);
      ScanDecimal(s, 0, n);
    }
  }

  /** The text of version `a.b.c`. */
  function VersionText(a: nat, b: nat, c: nat): (r: Text)
    ensures r == Decimal(a) + "." + Decimal(b) + "." + Decimal(c)
  {
    Decimal(a) + "." + Decimal(b) + "." + Decimal(c)
  }

  /** `%d.` reads back a decimal rendering followed by a dot. */
  lemma ScanDotDecimal(w: Text, i: nat, n: nat)
    requires i + |Decimal(n)| < |w| && w[i..i + |Decimal(n)|] == Decimal(n) && w[i + |Decimal(n)|] == '.'
    ensures ScanDot(w, i) == Some((n as int, i + |Decimal(n)| + 1))
  {
    ScanDecimal(w, i, n);
  }

  /** The pieces of `x.y.z`. */
  lemma DottedParts(x: Text, y: Text, z: Text)
    ensures var w := x + "." + y + "." + z;
      w[0..|x|] == x && w[|x|] == '.' && w[|x| + 1..|x| + 1 + |y|] == y && w[|x| + 1 + |y|] == '.'
      && w[|x| + |y| + 2..|x| + |y| + 2 + |z|] == z && |w| == |x| + |y| + 2 + |z|
  {
    var w := x + "." + y + "." + z;
    assert w == x + (['.'] + y + ['.'] + z);
    assert w[|x| + 1..] == y + (['.'] + z);
    assert w[|x| + |y| + 2..] == z;
  }

  /** `sscanf` reads the three numbers back from a version text. */
  lemma ScanVersionText(a: nat, b: nat, c: nat)
    ensures ScanVersion(VersionText(a, b, c)) == Some((a, b, c))
  {
    hide *;
    var w := VersionText(a, b, c);
    DottedParts(Decimal(a), Decimal(b), Decimal(c));
    var i := |Decimal(a)| + 1;
    var j := i + |Decimal(b)| + 1;
    ScanDotDecimal(w, 0, a);
    ScanDotDecimal(w, i, b);
    ScanDecimal(w, j, c);
    ScanVersionOf(w, a, b, c, i, j);
  }

  lemma ScanVersionOf(w: Text, a: int, b: int, c: int, i: nat, j: nat)
    requires j <= |w| && ScanDot(w, 0) == Some((a, i)) && ScanDot(w, i) == Some((b, j))
    requires ScanDec(w, j).Some? && ScanDec(w, j).value.0 == c
    ensures ScanVersion(w) == Some((a, b, c))
  {
    hide ScanDot, ScanDec;
  }

  /** A `version a.b.c` statement is accepted exactly for major version 1 and minor version at most 1. */
  lemma VersionAccepted(a: nat, b: nat, c: nat)
    ensures VersionCheck(VersionText(a, b, c)) == None <==> (a == 1 && b <= 1)
    ensures a != 1 || b > 1 ==> VersionCheck(VersionText(a, b, c)) == Some(Failed("Bad version"))
  {
    ScanVersionText(a, b, c);
  }

  /** The end of `s[b..e]` once trailing spaces are dropped. */
  function TrimEnd(s: Text, b: nat, e: nat): (r: nat)
    requires b <= e <= |s|
    ensures b <= r <= e && (r > b ==> !Util.IsSpace(s[r - 1]))
    ensures forall k :: r <= k < e ==> Util.IsSpace(s[k])
    decreases e
  {
    if e == b || !Util.IsSpace(s[e - 1]) then e else TrimEnd(s, b, e - 1)
  }

  /** `String::trim`: the text without leading and trailing spaces. */
  function Trim(s: Text): (r: Text)
    ensures exists b, e :: 0 <= b <= e <= |s| && r == s[b..e]
    ensures |r| > 0 ==> !Util.IsSpace(r[0]) && !Util.IsSpace(r[|r| - 1])
  {
    var b := Util.SkipSpaces(s, 0);
    var e := TrimEnd(s, b, |s|);
    assert e > b ==> s[b..e][0] == s[b] && s[b..e][e - b - 1] == s[e - 1];
    s[b..e]
  }

  predicate StartsWith(s: Text, prefix: Text) { IsPrefix(prefix, s) }

  // ---------------------------------------------------------------- the interpreter

  /** The configuration language version this interpreter accepts. */
  const MajorVersion := 1
  const MinorVersion := 1
  const BugfixVersion := 0

  const BeginMark := "-----BEGIN "
  const EndMark := "-----END "

  /** Lines made into one text, each followed by a newline. */
  function JoinLines(ls: seq<Text>): Text {
    if ls == [] then "" else JoinLines(ls[..|ls| - 1]) + ls[|ls| - 1] + "\n"
  }

  /** The first line at or after `i` that starts with the end mark, or the end. */
  function FirstEnd(ls: seq<Text>, i: nat): (r: nat)
    requires i <= |ls|
    ensures i <= r <= |ls| && (r < |ls| ==> StartsWith(ls[r], EndMark))
    ensures forall k :: i <= k < r ==> !StartsWith(ls[k], EndMark)
    decreases |ls| - i
  {
    if i == |ls| || StartsWith(ls[i], EndMark) then i else FirstEnd(ls, i + 1)
  }

  /** A blank line, or one whose first non-space character is `#`. */
  predicate Ignorable(line: Text) {
    var i := Util.SkipSpaces(line, 0);
    i == |line| || line[i] == '#'
  }

  /** What the interpreter has built so far. */
  datatype EvalState = EvalState(table: seq<Slot>, saved: bool, lineno: int, nvram: seq<seq<Slot>>)

  /** `Done` is the empty result string; `Failed` carries the short message. */
  datatype Status = Done | Failed(msg: Text)

  /** A finished run: its status, its state, and the lines it left unread. */
  datatype Outcome = Outcome(status: Status, state: EvalState, rest: seq<Text>)

  /** One statement: go on with a new state and the remaining lines, or stop. */
  datatype Step = Next(state: EvalState, rest: seq<Text>) | Stop(out: Outcome)

  /** The preference after `set name value`: a string verbatim, anything else through `toInt`. */
  function Assign(p: Pref, value: Text): Pref {
    if IsString(p) then p.(strValue := value) else p.(intValue := Atol(value))
  }

  /** `set name value` on a table, or the short error message. */
  function SetStatement(line: Text, table: seq<Slot>): (r: Result<seq<Slot>, Text>)
    ensures r.Err? ==> r.error in {"Missing name", "Missing value", "Bad name"}
    ensures r.Ok? <==> (Util.WordAt(line, 1) != "" && |Util.Words(line, 0)| > 2
      && FindPref(table, 0, Util.WordAt(line, 1)).Some?
      && !IsCert(table[FindPref(table, 0, Util.WordAt(line, 1)).value].pref))
    ensures r.Ok? ==> var i := FindPref(table, 0, Util.WordAt(line, 1)).value;
      |r.value| == |table| && r.value[i] == Entry(Assign(table[i].pref, Util.WordAt(line, 2)))
      && forall k :: 0 <= k < |table| && k != i ==> r.value[k] == table[k]
  {
    var name := Util.WordAt(line, 1);
    if name == "" then Err("Missing name")
    else if |Util.Words(line, 0)| <= 2 then Err("Missing value")
    else match FindPref(table, 0, name)
      case None => Err("Bad name")
      case Some(i) =>
        if IsCert(table[i].pref) then Err("Bad name")
        else Ok(table[i := Entry(Assign(table[i].pref, Util.WordAt(line, 2)))])
  }

  /**
   * `cert name` followed by its block: a `-----BEGIN ` line, then lines up
   * to and including the first `-----END ` line.  The trimmed block goes to
   * a certificate preference.  `st` counts the `cert` line already.
   */
  function CertStatement(line: Text, rest: seq<Text>, st: EvalState): (r: Step)
    ensures r.Stop? ==> r.out.status in {Failed("Missing name"), Failed("EOF in cert"),
      Failed("Missing BEGIN"), Failed("Bad name")}
  {
    var name := Util.WordAt(line, 1);
    if name == "" then Stop(Outcome(Failed("Missing name"), st, rest))
    else if rest == [] then Stop(Outcome(Failed("EOF in cert"), st, []))
    else if !StartsWith(rest[0], BeginMark) then
      Stop(Outcome(Failed("Missing BEGIN"), st.(lineno := st.lineno + 1), rest[1..]))
    else CertBlock(name, rest, st)
  }

  /** The block from the BEGIN line `rest[0]` through the first END line after it. */
  function CertBlock(name: Text, rest: seq<Text>, st: EvalState): (r: Step)
    requires rest != []
    ensures r.Stop? ==> r.out.status in {Failed("EOF in cert"), Failed("Bad name")}
  {
    var k := FirstEnd(rest, 1);
    if k == |rest| then Stop(Outcome(Failed("EOF in cert"), st.(lineno := st.lineno + |rest|), []))
    else
      CertStore(name, Trim(JoinLines(rest[..k + 1])), st.(lineno := st.lineno + k + 1), rest[k + 1..])
  }

  /** The end of `cert`: the block goes to the certificate preference `name`. */
  function CertStore(name: Text, value: Text, st: EvalState, rest: seq<Text>): (r: Step)
    ensures r.Stop? ==> r.out == Outcome(Failed("Bad name"), st, rest)
  {
    match FindPref(st.table, 0, name)
    case None => Stop(Outcome(Failed("Bad name"), st, rest))
    case Some(i) =>
      if !IsCert(st.table[i].pref) then Stop(Outcome(Failed("Bad name"), st, rest))
      else Next(st.(table := st.table[i := Entry(st.table[i].pref.(strValue := value))]), rest)
  }

  /** The branches of `cert` before its block is read. */
  lemma CertEarly(line: Text, rest: seq<Text>, st: EvalState)
    ensures Util.WordAt(line, 1) == "" ==>
      CertStatement(line, rest, st) == Stop(Outcome(Failed("Missing name"), st, rest))
    ensures Util.WordAt(line, 1) != "" && rest == [] ==>
      CertStatement(line, rest, st) == Stop(Outcome(Failed("EOF in cert"), st, []))
    ensures Util.WordAt(line, 1) != "" && rest != [] && !StartsWith(rest[0], BeginMark) ==>
      CertStatement(line, rest, st) == Stop(Outcome(Failed("Missing BEGIN"), st.(lineno := st.lineno + 1), rest[1..]))
  {
  }

  /** The branches of `cert` once its block is read: no end line. */
  lemma CertUnended(line: Text, rest: seq<Text>, st: EvalState)
    requires Util.WordAt(line, 1) != "" && rest != [] && StartsWith(rest[0], BeginMark)
    requires FirstEnd(rest, 1) == |rest|
    ensures CertStatement(line, rest, st) == Stop(Outcome(Failed("EOF in cert"), st.(lineno := st.lineno + |rest|), []))
  {
    hide Util.WordAt, FirstEnd, StartsWith, CertStore;
    CertBlockReached(line, rest, st);
  }

  /** The branches of `cert` once its block is read: the block ends at line `k`. */
  lemma CertEnded(line: Text, rest: seq<Text>, st: EvalState, k: nat)
    requires Util.WordAt(line, 1) != "" && rest != [] && StartsWith(rest[0], BeginMark)
    requires k == FirstEnd(rest, 1) < |rest|
    ensures CertStatement(line, rest, st)
      == CertStore(Util.WordAt(line, 1), Trim(JoinLines(rest[..k + 1])), st.(lineno := st.lineno + k + 1), rest[k + 1..])
  {
    hide Util.WordAt, Trim, JoinLines, FirstEnd, CertStore, StartsWith, CertStatement, CertBlock;
    CertBlockReached(line, rest, st);
    CertBlockEnded(Util.WordAt(line, 1), rest, st, k);
  }

  /** A block whose END line is `rest[k]` is stored, and `k + 1` lines are counted. */
  lemma CertBlockEnded(name: Text, rest: seq<Text>, st: EvalState, k: nat)
    requires rest != [] && k == FirstEnd(rest, 1) < |rest|
    ensures CertBlock(name, rest, st)
      == CertStore(name, Trim(JoinLines(rest[..k + 1])), st.(lineno := st.lineno + k + 1), rest[k + 1..])
  {
    hide Trim, JoinLines, FirstEnd, CertStore;
  }

  /** A named `cert` whose next line begins the block reads that block. */
  lemma CertBlockReached(line: Text, rest: seq<Text>, st: EvalState)
    requires Util.WordAt(line, 1) != "" && rest != [] && StartsWith(rest[0], BeginMark)
    ensures CertStatement(line, rest, st) == CertBlock(Util.WordAt(line, 1), rest, st)
  {
    hide Util.WordAt, StartsWith, CertBlock;
  }

  /**
   * `version major.minor.bugfix`: the three numbers must be there, and the
   * program may not be of another major version or of a later minor one.
   */
  function VersionCheck(w: Text): (r: Option<Status>)
    ensures r.None? <==> (ScanVersion(w).Some? && ScanVersion(w).value.0 == MajorVersion
      && ScanVersion(w).value.1 <= MinorVersion)
    ensures r.Some? ==> r.value == if ScanVersion(w).None? then Failed("Bad statement") else Failed("Bad version")
  {
    match ScanVersion(w)
    case None => Some(Failed("Bad statement"))
    case Some((major, minor, _)) =>
      if major != MajorVersion || (major == MajorVersion && minor > MinorVersion) then Some(Failed("Bad version"))
      else None
  }

  /**
   * One statement of `evaluate_configuration`, chosen by its first word;
   * `st` counts the statement's line already.
   */
  function StatementStep(line: Text, rest: seq<Text>, st: EvalState): (r: Step)
    requires |st.table| == TableSize
  {
    var kwd := Util.WordAt(line, 0);
    if kwd == "end" then Stop(Outcome(Done, st, rest))
    else if kwd == "clear" then Next(st.(table := Reset(st.table)), rest)
    else if kwd == "save" then Next(st.(saved := true, nvram := st.nvram + [st.table]), rest)
    else if kwd == "version" then
      AsStep(VersionCheck(Util.WordAt(line, 1)), st, rest)
    else if kwd == "set" then
      match SetStatement(line, st.table)
      case Err(m) => Stop(Outcome(Failed(m), st, rest))
      case Ok(t) => Next(st.(table := t), rest)
    else if kwd == "cert" then CertStatement(line, rest, st)
    else if Ignorable(line) then Next(st, rest)
    else Stop(Outcome(Failed("Bad statement"), st, rest))
  }

  /** The branches of `StatementStep`, one per keyword. */
  lemma StatementCases(line: Text, rest: seq<Text>, st: EvalState)
    requires |st.table| == TableSize
    ensures var kwd := Util.WordAt(line, 0); var r := StatementStep(line, rest, st);
      (kwd == "end" ==> r == Stop(Outcome(Done, st, rest)))
      && (kwd == "clear" ==> r == Next(st.(table := Reset(st.table)), rest))
      && (kwd == "save" ==> r == Next(st.(saved := true, nvram := st.nvram + [st.table]), rest))
      && (kwd == "version" ==> r == AsStep(VersionCheck(Util.WordAt(line, 1)), st, rest))
      && (kwd == "set" ==> r == match SetStatement(line, st.table)
                               case Err(m) => Stop(Outcome(Failed(m), st, rest))
                               case Ok(t) => Next(st.(table := t), rest))
      && (kwd == "cert" ==> r == CertStatement(line, rest, st))
      && (kwd !in {"end", "clear", "save", "version", "set", "cert"} ==>
            r == if Ignorable(line) then Next(st, rest) else Stop(Outcome(Failed("Bad statement"), st, rest)))
  {
    hide Util.WordAt, Reset, SetStatement, CertStatement, VersionCheck, Ignorable, AsStep;
  }

  /** What a step leaves of the input and does to the counters. */
  predicate Consumes(rest: seq<Text>, st: EvalState, rest': seq<Text>, st': EvalState) {
    |rest'| <= |rest| && rest[|rest| - |rest'|..] == rest'
    && st'.lineno == st.lineno + |rest| - |rest'|
    && |st'.table| == |st.table|
    && (HasFactoryKeys(st.table) ==> HasFactoryKeys(st'.table))
    && (st.saved ==> st'.saved)
    && IsPrefix(st.nvram, st'.nvram)
  }

  /**
   * Every statement reads a suffix of the input, counts each line it reads,
   * and keeps the table's names and flags.
   */
  lemma StepConsumes(line: Text, rest: seq<Text>, st: EvalState)
    requires |st.table| == TableSize
    ensures var r := StatementStep(line, rest, st);
      match r
      case Next(st', rest') => Consumes(rest, st, rest', st')
      case Stop(o) => (Consumes(rest, st, o.rest, o.state) && o.status != Failed("Missing END")
        && (o.status == Done ==> Util.WordAt(line, 0) == "end" && o.rest == rest))
  {
    hide CertStatement, SetStatement, Reset, HasFactoryKeys, ScanVersion, VersionCheck, Ignorable;
    var r := StatementStep(line, rest, st);
    var kwd := Util.WordAt(line, 0);
    if kwd == "clear" {
      ResetKeys(st.table);
    } else if kwd == "save" {
      assert (st.nvram + [st.table])[..|st.nvram|] == st.nvram;
    } else if kwd == "set" {
      var t := SetStatement(line, st.table);
      if t.Ok? {
        SetKeepsKeys(line, st.table);
      }
    } else if kwd == "cert" && kwd != "end" && kwd != "version" {
      CertConsumes(line, rest, st);
    }
  }

  lemma ResetKeys(s: seq<Slot>)
    requires |s| == TableSize
    ensures HasFactoryKeys(s) ==> HasFactoryKeys(Reset(s))
  {
  }

  lemma SetKeepsKeys(line: Text, table: seq<Slot>)
    requires SetStatement(line, table).Ok?
    ensures HasFactoryKeys(table) ==> HasFactoryKeys(SetStatement(line, table).value)
  {
    var i := FindPref(table, 0, Util.WordAt(line, 1)).value;
    var t := SetStatement(line, table).value;
    assert t == table[i := Entry(Assign(table[i].pref, Util.WordAt(line, 2)))];
    UpdateKeepsKeys(table, i, t[i].pref);
  }

  lemma CertConsumes(line: Text, rest: seq<Text>, st: EvalState)
    requires |st.table| == TableSize
    ensures var r := CertStatement(line, rest, st);
      match r
      case Next(st', rest') => Consumes(rest, st, rest', st')
      case Stop(o) => Consumes(rest, st, o.rest, o.state)
  {
    hide Trim, JoinLines, Util.WordAt, FirstEnd, FindPref, HasFactoryKeys;
    var r := CertStatement(line, rest, st);
    assert r.Next? ==> FirstEnd(rest, 1) < |rest|;
    if r.Next? {
      var i := FindPref(st.table, 0, Util.WordAt(line, 1)).value;
      UpdateKeepsKeys(st.table, i, r.state.table[i].pref);
    }
  }

  /** Changing the values of a live entry keeps the factory names and flags. */
  lemma UpdateKeepsKeys(s: seq<Slot>, i: nat, p: Pref)
    requires i < |s| && s[i].Entry? && p.longKey == s[i].pref.longKey && p.flags == s[i].pref.flags
    ensures HasFactoryKeys(s) ==> HasFactoryKeys(s[i := Entry(p)])
  {
  }

  /** `evaluate_configuration` from the current state on the remaining lines. */
  function Evaluate(lines: seq<Text>, st: EvalState): (o: Outcome)
    requires |st.table| == TableSize
    decreases |lines|
  {
    var st1 := st.(lineno := st.lineno + 1);
    if lines == [] then Outcome(Failed("Missing END"), st1, [])
    else
      StepConsumes(lines[0], lines[1..], st1);
      match StatementStep(lines[0], lines[1..], st1)
      case Stop(o) => o
      case Next(st2, rest) => Evaluate(rest, st2)
  }

  /** One turn of `evaluate_configuration`: count the next line, then run it, or stop at the end of the input. */
  function EvaluateStep(lines: seq<Text>, st: EvalState): (r: Step)
    requires |st.table| == TableSize
  {
    var st1 := st.(lineno := st.lineno + 1);
    if lines == [] then Stop(Outcome(Failed("Missing END"), st1, [])) else StatementStep(lines[0], lines[1..], st1)
  }

  lemma EvaluateStepCases(lines: seq<Text>, st: EvalState)
    requires |st.table| == TableSize
    ensures EvaluateStep(lines, st) == if lines == [] then Stop(Outcome(Failed("Missing END"), st.(lineno := st.lineno + 1), []))
      else StatementStep(lines[0], lines[1..], st.(lineno := st.lineno + 1))
  {
  }

  /** A run is its first turn followed by the run from there. */
  lemma EvaluateByStep(lines: seq<Text>, st: EvalState)
    requires |st.table| == TableSize
    ensures var r := EvaluateStep(lines, st);
      (r.Stop? ==> Evaluate(lines, st) == r.out)
      && (r.Next? ==> |r.state.table| == TableSize && |r.rest| < |lines| && Evaluate(lines, st) == Evaluate(r.rest, r.state))
  {
    hide StatementStep;
    if lines == [] {
      EvaluateAtEnd(st);
    } else {
      EvaluateUnfold(lines, st);
    }
  }

  /**
   * What a run does: it reads a prefix of its input and counts every line
   * it reads, plus one for the missing `end`; it succeeds only on an `end`
   * line, keeps the table's names and flags, never forgets a `save`, and
   * only appends to NVRAM.
   */
  predicate RunFacts(lines: seq<Text>, st: EvalState, o: Outcome) {
    |o.rest| <= |lines| && lines[|lines| - |o.rest|..] == o.rest
    && o.state.lineno == st.lineno + |lines| - |o.rest| + (if o.status == Failed("Missing END") then 1 else 0)
    && (o.status == Failed("Missing END") ==> o.rest == [])
    && (o.status == Done ==> |o.rest| < |lines| && Util.WordAt(lines[|lines| - |o.rest| - 1], 0) == "end")
    && |o.state.table| == |st.table|
    && (HasFactoryKeys(st.table) ==> HasFactoryKeys(o.state.table))
    && (st.saved ==> o.state.saved)
    && IsPrefix(st.nvram, o.state.nvram)
  }

  lemma {:induction false} EvaluateConsumes(lines: seq<Text>, st: EvalState)
    requires |st.table| == TableSize
    ensures RunFacts(lines, st, Evaluate(lines, st))
    decreases |lines|
  {
    var st1 := st.(lineno := st.lineno + 1);
    if lines == [] {
      assert Evaluate(lines, st) == Outcome(Failed("Missing END"), st1, []);
    } else {
      hide StatementStep, Evaluate, RunFacts, Consumes;
      StepConsumes(lines[0], lines[1..], st1);
      EvaluateUnfold(lines, st);
      var r := StatementStep(lines[0], lines[1..], st1);
      if r.Stop? {
        RunFactsStop(lines, st, r.out);
      } else {
        EvaluateConsumes(r.rest, r.state);
        RunFactsNext(lines, st, r.state, r.rest, Evaluate(r.rest, r.state));
      }
    }
  }

  /** One statement of a run. */
  lemma EvaluateUnfold(lines: seq<Text>, st: EvalState)
    requires |st.table| == TableSize && lines != []
    ensures var r := StatementStep(lines[0], lines[1..], st.(lineno := st.lineno + 1));
      (r.Stop? ==> Evaluate(lines, st) == r.out)
      && (r.Next? ==> (|r.state.table| == TableSize && |r.rest| < |lines|
                       && Evaluate(lines, st) == Evaluate(r.rest, r.state)))
  {
    hide StatementStep;
    StepConsumes(lines[0], lines[1..], st.(lineno := st.lineno + 1));
  }

  lemma EvaluateAtEnd(st: EvalState)
    requires |st.table| == TableSize
    ensures Evaluate([], st) == Outcome(Failed("Missing END"), st.(lineno := st.lineno + 1), [])
  {
  }

  lemma RunFactsStop(lines: seq<Text>, st: EvalState, o: Outcome)
    requires lines != []
    requires Consumes(lines[1..], st.(lineno := st.lineno + 1), o.rest, o.state)
    requires o.status != Failed("Missing END")
    requires o.status == Done ==> Util.WordAt(lines[0], 0) == "end" && o.rest == lines[1..]
    ensures RunFacts(lines, st, o)
  {
    assert lines[1..][|lines[1..]| - |o.rest|..] == lines[|lines| - |o.rest|..];
  }

  lemma RunFactsNext(lines: seq<Text>, st: EvalState, st2: EvalState, rest: seq<Text>, o: Outcome)
    requires lines != []
    requires Consumes(lines[1..], st.(lineno := st.lineno + 1), rest, st2)
    requires RunFacts(rest, st2, o)
    ensures RunFacts(lines, st, o)
  {
    assert lines[1..][|lines[1..]| - |rest|..] == lines[|lines| - |rest|..];
    assert lines[|lines| - |o.rest|..] == rest[|rest| - |o.rest|..];
    if o.status == Done {
      assert lines[|lines| - |o.rest| - 1] == rest[|rest| - |o.rest| - 1];
    }
    assert st2.nvram[..|st.nvram|] == o.state.nvram[..|st.nvram|];
  }

  lemma {:induction false} FirstEndAt(ls: seq<Text>, i: nat, j: nat)
    requires i <= j <= |ls| && (j < |ls| ==> StartsWith(ls[j], EndMark))
    requires forall k :: i <= k < j ==> !StartsWith(ls[k], EndMark)
    ensures FirstEnd(ls, i) == j
    decreases j - i
  {
    if i < j {
      FirstEndAt(ls, i + 1, j);
    }
  }

  lemma JoinLinesSnoc(ls: seq<Text>, l: Text)
    ensures JoinLines(ls + [l]) == JoinLines(ls) + l + "\n"
  {
    assert (ls + [l])[..|ls|] == ls;
  }

  // ---------------------------------------------------------------- accessors

  function SsidName(n: int): Text
    requires 1 <= n <= 3
  {
    if n == 1 then "ssid1" else if n == 2 then "ssid2" else "ssid3"
  }

  function PasswordName(n: int): Text
    requires 1 <= n <= 3
  {
    if n == 1 then "password1" else if n == 2 then "password2" else "password3"
  }

  /** The factory positions of the access-point names. */
  lemma AccessPointKeys(s: seq<Slot>, n: int)
    requires HasFactoryKeys(s) && 1 <= n <= 3
    ensures FindPref(s, 0, SsidName(n)) == Some(n + 1)
    ensures FindPref(s, 0, PasswordName(n)) == Some(n + 4)
  {
    hide FindPref, HasFactoryKeys;
    FindFactoryKey(s, n + 1);
    FindFactoryKey(s, n + 4);
    if n == 1 {
      assert FactoryPrefs[2].longKey == "ssid1" && FactoryPrefs[5].longKey == "password1";
    } else if n == 2 {
      assert FactoryPrefs[3].longKey == "ssid2" && FactoryPrefs[6].longKey == "password2";
    } else {
      assert FactoryPrefs[4].longKey == "ssid3" && FactoryPrefs[7].longKey == "password3";
    }
  }

  /** A table with one string value replaced: what `set_string_pref` leaves. */
  function SetString(s: seq<Slot>, name: Text, v: Text): (r: seq<Slot>)
    requires FindPref(s, 0, name).Some?
  {
    var i := FindPref(s, 0, name).value;
    s[i := Entry(s[i].pref.(strValue := v))]
  }

  /** Tables with the same live names find every name at the same slot. */
  lemma {:induction false} FindPrefSameKeys(s: seq<Slot>, t: seq<Slot>, i: nat, name: Text)
    requires |s| == |t| && i <= |s|
    requires forall k :: 0 <= k < |s| ==> s[k].Null? == t[k].Null?
    requires forall k :: 0 <= k < |s| && s[k].Entry? ==> s[k].pref.longKey == t[k].pref.longKey
    ensures FindPref(s, i, name) == FindPref(t, i, name)
    decreases |s| - i
  {
    if i < |s| && s[i].Entry? && s[i].pref.longKey != name {
      FindPrefSameKeys(s, t, i + 1, name);
    }
  }

  /**
   * Writing a string preference and reading any preference back: the
   * written one gives the new value, every other one its old value.
   */
  lemma SetStringGet(s: seq<Slot>, name: Text, v: Text, other: Text)
    requires FindPref(s, 0, name).Some? && FindPref(s, 0, other).Some?
    ensures FindPref(SetString(s, name, v), 0, other) == FindPref(s, 0, other)
    ensures StringPref(SetString(s, name, v), other) == if other == name then v else StringPref(s, other)
  {
    var t := SetString(s, name, v);
    FindPrefSameKeys(s, t, 0, other);
    var j := FindPref(s, 0, other).value;
    if other != name {
      assert j != FindPref(s, 0, name).value;
    }
  }

  // ---------------------------------------------------------------- the device's table

  /** A statement's result as the methods below report it: an error status, or none to go on. */
  function AsStep(err: Option<Status>, st: EvalState, rest: seq<Text>): (r: Step)
    ensures r.Next? <==> err.None?
    ensures r.Next? ==> r.state == st && r.rest == rest
    ensures r.Stop? ==> r.out == Outcome(err.value, st, rest)
  {
    if err.None? then Next(st, rest) else Stop(Outcome(err.value, st, rest))
  }

  class Config {
    /** `prefs`: the table, with its terminating slot. */
    var prefs: array<Slot>
    /** The tables `save_configuration` wrote to NVRAM, oldest first. */
    var nvram: seq<seq<Slot>>

    ghost predicate Valid()
      reads this, prefs
    {
      prefs.Length == TableSize && prefs[|FactoryPrefs|].Null?
    }

    lemma ValidLength()
      requires Valid()
      ensures prefs.Length == TableSize
    {
    }

    /** The zero-initialised static table: every slot null. */
    constructor ()
      ensures Valid() && fresh(prefs) && nvram == []
      ensures forall k :: 0 <= k < TableSize ==> prefs[k] == Null
    {
      prefs := new Slot[TableSize](_ => Null);
      nvram := [];
    }

    /** `reset_configuration`: copy the factory entries over the table. */
    method ResetConfiguration()
      requires Valid()
      modifies prefs
      ensures Valid() && prefs[..] == Reset(old(prefs[..])) && HasFactoryKeys(prefs[..])
    {
      var i := 0;
      while i < |FactoryPrefs|
        invariant 0 <= i <= |FactoryPrefs|
        invariant forall k :: 0 <= k < i ==> prefs[k] == Entry(FactoryPrefs[k])
        invariant forall k :: i <= k < TableSize ==> prefs[k] == old(prefs[k])
      {
        prefs[i] := Entry(FactoryPrefs[i]);
        i := i + 1;
      }
      assert prefs[..] == Reset(old(prefs[..]));
    }

    /** `save_configuration`: the table goes to NVRAM. */
    method SaveConfiguration()
      requires Valid()
      modifies this`nvram
      ensures Valid() && nvram == old(nvram) + [prefs[..]]
    {
      nvram := nvram + [prefs[..]];
    }

    /** `get_pref`: the slot of the entry named `name`, or null. */
    method GetPref(name: Text) returns (r: Option<nat>)
      requires Valid()
      ensures r == FindPref(prefs[..], 0, name)
    {
      var p := 0;
      while prefs[p].Entry?
        invariant 0 <= p <= |FactoryPrefs|
        invariant FindPref(prefs[..], 0, name) == FindPref(prefs[..], p, name)
        decreases |FactoryPrefs| - p
      {
        if prefs[p].pref.longKey == name {
          return Some(p);
        }
        p := p + 1;
      }
      r := None;
    }

    /** `get_string_pref`: the value of an existing preference. */
    method GetStringPref(name: Text) returns (r: Text)
      requires Valid() && FindPref(prefs[..], 0, name).Some?
      ensures r == StringPref(prefs[..], name)
    {
      var p := GetPref(name);
      r := prefs[p.value].pref.strValue;
    }

    /** `set_string_pref`: replace the value of an existing preference. */
    method SetStringPref(name: Text, value: Text)
      requires Valid() && FindPref(prefs[..], 0, name).Some?
      modifies prefs
      ensures Valid() && prefs[..] == SetString(old(prefs[..]), name, value)
      ensures HasFactoryKeys(old(prefs[..])) ==> HasFactoryKeys(prefs[..])
    {
      var p := GetPref(name);
      var i := p.value;
      UpdateKeepsKeys(prefs[..], i, prefs[i].pref.(strValue := value));
      prefs[i] := Entry(prefs[i].pref.(strValue := value));
    }

    /** `access_point_ssid`: the SSID of network 1, 2 or 3, else the empty text. */
    method AccessPointSsid(n: int) returns (r: Text)
      requires Valid() && HasFactoryKeys(prefs[..])
      ensures 1 <= n <= 3 ==> FindPref(prefs[..], 0, SsidName(n)) == Some(n + 1) && r == StringPref(prefs[..], SsidName(n))
      ensures !(1 <= n <= 3) ==> r == ""
    {
      if 1 <= n <= 3 {
        AccessPointKeys(prefs[..], n);
      }
      if n == 1 {
        r := GetStringPref("ssid1");
      } else if n == 2 {
        r := GetStringPref("ssid2");
      } else if n == 3 {
        r := GetStringPref("ssid3");
      } else {
        r := "";
      }
    }

    /** `set_access_point_ssid`: only networks 1, 2 and 3 exist. */
    method SetAccessPointSsid(n: int, value: Text)
      requires Valid() && HasFactoryKeys(prefs[..])
      modifies prefs
      ensures Valid() && HasFactoryKeys(prefs[..])
      ensures 1 <= n <= 3 ==> FindPref(old(prefs[..]), 0, SsidName(n)) == Some(n + 1) && prefs[..] == SetString(old(prefs[..]), SsidName(n), value)
      ensures !(1 <= n <= 3) ==> prefs[..] == old(prefs[..])
    {
      if 1 <= n <= 3 {
        AccessPointKeys(prefs[..], n);
      }
      if n == 1 {
        SetStringPref("ssid1", value);
      } else if n == 2 {
        SetStringPref("ssid2", value);
      } else if n == 3 {
        SetStringPref("ssid3", value);
      }
    }

    /** `access_point_password`: the password of network 1, 2 or 3, else the empty text. */
    method AccessPointPassword(n: int) returns (r: Text)
      requires Valid() && HasFactoryKeys(prefs[..])
      ensures 1 <= n <= 3 ==> FindPref(prefs[..], 0, PasswordName(n)) == Some(n + 4) && r == StringPref(prefs[..], PasswordName(n))
      ensures !(1 <= n <= 3) ==> r == ""
    {
      if 1 <= n <= 3 {
        AccessPointKeys(prefs[..], n);
      }
      if n == 1 {
        r := GetStringPref("password1");
      } else if n == 2 {
        r := GetStringPref("password2");
      } else if n == 3 {
        r := GetStringPref("password3");
      } else {
        r := "";
      }
    }

    /** `set_access_point_password`: only networks 1, 2 and 3 exist. */
    method SetAccessPointPassword(n: int, value: Text)
      requires Valid() && HasFactoryKeys(prefs[..])
      modifies prefs
      ensures Valid() && HasFactoryKeys(prefs[..])
      ensures 1 <= n <= 3 ==> FindPref(old(prefs[..]), 0, PasswordName(n)) == Some(n + 4) && prefs[..] == SetString(old(prefs[..]), PasswordName(n), value)
      ensures !(1 <= n <= 3) ==> prefs[..] == old(prefs[..])
    {
      if 1 <= n <= 3 {
        AccessPointKeys(prefs[..], n);
      }
      if n == 1 {
        SetStringPref("password1", value);
      } else if n == 2 {
        SetStringPref("password2", value);
      } else if n == 3 {
        SetStringPref("password3", value);
      }
    }
  
    /** The `set` statement of `evaluate_configuration`. */
    method RunSet(line: Text) returns (err: Option<Text>)
      requires Valid()
      modifies prefs
      ensures Valid()
      ensures match SetStatement(line, old(prefs[..]))
        case Err(m) => err == Some(m) && prefs[..] == old(prefs[..])
        case Ok(t) => err == None && prefs[..] == t
    {
      var varname, _ := Util.GetWord(line, 1);
      if varname == "" {
        return Some("Missing name");
      }
      var value, flag := Util.GetWord(line, 2);
      if !flag {
        return Some("Missing value");
      }
      var p := GetPref(varname);
      if p.None? || IsCert(prefs[p.value].pref) {
        return Some("Bad name");
      }
      var i := p.value;
      if IsString(prefs[i].pref) {
        prefs[i] := Entry(prefs[i].pref.(strValue := value));
      } else {
        prefs[i] := Entry(prefs[i].pref.(intValue := Atol(value)));
      }
      err := None;
    }

    /**
     * The body of a certificate block: `first` (the `-----BEGIN ` line,
     * already taken from `input`) and the lines up to and including the
     * first `-----END ` line, each followed by a newline.  `count` is the
     * number of lines read, `first` included.
     */
    static method ReadBlock(first: Text, input: FifoList.List<Text>, ghost lines: seq<Text>)
      returns (value: Text, found: bool, count: nat)
      requires input.Valid() && lines != [] && lines[0] == first && lines[1..] == input.Contents
      modifies input
      ensures input.Valid() && input.Repr <= old(input.Repr)
      ensures found <==> FirstEnd(lines, 1) < |lines|
      ensures found ==> (count == FirstEnd(lines, 1) + 1 && value == JoinLines(lines[..count])
        && input.Contents == lines[count..])
      ensures !found ==> count == |lines| && input.Contents == []
    {
      value := first + "\n";
      count := 1;
      assert lines[..1] == [first];
      JoinLinesSnoc([], first);
      assert [] + [first] == [first];
      hide JoinLines, FirstEnd, StartsWith;
      while true
        invariant input.Valid() && input.Repr <= old(input.Repr)
        invariant 1 <= count <= |lines| && input.Contents == lines[count..]
        invariant value == JoinLines(lines[..count])
        invariant forall k :: 1 <= k < count ==> !StartsWith(lines[k], EndMark)
        decreases |lines| - count
      {
        if input.IsEmpty() {
          FirstEndAt(lines, 1, |lines|);
          return value, false, count;
        }
        StepSlice(lines, count);
        var next := input.PopFront();
        JoinLinesSnoc(lines[..count], next.value);
        value := value + next.value + "\n";
        count := count + 1;
        if StartsWith(next.value, EndMark) {
          FirstEndAt(lines, 1, count - 1);
          return value, true, count;
        }
      }
    }

    /** The end of the `cert` statement: `p->str_value = value` for a certificate preference. */
    method StoreCert(name: Text, value: Text, ghost st: EvalState, ghost rest: seq<Text>) returns (ok: bool)
      requires Valid() && st.table == prefs[..]
      modifies prefs
      ensures Valid()
      ensures var r := CertStore(name, value, st, rest);
        (ok ==> r == Next(st.(table := prefs[..]), rest))
        && (!ok ==> r == Stop(Outcome(Failed("Bad name"), st, rest)) && prefs[..] == old(prefs[..]))
    {
      var p := GetPref(name);
      if p.None? || !IsCert(prefs[p.value].pref) {
        return false;
      }
      prefs[p.value] := Entry(prefs[p.value].pref.(strValue := value));
      ok := true;
    }

    /**
     * The `cert` statement of `evaluate_configuration`: it reads the block
     * from `input` and counts its lines in `lineno`.
     */
    method RunCert(line: Text, input: FifoList.List<Text>, lineno0: int, ghost st0: EvalState)
      returns (err: Option<Status>, lineno: int)
      requires Valid() && input.Valid() && prefs !in input.Repr
      requires st0.table == prefs[..] && st0.lineno == lineno0
      modifies prefs, input
      ensures Valid() && input.Valid() && input.Repr <= old(input.Repr)
      ensures CertStatement(line, old(input.Contents), st0) == AsStep(err, st0.(table := prefs[..], lineno := lineno), input.Contents)
    {
      CertEarly(line, input.Contents, st0);
      ghost var rest0 := input.Contents;
      lineno := lineno0;
      var varname, _ := Util.GetWord(line, 1);
      assert varname == Util.WordAt(line, 1);
      hide *;
      if varname == "" {
        err := Some(Failed("Missing name"));
      } else if input.IsEmpty() {
        err := Some(Failed("EOF in cert"));
      } else {
        lineno := lineno + 1;
        var first := input.PopFront();
        var l := first.value;
        if !StartsWith(l, BeginMark) {
          err := Some(Failed("Missing BEGIN"));
        } else {
          err, lineno := RunCertBlock(line, varname, l, input, lineno0, st0, rest0);
        }
      }
    }

    /** The `cert` statement once its `-----BEGIN ` line `first` has been read. */
    method RunCertBlock(line: Text, varname: Text, first: Text, input: FifoList.List<Text>, lineno0: int,
                        ghost st0: EvalState, ghost rest0: seq<Text>)
      returns (err: Option<Status>, lineno: int)
      requires Valid() && input.Valid() && prefs !in input.Repr
      requires st0.table == prefs[..] && st0.lineno == lineno0
      requires varname == Util.WordAt(line, 1) != "" && StartsWith(first, BeginMark)
      requires rest0 != [] && rest0[0] == first && rest0[1..] == input.Contents
      modifies prefs, input
      ensures Valid() && input.Valid() && input.Repr <= old(input.Repr)
      ensures CertStatement(line, rest0, st0) == AsStep(err, st0.(table := prefs[..], lineno := lineno), input.Contents)
    {
      hide *;
      var value, found, count := ReadBlock(first, input, rest0);
      lineno := lineno0 + count;
      if !found {
        CertUnended(line, rest0, st0);
        err := Some(Failed("EOF in cert"));
      } else {
        CertEnded(line, rest0, st0, count - 1);
        var ok := StoreCert(varname, Trim(value), st0.(lineno := lineno), input.Contents);
        err := if ok then None else Some(Failed("Bad name"));
      }
    }

    /**
     * One statement of `evaluate_configuration`: `line` has been taken
     * from `input` and counted in `lineno0`.
     */
    method RunStatement(line: Text, input: FifoList.List<Text>, saved0: bool, lineno0: int)
      returns (stop: Option<Status>, saved: bool, lineno: int)
      requires Valid() && input.Valid() && this !in input.Repr && prefs !in input.Repr
      modifies this, prefs, input
      ensures Valid() && input.Valid() && input.Repr <= old(input.Repr) && prefs == old(prefs)
      ensures StatementStep(line, old(input.Contents), EvalState(old(prefs[..]), saved0, lineno0, old(nvram)))
        == AsStep(stop, EvalState(prefs[..], saved, lineno, nvram), input.Contents)
    {
      hide *;
      ValidLength();
      ghost var st0 := EvalState(prefs[..], saved0, lineno0, nvram);
      saved, lineno := saved0, lineno0;
      var kwd, _ := Util.GetWord(line, 0);
      StatementCases(line, input.Contents, st0);
      if kwd == "end" {
        stop := Some(Done);
      } else if kwd == "clear" {
        ResetConfiguration();
        stop := None;
      } else if kwd == "save" {
        SaveConfiguration();
        saved := true;
        stop := None;
      } else if kwd == "version" {
        stop := CheckVersion(line);
      } else if kwd == "set" {
        var err := RunSet(line);
        stop := if err.Some? then Some(Failed(err.value)) else None;
      } else if kwd == "cert" {
        stop, lineno := RunCert(line, input, lineno, st0);
      } else {
        var ok := IsIgnorable(line);
        stop := if ok then None else Some(Failed("Bad statement"));
      }
    }

    /** The `version` statement: `sscanf` of its second word, then the comparison. */
    static method CheckVersion(line: Text) returns (r: Option<Status>)
      ensures r == VersionCheck(Util.WordAt(line, 1))
    {
      var w, _ := Util.GetWord(line, 1);
      var v := ScanVersion(w);
      if v.None? {
        return Some(Failed("Bad statement"));
      }
      var (major, minor, _) := v.value;
      if major != MajorVersion || (major == MajorVersion && minor > MinorVersion) {
        return Some(Failed("Bad version"));
      }
      r := None;
    }

    /** A line that is not a statement: skip its leading spaces, then accept a comment or the end. */
    static method IsIgnorable(line: Text) returns (b: bool)
      ensures b == Ignorable(line)
    {
      var i := 0;
      while i < |line| && Util.IsSpace(line[i])
        invariant 0 <= i <= |line| && Util.SkipSpaces(line, 0) == Util.SkipSpaces(line, i)
      {
        i := i + 1;
      }
      if i < |line| && line[i] == '#' {
        b := true;
      } else if i == |line| {
        b := true;
      } else {
        b := false;
      }
    }

    /**
     * `evaluate_configuration`: run the program in `input` against the
     * table, one statement at a time, until `end`, an error, or the end of
     * the input.  `status` is the short message, `wasSaved` whether a
     * `save` ran, and `lineno` the line the run stopped at.
     */
    method EvaluateConfiguration(input: FifoList.List<Text>) returns (status: Status, wasSaved: bool, lineno: int)
      requires Valid() && input.Valid() && this !in input.Repr && prefs !in input.Repr
      modifies this, prefs, input
      ensures Valid() && input.Valid() && prefs == old(prefs)
      ensures var o := Evaluate(old(input.Contents), EvalState(old(prefs[..]), false, 0, old(nvram)));
        status == o.status && EvalState(prefs[..], wasSaved, lineno, nvram) == o.state && input.Contents == o.rest
    {
      hide *;
      ValidLength();
      ghost var o := Evaluate(input.Contents, EvalState(prefs[..], false, 0, nvram));
      lineno := 0;
      wasSaved := false;
      status := Done;
      var running := true;
      while running
        invariant Valid() && input.Valid() && this !in input.Repr && prefs !in input.Repr && prefs == old(prefs)
        invariant prefs.Length == TableSize
        invariant running ==> Evaluate(input.Contents, EvalState(prefs[..], wasSaved, lineno, nvram)) == o
        invariant !running ==> (status == o.status && EvalState(prefs[..], wasSaved, lineno, nvram) == o.state
          && input.Contents == o.rest)
        decreases running, |input.Contents|
      {
        ghost var lines := input.Contents;
        ghost var st := EvalState(prefs[..], wasSaved, lineno, nvram);
        var stop;
        stop, wasSaved, lineno := Round(input, wasSaved, lineno);
        EvaluateByStep(lines, st);
        if stop.Some? {
          status := stop.value;
          running := false;
        }
      }
    }

    /** One turn of the loop of `evaluate_configuration`: count a line, then read and run it. */
    method Round(input: FifoList.List<Text>, saved0: bool, lineno0: int)
      returns (stop: Option<Status>, saved: bool, lineno: int)
      requires Valid() && input.Valid() && this !in input.Repr && prefs !in input.Repr
      modifies this, prefs, input
      ensures Valid() && input.Valid() && input.Repr <= old(input.Repr) && prefs == old(prefs)
      ensures EvaluateStep(old(input.Contents), EvalState(old(prefs[..]), saved0, lineno0, old(nvram)))
        == AsStep(stop, EvalState(prefs[..], saved, lineno, nvram), input.Contents)
    {
      hide *;
      ghost var lines := input.Contents;
      ghost var st := EvalState(prefs[..], saved0, lineno0, nvram);
      ValidLength();
      EvaluateStepCases(lines, st);
      lineno := lineno0 + 1;
      if input.IsEmpty() {
        stop, saved := Some(Failed("Missing END")), saved0;
      } else {
        var line := input.PopFront();
        stop, saved, lineno := RunStatement(line.value, input, saved0, lineno);
      }
    }
  }
}
