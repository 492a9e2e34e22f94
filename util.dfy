/**
 * The firmware's string utilities: the quote-aware word splitter
 * `get_word`, the URL-form field reader `get_posted_field` with its hex
 * digit helper `hexval`, and the timestamp formatter `format_time`.
 */
module Util {
  import opened Wrappers
  import opened Bytes

  // ---------------------------------------------------------------- words

  /** `isspace` of the C library: blank, tab, newline, vertical tab, form feed, return. */
  predicate IsSpace(c: char) {
    c == ' ' || c == '\t' || c == '\n' || c == '\U{0B}' || c == '\U{0C}' || c == '\r'
  }

  predicate IsQuote(c: char) { c == '"' || c == '\'' }

  /** The first position at or after `i` that does not hold a space. */
  function SkipSpaces(s: Text, i: nat): (r: nat)
    requires i <= |s|
    ensures i <= r <= |s| && (r < |s| ==> !IsSpace(s[r]))
    ensures forall k :: i <= k < r ==> IsSpace(s[k])
    decreases |s| - i
  {
    if i == |s| || !IsSpace(s[i]) then i else SkipSpaces(s, i + 1)
  }

  /** The first position at or after `i` that holds a space. */
  function ScanWord(s: Text, i: nat): (r: nat)
    requires i <= |s|
    ensures i <= r <= |s| && (r < |s| ==> IsSpace(s[r]))
    ensures forall k :: i <= k < r ==> !IsSpace(s[k])
    decreases |s| - i
  {
    if i == |s| || IsSpace(s[i]) then i else ScanWord(s, i + 1)
  }

  /** The first position at or after `i` that holds `q`. */
  function FindChar(s: Text, i: nat, q: char): (r: nat)
    requires i <= |s|
    ensures i <= r <= |s| && (r < |s| ==> s[r] == q)
    ensures forall k :: i <= k < r ==> s[k] != q
    decreases |s| - i
  {
    if i == |s| || s[i] == q then i else FindChar(s, i + 1, q)
  }

  /**
   * The word after position `i` and the position just past it. A word that
   * opens with a quote runs to the next copy of that quote and is returned
   * without the quotes; when there is none it is scanned again as a plain
   * word, up to the next space, quote included.
   */
  function NextWord(s: Text, i: nat): (r: Option<(Text, nat)>)
    requires i <= |s|
    ensures r.Some? ==> i < r.value.1 <= |s|
    ensures r.None? <==> SkipSpaces(s, i) == |s|
  {
    var b := SkipSpaces(s, i);
    if b == |s| then None
    else if IsQuote(s[b]) && FindChar(s, b + 1, s[b]) < |s| then
      var e := FindChar(s, b + 1, s[b]);
      Some((s[b + 1..e], e + 1))
    else
      var e := ScanWord(s, b);
      Some((s[b..e], e))
  }

  /** All the words from position `i` on. */
  function Words(s: Text, i: nat): seq<Text>
    requires i <= |s|
    decreases |s| - i
  {
    match NextWord(s, i)
    case None => []
    case Some((w, j)) => [w] + Words(s, j)
  }

  /** One word, as the body of the `get_word` loop finds it (with the rescan `goto`). */
  method ScanOne(cmd: Text, i0: nat) returns (start: nat, i: nat, quoted: bool)
    requires i0 <= |cmd|
    ensures start <= i <= |cmd|
    ensures quoted ==> start + 2 <= i
    ensures i == start <==> NextWord(cmd, i0).None?
    ensures i == start ==> i == |cmd|
    ensures NextWord(cmd, i0).Some? ==>
      NextWord(cmd, i0) == Some((if quoted then cmd[start + 1..i - 1] else cmd[start..i], i))
  {
    i := i0;
    var lim := |cmd|;
    while i < lim && IsSpace(cmd[i])
      invariant i0 <= i <= lim
      invariant SkipSpaces(cmd, i0) == SkipSpaces(cmd, i)
    {
      i := i + 1;
    }
    start := i;
    quoted := false;
    var q: char := ' ';
    if i < lim && IsQuote(cmd[i]) {
      quoted := true;
      q := cmd[i];
      i := i + 1;
    }
    while true
      invariant start <= i <= lim && start == SkipSpaces(cmd, i0)
      invariant quoted ==> start < i && start < lim && cmd[start] == q && IsQuote(q)
      invariant quoted ==> forall k :: start + 1 <= k < i ==> cmd[k] != q
      invariant !quoted ==> forall k :: start <= k < i ==> !IsSpace(cmd[k])
      invariant !quoted && start < lim && IsQuote(cmd[start]) ==> FindChar(cmd, start + 1, cmd[start]) == lim
      decreases (if quoted then 1 else 0), lim - i
    {
      if i == lim {
        if quoted {
          i := start;
          quoted := false;
          continue;
        }
        break;
      }
      if quoted && cmd[i] == q {
        i := i + 1;
        break;
      }
      if !quoted && IsSpace(cmd[i]) {
        break;
      }
      i := i + 1;
    }
  }

  /** The `n`th word of `cmd` (from 0), or the empty text when there is none. */
  function WordAt(cmd: Text, n: int): Text {
    var ws := Words(cmd, 0);
    if 0 <= n < |ws| then ws[n] else ""
  }

  /**
   * `get_word`: the `n`th word (from 0) and whether it exists; the empty
   * text when it does not.
   */
  method GetWord(cmd: Text, n0: int) returns (w: Text, flag: bool)
    ensures flag <==> 0 <= n0 < |Words(cmd, 0)|
    ensures flag ==> w == Words(cmd, 0)[n0]
    ensures !flag ==> w == ""
    ensures w == WordAt(cmd, n0)
  {
    var lim := |cmd|;
    var i := 0;
    var n := n0;
    ghost var seen: seq<Text> := [];
    while i < lim
      invariant i <= lim
      invariant Words(cmd, 0) == seen + Words(cmd, i)
      invariant n == n0 - |seen| && (n0 < 0 || |seen| <= n0)
      decreases lim - i
    {
      hide Words, NextWord;
      var start, quoted;
      ghost var i0 := i;
      start, i, quoted := ScanOne(cmd, i);
      if i == start {
        break;
      }
      var word := if quoted then cmd[start + 1..i - 1] else cmd[start..i];
      WordsStep(cmd, i0, word, i);
      if n == 0 {
        flag := true;
        w := word;
        assert Words(cmd, 0)[n0] == word;
        return;
      }
      n := n - 1;
      seen := seen + [word];
    }
    WordsAtEnd(cmd);
    flag := false;
    w := "";
  }

  lemma WordsStep(s: Text, i: nat, w: Text, j: nat)
    requires i <= |s| && NextWord(s, i) == Some((w, j))
    ensures j <= |s| && Words(s, i) == [w] + Words(s, j)
  {
  }

  lemma WordsAtEnd(s: Text)
    ensures Words(s, |s|) == []
  {
  }

  /** Words separated by single blanks. */
  function JoinWords(ws: seq<Text>): Text
    decreases |ws|
  {
    if |ws| == 0 then "" else if |ws| == 1 then ws[0] else ws[0] + " " + JoinWords(ws[1..])
  }

  /** A word with no space and no quote in it. */
  predicate PlainWord(w: Text) {
    |w| > 0 && forall k :: 0 <= k < |w| ==> !IsSpace(w[k]) && !IsQuote(w[k])
  }

  /** A space in front of a position does not change the words from there. */
  lemma WordsSkipSpace(s: Text, j: nat)
    requires j < |s| && IsSpace(s[j])
    ensures Words(s, j) == Words(s, j + 1)
  {
    assert SkipSpaces(s, j) == SkipSpaces(s, j + 1);
    assert NextWord(s, j) == NextWord(s, j + 1);
  }

  /** A plain word at `i`, running to `e`, is the next word. */
  lemma NextPlainWord(s: Text, i: nat, e: nat)
    requires i < e <= |s| && !IsQuote(s[i])
    requires forall k :: i <= k < e ==> !IsSpace(s[k])
    requires e < |s| ==> IsSpace(s[e])
    ensures NextWord(s, i) == Some((s[i..e], e))
  {
    assert SkipSpaces(s, i) == i;
    assert ScanWord(s, i) == e;
  }

  /** Splitting plain words joined by blanks gives the words back. */
  lemma {:induction false} WordsOfJoin(s: Text, i: nat, ws: seq<Text>)
    requires forall k :: 0 <= k < |ws| ==> PlainWord(ws[k])
    requires i <= |s| && s[i..] == JoinWords(ws)
    ensures Words(s, i) == ws
    decreases |ws|
  {
    hide Words, NextWord;
    if |ws| == 0 {
      assert i == |s|;
      WordsAtEnd(s);
    } else if |ws| == 1 {
      assert s[i..] == ws[0] + "";
      JoinFirst(s, i, ws[0], "");
      WordsAtEnd(s);
    } else {
      var e := i + |ws[0]|;
      var t := " " + JoinWords(ws[1..]);
      assert s[i..] == ws[0] + t;
      hide JoinWords;
      JoinFirst(s, i, ws[0], t);
      WordsSkipSpace(s, e);
      WordsOfJoin(s, e + 1, ws[1..]);
    }
  }

  /** The first of the joined words, followed by nothing or by a blank. */
  lemma JoinFirst(s: Text, i: nat, w: Text, t: Text)
    requires PlainWord(w) && (t == [] || t[0] == ' ')
    requires i <= |s| && s[i..] == w + t
    ensures Words(s, i) == [w] + Words(s, i + |w|)
    ensures |t| > 0 ==> i + |w| < |s| && IsSpace(s[i + |w|]) && s[i + |w| + 1..] == t[1..]
    ensures |t| == 0 ==> i + |w| == |s|
  {
    var e := i + |w|;
    hide Words, NextWord;
    assert s[i..e] == w by {
      assert s[i..e] == s[i..][..|w|];
    }
    forall k | i <= k < e ensures !IsSpace(s[k]) {
      assert s[k] == w[k - i];
    }
    assert s[i] == w[0];
    if |t| > 0 {
      assert s[e] == s[i..][|w|] == ' ';
      assert s[e + 1..] == s[i..][|w| + 1..];
    }
    NextPlainWord(s, i, e);
    WordsStep(s, i, w, e);
  }

  /** A word between matching quotes is returned without them, spaces and all. */
  lemma QuotedWord(s: Text, i: nat, q: char, w: Text)
    requires IsQuote(q) && forall k :: 0 <= k < |w| ==> w[k] != q
    requires i <= |s| && s[i..] == [q] + w + [q]
    ensures Words(s, i) == [w]
  {
    var e := i + 1 + |w|;
    hide Words;
    assert s[i] == s[i..][0] == q;
    assert s[e] == s[i..][1 + |w|] == q;
    assert s[i + 1..e] == w by {
      assert s[i + 1..e] == s[i..][1..1 + |w|];
    }
    assert FindChar(s, i + 1, q) == e by {
      forall k | i + 1 <= k < e ensures s[k] != q {
        assert s[k] == w[k - i - 1];
      }
    }
    assert SkipSpaces(s, i) == i;
    assert NextWord(s, i) == Some((w, e + 1));
    WordsStep(s, i, w, e + 1);
    WordsAtEnd(s);
  }

  /** A quote that is never closed stays in the word, which ends at the next space. */
  lemma UnclosedQuote(s: Text, i: nat, q: char, w: Text)
    requires IsQuote(q) && forall k :: 0 <= k < |w| ==> w[k] != q && !IsSpace(w[k])
    requires i <= |s| && s[i..] == [q] + w
    ensures Words(s, i) == [[q] + w]
  {
    hide Words;
    assert s[i] == s[i..][0] == q;
    assert s[i..|s|] == [q] + w;
    forall k | i + 1 <= k < |s| ensures s[k] != q && !IsSpace(s[k]) {
      assert s[k] == w[k - i - 1];
    }
    assert FindChar(s, i + 1, q) == |s|;
    assert ScanWord(s, i) == |s|;
    assert SkipSpaces(s, i) == i;
    assert NextWord(s, i) == Some(([q] + w, |s|));
    WordsStep(s, i, [q] + w, |s|);
    WordsAtEnd(s);
  }

  // ---------------------------------------------------------------- posted form fields

  /**
   * `hexval` as written: a character up to '9' counts from '0', one up to
   * 'Z' from 'A' (plus 10), anything else from 'a' (plus 10). It does not
   * check that the character is a hex digit.
   */
  function HexVal(c: char): int {
    if c <= '9' then c as int - '0' as int
    else if c <= 'Z' then c as int - 'A' as int + 10
    else c as int - 'a' as int + 10
  }

  predicate IsHexDigit(c: char) { '0' <= c <= '9' || 'A' <= c <= 'F' || 'a' <= c <= 'f' }

  /** The upper-case hex digit of a value below 16. */
  function HexDigit(v: nat): (c: char)
    requires v < 16
    ensures IsHexDigit(c)
  {
    if v < 10 then ('0' as int + v) as char else ('A' as int + v - 10) as char
  }

  /** `hexval` reads back both cases of every hex digit. */
  lemma HexValOfDigit(v: nat)
    requires v < 16
    ensures HexVal(HexDigit(v)) == v
    ensures v >= 10 ==> HexVal(('a' as int + v - 10) as char) == v
  {
  }

  /** A hex digit's value is below 16. */
  lemma HexValRange(c: char)
    requires IsHexDigit(c)
    ensures 0 <= HexVal(c) < 16
  {
  }

  /** Bitwise or of two naturals. */
  function BitOr(a: nat, b: nat): nat
    decreases a + b
  {
    if a == 0 && b == 0 then 0
    else 2 * BitOr(a / 2, b / 2) + (if a % 2 == 1 || b % 2 == 1 then 1 else 0)
  }

  function Pow2(k: nat): (r: nat)
    ensures r > 0
  {
    if k == 0 then 1 else 2 * Pow2(k - 1)
  }

  lemma {:induction false} BitOrBound(k: nat, a: nat, b: nat)
    requires a < Pow2(k) && b < Pow2(k)
    ensures BitOr(a, b) < Pow2(k)
    decreases k
  {
    if k > 0 && (a > 0 || b > 0) {
      BitOrBound(k - 1, a / 2, b / 2);
    }
  }

  lemma {:induction false} BitOrZero(a: nat)
    ensures BitOr(a, 0) == a
    decreases a
  {
    if a > 0 {
      BitOrZero(a / 2);
    }
  }

  /** Or-ing a value below 2^k into a multiple of 2^k adds it. */
  lemma {:induction false} BitOrDisjoint(k: nat, h: nat, l: nat)
    requires l < Pow2(k)
    ensures BitOr(Pow2(k) * h, l) == Pow2(k) * h + l
    decreases k
  {
    if k == 0 {
      BitOrZero(h);
    } else {
      var a := Pow2(k) * h;
      assert a == 2 * (Pow2(k - 1) * h);
      assert a / 2 == Pow2(k - 1) * h && a % 2 == 0;
      BitOrDisjoint(k - 1, h, l / 2);
      if a != 0 || l != 0 {
        assert BitOr(a, l) == 2 * BitOr(a / 2, l / 2) + l % 2;
      }
    }
  }

  /** The character `(char)((hexval(a) << 4) | hexval(b))`: the low 8 bits of the or. */
  function EscapeChar(a: char, b: char): (r: char)
    ensures r as int < 256
  {
    var hi := (HexVal(a) * 16) % 256;
    var lo := HexVal(b) % 256;
    assert Pow2(8) == 256;
    BitOrBound(8, hi, lo);
    BitOr(hi, lo) as char
  }

  /** Two hex digits combine to the byte they spell. */
  lemma EscapeOfDigits(a: char, b: char)
    requires IsHexDigit(a) && IsHexDigit(b)
    ensures EscapeChar(a, b) as int == 16 * HexVal(a) + HexVal(b)
  {
    HexValRange(a);
    HexValRange(b);
    var h, l := HexVal(a), HexVal(b);
    assert (h * 16) % 256 == 16 * h && l % 256 == l;
    assert Pow2(4) == 16;
    BitOrDisjoint(4, h, l);
  }

  /** The first position at or after `i` holding `x` or `y`. */
  function FindEither(s: Text, i: nat, x: char, y: char): (r: nat)
    requires i <= |s|
    ensures i <= r <= |s| && (r < |s| ==> s[r] == x || s[r] == y)
    ensures forall k :: i <= k < r ==> s[k] != x && s[k] != y
    decreases |s| - i
  {
    if i == |s| || s[i] == x || s[i] == y then i else FindEither(s, i + 1, x, y)
  }

  /** A C string: memory `mem` holds a NUL at or after `p`. */
  predicate Terminated(mem: Text, p: nat) {
    p <= |mem| && '\0' in mem[p..]
  }

  lemma TerminatedFind(mem: Text, p: nat, x: char)
    requires Terminated(mem, p)
    ensures FindEither(mem, p, x, '\0') < |mem|
  {
    var j :| 0 <= j < |mem[p..]| && mem[p..][j] == '\0';
    assert mem[p + j] == '\0';
  }

  /** What `get_posted_field` finds. */
  datatype Posted =
    | NoField                                   // no `=` before the NUL: `false`, `*p` unchanged
    | Field(key: Text, value: Text, next: nat)  // `true`, with `*p` moved to `next`
    | Overrun                                   // a `%` escape reads past the end of memory

  /**
   * URL decoding of `mem[r..q]`: `+` is a blank, `%` and the two characters
   * after it are one byte, anything else is itself. As written, the two
   * characters after `%` are read even when they lie at or beyond `q`.
   */
  function Decode(mem: Text, r: nat, q: nat): Option<Text>
    requires r <= |mem| && q <= |mem|
    decreases |mem| - r
  {
    if r >= q then Some("")
    else if mem[r] == '+' then Prepend(" ", Decode(mem, r + 1, q))
    else if mem[r] == '%' then
      if r + 2 >= |mem| then None
      else Prepend([EscapeChar(mem[r + 1], mem[r + 2])], Decode(mem, r + 3, q))
    else Prepend([mem[r]], Decode(mem, r + 1, q))
  }

  function Prepend(x: Text, o: Option<Text>): Option<Text> {
    match o
    case None => None
    case Some(t) => Some(x + t)
  }

  /**
   * `get_posted_field` at `p`: the key runs to the first `=`, the value
   * from there to the next `&` or the NUL, and `next` is past the `&`.
   */
  function PostedField(mem: Text, p: nat): (r: Posted)
    requires Terminated(mem, p)
    ensures r.NoField? <==> mem[FindEither(mem, p, '=', '\0')] == '\0'
    ensures r.Field? ==> p < r.next <= |mem| && r.key == mem[p..FindEither(mem, p, '=', '\0')]
    ensures r.Field? ==> forall k :: 0 <= k < |r.key| ==> r.key[k] != '=' && r.key[k] != '\0'
  {
    TerminatedFind(mem, p, '=');
    var q0 := FindEither(mem, p, '=', '\0');
    if mem[q0] == '\0' then NoField
    else
      var start := q0 + 1;
      TerminatedFindAfter(mem, p, q0);
      var q := FindEither(mem, start, '&', '\0');
      var next := if mem[q] != '\0' then q + 1 else q;
      match Decode(mem, start, q)
      case None => Overrun
      case Some(v) => Field(mem[p..q0], v, next)
  }

  lemma TerminatedFindAfter(mem: Text, p: nat, q0: nat)
    requires Terminated(mem, p) && p <= q0 < |mem| && mem[q0] != '\0'
    requires forall k :: p <= k < q0 ==> mem[k] != '\0'
    ensures Terminated(mem, q0 + 1) && FindEither(mem, q0 + 1, '&', '\0') < |mem|
  {
    assert Terminated(mem, q0 + 1) by {
      var j :| 0 <= j < |mem[p..]| && mem[p..][j] == '\0';
      assert mem[p + j] == '\0';
      assert p + j > q0;
      assert mem[q0 + 1..][p + j - q0 - 1] == '\0';
    }
    TerminatedFind(mem, q0 + 1, '&');
  }

  lemma PrependEmpty(o: Option<Text>)
    ensures Prepend("", o) == o
  {
    if o.Some? {
      assert "" + o.value == o.value;
    }
  }

  lemma PrependAppend(x: Text, y: Text, o: Option<Text>)
    ensures Prepend(x, Prepend(y, o)) == Prepend(x + y, o)
  {
    if o.Some? {
      assert x + (y + o.value) == (x + y) + o.value;
    }
  }

  /** The scan `while (*q && *q != x) q++` of `get_posted_field`. */
  method ScanTo(mem: Text, i: nat, x: char) returns (q: nat)
    requires Terminated(mem, i)
    ensures q == FindEither(mem, i, x, '\0') && q < |mem|
  {
    TerminatedFind(mem, i, x);
    q := i;
    while mem[q] != '\0' && mem[q] != x
      invariant i <= q <= FindEither(mem, i, x, '\0')
      decreases |mem| - q
    {
      q := q + 1;
    }
  }

  /** The decoding loop of `get_posted_field` over `mem[start..q]`. */
  method DecodeRange(mem: Text, start: nat, q: nat) returns (o: Option<Text>)
    requires start <= q <= |mem|
    ensures o == Decode(mem, start, q)
  {
    var value := "";
    var cur := start;
    PrependEmpty(Decode(mem, start, q));
    while cur < q
      invariant start <= cur <= |mem|
      invariant Decode(mem, start, q) == Prepend(value, Decode(mem, cur, q))
      decreases |mem| - cur
    {
      if mem[cur] == '+' {
        PrependAppend(value, " ", Decode(mem, cur + 1, q));
        value := value + " ";
        cur := cur + 1;
      } else if mem[cur] == '%' {
        if cur + 2 >= |mem| {
          assert Decode(mem, cur, q) == None;
          return None;
        }
        var c := EscapeChar(mem[cur + 1], mem[cur + 2]);
        PrependAppend(value, [c], Decode(mem, cur + 3, q));
        value := value + [c];
        cur := cur + 3;
      } else {
        PrependAppend(value, [mem[cur]], Decode(mem, cur + 1, q));
        value := value + [mem[cur]];
        cur := cur + 1;
      }
    }
    assert value + "" == value;
    return Some(value);
  }

  /** `get_posted_field`: scan to `=`, scan to `&`, decode, step past `&`. */
  method GetPostedField(mem: Text, p: nat) returns (r: Posted)
    requires Terminated(mem, p)
    ensures r == PostedField(mem, p)
  {
    hide Decode, FindEither, Terminated;
    var q0 := ScanTo(mem, p, '=');
    if mem[q0] == '\0' {
      return NoField;
    }
    var key := mem[p..q0];
    TerminatedFindAfter(mem, p, q0);
    var q := ScanTo(mem, q0 + 1, '&');
    var d := DecodeRange(mem, q0 + 1, q);
    if d.None? {
      return Overrun;
    }
    if mem[q] != '\0' {
      q := q + 1;
    }
    return Field(key, d.value, q);
  }

  // ---------------------------------------------------------------- the browser's side

  /**
   * The characters the `application/x-www-form-urlencoded` serializer of
   * the WHATWG URL standard sends as themselves.
   */
  predicate IsFormSafe(c: char) {
    'a' <= c <= 'z' || 'A' <= c <= 'Z' || '0' <= c <= '9'
    || c == '*' || c == '-' || c == '.' || c == '_'
  }

  /** How a browser sends one byte of a form value. */
  function FormChar(c: char): (r: Text)
    requires c as int < 256
    ensures |r| == (if c == ' ' || IsFormSafe(c) then 1 else 3)
  {
    if c == ' ' then "+"
    else if IsFormSafe(c) then [c]
    else ['%', HexDigit(c as int / 16), HexDigit(c as int % 16)]
  }

  /** A form value as a browser sends it: no `&`, `=` or NUL can appear in it. */
  function FormEncode(v: Text): (r: Text)
    requires forall k :: 0 <= k < |v| ==> v[k] as int < 256
    ensures forall k :: 0 <= k < |r| ==> r[k] != '&' && r[k] != '=' && r[k] != '\0'
  {
    if v == [] then []
    else
      var r := FormChar(v[0]) + FormEncode(v[1..]);
      assert forall k :: 0 <= k < |FormChar(v[0])| ==> r[k] == FormChar(v[0])[k];
      r
  }

  /** Decoding what the browser encoded gives back the value. */
  lemma {:induction false} DecodeFormEncode(mem: Text, r: nat, q: nat, v: Text)
    requires forall k :: 0 <= k < |v| ==> v[k] as int < 256
    requires r <= q <= |mem| && mem[r..q] == FormEncode(v)
    ensures Decode(mem, r, q) == Some(v)
    decreases |v|
  {
    if v == [] {
      assert r == q;
    } else {
      var e := FormChar(v[0]);
      var n := r + |e|;
      assert FormEncode(v) == e + FormEncode(v[1..]);
      hide FormEncode, FormChar, Decode;
      SplitSlice(mem, r, e, FormEncode(v[1..]));
      DecodeFormChar(mem, r, q, v[0]);
      DecodeFormEncode(mem, n, q, v[1..]);
      assert [v[0]] + v[1..] == v;
    }
  }

  /** One encoded byte decodes to itself. */
  lemma DecodeFormChar(mem: Text, r: nat, q: nat, c: char)
    requires c as int < 256
    requires r + |FormChar(c)| <= q <= |mem| && mem[r..r + |FormChar(c)|] == FormChar(c)
    ensures Decode(mem, r, q) == Prepend([c], Decode(mem, r + |FormChar(c)|, q))
  {
    var e := FormChar(c);
    assert mem[r] == e[0];
    if c != ' ' && !IsFormSafe(c) {
      var hi, lo := c as int / 16, c as int % 16;
      assert mem[r + 1] == e[1] == HexDigit(hi) && mem[r + 2] == e[2] == HexDigit(lo);
      EscapeOfDigits(HexDigit(hi), HexDigit(lo));
      HexValOfDigit(hi);
      HexValOfDigit(lo);
      assert EscapeChar(mem[r + 1], mem[r + 2]) == c;
    }
  }

  /** `FindEither` stops at the first `x` or `y`. */
  lemma {:induction false} FindEitherAt(s: Text, i: nat, j: nat, x: char, y: char)
    requires i <= j < |s| && (s[j] == x || s[j] == y)
    requires forall k :: i <= k < j ==> s[k] != x && s[k] != y
    ensures FindEither(s, i, x, y) == j
    decreases j - i
  {
    if i < j {
      assert s[i] != x && s[i] != y;
      FindEitherAt(s, i + 1, j, x, y);
    }
  }

  /**
   * A field a browser posted, `key=value` up to `&` or the end of the text,
   * is read back by `get_posted_field` as that key and that value, and the
   * scan continues after the `&`.
   */
  lemma PostedFieldOfForm(pre: Text, key: Text, v: Text, sep: char, rest: Text)
    requires forall k :: 0 <= k < |key| ==> key[k] != '=' && key[k] != '\0'
    requires forall k :: 0 <= k < |v| ==> v[k] as int < 256
    requires sep == '\0' || (sep == '&' && '\0' in rest)
    ensures Terminated(pre + key + "=" + FormEncode(v) + [sep] + rest, |pre|)
    ensures PostedField(pre + key + "=" + FormEncode(v) + [sep] + rest, |pre|)
         == Field(key, v, |pre| + |key| + 1 + |FormEncode(v)| + (if sep == '&' then 1 else 0))
  {
    hide FormEncode, Decode, FindEither;
    var e := FormEncode(v);
    var mem := pre + key + "=" + e + [sep] + rest;
    var p, q0 := |pre|, |pre| + |key|;
    var q := q0 + 1 + |e|;
    assert mem[p..q0] == key;
    assert mem[q0] == '=';
    assert mem[q0 + 1..q] == e;
    assert mem[q] == sep;
    assert Terminated(mem, p) by {
      if sep == '\0' {
        assert mem[p..][q - p] == '\0';
      } else {
        var j :| 0 <= j < |rest| && rest[j] == '\0';
        assert mem[q + 1 + j] == '\0';
        assert mem[p..][q + 1 + j - p] == '\0';
      }
    }
    FindEitherAt(mem, p, q0, '=', '\0');
    forall k | q0 + 1 <= k < q
      ensures mem[k] != '&' && mem[k] != '\0'
    {
      assert mem[k] == e[k - q0 - 1];
    }
    FindEitherAt(mem, q0 + 1, q, '&', '\0');
    DecodeFormEncode(mem, q0 + 1, q, v);
  }

  // ---------------------------------------------------------------- timestamps

  /** The fields of a C `struct tm` that `format_time` reads, with their C offsets. */
  datatype Tm = Tm(year: int, mon: int, mday: int, hour: int, min: int, wday: int)

  const WeekdayNames: seq<Text> := ["sun", "mon", "tue", "wed", "thu", "fri", "sat"]

  function Pow10(k: nat): (r: nat)
    ensures r > 0
  {
    if k == 0 then 1 else 10 * Pow10(k - 1)
  }

  function Zeros(k: nat): (r: Text)
    ensures |r| == k && forall i :: 0 <= i < k ==> r[i] == '0'
  {
    seq(k, i => '0')
  }

  /** Digits padded on the left with zeros to at least `w` characters. */
  function ZeroPad(w: nat, digits: Text): Text {
    if |digits| < w then Zeros(w - |digits|) + digits else digits
  }

  /** `printf("%0*d", w, n)`: the sign counts towards the width `w`. */
  function Printf0d(n: int, w: nat): Text {
    if n < 0 then "-" + ZeroPad(if w > 0 then w - 1 else 0, Decimal(-n))
    else ZeroPad(w, Decimal(n))
  }

  /** `format_time`: `%04d-%02d-%02dT%02d:%02d/%s` of the calendar fields and weekday name. */
  function FormatTime(t: Tm): (r: Text)
    requires 0 <= t.wday < 7
    ensures |r| >= 4 && r[|r| - 4..] == "/" + WeekdayNames[t.wday]
  {
    var date := Printf0d(t.year + 1900, 4) + "-" + Printf0d(t.mon + 1, 2) + "-" + Printf0d(t.mday, 2);
    var clock := "T" + Printf0d(t.hour, 2) + ":" + Printf0d(t.min, 2);
    var day := "/" + WeekdayNames[t.wday];
    assert |day| == 4;
    date + clock + day
  }

  /** A number below `10^w` has at most `w` decimal digits. */
  lemma {:induction false} DecimalLength(n: nat, w: nat)
    requires 0 < w && n < Pow10(w)
    ensures |Decimal(n)| <= w
    decreases w
  {
    if n >= 10 {
      assert w > 1;
      DecimalLength(n / 10, w - 1);
    }
  }

  /** Leading zeros do not change a decimal value. */
  lemma {:induction false} LeadingZeros(k: nat, d: Text)
    requires forall i :: 0 <= i < |d| ==> IsDigit(d[i])
    ensures forall i :: 0 <= i < k + |d| ==> IsDigit((Zeros(k) + d)[i])
    ensures DigitsValue(Zeros(k) + d) == DigitsValue(d)
    decreases |d| + k
  {
    var s := Zeros(k) + d;
    if |d| > 0 {
      assert s[..|s| - 1] == Zeros(k) + d[..|d| - 1];
      LeadingZeros(k, d[..|d| - 1]);
    } else if k > 0 {
      assert s[..|s| - 1] == Zeros(k - 1) + d;
      LeadingZeros(k - 1, d);
    }
  }

  /** A value in range is printed as exactly `w` digits that read back as the value. */
  lemma Printf0dInRange(n: int, w: nat)
    requires 0 < w && 0 <= n < Pow10(w)
    ensures |Printf0d(n, w)| == w
    ensures forall i :: 0 <= i < w ==> IsDigit(Printf0d(n, w)[i])
    ensures DigitsValue(Printf0d(n, w)) == n
  {
    var d := Decimal(n);
    assert Printf0d(n, w) == ZeroPad(w, d);
    hide Printf0d, DigitsValue, Decimal;
    DecimalLength(n, w);
    DecimalValue(n);
    LeadingZeros(w - |d|, d);
    if |d| == w {
      assert Zeros(0) + d == d;
    }
  }

  /** Calendar fields that `format_time` prints at their nominal widths. */
  predicate TmInRange(t: Tm) {
    0 <= t.year + 1900 <= 9999 && 0 <= t.mon <= 11 && 1 <= t.mday <= 31
    && 0 <= t.hour <= 23 && 0 <= t.min <= 59 && 0 <= t.wday < 7
  }

  /** One field printed at width `w` inside a longer text. */
  predicate FieldAt(r: Text, i: nat, w: nat, n: int)
    requires i + w <= |r|
  {
    (forall k :: i <= k < i + w ==> IsDigit(r[k])) && DigitsValue(r[i..i + w]) == n
  }

  lemma FieldAtSlice(r: Text, i: nat, f: Text, n: int)
    requires i + |f| <= |r| && r[i..i + |f|] == f
    requires forall k :: 0 <= k < |f| ==> IsDigit(f[k])
    requires DigitsValue(f) == n
    ensures FieldAt(r, i, |f|, n)
  {
    forall k | i <= k < i + |f| ensures IsDigit(r[k]) {
      assert r[k] == f[k - i];
    }
  }

  lemma FormatTimePieces(t: Tm)
    requires 0 <= t.wday < 7
    ensures FormatTime(t) == Printf0d(t.year + 1900, 4) + "-" + Printf0d(t.mon + 1, 2) + "-"
      + Printf0d(t.mday, 2) + "T" + Printf0d(t.hour, 2) + ":" + Printf0d(t.min, 2) + "/"
      + WeekdayNames[t.wday]
  {
    hide Printf0d;
  }

  /** Where the pieces of `format_time`'s output land when every number has its width. */
  lemma StampLayout(y: Text, mo: Text, d: Text, h: Text, mi: Text, w: Text)
    requires |y| == 4 && |mo| == 2 && |d| == 2 && |h| == 2 && |mi| == 2 && |w| == 3
    ensures var r := y + "-" + mo + "-" + d + "T" + h + ":" + mi + "/" + w;
      |r| == 20 && r[4] == '-' && r[7] == '-' && r[10] == 'T' && r[13] == ':' && r[16] == '/'
      && r[0..4] == y && r[5..7] == mo && r[8..10] == d && r[11..13] == h && r[14..16] == mi
      && r[17..] == w
  {
    var date := y + "-" + mo + "-" + d;
    var clock := "T" + h + ":" + mi;
    var day := "/" + w;
    assert date[0..4] == y && date[5..7] == mo && date[8..10] == d;
    assert clock[1..3] == h && clock[4..6] == mi;
    var r := date + clock + day;
    assert r == y + "-" + mo + "-" + d + "T" + h + ":" + mi + "/" + w;
    assert r[0..10] == date && r[10..16] == clock && r[16..] == day;
    assert r[0..4] == date[0..4] && r[5..7] == date[5..7] && r[8..10] == date[8..10];
    assert r[11..13] == clock[1..3] && r[14..16] == clock[4..6];
  }

  /**
   * For in-range fields the timestamp is the 20 characters
   * `YYYY-MM-DDTHH:MM/ddd`, and each numeric field reads back as its value.
   */
  lemma FormatTimeLayout(t: Tm)
    requires TmInRange(t)
    ensures var r := FormatTime(t);
      |r| == 20 && r[4] == '-' && r[7] == '-' && r[10] == 'T' && r[13] == ':' && r[16] == '/'
      && r[17..] == WeekdayNames[t.wday]
      && FieldAt(r, 0, 4, t.year + 1900) && FieldAt(r, 5, 2, t.mon + 1) && FieldAt(r, 8, 2, t.mday)
      && FieldAt(r, 11, 2, t.hour) && FieldAt(r, 14, 2, t.min)
  {
    hide Printf0d, FormatTime, DigitsValue, FieldAt;
    assert Pow10(2) == 100 && Pow10(4) == 10000;
    var y, mo, d, h, mi := Printf0d(t.year + 1900, 4), Printf0d(t.mon + 1, 2),
      Printf0d(t.mday, 2), Printf0d(t.hour, 2), Printf0d(t.min, 2);
    var w := WeekdayNames[t.wday];
    Printf0dInRange(t.year + 1900, 4);
    Printf0dInRange(t.mon + 1, 2);
    Printf0dInRange(t.mday, 2);
    Printf0dInRange(t.hour, 2);
    Printf0dInRange(t.min, 2);
    var r := FormatTime(t);
    FormatTimePieces(t);
    StampLayout(y, mo, d, h, mi, w);
    FieldAtSlice(r, 0, y, t.year + 1900);
    FieldAtSlice(r, 5, mo, t.mon + 1);
    FieldAtSlice(r, 8, d, t.mday);
    FieldAtSlice(r, 11, h, t.hour);
    FieldAtSlice(r, 14, mi, t.min);
  }
}
