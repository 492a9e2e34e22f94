/**
 * The device-side reader of the compiled configuration format
 * (firmware-idf/main/config.c).
 *
 * `run_configuration` walks the byte stream once; with `perform` false it only
 * checks it, with `perform` true it also updates the integer table `ivars` and
 * the string table `svars`.  `accept_configuration` runs a checking pass and,
 * only if that succeeds, a performing pass.
 *
 * Two readers are modelled.  `Run` and `Device.RunConfiguration` are the reader
 * the comments and the compiler's format describe: dispatch on the opcode at the
 * cursor, leave the loop at STOP, take the four value bytes of SETI from the
 * record, take the SETS payload right after its header, and reject a string
 * slot outside `svars`.  `RunAsWritten` is the body loop as the file has it,
 * and the lemmas after it show where the two part.
 */
module DevConfig {
  import opened Wrappers
  import opened Bytes
  import ConfComp

  const NumIvars := 5
  const NumSvars := 16

  /** A signed 32-bit integer from its two's complement bit pattern. */
  function Int32Of(u: int): (r: int)
    requires 0 <= u < 0x1_0000_0000
    ensures -0x8000_0000 <= r < 0x8000_0000
    ensures r % 0x1_0000_0000 == u
  {
    if u < 0x8000_0000 then u else u - 0x1_0000_0000
  }

  /** An integer that fits in 32 bits survives truncation to its low 32 bits. */
  lemma Int32OfLow(x: int)
    requires -0x8000_0000 <= x < 0x8000_0000
    ensures Int32Of(x % 0x1_0000_0000) == x
  {
  }

  // ---------------------------------------------------------------- the reader the format describes

  /** One body record after it has been checked. */
  datatype Instr = Seti(slot: nat, val: int) | Sets(slot: nat, data: seq<Byte>)

  /** How the stream ends: no valid STOP record, or one with its save flag and whether bytes follow it. */
  datatype StopRecord = NoStop | Stop(save: bool, trailing: bool)

  /**
   * What a pass over the stream finds: the clear flag of a valid START (false
   * when START is rejected), the body records read before the loop ended, and
   * the STOP record.
   */
  datatype Scan = Scan(clear: bool, body: seq<Instr>, stop: StopRecord)

  /** `run_configuration` returns true. */
  predicate Accepted(s: Scan) {
    s.stop.Stop? && !s.stop.trailing
  }

  predicate InTable(i: Instr) {
    match i
    case Seti(slot, _) => slot < NumIvars
    case Sets(slot, _) => slot < NumSvars
  }

  /** SETI's value: bytes 2..5 of the record, low byte first, as a signed 32-bit integer. */
  function SetiValue(c: seq<Byte>, p: nat): int
    requires p + 6 <= |c|
  {
    Int32Of(LE32(c[p + 2], c[p + 3], c[p + 4], c[p + 5]))
  }

  /**
   * The body loop from offset `p`: the records it accepts, and the offset of the
   * cursor when it leaves the loop (at a STOP opcode or at the end), or `None`
   * when it returns false.
   */
  function ScanBody(c: seq<Byte>, p: nat): (r: (seq<Instr>, Option<nat>))
    requires p <= |c|
    ensures r.1.Some? ==> p <= r.1.value <= |c| && (r.1.value == |c| || c[r.1.value] == ConfComp.InstrStop)
    ensures forall i :: 0 <= i < |r.0| ==> InTable(r.0[i])
    decreases |c| - p
  {
    if p == |c| then ([], Some(p))
    else if c[p] == ConfComp.InstrStop then ([], Some(p))
    else if c[p] == ConfComp.InstrSeti then
      if |c| - p < 6 || c[p + 1] >= NumIvars then ([], None)
      else
        var rest := ScanBody(c, p + 6);
        ([Seti(c[p + 1], SetiValue(c, p))] + rest.0, rest.1)
    else if c[p] == ConfComp.InstrSets then
      if |c| - p < 4 then ([], None)
      else
        var len := LE16(c[p + 2], c[p + 3]);
        if |c| - (p + 4) < len || c[p + 1] >= NumSvars then ([], None)
        else
          var rest := ScanBody(c, p + 4 + len);
          ([Sets(c[p + 1], c[p + 4..p + 4 + len])] + rest.0, rest.1)
    else ([], None)
  }

  /** The STOP record at offset `p`: opcode 2 and a flag of 0 or 1. */
  function StopAt(c: seq<Byte>, p: nat): StopRecord
    requires p <= |c|
  {
    if |c| - p < 2 || c[p] != ConfComp.InstrStop then NoStop
    else if c[p + 1] != 0 && c[p + 1] != 1 then NoStop
    else Stop(c[p + 1] == 1, p + 2 != |c|)
  }

  /** The START record must be `1 1 0 0 f` with `f` 0 or 1. */
  predicate ValidStart(c: seq<Byte>) {
    |c| >= 5 && c[0] == ConfComp.InstrStart && c[1] == 1 && c[2] == 0 && c[3] == 0 && (c[4] == 0 || c[4] == 1)
  }

  /** One pass of `run_configuration`. */
  function Run(c: seq<Byte>): (r: Scan)
    ensures !ValidStart(c) ==> r == Scan(false, [], NoStop)
    ensures Accepted(r) ==> ValidStart(c) && |c| >= 7 && c[|c| - 2] == ConfComp.InstrStop && c[|c| - 1] <= 1
    ensures Accepted(r) ==> r.stop.save == (c[|c| - 1] == 1) && r.clear == (c[4] == 1)
  {
    if !ValidStart(c) then Scan(false, [], NoStop)
    else
      var body := ScanBody(c, 5);
      Scan(c[4] == 1, body.0, if body.1.None? then NoStop else StopAt(c, body.1.value))
  }

  // ---------------------------------------------------------------- effect on the tables

  datatype Tables = Tables(ivars: seq<int>, svars: seq<Option<seq<Byte>>>)

  /** The defaults `clear_configuration` restores: zero integers and no strings. */
  function Cleared(): (t: Tables)
    ensures |t.ivars| == NumIvars && |t.svars| == NumSvars
    ensures forall k :: 0 <= k < NumIvars ==> t.ivars[k] == 0
    ensures forall k :: 0 <= k < NumSvars ==> t.svars[k].None?
  {
    Tables(seq(NumIvars, _ => 0), seq(NumSvars, _ => None))
  }

  function ApplyInstr(t: Tables, i: Instr): Tables {
    match i
    case Seti(slot, v) => if slot < |t.ivars| then t.(ivars := t.ivars[slot := v]) else t
    case Sets(slot, d) => if slot < |t.svars| then t.(svars := t.svars[slot := Some(d)]) else t
  }

  function ApplyAll(t: Tables, body: seq<Instr>): Tables
    decreases |body|
  {
    if |body| == 0 then t else ApplyAll(ApplyInstr(t, body[0]), body[1..])
  }

  /** The value of the last SETI into integer slot `k`, if there is one. */
  function LastSeti(body: seq<Instr>, k: nat): Option<int>
    decreases |body|
  {
    if |body| == 0 then None
    else
      var i := body[|body| - 1];
      if i.Seti? && i.slot == k then Some(i.val) else LastSeti(body[..|body| - 1], k)
  }

  /** The bytes of the last SETS into string slot `k`, if there is one. */
  function LastSets(body: seq<Instr>, k: nat): Option<seq<Byte>>
    decreases |body|
  {
    if |body| == 0 then None
    else
      var i := body[|body| - 1];
      if i.Sets? && i.slot == k then Some(i.data) else LastSets(body[..|body| - 1], k)
  }

  /** Applying a body and then one more record is applying the longer body. */
  lemma {:induction false} ApplyAllSnoc(t: Tables, body: seq<Instr>, x: Instr)
    ensures ApplyAll(t, body + [x]) == ApplyInstr(ApplyAll(t, body), x)
    decreases |body|
  {
    if |body| == 0 {
      assert body + [x] == [x];
      assert [x][1..] == [];
    } else {
      assert (body + [x])[1..] == body[1..] + [x];
      ApplyAllSnoc(ApplyInstr(t, body[0]), body[1..], x);
    }
  }

  /**
   * Last write wins: after a body, every slot holds what the last record
   * for it wrote, and a slot no record names keeps its value.
   */
  lemma {:induction false} ApplyAllLastWrite(t: Tables, body: seq<Instr>)
    ensures |ApplyAll(t, body).ivars| == |t.ivars| && |ApplyAll(t, body).svars| == |t.svars|
    ensures forall k :: 0 <= k < |t.ivars| ==>
      ApplyAll(t, body).ivars[k] == (if LastSeti(body, k).Some? then LastSeti(body, k).value else t.ivars[k])
    ensures forall k :: 0 <= k < |t.svars| ==>
      ApplyAll(t, body).svars[k] == (if LastSets(body, k).Some? then LastSets(body, k) else t.svars[k])
    decreases |body|
  {
    if |body| > 0 {
      var front := body[..|body| - 1];
      var x := body[|body| - 1];
      assert body == front + [x];
      ApplyAllSnoc(t, front, x);
      ApplyAllLastWrite(t, front);
    }
  }

  /** What a performing pass leaves in the tables: the clear, then every body record read, in order. */
  function Effect(t: Tables, s: Scan): Tables {
    ApplyAll(if s.clear then Cleared() else t, s.body)
  }

  /** The NVRAM routines the performing pass calls. */
  datatype NvramCall = NukeNvram | SaveConfiguration

  /** A valid STOP with save set wipes the NVRAM first when START asked for a clear, then saves. */
  function NvramCalls(s: Scan): seq<NvramCall> {
    if s.stop.Stop? && s.stop.save then (if s.clear then [NukeNvram] else []) + [SaveConfiguration] else []
  }

  // ---------------------------------------------------------------- the device state

  class Device {
    var ivars: array<int>
    var svars: array<Option<seq<Byte>>>
    /** The calls made to `nuke_nvram` and `save_configuration`, oldest first. */
    var nvram: seq<NvramCall>

    predicate Valid()
      reads this
    {
      ivars.Length == NumIvars && svars.Length == NumSvars
    }

    function Contents(): Tables
      reads this, ivars, svars
    {
      Tables(ivars[..], svars[..])
    }

    /** The tables are static storage: zero integers and null strings at start-up. */
    constructor ()
      ensures Valid() && Contents() == Cleared() && nvram == []
      ensures fresh(ivars) && fresh(svars)
    {
      ivars := new int[NumIvars](_ => 0);
      svars := new Option<seq<Byte>>[NumSvars](_ => None);
      nvram := [];
    }

    /** `clear_configuration`: every integer to zero and every string to null. */
    method ClearConfiguration()
      requires Valid()
      modifies ivars, svars
      ensures Contents() == Cleared()
    {
      var i := 0;
      while i < NumIvars
        invariant 0 <= i <= NumIvars
        invariant forall k :: 0 <= k < i ==> ivars[k] == 0
      {
        ivars[i] := 0;
        i := i + 1;
      }
      i := 0;
      while i < NumSvars
        invariant 0 <= i <= NumSvars
        invariant forall k :: 0 <= k < i ==> svars[k].None?
        invariant forall k :: 0 <= k < NumIvars ==> ivars[k] == 0
      {
        svars[i] := None;
        i := i + 1;
      }
      assert ivars[..] == Cleared().ivars;
      assert svars[..] == Cleared().svars;
    }

    /**
     * `run_configuration` over the whole buffer `c`: the result is whether the
     * stream is valid, and only a performing pass touches the tables and the NVRAM.
     */
    method RunConfiguration(c: seq<Byte>, perform: bool) returns (ok: bool)
      requires Valid()
      modifies ivars, svars, this`nvram
      ensures ok == Accepted(Run(c))
      ensures !perform ==> Contents() == old(Contents()) && nvram == old(nvram)
      ensures perform ==> Contents() == Effect(old(Contents()), Run(c))
      ensures perform ==> nvram == old(nvram) + NvramCalls(Run(c))
    {
      if |c| < 5 || c[0] != ConfComp.InstrStart {
        return false;
      }
      if c[1] != 1 || c[2] != 0 || c[3] != 0 {
        return false;
      }
      if c[4] != 0 && c[4] != 1 {
        return false;
      }
      var clear := c[4] == 1;
      ghost var start := if perform && clear then Cleared() else old(Contents());
      if perform && clear {
        ClearConfiguration();
      }
      var p, stopped;
      p, stopped := RunBody(c, perform);
      if !stopped {
        return false;
      }
      if |c| - p < 2 || c[p] != ConfComp.InstrStop {
        return false;
      }
      if c[p + 1] != 0 && c[p + 1] != 1 {
        return false;
      }
      var save := c[p + 1] == 1;
      if perform && save {
        if clear {
          nvram := nvram + [NukeNvram];
        }
        nvram := nvram + [SaveConfiguration];
      }
      return p + 2 == |c|;
    }

    /**
     * The body loop, from offset 5: `stopped` is false when a record is
     * rejected, and otherwise `p` is where the cursor left the loop.
     */
    method RunBody(c: seq<Byte>, perform: bool) returns (p: nat, stopped: bool)
      requires Valid() && ValidStart(c)
      modifies ivars, svars
      ensures stopped == ScanBody(c, 5).1.Some?
      ensures stopped ==> p == ScanBody(c, 5).1.value
      ensures !perform ==> Contents() == old(Contents())
      ensures perform ==> Contents() == ApplyAll(old(Contents()), ScanBody(c, 5).0)
    {
      p := 5;
      ghost var done: seq<Instr> := [];
      assert [] + ScanBody(c, 5).0 == ScanBody(c, 5).0;
      while p < |c|
        invariant 5 <= p <= |c|
        invariant ScanBody(c, 5) == (done + ScanBody(c, p).0, ScanBody(c, p).1)
        invariant !perform ==> Contents() == old(Contents())
        invariant perform ==> Contents() == ApplyAll(old(Contents()), done)
        decreases |c| - p
      {
        hide ScanBody;
        var op := c[p];
        var q, ok;
        ghost var i: Instr;
        if op == ConfComp.InstrStop {
          break;
        } else if op == ConfComp.InstrSeti {
          q, ok, i := ReadSeti(c, p, perform);
        } else if op == ConfComp.InstrSets {
          q, ok, i := ReadSets(c, p, perform);
        } else {
          ScanRejects(c, p);
          ok := false;
        }
        if !ok {
          ScanFails(c, p, done);
          return p, false;
        }
        ApplyStep(old(Contents()), done, i);
        ScanAdvances(c, p, q, done, i);
        done := done + [i];
        p := q;
      }
      assert ScanBody(c, p) == ([], Some(p));
      assert done + [] == done;
      stopped := true;
    }

    /** The SETI case: opcode, slot, four value bytes; the slot must be below `NUM_IVARS`. */
    method ReadSeti(c: seq<Byte>, p: nat, perform: bool) returns (q: nat, ok: bool, ghost i: Instr)
      requires Valid() && p < |c| && c[p] == ConfComp.InstrSeti
      modifies ivars
      ensures !ok ==> ScanBody(c, p) == ([], None)
      ensures ok ==> p < q <= |c| && ScanBody(c, p) == ([i] + ScanBody(c, q).0, ScanBody(c, q).1)
      ensures ok && perform ==> Contents() == ApplyInstr(old(Contents()), i)
      ensures !(ok && perform) ==> Contents() == old(Contents())
    {
      if |c| - p < 6 {
        return p, false, Seti(0, 0);
      }
      var slot := c[p + 1];
      var val := Int32Of(LE32(c[p + 2], c[p + 3], c[p + 4], c[p + 5]));
      if slot >= NumIvars {
        return p, false, Seti(0, 0);
      }
      if perform {
        ivars[slot] := val;
      }
      return p + 6, true, Seti(slot, val);
    }

    /** The SETS case: opcode, slot, 16-bit length, then that many bytes; the slot must be below `NUM_SVARS`. */
    method ReadSets(c: seq<Byte>, p: nat, perform: bool) returns (q: nat, ok: bool, ghost i: Instr)
      requires Valid() && p < |c| && c[p] == ConfComp.InstrSets
      modifies svars
      ensures !ok ==> ScanBody(c, p) == ([], None)
      ensures ok ==> p < q <= |c| && ScanBody(c, p) == ([i] + ScanBody(c, q).0, ScanBody(c, q).1)
      ensures ok && perform ==> Contents() == ApplyInstr(old(Contents()), i)
      ensures !(ok && perform) ==> Contents() == old(Contents())
    {
      if |c| - p < 4 {
        return p, false, Seti(0, 0);
      }
      var slot := c[p + 1];
      var len := LE16(c[p + 2], c[p + 3]);
      if |c| - (p + 4) < len || slot >= NumSvars {
        return p, false, Seti(0, 0);
      }
      var val := c[p + 4..p + 4 + len];
      if perform {
        svars[slot] := Some(val);
      }
      return p + 4 + len, true, Sets(slot, val);
    }

    /**
     * `accept_configuration`: a checking pass, then a performing pass only if
     * the check succeeded, so a rejected stream leaves everything as it was.
     */
    method AcceptConfiguration(c: seq<Byte>) returns (ok: bool)
      requires Valid()
      modifies ivars, svars, this`nvram
      ensures ok == Accepted(Run(c))
      ensures !ok ==> Contents() == old(Contents()) && nvram == old(nvram)
      ensures ok ==> Contents() == Effect(old(Contents()), Run(c))
      ensures ok ==> nvram == old(nvram) + NvramCalls(Run(c))
    {
      ok := RunConfiguration(c, false);
      if ok {
        ok := RunConfiguration(c, true);
      }
    }
  }

  /** Applying one more record after a run of them. */
  lemma {:induction false} ApplyStep(t: Tables, done: seq<Instr>, i: Instr)
    ensures ApplyAll(t, done + [i]) == ApplyInstr(ApplyAll(t, done), i)
    decreases |done|
  {
    if |done| > 0 {
      assert (done + [i])[1..] == done[1..] + [i];
      ApplyStep(ApplyInstr(t, done[0]), done[1..], i);
    } else {
      assert ([] + [i])[1..] == [];
    }
  }

  /** Any opcode other than STOP, SETI and SETS makes the loop return false. */
  lemma ScanRejects(c: seq<Byte>, p: nat)
    requires p < |c| && c[p] != ConfComp.InstrStop && c[p] != ConfComp.InstrSeti && c[p] != ConfComp.InstrSets
    ensures ScanBody(c, p) == ([], None)
  {
  }

  /** The loop's record of what it has read so far, when the record at `p` is rejected. */
  lemma ScanFails(c: seq<Byte>, p: nat, done: seq<Instr>)
    requires 5 <= |c| && p <= |c| && ScanBody(c, p) == ([], None)
    requires ScanBody(c, 5) == (done + ScanBody(c, p).0, ScanBody(c, p).1)
    ensures ScanBody(c, 5) == (done, None)
  {
    assert done + [] == done;
  }

  /** The loop's record of what it has read so far, after the record at `p` is accepted. */
  lemma ScanAdvances(c: seq<Byte>, p: nat, q: nat, done: seq<Instr>, i: Instr)
    requires 5 <= |c| && p <= q <= |c| && ScanBody(c, p) == ([i] + ScanBody(c, q).0, ScanBody(c, q).1)
    requires ScanBody(c, 5) == (done + ScanBody(c, p).0, ScanBody(c, p).1)
    ensures ScanBody(c, 5) == (done + [i] + ScanBody(c, q).0, ScanBody(c, q).1)
  {
    assert done + ([i] + ScanBody(c, q).0) == done + [i] + ScanBody(c, q).0;
  }

  // ---------------------------------------------------------------- the compiler's output is read back

  /** The record the device reads for one compiled statement: integers keep their low 32 bits. */
  function InstrOf(s: ConfComp.SetStmt): Instr {
    match s.v.ty
    case IntTy => Seti(s.v.index, Int32Of(s.ival % 0x1_0000_0000))
    case StrTy => Sets(s.v.index, BytesOf(s.sval))
  }

  function Translate(body: seq<ConfComp.SetStmt>): (r: seq<Instr>)
    ensures |r| == |body|
    ensures forall i :: 0 <= i < |body| ==> r[i] == InstrOf(body[i])
    decreases |body|
  {
    if |body| == 0 then [] else [InstrOf(body[0])] + Translate(body[1..])
  }

  /** One compiled record, found at offset `q`, is read as the statement's instruction. */
  lemma ScanRecord(c: seq<Byte>, q: nat, s: ConfComp.SetStmt)
    requires ConfComp.Fits(s)
    requires q + |ConfComp.StmtRecord(s)| <= |c| && c[q..q + |ConfComp.StmtRecord(s)|] == ConfComp.StmtRecord(s)
    ensures var n := q + |ConfComp.StmtRecord(s)|;
      ScanBody(c, q) == ([InstrOf(s)] + ScanBody(c, n).0, ScanBody(c, n).1)
  {
    var r := ConfComp.StmtRecord(s);
    var slot := s.v.index;
    hide ConfComp.SetiRecord, ConfComp.SetsRecord, ScanBody, ConfComp.WithinLimits;
    match s.v.ty
    case IntTy =>
      assert slot < NumIvars && slot % 256 == slot;
      assert r == ConfComp.SetiRecord(slot, s.ival);
      hide ConfComp.StmtRecord;
      ScanSeti(c, q, slot, s.ival);
    case StrTy =>
      assert slot < NumSvars && slot % 256 == slot;
      assert r == ConfComp.SetsRecord(slot, s.sval);
      hide ConfComp.StmtRecord;
      ScanSets(c, q, slot, s.sval);
  }

  lemma ScanSeti(c: seq<Byte>, q: nat, slot: nat, v: int)
    requires slot < NumIvars && q + 6 <= |c| && c[q..q + 6] == ConfComp.SetiRecord(slot, v)
    ensures ScanBody(c, q) == ([Seti(slot, Int32Of(v % 0x1_0000_0000))] + ScanBody(c, q + 6).0, ScanBody(c, q + 6).1)
  {
    var r := ConfComp.SetiRecord(slot, v);
    hide ConfComp.SetiRecord, ByteAt;
    forall k | 0 <= k < 6 ensures c[q + k] == r[k] {
      assert c[q..q + 6][k] == c[q + k];
    }
  }

  lemma ScanSets(c: seq<Byte>, q: nat, slot: nat, t: Text)
    requires slot < NumSvars && |t| <= ConfComp.MaxStringLength
    requires q + 4 + |t| <= |c| && c[q..q + 4 + |t|] == ConfComp.SetsRecord(slot, t)
    ensures ScanBody(c, q) == ([Sets(slot, BytesOf(t))] + ScanBody(c, q + 4 + |t|).0, ScanBody(c, q + 4 + |t|).1)
  {
    hide ConfComp.SetsRecord, ByteAt, BytesOf, ScanBody, LE16;
    var r := ConfComp.SetsRecord(slot, t);
    var n := q + 4 + |t|;
    forall k | 0 <= k < 4 ensures c[q + k] == r[k] {
      assert c[q..n][k] == c[q + k];
    }
    assert LE16(c[q + 2], c[q + 3]) == |t|;
    assert c[q + 4..n] == r[4..];
    ScanSetsStep(c, q);
  }

  /** A SETS record that passes the checks is read, and the loop goes on after its payload. */
  lemma ScanSetsStep(c: seq<Byte>, q: nat)
    requires q + 4 <= |c| && c[q] == ConfComp.InstrSets && c[q + 1] < NumSvars
    requires q + 4 + LE16(c[q + 2], c[q + 3]) <= |c|
    ensures var n := q + 4 + LE16(c[q + 2], c[q + 3]);
      ScanBody(c, q) == ([Sets(c[q + 1], c[q + 4..n])] + ScanBody(c, n).0, ScanBody(c, n).1)
  {
  }

  /** A compiled body, found at offset `q`, is read back statement by statement. */
  lemma {:induction false} ScanEncodedBody(c: seq<Byte>, q: nat, body: seq<ConfComp.SetStmt>)
    requires forall i :: 0 <= i < |body| ==> ConfComp.Fits(body[i])
    requires q + |ConfComp.EncodeBody(body)| <= |c| && c[q..q + |ConfComp.EncodeBody(body)|] == ConfComp.EncodeBody(body)
    ensures var n := q + |ConfComp.EncodeBody(body)|;
      ScanBody(c, q) == (Translate(body) + ScanBody(c, n).0, ScanBody(c, n).1)
    decreases |body|
  {
    hide ScanBody, Translate, ConfComp.EncodeBody;
    if |body| == 0 {
      ConfComp.EncodeBodySize(body);
      assert Translate(body) == [];
      var tail := ScanBody(c, q);
      assert [] + tail.0 == tail.0;
      assert ScanBody(c, q) == (Translate(body) + tail.0, tail.1);
    } else {
      EncodedTail(c, q, body);
      ScanEncodedBody(c, q + |ConfComp.StmtRecord(body[0])|, body[1..]);
      ScanEncodedFront(c, q, body);
    }
  }

  /** The rest of a compiled body follows its first record, and its statements fit too. */
  lemma EncodedTail(c: seq<Byte>, q: nat, body: seq<ConfComp.SetStmt>)
    requires |body| > 0
    requires q + |ConfComp.EncodeBody(body)| <= |c| && c[q..q + |ConfComp.EncodeBody(body)|] == ConfComp.EncodeBody(body)
    requires forall i :: 0 <= i < |body| ==> ConfComp.Fits(body[i])
    ensures var m := q + |ConfComp.StmtRecord(body[0])|; var e' := ConfComp.EncodeBody(body[1..]);
      m + |e'| == q + |ConfComp.EncodeBody(body)| && c[m..m + |e'|] == e'
    ensures forall i :: 0 <= i < |body[1..]| ==> ConfComp.Fits(body[1..][i])
  {
    hide ConfComp.EncodeBody, ConfComp.StmtRecord, ConfComp.Fits;
    ConfComp.EncodeBodyFront(body);
    SplitSlice(c, q, ConfComp.StmtRecord(body[0]), ConfComp.EncodeBody(body[1..]));
    forall i | 0 <= i < |body[1..]| ensures ConfComp.Fits(body[1..][i]) {
      assert body[1..][i] == body[i + 1];
    }
  }

  /** The first record of a compiled body, then the rest as read by induction. */
  lemma ScanEncodedFront(c: seq<Byte>, q: nat, body: seq<ConfComp.SetStmt>)
    requires |body| > 0 && ConfComp.Fits(body[0])
    requires q + |ConfComp.EncodeBody(body)| <= |c| && c[q..q + |ConfComp.EncodeBody(body)|] == ConfComp.EncodeBody(body)
    requires var m := q + |ConfComp.StmtRecord(body[0])|; var n := m + |ConfComp.EncodeBody(body[1..])|;
      m <= n <= |c| && ScanBody(c, m) == (Translate(body[1..]) + ScanBody(c, n).0, ScanBody(c, n).1)
    ensures var n := q + |ConfComp.EncodeBody(body)|;
      ScanBody(c, q) == (Translate(body) + ScanBody(c, n).0, ScanBody(c, n).1)
  {
    hide ScanBody, Translate, ConfComp.EncodeBody;
    var r := ConfComp.StmtRecord(body[0]);
    var e' := ConfComp.EncodeBody(body[1..]);
    ConfComp.EncodeBodyFront(body);
    hide ConfComp.StmtRecord;
    SplitSlice(c, q, r, e');
    ScanRecord(c, q, body[0]);
    TranslateFront(body);
    ScanChain(c, q, q + |r|, q + |r| + |e'|, [InstrOf(body[0])], Translate(body[1..]));
  }

  /** A slice that holds `r + e` holds `r` and then `e`. */
  lemma TranslateFront(body: seq<ConfComp.SetStmt>)
    requires |body| > 0
    ensures Translate(body) == [InstrOf(body[0])] + Translate(body[1..])
  {
  }

  /** Two consecutive stretches of a scan make one. */
  lemma ScanChain(c: seq<Byte>, q: nat, m: nat, n: nat, a: seq<Instr>, b: seq<Instr>)
    requires q <= m <= n <= |c|
    requires ScanBody(c, q) == (a + ScanBody(c, m).0, ScanBody(c, m).1)
    requires ScanBody(c, m) == (b + ScanBody(c, n).0, ScanBody(c, n).1)
    ensures ScanBody(c, q) == ((a + b) + ScanBody(c, n).0, ScanBody(c, n).1)
  {
    hide ScanBody;
    assert a + (b + ScanBody(c, n).0) == (a + b) + ScanBody(c, n).0;
  }

  /**
   * The round trip: the bytes the compiler emits for a program of version
   * 1.0.0 whose statements fit the tables are accepted by the device, which
   * reads back the clear flag, one instruction per statement in order, and
   * the save flag.
   */
  lemma DecodeEncode(p: ConfComp.Program)
    requires p.v0 == 1 && p.v1 == 0 && p.v2 == 0
    requires forall i :: 0 <= i < |p.body| ==> ConfComp.Fits(p.body[i])
    ensures Run(ConfComp.Encode(p)) == Scan(p.clear, Translate(p.body), Stop(p.save, false))
    ensures Accepted(Run(ConfComp.Encode(p)))
  {
    var c := ConfComp.Encode(p);
    ConfComp.EncodeLayout(p);
    ConfComp.EncodeBodySize(p.body);
    var e := ConfComp.EncodeBody(p.body);
    var n := |c| - 2;
    hide ConfComp.Encode, ConfComp.EncodeBody, ScanBody, Translate;
    assert n == 5 + |e|;
    assert c[5..5 + |e|] == e;
    ScanEncodedBody(c, 5, p.body);
    assert c[n] == ConfComp.InstrStop && c[n + 1] == (if p.save then 1 else 0) by {
      assert c[n] == c[n..][0] && c[n + 1] == c[n..][1];
    }
    ScanAtStop(c, n);
    assert ValidStart(c) by {
      assert forall k :: 0 <= k < 5 ==> c[k] == c[..5][k];
    }
    assert Translate(p.body) + [] == Translate(p.body);
  }

  lemma ScanAtStop(c: seq<Byte>, n: nat)
    requires n < |c| && c[n] == ConfComp.InstrStop
    ensures ScanBody(c, n) == ([], Some(n))
  {
  }

  /**
   * Whatever the compiler accepts, the device accepts: it reads back the
   * parsed program's clear flag, its statements in order and its save flag.
   */
  lemma CompiledConfigAccepted(text: Text, env: ConfComp.Env, p: ConfComp.Program)
    requires ConfComp.ParseText(text, env) == Ok(p)
    ensures ConfComp.Compile(text, env) == Ok(ConfComp.Encode(p))
    ensures Run(ConfComp.Encode(p)) == Scan(p.clear, Translate(p.body), Stop(p.save, false))
    ensures Accepted(Run(ConfComp.Encode(p)))
  {
    DecodeEncode(p);
  }

  /**
   * The variables that have limits (all but `mqtt-use-tls`) are read back
   * by the device with exactly the value the compiler accepted.
   */
  lemma IntValueSurvives(s: ConfComp.SetStmt)
    requires ConfComp.Fits(s) && s.v.ty == ConfComp.IntTy && s.v.index < 4
    ensures InstrOf(s) == Seti(s.v.index, s.ival)
  {
    assert 0 <= s.ival < 0x8000_0000;
    var u := s.ival % 0x1_0000_0000;
    assert u == s.ival;
    var r := Int32Of(u);
    assert r % 0x1_0000_0000 == s.ival;
    assert 0 <= r;
  }

  /** `mqtt-use-tls` has no limit: only the low 32 bits of its value reach the device. */
  lemma TlsValueTruncated()
    ensures ConfComp.Fits(ConfComp.SetStmt(ConfComp.VarInfo(ConfComp.IntTy, 4), [], 0x1_0000_0000))
    ensures InstrOf(ConfComp.SetStmt(ConfComp.VarInfo(ConfComp.IntTy, 4), [], 0x1_0000_0000)) == Seti(4, 0)
  {
    assert Int32Of(0) == 0;
  }

  // ---------------------------------------------------------------- the reader as written

  /*
   * The members below follow firmware-idf/main/config.c literally, where it
   * differs from the reader above. The file is excluded from builds by an
   * `#error` at its head. `after` stands for the memory just past the
   * buffer, which the code reads: `after[0]` is the byte at `limit`.
   */

  datatype Outcome = Accepts | Rejects | Hangs

  datatype BodyEnd = Exit(pos: nat) | Fail | Spin

  /** The byte at offset `i` from the start of the buffer, inside it or past its end. */
  function MemAt(c: seq<Byte>, after: seq<Byte>, i: nat): Byte
    requires i < |c| + |after|
  {
    if i < |c| then c[i] else after[i - |c|]
  }

  /**
   * The body loop as written: every iteration switches on the byte at
   * `limit`, not at `config`, and the STOP case leaves only the switch, so
   * the loop goes round again without moving.
   */
  function BodyAsWritten(c: seq<Byte>, after: seq<Byte>, p: nat): (r: BodyEnd)
    requires p <= |c| && |after| >= 1
    ensures r.Exit? ==> r.pos == |c|
    ensures after[0] != ConfComp.InstrStop ==> !r.Spin?
    decreases |c| - p
  {
    if p == |c| then Exit(p)
    else if after[0] == ConfComp.InstrStop then Spin
    else if after[0] == ConfComp.InstrSeti then
      if |c| - p < 6 || c[p + 1] >= NumIvars then Fail
      else BodyAsWritten(c, after, p + 6)
    else if after[0] == ConfComp.InstrSets then
      if |c| - p < 4 then Fail
      else
        var len := LE16(c[p + 2], c[p + 3]);
        if |c| - (p + 4) < len then Fail
        else BodyAsWritten(c, after, p + 4 + len)
    else Fail
  }

  /** `run_configuration` as written. */
  function RunAsWritten(c: seq<Byte>, after: seq<Byte>): Outcome
    requires |after| >= 1
  {
    if !ValidStart(c) then Rejects
    else
      match BodyAsWritten(c, after, 5)
      case Spin => Hangs
      case Fail => Rejects
      case Exit(q) =>
        if |c| - q < 2 || c[q] != ConfComp.InstrStop then Rejects
        else if c[q + 1] != 0 && c[q + 1] != 1 then Rejects
        else if q + 2 != |c| then Rejects
        else Accepts
  }

  /**
   * As written, no input is ever accepted: a body that runs to its end stops
   * at `limit`, where no STOP record fits. So `accept_configuration` never
   * gets to its performing pass.
   */
  lemma AsWrittenNeverAccepts(c: seq<Byte>, after: seq<Byte>)
    requires |after| >= 1
    ensures RunAsWritten(c, after) != Accepts
  {
  }

  /**
   * Every configuration the compiler emits is accepted by the corrected
   * reader, and the reader as written hangs on it when the byte past the
   * buffer is 2 and rejects it otherwise.
   */
  lemma CompiledConfigAsWritten(text: Text, env: ConfComp.Env, p: ConfComp.Program, after: seq<Byte>)
    requires ConfComp.ParseText(text, env) == Ok(p) && |after| >= 1
    ensures Accepted(Run(ConfComp.Encode(p)))
    ensures RunAsWritten(ConfComp.Encode(p), after) == if after[0] == ConfComp.InstrStop then Hangs else Rejects
  {
    CompiledConfigAccepted(text, env, p);
    ConfComp.EncodeLayout(p);
    AsWrittenNeverAccepts(ConfComp.Encode(p), after);
  }

  /** The SETI value as written: its top byte is taken from offset 6, one past the record. */
  function SetiValueAsWritten(c: seq<Byte>, after: seq<Byte>, p: nat): int
    requires p + 6 <= |c| && |after| >= 1
  {
    Int32Of(LE32(c[p + 2], c[p + 3], c[p + 4], MemAt(c, after, p + 6)))
  }

  /** A SETI of 1 followed by the byte 7: the record means 1, the code as written reads 117440513. */
  lemma SetiValueAsWrittenDiffers()
    ensures SetiValue([3, 0, 1, 0, 0, 0, 7], 0) == 1
    ensures SetiValueAsWritten([3, 0, 1, 0, 0, 0, 7], [0], 0) == 1 + 7 * 0x100_0000
  {
    assert Int32Of(1) == 1;
    assert Int32Of(1 + 7 * 0x100_0000) == 1 + 7 * 0x100_0000;
  }

  /** The SETS payload as written: copied from 4 bytes after the data's start. */
  function SetsPayloadAsWritten(c: seq<Byte>, after: seq<Byte>, p: nat, len: nat): (r: seq<Byte>)
    requires p + 4 + len <= |c| && |after| >= 4
    ensures |r| == len && forall k :: 0 <= k < len ==> r[k] == MemAt(c, after, p + 8 + k)
  {
    seq<Byte>(len, k requires 0 <= k < len => MemAt(c, after, p + 8 + k))
  }

  /** A SETS of the one byte 65, followed by 0 0 0 66: the code as written stores 66. */
  lemma SetsPayloadAsWrittenDiffers()
    ensures ScanBody([4, 0, 1, 0, 65, 0, 0, 0, 66], 0).0[0] == Sets(0, [65])
    ensures SetsPayloadAsWritten([4, 0, 1, 0, 65, 0, 0, 0, 66], [0, 0, 0, 0], 0, 1) == [66]
  {
  }

  /**
   * A SETS into string slot 16, past the end of the table, passes the checks
   * as written; the corrected reader rejects it.
   */
  lemma SetsSlotAsWritten()
    ensures BodyAsWritten([1, 1, 0, 0, 0, 4, 16, 0, 0], [4], 5) == Exit(9)
    ensures ScanBody([1, 1, 0, 0, 0, 4, 16, 0, 0], 5).1.None?
  {
  }
}
