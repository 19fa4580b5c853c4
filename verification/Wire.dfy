/**
 DNS wire messages as the resolver scans them: names are skipped without
 following compression pointers, TTL fields are located by offset and patched in
 place. Layout per sections 4.1.1 to 4.1.4 of RFC 1035; OPT per section 6.1.2 of
 RFC 6891.
 */
module Wire {
  import opened Wrappers

  type Byte = x: int | 0 <= x < 256

  type Bytes = seq<Byte>

  const TYPE_OPT := 41

  function U16(hi: Byte, lo: Byte): (r: nat)
    ensures r < 0x1_0000
  {
    hi * 256 + lo
  }

  function U32(b: Bytes): (r: nat)
    requires |b| == 4
    ensures r < 0x1_0000_0000
  {
    U16(b[0], b[1]) * 0x1_0000 + U16(b[2], b[3])
  }

  function Be16(x: nat): (b: Bytes)
    requires x < 0x1_0000
    ensures |b| == 2 && U16(b[0], b[1]) == x
  {
    [x / 256, x % 256]
  }

  function Be32(x: nat): (b: Bytes)
    requires x < 0x1_0000_0000
    ensures |b| == 4 && U32(b) == x
  {
    Be16(x / 0x1_0000) + Be16(x % 0x1_0000)
  }

  /** The offset after a name: its root byte, or the two bytes of a pointer. */
  function SkipName(buf: Bytes, pos: nat): (r: Option<nat>)
    ensures r.Some? ==> r.value > pos
    decreases |buf| - pos
  {
    if pos >= |buf| then None
    else
      var b := buf[pos];
      if b == 0 then Some(pos + 1)
      else if b < 64 then SkipName(buf, pos + 1 + b)
      else if b >= 192 then Some(pos + 2)
      else None
  }

  method SkipNameLoop(buf: Bytes, start: nat) returns (r: Option<nat>)
    ensures r == SkipName(buf, start)
  {
    var pos := start;
    while pos < |buf|
      invariant SkipName(buf, pos) == SkipName(buf, start)
      decreases |buf| - pos
    {
      var b := buf[pos];
      if b == 0 {
        return Some(pos + 1);
      } else if b < 64 {
        pos := pos + 1 + b;
      } else if b >= 192 {
        return Some(pos + 2);
      } else {
        return None;
      }
    }
    return None;
  }

  /** A resource record, its owner name kept as the bytes on the wire. */
  datatype Record = Record(name: Bytes, rtype: nat, rclass: nat, ttl: nat, rdata: Bytes)

  /** A record read at some position: where its fixed part starts and where it ends. */
  datatype Located = Located(rec: Record, body: nat, next: nat)

  function ReadRecord(buf: Bytes, pos: nat): (r: Option<Located>)
    ensures r.Some? ==> pos < r.value.body && r.value.body + 10 <= r.value.next <= |buf|
  {
    var e := SkipName(buf, pos);
    if e.None? || e.value + 10 > |buf| then None
    else
      var p := e.value;
      var next := p + 10 + U16(buf[p + 8], buf[p + 9]);
      if next > |buf| then None else Some(Located(RecordAt(buf, pos, p, next), p, next))
  }

  /** The record whose owner name, fixed part and data lie between these positions. */
  function RecordAt(buf: Bytes, pos: nat, p: nat, next: nat): Record
    requires pos <= p && p + 10 <= next <= |buf|
  {
    Record(buf[pos..p], U16(buf[p], buf[p + 1]), U16(buf[p + 2], buf[p + 3]), U32(buf[p + 4..p + 8]), buf[p + 10..next])
  }

  /** `n` records in a row, with the TTL offsets of those that are not OPT. */
  datatype Walk = Walk(records: seq<Record>, offsets: seq<nat>, end: nat)

  function WalkRecords(buf: Bytes, pos: nat, n: nat): Option<Walk>
    decreases n
  {
    if n == 0 then Some(Walk([], [], pos))
    else
      var first := ReadRecord(buf, pos);
      if first.None? then None
      else
        var rest := WalkRecords(buf, first.value.next, n - 1);
        if rest.None? then None
        else
          var at := if first.value.rec.rtype == TYPE_OPT then [] else [first.value.body + 4];
          Some(Walk([first.value.rec] + rest.value.records, at + rest.value.offsets, rest.value.end))
  }

  /** Each question is a name and four bytes of type and class. */
  function WalkQuestions(buf: Bytes, pos: nat, n: nat): (r: Option<nat>)
    ensures r.Some? ==> pos <= r.value && (pos <= |buf| ==> r.value <= |buf|)
    decreases n
  {
    if n == 0 then Some(pos)
    else
      var e := SkipName(buf, pos);
      if e.None? || e.value + 4 > |buf| then None else WalkQuestions(buf, e.value + 4, n - 1)
  }

  function CountAt(buf: Bytes, i: nat): nat
    requires i + 2 <= |buf|
  {
    U16(buf[i], buf[i + 1])
  }

  function RecordCount(buf: Bytes): nat
    requires |buf| >= 12
  {
    CountAt(buf, 6) + CountAt(buf, 8) + CountAt(buf, 10)
  }

  /** Everything a message says: id, the rest of the header, raw questions, records, and what follows. */
  datatype Packet = Packet(id: nat, header: Bytes, questions: Bytes, records: seq<Record>, tail: Bytes)

  function Parse(buf: Bytes): Option<Packet> {
    if |buf| < 12 then None
    else
      var q := WalkQuestions(buf, 12, CountAt(buf, 4));
      if q.None? then None
      else
        var w := WalkRecords(buf, q.value, RecordCount(buf));
        if w.None? then None
        else
          WalkBounds(buf, q.value, RecordCount(buf), w.value);
          Some(Packet(U16(buf[0], buf[1]), buf[2..12], buf[12..q.value], w.value.records, buf[w.value.end..]))
  }

  /** The TTL offsets of an acceptable message. */
  function TtlOffsets(buf: Bytes): Option<seq<nat>> {
    if |buf| < 12 then None
    else
      var q := WalkQuestions(buf, 12, CountAt(buf, 4));
      if q.None? then None
      else
        var w := WalkRecords(buf, q.value, RecordCount(buf));
        if w.None? then None else Some(w.value.offsets)
  }

  method ScanQuestions(buf: Bytes, n: nat) returns (r: Option<nat>)
    requires |buf| >= 12
    ensures r == WalkQuestions(buf, 12, n)
  {
    var pos: nat := 12;
    var i := 0;
    while i < n
      invariant 0 <= i <= n && pos <= |buf|
      invariant WalkQuestions(buf, pos, n - i) == WalkQuestions(buf, 12, n)
    {
      var e := SkipNameLoop(buf, pos);
      if e.None? || e.value + 4 > |buf| {
        return None;
      }
      pos := e.value + 4;
      i := i + 1;
    }
    return Some(pos);
  }

  function OwnOffset(l: Located): seq<nat> {
    if l.rec.rtype == TYPE_OPT then [] else [l.body + 4]
  }

  lemma WalkStep(buf: Bytes, pos: nat, n: nat)
    requires n > 0
    ensures WalkRecords(buf, pos, n).Some? <==>
            ReadRecord(buf, pos).Some? && WalkRecords(buf, ReadRecord(buf, pos).value.next, n - 1).Some?
    ensures WalkRecords(buf, pos, n).Some? ==>
              var l := ReadRecord(buf, pos).value; var w := WalkRecords(buf, l.next, n - 1).value;
              WalkRecords(buf, pos, n) == Some(Walk([l.rec] + w.records, OwnOffset(l) + w.offsets, w.end))
  {
  }

  /** A successful walk, taken apart. */
  lemma WalkParts(buf: Bytes, pos: nat, n: nat) returns (l: Located, w: Walk)
    requires n > 0 && WalkRecords(buf, pos, n).Some?
    ensures ReadRecord(buf, pos) == Some(l) && pos < l.body && l.body + 10 <= l.next <= |buf|
    ensures WalkRecords(buf, l.next, n - 1) == Some(w)
    ensures WalkRecords(buf, pos, n) == Some(Walk([l.rec] + w.records, OwnOffset(l) + w.offsets, w.end))
  {
    l := ReadRecord(buf, pos).value;
    w := WalkRecords(buf, l.next, n - 1).value;
  }

  lemma {:induction false} WalkBounds(buf: Bytes, pos: nat, n: nat, w: Walk)
    requires pos <= |buf| && WalkRecords(buf, pos, n) == Some(w)
    ensures pos <= w.end <= |buf|
    ensures forall k :: 0 <= k < |w.offsets| ==> pos + 5 <= w.offsets[k] && w.offsets[k] + 6 <= w.end
    ensures forall i, j :: 0 <= i < j < |w.offsets| ==> w.offsets[i] + 6 <= w.offsets[j]
    decreases n
  {
    if n > 0 {
      var l, w' := WalkParts(buf, pos, n);
      WalkBounds(buf, l.next, n - 1, w');
    }
  }

  /** The fields the scan loop reads of one record. */
  method ScanRecord(buf: Bytes, pos: nat) returns (ok: bool, isOpt: bool, body: nat, next: nat)
    ensures ok == ReadRecord(buf, pos).Some?
    ensures ok ==> var l := ReadRecord(buf, pos).value; body == l.body && next == l.next && isOpt == (l.rec.rtype == TYPE_OPT)
  {
    ok, isOpt, body, next := false, false, 0, 0;
    var e := SkipNameLoop(buf, pos);
    if e.None? || e.value + 10 > |buf| {
      return;
    }
    body := e.value;
    isOpt := U16(buf[body], buf[body + 1]) == TYPE_OPT;
    next := body + 10 + U16(buf[body + 8], buf[body + 9]);
    ok := next <= |buf|;
  }

  /** Offsets as the 32-bit numbers they are stored as. */
  function Cut(offsets: seq<nat>): (r: seq<nat>)
    ensures |r| == |offsets| && forall k :: 0 <= k < |r| ==> r[k] == offsets[k] % 0x1_0000_0000
  {
    seq(|offsets|, k requires 0 <= k < |offsets| => offsets[k] % 0x1_0000_0000)
  }

  ghost predicate ScannedSoFar(all: Option<Walk>, offsets: seq<nat>, rest: Option<Walk>) {
    all.Some? == rest.Some? && (all.Some? ==> Cut(all.value.offsets) == offsets + Cut(rest.value.offsets))
  }

  lemma ScannedStep(all: Option<Walk>, offsets: seq<nat>, buf: Bytes, pos: nat, m: nat)
    requires m > 0 && ScannedSoFar(all, offsets, WalkRecords(buf, pos, m))
    ensures ReadRecord(buf, pos).None? ==> all.None?
    ensures ReadRecord(buf, pos).Some? ==>
              var l := ReadRecord(buf, pos).value;
              ScannedSoFar(all, offsets + Cut(OwnOffset(l)), WalkRecords(buf, l.next, m - 1))
  {
    WalkStep(buf, pos, m);
    if all.Some? {
      var l, w := WalkParts(buf, pos, m);
      CutJoins(offsets, OwnOffset(l), w.offsets);
    }
  }

  lemma CutJoins(done: seq<nat>, own: seq<nat>, rest: seq<nat>)
    ensures done + Cut(own + rest) == done + Cut(own) + Cut(rest)
  {
    assert Cut(own + rest) == Cut(own) + Cut(rest);
  }

  /** One turn of the scan loop, when the record can be read. */
  lemma ScanMoves(all: Option<Walk>, offsets: seq<nat>, buf: Bytes, pos: nat, m: nat, l: Located, own: seq<nat>)
    requires m > 0 && ScannedSoFar(all, offsets, WalkRecords(buf, pos, m)) && ReadRecord(buf, pos) == Some(l)
    requires own == if l.rec.rtype == TYPE_OPT then [] else [(l.body + 4) % 0x1_0000_0000]
    ensures ScannedSoFar(all, offsets + own, WalkRecords(buf, l.next, m - 1))
  {
    ScannedStep(all, offsets, buf, pos, m);
    assert own == Cut(OwnOffset(l));
  }

  lemma ScanStarts(all: Option<Walk>)
    ensures ScannedSoFar(all, [], all)
  {
  }

  lemma ScanEnds(all: Option<Walk>, offsets: seq<nat>, buf: Bytes, pos: nat)
    requires ScannedSoFar(all, offsets, WalkRecords(buf, pos, 0))
    ensures all.Some? && Cut(all.value.offsets) == offsets
  {
    assert offsets + Cut([]) == offsets;
  }

  lemma CutFitting(offsets: seq<nat>)
    requires forall k :: 0 <= k < |offsets| ==> offsets[k] < 0x1_0000_0000
    ensures Cut(offsets) == offsets
  {
  }

  /** One turn of the scan loop: the offsets so far, and where the next record starts. */
  method ScanNext(buf: Bytes, pos: nat, offsets: seq<nat>, ghost all: Option<Walk>, ghost left: nat)
    returns (ok: bool, offsets': seq<nat>, next: nat)
    requires left > 0 && ScannedSoFar(all, offsets, WalkRecords(buf, pos, left))
    ensures !ok ==> all.None?
    ensures ok ==> next <= |buf| && ScannedSoFar(all, offsets', WalkRecords(buf, next, left - 1))
  {
    var isOpt, body;
    ok, isOpt, body, next := ScanRecord(buf, pos);
    offsets' := offsets;
    if ok {
      var own := if isOpt then [] else [(body + 4) % 0x1_0000_0000];
      ScanMoves(all, offsets, buf, pos, left, ReadRecord(buf, pos).value, own);
      offsets' := offsets + own;
    } else {
      ScannedStep(all, offsets, buf, pos, left);
    }
  }

  /** The scan loop. Offsets are stored as 32-bit numbers. */
  method ScanRecords(buf: Bytes, start: nat, n: nat) returns (r: Option<seq<nat>>)
    requires start <= |buf|
    ensures var w := WalkRecords(buf, start, n); r == if w.Some? then Some(Cut(w.value.offsets)) else None
  {
    var pos: nat := start;
    var offsets: seq<nat> := [];
    var left := n;
    ghost var all := WalkRecords(buf, start, n);
    ScanStarts(all);
    while left > 0
      invariant 0 <= left <= n && pos <= |buf|
      invariant ScannedSoFar(all, offsets, WalkRecords(buf, pos, left))
    {
      var ok;
      ok, offsets, pos := ScanNext(buf, pos, offsets, all, left);
      if !ok {
        return None;
      }
      left := left - 1;
    }
    ScanEnds(all, offsets, buf, pos);
    return Some(offsets);
  }

  method ScanTtlOffsets(buf: Bytes) returns (r: Option<seq<nat>>)
    ensures r.Some? == TtlOffsets(buf).Some?
    ensures r.Some? ==> r.value == Cut(TtlOffsets(buf).value)
    ensures |buf| <= 0x1_0000_0000 ==> r == TtlOffsets(buf)
  {
    if |buf| < 12 {
      return None;
    }
    var q := ScanQuestions(buf, CountAt(buf, 4));
    if q.None? {
      return None;
    }
    r := ScanRecords(buf, q.value, RecordCount(buf));
    if r.Some? {
      WalkBounds(buf, q.value, RecordCount(buf), WalkRecords(buf, q.value, RecordCount(buf)).value);
      if |buf| <= 0x1_0000_0000 {
        CutFitting(TtlOffsets(buf).value);
      }
    }
  }

  // ---- patching ----

  function Overwrite(buf: Bytes, at: nat, with: Bytes): (r: Bytes)
    ensures |r| == |buf|
    ensures at + |with| <= |buf| ==>
              forall i :: 0 <= i < |buf| ==> r[i] == if at <= i < at + |with| then with[i - at] else buf[i]
    ensures at + |with| > |buf| ==> r == buf
  {
    if at + |with| <= |buf| then buf[..at] + with + buf[at + |with|..] else buf
  }

  function PatchTtls(buf: Bytes, t: Bytes, offsets: seq<nat>): (r: Bytes)
    ensures |r| == |buf|
    decreases |offsets|
  {
    if offsets == [] then buf else PatchTtls(Overwrite(buf, offsets[0], t), t, offsets[1..])
  }

  function Patch(buf: Bytes, id: nat, ttl: nat, offsets: seq<nat>): (r: Bytes)
    requires id < 0x1_0000 && ttl < 0x1_0000_0000
    ensures |r| == |buf|
  {
    PatchTtls(Overwrite(buf, 0, Be16(id)), Be32(ttl), offsets)
  }

  /** Overwrites the id and every TTL slot of the buffer itself. */
  method PatchInPlace(buf: array<Byte>, id: nat, ttl: nat, offsets: seq<nat>)
    requires id < 0x1_0000 && ttl < 0x1_0000_0000
    modifies buf
    ensures buf[..] == Patch(old(buf[..]), id, ttl, offsets)
  {
    WriteAt(buf, 0, Be16(id));
    var t := Be32(ttl);
    var i := 0;
    while i < |offsets|
      invariant 0 <= i <= |offsets|
      invariant PatchTtls(buf[..], t, offsets[i..]) == Patch(old(buf[..]), id, ttl, offsets)
    {
      WriteAt(buf, offsets[i], t);
      i := i + 1;
    }
  }

  method WriteAt(buf: array<Byte>, at: nat, with: Bytes)
    modifies buf
    ensures buf[..] == Overwrite(old(buf[..]), at, with)
  {
    if at + |with| <= buf.Length {
      var i := 0;
      while i < |with|
        invariant 0 <= i <= |with|
        invariant forall k :: 0 <= k < buf.Length ==> buf[k] == if at <= k < at + i then with[k - at] else old(buf[k])
      {
        buf[at + i] := with[i];
        i := i + 1;
      }
    }
  }

  ghost predicate InSlot(offsets: seq<nat>, i: int) {
    exists k :: 0 <= k < |offsets| && offsets[k] <= i < offsets[k] + 4
  }

  ghost predicate Separated(offsets: seq<nat>, n: nat) {
    && (forall k :: 0 <= k < |offsets| ==> offsets[k] + 4 <= n)
    && (forall i, j :: 0 <= i < j < |offsets| ==> offsets[i] + 4 <= offsets[j])
  }

  /** From `pos` on, `b` is `a` with the four bytes `t` in each slot. */
  ghost predicate PatchedFrom(a: Bytes, b: Bytes, pos: nat, offsets: seq<nat>, t: Bytes) {
    && |a| == |b|
    && (forall i :: pos <= i < |a| && !InSlot(offsets, i) ==> b[i] == a[i])
    && (forall k :: 0 <= k < |offsets| ==> offsets[k] + 4 <= |b| && b[offsets[k]..offsets[k] + 4] == t)
  }

  lemma SlotCons(x: nat, rest: seq<nat>, i: int)
    ensures InSlot([x] + rest, i) <==> x <= i < x + 4 || InSlot(rest, i)
  {
    var all := [x] + rest;
    if x <= i < x + 4 {
      assert all[0] == x;
    }
    if k :| 0 <= k < |rest| && rest[k] <= i < rest[k] + 4 {
      assert all[k + 1] == rest[k];
    }
  }

  lemma PatchedCons(buf: Bytes, r: Bytes, x: nat, rest: seq<nat>, t: Bytes)
    requires |t| == 4 && x + 4 <= |buf| && forall k :: 0 <= k < |rest| ==> x + 4 <= rest[k]
    requires PatchedFrom(Overwrite(buf, x, t), r, 0, rest, t)
    ensures PatchedFrom(buf, r, 0, [x] + rest, t)
  {
    var all := [x] + rest;
    forall i | 0 <= i < |buf| && !InSlot(all, i) ensures r[i] == buf[i] {
      SlotCons(x, rest, i);
    }
    forall i | x <= i < x + 4 ensures r[i] == t[i - x] {
      assert !InSlot(rest, i);
    }
    assert r[x..x + 4] == t;
    forall k | 0 <= k < |all| ensures all[k] + 4 <= |r| && r[all[k]..all[k] + 4] == t {
      if k > 0 {
        assert rest[k - 1] == all[k];
      }
    }
  }

  lemma {:induction false} PatchFillsSlots(buf: Bytes, t: Bytes, offsets: seq<nat>)
    requires |t| == 4 && Separated(offsets, |buf|)
    ensures PatchedFrom(buf, PatchTtls(buf, t, offsets), 0, offsets, t)
    decreases |offsets|
  {
    if offsets != [] {
      var x, rest := offsets[0], offsets[1..];
      assert offsets == [x] + rest;
      PatchFillsSlots(Overwrite(buf, x, t), t, rest);
      PatchedCons(buf, PatchTtls(buf, t, offsets), x, rest, t);
    }
  }

  /** Equal bytes over a name mean an equal skip. */
  lemma {:induction false} SkipNameSame(a: Bytes, b: Bytes, pos: nat)
    requires |a| == |b| && SkipName(a, pos).Some?
    requires forall i :: pos <= i < SkipName(a, pos).value && i < |a| ==> b[i] == a[i]
    ensures SkipName(b, pos) == SkipName(a, pos)
    decreases |a| - pos
  {
    if pos < |a| {
      assert b[pos] == a[pos];
      if 0 < a[pos] < 64 {
        SkipNameSame(a, b, pos + 1 + a[pos]);
      }
    }
  }

  lemma {:induction false} QuestionsSame(a: Bytes, b: Bytes, pos: nat, n: nat)
    requires |a| == |b| && WalkQuestions(a, pos, n).Some?
    requires forall i :: pos <= i < WalkQuestions(a, pos, n).value && i < |a| ==> b[i] == a[i]
    ensures WalkQuestions(b, pos, n) == WalkQuestions(a, pos, n)
    decreases n
  {
    if n > 0 {
      SkipNameSame(a, b, pos);
      QuestionsSame(a, b, SkipName(a, pos).value + 4, n - 1);
    }
  }

  function SetTtl(r: Record, ttl: nat): Record {
    if r.rtype == TYPE_OPT then r else r.(ttl := ttl)
  }

  function SetTtls(rs: seq<Record>, ttl: nat): (r: seq<Record>)
    ensures |r| == |rs| && forall k :: 0 <= k < |rs| ==> r[k] == SetTtl(rs[k], ttl)
  {
    if rs == [] then [] else [SetTtl(rs[0], ttl)] + SetTtls(rs[1..], ttl)
  }

  /** What patching does to the bytes of one record. */
  ghost predicate PatchedBody(a: Bytes, b: Bytes, pos: nat, l: Located, t: Bytes) {
    && |a| == |b| && |t| == 4 && pos < l.body && l.body + 10 <= l.next <= |a|
    && (forall i :: pos <= i < l.next && !(l.body + 4 <= i < l.body + 8) ==> b[i] == a[i])
    && b[l.body + 4..l.body + 8] == (if l.rec.rtype == TYPE_OPT then a[l.body + 4..l.body + 8] else t)
  }

  /** One record of a patched buffer: only its TTL can have changed. */
  lemma ReadPatched(a: Bytes, b: Bytes, pos: nat, l: Located, t: Bytes)
    requires ReadRecord(a, pos) == Some(l) && PatchedBody(a, b, pos, l, t)
    ensures ReadRecord(b, pos) == Some(l.(rec := SetTtl(l.rec, U32(t))))
  {
    SkipNameSame(a, b, pos);
    SameFields(a, b, pos, l, t);
    SameButTtl(a, b, pos, l, t);
  }

  lemma SameButTtl(a: Bytes, b: Bytes, pos: nat, l: Located, t: Bytes)
    requires PatchedBody(a, b, pos, l, t) && l.rec == RecordAt(a, pos, l.body, l.next)
    ensures RecordAt(b, pos, l.body, l.next) == SetTtl(l.rec, U32(t))
  {
    SameAround(a, b, pos, l, t);
    SameFields(a, b, pos, l, t);
  }

  lemma SameFields(a: Bytes, b: Bytes, pos: nat, l: Located, t: Bytes)
    requires PatchedBody(a, b, pos, l, t)
    ensures var p := l.body;
            && U16(b[p], b[p + 1]) == U16(a[p], a[p + 1]) && U16(b[p + 2], b[p + 3]) == U16(a[p + 2], a[p + 3])
            && U16(b[p + 8], b[p + 9]) == U16(a[p + 8], a[p + 9])
  {
  }

  lemma SameAround(a: Bytes, b: Bytes, pos: nat, l: Located, t: Bytes)
    requires PatchedBody(a, b, pos, l, t)
    ensures var p := l.body; b[pos..p] == a[pos..p] && b[p + 10..l.next] == a[p + 10..l.next]
  {
  }

  /** Slots that all lie past `lo` do not touch what is before it. */
  lemma SlotsPast(rest: seq<nat>, lo: nat, i: int)
    requires (forall k :: 0 <= k < |rest| ==> lo <= rest[k]) && i < lo
    ensures !InSlot(rest, i)
  {
  }

  /** Dropping the first slot, or none, and everything before `lo`. */
  lemma PatchedTail(a: Bytes, b: Bytes, pos: nat, lo: nat, front: seq<nat>, rest: seq<nat>, t: Bytes)
    requires PatchedFrom(a, b, pos, front + rest, t) && pos <= lo
    requires |front| <= 1 && (front != [] ==> front[0] + 4 <= lo)
    ensures PatchedFrom(a, b, lo, rest, t)
  {
    var offs := front + rest;
    forall i | lo <= i < |a| && !InSlot(rest, i) ensures b[i] == a[i] {
      if front != [] {
        assert offs == [front[0]] + rest;
        SlotCons(front[0], rest, i);
      } else {
        assert offs == rest;
      }
    }
    forall k | 0 <= k < |rest| ensures rest[k] + 4 <= |b| && b[rest[k]..rest[k] + 4] == t {
      assert rest[k] == offs[|front| + k];
    }
  }

  /** Before `lo`, only the first slot, if there is one, has changed. */
  lemma PatchedHead(a: Bytes, b: Bytes, pos: nat, lo: nat, front: seq<nat>, rest: seq<nat>, t: Bytes, i: nat)
    requires PatchedFrom(a, b, pos, front + rest, t) && pos <= i < lo <= |a|
    requires forall k :: 0 <= k < |rest| ==> lo <= rest[k]
    requires |front| <= 1 && (front != [] ==> !(front[0] <= i < front[0] + 4))
    ensures b[i] == a[i]
  {
    SlotsPast(rest, lo, i);
    if front != [] {
      assert front + rest == [front[0]] + rest;
      SlotCons(front[0], rest, i);
    } else {
      assert front + rest == rest;
    }
  }

  /** The slot facts one record needs, out of those for the whole walk. */
  lemma FirstIsPatched(a: Bytes, b: Bytes, pos: nat, l: Located, rest: seq<nat>, t: Bytes)
    requires |t| == 4 && pos < l.body && l.body + 10 <= l.next <= |a|
    requires PatchedFrom(a, b, pos, OwnOffset(l) + rest, t)
    requires forall k :: 0 <= k < |rest| ==> l.next <= rest[k]
    ensures PatchedBody(a, b, pos, l, t)
  {
    var front := OwnOffset(l);
    forall i | pos <= i < l.next && (front == [] || !(l.body + 4 <= i < l.body + 8)) ensures b[i] == a[i] {
      PatchedHead(a, b, pos, l.next, front, rest, t, i);
    }
    if front != [] {
      assert (front + rest)[0] == l.body + 4;
    } else {
      assert b[l.body + 4..l.body + 8] == a[l.body + 4..l.body + 8];
    }
  }

  lemma SetTtlsCons(x: Record, rs: seq<Record>, ttl: nat)
    ensures SetTtls([x] + rs, ttl) == [SetTtl(x, ttl)] + SetTtls(rs, ttl)
  {
    assert ([x] + rs)[1..] == rs;
  }

  /** A walk as a whole, for lemmas that do not take it apart. */
  function Walked(buf: Bytes, pos: nat, n: nat): Option<Walk> {
    WalkRecords(buf, pos, n)
  }

  function WithTtl(w: Walk, ttl: nat): Walk {
    Walk(SetTtls(w.records, ttl), w.offsets, w.end)
  }

  /** The walk goes on at `next` with `rest` behind the record `l`. */
  ghost predicate Continues(b: Bytes, pos: nat, n: nat, l: Located, rest: Option<Walk>) {
    n > 0 && ReadRecord(b, pos) == Some(l) && Walked(b, l.next, n - 1) == rest
  }

  lemma WalkOn(b: Bytes, pos: nat, n: nat, l: Located, w: Walk)
    requires Continues(b, pos, n, l, Some(w))
    ensures Walked(b, pos, n) == Some(Walk([l.rec] + w.records, OwnOffset(l) + w.offsets, w.end))
  {
    WalkStep(b, pos, n);
  }

  /** One record more in front of a patched walk. */
  lemma WalkPatchedStep(b: Bytes, pos: nat, n: nat, l: Located, l': Located, w: Walk, ttl: nat, all: Walk)
    requires l' == l.(rec := SetTtl(l.rec, ttl)) && all == Walk([l.rec] + w.records, OwnOffset(l) + w.offsets, w.end)
    requires Continues(b, pos, n, l', Some(WithTtl(w, ttl)))
    ensures Walked(b, pos, n) == Some(WithTtl(all, ttl))
  {
    WalkOn(b, pos, n, l', WithTtl(w, ttl));
    SetTtlsCons(l.rec, w.records, ttl);
  }

  /** The first record of a walk and the walk behind it, which has its offsets behind the record. */
  lemma WalkFirst(a: Bytes, pos: nat, n: nat, w: Walk) returns (l: Located, w': Walk)
    requires pos <= |a| && n > 0 && Walked(a, pos, n) == Some(w)
    ensures Continues(a, pos, n, l, Some(w')) && pos < l.body && l.body + 10 <= l.next <= |a|
    ensures w == Walk([l.rec] + w'.records, OwnOffset(l) + w'.offsets, w'.end)
    ensures forall k :: 0 <= k < |w'.offsets| ==> l.next <= w'.offsets[k]
  {
    l, w' := WalkParts(a, pos, n);
    WalkBounds(a, l.next, n - 1, w');
  }

  lemma PatchedParts(a: Bytes, b: Bytes, pos: nat, l: Located, rest: seq<nat>, all: seq<nat>, t: Bytes)
    requires |t| == 4 && pos < l.body && l.body + 10 <= l.next <= |a|
    requires forall k :: 0 <= k < |rest| ==> l.next <= rest[k]
    ensures all == OwnOffset(l) + rest && PatchedFrom(a, b, pos, all, t) ==>
              PatchedFrom(a, b, l.next, rest, t) && PatchedBody(a, b, pos, l, t)
  {
    if all == OwnOffset(l) + rest && PatchedFrom(a, b, pos, all, t) {
      PatchedTail(a, b, pos, l.next, OwnOffset(l), rest, t);
      FirstIsPatched(a, b, pos, l, rest, t);
    }
  }

  /** Patching the slots is mapping over the records, and moves no offset. */
  lemma {:induction false} WalkPatched(a: Bytes, b: Bytes, pos: nat, n: nat, t: Bytes, ttl: nat, w: Walk)
    requires |t| == 4 && U32(t) == ttl && pos <= |a| && Walked(a, pos, n) == Some(w)
    requires PatchedFrom(a, b, pos, w.offsets, t)
    ensures Walked(b, pos, n) == Some(WithTtl(w, ttl))
    decreases n
  {
    if n == 0 {
      NoWalk(a, b, pos, ttl, w);
    } else {
      var l, w' := WalkFirst(a, pos, n, w);
      PatchedParts(a, b, pos, l, w'.offsets, w.offsets, t);
      WalkPatched(a, b, l.next, n - 1, t, ttl, w');
      WalkPatchedFront(a, b, pos, n, t, ttl, l, w', w);
    }
  }

  lemma NoWalk(a: Bytes, b: Bytes, pos: nat, ttl: nat, w: Walk)
    requires Walked(a, pos, 0) == Some(w)
    ensures Walked(b, pos, 0) == Some(WithTtl(w, ttl))
  {
  }

  lemma WalkPatchedFront(a: Bytes, b: Bytes, pos: nat, n: nat, t: Bytes, ttl: nat, l: Located, w': Walk, w: Walk)
    requires |t| == 4 && U32(t) == ttl && Continues(a, pos, n, l, Some(w')) && PatchedBody(a, b, pos, l, t)
    requires w == Walk([l.rec] + w'.records, OwnOffset(l) + w'.offsets, w'.end)
    requires Walked(b, l.next, n - 1) == Some(WithTtl(w', ttl))
    ensures Walked(b, pos, n) == Some(WithTtl(w, ttl))
  {
    ReadPatched(a, b, pos, l, t);
    WalkPatchedStep(b, pos, n, l, l.(rec := SetTtl(l.rec, ttl)), w', ttl, w);
  }

  /** What a patch with the scanned offsets leaves alone, byte by byte. */
  lemma PatchedBytes(buf: Bytes, id: nat, ttl: nat)
    requires id < 0x1_0000 && ttl < 0x1_0000_0000 && TtlOffsets(buf).Some?
    ensures var offs, r := TtlOffsets(buf).value, Patch(buf, id, ttl, TtlOffsets(buf).value);
            && Separated(offs, |buf|) && |r| == |buf|
            && (forall k :: 0 <= k < |offs| ==> 12 <= offs[k])
            && r[0..2] == Be16(id)
            && PatchedFrom(buf, r, 2, offs, Be32(ttl))
  {
    var offs := TtlOffsets(buf).value;
    var q := WalkQuestions(buf, 12, CountAt(buf, 4)).value;
    WalkBounds(buf, q, RecordCount(buf), WalkRecords(buf, q, RecordCount(buf)).value);
    var b := Overwrite(buf, 0, Be16(id));
    PatchFillsSlots(b, Be32(ttl), offs);
    var r := PatchTtls(b, Be32(ttl), offs);
    forall i | 0 <= i < 2 ensures r[i] == Be16(id)[i] {
      assert !InSlot(offs, i);
    }
  }

  /** Header counts and questions are out of reach of a patch. */
  lemma PatchKeepsHeader(buf: Bytes, r: Bytes, offs: seq<nat>, t: Bytes, q: nat)
    requires 12 <= q <= |buf| && PatchedFrom(buf, r, 2, offs, t) && forall k :: 0 <= k < |offs| ==> q <= offs[k]
    ensures forall i :: 2 <= i < q ==> r[i] == buf[i]
    ensures r[2..12] == buf[2..12] && r[12..q] == buf[12..q]
    ensures CountAt(r, 4) == CountAt(buf, 4) && RecordCount(r) == RecordCount(buf)
  {
    forall i | 2 <= i < q ensures r[i] == buf[i] {
      SlotsPast(offs, q, i);
    }
  }

  /**
   Patching a scannable message sets its id and the TTL of every record but OPT,
   and changes nothing else; the patched message scans to the same offsets.
   */
  lemma PatchMapsOverRecords(buf: Bytes, id: nat, ttl: nat)
    requires id < 0x1_0000 && ttl < 0x1_0000_0000 && TtlOffsets(buf).Some?
    ensures var r := Patch(buf, id, ttl, TtlOffsets(buf).value);
            && TtlOffsets(r) == TtlOffsets(buf)
            && Parse(buf).Some?
            && Parse(r) == Some(Parse(buf).value.(id := id, records := SetTtls(Parse(buf).value.records, ttl)))
  {
    var offs := TtlOffsets(buf).value;
    var r := Patch(buf, id, ttl, offs);
    PatchedBytes(buf, id, ttl);
    var q := WalkQuestions(buf, 12, CountAt(buf, 4)).value;
    var n := RecordCount(buf);
    var w := WalkRecords(buf, q, n).value;
    WalkBounds(buf, q, n, w);
    PatchKeepsHeader(buf, r, offs, Be32(ttl), q);
    QuestionsSame(buf, r, 12, CountAt(buf, 4));
    WalkPatched(buf, r, q, n, Be32(ttl), ttl, w);
    TailUntouched(buf, r, offs, Be32(ttl), w.end);
    assert r[0] == r[0..2][0] && r[1] == r[0..2][1];
  }

  lemma TailUntouched(buf: Bytes, r: Bytes, offs: seq<nat>, t: Bytes, end: nat)
    requires 2 <= end <= |buf| && PatchedFrom(buf, r, 2, offs, t) && forall k :: 0 <= k < |offs| ==> offs[k] + 4 <= end
    ensures r[end..] == buf[end..]
  {
    forall i | end <= i < |buf| ensures r[i] == buf[i] {
      assert !InSlot(offs, i);
    }
  }

  /** Two buffers patched alike from alike beginnings are equal. */
  lemma PatchedAlike(a: Bytes, b: Bytes, x: Bytes, y: Bytes, offs: seq<nat>, t: Bytes)
    requires |a| == |b| >= 2 && PatchedFrom(a, x, 2, offs, t) && PatchedFrom(b, y, 2, offs, t) && x[0..2] == y[0..2] && |t| == 4
    requires forall i :: 2 <= i < |a| && !InSlot(offs, i) ==> a[i] == b[i]
    ensures x == y
  {
    forall i | 0 <= i < |a| ensures x[i] == y[i] {
      if i < 2 {
        assert x[i] == x[0..2][i] && y[i] == y[0..2][i];
      } else if k :| 0 <= k < |offs| && offs[k] <= i < offs[k] + 4 {
        assert x[i] == x[offs[k]..offs[k] + 4][i - offs[k]];
        assert y[i] == y[offs[k]..offs[k] + 4][i - offs[k]];
      } else {
        assert !InSlot(offs, i);
      }
    }
  }

  /** Of two patches with the same offsets, the last one wins. */
  lemma LastPatchWins(buf: Bytes, id: nat, ttl: nat, id': nat, ttl': nat)
    requires id < 0x1_0000 && ttl < 0x1_0000_0000 && id' < 0x1_0000 && ttl' < 0x1_0000_0000 && TtlOffsets(buf).Some?
    ensures var offs := TtlOffsets(buf).value;
            Patch(Patch(buf, id, ttl, offs), id', ttl', offs) == Patch(buf, id', ttl', offs)
  {
    var offs := TtlOffsets(buf).value;
    var once := Patch(buf, id, ttl, offs);
    PatchMapsOverRecords(buf, id, ttl);
    PatchedBytes(buf, id, ttl);
    PatchedBytes(once, id', ttl');
    PatchedBytes(buf, id', ttl');
    PatchedAlike(once, buf, Patch(once, id', ttl', offs), Patch(buf, id', ttl', offs), offs, Be32(ttl'));
  }

  /** No patch reaches a byte behind all its slots. */
  lemma {:induction false} BehindTheSlots(buf: Bytes, t: Bytes, offsets: seq<nat>, i: nat)
    requires i < |buf| && forall k :: 0 <= k < |offsets| ==> offsets[k] + |t| <= i
    ensures PatchTtls(buf, t, offsets)[i] == buf[i]
    decreases |offsets|
  {
    if offsets != [] {
      BehindTheSlots(Overwrite(buf, offsets[0], t), t, offsets[1..], i);
    }
  }

  /** The last byte of a slot, in a buffer patched at the scanned offsets. */
  lemma SlotByte(buf: Bytes, r: Bytes, offs: seq<nat>, t: Bytes, k: nat)
    requires |t| == 4 && k < |offs| && 2 <= offs[k] && offs[k] + 4 <= |buf| && PatchedFrom(buf, r, 2, offs, t)
    ensures r[offs[k] + 3] == t[3]
  {
    assert r[offs[k] + 3] == r[offs[k]..offs[k] + 4][3];
  }

  lemma SlotWithin(buf: Bytes, offs: seq<nat>, k: nat)
    requires TtlOffsets(buf) == Some(offs) && k < |offs|
    ensures 12 <= offs[k] && offs[k] + 4 <= |buf|
  {
    PatchedBytes(buf, 0, 0);
  }

  lemma ScannedSlot(buf: Bytes, id: nat, ttl: nat, offs: seq<nat>, k: nat)
    requires id < 0x1_0000 && ttl < 256 && TtlOffsets(buf) == Some(offs) && k < |offs|
    ensures ByteAt(Patch(buf, id, ttl, offs), offs[k] + 3, ttl)
  {
    PatchedBytes(buf, id, ttl);
    SlotByte(buf, Patch(buf, id, ttl, offs), offs, Be32(ttl), k);
    LowByte(ttl);
  }

  predicate ByteAt(b: Bytes, i: nat, v: nat) {
    i < |b| && b[i] == v
  }

  /** No 32-bit offset reaches a byte this far out. */
  lemma CutMisses(buf: Bytes, id: nat, ttl: nat, offs: seq<nat>, i: nat)
    requires id < 0x1_0000 && ttl < 0x1_0000_0000 && 0x1_0000_0003 <= i < |buf|
    ensures ByteAt(Patch(buf, id, ttl, Cut(offs)), i, buf[i])
  {
    BehindTheSlots(Overwrite(buf, 0, Be16(id)), Be32(ttl), Cut(offs), i);
  }

  lemma LowByte(ttl: nat)
    requires ttl < 256
    ensures Be32(ttl)[3] == ttl
  {
    assert ttl / 0x1_0000 == 0 && ttl % 0x1_0000 == ttl && ttl % 256 == ttl;
    assert Be32(ttl) == Be16(0) + Be16(ttl);
    assert Be16(ttl)[1] == ttl;
  }

  ghost predicate PatchesAlike(buf: Bytes, id: nat, ttl: nat, offs: seq<nat>)
    requires id < 0x1_0000
  {
    ttl < 0x1_0000_0000 ==> Patch(buf, id, ttl, Cut(offs)) == Patch(buf, id, ttl, offs)
  }

  lemma FarSlotLost(buf: Bytes, id: nat, ttl: nat, offs: seq<nat>, k: nat, i: nat)
    requires id < 0x1_0000 && TtlOffsets(buf) == Some(offs) && k < |offs| && offs[k] >= 0x1_0000_0000
    requires ttl < 256 && i == offs[k] + 3 && i < |buf| && buf[i] != ttl
    ensures !PatchesAlike(buf, id, ttl, offs)
  {
    ScannedSlot(buf, id, ttl, offs, k);
    CutMisses(buf, id, ttl, offs, i);
    NotAlike(buf, id, ttl, offs, i);
  }

  lemma NotAlike(buf: Bytes, id: nat, ttl: nat, offs: seq<nat>, i: nat)
    requires id < 0x1_0000 && ttl < 0x1_0000_0000 && i < |buf| && buf[i] != ttl
    requires ByteAt(Patch(buf, id, ttl, offs), i, ttl) && ByteAt(Patch(buf, id, ttl, Cut(offs)), i, buf[i])
    ensures !PatchesAlike(buf, id, ttl, offs)
  {
  }

  /** Patching at the stored offsets is patching at the scanned ones, for every TTL, if and only if all of them fit 32 bits. */
  lemma StoredOffsetsPatchIff(buf: Bytes, id: nat, offs: seq<nat>)
    requires id < 0x1_0000 && TtlOffsets(buf) == Some(offs)
    ensures (forall ttl: nat :: PatchesAlike(buf, id, ttl, offs)) <==> forall k :: 0 <= k < |offs| ==> offs[k] < 0x1_0000_0000
  {
    if k :| 0 <= k < |offs| && offs[k] >= 0x1_0000_0000 {
      SlotWithin(buf, offs, k);
      var i := offs[k] + 3;
      FarSlotLost(buf, id, if buf[i] == 0 then 1 else 0, offs, k, i);
    } else {
      CutFitting(offs);
    }
  }
}
