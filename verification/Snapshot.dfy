/**
 The restart snapshot of the cache: little-endian length-prefixed records behind
 a fixed header, read back with bounds and plausibility checks.
 */
module Snapshot {
  import opened Wrappers
  import opened Keys
  import opened Wire

  /** Text conversion and message parsing come from libraries. */
  datatype Lib = Lib(utf8: string -> Bytes, lossy: Bytes -> string, matches: (Bytes, QueryKey) -> bool)

  /** Lossy decoding is exact on properly encoded text. */
  ghost predicate Faithful(lib: Lib) {
    forall s :: lib.lossy(lib.utf8(s)) == s
  }

  datatype Rec = Rec(key: QueryKey, times: Times, answers: seq<string>, wire: Bytes, offsets: seq<nat>)

  datatype Times = Times(age: nat, ttl: nat, rcode: nat)

  const MAX_WIRE := 65536
  const MAX_ANSWERS := 64
  const MAX_OFFSETS := 256

  const B16 := 0x1_0000
  const B32 := 0x1_0000_0000

  function Le16(x: nat): (b: Bytes)
    ensures |b| == 2
  {
    [x % 256, x / 256 % 256]
  }

  function Le32(x: nat): (b: Bytes)
    ensures |b| == 4
  {
    Le16(x % B16) + Le16(x / B16)
  }

  // ---- writing ----

  function EncodeText(lib: Lib, s: string): Bytes {
    Le16(|lib.utf8(s)|) + lib.utf8(s)
  }

  function EncodeKind(k: QueryKey): (b: Bytes)
    ensures |b| == 5
  {
    Le16(k.rtype) + Le16(k.qclass) + [(if k.dnssecOk then 1 else 0) + (if k.checkingDisabled then 2 else 0)]
  }

  function EncodeKey(lib: Lib, k: QueryKey): Bytes {
    EncodeText(lib, k.name) + EncodeKind(k)
  }

  function EncodeTimes(t: Times): (b: Bytes)
    ensures |b| == 10
  {
    Le32(t.age) + Le32(t.ttl) + Le16(t.rcode)
  }

  function EncodeTexts(lib: Lib, texts: seq<string>): Bytes {
    if texts == [] then [] else EncodeText(lib, texts[0]) + EncodeTexts(lib, texts[1..])
  }

  function EncodeOffsets(offsets: seq<nat>): Bytes {
    if offsets == [] then [] else Le32(offsets[0]) + EncodeOffsets(offsets[1..])
  }

  function EncodeAnswers(lib: Lib, texts: seq<string>): Bytes {
    Le16(|texts|) + EncodeTexts(lib, texts)
  }

  function EncodeWire(wire: Bytes): Bytes {
    Le32(|wire|) + wire
  }

  function EncodeCounted(offsets: seq<nat>): Bytes {
    Le32(|offsets|) + EncodeOffsets(offsets)
  }

  function EncodeRecord(lib: Lib, r: Rec): Bytes {
    EncodeKey(lib, r.key) + (EncodeTimes(r.times) + (EncodeAnswers(lib, r.answers) + (EncodeWire(r.wire) + EncodeCounted(r.offsets))))
  }

  // ---- reading ----

  datatype Parsed<T> = Parsed(value: T, next: nat)

  function TakeAt(d: Bytes, pos: nat, n: nat): (r: Option<Bytes>)
    ensures r.Some? <==> pos + n <= |d|
    ensures r.Some? ==> |r.value| == n
  {
    if pos + n <= |d| then Some(d[pos..pos + n]) else None
  }

  function U16At(d: Bytes, pos: nat): (r: Option<nat>)
    ensures r.Some? <==> pos + 2 <= |d|
    ensures r.Some? ==> r.value < B16
  {
    if pos + 2 <= |d| then (var lo: int, hi: int := d[pos], d[pos + 1]; Some(lo + 256 * hi)) else None
  }

  function U32At(d: Bytes, pos: nat): (r: Option<nat>)
    ensures r.Some? <==> pos + 4 <= |d|
    ensures r.Some? ==> r.value < B32
  {
    if pos + 4 <= |d| then Some(U16At(d, pos).value + B16 * U16At(d, pos + 2).value) else None
  }

  function DecodeText(lib: Lib, d: Bytes, pos: nat): Option<Parsed<string>> {
    var n := U16At(d, pos);
    if n.None? || TakeAt(d, pos + 2, n.value).None? then None
    else Some(Parsed(lib.lossy(TakeAt(d, pos + 2, n.value).value), pos + 2 + n.value))
  }

  function DecodeKey(lib: Lib, d: Bytes, pos: nat): Option<Parsed<QueryKey>> {
    var name := DecodeText(lib, d, pos);
    if name.None? || name.value.next + 5 > |d| then None
    else
      var p := name.value.next;
      var flags := d[p + 4];
      Some(Parsed(QueryKey(name.value.value, U16At(d, p).value, U16At(d, p + 2).value,
                           flags % 2 != 0, flags / 2 % 2 != 0), p + 5))
  }

  function DecodeTimes(d: Bytes, pos: nat): Option<Parsed<Times>> {
    if pos + 10 > |d| then None
    else Some(Parsed(Times(U32At(d, pos).value, U32At(d, pos + 4).value, U16At(d, pos + 8).value), pos + 10))
  }

  function DecodeTexts(lib: Lib, d: Bytes, pos: nat, n: nat): (r: Option<Parsed<seq<string>>>)
    ensures r.Some? ==> |r.value.value| == n
    decreases n
  {
    if n == 0 then Some(Parsed([], pos))
    else
      var first := DecodeText(lib, d, pos);
      if first.None? then None
      else
        var rest := DecodeTexts(lib, d, first.value.next, n - 1);
        if rest.None? then None
        else Some(Parsed([first.value.value] + rest.value.value, rest.value.next))
  }

  function DecodeOffsets(d: Bytes, pos: nat, n: nat): (r: Option<Parsed<seq<nat>>>)
    ensures r.Some? ==> |r.value.value| == n && r.value.next == pos + 4 * n
    decreases n
  {
    if n == 0 then Some(Parsed([], pos))
    else if U32At(d, pos).None? then None
    else
      var rest := DecodeOffsets(d, pos + 4, n - 1);
      if rest.None? then None
      else Some(Parsed([U32At(d, pos).value] + rest.value.value, rest.value.next))
  }

  function DecodeAnswers(lib: Lib, d: Bytes, pos: nat): (r: Option<Parsed<seq<string>>>)
    ensures r.Some? ==> |r.value.value| <= MAX_ANSWERS
  {
    var n := U16At(d, pos);
    if n.None? || n.value > MAX_ANSWERS then None else DecodeTexts(lib, d, pos + 2, n.value)
  }

  function DecodeWire(d: Bytes, pos: nat): (r: Option<Parsed<Bytes>>)
    ensures r.Some? ==> |r.value.value| <= MAX_WIRE
  {
    var n := U32At(d, pos);
    if n.None? || n.value > MAX_WIRE || TakeAt(d, pos + 4, n.value).None? then None
    else Some(Parsed(TakeAt(d, pos + 4, n.value).value, pos + 4 + n.value))
  }

  predicate InBounds(offsets: seq<nat>, wire: Bytes) {
    forall i :: 0 <= i < |offsets| ==> offsets[i] + 4 <= |wire|
  }

  function DecodeCounted(d: Bytes, pos: nat): (r: Option<Parsed<seq<nat>>>)
    ensures r.Some? ==> |r.value.value| <= MAX_OFFSETS
  {
    var n := U32At(d, pos);
    if n.None? || n.value > MAX_OFFSETS then None else DecodeOffsets(d, pos + 4, n.value)
  }

  /** One record; whatever the bytes, its offsets lie inside its message and the message answers its key. */
  function DecodeRecord(lib: Lib, d: Bytes, pos: nat): (r: Option<Parsed<Rec>>)
    ensures r.Some? ==>
              var rec := r.value.value;
              && InBounds(rec.offsets, rec.wire) && lib.matches(rec.wire, rec.key)
              && |rec.answers| <= MAX_ANSWERS && |rec.wire| <= MAX_WIRE && |rec.offsets| <= MAX_OFFSETS
  {
    var k := DecodeKey(lib, d, pos);
    if k.None? then None else
    var t := DecodeTimes(d, k.value.next);
    if t.None? then None else
    var a := DecodeAnswers(lib, d, t.value.next);
    if a.None? then None else
    var w := DecodeWire(d, a.value.next);
    if w.None? || !lib.matches(w.value.value, k.value.value) then None else
    var o := DecodeCounted(d, w.value.next);
    if o.None? || !InBounds(o.value.value, w.value.value) then None else
    Some(Parsed(Rec(k.value.value, t.value.value, a.value.value, w.value.value, o.value.value), o.value.next))
  }

  // ---- reading what was written ----

  predicate At(d: Bytes, pos: nat, b: Bytes) {
    pos + |b| <= |d| && d[pos..pos + |b|] == b
  }

  lemma AtSplit(d: Bytes, pos: nat, a: Bytes, b: Bytes)
    requires At(d, pos, a + b)
    ensures At(d, pos, a) && At(d, pos + |a|, b)
  {
    assert d[pos..pos + |a|] == (a + b)[..|a|] == a;
    assert d[pos + |a|..pos + |a| + |b|] == (a + b)[|a|..] == b;
  }

  lemma AtByte(d: Bytes, pos: nat, b: Bytes, i: nat)
    requires At(d, pos, b) && i < |b|
    ensures d[pos + i] == b[i]
  {
    assert d[pos..pos + |b|][i] == d[pos + i];
  }

  lemma ReadsU16(d: Bytes, pos: nat, x: nat)
    requires x < B16 && At(d, pos, Le16(x))
    ensures U16At(d, pos) == Some(x)
  {
    AtByte(d, pos, Le16(x), 0);
    AtByte(d, pos, Le16(x), 1);
  }

  lemma ReadsU32(d: Bytes, pos: nat, x: nat)
    requires x < B32 && At(d, pos, Le32(x))
    ensures U32At(d, pos) == Some(x)
  {
    AtSplit(d, pos, Le16(x % B16), Le16(x / B16));
    ReadsU16(d, pos, x % B16);
    ReadsU16(d, pos + 2, x / B16);
  }

  lemma ReadsText(lib: Lib, d: Bytes, pos: nat, s: string)
    requires Faithful(lib) && |lib.utf8(s)| < B16 && At(d, pos, EncodeText(lib, s))
    ensures DecodeText(lib, d, pos) == Some(Parsed(s, pos + |EncodeText(lib, s)|))
  {
    AtSplit(d, pos, Le16(|lib.utf8(s)|), lib.utf8(s));
    ReadsU16(d, pos, |lib.utf8(s)|);
  }

  predicate KeyFits(lib: Lib, k: QueryKey) {
    |lib.utf8(k.name)| < B16 && k.rtype < B16 && k.qclass < B16
  }

  lemma ReadsKind(d: Bytes, pos: nat, k: QueryKey)
    requires k.rtype < B16 && k.qclass < B16 && At(d, pos, EncodeKind(k))
    ensures U16At(d, pos) == Some(k.rtype) && U16At(d, pos + 2) == Some(k.qclass)
    ensures (d[pos + 4] % 2 != 0) == k.dnssecOk && (d[pos + 4] / 2 % 2 != 0) == k.checkingDisabled
  {
    var flags: Bytes := [(if k.dnssecOk then 1 else 0) + (if k.checkingDisabled then 2 else 0)];
    AtSplit(d, pos, Le16(k.rtype) + Le16(k.qclass), flags);
    AtSplit(d, pos, Le16(k.rtype), Le16(k.qclass));
    ReadsU16(d, pos, k.rtype);
    ReadsU16(d, pos + 2, k.qclass);
    AtByte(d, pos + 4, flags, 0);
  }

  lemma ReadsKey(lib: Lib, d: Bytes, pos: nat, k: QueryKey)
    requires Faithful(lib) && KeyFits(lib, k) && At(d, pos, EncodeKey(lib, k))
    ensures DecodeKey(lib, d, pos) == Some(Parsed(k, pos + |EncodeKey(lib, k)|))
  {
    var name := EncodeText(lib, k.name);
    AtSplit(d, pos, name, EncodeKind(k));
    ReadsText(lib, d, pos, k.name);
    ReadsKind(d, pos + |name|, k);
  }

  predicate TimesFit(t: Times) {
    t.age < B32 && t.ttl < B32 && t.rcode < B16
  }

  lemma ReadsTimes(d: Bytes, pos: nat, t: Times)
    requires TimesFit(t) && At(d, pos, EncodeTimes(t))
    ensures DecodeTimes(d, pos) == Some(Parsed(t, pos + 10))
  {
    AtSplit(d, pos, Le32(t.age) + Le32(t.ttl), Le16(t.rcode));
    AtSplit(d, pos, Le32(t.age), Le32(t.ttl));
    ReadsU32(d, pos, t.age);
    ReadsU32(d, pos + 4, t.ttl);
    ReadsU16(d, pos + 8, t.rcode);
  }

  predicate TextsFit(lib: Lib, texts: seq<string>) {
    forall i :: 0 <= i < |texts| ==> |lib.utf8(texts[i])| < B16
  }

  lemma {:induction false} ReadsTexts(lib: Lib, d: Bytes, pos: nat, texts: seq<string>)
    requires Faithful(lib) && TextsFit(lib, texts) && At(d, pos, EncodeTexts(lib, texts))
    ensures DecodeTexts(lib, d, pos, |texts|) == Some(Parsed(texts, pos + |EncodeTexts(lib, texts)|))
    decreases |texts|
  {
    if texts != [] {
      var first := EncodeText(lib, texts[0]);
      AtSplit(d, pos, first, EncodeTexts(lib, texts[1..]));
      ReadsText(lib, d, pos, texts[0]);
      ReadsTexts(lib, d, pos + |first|, texts[1..]);
      assert texts == [texts[0]] + texts[1..];
    }
  }

  predicate OffsetsFit(offsets: seq<nat>) {
    forall i :: 0 <= i < |offsets| ==> offsets[i] < B32
  }

  lemma FirstOffset(d: Bytes, pos: nat, offsets: seq<nat>)
    requires offsets != [] && offsets[0] < B32 && At(d, pos, EncodeOffsets(offsets))
    ensures U32At(d, pos) == Some(offsets[0]) && At(d, pos + 4, EncodeOffsets(offsets[1..]))
    ensures |EncodeOffsets(offsets)| == 4 + |EncodeOffsets(offsets[1..])|
  {
    AtSplit(d, pos, Le32(offsets[0]), EncodeOffsets(offsets[1..]));
    ReadsU32(d, pos, offsets[0]);
  }

  lemma {:induction false} ReadsOffsets(d: Bytes, pos: nat, offsets: seq<nat>)
    requires OffsetsFit(offsets) && At(d, pos, EncodeOffsets(offsets))
    ensures DecodeOffsets(d, pos, |offsets|) == Some(Parsed(offsets, pos + |EncodeOffsets(offsets)|))
    decreases |offsets|
  {
    if offsets != [] {
      FirstOffset(d, pos, offsets);
      ReadsOffsets(d, pos + 4, offsets[1..]);
      assert offsets == [offsets[0]] + offsets[1..];
    }
  }

  lemma ReadsAnswers(lib: Lib, d: Bytes, pos: nat, texts: seq<string>)
    requires Faithful(lib) && TextsFit(lib, texts) && |texts| < B16 && At(d, pos, EncodeAnswers(lib, texts))
    ensures DecodeAnswers(lib, d, pos) ==
              if |texts| <= MAX_ANSWERS then Some(Parsed(texts, pos + |EncodeAnswers(lib, texts)|)) else None
  {
    AtSplit(d, pos, Le16(|texts|), EncodeTexts(lib, texts));
    ReadsU16(d, pos, |texts|);
    ReadsTexts(lib, d, pos + 2, texts);
  }

  lemma ReadsWire(d: Bytes, pos: nat, wire: Bytes)
    requires |wire| < B32 && At(d, pos, EncodeWire(wire))
    ensures DecodeWire(d, pos) == if |wire| <= MAX_WIRE then Some(Parsed(wire, pos + |EncodeWire(wire)|)) else None
  {
    AtSplit(d, pos, Le32(|wire|), wire);
    ReadsU32(d, pos, |wire|);
  }

  lemma ReadsCounted(d: Bytes, pos: nat, offsets: seq<nat>)
    requires OffsetsFit(offsets) && |offsets| < B32 && At(d, pos, EncodeCounted(offsets))
    ensures DecodeCounted(d, pos) ==
              if |offsets| <= MAX_OFFSETS then Some(Parsed(offsets, pos + |EncodeCounted(offsets)|)) else None
  {
    AtSplit(d, pos, Le32(|offsets|), EncodeOffsets(offsets));
    ReadsU32(d, pos, |offsets|);
    ReadsOffsets(d, pos + 4, offsets);
  }

  /** The fields fit the widths they are written with. */
  predicate Fits(lib: Lib, r: Rec) {
    && KeyFits(lib, r.key) && TimesFit(r.times) && TextsFit(lib, r.answers) && OffsetsFit(r.offsets)
    && |r.answers| < B16 && |r.wire| < B32 && |r.offsets| < B32
  }

  /** What the reader insists on. */
  predicate Restorable(lib: Lib, r: Rec) {
    && |r.answers| <= MAX_ANSWERS && |r.wire| <= MAX_WIRE && |r.offsets| <= MAX_OFFSETS
    && InBounds(r.offsets, r.wire) && lib.matches(r.wire, r.key)
  }

  ghost predicate Good(lib: Lib, r: Rec) {
    Faithful(lib) && Fits(lib, r)
  }

  /** Where the parts of a written record lie. */
  ghost predicate PartsAt(lib: Lib, d: Bytes, pos: nat, r: Rec, p: nat, q: nat, e: nat, f: nat) {
    && p == pos + |EncodeKey(lib, r.key)| && At(d, pos, EncodeKey(lib, r.key)) && At(d, p, EncodeTimes(r.times))
    && q == p + 10 + |EncodeAnswers(lib, r.answers)| && At(d, p + 10, EncodeAnswers(lib, r.answers))
    && e == q + |EncodeWire(r.wire)| && At(d, q, EncodeWire(r.wire))
    && f == e + |EncodeCounted(r.offsets)| && At(d, e, EncodeCounted(r.offsets))
  }

  lemma RecordParts(lib: Lib, d: Bytes, pos: nat, r: Rec) returns (p: nat, q: nat, e: nat, f: nat)
    requires At(d, pos, EncodeRecord(lib, r))
    ensures PartsAt(lib, d, pos, r, p, q, e, f) && f == pos + |EncodeRecord(lib, r)|
  {
    var k, t, a := EncodeKey(lib, r.key), EncodeTimes(r.times), EncodeAnswers(lib, r.answers);
    var w, o := EncodeWire(r.wire), EncodeCounted(r.offsets);
    p, q, e := pos + |k|, pos + |k| + 10 + |a|, pos + |k| + 10 + |a| + |w|;
    f := e + |o|;
    AtSplit(d, pos, k, t + (a + (w + o)));
    AtSplit(d, p, t, a + (w + o));
    AtSplit(d, p + 10, a, w + o);
    AtSplit(d, q, w, o);
  }

  ghost predicate FrontRead(lib: Lib, d: Bytes, pos: nat, r: Rec, p: nat) {
    DecodeKey(lib, d, pos) == Some(Parsed(r.key, p)) && DecodeTimes(d, p) == Some(Parsed(r.times, p + 10))
  }

  ghost predicate BackRead(lib: Lib, d: Bytes, r: Rec, p: nat, q: nat, e: nat, f: nat) {
    && DecodeAnswers(lib, d, p + 10) == (if |r.answers| <= MAX_ANSWERS then Some(Parsed(r.answers, q)) else None)
    && DecodeWire(d, q) == (if |r.wire| <= MAX_WIRE then Some(Parsed(r.wire, e)) else None)
    && DecodeCounted(d, e) == (if |r.offsets| <= MAX_OFFSETS then Some(Parsed(r.offsets, f)) else None)
  }

  lemma ReadsFront(lib: Lib, d: Bytes, pos: nat, r: Rec, p: nat, q: nat, e: nat, f: nat)
    ensures Good(lib, r) && PartsAt(lib, d, pos, r, p, q, e, f) ==> FrontRead(lib, d, pos, r, p)
  {
    if Good(lib, r) && PartsAt(lib, d, pos, r, p, q, e, f) {
      ReadsKey(lib, d, pos, r.key);
      ReadsTimes(d, p, r.times);
    }
  }

  lemma ReadsBack(lib: Lib, d: Bytes, pos: nat, r: Rec, p: nat, q: nat, e: nat, f: nat)
    ensures Good(lib, r) && PartsAt(lib, d, pos, r, p, q, e, f) ==> BackRead(lib, d, r, p, q, e, f)
  {
    if Good(lib, r) && PartsAt(lib, d, pos, r, p, q, e, f) {
      ReadsAnswers(lib, d, p + 10, r.answers);
      ReadsWire(d, q, r.wire);
      ReadsCounted(d, e, r.offsets);
    }
  }

  ghost predicate FieldsRead(lib: Lib, d: Bytes, pos: nat, r: Rec, f: nat) {
    exists p: nat, q: nat, e: nat :: FrontRead(lib, d, pos, r, p) && BackRead(lib, d, r, p, q, e, f)
  }

  lemma ReadsFields(lib: Lib, d: Bytes, pos: nat, r: Rec, p: nat, q: nat, e: nat, f: nat)
    ensures Good(lib, r) && PartsAt(lib, d, pos, r, p, q, e, f) ==> FieldsRead(lib, d, pos, r, f)
  {
    ReadsFront(lib, d, pos, r, p, q, e, f);
    ReadsBack(lib, d, pos, r, p, q, e, f);
  }

  lemma ReadsWritten(lib: Lib, d: Bytes, pos: nat, r: Rec, f: nat)
    ensures Good(lib, r) && At(d, pos, EncodeRecord(lib, r)) && f == pos + |EncodeRecord(lib, r)| ==> FieldsRead(lib, d, pos, r, f)
  {
    if At(d, pos, EncodeRecord(lib, r)) {
      var p, q, e, g := RecordParts(lib, d, pos, r);
      ReadsFields(lib, d, pos, r, p, q, e, g);
    }
  }

  lemma Assembled(lib: Lib, d: Bytes, pos: nat, r: Rec, f: nat)
    ensures FieldsRead(lib, d, pos, r, f) ==> ReadAs(lib, d, pos, r, f)
  {
  }

  /** The record at `pos` is read as `r`, up to `f`, if and only if `r` is restorable. */
  ghost predicate ReadAs(lib: Lib, d: Bytes, pos: nat, r: Rec, f: nat) {
    DecodeRecord(lib, d, pos) == if Restorable(lib, r) then Some(Parsed(r, f)) else None
  }

  /** Reading a written record gives it back and consumes exactly its bytes, if and only if it is restorable. */
  lemma RecordRoundTripIff(lib: Lib, d: Bytes, pos: nat, r: Rec, next: nat)
    ensures Good(lib, r) && At(d, pos, EncodeRecord(lib, r)) && next == pos + |EncodeRecord(lib, r)| ==> ReadAs(lib, d, pos, r, next)
  {
    ReadsWritten(lib, d, pos, r, next);
    Assembled(lib, d, pos, r, next);
  }

  // ---- a shorter buffer reads the same, or not at all ----

  lemma ShorterText(lib: Lib, d: Bytes, n: nat, pos: nat)
    requires n <= |d|
    ensures var r := DecodeText(lib, d[..n], pos); r.Some? ==> r == DecodeText(lib, d, pos) && r.value.next <= n
  {
    var r := DecodeText(lib, d[..n], pos);
    if r.Some? {
      var len := U16At(d, pos).value;
      assert d[..n][pos + 2..pos + 2 + len] == d[pos + 2..pos + 2 + len];
    }
  }

  lemma ShorterU16(d: Bytes, n: nat, pos: nat)
    requires n <= |d|
    ensures var r := U16At(d[..n], pos); r.Some? ==> r == U16At(d, pos)
  {
  }

  lemma ShorterU32(d: Bytes, n: nat, pos: nat)
    requires n <= |d|
    ensures var r := U32At(d[..n], pos); r.Some? ==> r == U32At(d, pos)
  {
  }

  lemma ShorterKey(lib: Lib, d: Bytes, n: nat, pos: nat)
    requires n <= |d|
    ensures var r := DecodeKey(lib, d[..n], pos); r.Some? ==> r == DecodeKey(lib, d, pos) && r.value.next <= n
  {
    ShorterText(lib, d, n, pos);
    var name := DecodeText(lib, d[..n], pos);
    if name.Some? {
      ShorterU16(d, n, name.value.next);
      ShorterU16(d, n, name.value.next + 2);
    }
  }

  lemma ShorterTimes(d: Bytes, n: nat, pos: nat)
    requires n <= |d|
    ensures var r := DecodeTimes(d[..n], pos); r.Some? ==> r == DecodeTimes(d, pos) && r.value.next <= n
  {
    ShorterU32(d, n, pos);
    ShorterU32(d, n, pos + 4);
    ShorterU16(d, n, pos + 8);
  }

  lemma {:induction false} ShorterTexts(lib: Lib, d: Bytes, n: nat, pos: nat, k: nat)
    requires n <= |d|
    ensures var r := DecodeTexts(lib, d[..n], pos, k);
            r.Some? ==> r == DecodeTexts(lib, d, pos, k) && (pos <= n ==> r.value.next <= n)
    decreases k
  {
    if k > 0 {
      ShorterText(lib, d, n, pos);
      var first := DecodeText(lib, d[..n], pos);
      if first.Some? {
        ShorterTexts(lib, d, n, first.value.next, k - 1);
      }
    }
  }

  lemma {:induction false} ShorterOffsets(d: Bytes, n: nat, pos: nat, k: nat)
    requires n <= |d|
    ensures var r := DecodeOffsets(d[..n], pos, k);
            r.Some? ==> r == DecodeOffsets(d, pos, k) && (pos <= n ==> r.value.next <= n)
    decreases k
  {
    if k > 0 {
      ShorterU32(d, n, pos);
      ShorterOffsets(d, n, pos + 4, k - 1);
    }
  }

  lemma ShorterAnswers(lib: Lib, d: Bytes, n: nat, pos: nat)
    requires n <= |d|
    ensures var r := DecodeAnswers(lib, d[..n], pos); r.Some? ==> r == DecodeAnswers(lib, d, pos) && r.value.next <= n
  {
    ShorterU16(d, n, pos);
    if U16At(d[..n], pos).Some? {
      ShorterTexts(lib, d, n, pos + 2, U16At(d[..n], pos).value);
    }
  }

  lemma ShorterWire(d: Bytes, n: nat, pos: nat)
    requires n <= |d|
    ensures var r := DecodeWire(d[..n], pos); r.Some? ==> r == DecodeWire(d, pos) && r.value.next <= n
  {
    ShorterU32(d, n, pos);
    if DecodeWire(d[..n], pos).Some? {
      var len := U32At(d[..n], pos).value;
      assert d[..n][pos + 4..pos + 4 + len] == d[pos + 4..pos + 4 + len];
    }
  }

  lemma ShorterCounted(d: Bytes, n: nat, pos: nat)
    requires n <= |d|
    ensures var r := DecodeCounted(d[..n], pos); r.Some? ==> r == DecodeCounted(d, pos) && r.value.next <= n
  {
    ShorterU32(d, n, pos);
    if U32At(d[..n], pos).Some? {
      ShorterOffsets(d, n, pos + 4, U32At(d[..n], pos).value);
    }
  }

  lemma ShorterRecord(lib: Lib, d: Bytes, n: nat, pos: nat)
    requires n <= |d|
    ensures var r := DecodeRecord(lib, d[..n], pos); r.Some? ==> r == DecodeRecord(lib, d, pos) && r.value.next <= n
  {
    var s := d[..n];
    if DecodeRecord(lib, s, pos).Some? {
      ShorterKey(lib, d, n, pos);
      var k := DecodeKey(lib, s, pos).value;
      ShorterTimes(d, n, k.next);
      var t := DecodeTimes(s, k.next).value;
      ShorterAnswers(lib, d, n, t.next);
      var a := DecodeAnswers(lib, s, t.next).value;
      ShorterWire(d, n, a.next);
      ShorterCounted(d, n, DecodeWire(s, a.next).value.next);
    }
  }

  // ---- whole snapshots ----

  function EncodeAll(lib: Lib, recs: seq<Rec>): Bytes {
    if recs == [] then [] else EncodeRecord(lib, recs[0]) + EncodeAll(lib, recs[1..])
  }

  /** Records in a row, up to the first that does not read. */
  function DecodeAll(lib: Lib, d: Bytes, pos: nat, count: nat): seq<Rec>
    decreases count
  {
    if count == 0 || DecodeRecord(lib, d, pos).None? then []
    else
      var p := DecodeRecord(lib, d, pos).value;
      [p.value] + DecodeAll(lib, d, p.next, count - 1)
  }

  /** How many leading records are whole within `n` bytes and restorable. */
  function Leading(lib: Lib, recs: seq<Rec>, n: int): (k: nat)
    ensures k <= |recs|
  {
    if recs == [] || |EncodeRecord(lib, recs[0])| > n || !Restorable(lib, recs[0]) then 0
    else 1 + Leading(lib, recs[1..], n - |EncodeRecord(lib, recs[0])|)
  }

  ghost predicate AllFit(lib: Lib, recs: seq<Rec>) {
    forall i :: 0 <= i < |recs| ==> Fits(lib, recs[i])
  }

  lemma AtWithin(d: Bytes, n: nat, pos: nat, b: Bytes)
    requires At(d, pos, b) && pos + |b| <= n <= |d|
    ensures At(d[..n], pos, b)
  {
    assert d[..n][pos..pos + |b|] == d[pos..pos + |b|];
  }

  lemma WholeRecord(lib: Lib, d: Bytes, n: nat, pos: nat, r: Rec, s: Bytes, next: nat)
    requires n <= |d| && s == d[..n]
    ensures Good(lib, r) && At(d, pos, EncodeRecord(lib, r)) && next == pos + |EncodeRecord(lib, r)| && next <= n
            ==> ReadAs(lib, s, pos, r, next)
  {
    var b := EncodeRecord(lib, r);
    if At(d, pos, b) && pos + |b| <= n {
      AtWithin(d, n, pos, b);
    }
    RecordRoundTripIff(lib, s, pos, r, next);
  }

  lemma CutRecord(lib: Lib, d: Bytes, n: nat, pos: nat, r: Rec, s: Bytes, next: nat)
    requires n <= |d| && s == d[..n]
    ensures ReadAs(lib, d, pos, r, next) && n < next ==> DecodeRecord(lib, s, pos) == None
  {
    ShorterRecord(lib, d, n, pos);
  }

  /** A record in a truncated buffer reads whole or not at all. */
  lemma TruncatedRecord(lib: Lib, d: Bytes, n: nat, pos: nat, r: Rec, s: Bytes, next: nat)
    requires n <= |d| && s == d[..n]
    ensures Good(lib, r) && At(d, pos, EncodeRecord(lib, r)) && next == pos + |EncodeRecord(lib, r)| ==>
              if next <= n then ReadAs(lib, s, pos, r, next) else DecodeRecord(lib, s, pos) == None
  {
    WholeRecord(lib, d, n, pos, r, s, next);
    RecordRoundTripIff(lib, d, pos, r, next);
    CutRecord(lib, d, n, pos, r, s, next);
  }

  lemma DecodeCons(lib: Lib, s: Bytes, pos: nat, count: nat, r: Rec, next: nat)
    requires count > 0
    ensures DecodeRecord(lib, s, pos) == Some(Parsed(r, next)) ==> DecodeAll(lib, s, pos, count) == [r] + DecodeAll(lib, s, next, count - 1)
  {
  }

  lemma PrefixCons(recs: seq<Rec>, k: nat)
    requires k < |recs|
    ensures recs[..k + 1] == [recs[0]] + recs[1..][..k]
  {
  }

  lemma SplitAll(lib: Lib, d: Bytes, pos: nat, recs: seq<Rec>, r: Rec, rest: seq<Rec>)
    requires recs != [] && r == recs[0] && rest == recs[1..] && At(d, pos, EncodeAll(lib, recs))
    ensures At(d, pos, EncodeRecord(lib, r)) && At(d, pos + |EncodeRecord(lib, r)|, EncodeAll(lib, rest))
  {
    AtSplit(d, pos, EncodeRecord(lib, r), EncodeAll(lib, rest));
  }

  lemma LeadingIs(lib: Lib, recs: seq<Rec>, rest: seq<Rec>, n: int, len: nat)
    requires recs != [] && rest == recs[1..] && len == |EncodeRecord(lib, recs[0])|
    ensures Leading(lib, recs, n) == if Restorable(lib, recs[0]) && len <= n then 1 + Leading(lib, rest, n - len) else 0
  {
  }

  lemma PrefixStep(lib: Lib, s: Bytes, pos: nat, recs: seq<Rec>, rest: seq<Rec>, next: nat, k: nat, all: nat)
    requires recs != [] && rest == recs[1..] && k <= |rest|
    requires DecodeRecord(lib, s, pos) == if all > 0 then Some(Parsed(recs[0], next)) else None
    requires DecodeAll(lib, s, next, |rest|) == rest[..k] && (all == 0 || all == k + 1)
    ensures DecodeAll(lib, s, pos, |recs|) == recs[..all]
  {
    if all > 0 {
      DecodeCons(lib, s, pos, |recs|, recs[0], next);
      PrefixCons(recs, k);
    }
  }

  lemma FirstStep(lib: Lib, d: Bytes, n: nat, pos: nat, recs: seq<Rec>, rest: seq<Rec>, s: Bytes) returns (next: nat)
    requires recs != [] && rest == recs[1..] && Good(lib, recs[0])
    requires At(d, pos, EncodeAll(lib, recs)) && n <= |d| && s == d[..n]
    ensures At(d, next, EncodeAll(lib, rest))
    ensures DecodeRecord(lib, s, pos) == if Leading(lib, recs, n - pos) > 0 then Some(Parsed(recs[0], next)) else None
    ensures Leading(lib, recs, n - pos) == 0 || Leading(lib, recs, n - pos) == Leading(lib, rest, n - next) + 1
  {
    var r := recs[0];
    SplitAll(lib, d, pos, recs, r, rest);
    next := pos + |EncodeRecord(lib, r)|;
    TruncatedRecord(lib, d, n, pos, r, s, next);
    StepReads(lib, n, pos, recs, rest, s, next);
  }

  lemma StepReads(lib: Lib, n: nat, pos: nat, recs: seq<Rec>, rest: seq<Rec>, s: Bytes, next: nat)
    requires recs != [] && rest == recs[1..] && next == pos + |EncodeRecord(lib, recs[0])|
    ensures (if next <= n then ReadAs(lib, s, pos, recs[0], next) else DecodeRecord(lib, s, pos) == None) ==>
              DecodeRecord(lib, s, pos) == if Leading(lib, recs, n - pos) > 0 then Some(Parsed(recs[0], next)) else None
    ensures Leading(lib, recs, n - pos) == 0 || Leading(lib, recs, n - pos) == Leading(lib, rest, n - next) + 1
  {
    LeadingIs(lib, recs, rest, n - pos, next - pos);
  }

  /** Any truncation restores exactly the whole records before the first unrestorable one. */
  lemma {:induction false} TruncationRestoresPrefix(lib: Lib, d: Bytes, n: nat, pos: nat, recs: seq<Rec>)
    requires Faithful(lib) && AllFit(lib, recs) && At(d, pos, EncodeAll(lib, recs)) && n <= |d|
    ensures DecodeAll(lib, d[..n], pos, |recs|) == recs[..Leading(lib, recs, n - pos)]
    decreases |recs|
  {
    if recs != [] {
      var rest, s := recs[1..], d[..n];
      var next := FirstStep(lib, d, n, pos, recs, rest, s);
      TruncationRestoresPrefix(lib, d, n, next, rest);
      PrefixStep(lib, s, pos, recs, rest, next, Leading(lib, rest, n - next), Leading(lib, recs, n - pos));
    }
  }

  ghost predicate AllRestorable(lib: Lib, recs: seq<Rec>) {
    forall i :: 0 <= i < |recs| ==> Restorable(lib, recs[i])
  }

  lemma {:induction false} LeadingAllIff(lib: Lib, recs: seq<Rec>)
    ensures Leading(lib, recs, |EncodeAll(lib, recs)|) == |recs| <==> AllRestorable(lib, recs)
    decreases |recs|
  {
    if recs != [] {
      LeadingIs(lib, recs, recs[1..], |EncodeAll(lib, recs)|, |EncodeRecord(lib, recs[0])|);
      LeadingAllIff(lib, recs[1..]);
      assert AllRestorable(lib, recs) <==> Restorable(lib, recs[0]) && AllRestorable(lib, recs[1..]);
    }
  }

  // ---- header and records ----

  const MAGIC: Bytes := [66, 76, 87, 75, 67, 83, 78, 50]

  function Le64(x: nat): (b: Bytes)
    ensures |b| == 8
  {
    Le32(x % B32) + Le32(x / B32)
  }

  function U64At(d: Bytes, pos: nat): (r: Option<nat>)
    ensures r.Some? <==> pos + 8 <= |d|
  {
    if pos + 8 <= |d| then Some(U32At(d, pos).value + B32 * U32At(d, pos + 4).value) else None
  }

  const HEADER := 20

  function EncodeHeader(unix: nat, count: nat): (b: Bytes)
    ensures |b| == HEADER
  {
    MAGIC + (Le64(unix) + Le32(count))
  }

  function EncodeSnapshot(lib: Lib, unix: nat, recs: seq<Rec>): Bytes {
    EncodeHeader(unix, |recs|) + EncodeAll(lib, recs)
  }

  datatype Contents = Contents(unix: nat, recs: seq<Rec>)

  function DecodeSnapshot(lib: Lib, d: Bytes): Option<Contents> {
    if TakeAt(d, 0, 8) != Some(MAGIC) || U64At(d, 8).None? || U32At(d, 16).None? then None
    else Some(Contents(U64At(d, 8).value, DecodeAll(lib, d, HEADER, U32At(d, 16).value)))
  }

  lemma ReadsU64(d: Bytes, pos: nat, x: nat)
    requires x < B32 * B32 && At(d, pos, Le64(x))
    ensures U64At(d, pos) == Some(x)
  {
    AtSplit(d, pos, Le32(x % B32), Le32(x / B32));
    ReadsU32(d, pos, x % B32);
    ReadsU32(d, pos + 4, x / B32);
  }

  ghost predicate HeaderRead(d: Bytes, unix: nat, count: nat) {
    TakeAt(d, 0, 8) == Some(MAGIC) && U64At(d, 8) == Some(unix) && U32At(d, 16) == Some(count)
  }

  lemma ReadsHeader(d: Bytes, unix: nat, count: nat)
    requires unix < B32 * B32 && count < B32 && At(d, 0, EncodeHeader(unix, count))
    ensures HeaderRead(d, unix, count)
  {
    AtSplit(d, 0, MAGIC, Le64(unix) + Le32(count));
    AtSplit(d, 8, Le64(unix), Le32(count));
    ReadsU64(d, 8, unix);
    ReadsU32(d, 16, count);
  }

  lemma HeaderAt(h: Bytes, body: Bytes, d: Bytes, n: nat, s: Bytes)
    requires d == h + body && |h| == HEADER <= n <= |d| && s == d[..n]
    ensures At(s, 0, h) && At(d, HEADER, body)
  {
    assert s[0..HEADER] == h;
    assert d[HEADER..HEADER + |body|] == body;
  }

  lemma SnapshotIs(lib: Lib, s: Bytes, unix: nat, count: nat, recs: seq<Rec>)
    ensures HeaderRead(s, unix, count) && DecodeAll(lib, s, HEADER, count) == recs
            ==> DecodeSnapshot(lib, s) == Some(Contents(unix, recs))
  {
  }

  /**
   An import of any truncation past the header restores a prefix of the exported
   records: the whole ones, up to the first the reader refuses.
   */
  lemma SnapshotRoundTrip(lib: Lib, unix: nat, recs: seq<Rec>, n: nat)
    requires Faithful(lib) && AllFit(lib, recs) && unix < B32 * B32 && |recs| < B32
    requires HEADER <= n <= |EncodeSnapshot(lib, unix, recs)|
    ensures DecodeSnapshot(lib, EncodeSnapshot(lib, unix, recs)[..n])
            == Some(Contents(unix, recs[..Leading(lib, recs, n - HEADER)]))
  {
    var d := EncodeSnapshot(lib, unix, recs);
    var s := d[..n];
    HeaderAt(EncodeHeader(unix, |recs|), EncodeAll(lib, recs), d, n, s);
    ReadsHeader(s, unix, |recs|);
    TruncationRestoresPrefix(lib, d, n, HEADER, recs);
    SnapshotIs(lib, s, unix, |recs|, recs[..Leading(lib, recs, n - HEADER)]);
  }

  /** A whole snapshot is restored in full if and only if every record in it is restorable. */
  lemma SnapshotRestoredIff(lib: Lib, unix: nat, recs: seq<Rec>)
    requires Faithful(lib) && AllFit(lib, recs) && unix < B32 * B32 && |recs| < B32
    ensures DecodeSnapshot(lib, EncodeSnapshot(lib, unix, recs)) == Some(Contents(unix, recs)) <==> AllRestorable(lib, recs)
  {
    var d := EncodeSnapshot(lib, unix, recs);
    SnapshotRoundTrip(lib, unix, recs, |d|);
    assert d[..|d|] == d;
    LeadingAllIff(lib, recs);
    var k := Leading(lib, recs, |EncodeAll(lib, recs)|);
    assert recs[..k] == recs <==> k == |recs|;
  }

  /** One refused record, here one with too many answers, takes all later ones with it. */
  lemma OversizeRecordDropsTheRest(lib: Lib, unix: nat, big: Rec, rest: seq<Rec>)
    requires Faithful(lib) && AllFit(lib, [big] + rest) && unix < B32 * B32 && |rest| < B32 - 1
    requires |big.answers| > MAX_ANSWERS
    ensures DecodeSnapshot(lib, EncodeSnapshot(lib, unix, [big] + rest)) == Some(Contents(unix, []))
  {
    var d := EncodeSnapshot(lib, unix, [big] + rest);
    SnapshotRoundTrip(lib, unix, [big] + rest, |d|);
    assert d[..|d|] == d;
  }
}
