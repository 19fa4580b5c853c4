/**
 Records of any size. Lengths of texts are written in sixteen bits, so a longer
 text is cut on reading and its tail is taken for the fields that follow.
 */
module SnapshotLimits {
  import opened Wrappers
  import opened Keys
  import opened Wire
  import opened Snapshot

  /** A text too long for its length field does not come back from the bytes that are left of it. */
  ghost predicate CutShows(lib: Lib) {
    forall s :: |lib.utf8(s)| >= B16 ==> lib.lossy(lib.utf8(s)[..|lib.utf8(s)| % B16]) != s
  }

  /** The numbers have the widths of their types; lengths are open. */
  predicate Typed(r: Rec) {
    r.key.rtype < B16 && r.key.qclass < B16 && TimesFit(r.times) && OffsetsFit(r.offsets)
  }

  predicate TextFits(lib: Lib, s: string) {
    |lib.utf8(s)| < B16
  }

  /** What a record must meet to be written and read back. */
  predicate Keepable(lib: Lib, r: Rec) {
    Restorable(lib, r) && TextFits(lib, r.key.name) && TextsFit(lib, r.answers)
  }

  lemma ReadsLow16(d: Bytes, pos: nat, x: nat)
    requires At(d, pos, Le16(x))
    ensures U16At(d, pos) == Some(x % B16)
  {
    LowBytes(x);
    ReadsU16(d, pos, x % B16);
  }

  lemma LowBytes(x: nat)
    ensures Le16(x) == Le16(x % B16)
  {
    var k := x / B16;
    assert x == k * B16 + x % B16;
    assert x % 256 == x % B16 % 256;
    assert x / 256 == k * 256 + x % B16 / 256;
  }

  lemma KeptTextFits(lib: Lib, d: Bytes, pos: nat, s: string)
    requires CutShows(lib) && At(d, pos, EncodeText(lib, s))
    requires DecodeText(lib, d, pos).Some? && DecodeText(lib, d, pos).value.value == s
    ensures TextFits(lib, s)
  {
    var b := lib.utf8(s);
    AtSplit(d, pos, Le16(|b|), b);
    ReadsLow16(d, pos, |b|);
    var n := |b| % B16;
    assert d[pos + 2..pos + 2 + n] == d[pos + 2..pos + 2 + |b|][..n] == b[..n];
  }

  /** The texts stand at `pos` and are read back from there. */
  ghost predicate TextsKept(lib: Lib, d: Bytes, pos: nat, texts: seq<string>) {
    && At(d, pos, EncodeTexts(lib, texts))
    && DecodeTexts(lib, d, pos, |texts|).Some? && DecodeTexts(lib, d, pos, |texts|).value.value == texts
  }

  lemma {:induction false} KeptTextsFit(lib: Lib, d: Bytes, pos: nat, texts: seq<string>)
    requires Faithful(lib) && CutShows(lib) && TextsKept(lib, d, pos, texts)
    ensures TextsFit(lib, texts)
    decreases |texts|
  {
    if texts != [] {
      var next := pos + |EncodeText(lib, texts[0])|;
      FirstTextFits(lib, d, pos, texts, texts[1..], next);
      KeptTextsFit(lib, d, next, texts[1..]);
      ConsFits(lib, texts, texts[1..]);
    }
  }

  lemma ConsFits(lib: Lib, texts: seq<string>, rest: seq<string>)
    requires texts != [] && rest == texts[1..] && TextFits(lib, texts[0]) && TextsFit(lib, rest)
    ensures TextsFit(lib, texts)
  {
    assert forall i :: 0 < i < |texts| ==> texts[i] == rest[i - 1];
  }

  lemma FirstTextFits(lib: Lib, d: Bytes, pos: nat, texts: seq<string>, rest: seq<string>, next: nat)
    requires Faithful(lib) && CutShows(lib) && TextsKept(lib, d, pos, texts)
    requires texts != [] && rest == texts[1..] && next == pos + |EncodeText(lib, texts[0])|
    ensures TextFits(lib, texts[0]) && TextsKept(lib, d, next, rest)
  {
    var s := texts[0];
    AtSplit(d, pos, EncodeText(lib, s), EncodeTexts(lib, rest));
    var head := DecodeText(lib, d, pos).value;
    FirstKept(lib, d, pos, texts, head.value, head.next);
    OneTextFits(lib, d, pos, s, head, next);
  }

  lemma OneTextFits(lib: Lib, d: Bytes, pos: nat, s: string, head: Parsed<string>, next: nat)
    requires Faithful(lib) && CutShows(lib) && At(d, pos, EncodeText(lib, s)) && DecodeText(lib, d, pos) == Some(head)
    ensures head.value == s && next == pos + |EncodeText(lib, s)| ==> TextFits(lib, s) && head.next == next
  {
    if head.value == s {
      KeptTextFits(lib, d, pos, s);
      ReadsText(lib, d, pos, s);
    }
  }

  lemma FirstKept(lib: Lib, d: Bytes, pos: nat, texts: seq<string>, head: string, next: nat)
    requires texts != [] && DecodeTexts(lib, d, pos, |texts|).Some? && DecodeTexts(lib, d, pos, |texts|).value.value == texts
    requires DecodeText(lib, d, pos) == Some(Parsed(head, next))
    ensures head == texts[0]
    ensures DecodeTexts(lib, d, next, |texts| - 1).Some? && DecodeTexts(lib, d, next, |texts| - 1).value.value == texts[1..]
  {
    var rest := DecodeTexts(lib, d, next, |texts| - 1).value.value;
    assert texts == [head] + rest;
    assert texts[1..] == rest;
  }

  ghost predicate Kept(lib: Lib, d: Bytes, pos: nat, r: Rec) {
    DecodeRecord(lib, d, pos).Some? && DecodeRecord(lib, d, pos).value.value == r
  }

  lemma KeptNameFits(lib: Lib, d: Bytes, pos: nat, r: Rec)
    requires CutShows(lib) && At(d, pos, EncodeKey(lib, r.key)) && Kept(lib, d, pos, r)
    ensures TextFits(lib, r.key.name)
  {
    AtSplit(d, pos, EncodeText(lib, r.key.name), EncodeKind(r.key));
    KeptTextFits(lib, d, pos, r.key.name);
  }

  lemma KeptAnswersFit(lib: Lib, d: Bytes, pos: nat, r: Rec, p: nat)
    requires Faithful(lib) && CutShows(lib) && At(d, p + 10, EncodeAnswers(lib, r.answers)) && Kept(lib, d, pos, r)
    requires FrontRead(lib, d, pos, r, p)
    ensures TextsFit(lib, r.answers)
  {
    AtSplit(d, p + 10, Le16(|r.answers|), EncodeTexts(lib, r.answers));
    ReadsU16(d, p + 10, |r.answers|);
    KeptTextsFit(lib, d, p + 12, r.answers);
  }

  ghost predicate Placed(lib: Lib, d: Bytes, pos: nat, r: Rec, p: nat, q: nat, e: nat, f: nat) {
    Faithful(lib) && CutShows(lib) && Typed(r) && PartsAt(lib, d, pos, r, p, q, e, f) && Kept(lib, d, pos, r)
  }

  lemma KeptName(lib: Lib, d: Bytes, pos: nat, r: Rec, p: nat, q: nat, e: nat, f: nat)
    ensures Placed(lib, d, pos, r, p, q, e, f) ==> TextFits(lib, r.key.name)
  {
    if Placed(lib, d, pos, r, p, q, e, f) {
      KeptNameFits(lib, d, pos, r);
    }
  }

  lemma KeyPlaced(lib: Lib, d: Bytes, pos: nat, k: QueryKey, p: nat)
    ensures Faithful(lib) && KeyFits(lib, k) && At(d, pos, EncodeKey(lib, k)) && p == pos + |EncodeKey(lib, k)| ==>
              DecodeKey(lib, d, pos) == Some(Parsed(k, p))
  {
    if Faithful(lib) && KeyFits(lib, k) && At(d, pos, EncodeKey(lib, k)) {
      ReadsKey(lib, d, pos, k);
    }
  }

  lemma TimesPlaced(d: Bytes, p: nat, t: Times)
    ensures TimesFit(t) && At(d, p, EncodeTimes(t)) ==> DecodeTimes(d, p) == Some(Parsed(t, p + 10))
  {
    if TimesFit(t) && At(d, p, EncodeTimes(t)) {
      ReadsTimes(d, p, t);
    }
  }

  lemma KeptFront(lib: Lib, d: Bytes, pos: nat, r: Rec, p: nat, q: nat, e: nat, f: nat)
    ensures Placed(lib, d, pos, r, p, q, e, f) ==> TextFits(lib, r.key.name) && FrontRead(lib, d, pos, r, p)
  {
    KeptName(lib, d, pos, r, p, q, e, f);
    KeyPlaced(lib, d, pos, r.key, p);
    TimesPlaced(d, p, r.times);
  }

  lemma KeptBack(lib: Lib, d: Bytes, pos: nat, r: Rec, p: nat, q: nat, e: nat, f: nat)
    ensures Placed(lib, d, pos, r, p, q, e, f) && FrontRead(lib, d, pos, r, p) ==> TextsFit(lib, r.answers)
  {
    if Placed(lib, d, pos, r, p, q, e, f) && FrontRead(lib, d, pos, r, p) {
      KeptAnswersFit(lib, d, pos, r, p);
    }
  }

  lemma KeptIsRestorable(lib: Lib, d: Bytes, pos: nat, r: Rec)
    ensures Kept(lib, d, pos, r) ==> Restorable(lib, r)
  {
  }

  lemma KeptParts(lib: Lib, d: Bytes, pos: nat, r: Rec, p: nat, q: nat, e: nat, f: nat)
    ensures Placed(lib, d, pos, r, p, q, e, f) ==> Keepable(lib, r)
  {
    KeptFront(lib, d, pos, r, p, q, e, f);
    KeptBack(lib, d, pos, r, p, q, e, f);
    KeptIsRestorable(lib, d, pos, r);
  }

  lemma KeptIsKeepable(lib: Lib, d: Bytes, pos: nat, r: Rec)
    requires Faithful(lib) && CutShows(lib) && Typed(r) && At(d, pos, EncodeRecord(lib, r)) && Kept(lib, d, pos, r)
    ensures Keepable(lib, r)
  {
    var p, q, e, f := RecordParts(lib, d, pos, r);
    KeptParts(lib, d, pos, r, p, q, e, f);
  }

  /** A written record is read back if and only if it is restorable and none of its texts exceeds 65535 bytes. */
  lemma RecordKeptIff(lib: Lib, d: Bytes, pos: nat, r: Rec, next: nat)
    requires Faithful(lib) && CutShows(lib) && Typed(r)
    requires At(d, pos, EncodeRecord(lib, r)) && next == pos + |EncodeRecord(lib, r)|
    ensures Kept(lib, d, pos, r) <==> Keepable(lib, r)
    ensures Kept(lib, d, pos, r) ==> DecodeRecord(lib, d, pos) == Some(Parsed(r, next))
  {
    if Kept(lib, d, pos, r) {
      KeptIsKeepable(lib, d, pos, r);
    }
    RecordRoundTripIff(lib, d, pos, r, next);
  }

  ghost predicate AllKeepable(lib: Lib, recs: seq<Rec>) {
    forall i :: 0 <= i < |recs| ==> Keepable(lib, recs[i])
  }

  ghost predicate AllTyped(recs: seq<Rec>) {
    forall i :: 0 <= i < |recs| ==> Typed(recs[i])
  }

  /** The records stand at `pos` and are read back from there. */
  ghost predicate AllKept(lib: Lib, d: Bytes, pos: nat, recs: seq<Rec>) {
    && Faithful(lib) && CutShows(lib) && AllTyped(recs)
    && At(d, pos, EncodeAll(lib, recs)) && DecodeAll(lib, d, pos, |recs|) == recs
  }

  ghost predicate KeptAt(lib: Lib, d: Bytes, pos: nat, r: Rec, next: nat) {
    && Faithful(lib) && CutShows(lib) && Typed(r)
    && At(d, pos, EncodeRecord(lib, r)) && next == pos + |EncodeRecord(lib, r)| && Kept(lib, d, pos, r)
  }

  lemma {:induction false} KeptAreKeepable(lib: Lib, d: Bytes, pos: nat, recs: seq<Rec>)
    ensures AllKept(lib, d, pos, recs) ==> AllKeepable(lib, recs)
    decreases |recs|
  {
    if recs != [] {
      var r, rest := recs[0], recs[1..];
      var next := pos + |EncodeRecord(lib, r)|;
      FirstKeptAt(lib, d, pos, recs, r, rest, next);
      KeptInPlace(lib, d, pos, r, next);
      RestKept(lib, d, pos, recs, r, rest, next);
      KeptAreKeepable(lib, d, next, rest);
      ConsKeepable(lib, recs, r, rest);
    }
  }

  lemma FirstKeptAt(lib: Lib, d: Bytes, pos: nat, recs: seq<Rec>, r: Rec, rest: seq<Rec>, next: nat)
    requires recs != [] && r == recs[0] && rest == recs[1..] && next == pos + |EncodeRecord(lib, r)|
    ensures AllKept(lib, d, pos, recs) ==> KeptAt(lib, d, pos, r, next)
  {
    if AllKept(lib, d, pos, recs) {
      SplitAll(lib, d, pos, recs, r, rest);
      FirstRecordKept(lib, d, pos, recs);
    }
  }

  lemma KeptInPlace(lib: Lib, d: Bytes, pos: nat, r: Rec, next: nat)
    ensures KeptAt(lib, d, pos, r, next) ==> Keepable(lib, r) && DecodeRecord(lib, d, pos) == Some(Parsed(r, next))
  {
    if KeptAt(lib, d, pos, r, next) {
      RecordKeptIff(lib, d, pos, r, next);
    }
  }

  lemma RestKept(lib: Lib, d: Bytes, pos: nat, recs: seq<Rec>, r: Rec, rest: seq<Rec>, next: nat)
    requires recs != [] && r == recs[0] && rest == recs[1..] && next == pos + |EncodeRecord(lib, r)|
    ensures AllKept(lib, d, pos, recs) && DecodeRecord(lib, d, pos) == Some(Parsed(r, next)) ==> AllKept(lib, d, next, rest)
  {
    RestPlaced(lib, d, pos, recs, r, rest, next);
    RestRead(lib, d, pos, recs, r, rest, next);
  }

  lemma RestPlaced(lib: Lib, d: Bytes, pos: nat, recs: seq<Rec>, r: Rec, rest: seq<Rec>, next: nat)
    requires recs != [] && r == recs[0] && rest == recs[1..] && next == pos + |EncodeRecord(lib, r)|
    ensures At(d, pos, EncodeAll(lib, recs)) ==> At(d, next, EncodeAll(lib, rest))
  {
    if At(d, pos, EncodeAll(lib, recs)) {
      SplitAll(lib, d, pos, recs, r, rest);
    }
  }

  lemma RestRead(lib: Lib, d: Bytes, pos: nat, recs: seq<Rec>, r: Rec, rest: seq<Rec>, next: nat)
    requires recs != [] && r == recs[0] && rest == recs[1..]
    ensures DecodeAll(lib, d, pos, |recs|) == recs && DecodeRecord(lib, d, pos) == Some(Parsed(r, next)) ==>
              DecodeAll(lib, d, next, |rest|) == rest
  {
    if DecodeAll(lib, d, pos, |recs|) == recs && DecodeRecord(lib, d, pos) == Some(Parsed(r, next)) {
      DecodeCons(lib, d, pos, |recs|, r, next);
      SameTail(recs, DecodeAll(lib, d, next, |rest|));
    }
  }

  lemma ConsKeepable(lib: Lib, recs: seq<Rec>, r: Rec, rest: seq<Rec>)
    requires recs != [] && r == recs[0] && rest == recs[1..]
    ensures Keepable(lib, r) && AllKeepable(lib, rest) ==> AllKeepable(lib, recs)
  {
    assert forall i :: 0 < i < |recs| ==> recs[i] == rest[i - 1];
  }

  lemma FirstRecordKept(lib: Lib, d: Bytes, pos: nat, recs: seq<Rec>)
    requires recs != [] && DecodeAll(lib, d, pos, |recs|) == recs
    ensures Kept(lib, d, pos, recs[0])
  {
  }

  lemma SameTail(recs: seq<Rec>, rest: seq<Rec>)
    requires recs != [] && recs == [recs[0]] + rest
    ensures rest == recs[1..]
  {
  }

  /** A snapshot of any records is restored in full if and only if each of them is restorable and has no overlong text. */
  lemma SnapshotKeptIff(lib: Lib, unix: nat, recs: seq<Rec>)
    requires Faithful(lib) && CutShows(lib) && AllTyped(recs) && unix < B32 * B32 && |recs| < B32
    ensures DecodeSnapshot(lib, EncodeSnapshot(lib, unix, recs)) == Some(Contents(unix, recs)) <==> AllKeepable(lib, recs)
  {
    var d := EncodeSnapshot(lib, unix, recs);
    assert d[..|d|] == d;
    HeaderAt(EncodeHeader(unix, |recs|), EncodeAll(lib, recs), d, |d|, d);
    ReadsHeader(d, unix, |recs|);
    if AllKeepable(lib, recs) {
      SnapshotRestoredIff(lib, unix, recs);
    } else if DecodeSnapshot(lib, d) == Some(Contents(unix, recs)) {
      KeptAreKeepable(lib, d, HEADER, recs);
    }
  }
}
