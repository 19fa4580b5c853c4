/** Exporting the live cache to a snapshot and importing one, byte by byte. */
module Persist {
  import opened Wrappers
  import opened Keys
  import opened Wire
  import opened Snapshot
  import opened DnsCache
  import Ageing

  /** A cached response: encoded, to be patched per hit, or kept as a message. */
  datatype Stored<M> = WireForm(bytes: Bytes, offsets: seq<nat>, rcode: nat, answers: seq<string>) | Structured(message: M)

  // ---- reading ----

  /** What reading the rest after `done` amounts to. */
  function After<T>(done: seq<T>, rest: Option<Parsed<seq<T>>>): Option<Parsed<seq<T>>> {
    if rest.None? then None else Some(Parsed(done + rest.value.value, rest.value.next))
  }

  lemma AfterNothing<T>(rest: Option<Parsed<seq<T>>>)
    ensures After([], rest) == rest
  {
    if rest.Some? {
      assert [] + rest.value.value == rest.value.value;
    }
  }

  lemma AfterOneMore<T>(done: seq<T>, x: T, rest: Option<Parsed<seq<T>>>)
    ensures After(done, After([x], rest)) == After(done + [x], rest)
  {
    if rest.Some? {
      assert done + ([x] + rest.value.value) == done + [x] + rest.value.value;
    }
  }

  /** Bounds-checked forward-only reader. */
  class Reader {
    const data: Bytes
    var pos: nat

    constructor (data: Bytes)
      ensures this.data == data && pos == 0
    {
      this.data := data;
      pos := 0;
    }

    method Take(n: nat) returns (r: Option<Bytes>)
      modifies this
      ensures r == TakeAt(data, old(pos), n) && pos == if r.Some? then old(pos) + n else old(pos)
    {
      if pos + n > |data| {
        return None;
      }
      r := Some(data[pos..pos + n]);
      pos := pos + n;
    }

    method ReadU8() returns (r: Option<Byte>)
      modifies this
      ensures r.Some? <==> old(pos) < |data|
      ensures r.Some? ==> r.value == data[old(pos)] && pos == old(pos) + 1
    {
      var b := Take(1);
      r := if b.Some? then Some(b.value[0]) else None;
    }

    method ReadU16() returns (r: Option<nat>)
      modifies this
      ensures r == U16At(data, old(pos)) && (r.Some? ==> pos == old(pos) + 2)
    {
      var b := Take(2);
      r := if b.Some? then U16At(b.value, 0) else None;
    }

    method ReadU32() returns (r: Option<nat>)
      modifies this
      ensures r == U32At(data, old(pos)) && (r.Some? ==> pos == old(pos) + 4)
    {
      var b := Take(4);
      r := if b.Some? then U32At(b.value, 0) else None;
    }

    method ReadU64() returns (r: Option<nat>)
      modifies this
      ensures r == U64At(data, old(pos)) && (r.Some? ==> pos == old(pos) + 8)
    {
      var b := Take(8);
      r := if b.Some? then U64At(b.value, 0) else None;
    }

    method ReadText(lib: Lib) returns (r: Option<string>)
      modifies this
      ensures var p := DecodeText(lib, data, old(pos));
              if p.None? then r == None else r == Some(p.value.value) && pos == p.value.next
    {
      var n := ReadU16();
      if n.None? {
        return None;
      }
      var b := Take(n.value);
      r := if b.Some? then Some(lib.lossy(b.value)) else None;
    }

    method ReadKey(lib: Lib) returns (r: Option<QueryKey>)
      modifies this
      ensures var p := DecodeKey(lib, data, old(pos));
              if p.None? then r == None else r == Some(p.value.value) && pos == p.value.next
    {
      var name := ReadText(lib);
      if name.None? {
        return None;
      }
      var rtype := ReadU16();
      if rtype.None? {
        return None;
      }
      var qclass := ReadU16();
      if qclass.None? {
        return None;
      }
      var flags := ReadU8();
      if flags.None? {
        return None;
      }
      r := Some(QueryKey(name.value, rtype.value, qclass.value, flags.value % 2 != 0, flags.value / 2 % 2 != 0));
    }

    method ReadTimes() returns (r: Option<Times>)
      modifies this
      ensures var p := DecodeTimes(data, old(pos));
              if p.None? then r == None else r == Some(p.value.value) && pos == p.value.next
    {
      var age := ReadU32();
      if age.None? {
        return None;
      }
      var ttl := ReadU32();
      if ttl.None? {
        return None;
      }
      var rcode := ReadU16();
      r := if rcode.Some? then Some(Times(age.value, ttl.value, rcode.value)) else None;
    }

    method ReadAnswers(lib: Lib) returns (r: Option<seq<string>>)
      modifies this
      ensures var p := DecodeAnswers(lib, data, old(pos));
              if p.None? then r == None else r == Some(p.value.value) && pos == p.value.next
    {
      var n := ReadU16();
      if n.None? || n.value > MAX_ANSWERS {
        return None;
      }
      ghost var whole := DecodeTexts(lib, data, pos, n.value);
      var texts: seq<string> := [];
      AfterNothing(whole);
      for i := 0 to n.value
        invariant whole == After(texts, DecodeTexts(lib, data, pos, n.value - i))
      {
        var s := ReadText(lib);
        if s.None? {
          return None;
        }
        AfterOneMore(texts, s.value, DecodeTexts(lib, data, pos, n.value - i - 1));
        texts := texts + [s.value];
      }
      assert texts + [] == texts;
      r := Some(texts);
    }

    method ReadWire() returns (r: Option<Bytes>)
      modifies this
      ensures var p := DecodeWire(data, old(pos));
              if p.None? then r == None else r == Some(p.value.value) && pos == p.value.next
    {
      var n := ReadU32();
      if n.None? || n.value > MAX_WIRE {
        return None;
      }
      r := Take(n.value);
    }

    method ReadOffsets() returns (r: Option<seq<nat>>)
      modifies this
      ensures var p := DecodeCounted(data, old(pos));
              if p.None? then r == None else r == Some(p.value.value) && pos == p.value.next
    {
      var n := ReadU32();
      if n.None? || n.value > MAX_OFFSETS {
        return None;
      }
      ghost var whole := DecodeOffsets(data, pos, n.value);
      var offsets: seq<nat> := [];
      AfterNothing(whole);
      for i := 0 to n.value
        invariant whole == After(offsets, DecodeOffsets(data, pos, n.value - i))
      {
        var o := ReadU32();
        if o.None? {
          return None;
        }
        AfterOneMore(offsets, o.value, DecodeOffsets(data, pos, n.value - i - 1));
        offsets := offsets + [o.value];
      }
      assert offsets + [] == offsets;
      r := Some(offsets);
    }

    /** Reads one record, refusing what is too large, out of bounds or not an answer to its key. */
    method ReadRecord(lib: Lib) returns (r: Option<Rec>)
      modifies this
      ensures var p := DecodeRecord(lib, data, old(pos));
              if p.None? then r == None else r == Some(p.value.value) && pos == p.value.next
    {
      var key := ReadKey(lib);
      if key.None? {
        return None;
      }
      var times := ReadTimes();
      if times.None? {
        return None;
      }
      var answers := ReadAnswers(lib);
      if answers.None? {
        return None;
      }
      var wire := ReadWire();
      if wire.None? || !lib.matches(wire.value, key.value) {
        return None;
      }
      var offsets := ReadOffsets();
      if offsets.None? || exists i :: 0 <= i < |offsets.value| && offsets.value[i] + 4 > |wire.value| {
        return None;
      }
      r := Some(Rec(key.value, times.value, answers.value, wire.value, offsets.value));
    }
  }

  // ---- writing ----

  lemma {:induction false} EncodeTextsSnoc(lib: Lib, texts: seq<string>, s: string)
    ensures EncodeTexts(lib, texts + [s]) == EncodeTexts(lib, texts) + EncodeText(lib, s)
    decreases |texts|
  {
    if texts == [] {
      assert [s][1..] == [];
    } else {
      assert (texts + [s])[1..] == texts[1..] + [s];
      EncodeTextsSnoc(lib, texts[1..], s);
    }
  }

  lemma {:induction false} EncodeOffsetsSnoc(offsets: seq<nat>, o: nat)
    ensures EncodeOffsets(offsets + [o]) == EncodeOffsets(offsets) + Le32(o)
    decreases |offsets|
  {
    if offsets == [] {
      assert [o][1..] == [];
    } else {
      assert (offsets + [o])[1..] == offsets[1..] + [o];
      EncodeOffsetsSnoc(offsets[1..], o);
    }
  }

  lemma {:induction false} EncodeAllSnoc(lib: Lib, recs: seq<Rec>, r: Rec)
    ensures EncodeAll(lib, recs + [r]) == EncodeAll(lib, recs) + EncodeRecord(lib, r)
    decreases |recs|
  {
    if recs == [] {
      assert [r][1..] == [];
    } else {
      assert (recs + [r])[1..] == recs[1..] + [r];
      EncodeAllSnoc(lib, recs[1..], r);
    }
  }

  method WriteTexts(lib: Lib, texts: seq<string>) returns (out: Bytes)
    ensures out == EncodeTexts(lib, texts)
  {
    out := [];
    for i := 0 to |texts|
      invariant out == EncodeTexts(lib, texts[..i])
    {
      EncodeTextsSnoc(lib, texts[..i], texts[i]);
      assert texts[..i + 1] == texts[..i] + [texts[i]];
      out := out + EncodeText(lib, texts[i]);
    }
    assert texts[..|texts|] == texts;
  }

  method WriteOffsets(offsets: seq<nat>) returns (out: Bytes)
    ensures out == EncodeOffsets(offsets)
  {
    out := [];
    for i := 0 to |offsets|
      invariant out == EncodeOffsets(offsets[..i])
    {
      EncodeOffsetsSnoc(offsets[..i], offsets[i]);
      assert offsets[..i + 1] == offsets[..i] + [offsets[i]];
      out := out + Le32(offsets[i]);
    }
    assert offsets[..|offsets|] == offsets;
  }

  lemma Reassociate(o: Bytes, k: Bytes, t: Bytes, a: Bytes, w: Bytes, c: Bytes)
    ensures o + k + t + a + w + c == o + (k + (t + (a + (w + c))))
  {
  }

  /** Appends one record to the buffer. */
  method WriteRecord(before: Bytes, lib: Lib, r: Rec) returns (out: Bytes)
    ensures out == before + EncodeRecord(lib, r)
  {
    var texts := WriteTexts(lib, r.answers);
    var offsets := WriteOffsets(r.offsets);
    var answers := Le16(|r.answers|) + texts;
    var counted := Le32(|r.offsets|) + offsets;
    Reassociate(before, EncodeKey(lib, r.key), EncodeTimes(r.times), answers, EncodeWire(r.wire), counted);
    out := before + EncodeKey(lib, r.key) + EncodeTimes(r.times) + answers + EncodeWire(r.wire) + counted;
  }

  // ---- the live cache out and in ----

  /** The record an entry is exported as, if it is encoded and still servable. */
  function RecordOf<M>(x: (QueryKey, Entry<Stored<M>>), c: Ageing.Clocks, window: nat): Option<Rec> {
    var saved := Ageing.ExportOf(x.1, c, window);
    if x.1.payload.Structured? || saved.None? then None
    else Some(Rec(x.0, Times(saved.value.age, saved.value.ttl, x.1.payload.rcode), x.1.payload.answers,
                  x.1.payload.bytes, x.1.payload.offsets))
  }

  /** Records of the first `n` entries of a shard. */
  function ShardRecords<M>(s: Shard<Stored<M>>, n: nat, c: Ageing.Clocks, window: nat): seq<Rec>
    requires n <= |s|
  {
    if n == 0 then []
    else ShardRecords(s, n - 1, c, window) + (var r := RecordOf(s[n - 1], c, window); if r.Some? then [r.value] else [])
  }

  function CacheRecords<M>(shards: seq<Shard<Stored<M>>>, n: nat, c: Ageing.Clocks, window: nat): seq<Rec>
    requires n <= |shards|
  {
    if n == 0 then [] else CacheRecords(shards, n - 1, c, window) + ShardRecords(shards[n - 1], |shards[n - 1]|, c, window)
  }

  lemma ExportOne<M>(lib: Lib, s: Shard<Stored<M>>, i: nat, c: Ageing.Clocks, window: nat, done: seq<Rec>, recs: seq<Rec>)
    requires i < |s| && recs == ShardRecords(s, i, c, window)
    ensures var r := RecordOf(s[i], c, window); var all := ShardRecords(s, i + 1, c, window);
            if r.Some? then EncodeAll(lib, done + all) == EncodeAll(lib, done + recs) + EncodeRecord(lib, r.value) && |all| == |recs| + 1
            else all == recs
  {
    var r := RecordOf(s[i], c, window);
    if r.Some? {
      EncodeAllSnoc(lib, done + recs, r.value);
      assert done + recs + [r.value] == done + (recs + [r.value]);
    } else {
      assert recs + [] == recs;
    }
  }

  method ExportShard<M>(before: Bytes, lib: Lib, s: Shard<Stored<M>>, c: Ageing.Clocks, window: nat, ghost done: seq<Rec>)
    returns (out: Bytes, count: nat)
    requires before == EncodeAll(lib, done)
    ensures out == EncodeAll(lib, done + ShardRecords(s, |s|, c, window))
    ensures count == |ShardRecords(s, |s|, c, window)|
  {
    out, count := before, 0;
    ghost var recs := [];
    assert done + [] == done;
    for i := 0 to |s|
      invariant recs == ShardRecords(s, i, c, window)
      invariant out == EncodeAll(lib, done + recs) && count == |recs|
    {
      var r := RecordOf(s[i], c, window);
      ExportOne(lib, s, i, c, window, done, recs);
      if r.Some? {
        out := WriteRecord(out, lib, r.value);
        count := count + 1;
      }
      recs := ShardRecords(s, i + 1, c, window);
    }
  }

  /** Serialises every encoded, still servable entry. */
  method ExportSnapshot<M>(cache: Cache<Stored<M>>, lib: Lib, c: Ageing.Clocks) returns (data: Bytes)
    requires cache.Valid()
    ensures data == EncodeSnapshot(lib, c.wall, CacheRecords(cache.shards, |cache.shards|, c, cache.cfg.staleWindow))
  {
    var window := cache.cfg.staleWindow;
    var body, count := ExportShards(lib, cache.shards, c, window);
    data := EncodeHeader(c.wall, count) + body;
  }

  method ExportShards<M>(lib: Lib, shards: seq<Shard<Stored<M>>>, c: Ageing.Clocks, window: nat) returns (body: Bytes, count: nat)
    ensures body == EncodeAll(lib, CacheRecords(shards, |shards|, c, window)) && count == |CacheRecords(shards, |shards|, c, window)|
  {
    body, count := [], 0;
    for i := 0 to |shards|
      invariant body == EncodeAll(lib, CacheRecords(shards, i, c, window))
      invariant count == |CacheRecords(shards, i, c, window)|
    {
      var n;
      ghost var done := CacheRecords(shards, i, c, window);
      body, n := ExportShard(body, lib, shards[i], c, window, done);
      count := count + n;
      assert CacheRecords(shards, i + 1, c, window) == done + ShardRecords(shards[i], |shards[i]|, c, window);
    }
  }

  function SavedOf<M>(r: Rec, unix: nat): Ageing.Saved<Stored<M>> {
    Ageing.Saved(WireForm(r.wire, r.offsets, r.times.rcode, r.answers), r.times.age, r.times.ttl, unix)
  }

  /** What the importing cache holds, the last writes behind it, and how many records it took. */
  datatype Restored<M> = Restored(shards: seq<Shard<Stored<M>>>, last: map<QueryKey, Entry<Stored<M>>>, count: nat)

  /** The clocks and window at import, and how far back the monotonic clock can point. */
  datatype Moment = Moment(clocks: Ageing.Clocks, window: nat, representable: nat -> bool)

  /** Where the importing cache puts a key: its own shard function, and the room in a shard. */
  datatype Place = Place(shardOf: QueryKey -> nat, cap: nat)

  /** The entry a record is restored as, unless it ran out or lies too far back. */
  function Imported<M>(r: Rec, unix: nat, m: Moment): Option<Entry<Stored<M>>> {
    Ageing.ImportOf(SavedOf(r, unix), m.clocks, m.window, m.representable(r.times.age + Max(m.clocks.wall - unix, 0)))
  }

  function PutIn<M>(shards: seq<Shard<Stored<M>>>, place: Place, key: QueryKey, e: Entry<Stored<M>>): (r: seq<Shard<Stored<M>>>)
    ensures |r| == |shards|
  {
    var i := place.shardOf(key);
    if i < |shards| && place.cap >= 1 then shards[i := Put(shards[i], key, e, place.cap)] else shards
  }

  function RestoreOne<M>(before: Restored<M>, r: Rec, unix: nat, m: Moment, place: Place): Restored<M> {
    var e := Imported<M>(r, unix, m);
    if e.None? then before
    else Restored(PutIn(before.shards, place, r.key, e.value), before.last[r.key := e.value], before.count + 1)
  }

  /** The records restored in order; expired ones are passed over. */
  function RestoreAll<M>(before: Restored<M>, recs: seq<Rec>, unix: nat, m: Moment, place: Place): Restored<M>
    decreases |recs|
  {
    if recs == [] then before
    else
      var n := |recs| - 1;
      RestoreOne(RestoreAll(before, recs[..n], unix, m, place), recs[n], unix, m, place)
  }

  /** Restoring in order is restoring the first record, then the rest. */
  lemma {:induction false} RestoreCons<M>(before: Restored<M>, r: Rec, rest: seq<Rec>, unix: nat, m: Moment, place: Place)
    ensures RestoreAll(before, [r] + rest, unix, m, place) == RestoreAll(RestoreOne(before, r, unix, m, place), rest, unix, m, place)
    decreases |rest|
  {
    var n := |rest| - 1;
    if rest == [] {
      RestoreLast(before, [], r, [r] + rest, unix, m, place);
    } else {
      RestoreCons(before, r, rest[..n], unix, m, place);
      RestoreLast(before, [r] + rest[..n], rest[n], [r] + rest, unix, m, place);
    }
  }

  lemma RestoreLast<M>(before: Restored<M>, done: seq<Rec>, r: Rec, all: seq<Rec>, unix: nat, m: Moment, place: Place)
    requires all == done + [r]
    ensures RestoreAll(before, all, unix, m, place) == RestoreOne(RestoreAll(before, done, unix, m, place), r, unix, m, place)
  {
    assert all[..|done|] == done;
  }

  ghost function HeldBy<M>(cache: Cache<Stored<M>>, count: nat): Restored<M>
    reads cache
  {
    Restored(cache.shards, cache.last, count)
  }

  ghost function PlaceOf<M>(cache: Cache<Stored<M>>): Place
    reads cache
    requires cache.shardCount >= 1
  {
    Place(cache.shardOf, ShardCap(cache.capacity, cache.shardCount))
  }

  method RestoreRecord<M>(cache: Cache<Stored<M>>, rec: Rec, unix: nat, m: Moment, count: nat) returns (n: nat)
    requires cache.Valid()
    modifies cache`shards, cache`last
    ensures cache.Valid()
    ensures HeldBy(cache, n) == RestoreOne(old(HeldBy(cache, count)), rec, unix, m, PlaceOf(cache))
  {
    n := count;
    var total := rec.times.age + Max(m.clocks.wall - unix, 0);
    if total < rec.times.ttl + m.window && m.representable(total) {
      cache.Store(rec.key, Entry(WireForm(rec.wire, rec.offsets, rec.times.rcode, rec.answers), m.clocks.mono - total, rec.times.ttl));
      n := count + 1;
    }
  }

  /** What is held once `left` more records from here on are restored. */
  function Finally<M>(held: Restored<M>, lib: Lib, d: Bytes, pos: nat, left: nat, unix: nat, m: Moment, place: Place): Restored<M> {
    RestoreAll(held, DecodeAll(lib, d, pos, left), unix, m, place)
  }

  /** A refused record ends the import. */
  lemma FinallyEnds<M>(held: Restored<M>, lib: Lib, d: Bytes, pos: nat, next: nat, left: nat, unix: nat, m: Moment, place: Place)
    requires DecodeRecord(lib, d, pos) == None
    ensures Finally(held, lib, d, pos, left, unix, m, place) == Finally(held, lib, d, next, 0, unix, m, place)
  {
  }

  lemma FinallyMoves<M>(held: Restored<M>, lib: Lib, d: Bytes, pos: nat, left: nat, unix: nat, m: Moment, place: Place, p: Parsed<Rec>)
    requires left > 0 && DecodeRecord(lib, d, pos) == Some(p)
    ensures Finally(held, lib, d, pos, left, unix, m, place)
            == Finally(RestoreOne(held, p.value, unix, m, place), lib, d, p.next, left - 1, unix, m, place)
  {
    DecodeCons(lib, d, pos, left, p.value, p.next);
    RestoreCons(held, p.value, DecodeAll(lib, d, p.next, left - 1), unix, m, place);
  }

  /** A reader's record, with what it says about the import: the record restored, the rest leads where the whole did. */
  method ReadNext<M>(lib: Lib, r: Reader, left: nat, ghost held: Restored<M>, ghost unix: nat, ghost m: Moment, ghost place: Place)
    returns (parsed: Option<Rec>)
    requires left > 0
    modifies r
    ensures Finally(held, lib, r.data, old(r.pos), left, unix, m, place) ==
              if parsed.None? then Finally(held, lib, r.data, r.pos, 0, unix, m, place)
              else Finally(RestoreOne(held, parsed.value, unix, m, place), lib, r.data, r.pos, left - 1, unix, m, place)
  {
    ghost var at := r.pos;
    parsed := r.ReadRecord(lib);
    if parsed.None? {
      FinallyEnds(held, lib, r.data, at, r.pos, left, unix, m, place);
    } else {
      FinallyMoves(held, lib, r.data, at, left, unix, m, place, Parsed(parsed.value, r.pos));
    }
  }

  /** Restores one record, which makes up for its place in front of what is left. */
  method RestoreNext<M>(cache: Cache<Stored<M>>, rec: Rec, unix: nat, m: Moment, restored: nat,
                        ghost lib: Lib, ghost d: Bytes, ghost pos: nat, ghost left: nat, ghost place: Place, ghost goal: Restored<M>)
    returns (n: nat)
    requires cache.Valid() && place == PlaceOf(cache)
    requires Finally(RestoreOne(HeldBy(cache, restored), rec, unix, m, place), lib, d, pos, left, unix, m, place) == goal
    modifies cache`shards, cache`last
    ensures cache.Valid() && place == PlaceOf(cache)
    ensures Finally(HeldBy(cache, n), lib, d, pos, left, unix, m, place) == goal
  {
    n := RestoreRecord(cache, rec, unix, m, restored);
  }

  /** Reads and restores one record, or ends the import, and leaves unchanged what is held finally. */
  method ImportNext<M>(cache: Cache<Stored<M>>, lib: Lib, r: Reader, restored: nat, left: nat, unix: nat, m: Moment,
                       ghost place: Place, ghost goal: Restored<M>)
    returns (restored': nat, left': nat)
    requires cache.Valid() && place == PlaceOf(cache) && left > 0
    requires Finally(HeldBy(cache, restored), lib, r.data, r.pos, left, unix, m, place) == goal
    modifies cache`shards, cache`last, r
    ensures cache.Valid() && place == PlaceOf(cache) && left' < left
    ensures Finally(HeldBy(cache, restored'), lib, r.data, r.pos, left', unix, m, place) == goal
  {
    restored', left' := restored, 0;
    ghost var held := HeldBy(cache, restored);
    var parsed := ReadNext(lib, r, left, held, unix, m, place);
    assert HeldBy(cache, restored) == held && PlaceOf(cache) == place;
    if parsed.Some? {
      restored' := RestoreNext(cache, parsed.value, unix, m, restored, lib, r.data, r.pos, left - 1, place, goal);
      left' := left - 1;
    }
  }

  method ImportRecords<M>(cache: Cache<Stored<M>>, lib: Lib, r: Reader, count: nat, unix: nat, m: Moment) returns (restored: nat)
    requires cache.Valid()
    modifies cache`shards, cache`last, r
    ensures cache.Valid()
    ensures HeldBy(cache, restored)
            == RestoreAll(old(HeldBy(cache, 0)), DecodeAll(lib, r.data, old(r.pos), count), unix, m, PlaceOf(cache))
  {
    restored := 0;
    ghost var place := PlaceOf(cache);
    ghost var goal := Finally(HeldBy(cache, 0), lib, r.data, r.pos, count, unix, m, place);
    var left := count;
    while left > 0
      invariant cache.Valid() && place == PlaceOf(cache)
      invariant Finally(HeldBy(cache, restored), lib, r.data, r.pos, left, unix, m, place) == goal
    {
      restored, left := ImportNext(cache, lib, r, restored, left, unix, m, place, goal);
    }
  }

  method ReadHeader(r: Reader) returns (h: Option<(nat, nat)>)
    requires r.pos == 0
    modifies r
    ensures h == if TakeAt(r.data, 0, 8) != Some(MAGIC) || U64At(r.data, 8).None? || U32At(r.data, 16).None? then None
                 else Some((U64At(r.data, 8).value, U32At(r.data, 16).value))
    ensures h.Some? ==> r.pos == HEADER
  {
    var magic := r.Take(8);
    if magic != Some(MAGIC) {
      return None;
    }
    var unix := r.ReadU64();
    if unix.None? {
      return None;
    }
    var count := r.ReadU32();
    h := if count.None? then None else Some((unix.value, count.value));
  }

  /** Restores what a snapshot holds, up to the first record that does not read, by putting one entry after another. */
  method ImportSnapshot<M>(cache: Cache<Stored<M>>, lib: Lib, data: Bytes, m: Moment) returns (restored: nat)
    requires cache.Valid() && m.window == cache.cfg.staleWindow
    modifies cache`shards, cache`last
    ensures cache.Valid()
    ensures match DecodeSnapshot(lib, data)
            case None => restored == 0 && cache.last == old(cache.last) && cache.shards == old(cache.shards)
            case Some(s) => HeldBy(cache, restored) == RestoreAll(old(HeldBy(cache, 0)), s.recs, s.unix, m, PlaceOf(cache))
  {
    restored := 0;
    var r := new Reader(data);
    var h := ReadHeader(r);
    if h.Some? {
      restored := ImportRecords(cache, lib, r, h.value.1, h.value.0, m);
    }
  }
}
