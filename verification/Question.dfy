/** The allocation-light query parser: question names and the fields of a query. */
module Question {
  import opened Wrappers
  import opened Domains
  import opened Wire

  predicate IsAlnum(b: Byte) {
    48 <= b <= 57 || 65 <= b <= 90 || 97 <= b <= 122
  }

  /** Bytes that need no escaping: `-` not first, `*` only first. */
  predicate SafeAt(b: Byte, first: bool) {
    IsAlnum(b) || b == 95 || (b == 45 && !first) || (b == 42 && first)
  }

  predicate SafeLabel(lab: Bytes) {
    forall j :: 0 <= j < |lab| ==> SafeAt(lab[j], j == 0)
  }

  function Text(lab: Bytes): (s: string)
    ensures |s| == |lab| && forall j :: 0 <= j < |lab| ==> s[j] == lab[j] as char
  {
    seq(|lab|, j requires 0 <= j < |lab| => lab[j] as char)
  }

  /** Labels from `pos` to the root, each followed by a dot. */
  function LabelsFrom(buf: Bytes, pos: nat): (r: Option<(string, nat)>)
    ensures r.Some? ==> pos < r.value.1 <= |buf|
    decreases |buf| - pos
  {
    if pos >= |buf| then None
    else
      var b := buf[pos];
      if b == 0 then Some(("", pos + 1))
      else if b >= 64 || pos + 1 + b > |buf| || !SafeLabel(buf[pos + 1..pos + 1 + b]) then None
      else
        var rest := LabelsFrom(buf, pos + 1 + b);
        if rest.None? then None
        else Some((Text(buf[pos + 1..pos + 1 + b]) + "." + rest.value.0, rest.value.1))
  }

  /** At most 255 bytes on the wire (section 2.3.4 of RFC 1035); the root prints as a dot. */
  function QuestionName(buf: Bytes, start: nat): Option<(string, nat)> {
    var r := LabelsFrom(buf, start);
    if r.None? || r.value.1 - start > 255 then None
    else Some((if r.value.0 == "" then "." else r.value.0, r.value.1))
  }

  /** Copies one label, stopping at the first byte that is not safe. */
  method AppendLabel(name: string, lab: Bytes) returns (ok: bool, r: string)
    ensures ok == SafeLabel(lab)
    ensures ok ==> r == name + Text(lab)
  {
    r := name;
    var j := 0;
    while j < |lab|
      invariant 0 <= j <= |lab|
      invariant forall k :: 0 <= k < j ==> SafeAt(lab[k], k == 0)
      invariant r == name + Text(lab)[..j]
    {
      if !SafeAt(lab[j], j == 0) {
        return false, r;
      }
      r := r + [lab[j] as char];
      j := j + 1;
    }
    assert Text(lab)[..j] == Text(lab);
    return true, r;
  }

  ghost predicate ReadSoFar(all: Option<(string, nat)>, name: string, rest: Option<(string, nat)>) {
    all.Some? == rest.Some? && (all.Some? ==> all.value == (name + rest.value.0, rest.value.1))
  }

  lemma NameEnds(buf: Bytes, start: nat, pos: nat, name: string)
    requires start <= pos < |buf| && buf[pos] == 0 && ReadSoFar(LabelsFrom(buf, start), name, LabelsFrom(buf, pos))
    ensures LabelsFrom(buf, start) == Some((name, pos + 1))
  {
    assert name + "" == name;
  }

  lemma NameContinues(buf: Bytes, start: nat, pos: nat, name: string, lab: Bytes)
    requires pos < |buf| && ReadSoFar(LabelsFrom(buf, start), name, LabelsFrom(buf, pos))
    requires 0 < buf[pos] < 64 && pos + 1 + buf[pos] <= |buf| && lab == buf[pos + 1..pos + 1 + buf[pos]] && SafeLabel(lab)
    ensures ReadSoFar(LabelsFrom(buf, start), name + Text(lab) + ".", LabelsFrom(buf, pos + 1 + buf[pos]))
  {
    var rest := LabelsFrom(buf, pos + 1 + buf[pos]);
    if rest.Some? {
      assert name + (Text(lab) + "." + rest.value.0) == name + Text(lab) + "." + rest.value.0;
    }
  }

  method ReadQuestionName(buf: Bytes, start: nat) returns (r: Option<(string, nat)>)
    ensures r == QuestionName(buf, start)
  {
    var all := ReadLabels(buf, start);
    if all.None? || all.value.1 - start > 255 {
      return None;
    }
    return Some((if all.value.0 == "" then "." else all.value.0, all.value.1));
  }

  method ReadLabels(buf: Bytes, start: nat) returns (r: Option<(string, nat)>)
    ensures r == LabelsFrom(buf, start)
  {
    var name, pos := "", start;
    ghost var all := LabelsFrom(buf, start);
    if all.Some? {
      assert "" + all.value.0 == all.value.0;
    }
    while pos < |buf|
      invariant 0 <= start <= pos
      invariant ReadSoFar(all, name, LabelsFrom(buf, pos))
      decreases |buf| - pos
    {
      var b := buf[pos];
      if b == 0 {
        NameEnds(buf, start, pos, name);
        return Some((name, pos + 1));
      }
      if b >= 64 || pos + 1 + b > |buf| {
        return None;
      }
      var ok, longer := AppendLabel(name, buf[pos + 1..pos + 1 + b]);
      if !ok {
        return None;
      }
      NameContinues(buf, start, pos, name, buf[pos + 1..pos + 1 + b]);
      name, pos := longer + ".", pos + 1 + b;
    }
    return None;
  }

  // ---- the text determines the wire name ----

  function Ascii(s: string): (b: Bytes)
    requires forall i :: 0 <= i < |s| ==> s[i] as int < 256
    ensures |b| == |s| && forall i :: 0 <= i < |s| ==> b[i] == s[i] as int
  {
    seq(|s|, i requires 0 <= i < |s| => s[i] as int)
  }

  ghost predicate Encodable(s: string) {
    forall i :: 0 <= i < |s| ==> s[i] as int < 256
  }

  /** Dot-terminated labels back to length-prefixed labels and the root byte. */
  function EncodeLabels(s: string): Bytes
    requires Encodable(s)
    decreases |s|
  {
    if s == [] then [0]
    else
      var i := FirstDot(s);
      var rest := if i < |s| then s[i + 1..] else [];
      [(i % 256) as Byte] + Ascii(s[..i]) + EncodeLabels(rest)
  }

  function EncodeName(s: string): Bytes
    requires Encodable(s)
  {
    if s == "." then [0] else EncodeLabels(s)
  }

  lemma SafeLabelHasNoDot(lab: Bytes, rest: string)
    requires SafeLabel(lab)
    ensures FirstDot(Text(lab) + "." + rest) == |lab|
  {
    var s := Text(lab) + "." + rest;
    forall j | 0 <= j < |lab| ensures s[j] != '.' {
      assert s[j] == lab[j] as char && SafeAt(lab[j], j == 0);
    }
    assert s[|lab|] == '.';
  }

  lemma LabelBytes(lab: Bytes)
    ensures Encodable(Text(lab)) && Ascii(Text(lab)) == lab
  {
  }

  lemma JoinedParts(lab: Bytes, t: string, s: string)
    requires s == Text(lab) + "." + t && Encodable(t)
    ensures Encodable(s) && s[..|lab|] == Text(lab) && s[|lab| + 1..] == t
  {
    forall i | 0 <= i < |s| ensures s[i] as int < 256 {
      if i < |lab| {
        assert s[i] == lab[i] as char;
      } else if i > |lab| {
        assert s[i] == t[i - |lab| - 1];
      }
    }
  }

  lemma EncodeStep(s: string, i: nat)
    requires Encodable(s) && s != [] && i == FirstDot(s) < |s|
    ensures EncodeLabels(s) == [(i % 256) as Byte] + Ascii(s[..i]) + EncodeLabels(s[i + 1..])
  {
  }

  lemma EncodeOne(lab: Bytes, t: string, s: string)
    requires |lab| < 64 && Encodable(t) && Encodable(s) && FirstDot(s) == |lab| < |s|
    requires Ascii(s[..|lab|]) == lab && s[|lab| + 1..] == t
    ensures EncodeLabels(s) == [|lab| as Byte] + lab + EncodeLabels(t)
  {
    var x, y := EncodeLabels(s), EncodeLabels(t);
    EncodeStep(s, |lab|);
    assert |lab| % 256 == |lab|;
    assert x == [|lab| as Byte] + lab + y;
  }

  lemma SliceCons(buf: Bytes, pos: nat, m: nat, end: nat)
    requires pos < m <= end <= |buf|
    ensures buf[pos..end] == [buf[pos]] + buf[pos + 1..m] + buf[m..end]
  {
  }

  /** A successful read, taken apart. */
  lemma LabelsParts(buf: Bytes, pos: nat) returns (lab: Bytes, t: string, end: nat)
    requires LabelsFrom(buf, pos).Some? && buf[pos] != 0
    ensures var b := buf[pos]; |lab| == b < 64 && SafeLabel(lab) && pos + 1 + b < end <= |buf| && lab == buf[pos + 1..pos + 1 + b]
    ensures LabelsFrom(buf, pos + 1 + buf[pos]) == Some((t, end))
    ensures LabelsFrom(buf, pos) == Some((Text(lab) + "." + t, end))
  {
    var b := buf[pos];
    lab := buf[pos + 1..pos + 1 + b];
    t, end := LabelsFrom(buf, pos + 1 + b).value.0, LabelsFrom(buf, pos + 1 + b).value.1;
  }

  /** Reading labels and writing them again gives the bytes that were consumed. */
  lemma {:induction false} LabelsRoundTrip(buf: Bytes, pos: nat, s: string, end: nat)
    requires LabelsFrom(buf, pos) == Some((s, end))
    ensures pos < end <= |buf| && Encodable(s) && |s| == end - pos - 1 && EncodeLabels(s) == buf[pos..end]
    decreases |buf| - pos
  {
    if buf[pos] != 0 {
      var lab, t, e := LabelsParts(buf, pos);
      LabelsRoundTrip(buf, pos + 1 + |lab|, t, e);
      JoinedParts(lab, t, s);
      LabelBytes(lab);
      SafeLabelHasNoDot(lab, t);
      EncodeOne(lab, t, s);
      SliceCons(buf, pos, pos + 1 + |lab|, end);
    }
  }

  /** Re-encoding an accepted question name gives back its wire bytes; it is at most 254 characters long. */
  lemma QuestionNameRoundTrip(buf: Bytes, start: nat)
    requires QuestionName(buf, start).Some?
    ensures var (s, end) := QuestionName(buf, start).value;
            && start < end <= |buf| && end - start <= 255
            && Encodable(s) && EncodeName(s) == buf[start..end]
            && 1 <= |s| <= 254
  {
    var (s, end) := LabelsFrom(buf, start).value;
    LabelsRoundTrip(buf, start, s, end);
    if s == "." {
      RootIsNotALabel(buf, start);
    }
  }

  /** No sequence of labels prints as a lone dot. */
  lemma RootIsNotALabel(buf: Bytes, pos: nat)
    requires LabelsFrom(buf, pos).Some?
    ensures LabelsFrom(buf, pos).value.0 != "."
  {
    if buf[pos] != 0 {
      var lab := buf[pos + 1..pos + 1 + buf[pos]];
      var s := LabelsFrom(buf, pos).value.0;
      assert |s| >= 2;
    }
  }

  lemma SameSlices(a: Bytes, i: nat, b: Bytes, j: nat, n: nat, p: nat, q: nat)
    requires i + n <= |a| && j + n <= |b| && a[i..i + n] == b[j..j + n] && p <= q <= n
    ensures a[i + p..i + q] == b[j + p..j + q]
  {
    var x, y := a[i + p..i + q], b[j + p..j + q];
    forall k | 0 <= k < q - p ensures x[k] == y[k] {
      assert x[k] == a[i..i + n][p + k] && y[k] == b[j..j + n][p + k];
    }
  }

  lemma {:induction false} SameBytesSameLabels(a: Bytes, i: nat, b: Bytes, j: nat, n: nat, s: string)
    requires LabelsFrom(a, i) == Some((s, i + n))
    requires j + n <= |b| && a[i..i + n] == b[j..j + n]
    ensures LabelsFrom(b, j) == Some((s, j + n))
    decreases n
  {
    assert a[i] == a[i..i + n][0] == b[j..j + n][0] == b[j];
    if a[i] != 0 {
      var lab, t, e := LabelsParts(a, i);
      var x := |lab|;
      SameSlices(a, i, b, j, n, 1, 1 + x);
      SameSlices(a, i, b, j, n, 1 + x, n);
      SameBytesSameLabels(a, i + 1 + x, b, j + 1 + x, n - 1 - x, t);
    }
  }

  /** Two accepted questions print the same name exactly when their wire names are the same bytes. */
  lemma NamesEqualIffBytesEqual(a: Bytes, i: nat, b: Bytes, j: nat)
    requires QuestionName(a, i).Some? && QuestionName(b, j).Some?
    ensures var (s, e) := QuestionName(a, i).value; var (t, f) := QuestionName(b, j).value;
            s == t <==> e <= |a| && f <= |b| && a[i..e] == b[j..f]
  {
    var (s, e) := QuestionName(a, i).value;
    var (t, f) := QuestionName(b, j).value;
    QuestionNameRoundTrip(a, i);
    QuestionNameRoundTrip(b, j);
    if a[i..e] == b[j..f] {
      assert e - i == |a[i..e]| == |b[j..f]| == f - j;
      SameBytesSameLabels(a, i, b, j, e - i, LabelsFrom(a, i).value.0);
    }
  }

  // ---- the rest of the query ----

  datatype ParsedQuery = ParsedQuery(
    id: nat, recursionDesired: bool, checkingDisabled: bool, opcode: nat,
    qname: string, qtype: nat, qclass: nat, ednsPayload: Option<nat>, dnssecOk: bool)

  /** The DO bit is the top bit of the low half of the OPT TTL (section 6.1.3 of RFC 6891). */
  predicate DnssecOk(r: Record) {
    (r.ttl / 0x8000) % 2 == 1
  }

  /** The OPT records of a message all lie from `additional` on, and there is at most one. */
  ghost predicate OptAllowed(records: seq<Record>, additional: nat) {
    && (forall k :: 0 <= k < |records| && records[k].rtype == TYPE_OPT ==> additional <= k)
    && (forall i, j :: 0 <= i < j < |records| ==> records[i].rtype != TYPE_OPT || records[j].rtype != TYPE_OPT)
  }

  /** What is found of EDNS in the records: the OPT's class is the payload size. */
  ghost predicate EdnsOf(records: seq<Record>, payload: Option<nat>, dnssecOk: bool) {
    match payload
    case None => !dnssecOk && forall k :: 0 <= k < |records| ==> records[k].rtype != TYPE_OPT
    case Some(p) => exists k :: 0 <= k < |records| && records[k].rtype == TYPE_OPT
                                && p == records[k].rclass && dnssecOk == DnssecOk(records[k])
  }

  lemma DoBitOfTtl(b: Bytes)
    requires |b| == 4
    ensures (U32(b) / 0x8000) % 2 == (if b[2] >= 128 then 1 else 0)
  {
    var hi, lo := U16(b[0], b[1]), U16(b[2], b[3]);
    assert U32(b) == 0x8000 * (2 * hi + lo / 0x8000) + lo % 0x8000;
  }

  /** What the loop over the additional records reads of one record. */
  method ScanOpt(buf: Bytes, pos: nat) returns (ok: bool, isOpt: bool, payload: nat, dnssecOk: bool, next: nat)
    ensures ok == ReadRecord(buf, pos).Some?
    ensures ok ==> var l := ReadRecord(buf, pos).value;
                   && next == l.next && isOpt == (l.rec.rtype == TYPE_OPT)
                   && payload == l.rec.rclass && dnssecOk == DnssecOk(l.rec)
  {
    var body;
    ok, isOpt, body, next := ScanRecord(buf, pos);
    payload, dnssecOk := 0, false;
    if ok {
      payload := U16(buf[body + 2], buf[body + 3]);
      dnssecOk := buf[body + 6] >= 128;
      DoBitOfTtl(buf[body + 4..body + 8]);
    }
  }

  /** The loop over the records after the question, collecting the one OPT. */
  method ScanEdns(buf: Bytes, start: nat, additional: nat, total: nat)
    returns (ok: bool, payload: Option<nat>, dnssecOk: bool)
    requires start <= |buf|
    ensures ok <==> WalkRecords(buf, start, total).Some? && OptAllowed(WalkRecords(buf, start, total).value.records, additional)
    ensures ok ==> EdnsOf(WalkRecords(buf, start, total).value.records, payload, dnssecOk)
  {
    payload, dnssecOk := None, false;
    var pos: nat, idx, left := start, 0, total;
    ghost var seen: seq<Record> := [];
    ghost var all := WalkRecords(buf, start, total);
    if all.Some? {
      assert [] + all.value.records == all.value.records;
    }
    while left > 0
      invariant 0 <= left <= total && |seen| == idx
      invariant WalksTo(all, seen, WalkRecords(buf, pos, left))
      invariant OptAllowed(seen, additional) && EdnsOf(seen, payload, dnssecOk)
    {
      WalksStep(all, seen, buf, pos, left);
      var good, isOpt, size, flag, next := ScanOpt(buf, pos);
      if !good {
        return false, payload, dnssecOk;
      }
      ghost var rec := ReadRecord(buf, pos).value.rec;
      if isOpt {
        if idx < additional || payload.Some? {
          OptRejected(all, seen, rec, WalkRecords(buf, next, left - 1), payload, dnssecOk, additional);
          return false, payload, dnssecOk;
        }
        payload, dnssecOk := Some(size), flag;
      }
      OptAccepted(seen, rec, additional, isOpt);
      EdnsGrows(seen, rec, payload, dnssecOk);
      seen := seen + [rec];
      pos, idx, left := next, idx + 1, left - 1;
    }
    assert seen + [] == seen;
    ok := true;
  }

  ghost predicate WalksTo(all: Option<Walk>, seen: seq<Record>, rest: Option<Walk>) {
    all.Some? == rest.Some? && (all.Some? ==> all.value.records == seen + rest.value.records)
  }

  lemma WalksStep(all: Option<Walk>, seen: seq<Record>, buf: Bytes, pos: nat, m: nat)
    requires m > 0 && WalksTo(all, seen, WalkRecords(buf, pos, m))
    ensures ReadRecord(buf, pos).None? ==> all.None?
    ensures ReadRecord(buf, pos).Some? ==>
              var l := ReadRecord(buf, pos).value; WalksTo(all, seen + [l.rec], WalkRecords(buf, l.next, m - 1))
  {
    WalkStep(buf, pos, m);
  }

  lemma OptRejected(all: Option<Walk>, seen: seq<Record>, rec: Record, rest: Option<Walk>, payload: Option<nat>, dnssecOk: bool, additional: nat)
    requires WalksTo(all, seen + [rec], rest) && rec.rtype == TYPE_OPT && EdnsOf(seen, payload, dnssecOk)
    requires |seen| < additional || payload.Some?
    ensures all.Some? ==> !OptAllowed(all.value.records, additional)
  {
    if all.Some? {
      var rs := all.value.records;
      assert rs[|seen|] == rec;
      if payload.Some? {
        var k :| 0 <= k < |seen| && seen[k].rtype == TYPE_OPT;
        assert rs[k] == seen[k];
      }
    }
  }

  lemma OptAccepted(seen: seq<Record>, rec: Record, additional: nat, isOpt: bool)
    requires OptAllowed(seen, additional) && isOpt == (rec.rtype == TYPE_OPT)
    requires isOpt ==> additional <= |seen| && forall k :: 0 <= k < |seen| ==> seen[k].rtype != TYPE_OPT
    ensures OptAllowed(seen + [rec], additional)
  {
  }

  lemma EdnsGrows(seen: seq<Record>, rec: Record, payload: Option<nat>, dnssecOk: bool)
    requires if rec.rtype == TYPE_OPT then payload == Some(rec.rclass) && dnssecOk == DnssecOk(rec) else EdnsOf(seen, payload, dnssecOk)
    ensures EdnsOf(seen + [rec], payload, dnssecOk)
  {
    var all := seen + [rec];
    if rec.rtype == TYPE_OPT {
      assert all[|seen|] == rec;
    } else if payload.Some? {
      var k :| 0 <= k < |seen| && seen[k].rtype == TYPE_OPT && payload.value == seen[k].rclass && dnssecOk == DnssecOk(seen[k]);
      assert all[k] == seen[k];
    }
  }

  /** When the fast path accepts: one plain question, and at most one OPT, among the additional records. */
  ghost predicate Accepts(buf: Bytes) {
    && |buf| >= 12 && CountAt(buf, 4) == 1
    && var name := QuestionName(buf, 12);
    && name.Some? && name.value.1 + 4 <= |buf|
    && var w := WalkRecords(buf, name.value.1 + 4, RecordCount(buf));
    && w.Some? && OptAllowed(w.value.records, CountAt(buf, 6) + CountAt(buf, 8))
  }

  method ParseQuery(buf: Bytes) returns (r: Option<ParsedQuery>)
    ensures r.Some? <==> Accepts(buf)
    ensures r.Some? ==>
              && r.value.id == U16(buf[0], buf[1])
              && r.value.recursionDesired == (buf[2] % 2 == 1)
              && r.value.opcode == (buf[2] / 8) % 16
              && r.value.checkingDisabled == ((buf[3] / 16) % 2 == 1)
              && var (name, p) := QuestionName(buf, 12).value;
              && r.value.qname == name
              && r.value.qtype == CountAt(buf, p) && r.value.qclass == CountAt(buf, p + 2)
              && EdnsOf(WalkRecords(buf, p + 4, RecordCount(buf)).value.records, r.value.ednsPayload, r.value.dnssecOk)
  {
    if |buf| < 12 || CountAt(buf, 4) != 1 {
      return None;
    }
    var name := ReadQuestionName(buf, 12);
    if name.None? {
      return None;
    }
    var p := name.value.1;
    if p + 4 > |buf| {
      return None;
    }
    var ok, payload, dnssecOk := ScanEdns(buf, p + 4, CountAt(buf, 6) + CountAt(buf, 8), RecordCount(buf));
    if !ok {
      return None;
    }
    return Some(ParsedQuery(U16(buf[0], buf[1]), buf[2] % 2 == 1, (buf[3] / 16) % 2 == 1, (buf[2] / 8) % 16,
                            name.value.0, CountAt(buf, p), CountAt(buf, p + 2), payload, dnssecOk));
  }
}
