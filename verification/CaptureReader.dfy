/** The decoder's record loop, and what it makes of a file the proxy wrote. */
module CaptureReader {
  import opened Serial
  import opened CaptureFormat

  datatype Option<T> = None | Some(value: T)

  predicate Wanted(filter: Option<u32>, sid: nat) {
    filter.None? || filter.value == sid
  }

  datatype Parsed = Parsed(recs: seq<Rec>, bad: nat)

  /** The loop from off on, with what was read so far.  limit 0 means none. */
  function Scan(b: seq<u8>, stride: nat, filter: Option<u32>, limit: nat, off: nat, p: Parsed): Parsed
    requires stride >= HDR_SIZE
    decreases |b| - off
  {
    if off + stride > |b| then p
    else if Field(b, off, 0) != MAGIC then Scan(b, stride, filter, limit, off + stride, p.(bad := p.bad + 1))
    else if !Wanted(filter, Field(b, off, 3)) then Scan(b, stride, filter, limit, off + stride, p)
    else
      var q := p.(recs := p.recs + [ReadRecord(b, off, stride)]);
      if limit > 0 && |q.recs| >= limit then q else Scan(b, stride, filter, limit, off + stride, q)
  }

  /** Decode a file at a given stride. */
  method Parse(b: seq<u8>, stride: nat, filter: Option<u32>, limit: nat) returns (p: Parsed)
    requires stride >= HDR_SIZE
    ensures p == Scan(b, stride, filter, limit, 0, Parsed([], 0))
  {
    p := Parsed([], 0);
    var off := 0;
    while off + stride <= |b|
      invariant Scan(b, stride, filter, limit, 0, Parsed([], 0)) == Scan(b, stride, filter, limit, off, p)
      decreases |b| - off
    {
      if Field(b, off, 0) != MAGIC {
        p := p.(bad := p.bad + 1);
      } else if Wanted(filter, Field(b, off, 3)) {
        p := p.(recs := p.recs + [ReadRecord(b, off, stride)]);
        if limit > 0 && |p.recs| >= limit {
          return;
        }
      }
      off := off + stride;
    }
  }

  /** Where slot i starts: i times the slot size. */
  function SlotStart(i: nat, size: nat): nat {
    if i == 0 then 0 else SlotStart(i - 1, size) + size
  }

  lemma {:induction false} SlotStartIs(i: nat, size: nat)
    ensures SlotStart(i, size) == i * size
  {
    if i == 0 {
    } else {
      SlotStartIs(i - 1, size);
      assert i * size == (i - 1) * size + size;
    }
  }

  /** Slots do not overlap. */
  lemma {:induction false} SlotsApart(i: nat, j: nat, size: nat)
    requires i < j
    ensures SlotStart(i, size) + size <= SlotStart(j, size)
  {
    if j == i + 1 {
    } else {
      SlotsApart(i, j - 1, size);
    }
  }

  // ---- Any file at all ------------------------------------------------------------------

  /** Stretch k of a file lies wholly in it. */
  predicate Whole(b: seq<u8>, stride: nat, k: nat) { SlotStart(k, stride) + stride <= |b| }

  /** Stretch k of a file, where it lies in it, begins with the magic. */
  predicate Readable(b: seq<u8>, stride: nat, k: nat)
    requires stride >= HDR_SIZE
  {
    Whole(b, stride, k) && Field(b, SlotStart(k, stride), 0) == MAGIC
  }

  /** The record it holds, if that is wanted. */
  function RecordIn(b: seq<u8>, stride: nat, filter: Option<u32>, k: nat): seq<Rec>
    requires stride >= HDR_SIZE
  {
    if Readable(b, stride, k) && Wanted(filter, Field(b, SlotStart(k, stride), 3))
    then [ReadRecord(b, SlotStart(k, stride), stride)] else []
  }

  /** The wanted records of the first n stretches, in order, and how many of those hold none. */
  function RecordsTo(b: seq<u8>, stride: nat, filter: Option<u32>, n: nat): seq<Rec>
    requires stride >= HDR_SIZE
  {
    if n == 0 then [] else RecordsTo(b, stride, filter, n - 1) + RecordIn(b, stride, filter, n - 1)
  }

  function UnreadableTo(b: seq<u8>, stride: nat, n: nat): nat
    requires stride >= HDR_SIZE
  {
    if n == 0 then 0 else UnreadableTo(b, stride, n - 1) + (if Readable(b, stride, n - 1) then 0 else 1)
  }

  /** What the stretch at off adds. */
  function AddStretch(b: seq<u8>, stride: nat, filter: Option<u32>, off: nat, p: Parsed): Parsed
    requires stride >= HDR_SIZE && off + stride <= |b|
  {
    if Field(b, off, 0) != MAGIC then p.(bad := p.bad + 1)
    else if Wanted(filter, Field(b, off, 3)) then p.(recs := p.recs + [ReadRecord(b, off, stride)]) else p
  }

  /** What the first n stretches add, one after the other. */
  function Added(b: seq<u8>, stride: nat, filter: Option<u32>, n: nat): Parsed
    requires stride >= HDR_SIZE
  {
    if n == 0 then Parsed([], 0)
    else
      var p := Added(b, stride, filter, n - 1);
      if Whole(b, stride, n - 1) then AddStretch(b, stride, filter, SlotStart(n - 1, stride), p) else p
  }

  lemma WholeBefore(b: seq<u8>, stride: nat, k: nat, n: nat)
    requires k < n && Whole(b, stride, n - 1)
    ensures Whole(b, stride, k)
  {
    if k < n - 1 {
      SlotsApart(k, n - 1, stride);
    }
  }

  lemma {:induction false} AddedIs(b: seq<u8>, stride: nat, filter: Option<u32>, n: nat)
    requires stride >= HDR_SIZE && (n > 0 ==> Whole(b, stride, n - 1))
    ensures Added(b, stride, filter, n) == Parsed(RecordsTo(b, stride, filter, n), UnreadableTo(b, stride, n))
  {
    if n == 0 {
    } else {
      if n > 1 {
        WholeBefore(b, stride, n - 2, n);
      }
      AddedIs(b, stride, filter, n - 1);
    }
  }

  lemma ScanStretch(b: seq<u8>, stride: nat, filter: Option<u32>, off: nat, next: nat, p: Parsed)
    requires stride >= HDR_SIZE && off + stride <= |b| && next == off + stride
    ensures Scan(b, stride, filter, 0, off, p)
            == Scan(b, stride, filter, 0, next, AddStretch(b, stride, filter, off, p))
  {
  }

  lemma StretchAdds(b: seq<u8>, stride: nat, filter: Option<u32>, off: nat, next: nat, p: Parsed, q: Parsed)
    requires stride >= HDR_SIZE && off + stride <= |b| && next == off + stride
    requires q == AddStretch(b, stride, filter, off, p)
    ensures Scan(b, stride, filter, 0, off, p) == Scan(b, stride, filter, 0, next, q)
  {
    ScanStretch(b, stride, filter, off, next, p);
  }

  /** The decoder at stretch k of a file, having read those before it. */
  function ScanAt(b: seq<u8>, stride: nat, filter: Option<u32>, k: nat): Parsed
    requires stride >= HDR_SIZE
  {
    Scan(b, stride, filter, 0, SlotStart(k, stride), Added(b, stride, filter, k))
  }

  lemma ScanOne(b: seq<u8>, stride: nat, filter: Option<u32>, k: nat, m: nat)
    requires stride >= HDR_SIZE && Whole(b, stride, k) && m == k + 1
    ensures ScanAt(b, stride, filter, k) == ScanAt(b, stride, filter, m)
  {
    StretchAdds(b, stride, filter, SlotStart(k, stride), SlotStart(m, stride), Added(b, stride, filter, k),
                Added(b, stride, filter, m));
  }

  lemma {:induction false} ScanRest(b: seq<u8>, stride: nat, filter: Option<u32>, k: nat, n: nat)
    requires stride >= HDR_SIZE && k <= n && !Whole(b, stride, n) && (n > 0 ==> Whole(b, stride, n - 1))
    ensures ScanAt(b, stride, filter, k) == Added(b, stride, filter, n)
    decreases n - k
  {
    if k == n {
    } else {
      var m := k + 1;
      WholeBefore(b, stride, k, n);
      ScanOne(b, stride, filter, k, m);
      ScanRest(b, stride, filter, m, n);
    }
  }

  /** Of any bytes whatever, of which n stretches of that length lie in the file: decoding without a limit gives the
      wanted records of exactly those that begin with the magic, in order, and counts the others. */
  lemma ParseAny(b: seq<u8>, stride: nat, filter: Option<u32>, n: nat)
    requires stride >= HDR_SIZE && !Whole(b, stride, n) && (n > 0 ==> Whole(b, stride, n - 1))
    ensures Scan(b, stride, filter, 0, 0, Parsed([], 0))
            == Parsed(RecordsTo(b, stride, filter, n), UnreadableTo(b, stride, n))
  {
    ScanRest(b, stride, filter, 0, n);
    AddedIs(b, stride, filter, n);
  }

  /** A record read stays at the front. */
  lemma {:induction false} ScanExtends(b: seq<u8>, stride: nat, filter: Option<u32>, off: nat, p: Parsed)
    requires stride >= HDR_SIZE
    ensures p.recs <= Scan(b, stride, filter, 0, off, p).recs
    decreases |b| - off
  {
    if off + stride > |b| {
    } else {
      ScanStretch(b, stride, filter, off, off + stride, p);
      ScanExtends(b, stride, filter, off + stride, AddStretch(b, stride, filter, off, p));
    }
  }

  lemma LimitStretch(b: seq<u8>, stride: nat, filter: Option<u32>, limit: nat, off: nat, p: Parsed)
    requires stride >= HDR_SIZE && off + stride <= |b| && |p.recs| < limit
    ensures var q := AddStretch(b, stride, filter, off, p);
            && |q.recs| <= limit
            && Scan(b, stride, filter, limit, off, p) ==
                 if |q.recs| == limit then q else Scan(b, stride, filter, limit, off + stride, q)
  {
  }

  /** And a limit cuts what that gives to its first records. */
  lemma {:induction false} LimitCuts(b: seq<u8>, stride: nat, filter: Option<u32>, limit: nat, off: nat, p: Parsed)
    requires stride >= HDR_SIZE && |p.recs| < limit
    ensures var all, cut := Scan(b, stride, filter, 0, off, p).recs, Scan(b, stride, filter, limit, off, p).recs;
            cut == if |all| > limit then all[..limit] else all
    decreases |b| - off
  {
    if off + stride > |b| {
    } else {
      var q := AddStretch(b, stride, filter, off, p);
      LimitStretch(b, stride, filter, limit, off, p);
      ScanStretch(b, stride, filter, off, off + stride, p);
      if |q.recs| == limit {
        ScanExtends(b, stride, filter, off + stride, q);
      } else {
        LimitCuts(b, stride, filter, limit, off + stride, q);
      }
    }
  }

  /** A file holding the records of events lo to n of a log. */
  function Image(log: seq<Logged>, room: nat, lo: nat, n: nat): seq<u8>
    requires n <= |log|
    decreases n
  {
    if n <= lo then [] else Image(log, room, lo, n - 1) + Record(log[n - 1], room)
  }

  predicate Full(limit: nat, n: nat) { limit > 0 && n >= limit }

  /** What decoding them should give: those wanted, in order, up to the limit. */
  function Selected(log: seq<Logged>, room: nat, lo: nat, n: nat, filter: Option<u32>, limit: nat): (r: seq<Rec>)
    requires n <= |log|
    decreases n
  {
    if n <= lo then []
    else
      var front := Selected(log, room, lo, n - 1, filter, limit);
      if Full(limit, |front|) || !Wanted(filter, log[n - 1].e.sid) then front else front + [View(log[n - 1], room)]
  }

  lemma {:induction false} SelectedGrows(log: seq<Logged>, room: nat, lo: nat, k: nat, n: nat,
      filter: Option<u32>, limit: nat)
    requires lo <= k <= n <= |log| && Full(limit, |Selected(log, room, lo, k, filter, limit)|)
    ensures Selected(log, room, lo, n, filter, limit) == Selected(log, room, lo, k, filter, limit)
    decreases n
  {
    if k == n {
    } else {
      SelectedGrows(log, room, lo, k, n - 1, filter, limit);
    }
  }

  lemma {:induction false} ImageHas(log: seq<Logged>, room: nat, lo: nat, k: nat, n: nat)
    requires lo <= k < n <= |log|
    ensures Has(Image(log, room, lo, n), |Image(log, room, lo, k)|, Record(log[k], room))
    ensures |Image(log, room, lo, k)| + HDR_SIZE + room == |Image(log, room, lo, k + 1)| <= |Image(log, room, lo, n)|
    decreases n
  {
    var front := Image(log, room, lo, n - 1);
    if k == n - 1 {
      HasLast(front, Record(log[k], room));
    } else {
      ImageHas(log, room, lo, k, n - 1);
      HasStill(front, Record(log[n - 1], room), |Image(log, room, lo, k)|, Record(log[k], room));
    }
  }

  lemma HasLast(a: seq<u8>, r: seq<u8>)
    ensures Has(a + r, |a|, r)
  {
  }

  lemma HasStill(a: seq<u8>, b: seq<u8>, off: nat, r: seq<u8>)
    requires Has(a, off, r)
    ensures Has(a + b, off, r)
  {
  }

  /** What was read so far and one more event. */
  function Take(p: Parsed, l: Logged, room: nat, filter: Option<u32>): Parsed {
    if Wanted(filter, l.e.sid) then p.(recs := p.recs + [View(l, room)]) else p
  }

  /** One round of the loop on a record that was written: from p at off to q at next. */
  lemma ScanRecord(l: Logged, room: nat, b: seq<u8>, filter: Option<u32>, limit: nat, off: nat, next: nat,
      p: Parsed, q: Parsed)
    requires 0 < room < 0x1_0000 && Has(b, off, Record(l, room)) && !Full(limit, |p.recs|)
    requires next == off + HDR_SIZE + room && q == Take(p, l, room, filter)
    ensures Scan(b, HDR_SIZE + room, filter, limit, off, p) ==
              if Full(limit, |q.recs|) then q else Scan(b, HDR_SIZE + room, filter, limit, next, q)
  {
    RecordReadsBack(l, room, b, off);
    FieldOfRecord(l, room, b, off, 3);
  }

  lemma SelectedNext(log: seq<Logged>, room: nat, lo: nat, k: nat, filter: Option<u32>, limit: nat)
    requires lo <= k < |log| && !Full(limit, |Selected(log, room, lo, k, filter, limit)|)
    ensures Parsed(Selected(log, room, lo, k + 1, filter, limit), 0)
            == Take(Parsed(Selected(log, room, lo, k, filter, limit), 0), log[k], room, filter)
  {
  }

  /** The loop at record k of a written file, with the earlier ones decoded. */
  function ScanFrom(log: seq<Logged>, room: nat, lo: nat, k: nat, n: nat, filter: Option<u32>, limit: nat): Parsed
    requires k <= n <= |log|
  {
    Scan(Image(log, room, lo, n), HDR_SIZE + room, filter, limit, |Image(log, room, lo, k)|,
         Parsed(Selected(log, room, lo, k, filter, limit), 0))
  }

  lemma ScanNext(log: seq<Logged>, room: nat, lo: nat, k: nat, n: nat, filter: Option<u32>, limit: nat)
    requires 0 < room < 0x1_0000 && lo <= k < n <= |log|
    requires !Full(limit, |Selected(log, room, lo, k, filter, limit)|)
    ensures ScanFrom(log, room, lo, k, n, filter, limit) ==
              if Full(limit, |Selected(log, room, lo, k + 1, filter, limit)|)
              then Parsed(Selected(log, room, lo, k + 1, filter, limit), 0)
              else ScanFrom(log, room, lo, k + 1, n, filter, limit)
  {
    ImageHas(log, room, lo, k, n);
    SelectedNext(log, room, lo, k, filter, limit);
    ScanRecord(log[k], room, Image(log, room, lo, n), filter, limit, |Image(log, room, lo, k)|,
               |Image(log, room, lo, k + 1)|, Parsed(Selected(log, room, lo, k, filter, limit), 0),
               Parsed(Selected(log, room, lo, k + 1, filter, limit), 0));
  }

  lemma {:induction false} ScanImage(log: seq<Logged>, room: nat, lo: nat, k: nat, n: nat, filter: Option<u32>,
      limit: nat)
    requires 0 < room < 0x1_0000 && lo <= k <= n <= |log|
    requires !Full(limit, |Selected(log, room, lo, k, filter, limit)|)
    ensures ScanFrom(log, room, lo, k, n, filter, limit) == Parsed(Selected(log, room, lo, n, filter, limit), 0)
    decreases n - k
  {
    if k == n {
    } else {
      ScanNext(log, room, lo, k, n, filter, limit);
      if Full(limit, |Selected(log, room, lo, k + 1, filter, limit)|) {
        SelectedGrows(log, room, lo, k + 1, n, filter, limit);
      } else {
        ScanImage(log, room, lo, k + 1, n, filter, limit);
      }
    }
  }

  /** Decoding a written file at the written stride gives exactly the events it holds, in order, each
      field intact and each payload cut to the room, with nothing unreadable. */
  lemma ParseImage(log: seq<Logged>, room: nat, lo: nat, filter: Option<u32>, limit: nat)
    requires 0 < room < 0x1_0000 && lo <= |log|
    ensures Scan(Image(log, room, lo, |log|), HDR_SIZE + room, filter, limit, 0, Parsed([], 0))
            == Parsed(Selected(log, room, lo, |log|, filter, limit), 0)
  {
    ScanImage(log, room, lo, lo, |log|, filter, limit);
  }

  /** With no filter and no limit nothing is left out. */
  lemma {:induction false} AllSelected(log: seq<Logged>, room: nat, lo: nat, n: nat)
    requires lo <= n <= |log|
    ensures var r := Selected(log, room, lo, n, None, 0);
            |r| == n - lo && forall k :: 0 <= k < |r| ==> r[k] == View(log[n - |r| + k], room)
    decreases n
  {
    if lo == n {
    } else {
      AllSelected(log, room, lo, n - 1);
    }
  }

  // ---- The stride -------------------------------------------------------------------

  /** The stride from the meta file, if the file's size fits it.  None stands for the recovery by
      scanning for the magic. */
  function StrideFromMeta(size: nat, meta: nat): (r: Option<nat>)
    ensures r.Some? ==> r.value > HDR_SIZE && Multiple(size, r.value)
  {
    if meta > HDR_SIZE && size % meta == 0 then Some(meta) else None
  }

  lemma NoRemainder(d: nat, z: int, r: nat)
    requires r < d && d * z + r == 0
    ensures r == 0
  {
    if z < 0 {
      assert d * z == -(d * -z);
      TimesAtLeast(d, -z);
    } else if z > 0 {
      TimesAtLeast(d, z);
    }
  }

  lemma {:induction false} TimesAtLeast(d: nat, y: nat)
    requires y > 0
    ensures d * y >= d
  {
    if y <= 1 {
    } else {
      TimesAtLeast(d, y - 1);
      assert d * y == d * (y - 1) + d;
    }
  }

  lemma AddFits(a: nat, d: nat, b: nat)
    requires d > 0 && a % d == 0 && b == a + d
    ensures b % d == 0
  {
    var p, q, r := a / d, b / d, b % d;
    assert a == d * p && b == d * q + r;
    assert d * (q - p - 1) == d * q - d * p - d;
    NoRemainder(d, q - p - 1, r);
  }

  predicate Multiple(n: nat, d: nat)
    requires d > 0
  {
    n % d == 0
  }

  lemma ImageGrows(log: seq<Logged>, room: nat, lo: nat, n: nat)
    requires lo < n <= |log|
    ensures |Image(log, room, lo, n)| == |Image(log, room, lo, n - 1)| + HDR_SIZE + room
  {
  }

  lemma {:induction false} ImageFits(log: seq<Logged>, room: nat, d: nat, lo: nat, n: nat)
    requires lo <= n <= |log| && d == HDR_SIZE + room
    ensures Multiple(|Image(log, room, lo, n)|, d)
    decreases n
  {
    if lo == n {
      assert Image(log, room, lo, n) == [] && Multiple(0, d);
    } else {
      ImageFits(log, room, d, lo, n - 1);
      ImageGrows(log, room, lo, n);
      AddFits(|Image(log, room, lo, n - 1)|, d, |Image(log, room, lo, n)|);
    }
  }

  /** A complete file passes the reader's test of the stride it was written with. */
  lemma WrittenStrideAccepted(log: seq<Logged>, room: nat, lo: nat)
    requires room > 0 && lo <= |log|
    ensures StrideFromMeta(|Image(log, room, lo, |log|)|, HDR_SIZE + room) == Some(HDR_SIZE + room)
  {
    ImageFits(log, room, HDR_SIZE + room, lo, |log|);
  }
}
