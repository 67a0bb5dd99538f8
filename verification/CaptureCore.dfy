/** The capture ring as it runs: records written in place into one flat buffer, the oldest overwritten
    once it is full, and the file flushed from it, oldest first. */
module CaptureCore {
  import opened Serial
  import opened CaptureFormat
  import opened CaptureReader

  /** Where the d-th newest record lies, in a ring of n slots written up to head. */
  function Back(head: nat, d: nat, n: nat): nat
    requires head < n && 1 <= d <= n
  {
    Wrap(head + n - d, n)
  }

  /** The d-th newest slot holds the record of the d-th newest event. */
  ghost predicate NewestHeld(buf: seq<u8>, log: seq<Logged>, head: nat, n: nat, room: nat, d: nat)
    requires head < n && 1 <= d <= n && d <= |log|
  {
    Has(buf, SlotStart(Back(head, d, n), HDR_SIZE + room), Record(log[|log| - d], room))
  }

  /** So for all of them the ring has room for. */
  ghost predicate RingHolds(buf: seq<u8>, log: seq<Logged>, head: nat, n: nat, room: nat)
    requires head < n
  {
    forall d :: 1 <= d <= Min(|log|, n) ==> NewestHeld(buf, log, head, n, room, d)
  }

  /** b agrees with a except on size bytes from at on. */
  ghost predicate SameOutside(a: seq<u8>, b: seq<u8>, at: nat, size: nat) {
    |a| == |b| && forall j :: 0 <= j < |a| && !(at <= j < at + size) ==> a[j] == b[j]
  }

  lemma KeptOutside(a: seq<u8>, b: seq<u8>, at: nat, size: nat, off: nat, s: seq<u8>)
    requires SameOutside(a, b, at, size) && Has(a, off, s) && (off + |s| <= at || at + size <= off)
    ensures Has(b, off, s)
  {
  }

  lemma HasSlice(b: seq<u8>, off: nat, s: seq<u8>)
    requires Has(b, off, s)
    ensures b[off..off + |s|] == s
  {
  }

  /** Overwriting the slot at head with a record moves every event one further back and drops only the
      one that no longer fits. */
  lemma WriteKeeps(a: seq<u8>, b: seq<u8>, log: seq<Logged>, l: Logged, head: nat, n: nat, room: nat)
    requires head < n && RingHolds(a, log, head, n, room)
    requires SameOutside(a, b, SlotStart(head, HDR_SIZE + room), HDR_SIZE + room)
    requires Has(b, SlotStart(head, HDR_SIZE + room), Record(l, room))
    ensures RingHolds(b, log + [l], Wrap(head + 1, n), n, room)
  {
    var next, all := Wrap(head + 1, n), log + [l];
    forall d | 1 <= d <= Min(|all|, n) ensures NewestHeld(b, all, next, n, room, d) {
      if d > 1 {
        var at := Back(head, d - 1, n);
        assert Back(next, d, n) == at != head && all[|all| - d] == log[|log| - (d - 1)];
        assert NewestHeld(a, log, head, n, room, d - 1);
        if at < head {
          SlotsApart(at, head, HDR_SIZE + room);
        } else {
          SlotsApart(head, at, HDR_SIZE + room);
        }
        KeptOutside(a, b, SlotStart(head, HDR_SIZE + room), HDR_SIZE + room, SlotStart(at, HDR_SIZE + room),
                    Record(log[|log| - (d - 1)], room));
      }
    }
  }

  class CaptureRing {
    const records: nat
    const room: nat  // payload bytes kept
    const peers: seq<u32>  // the addresses asked for; none means all
    const stride: nat
    const ring: array<u8>
    var head: nat
    var count: nat
    var sequence: u32
    var total: nat

    ghost var log: seq<Logged>  // everything logged so far

    ghost predicate Valid()
      reads this, ring
    {
      && records >= 1 && 0 < room < 0x1_0000 && stride == HDR_SIZE + room && ring.Length == SlotStart(records, stride)
      && head < records && count == Min(|log|, records)
      && total == |log| && sequence == |log| % MOD
      && RingHolds(ring[..], log, head, records, room)
    }

    constructor (records: nat, room: nat, peers: seq<u32>)
      requires records >= 1 && 0 < room < 0x1_0000
      ensures Valid() && fresh(ring) && log == []
      ensures this.records == records && this.room == room && this.peers == peers
    {
      this.records, this.room, stride, this.peers := records, room, HDR_SIZE + room, peers;
      head, count, sequence, total, log := 0, 0, 0, 0, [];
      SlotStartIs(records, HDR_SIZE + room);
      ring := new u8[records * (HDR_SIZE + room)](_ => 0);
    }

    method Locate(i: nat) returns (at: nat)
      requires Valid() && i < records
      ensures at == SlotStart(i, stride) && at + stride <= ring.Length
    {
      SlotStartIs(i, stride);
      SlotsApart(i, records, stride);
      at := i * stride;
    }

    /** Write x in w bytes, least significant first. */
    method PutField(at: nat, x: nat, w: nat)
      requires at + w <= ring.Length
      modifies ring
      ensures SameOutside(old(ring[..]), ring[..], at, w) && Has(ring[..], at, Encode(x, w))
      decreases w
    {
      if w > 0 {
        ring[at] := x % 256;
        PutField(at + 1, x / 256, w - 1);
        ghost var e, rest, b := Encode(x, w), Encode(x / 256, w - 1), ring[..];
        forall k | 0 <= k < w ensures b[at + k] == e[k] {
          if k > 0 {
            assert b[at + 1 + (k - 1)] == rest[k - 1] == e[k];
          }
        }
      }
    }

    /** Write the packed header, field after field. */
    method PutHeader(at: nat, vals: seq<nat>)
      requires |vals| == |WIDTHS| && at + HDR_SIZE <= ring.Length
      modifies ring
      ensures SameOutside(old(ring[..]), ring[..], at, HDR_SIZE) && Has(ring[..], at, Pack(vals, |WIDTHS|))
    {
      HeaderSize();
      ghost var was := ring[..];
      var off := 0;
      for i := 0 to |WIDTHS|
        invariant off == Offset(i)
        invariant SameOutside(was, ring[..], at, HDR_SIZE) && Has(ring[..], at, Pack(vals, i))
      {
        OffsetGrows(i, |WIDTHS|);
        ghost var before := ring[..];
        PutField(at + off, vals[i], WIDTHS[i]);
        KeptOutside(before, ring[..], at + off, WIDTHS[i], at, Pack(vals, i));
        HasBoth(ring[..], at, Pack(vals, i), Encode(vals[i], WIDTHS[i]));
        off := off + WIDTHS[i];
      }
    }

    /** Copy the payload's first n bytes, if there is one, and clear what is left of the room. */
    method PutPayload(at: nat, payload: seq<u8>, n: nat, missing: bool)
      requires n <= |payload| && n <= room && at + room <= ring.Length
      requires missing ==> Has(ring[..], at, payload[..n])
      modifies ring
      ensures SameOutside(old(ring[..]), ring[..], at, room)
      ensures Has(ring[..], at, payload[..n] + seq(room - n, _ => 0))
    {
      if !missing {
        CopyPayload(at, payload, n);
      }
      ghost var was := ring[..];
      for k := n to room
        invariant forall j :: 0 <= j < ring.Length ==> ring[j] == if at + n <= j < at + k then 0 else was[j]
      {
        ring[at + k] := 0;
      }
      forall j | 0 <= j < n ensures ring[at + j] == payload[j] {
        assert was[at + j] == payload[..n][j];
      }
    }

    method CopyPayload(at: nat, payload: seq<u8>, n: nat)
      requires n <= |payload| && at + n <= ring.Length
      modifies ring
      ensures SameOutside(old(ring[..]), ring[..], at, n) && Has(ring[..], at, payload[..n])
    {
      for k := 0 to n
        invariant forall j :: 0 <= j < ring.Length ==>
                    ring[j] == if at <= j < at + k then payload[j - at] else old(ring[j])
      {
        ring[at + k] := payload[k];
      }
    }

    /** Write one record into the slot at an offset; a missing payload is whatever the slot has there. */
    method PutRecord(at: nat, l: Logged, missing: bool)
      requires at + HDR_SIZE + room <= ring.Length
      requires missing ==> Has(ring[..], at + HDR_SIZE, l.e.payload[..Kept(l.e, room)])
      modifies ring
      ensures SameOutside(old(ring[..]), ring[..], at, HDR_SIZE + room) && Has(ring[..], at, Record(l, room))
    {
      var n := Kept(l.e, room);
      HeaderSize();
      ghost var vals, was := Values(l, room), ring[..];
      PutHeader(at, Values(l, room));
      ghost var before := ring[..];
      if missing {
        KeptOutside(was, before, at, HDR_SIZE, at + HDR_SIZE, l.e.payload[..n]);
      }
      PutPayload(at + HDR_SIZE, l.e.payload, n, missing);
      KeptOutside(before, ring[..], at + HDR_SIZE, room, at, Pack(vals, |WIDTHS|));
      HasBoth(ring[..], at, Pack(vals, |WIDTHS|), l.e.payload[..n] + seq(room - n, _ => 0));
      assert Record(l, room) == Pack(vals, |WIDTHS|) + (l.e.payload[..n] + seq(room - n, _ => 0));
    }

    /** Is the event of a peer that was asked for, or of none? */
    method Accepts(ip: u32) returns (r: bool)
      ensures r == (peers == [] || ip == 0 || ip in peers)
    {
      if |peers| == 0 || ip == 0 {
        return true;
      }
      for i := 0 to |peers|
        invariant forall j :: 0 <= j < i ==> peers[j] != ip
      {
        if peers[i] == ip {
          return true;
        }
      }
      r := false;
    }

    /** The bytes the slot at the head has where a payload of n bytes goes. */
    ghost function Stale(n: nat): (r: seq<u8>)
      requires Valid() && n <= room
      reads this, ring
      ensures |r| == n
    {
      SlotStartIs(head, stride);
      SlotsApart(head, records, stride);
      var at := SlotStart(head, stride) + HDR_SIZE;
      ring[..][at..at + n]
    }

    /** Log an event, unless its peer is filtered out.  A payload announced but missing leaves the slot's
        old bytes in its place, and they are what is logged. */
    method LogEvent(e: Event, missing: bool)
      requires Valid()
      modifies this`head, this`count, this`sequence, this`total, this`log, ring
      ensures Valid()
      ensures if peers != [] && e.ip != 0 && e.ip !in peers then log == old(log) && ring[..] == old(ring[..])
              else
                var kept := if missing then e.(payload := old(Stale(Kept(e, room)))) else e;
                log == old(log) + [Logged(kept, |old(log)| % MOD)]
    {
      var wanted := Accepts(e.ip);
      if wanted {
        var l := Prepare(e, missing);
        Append(l, missing);
      }
    }

    /** The event as the slot at the head will hold it. */
    method Prepare(e: Event, missing: bool) returns (l: Logged)
      requires Valid()
      ensures l == Logged(if missing then e.(payload := Stale(Kept(e, room))) else e, sequence)
    {
      if !missing {
        return Logged(e, sequence);
      }
      var at := Locate(head);
      var n := Kept(e, room);
      l := Logged(e.(payload := ring[..][at + HDR_SIZE..at + HDR_SIZE + n]), sequence);
    }

    method PutAtHead(l: Logged, missing: bool)
      requires Valid()
      requires missing ==> |l.e.payload| <= room && l.e.payload == Stale(|l.e.payload|)
      modifies ring
      ensures RingHolds(ring[..], log + [l], Wrap(head + 1, records), records, room)
    {
      var at := Locate(head);
      ghost var before := ring[..];
      PutRecord(at, l, missing);
      WriteKeeps(before, ring[..], log, l, head, records, room);
    }

    /** Write the record at the head and move the head on. */
    method Append(l: Logged, missing: bool)
      requires Valid() && l.sn == sequence
      requires missing ==> |l.e.payload| <= room && l.e.payload == Stale(|l.e.payload|)
      modifies this`head, this`count, this`sequence, this`total, this`log, ring
      ensures Valid() && log == old(log) + [l]
    {
      PutAtHead(l, missing);
      head := RingIndex(head + 1, records);
      if count < records {
        count := count + 1;
      }
      log := log + [l];
      sequence := Next(sequence);
      total := total + 1;
    }

    /** Write the ring to a file, oldest record first. */
    method Flush() returns (file: seq<u8>)
      requires Valid()
      ensures file == Image(log, room, |log| - count, |log|)
    {
      var start := RingIndex(head + records - count, records);
      ghost var lo := |log| - count;
      file := [];
      for i := 0 to count
        invariant file == Image(log, room, lo, lo + i)
      {
        var idx := RingIndex(start + i, records);
        assert idx == Back(head, count - i, records);
        assert NewestHeld(ring[..], log, head, records, room, count - i);
        var at := Locate(idx);
        HasSlice(ring[..], at, Record(log[lo + i], room));
        file := file + ring[..][at..at + stride];
      }
    }
  }

  lemma HasBoth(b: seq<u8>, at: nat, s: seq<u8>, t: seq<u8>)
    requires Has(b, at, s) && Has(b, at + |s|, t)
    ensures Has(b, at, s + t)
  {
    forall k | 0 <= k < |s + t| ensures b[at + k] == (s + t)[k] {
      if k >= |s| {
        assert b[at + |s| + (k - |s|)] == t[k - |s|];
      }
    }
  }

  /** A file of the newest events that n slots hold decodes to exactly those. */
  lemma FileDecodes(log: seq<Logged>, room: nat, n: nat, filter: Option<u32>, limit: nat)
    requires 0 < room < 0x1_0000
    ensures var lo := |log| - Min(|log|, n);
            Scan(Image(log, room, lo, |log|), HDR_SIZE + room, filter, limit, 0, Parsed([], 0))
            == Parsed(Selected(log, room, lo, |log|, filter, limit), 0)
  {
    ParseImage(log, room, |log| - Min(|log|, n), filter, limit);
  }

  lemma NewestSelected(log: seq<Logged>, room: nat, n: nat)
    ensures var r := Selected(log, room, |log| - Min(|log|, n), |log|, None, 0);
            |r| == Min(|log|, n) && forall k :: 0 <= k < |r| ==> r[k] == View(log[|log| - |r| + k], room)
  {
    AllSelected(log, room, |log| - Min(|log|, n), |log|);
  }

  /** Everything between logging and reading back: after any number of events, the flushed file passes
      the stride test, and decoding it gives exactly the last of them that the ring could hold. */
  method RoundTrip(c: CaptureRing, filter: Option<u32>, limit: nat) returns (file: seq<u8>, p: Parsed)
    requires c.Valid()
    ensures StrideFromMeta(|file|, c.stride) == Some(c.stride)
    ensures var lo := |c.log| - Min(|c.log|, c.records);
            p == Parsed(Selected(c.log, c.room, lo, |c.log|, filter, limit), 0)
    ensures filter == None && limit == 0 ==>
              && |p.recs| == Min(|c.log|, c.records)
              && forall k :: 0 <= k < |p.recs| ==> p.recs[k] == View(c.log[|c.log| - |p.recs| + k], c.room)
  {
    file := c.Flush();
    WrittenStrideAccepted(c.log, c.room, |c.log| - c.count);
    p := Parse(file, c.stride, filter, limit);
    FileDecodes(c.log, c.room, c.records, filter, limit);
    NewestSelected(c.log, c.room, c.records);
  }
}
