/** The capture file's record: a packed little-endian header of fourteen fields and a fixed-size
    prefix of the payload.  What the writer lays out the reader's field offsets take apart again. */
module CaptureFormat {
  import opened Serial

  const MAGIC: u32 := 0x474C5A42
  const VERSION: u32 := 1
  const HDR_SIZE: nat := 52

  /** Bytes of each field: magic, version, event type, sid, tick, sequence, requested and transferred
      length, error, source address, port, flags, payload length, reserved. */
  const WIDTHS: seq<nat> := [4, 4, 4, 4, 8, 4, 4, 4, 4, 4, 2, 2, 2, 2]

  /** One thing worth logging. */
  datatype Event = Event(etype: u32, sid: u32, tick: u64, req: u32, xfer: u32, wsa: u32, ip: u32, port: u16,
                         flags: u16, payload: seq<u8>)

  /** An event and the number it was logged under. */
  datatype Logged = Logged(e: Event, sn: u32)

  function Min(a: int, b: int): int { if a <= b then a else b }

  function Pow256(w: nat): nat { if w == 0 then 1 else 256 * Pow256(w - 1) }

  /** x in w bytes, the least significant first. */
  function Encode(x: nat, w: nat): (b: seq<u8>)
    ensures |b| == w
  {
    if w == 0 then [] else [x % 256] + Encode(x / 256, w - 1)
  }

  function Decode(b: seq<u8>, off: nat, w: nat): nat
    requires off + w <= |b|
    decreases w
  {
    if w == 0 then 0 else b[off] + 256 * Decode(b, off + 1, w - 1)
  }

  /** b has s at off. */
  ghost predicate Has(b: seq<u8>, off: nat, s: seq<u8>) {
    off + |s| <= |b| && forall k :: 0 <= k < |s| ==> b[off + k] == s[k]
  }

  lemma {:induction false} DecodeEncoded(x: nat, w: nat, b: seq<u8>, off: nat)
    requires x < Pow256(w) && Has(b, off, Encode(x, w))
    ensures Decode(b, off, w) == x
  {
    if w == 0 {
    } else {
      var e, rest := Encode(x, w), Encode(x / 256, w - 1);
      assert b[off + 0] == e[0] == x % 256;
      forall k | 0 <= k < |rest| ensures b[off + 1 + k] == rest[k] {
        assert b[off + (k + 1)] == e[k + 1];
      }
      DecodeEncoded(x / 256, w - 1, b, off + 1);
    }
  }

  /** Where field n starts in the header. */
  function Offset(n: nat): nat
    requires n <= |WIDTHS|
  {
    if n == 0 then 0 else Offset(n - 1) + WIDTHS[n - 1]
  }

  lemma HeaderSize()
    ensures Offset(|WIDTHS|) == HDR_SIZE
  {
    assert Offset(4) == 16 && Offset(8) == 36 && Offset(12) == 48;
  }

  /** The first n fields, packed. */
  function Pack(vals: seq<nat>, n: nat): (b: seq<u8>)
    requires n <= |vals| == |WIDTHS|
    ensures |b| == Offset(n)
  {
    if n == 0 then [] else Pack(vals, n - 1) + Encode(vals[n - 1], WIDTHS[n - 1])
  }

  lemma {:induction false} OffsetGrows(i: nat, n: nat)
    requires i < n <= |WIDTHS|
    ensures Offset(i) + WIDTHS[i] <= Offset(n)
  {
    if i == n - 1 {
    } else {
      OffsetGrows(i, n - 1);
    }
  }

  /** Field i of the header at off. */
  function Field(b: seq<u8>, off: nat, i: nat): nat
    requires i < |WIDTHS| && off + HDR_SIZE <= |b|
  {
    OffsetGrows(i, |WIDTHS|);
    HeaderSize();
    Decode(b, off + Offset(i), WIDTHS[i])
  }

  lemma {:induction false} FieldUnpacks(vals: seq<nat>, n: nat, i: nat, b: seq<u8>, off: nat)
    requires i < n <= |vals| == |WIDTHS| && off + HDR_SIZE <= |b| && Has(b, off, Pack(vals, n))
    requires vals[i] < Pow256(WIDTHS[i])
    ensures Field(b, off, i) == vals[i]
  {
    var p, front, last := Pack(vals, n), Pack(vals, n - 1), Encode(vals[n - 1], WIDTHS[n - 1]);
    if i < n - 1 {
      forall k | 0 <= k < |front| ensures b[off + k] == front[k] {
        assert p[k] == front[k];
      }
      FieldUnpacks(vals, n - 1, i, b, off);
    } else {
      forall k | 0 <= k < |last| ensures b[off + Offset(i) + k] == last[k] {
        assert p[Offset(i) + k] == last[k];
        assert b[off + (Offset(i) + k)] == p[Offset(i) + k];
      }
      DecodeEncoded(vals[i], WIDTHS[i], b, off + Offset(i));
    }
  }

  // ---- Records ---------------------------------------------------------------------

  function Kept(e: Event, room: nat): (n: nat)
    ensures n <= |e.payload| && n <= room
  {
    Min(|e.payload|, room)
  }

  function Values(l: Logged, room: nat): (r: seq<nat>)
    ensures |r| == |WIDTHS|
  {
    [MAGIC, VERSION, l.e.etype, l.e.sid, l.e.tick, l.sn, l.e.req, l.e.xfer, l.e.wsa, l.e.ip, l.e.port, l.e.flags,
     Kept(l.e, room), 0]
  }

  /** A record with room for that many payload bytes, the rest of it zero. */
  function Record(l: Logged, room: nat): (b: seq<u8>)
    ensures |b| == HDR_SIZE + room
  {
    HeaderSize();
    Pack(Values(l, room), |WIDTHS|) + l.e.payload[..Kept(l.e, room)] + seq(room - Kept(l.e, room), _ => 0)
  }

  /** What the reader makes of a record. */
  datatype Rec = Rec(ver: nat, etype: nat, sid: nat, tick: nat, sn: nat, req: nat, xfer: nat, wsa: nat, ip: nat,
                     port: nat, flags: nat, payload: seq<u8>)

  function ReadRecord(b: seq<u8>, off: nat, stride: nat): Rec
    requires stride >= HDR_SIZE && off + stride <= |b|
  {
    var plen := Min(Field(b, off, 12), stride - HDR_SIZE);
    Rec(Field(b, off, 1), Field(b, off, 2), Field(b, off, 3), Field(b, off, 4), Field(b, off, 5), Field(b, off, 6),
        Field(b, off, 7), Field(b, off, 8), Field(b, off, 9), Field(b, off, 10), Field(b, off, 11),
        b[off + HDR_SIZE..off + HDR_SIZE + plen])
  }

  /** What it should: every field, and the payload cut to the room. */
  function View(l: Logged, room: nat): Rec {
    Rec(VERSION, l.e.etype, l.e.sid, l.e.tick, l.sn, l.e.req, l.e.xfer, l.e.wsa, l.e.ip, l.e.port, l.e.flags,
        l.e.payload[..Kept(l.e, room)])
  }

  lemma ValuesFit(l: Logged, room: nat, i: nat)
    requires room < 0x1_0000 && i < |WIDTHS|
    ensures Values(l, room)[i] < Pow256(WIDTHS[i])
  {
    assert Pow256(2) == 0x1_0000;
    assert Pow256(4) == 0x1_0000 * Pow256(2);
    assert Pow256(8) == 0x1_0000_0000 * Pow256(4) by {
      assert Pow256(6) == 0x1_0000 * Pow256(4);
    }
  }

  lemma FieldOfRecord(l: Logged, room: nat, b: seq<u8>, off: nat, i: nat)
    requires room < 0x1_0000 && i < |WIDTHS| && Has(b, off, Record(l, room))
    ensures Field(b, off, i) == Values(l, room)[i]
  {
    HeaderSize();
    var r, p := Record(l, room), Pack(Values(l, room), |WIDTHS|);
    forall k | 0 <= k < |p| ensures b[off + k] == p[k] {
      assert r[k] == p[k];
    }
    ValuesFit(l, room, i);
    FieldUnpacks(Values(l, room), |WIDTHS|, i, b, off);
  }

  lemma PayloadOfRecord(l: Logged, room: nat, b: seq<u8>, off: nat)
    requires Has(b, off, Record(l, room))
    ensures b[off + HDR_SIZE..off + HDR_SIZE + Kept(l.e, room)] == l.e.payload[..Kept(l.e, room)]
  {
    HeaderSize();
    var r, n := Record(l, room), Kept(l.e, room);
    forall k | 0 <= k < n ensures b[off + HDR_SIZE + k] == l.e.payload[k] {
      assert b[off + (HDR_SIZE + k)] == r[HDR_SIZE + k];
    }
  }

  /** Reading undoes writing: a record found in a file gives back its event, and carries the magic. */
  lemma RecordReadsBack(l: Logged, room: nat, b: seq<u8>, off: nat)
    requires 0 < room < 0x1_0000 && Has(b, off, Record(l, room))
    ensures Field(b, off, 0) == MAGIC && ReadRecord(b, off, HDR_SIZE + room) == View(l, room)
  {
    forall i | 0 <= i < |WIDTHS| ensures Field(b, off, i) == Values(l, room)[i] {
      FieldOfRecord(l, room, b, off, i);
    }
    PayloadOfRecord(l, room, b, off);
  }
}
