/**
  The best-effort MP4 duration parser (ISO/IEC 14496-12, sections 4.2 and 8.2.2): the box header
  reader, the sibling scan, and the `moov` > `mvhd` duration field.
 */
module Mp4Duration {
  import opened Platforms
  import opened Rounding

  type Byte = x: int | 0 <= x < 256

  const BOX_HEADER_SIZE := 8
  const EXTENDED_SIZE_MARKER := 1
  const TO_END_OF_RANGE_MARKER := 0
  const MAX_SAFE_INTEGER := 9007199254740991
  const TWO_32 := 0x1_0000_0000

  /** The four letters as the type field is compared: Node's `ascii` decoding drops the high bit. */
  const MOOV: seq<Byte> := [109, 111, 111, 118]
  const MVHD: seq<Byte> := [109, 118, 104, 100]

  function U32(buf: seq<Byte>, o: nat): nat
    requires o + 4 <= |buf|
  {
    buf[o] as int * 16777216 + buf[o + 1] as int * 65536 + buf[o + 2] as int * 256 + buf[o + 3] as int
  }

  function U64(buf: seq<Byte>, o: nat): nat
    requires o + 8 <= |buf|
  {
    U32(buf, o) * TWO_32 + U32(buf, o + 4)
  }

  function Ascii(raw: seq<Byte>): (r: seq<Byte>) {
    seq(|raw|, i requires 0 <= i < |raw| => (raw[i] % 128) as Byte)
  }

  datatype Mp4Box = Mp4Box(kind: seq<Byte>, bodyStart: nat, end: nat)

  /** Every read here is inside the buffer, whatever the bytes say. */
  function ReadBoxAt(buf: seq<Byte>, offset: nat, limit: nat): (r: Option<Mp4Box>)
    requires limit <= |buf|
    ensures r.Some? ==> offset < r.value.end <= limit && offset + BOX_HEADER_SIZE <= r.value.bodyStart <= limit
  {
    if offset + BOX_HEADER_SIZE > limit then None else
    var declared := U32(buf, offset);
    var kind := Ascii(buf[offset + 4..offset + 8]);
    if declared == EXTENDED_SIZE_MARKER then ReadExtendedSizeBox(buf, offset, limit, kind) else
    var end := if declared == TO_END_OF_RANGE_MARKER then limit else offset + declared;
    if end <= offset || end > limit then None
    else Some(Mp4Box(kind, offset + BOX_HEADER_SIZE, end))
  }

  function ReadExtendedSizeBox(buf: seq<Byte>, offset: nat, limit: nat, kind: seq<Byte>): (r: Option<Mp4Box>)
    requires limit <= |buf|
    ensures r.Some? ==> offset < r.value.end <= limit && offset + BOX_HEADER_SIZE <= r.value.bodyStart <= limit
  {
    var largeSizeOffset := offset + BOX_HEADER_SIZE;
    if largeSizeOffset + 8 > limit then None else
    var largeSize := U64(buf, largeSizeOffset);
    if largeSize > MAX_SAFE_INTEGER then None else
    var end := offset + largeSize;
    if end <= offset || end > limit then None
    else Some(Mp4Box(kind, largeSizeOffset + 8, end))
  }

  /** The four bytes of a type name. */
  function Letters(name: string): (r: seq<Byte>)
    requires forall i | 0 <= i < |name| :: name[i] as int < 128
  {
    seq(|name|, i requires 0 <= i < |name| => name[i] as int)
  }

  lemma TypeNames()
    ensures MOOV == Letters("moov") && MVHD == Letters("mvhd")
  {
  }

  /**
    A box as the standard lays it out: 32-bit size, type, then with size 1 a 64-bit size of which
    the code takes what a JavaScript number holds exactly; size 0 reaches to the limit.
   */
  ghost predicate LaidOut(buf: seq<Byte>, offset: nat, limit: nat, box: Mp4Box)
    requires limit <= |buf|
  {
    && offset + 8 <= limit && offset < box.end <= limit
    && |box.kind| == 4 && (forall k | 0 <= k < 4 :: box.kind[k] == buf[offset + 4 + k] % 128)
    && var size := U32(buf, offset);
    && if size == 0 then box.bodyStart == offset + 8 && box.end == limit
       else if size == 1 then
         && offset + 16 <= limit && box.bodyStart == offset + 16
         && U64(buf, offset + 8) <= 0x1F_FFFF_FFFF_FFFF && box.end == offset + U64(buf, offset + 8)
       else box.bodyStart == offset + 8 && box.end == offset + size
  }

  /** The header reader finds a box exactly where one is laid out, a size below its own header included. */
  lemma ReadBoxIff(buf: seq<Byte>, offset: nat, limit: nat, box: Mp4Box)
    requires limit <= |buf|
    ensures ReadBoxAt(buf, offset, limit) == Some(box) <==> LaidOut(buf, offset, limit, box)
  {
    if offset + 8 <= limit {
      var raw := buf[offset + 4..offset + 8];
      assert forall k | 0 <= k < 4 :: Ascii(raw)[k] == buf[offset + 4 + k] % 128;
      if LaidOut(buf, offset, limit, box) {
        assert box.kind == Ascii(raw);
      }
    }
  }

  /** Where the first box of the sibling chain whose type reads as `kind` starts. */
  function FirstMatch(buf: seq<Byte>, offset: nat, limit: nat, kind: seq<Byte>): (h: Option<nat>)
    requires limit <= |buf|
    ensures h.Some? ==> offset <= h.value && ReadBoxAt(buf, h.value, limit).Some?
                        && ReadBoxAt(buf, h.value, limit).value.kind == kind
    decreases limit - offset
  {
    var box := ReadBoxAt(buf, offset, limit);
    if box.None? then None
    else if box.value.kind == kind then Some(offset)
    else FirstMatch(buf, box.value.end, limit, kind)
  }

  /** The sibling scan: it strictly advances, and finds the first match or nothing. */
  method FindBox(buf: seq<Byte>, start: nat, limit: nat, kind: seq<Byte>) returns (r: Option<Mp4Box>)
    requires limit <= |buf|
    ensures r == match FirstMatch(buf, start, limit, kind)
                 case Some(h) => ReadBoxAt(buf, h, limit)
                 case None => None
  {
    var offset := start;
    while offset < limit
      invariant start <= offset
      invariant FirstMatch(buf, start, limit, kind) == FirstMatch(buf, offset, limit, kind)
      decreases limit - offset
    {
      var box := ReadBoxAt(buf, offset, limit);
      if box.None? {
        return None;
      }
      if box.value.kind == kind {
        return box;
      }
      offset := box.value.end;
    }
    return None;
  }

  /** The first match is the first: every sibling the chain visits before it has another type. */
  ghost predicate Visits(buf: seq<Byte>, offset: nat, limit: nat, at: nat)
    requires limit <= |buf|
    decreases limit - offset
  {
    offset == at || (var box := ReadBoxAt(buf, offset, limit);
                     box.Some? && Visits(buf, box.value.end, limit, at))
  }

  lemma {:induction false} VisitsLater(buf: seq<Byte>, offset: nat, limit: nat, at: nat)
    requires limit <= |buf| && Visits(buf, offset, limit, at)
    ensures offset <= at
    decreases limit - offset
  {
    if offset != at {
      VisitsLater(buf, ReadBoxAt(buf, offset, limit).value.end, limit, at);
    }
  }

  lemma {:induction false} FirstMatchIsFirst(buf: seq<Byte>, offset: nat, limit: nat, kind: seq<Byte>, g: nat)
    requires limit <= |buf| && Visits(buf, offset, limit, g)
    requires ReadBoxAt(buf, g, limit).Some? && ReadBoxAt(buf, g, limit).value.kind == kind
    ensures FirstMatch(buf, offset, limit, kind).Some? && FirstMatch(buf, offset, limit, kind).value <= g
    ensures Visits(buf, offset, limit, FirstMatch(buf, offset, limit, kind).value)
    decreases limit - offset
  {
    VisitsLater(buf, offset, limit, g);
    var box := ReadBoxAt(buf, offset, limit).value;
    if box.kind != kind {
      FirstMatchIsFirst(buf, box.end, limit, kind, g);
    }
  }

  /** `Math.round(duration / timescale)`, the quotient taken as exact. */
  function ToWholeSeconds(timescale: nat, duration: nat): Option<nat> {
    if timescale == 0 || duration == 0 then None else Some(RoundHalfUp(duration, timescale))
  }

  /** The one read that can leave the buffer throws; everything else answers. */
  datatype Read = Answer(seconds: Option<nat>) | Thrown

  function ReadMvhdDurationSeconds(buf: seq<Byte>, mvhd: Mp4Box): Read
    requires mvhd.end <= |buf|
  {
    if mvhd.bodyStart >= |buf| then Thrown else
    var version := buf[mvhd.bodyStart];
    var afterVersionFlags := mvhd.bodyStart + 4;
    if version == 0 then
      var timescaleOffset := afterVersionFlags + 4 + 4;
      var durationOffset := timescaleOffset + 4;
      if durationOffset + 4 > mvhd.end then Answer(None)
      else Answer(ToWholeSeconds(U32(buf, timescaleOffset), U32(buf, durationOffset)))
    else if version == 1 then
      var timescaleOffset := afterVersionFlags + 8 + 8;
      var durationOffset := timescaleOffset + 4;
      if durationOffset + 8 > mvhd.end then Answer(None) else
      var duration := U64(buf, durationOffset);
      if duration > MAX_SAFE_INTEGER then Answer(None)
      else Answer(ToWholeSeconds(U32(buf, timescaleOffset), duration))
    else Answer(None)
  }

  /** The first `moov`, and the first `mvhd` inside it. */
  function MoovOf(buf: seq<Byte>): Option<Mp4Box> {
    match FirstMatch(buf, 0, |buf|, MOOV)
    case Some(m) => ReadBoxAt(buf, m, |buf|)
    case None => None
  }

  function MvhdOf(buf: seq<Byte>): (r: Option<Mp4Box>)
    ensures r.Some? ==> MoovOf(buf).Some? && r.value.end <= MoovOf(buf).value.end <= |buf|
                        && MoovOf(buf).value.bodyStart + BOX_HEADER_SIZE <= r.value.bodyStart
  {
    match MoovOf(buf)
    case Some(moov) =>
      (match FirstMatch(buf, moov.bodyStart, moov.end, MVHD)
       case Some(v) => ReadBoxAt(buf, v, moov.end)
       case None => None)
    case None => None
  }

  lemma MoovFrom(buf: seq<Byte>, m: nat, moov: Mp4Box)
    requires FirstMatch(buf, 0, |buf|, MOOV) == Some(m) && ReadBoxAt(buf, m, |buf|) == Some(moov)
    ensures MoovOf(buf) == Some(moov)
  {
  }

  lemma MvhdFrom(buf: seq<Byte>, moov: Mp4Box, v: nat, mvhd: Mp4Box)
    requires MoovOf(buf) == Some(moov) && moov.end <= |buf|
    requires FirstMatch(buf, moov.bodyStart, moov.end, MVHD) == Some(v) && ReadBoxAt(buf, v, moov.end) == Some(mvhd)
    ensures MvhdOf(buf) == Some(mvhd)
  {
  }

  method ParseMp4DurationSeconds(buf: seq<Byte>) returns (r: Option<nat>)
    ensures r == if MvhdOf(buf).Some? && ReadMvhdDurationSeconds(buf, MvhdOf(buf).value).Answer?
                 then ReadMvhdDurationSeconds(buf, MvhdOf(buf).value).seconds else None
    ensures forall n: nat :: r == Some(n) <==> MvhdOf(buf).Some? && CarriesDuration(buf, MvhdOf(buf).value, n)
  {
    forall n: nat | MvhdOf(buf).Some?
      ensures ReadMvhdDurationSeconds(buf, MvhdOf(buf).value) == Answer(Some(n))
         <==> CarriesDuration(buf, MvhdOf(buf).value, n)
    {
      ReadIffCarries(buf, MvhdOf(buf).value, n);
    }
    var moov := FindBox(buf, 0, |buf|, MOOV);
    if moov.None? {
      return None;
    }
    var mvhd := FindBox(buf, moov.value.bodyStart, moov.value.end, MVHD);
    if mvhd.None? {
      return None;
    }
    var read := ReadMvhdDurationSeconds(buf, mvhd.value);
    r := match read case Answer(s) => s case Thrown => None;
  }

  /** `n` is the rounded quotient of positive fields that end inside the box. */
  ghost predicate CarriesDuration(buf: seq<Byte>, mvhd: Mp4Box, n: nat) {
    && mvhd.bodyStart < mvhd.end <= |buf|
    && var version := buf[mvhd.bodyStart];
    && version <= 1
    && var timescaleAt := mvhd.bodyStart + if version == 0 then 12 else 20;
    && timescaleAt + (if version == 0 then 8 else 12) <= mvhd.end
    && var duration := if version == 0 then U32(buf, timescaleAt + 4) else U64(buf, timescaleAt + 4);
    && U32(buf, timescaleAt) > 0 && 0 < duration <= 0x1F_FFFF_FFFF_FFFF
    && n == RoundHalfUp(duration, U32(buf, timescaleAt))
  }

  lemma U32Bound(buf: seq<Byte>, o: nat)
    requires o + 4 <= |buf|
    ensures U32(buf, o) < TWO_32
  {
  }

  lemma ReadIffCarries(buf: seq<Byte>, mvhd: Mp4Box, n: nat)
    requires mvhd.end <= |buf|
    ensures ReadMvhdDurationSeconds(buf, mvhd) == Answer(Some(n)) <==> CarriesDuration(buf, mvhd, n)
  {
    if mvhd.bodyStart + 20 <= mvhd.end {
      U32Bound(buf, mvhd.bodyStart + 16);
    }
  }

  /** The version byte is out of reach exactly when nothing follows the `mvhd` header. */
  lemma ThrowsOnlyAtTheEnd(buf: seq<Byte>)
    requires MvhdOf(buf).Some?
    ensures ReadMvhdDurationSeconds(buf, MvhdOf(buf).value).Thrown? <==> MvhdOf(buf).value.bodyStart == |buf|
    ensures ReadMvhdDurationSeconds(buf, MvhdOf(buf).value).Thrown? ==>
              MvhdOf(buf).value.end <= MvhdOf(buf).value.bodyStart
  {
  }

  /** And it can happen: a bare `mvhd` header closing the file. */
  lemma ThrowReachable()
    ensures exists buf: seq<Byte> :: MvhdOf(buf).Some? && ReadMvhdDurationSeconds(buf, MvhdOf(buf).value).Thrown?
  {
    var buf: seq<Byte> := [0, 0, 0, 0, 109, 111, 111, 118, 0, 0, 0, 8, 109, 118, 104, 100];
    assert Ascii(buf[4..8]) == MOOV && Ascii(buf[12..16]) == MVHD;
    assert ReadBoxAt(buf, 0, 16) == Some(Mp4Box(MOOV, 8, 16));
    assert ReadBoxAt(buf, 8, 16) == Some(Mp4Box(MVHD, 16, 16));
    assert MvhdOf(buf).Some? && ReadMvhdDurationSeconds(buf, MvhdOf(buf).value).Thrown?;
  }
}
