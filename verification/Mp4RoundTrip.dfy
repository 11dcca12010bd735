/**
  A serializer for box lists (ISO/IEC 14496-12, section 4.2) and the round trip: what is written
  is what the parser reads back.
 */
module Mp4RoundTrip {
  import opened Platforms
  import opened Rounding
  import opened Mp4Duration

  /** 32-bit size, 64-bit largesize, or size 0: "to the end of the enclosing range". */
  datatype SizeForm = Compact | Large | ToEnd

  datatype Box = Box(kind: seq<Byte>, form: SizeForm, body: seq<Byte>)
  {
    ghost predicate Encodable() {
      && |kind| == 4
      && (form.Compact? ==> 8 + |body| < TWO_32)
      && (form.Large? ==> 16 + |body| <= MAX_SAFE_INTEGER)
    }

    function HeaderLength(): nat {
      if form.Large? then 16 else 8
    }

    ghost predicate ReadsAs(name: seq<Byte>) {
      Ascii(kind) == name
    }
  }

  function Be32(n: nat): (r: seq<Byte>)
    requires n < TWO_32
    ensures |r| == 4
  {
    [n / 256 / 256 / 256, n / 256 / 256 % 256, n / 256 % 256, n % 256]
  }

  function Be64(n: nat): (r: seq<Byte>)
    requires n < TWO_32 * TWO_32
    ensures |r| == 8
  {
    Be32(n / TWO_32) + Be32(n % TWO_32)
  }

  function Bytes(box: Box): (r: seq<Byte>)
    requires box.Encodable()
    ensures |r| == box.HeaderLength() + |box.body|
  {
    match box.form
    case Compact => Be32(8 + |box.body|) + box.kind + box.body
    case Large => Be32(1) + box.kind + Be64(16 + |box.body|) + box.body
    case ToEnd => Be32(0) + box.kind + box.body
  }

  /** Earlier siblings say where they end and are not of the type looked for. */
  ghost predicate Siblings(boxes: seq<Box>, name: seq<Byte>) {
    forall i | 0 <= i < |boxes| :: boxes[i].Encodable() && !boxes[i].form.ToEnd? && !boxes[i].ReadsAs(name)
  }

  function Parts(boxes: seq<Box>): seq<seq<Byte>>
    requires forall i | 0 <= i < |boxes| :: boxes[i].Encodable()
  {
    seq(|boxes|, i requires 0 <= i < |boxes| => Bytes(boxes[i]))
  }

  function Join(parts: seq<seq<Byte>>): seq<Byte> {
    if parts == [] then [] else parts[0] + Join(parts[1..])
  }

  /** `part` is what the buffer holds from `o`. */
  ghost predicate Holds(buf: seq<Byte>, o: nat, part: seq<Byte>) {
    o + |part| <= |buf| && forall k {:trigger part[k]} | 0 <= k < |part| :: buf[o + k] == part[k]
  }

  lemma HoldsSplit(buf: seq<Byte>, o: nat, a: seq<Byte>, b: seq<Byte>)
    requires Holds(buf, o, a + b)
    ensures Holds(buf, o, a) && Holds(buf, o + |a|, b)
  {
    forall k | 0 <= k < |a| ensures buf[o + k] == a[k] {
      assert (a + b)[k] == a[k];
    }
    forall k | 0 <= k < |b| ensures buf[o + |a| + k] == b[k] {
      assert (a + b)[|a| + k] == b[k];
      assert buf[o + (|a| + k)] == (a + b)[|a| + k];
    }
  }

  lemma Be32Value(n: nat)
    requires n < TWO_32
    ensures var d := Be32(n);
            d[0] as int * 16777216 + d[1] as int * 65536 + d[2] as int * 256 + d[3] as int == n
  {
  }

  lemma Be32Reads(buf: seq<Byte>, o: nat, n: nat)
    requires n < TWO_32 && Holds(buf, o, Be32(n))
    ensures U32(buf, o) == n
  {
    var d := Be32(n);
    assert buf[o + 0] == d[0] && buf[o + 1] == d[1] && buf[o + 2] == d[2] && buf[o + 3] == d[3];
    Be32Value(n);
  }

  lemma Be64Reads(buf: seq<Byte>, o: nat, n: nat)
    requires n < TWO_32 * TWO_32 && Holds(buf, o, Be64(n))
    ensures U64(buf, o) == n
  {
    HoldsSplit(buf, o, Be32(n / TWO_32), Be32(n % TWO_32));
    Be32Reads(buf, o, n / TWO_32);
    Be32Reads(buf, o + 4, n % TWO_32);
  }

  /** Where a box written at `at` is found. */
  ghost predicate Frames(found: Mp4Box, at: nat, box: Box, name: seq<Byte>)
    requires box.Encodable()
  {
    found.kind == name && found.bodyStart == at + box.HeaderLength() && found.end == at + |Bytes(box)|
  }

  /** A written box reads back: its type, where its body starts, where it ends. */
  lemma ReadsBack(buf: seq<Byte>, o: nat, limit: nat, box: Box)
    requires box.Encodable() && Holds(buf, o, Bytes(box))
    requires o + |Bytes(box)| <= limit <= |buf| && (box.form.ToEnd? ==> limit == o + |Bytes(box)|)
    ensures ReadBoxAt(buf, o, limit).Some? && Frames(ReadBoxAt(buf, o, limit).value, o, box, Ascii(box.kind))
    ensures Holds(buf, o + box.HeaderLength(), box.body)
  {
    if box.form.Large? {
      ReadsBackLarge(buf, o, limit, box);
    } else {
      ReadsBackShort(buf, o, limit, box);
    }
  }

  lemma ReadsBackShort(buf: seq<Byte>, o: nat, limit: nat, box: Box)
    requires box.Encodable() && !box.form.Large? && Holds(buf, o, Bytes(box))
    requires o + |Bytes(box)| <= limit <= |buf| && (box.form.ToEnd? ==> limit == o + |Bytes(box)|)
    ensures ReadBoxAt(buf, o, limit) == Some(Mp4Box(Ascii(box.kind), o + 8, o + |Bytes(box)|))
    ensures Holds(buf, o + 8, box.body)
  {
    var size := if box.form.Compact? then 8 + |box.body| else 0;
    HoldsSplit(buf, o, Be32(size) + box.kind, box.body);
    HoldsSplit(buf, o, Be32(size), box.kind);
    Be32Reads(buf, o, size);
    KindReads(buf, o + 4, box.kind);
  }

  lemma ReadsBackLarge(buf: seq<Byte>, o: nat, limit: nat, box: Box)
    requires box.Encodable() && box.form.Large? && Holds(buf, o, Bytes(box))
    requires o + |Bytes(box)| <= limit <= |buf|
    ensures ReadBoxAt(buf, o, limit) == Some(Mp4Box(Ascii(box.kind), o + 16, o + |Bytes(box)|))
    ensures Holds(buf, o + 16, box.body)
  {
    var large := 16 + |box.body|;
    HoldsSplit(buf, o, Be32(1) + box.kind + Be64(large), box.body);
    HoldsSplit(buf, o, Be32(1) + box.kind, Be64(large));
    HoldsSplit(buf, o, Be32(1), box.kind);
    Be32Reads(buf, o, 1);
    Be64Reads(buf, o + 8, large);
    KindReads(buf, o + 4, box.kind);
  }

  lemma KindReads(buf: seq<Byte>, o: nat, kind: seq<Byte>)
    requires Holds(buf, o, kind)
    ensures buf[o..o + |kind|] == kind
  {
  }

  type Finder<T> = (seq<Byte>, nat, nat) -> T

  /** The scan for `name`, as a value: a proof about any scan then need not look inside this one. */
  function ScanFor(name: seq<Byte>): Finder<Option<nat>> {
    (buf: seq<Byte>, o: nat, limit: nat) => if limit <= |buf| then FirstMatch(buf, o, limit, name) else None
  }

  /** Wherever this part is, the scan gives the same answer before it and after it. */
  ghost predicate SteppedOver<T>(scan: Finder<T>, part: seq<Byte>) {
    forall buf: seq<Byte>, o: nat, limit: nat | Holds(buf, o, part) && o + |part| <= limit <= |buf| ::
      scan(buf, o, limit) == scan(buf, o + |part|, limit)
  }

  lemma StepOverBox(buf: seq<Byte>, o: nat, limit: nat, name: seq<Byte>)
    requires limit <= |buf| && ReadBoxAt(buf, o, limit).Some?
    ensures FirstMatch(buf, o, limit, name) ==
              if ReadBoxAt(buf, o, limit).value.kind == name then Some(o)
              else FirstMatch(buf, ReadBoxAt(buf, o, limit).value.end, limit, name)
  {
  }

  lemma SiblingSteppedOver(box: Box, name: seq<Byte>)
    requires box.Encodable() && !box.form.ToEnd? && !box.ReadsAs(name)
    ensures SteppedOver(ScanFor(name), Bytes(box))
  {
    forall buf: seq<Byte>, o: nat, limit: nat | Holds(buf, o, Bytes(box)) && o + |Bytes(box)| <= limit <= |buf|
      ensures FirstMatch(buf, o, limit, name) == FirstMatch(buf, o + |Bytes(box)|, limit, name)
    {
      SkipsBox(buf, o, limit, box, name);
    }
  }

  lemma SkipsBox(buf: seq<Byte>, o: nat, limit: nat, box: Box, name: seq<Byte>)
    requires box.Encodable() && !box.form.ToEnd? && !box.ReadsAs(name)
    requires Holds(buf, o, Bytes(box)) && o + |Bytes(box)| <= limit <= |buf|
    ensures FirstMatch(buf, o, limit, name) == FirstMatch(buf, o + |Bytes(box)|, limit, name)
  {
    ReadsBack(buf, o, limit, box);
    StepOverBox(buf, o, limit, name);
  }

  /** A scan that steps over each part steps over all of them. */
  lemma {:induction false} StepsOverAll<T>(scan: Finder<T>, buf: seq<Byte>, o: nat, limit: nat, parts: seq<seq<Byte>>)
    requires forall i | 0 <= i < |parts| :: SteppedOver(scan, parts[i])
    requires Holds(buf, o, Join(parts)) && o + |Join(parts)| <= limit <= |buf|
    ensures scan(buf, o, limit) == scan(buf, o + |Join(parts)|, limit)
    decreases |parts|
  {
    if parts != [] {
      HoldsSplit(buf, o, parts[0], Join(parts[1..]));
      StepsOverAll(scan, buf, o + |parts[0]|, limit, parts[1..]);
    }
  }

  /** The `mvhd` payload (section 8.2.2): version, flags, two times, timescale, duration, the rest. */
  datatype Mvhd = Mvhd(wide: bool, flags: seq<Byte>, times: seq<Byte>, timescale: nat, duration: nat, rest: seq<Byte>)
  {
    ghost predicate Encodable() {
      && |flags| == 3 && |times| == (if wide then 16 else 8)
      && timescale < TWO_32 && duration < (if wide then TWO_32 * TWO_32 else TWO_32)
    }

    function Prefix(): seq<Byte> {
      [if wide then 1 else 0] + flags + times
    }

    function Body(): seq<Byte>
      requires Encodable()
    {
      Prefix() + Be32(timescale) + (if wide then Be64(duration) else Be32(duration)) + rest
    }

    function Seconds(): Option<nat> {
      if timescale == 0 || duration == 0 || duration > MAX_SAFE_INTEGER then None
      else Some(RoundHalfUp(duration, timescale))
    }
  }

  lemma PayloadReads(buf: seq<Byte>, mvhd: Mp4Box, m: Mvhd)
    requires m.Encodable() && Holds(buf, mvhd.bodyStart, m.Body())
    requires mvhd.end == mvhd.bodyStart + |m.Body()|
    ensures ReadMvhdDurationSeconds(buf, mvhd) == Answer(m.Seconds())
  {
    var o := mvhd.bodyStart;
    var duration := if m.wide then Be64(m.duration) else Be32(m.duration);
    HoldsSplit(buf, o, m.Prefix() + Be32(m.timescale) + duration, m.rest);
    HoldsSplit(buf, o, m.Prefix() + Be32(m.timescale), duration);
    HoldsSplit(buf, o, m.Prefix(), Be32(m.timescale));
    assert buf[o + 0] == m.Prefix()[0];
    Be32Reads(buf, o + |m.Prefix()|, m.timescale);
    if m.wide {
      Be64Reads(buf, o + |m.Prefix()| + 4, m.duration);
    } else {
      Be32Reads(buf, o + |m.Prefix()| + 4, m.duration);
    }
  }

  /** A `moov` whose children lead, past other types, to an `mvhd`; `junk` is anything after it. */
  ghost predicate MoovHolds(moov: Box, kids: seq<Box>, mvhd: Box, junk: seq<Byte>) {
    && moov.Encodable() && moov.ReadsAs(MOOV)
    && Siblings(kids, MVHD) && mvhd.Encodable() && mvhd.ReadsAs(MVHD)
    && moov.body == Join(Parts(kids)) + Bytes(mvhd) + junk
    && (mvhd.form.ToEnd? ==> junk == [])
  }

  lemma HoldsThree(buf: seq<Byte>, o: nat, a: seq<Byte>, b: seq<Byte>, c: seq<Byte>)
    requires Holds(buf, o, a + b + c)
    ensures Holds(buf, o, a) && Holds(buf, o + |a|, b)
  {
    HoldsSplit(buf, o, a + b, c);
    HoldsSplit(buf, o, a, b);
  }

  /** One level of the file: siblings, the box looked for, anything up to the limit. */
  lemma FindsOneLevel(buf: seq<Byte>, o: nat, limit: nat, parts: seq<seq<Byte>>, at: nat, box: Box,
                      name: seq<Byte>, found: Mp4Box)
    requires forall i | 0 <= i < |parts| :: SteppedOver(ScanFor(name), parts[i])
    requires box.Encodable() && box.ReadsAs(name)
    requires at == o + |Join(parts)| && Holds(buf, o, Join(parts)) && Holds(buf, at, Bytes(box))
    requires at + |Bytes(box)| <= limit <= |buf| && (box.form.ToEnd? ==> limit == at + |Bytes(box)|)
    requires Frames(found, at, box, name)
    ensures FirstMatch(buf, o, limit, name) == Some(at)
    ensures ReadBoxAt(buf, at, limit) == Some(found)
    ensures Holds(buf, found.bodyStart, box.body)
  {
    ReadsBack(buf, at, limit, box);
    FramesUnique(found, ReadBoxAt(buf, at, limit).value, at, box, name);
    StepsOverAll(ScanFor(name), buf, o, limit, parts);
    StepOverBox(buf, at, limit, name);
  }

  lemma FramesUnique(a: Mp4Box, b: Mp4Box, at: nat, box: Box, name: seq<Byte>)
    requires box.Encodable() && Frames(a, at, box, name) && Frames(b, at, box, name)
    ensures a == b
  {
  }

  lemma AllSteppedOver(boxes: seq<Box>, name: seq<Byte>)
    requires Siblings(boxes, name)
    ensures forall i | 0 <= i < |boxes| :: SteppedOver(ScanFor(name), Parts(boxes)[i])
  {
    forall i | 0 <= i < |boxes| ensures SteppedOver(ScanFor(name), Parts(boxes)[i]) {
      SiblingSteppedOver(boxes[i], name);
    }
  }

  lemma FindsMoov(buf: seq<Byte>, before: seq<Box>, moov: Box, after: seq<Byte>, found: Mp4Box)
    requires Siblings(before, MOOV) && moov.Encodable() && moov.ReadsAs(MOOV) && (moov.form.ToEnd? ==> after == [])
    requires buf == Join(Parts(before)) + Bytes(moov) + after
    requires Frames(found, |Join(Parts(before))|, moov, MOOV)
    ensures MoovOf(buf) == Some(found) && Holds(buf, found.bodyStart, moov.body) && found.end <= |buf|
  {
    var outer := Parts(before);
    var at := |Join(outer)|;
    AllSteppedOver(before, MOOV);
    assert Holds(buf, 0, Join(outer) + Bytes(moov) + after);
    HoldsThree(buf, 0, Join(outer), Bytes(moov), after);
    FindsOneLevel(buf, 0, |buf|, outer, at, moov, MOOV, found);
    MoovFrom(buf, at, found);
  }

  lemma FindsMvhd(buf: seq<Byte>, moov: Mp4Box, kids: seq<Box>, mvhd: Box, junk: seq<Byte>, found: Mp4Box)
    requires MoovOf(buf) == Some(moov) && moov.end <= |buf|
    requires Siblings(kids, MVHD) && mvhd.Encodable() && mvhd.ReadsAs(MVHD) && (mvhd.form.ToEnd? ==> junk == [])
    requires Holds(buf, moov.bodyStart, Join(Parts(kids)) + Bytes(mvhd) + junk)
    requires moov.end == moov.bodyStart + |Join(Parts(kids)) + Bytes(mvhd) + junk|
    requires Frames(found, moov.bodyStart + |Join(Parts(kids))|, mvhd, MVHD)
    ensures MvhdOf(buf) == Some(found) && Holds(buf, found.bodyStart, mvhd.body)
  {
    var inner := Parts(kids);
    var v := moov.bodyStart + |Join(inner)|;
    AllSteppedOver(kids, MVHD);
    HoldsThree(buf, moov.bodyStart, Join(inner), Bytes(mvhd), junk);
    FindsOneLevel(buf, moov.bodyStart, moov.end, inner, v, mvhd, MVHD, found);
    MvhdFrom(buf, moov, v, found);
  }

  /**
    Round trip: parsing the serialized file yields exactly duration/timescale rounded half up.
    `after` is arbitrary bytes, so nothing appended after an explicitly sized `moov` matters.
   */
  method RoundTrip(before: seq<Box>, moov: Box, after: seq<Byte>,
                   ghost kids: seq<Box>, ghost mvhd: Box, ghost junk: seq<Byte>, ghost m: Mvhd)
    returns (r: Option<nat>)
    requires Siblings(before, MOOV) && MoovHolds(moov, kids, mvhd, junk)
    requires m.Encodable() && mvhd.body == m.Body()
    requires moov.form.ToEnd? ==> after == []
    ensures r == m.Seconds()
  {
    var buf := Join(Parts(before)) + Bytes(moov) + after;
    ghost var at := |Join(Parts(before))|;
    ghost var outer := Mp4Box(MOOV, at + moov.HeaderLength(), at + |Bytes(moov)|);
    FindsMoov(buf, before, moov, after, outer);
    ghost var v := outer.bodyStart + |Join(Parts(kids))|;
    ghost var inner := Mp4Box(MVHD, v + mvhd.HeaderLength(), v + |Bytes(mvhd)|);
    FindsMvhd(buf, outer, kids, mvhd, junk, inner);
    PayloadReads(buf, inner, m);
    r := ParseMp4DurationSeconds(buf);
  }
}
