/**
 * The page scan that finds the length of an Opus file: Ogg pages as laid out in
 * section 6 of RFC 3533, the granule position counted at 48 kHz as in section 4 of RFC 7845.
 */
module OggScan {
  import opened Lists

  newtype byte = b: int | 0 <= b < 256

  const HeaderSize := 27
  const Magic: seq<byte> := [0x4F, 0x67, 0x67, 0x53]
  const TwoTo63 := 0x8000_0000_0000_0000
  const TwoTo64 := 0x1_0000_0000_0000_0000

  function Max(a: int, b: int): (r: int) {
    if a > b then a else b
  }

  function Sum(bytes: seq<byte>): (r: int)
    ensures r >= 0
  {
    if bytes == [] then 0 else Sum(bytes[..|bytes| - 1]) + bytes[|bytes| - 1] as int
  }

  /** Little-endian value. */
  function LittleEndian(bytes: seq<byte>): (r: int)
    ensures r >= 0
  {
    if bytes == [] then 0 else bytes[0] as int + 256 * LittleEndian(bytes[1..])
  }

  /** The two's complement reading of an unsigned 64-bit value. */
  function Signed(u: int): (r: int) {
    if u < TwoTo63 then u else u - TwoTo64
  }

  predicate StartsPage(bytes: seq<byte>) {
    |bytes| >= 4 && bytes[..4] == Magic
  }

  function GranuleOf(bytes: seq<byte>): (r: int)
    requires |bytes| >= HeaderSize
  {
    Signed(LittleEndian(bytes[6..14]))
  }

  function SegmentCount(bytes: seq<byte>): (r: int)
    requires |bytes| >= HeaderSize
    ensures 0 <= r < 256
  {
    bytes[26] as int
  }

  /** The length of the page at the front of the bytes, as its header and segment table declare it. */
  function PageLength(bytes: seq<byte>): (r: int)
    requires |bytes| >= HeaderSize && |bytes| >= HeaderSize + SegmentCount(bytes)
    ensures r >= HeaderSize
  {
    HeaderSize + SegmentCount(bytes) + Sum(bytes[HeaderSize..HeaderSize + SegmentCount(bytes)])
  }

  function Rest(bytes: seq<byte>, n: int): (r: seq<byte>)
    requires n >= 0
  {
    if n <= |bytes| then bytes[n..] else []
  }

  /** What the scan reports for the bytes still ahead, given the best position so far. */
  function Scan(bytes: seq<byte>, best: int): (r: int)
    decreases |bytes|
  {
    if |bytes| < HeaderSize then best
    else if !StartsPage(bytes) then Scan(bytes[1..], best)
    else if |bytes| < HeaderSize + SegmentCount(bytes) then Max(best, GranuleOf(bytes))
    else Scan(Rest(bytes, PageLength(bytes)), Max(best, GranuleOf(bytes)))
  }

  /** Where the scan accepts a page, as distances from the end of the bytes. */
  function Accepted(bytes: seq<byte>): (r: seq<int>)
    decreases |bytes|
  {
    if |bytes| < HeaderSize then []
    else if !StartsPage(bytes) then Accepted(bytes[1..])
    else if |bytes| < HeaderSize + SegmentCount(bytes) then [|bytes|]
    else [|bytes|] + Accepted(Rest(bytes, PageLength(bytes)))
  }

  /** The header bytes read at a position determine what the scan sees there. */
  lemma HeaderAt(data: seq<byte>, position: int)
    requires 0 <= position && position + HeaderSize <= |data|
    ensures var buffer, ahead := data[position..position + HeaderSize], Rest(data, position);
            && |ahead| == |data| - position
            && (StartsPage(ahead) <==> StartsPage(buffer))
            && GranuleOf(ahead) == GranuleOf(buffer)
            && SegmentCount(ahead) == SegmentCount(buffer)
  {
    var ahead := data[position..];
    assert data[position..position + HeaderSize] == ahead[..HeaderSize];
    assert ahead[..HeaderSize][..4] == ahead[..4];
    assert ahead[..HeaderSize][6..14] == ahead[6..14];
  }

  lemma TableAt(data: seq<byte>, position: int)
    requires 0 <= position && position + HeaderSize <= |data|
    requires position + HeaderSize + SegmentCount(Rest(data, position)) <= |data|
    ensures var ahead := Rest(data, position);
            var table := data[position + HeaderSize..position + HeaderSize + SegmentCount(ahead)];
            && PageLength(ahead) == HeaderSize + |table| + Sum(table)
            && Rest(data, position + PageLength(ahead)) == Rest(ahead, PageLength(ahead))
  {
    var ahead := data[position..];
    var n := SegmentCount(ahead);
    assert data[position + HeaderSize..position + HeaderSize + n] == ahead[HeaderSize..HeaderSize + n];
  }

  // One iteration of the scan, in terms of what is read at a position.

  lemma SkipByte(data: seq<byte>, position: int, best: int, buffer: seq<byte>)
    requires 0 <= position && position + HeaderSize <= |data| && buffer == data[position..position + HeaderSize]
    requires !StartsPage(buffer)
    ensures Scan(Rest(data, position), best) == Scan(Rest(data, position + 1), best)
  {
    HeaderAt(data, position);
    assert Rest(data, position + 1) == Rest(data, position)[1..];
  }

  lemma TakeCutPage(data: seq<byte>, position: int, best: int, buffer: seq<byte>)
    requires 0 <= position && position + HeaderSize <= |data| && buffer == data[position..position + HeaderSize]
    requires StartsPage(buffer) && |data| < position + HeaderSize + SegmentCount(buffer)
    ensures Scan(Rest(data, position), best) == Max(best, GranuleOf(buffer))
  {
    HeaderAt(data, position);
  }

  lemma ScanWholePage(ahead: seq<byte>, best: int, length: int, granule: int)
    requires |ahead| >= HeaderSize && StartsPage(ahead) && |ahead| >= HeaderSize + SegmentCount(ahead)
    requires length == PageLength(ahead) && granule == GranuleOf(ahead)
    ensures Scan(ahead, best) == Scan(Rest(ahead, length), Max(best, granule))
  {
  }

  lemma TakePage(data: seq<byte>, position: int, best: int, buffer: seq<byte>, table: seq<byte>, next: int, better: int)
    requires 0 <= position && position + HeaderSize <= |data| && buffer == data[position..position + HeaderSize]
    requires StartsPage(buffer) && position + HeaderSize + SegmentCount(buffer) <= |data|
    requires table == data[position + HeaderSize..position + HeaderSize + SegmentCount(buffer)]
    requires next == position + HeaderSize + |table| + Sum(table) && better == Max(best, GranuleOf(buffer))
    ensures next > position && better >= best
    ensures Scan(Rest(data, position), best) == Scan(Rest(data, next), better)
  {
    var ahead, length := Rest(data, position), next - position;
    HeaderAt(data, position);
    TableAt(data, position);
    ScanWholePage(ahead, best, length, GranuleOf(buffer));
    assert Rest(data, next) == Rest(ahead, length);
  }

  /** The loop adding up a segment table. */
  method PayloadSize(table: seq<byte>) returns (size: int)
    ensures size == Sum(table)
  {
    size := 0;
    for i := 0 to |table|
      invariant size == Sum(table[..i])
    {
      assert table[..i + 1][..i] == table[..i];
      size := size + table[i] as int;
    }
    assert table[..|table|] == table;
  }

  // ---- A reader that may fail ----

  /** Where an operation of the reader fails or, for a header, delivers too little, by the offset it is attempted at. */
  datatype Faults = Faults(start: bool, read: int -> bool, short: int -> bool, table: int -> bool, seek: int -> bool)

  /** How an iteration ends: with an error, with the best position so far, or at a later offset. */
  datatype Turn = Fail | Stop(best: int) | Go(next: int, best: int)

  /** One iteration: only a failed header read is reported, everything else that fails ends the scan. */
  function TurnAt(data: seq<byte>, position: int, best: int, f: Faults): (t: Turn)
    requires position >= 0
    ensures t.Go? ==> position < t.next && position + HeaderSize <= |data|
  {
    var body := position + HeaderSize;
    if f.read(position) then Fail
    else if |data| < body || f.short(position) then Stop(best)
    else
      var buffer := data[position..body];
      if !StartsPage(buffer) then
        if f.seek(body) then Stop(best) else Go(position + 1, best)
      else
        var better, payload := Max(best, GranuleOf(buffer)), body + SegmentCount(buffer);
        if |data| < payload || f.table(body) || f.seek(payload) then Stop(better)
        else Go(payload + Sum(data[body..payload]), better)
  }

  function ScanWith(data: seq<byte>, position: int, best: int, f: Faults): (r: Option<int>)
    requires position >= 0
    decreases |data| - position
  {
    match TurnAt(data, position, best, f)
    case Fail => None
    case Stop(found) => Some(found)
    case Go(next, better) => ScanWith(data, next, better, f)
  }

  ghost predicate Faultless(f: Faults) {
    !f.start && forall p :: !f.read(p) && !f.short(p) && !f.table(p) && !f.seek(p)
  }

  // One iteration of the scan with faults, in terms of what is read at a position.

  lemma SkipTurn(data: seq<byte>, position: int, best: int, f: Faults, buffer: seq<byte>)
    requires 0 <= position && position + HeaderSize <= |data| && buffer == data[position..position + HeaderSize] && !StartsPage(buffer)
    ensures var t := TurnAt(data, position, best, f); t == Fail || t == Stop(best) || t == Go(position + 1, best)
    ensures Faultless(f) ==> TurnAt(data, position, best, f) == Go(position + 1, best)
  {
  }

  lemma CutPageTurn(data: seq<byte>, position: int, best: int, f: Faults, buffer: seq<byte>, better: int)
    requires 0 <= position && position + HeaderSize <= |data| && buffer == data[position..position + HeaderSize] && StartsPage(buffer)
    requires |data| < position + HeaderSize + SegmentCount(buffer) && better == Max(best, GranuleOf(buffer))
    ensures var t := TurnAt(data, position, best, f); t == Fail || t == Stop(best) || t == Stop(better)
    ensures Faultless(f) ==> TurnAt(data, position, best, f) == Stop(better)
  {
  }

  lemma PageTurn(data: seq<byte>, position: int, best: int, f: Faults, buffer: seq<byte>, table: seq<byte>, next: int, better: int)
    requires 0 <= position && position + HeaderSize <= |data| && buffer == data[position..position + HeaderSize] && StartsPage(buffer)
    requires position + HeaderSize + SegmentCount(buffer) <= |data|
    requires table == data[position + HeaderSize..position + HeaderSize + SegmentCount(buffer)]
    requires next == position + HeaderSize + |table| + Sum(table) && better == Max(best, GranuleOf(buffer))
    ensures var t := TurnAt(data, position, best, f); t == Fail || t == Stop(best) || t == Stop(better) || t == Go(next, better)
    ensures Faultless(f) ==> TurnAt(data, position, best, f) == Go(next, better)
  {
  }

  /** The scan with faults from here is the scan of the bytes ahead. */
  ghost predicate SameScan(data: seq<byte>, position: int, best: int, f: Faults)
    requires position >= 0
  {
    ScanWith(data, position, best, f) == Some(Scan(Rest(data, position), best))
  }

  lemma TurnKeepsScan(data: seq<byte>, position: int, best: int, f: Faults, next: int, better: int)
    requires 0 <= position && 0 <= next && TurnAt(data, position, best, f) == Go(next, better)
    requires Scan(Rest(data, position), best) == Scan(Rest(data, next), better) && SameScan(data, next, better, f)
    ensures SameScan(data, position, best, f)
  {
  }

  /** Without faults this is the scan of the bytes ahead. */
  lemma {:induction false} FaultlessScan(data: seq<byte>, position: int, best: int, f: Faults)
    requires position >= 0 && Faultless(f)
    ensures SameScan(data, position, best, f)
    decreases |data| - position
  {
    var body := position + HeaderSize;
    if body > |data| {
      ShortScan(data, position, best, f);
    } else {
      var buffer := data[position..body];
      if !StartsPage(buffer) {
        SkipByte(data, position, best, buffer);
        SkipTurn(data, position, best, f, buffer);
        FaultlessScan(data, position + 1, best, f);
        TurnKeepsScan(data, position, best, f, position + 1, best);
      } else if |data| < body + SegmentCount(buffer) {
        FaultlessCut(data, position, best, f, buffer);
      } else {
        var table := data[body..body + SegmentCount(buffer)];
        var next, better := body + |table| + Sum(table), Max(best, GranuleOf(buffer));
        TakePage(data, position, best, buffer, table, next, better);
        PageTurn(data, position, best, f, buffer, table, next, better);
        FaultlessScan(data, next, better, f);
        TurnKeepsScan(data, position, best, f, next, better);
      }
    }
  }

  lemma FaultlessCut(data: seq<byte>, position: int, best: int, f: Faults, buffer: seq<byte>)
    requires Faultless(f)
    requires 0 <= position && position + HeaderSize <= |data| && buffer == data[position..position + HeaderSize] && StartsPage(buffer)
    requires |data| < position + HeaderSize + SegmentCount(buffer)
    ensures SameScan(data, position, best, f)
  {
    TakeCutPage(data, position, best, buffer);
    CutPageTurn(data, position, best, f, buffer, Max(best, GranuleOf(buffer)));
  }

  lemma ShortScan(data: seq<byte>, position: int, best: int, f: Faults)
    requires position >= 0 && |data| < position + HeaderSize
    ensures Scan(Rest(data, position), best) == best
    ensures var found := ScanWith(data, position, best, f); found == None || found == Some(best)
    ensures Faultless(f) ==> ScanWith(data, position, best, f) == Some(best)
  {
  }

  lemma {:induction false} ScanGrows(bytes: seq<byte>, best: int)
    ensures Scan(bytes, best) >= best
    decreases |bytes|
  {
    if |bytes| >= HeaderSize {
      if !StartsPage(bytes) {
        ScanGrows(bytes[1..], best);
      } else if |bytes| >= HeaderSize + SegmentCount(bytes) {
        ScanGrows(Rest(bytes, PageLength(bytes)), Max(best, GranuleOf(bytes)));
      }
    }
  }

  ghost predicate AtMost(found: Option<int>, low: int, high: int) {
    found.Some? ==> low <= found.value <= high
  }

  /** An iteration that ends early or goes on to a scan within the bound stays within the bound. */
  lemma TurnKeepsBound(data: seq<byte>, position: int, best: int, f: Faults, next: int, better: int, high: int)
    requires 0 <= position < next && best <= better <= high
    requires var t := TurnAt(data, position, best, f); t == Fail || t == Stop(best) || t == Stop(better) || t == Go(next, better)
    requires AtMost(ScanWith(data, next, better, f), better, high)
    ensures AtMost(ScanWith(data, position, best, f), best, high)
  {
  }

  lemma CutKeepsBound(data: seq<byte>, position: int, best: int, f: Faults, buffer: seq<byte>)
    requires 0 <= position && position + HeaderSize <= |data| && buffer == data[position..position + HeaderSize] && StartsPage(buffer)
    requires |data| < position + HeaderSize + SegmentCount(buffer)
    ensures AtMost(ScanWith(data, position, best, f), best, Scan(Rest(data, position), best))
  {
    TakeCutPage(data, position, best, buffer);
    CutPageTurn(data, position, best, f, buffer, Max(best, GranuleOf(buffer)));
  }

  /** Whatever fails, a reported position is never beyond the one of the whole stream. */
  lemma {:induction false} FaultsOnlyLower(data: seq<byte>, position: int, best: int, f: Faults)
    requires position >= 0
    ensures AtMost(ScanWith(data, position, best, f), best, Scan(Rest(data, position), best))
    decreases |data| - position
  {
    var body := position + HeaderSize;
    if body > |data| {
      ShortScan(data, position, best, f);
    } else {
      var buffer := data[position..body];
      if !StartsPage(buffer) {
        SkipByte(data, position, best, buffer);
        SkipTurn(data, position, best, f, buffer);
        ScanGrows(Rest(data, position + 1), best);
        FaultsOnlyLower(data, position + 1, best, f);
        TurnKeepsBound(data, position, best, f, position + 1, best, Scan(Rest(data, position + 1), best));
      } else if |data| < body + SegmentCount(buffer) {
        CutKeepsBound(data, position, best, f, buffer);
      } else {
        var table := data[body..body + SegmentCount(buffer)];
        var next, better := body + |table| + Sum(table), Max(best, GranuleOf(buffer));
        TakePage(data, position, best, buffer, table, next, better);
        PageTurn(data, position, best, f, buffer, table, next, better);
        ScanGrows(Rest(data, next), better);
        FaultsOnlyLower(data, next, better, f);
        TurnKeepsBound(data, position, best, f, next, better, Scan(Rest(data, next), better));
      }
    }
  }

  /** One iteration after a full header was read; `more` is false when the scan ends here. */
  method TakeHeader(data: seq<byte>, position: int, granule: int, f: Faults) returns (next: int, best: int, more: bool)
    requires 0 <= position && position + HeaderSize <= |data| && !f.read(position) && !f.short(position)
    ensures next > position
    ensures TurnAt(data, position, granule, f) == if more then Go(next, best) else Stop(best)
  {
    var buffer := data[position..position + HeaderSize];
    next, best, more := position + HeaderSize, granule, true;
    if !StartsPage(buffer) {
      if f.seek(next) {
        more := false;
      } else {
        next := next - 26;
      }
      return;
    }
    if GranuleOf(buffer) > best {
      best := GranuleOf(buffer);
    }
    if |data| < next + SegmentCount(buffer) || f.table(next) {
      more := false;
      return;
    }
    var table := data[next..next + SegmentCount(buffer)];
    next := next + |table|;
    var size := PayloadSize(table);
    if f.seek(next) {
      more := false;
      return;
    }
    next := next + size;
  }

  /** getOpusDuration; None is an error. */
  method GetOpusDuration(data: seq<byte>, f: Faults) returns (duration: Option<real>)
    ensures duration.None? <==> f.start || ScanWith(data, 0, 0, f).None?
    ensures duration.Some? ==> duration.value == ScanWith(data, 0, 0, f).value as real / 48000.0
    ensures Faultless(f) ==> duration == Some(Scan(data, 0) as real / 48000.0)
    ensures f.start || f.read(0) ==> duration.None?
    ensures !f.start && (forall p :: !f.read(p)) ==> duration.Some?
  {
    ErrorsAreReads(data, 0, 0, f);
    if Faultless(f) {
      FaultlessScan(data, 0, 0, f);
    }
    if f.start {
      return None;
    }
    var position, granule, more := 0, 0, true;
    ghost var result := ScanWith(data, 0, 0, f);
    while more
      invariant 0 <= position
      invariant result == if more then ScanWith(data, position, granule, f) else Some(granule)
      decreases more, |data| - position
    {
      if f.read(position) {
        return None;
      }
      if |data| < position + HeaderSize || f.short(position) {
        break;
      }
      position, granule, more := TakeHeader(data, position, granule, f);
    }
    duration := Some(granule as real / 48000.0);
  }

  // ---- Well-formed pages ----

  /** A page: version and type, granule position, serial to checksum, and the segments of its payload. */
  datatype Page = Page(kind: seq<byte>, granule: int, ids: seq<byte>, segments: seq<seq<byte>>)

  predicate WellFormed(p: Page) {
    && |p.kind| == 2 && |p.ids| == 12
    && -TwoTo63 <= p.granule < TwoTo63
    && |p.segments| < 256 && forall segment <- p.segments :: |segment| < 256
  }

  /** The segment table: the length of each segment. */
  function Table(p: Page): (r: seq<byte>)
    requires WellFormed(p)
    ensures |r| == |p.segments| && forall i :: 0 <= i < |r| ==> r[i] as int == |p.segments[i]|
  {
    seq(|p.segments|, i requires 0 <= i < |p.segments| => |p.segments[i]| as byte)
  }

  function Payload(segments: seq<seq<byte>>): (r: seq<byte>) {
    if segments == [] then [] else Payload(segments[..|segments| - 1]) + segments[|segments| - 1]
  }

  /** The table adds up to the size of the payload. */
  lemma {:induction false} TableSum(segments: seq<seq<byte>>, table: seq<byte>)
    requires |table| == |segments| && forall i :: 0 <= i < |table| ==> table[i] as int == |segments[i]|
    ensures Sum(table) == |Payload(segments)|
  {
    if segments != [] {
      TableSum(segments[..|segments| - 1], table[..|table| - 1]);
    }
  }

  function LittleEndianBytes(u: int, n: nat): (r: seq<byte>)
    requires u >= 0
    ensures |r| == n
  {
    if n == 0 then [] else [(u % 256) as byte] + LittleEndianBytes(u / 256, n - 1)
  }

  function Unsigned(i: int): (r: int) {
    if i >= 0 then i else i + TwoTo64
  }

  function Header(p: Page): (r: seq<byte>)
    requires WellFormed(p)
    ensures |r| == HeaderSize
  {
    Magic + p.kind + LittleEndianBytes(Unsigned(p.granule), 8) + p.ids + [|p.segments| as byte]
  }

  function Encode(p: Page): (r: seq<byte>)
    requires WellFormed(p)
  {
    Header(p) + Table(p) + Payload(p.segments)
  }

  ghost function Power256(n: nat): int {
    if n == 0 then 1 else 256 * Power256(n - 1)
  }

  /** Little-endian encoding round-trips. */
  lemma {:induction false} LittleEndianRoundTrip(u: int, n: nat)
    requires 0 <= u < Power256(n)
    ensures LittleEndian(LittleEndianBytes(u, n)) == u
  {
    if n > 0 {
      var bytes := LittleEndianBytes(u, n);
      assert bytes[1..] == LittleEndianBytes(u / 256, n - 1);
      LittleEndianRoundTrip(u / 256, n - 1);
    }
  }

  lemma GranuleRoundTrip(g: int)
    requires -TwoTo63 <= g < TwoTo63
    ensures Signed(LittleEndian(LittleEndianBytes(Unsigned(g), 8))) == g
  {
    assert Power256(8) == TwoTo64 by {
      assert Power256(2) == 65536;
      assert Power256(4) == 0x1_0000_0000;
      assert Power256(6) == 0x1_0000_0000_0000;
    }
    LittleEndianRoundTrip(Unsigned(g), 8);
  }

  lemma HeaderFields(p: Page)
    requires WellFormed(p)
    ensures var h := Header(p);
            StartsPage(h) && GranuleOf(h) == p.granule && SegmentCount(h) == |p.segments|
  {
    var h, g := Header(p), LittleEndianBytes(Unsigned(p.granule), 8);
    assert h[..4] == Magic;
    assert h[6..14] == g;
    assert h[26] == |p.segments| as byte;
    GranuleRoundTrip(p.granule);
  }

  /** Fields read at the front do not depend on what follows the header. */
  lemma FrontFields(h: seq<byte>, more: seq<byte>)
    requires |h| == HeaderSize
    ensures StartsPage(h + more) <==> StartsPage(h)
    ensures GranuleOf(h + more) == GranuleOf(h) && SegmentCount(h + more) == SegmentCount(h)
  {
    assert (h + more)[..4] == h[..4] && (h + more)[6..14] == h[6..14];
  }

  /** At a well-formed page the scan takes its granule position and lands on the next byte after it. */
  lemma ScanPage(p: Page, more: seq<byte>, best: int)
    requires WellFormed(p)
    ensures Scan(Encode(p) + more, best) == Scan(more, Max(best, p.granule))
    ensures Accepted(Encode(p) + more) == [|Encode(p) + more|] + Accepted(more)
  {
    var table, payload := Table(p), Payload(p.segments);
    var h, body, bytes := Header(p), table + payload + more, Encode(p) + more;
    assert bytes == h + body;
    HeaderFields(p);
    FrontFields(h, body);
    TableSum(p.segments, table);
    assert bytes[HeaderSize..HeaderSize + |table|] == table;
    assert PageLength(bytes) == |Encode(p)|;
    assert Rest(bytes, |Encode(p)|) == more;
  }

  lemma CutPage(p: Page, k: nat, bytes: seq<byte>, table: seq<byte>, payload: seq<byte>)
    requires WellFormed(p) && table == Table(p) && payload == Payload(p.segments)
    requires HeaderSize <= k <= |Encode(p)| && bytes == Encode(p)[..k]
    ensures StartsPage(bytes) && SegmentCount(bytes) == |table| && GranuleOf(bytes) == p.granule
    ensures k >= HeaderSize + |table| ==> bytes[HeaderSize..HeaderSize + |table|] == table
  {
    var h, body := Header(p), (table + payload)[..k - HeaderSize];
    assert Encode(p) == h + (table + payload);
    assert bytes == h + body;
    HeaderFields(p);
    FrontFields(h, body);
    if k >= HeaderSize + |table| {
      assert bytes[HeaderSize..HeaderSize + |table|] == body[..|table|];
      assert body[..|table|] == table;
    }
  }

  /** A page cut off anywhere after its header still counts, and ends the scan. */
  lemma ScanTruncatedPage(p: Page, k: nat, best: int)
    requires WellFormed(p) && HeaderSize <= k <= |Encode(p)|
    ensures Scan(Encode(p)[..k], best) == Max(best, p.granule)
  {
    var table, payload, bytes := Table(p), Payload(p.segments), Encode(p)[..k];
    CutPage(p, k, bytes, table, payload);
    if k >= HeaderSize + |table| {
      TableSum(p.segments, table);
      var length := PageLength(bytes);
      assert length == |Encode(p)|;
      assert Rest(bytes, length) == [];
      ScanWholePage(bytes, best, length, p.granule);
    }
  }

  /** Eight bytes as a signed number, the lowest first. */
  ghost predicate IsSigned64(b: seq<byte>, value: int)
    requires |b| == 8
  {
    var u := b[0] as int + 0x100 * b[1] as int + 0x1_0000 * b[2] as int + 0x100_0000 * b[3] as int
             + 0x1_0000_0000 * b[4] as int + 0x100_0000_0000 * b[5] as int
             + 0x1_0000_0000_0000 * b[6] as int + 0x100_0000_0000_0000 * b[7] as int;
    value == if b[7] < 128 then u else u - 0x1_0000_0000_0000_0000
  }

  lemma FourBytes(b: seq<byte>, rest: seq<byte>)
    requires |b| >= 4 && rest == b[4..]
    ensures LittleEndian(b) == b[0] as int + 0x100 * b[1] as int + 0x1_0000 * b[2] as int + 0x100_0000 * b[3] as int
                               + 0x1_0000_0000 * LittleEndian(rest)
  {
    var b1, b2, b3 := b[1..], b[2..], b[3..];
    assert b1[1..] == b2 && b2[1..] == b3 && b3[1..] == rest;
    assert b1[0] == b[1] && b2[0] == b[2] && b3[0] == b[3];
    assert LittleEndian(b3) == b[3] as int + 256 * LittleEndian(rest);
    assert LittleEndian(b2) == b[2] as int + 256 * LittleEndian(b3);
    assert LittleEndian(b1) == b[1] as int + 256 * LittleEndian(b2);
  }

  lemma GranuleBytes(b: seq<byte>)
    requires |b| == 8
    ensures IsSigned64(b, Signed(LittleEndian(b)))
  {
    var high := b[4..];
    FourBytes(b, high);
    FourBytes(high, high[4..]);
    assert LittleEndian(high[4..]) == 0;
  }

  /** The bytes of a page, field by field, as the format lays them out. */
  lemma PageLayout(p: Page, e: seq<byte>)
    requires WellFormed(p) && e == Encode(p)
    ensures |e| == 27 + |p.segments| + |Payload(p.segments)|
    ensures e[0] == 0x4F && e[1] == 0x67 && e[2] == 0x67 && e[3] == 0x53
    ensures e[4..6] == p.kind && IsSigned64(e[6..14], p.granule) && e[14..26] == p.ids
    ensures e[26] as int == |p.segments| && forall i :: 0 <= i < |p.segments| ==> e[27 + i] as int == |p.segments[i]|
    ensures e[27 + |p.segments|..] == Payload(p.segments)
  {
    var h, table := Header(p), Table(p);
    HeaderFields(p);
    GranuleBytes(e[6..14]);
    assert e[..27] == h && e[6..14] == h[6..14];
    assert e[27..27 + |table|] == table;
    assert forall i :: 0 <= i < |table| ==> e[27 + i] == table[i];
  }

  /** A failed header read at an offset the scan reaches is the only thing reported as an error. */
  lemma {:induction false} ErrorsAreReads(data: seq<byte>, position: int, best: int, f: Faults)
    requires position >= 0
    ensures f.read(position) ==> ScanWith(data, position, best, f).None?
    ensures (forall p :: !f.read(p)) ==> ScanWith(data, position, best, f).Some?
    decreases |data| - position
  {
    var t := TurnAt(data, position, best, f);
    if t.Go? {
      ErrorsAreReads(data, t.next, t.best, f);
    }
  }

  // ---- Streams with junk between pages ----

  datatype Chunk = Chunk(junk: seq<byte>, page: Page)

  /** At no offset inside the junk does a page seem to start, looking on into what follows it. */
  ghost predicate NoPageStartsIn(junk: seq<byte>, more: seq<byte>) {
    junk == [] || (!StartsPage(junk + more) && NoPageStartsIn(junk[1..], more))
  }

  ghost function Stream(chunks: seq<Chunk>, tail: seq<byte>): seq<byte>
    requires forall c <- chunks :: WellFormed(c.page)
  {
    if chunks == [] then tail else chunks[0].junk + (Encode(chunks[0].page) + Stream(chunks[1..], tail))
  }

  /** No false page start hides in the junk before, between or after the pages. */
  ghost predicate Resyncable(chunks: seq<Chunk>, tail: seq<byte>)
    requires forall c <- chunks :: WellFormed(c.page)
  {
    if chunks == [] then NoPageStartsIn(tail, [])
    else NoPageStartsIn(chunks[0].junk, Encode(chunks[0].page) + Stream(chunks[1..], tail)) && Resyncable(chunks[1..], tail)
  }

  ghost function BestGranule(chunks: seq<Chunk>, best: int): int {
    if chunks == [] then best else BestGranule(chunks[1..], Max(best, chunks[0].page.granule))
  }

  /** Where the pages really start, as distances from the end. */
  ghost function PageStarts(chunks: seq<Chunk>, tail: seq<byte>): seq<int>
    requires forall c <- chunks :: WellFormed(c.page)
  {
    if chunks == [] then []
    else [|Encode(chunks[0].page) + Stream(chunks[1..], tail)|] + PageStarts(chunks[1..], tail)
  }

  lemma {:induction false} ScanJunk(junk: seq<byte>, more: seq<byte>, best: int)
    requires NoPageStartsIn(junk, more) && |more| >= HeaderSize
    ensures Scan(junk + more, best) == Scan(more, best)
    ensures Accepted(junk + more) == Accepted(more)
  {
    if junk == [] {
      assert junk + more == more;
    } else {
      assert (junk + more)[1..] == junk[1..] + more;
      ScanJunk(junk[1..], more, best);
    }
  }

  lemma {:induction false} ScanTail(tail: seq<byte>, best: int)
    requires NoPageStartsIn(tail, [])
    ensures Scan(tail, best) == best && Accepted(tail) == []
  {
    if |tail| >= HeaderSize {
      assert tail + [] == tail;
      ScanTail(tail[1..], best);
    }
  }

  lemma ScanChunk(c: Chunk, more: seq<byte>, best: int)
    requires WellFormed(c.page) && NoPageStartsIn(c.junk, Encode(c.page) + more)
    ensures Scan(c.junk + (Encode(c.page) + more), best) == Scan(more, Max(best, c.page.granule))
    ensures Accepted(c.junk + (Encode(c.page) + more)) == [|Encode(c.page) + more|] + Accepted(more)
  {
    ScanJunk(c.junk, Encode(c.page) + more, best);
    ScanPage(c.page, more, best);
  }

  /** On every such stream the scan accepts exactly the page starts and reports the largest granule position. */
  lemma {:induction false} ScanStream(chunks: seq<Chunk>, tail: seq<byte>, best: int)
    requires forall c <- chunks :: WellFormed(c.page)
    requires Resyncable(chunks, tail)
    ensures Scan(Stream(chunks, tail), best) == BestGranule(chunks, best)
    ensures Accepted(Stream(chunks, tail)) == PageStarts(chunks, tail)
  {
    if chunks == [] {
      ScanTail(tail, best);
    } else {
      assert WellFormed(chunks[0].page);
      ScanChunk(chunks[0], Stream(chunks[1..], tail), best);
      ScanStream(chunks[1..], tail, Max(best, chunks[0].page.granule));
    }
  }

  /** The reported position is zero or the largest granule position among the pages. */
  lemma {:induction false} BestGranuleIsMaximum(chunks: seq<Chunk>, best: int)
    ensures BestGranule(chunks, best) >= best
    ensures forall i :: 0 <= i < |chunks| ==> BestGranule(chunks, best) >= chunks[i].page.granule
    ensures BestGranule(chunks, best) == best || exists i :: 0 <= i < |chunks| && BestGranule(chunks, best) == chunks[i].page.granule
  {
    if chunks != [] {
      var next := Max(best, chunks[0].page.granule);
      BestGranuleIsMaximum(chunks[1..], next);
      assert forall i :: 1 <= i < |chunks| ==> chunks[i] == chunks[1..][i - 1];
      if BestGranule(chunks, best) != next {
        var i :| 0 <= i < |chunks[1..]| && BestGranule(chunks[1..], next) == chunks[1..][i].page.granule;
        assert chunks[i + 1].page.granule == BestGranule(chunks, best);
      } else if next != best {
        assert chunks[0].page.granule == BestGranule(chunks, best);
      }
    }
  }

  /** The scan accepts a page with this granule position. */
  ghost predicate FindsPage(bytes: seq<byte>, granule: int) {
    exists i :: 0 <= i && i + HeaderSize <= |bytes| && StartsPage(bytes[i..]) && GranuleOf(bytes[i..]) == granule
                && |bytes| - i in Accepted(bytes)
  }

  /** On any bytes at all, a result beyond the start value is the granule position of a page the scan accepts. */
  lemma {:induction false} ScanIsSomeGranule(bytes: seq<byte>, best: int)
    ensures Scan(bytes, best) >= best
    ensures Scan(bytes, best) == best || FindsPage(bytes, Scan(bytes, best))
    decreases |bytes|
  {
    if |bytes| >= HeaderSize {
      if !StartsPage(bytes) {
        ScanIsSomeGranule(bytes[1..], best);
        if Scan(bytes, best) != best {
          FoundLater(bytes, 1, Scan(bytes, best));
        }
      } else {
        var next, found := Max(best, GranuleOf(bytes)), Scan(bytes, best);
        if |bytes| >= HeaderSize + SegmentCount(bytes) {
          var n := PageLength(bytes);
          ScanIsSomeGranule(Rest(bytes, n), next);
          if found != next {
            FoundLater(bytes, n, found);
          }
        }
        FoundHere(bytes);
      }
    }
  }

  lemma FoundHere(bytes: seq<byte>)
    requires |bytes| >= HeaderSize && StartsPage(bytes)
    ensures FindsPage(bytes, GranuleOf(bytes))
  {
    assert bytes[0..] == bytes && |bytes| - 0 in Accepted(bytes);
  }

  lemma FoundLater(bytes: seq<byte>, n: nat, granule: int)
    requires FindsPage(Rest(bytes, n), granule) && forall d <- Accepted(Rest(bytes, n)) :: d in Accepted(bytes)
    ensures FindsPage(bytes, granule)
  {
    var rest := Rest(bytes, n);
    var i :| 0 <= i && i + HeaderSize <= |rest| && StartsPage(rest[i..]) && GranuleOf(rest[i..]) == granule && |rest| - i in Accepted(rest);
    assert rest[i..] == bytes[n + i..] && |rest| - i == |bytes| - (n + i);
  }
}
