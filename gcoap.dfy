// The bridge between CoAP payloads and the shared memory: hex-digit
// decoding, the status reports of the URL mappings and of the PIDs, and the
// transfer of a mapped value as raw octets, with removal of a mapping whose
// lifetime is a single transfer.

module CoapBridge {
  import opened Base
  import opened SharedMemory
  import opened PidController
  import opened VmSemantics

  /** The CoAP content format of an octet-stream payload; every other format
    * is handled as text. */
  const FORMAT_OCTET_STREAM: u16 := 42
  /** What ascii2hex answers for a character that is not a hex digit. */
  const NO_DIGIT: u8 := 0xFF
  /** A text payload of this many bytes or more is refused. */
  const TEXT_LIMIT: nat := 15

  // ---- hex digits ------------------------------------------------------------

  predicate IsHexDigit(ch: char)
  {
    '0' <= ch <= '9' || 'A' <= ch <= 'F' || 'a' <= ch <= 'f'
  }

  /** ascii2hex: the value of a hex digit in either case, NO_DIGIT for any
    * other character. */
  function HexValue(ch: char): (r: u8)
    ensures r < 16 <==> IsHexDigit(ch)
    ensures !IsHexDigit(ch) ==> r == NO_DIGIT
    ensures '0' <= ch <= '9' ==> r == ch as int - '0' as int
    ensures 'A' <= ch <= 'F' ==> r == ch as int - 'A' as int + 10
    ensures 'a' <= ch <= 'f' ==> r == ch as int - 'a' as int + 10
  {
    if 48 <= ch as int <= 57 then ch as int - 48
    else if 65 <= ch as int <= 70 then ch as int - 55
    else if 97 <= ch as int <= 102 then ch as int - 87
    else 0xFF
  }

  /** The upper-case digit of a value below 16. */
  function HexDigit(v: nat): (ch: char)
    requires v < 16
  {
    if v < 10 then (48 + v) as char else (55 + v) as char
  }

  /** The upper-case form of a hex digit. */
  function Upper(ch: char): char
    requires IsHexDigit(ch)
  {
    if 'a' <= ch <= 'f' then (ch as int - 32) as char else ch
  }

  /** Every value below 16 has a digit, and the digit decodes to it. */
  lemma HexDigitRoundTrip(v: nat)
    requires v < 16
    ensures IsHexDigit(HexDigit(v)) && HexValue(HexDigit(v)) == v
  {
  }

  /** A hex digit is the digit of its value, up to case. */
  lemma HexValueRoundTrip(ch: char)
    requires IsHexDigit(ch)
    ensures HexDigit(HexValue(ch)) == Upper(ch)
  {
  }

  /** A byte read as an 8-bit pattern keeps its value. */
  lemma ByteAsBits(a: u8)
    ensures (a as bv8) as int == a
    ensures a < 16 ==> (a as bv8) < 16
  {
  }

  /** `hi << 4 | lo` on eight bits: the two nibbles side by side when both
    * are nibbles, 0xF0 plus `lo` when `hi` is all ones, all ones when `lo`
    * is. */
  lemma JoinNibbles(hi: bv8, lo: bv8)
    ensures hi < 16 && lo < 16 ==> ((hi << 4) | lo) as int == hi as int * 16 + lo as int
    ensures hi == 0xFF && lo < 16 ==> ((hi << 4) | lo) as int == 0xF0 + lo as int
    ensures lo == 0xFF ==> ((hi << 4) | lo) as int == 0xFF
  {
  }

  /** gcoap_fromHex: two digits as one byte, the first one high. The shift is
    * done on int and the result cut to uint8_t, which is the shift on eight
    * bits; so an invalid second digit gives 0xFF and an invalid first digit
    * in front of a valid one gives 0xF0 plus the second. */
  function FromHex(first: char, second: char): (r: u8)
    ensures IsHexDigit(first) && IsHexDigit(second) ==> r == 16 * HexValue(first) + HexValue(second)
    ensures !IsHexDigit(second) ==> r == 0xFF
    ensures !IsHexDigit(first) && IsHexDigit(second) ==> r == 0xF0 + HexValue(second)
  {
    var hi, lo := HexValue(first), HexValue(second);
    ByteAsBits(hi);
    ByteAsBits(lo);
    JoinNibbles(hi as bv8, lo as bv8);
    ((hi as bv8 << 4) | lo as bv8) as int
  }

  /** The two upper-case digits of a byte, high one first. */
  function ToHex(v: u8): (s: string)
    ensures |s| == 2
    ensures IsHexDigit(s[0]) && HexValue(s[0]) == v / 16
    ensures IsHexDigit(s[1]) && HexValue(s[1]) == v % 16
  {
    HexDigitRoundTrip(v / 16);
    HexDigitRoundTrip(v % 16);
    [HexDigit(v / 16), HexDigit(v % 16)]
  }

  /** Every byte written as two digits decodes back to itself. */
  lemma ToHexFromHex(v: u8)
    ensures FromHex(ToHex(v)[0], ToHex(v)[1]) == v
  {
    HexDigitRoundTrip(v / 16);
    HexDigitRoundTrip(v % 16);
  }

  /** Two valid digits decode to the byte whose digits they are. */
  lemma FromHexToHex(first: char, second: char)
    requires IsHexDigit(first) && IsHexDigit(second)
    ensures ToHex(FromHex(first, second)) == [Upper(first), Upper(second)]
  {
    var v := FromHex(first, second);
    assert v / 16 == HexValue(first) && v % 16 == HexValue(second);
    HexValueRoundTrip(first);
    HexValueRoundTrip(second);
  }

  // ---- status reports ----------------------------------------------------------

  /** What a status writer leaves in a buffer of `bufLen` bytes: nothing when
    * not even the count fits, otherwise as much of the report as fits. */
  function Emitted(report: seq<u8>, bufLen: nat): (r: seq<u8>)
    ensures r <= report && |r| <= bufLen
    ensures bufLen >= 1 ==> |r| == if bufLen < |report| then bufLen else |report|
    ensures bufLen >= |report| ==> r == report
  {
    if bufLen == 0 then [] else if bufLen < |report| then report[..bufLen] else report
  }

  /** The full mapping report: the number of slots, then every status. */
  function MapsReport(maps: seq<UrlMap>): (r: seq<u8>)
    requires |maps| == MAP_SIZE
    ensures |r| == MAP_SIZE + 1 && r[0] == MAP_SIZE
    ensures forall i :: 0 <= i < MAP_SIZE ==> r[i + 1] == maps[i].status
  {
    [MAP_SIZE as u8] + seq(MAP_SIZE, i requires 0 <= i < MAP_SIZE => maps[i].status)
  }

  /** The status byte of one PID: `mode << 4 | initialized`. */
  function PidStatus(p: PidState): (r: u8)
    ensures r == 16 * p.Mode() + (if p.initialized then 1 else 0)
  {
    assert Or8(0, 0) == 0 && Or8(0, 1) == 1 && Or8(16, 0) == 16 && Or8(16, 1) == 17;
    Or8(p.Mode() * 16 % 0x100, if p.initialized then 1 else 0)
  }

  /** A PID's status byte carries its mode in the high nibble and whether it
    * is initialized in the low one. */
  lemma PidStatusNibbles(p: PidState)
    ensures PidStatus(p) / 16 == p.Mode()
    ensures PidStatus(p) % 16 == if p.initialized then 1 else 0
  {
    assert Or8(0, 0) == 0 && Or8(0, 1) == 1 && Or8(16, 0) == 16 && Or8(16, 1) == 17;
  }

  /** The full PID report: VM_PID_NUM_AVAILABLE, then every status byte. */
  function PidReport(ps: seq<PidState>): (r: seq<u8>)
    requires |ps| == PID_COUNT
    ensures |r| == PID_COUNT + 1 && r[0] == PID_COUNT
    ensures forall i :: 0 <= i < PID_COUNT ==> r[i + 1] == PidStatus(ps[i])
  {
    [PID_COUNT as u8] + seq(PID_COUNT, i requires 0 <= i < PID_COUNT => PidStatus(ps[i]))
  }

  /** Byte i+1 of the PID report describes PID i: its mode in the high
    * nibble, whether it is initialized in the low one. */
  lemma PidReportNibbles(ps: seq<PidState>, i: nat)
    requires |ps| == PID_COUNT && i < PID_COUNT
    ensures PidReport(ps)[i + 1] / 16 == ps[i].Mode()
    ensures PidReport(ps)[i + 1] % 16 == if ps[i].initialized then 1 else 0
  {
    PidStatusNibbles(ps[i]);
  }

  function States(pids: seq<PID>): (r: seq<PidState>)
    reads pids
    ensures |r| == |pids|
  {
    seq(|pids|, i requires 0 <= i < |pids| reads pids => pids[i].State())
  }

  /** gcoap_statusMappings: the slot count, then one status byte per slot,
    * each written only if it still fits into the `bufLen` bytes. */
  method StatusMappings(mem: Memory, buf: array<u8>, bufLen: nat) returns (written: nat)
    requires mem.Valid() && bufLen <= buf.Length
    modifies buf
    ensures written <= bufLen
    ensures buf[..written] == Emitted(MapsReport(mem.maps[..]), bufLen)
    ensures forall k :: written <= k < buf.Length ==> buf[k] == old(buf[k])
  {
    ghost var report := MapsReport(mem.maps[..]);
    written := 1;
    if written > bufLen {
      return 0;
    }
    buf[0] := MAP_SIZE as u8;
    var i := 0;
    while i < MAP_SIZE
      invariant 0 <= i <= MAP_SIZE && written == i + 1 && written <= bufLen
      invariant buf[..written] == report[..written]
      invariant forall k :: written <= k < buf.Length ==> buf[k] == old(buf[k])
    {
      if written + 1 > bufLen {
        return;
      }
      buf[written] := mem.maps[i].status;
      written := written + 1;
      i := i + 1;
    }
  }

  /** gcoap_statusPID: the PID count, then `mode << 4 | initialized` of each
    * PID, each written only if it still fits into the `bufLen` bytes. */
  method StatusPid(pids: seq<PID>, buf: array<u8>, bufLen: nat) returns (written: nat)
    requires |pids| == PID_COUNT && bufLen <= buf.Length
    modifies buf
    ensures written <= bufLen
    ensures buf[..written] == Emitted(PidReport(States(pids)), bufLen)
    ensures forall k :: written <= k < buf.Length ==> buf[k] == old(buf[k])
  {
    ghost var states := States(pids);
    ghost var report := PidReport(states);
    written := 1;
    if written > bufLen {
      return 0;
    }
    buf[0] := PID_COUNT as u8;
    var i := 0;
    while i < PID_COUNT
      invariant 0 <= i <= PID_COUNT && written == i + 1 && written <= bufLen
      invariant buf[..written] == report[..written]
      invariant forall k :: written <= k < buf.Length ==> buf[k] == old(buf[k])
    {
      if written + 1 > bufLen {
        return;
      }
      var status := StatusByte(pids[i]);
      assert report[written] == status by {
        assert states[i] == pids[i].State();
      }
      buf[written] := status;
      written := written + 1;
      i := i + 1;
    }
  }

  /** The byte gcoap_statusPID writes for one PID. */
  method StatusByte(p: PID) returns (b: u8)
    ensures b == PidStatus(p.State())
  {
    b := Or8(p.GetMode() * 16 % 0x100, if p.IsInitialized() then 1 else 0);
  }

  // ---- octet transfer ----------------------------------------------------------

  /** The table after a transfer through mapping `id`: a once-only mapping is
    * removed, any other is kept. */
  function AfterTransfer(s: MemState, id: u8, e: UrlMap): (r: MemState)
    requires s.Valid() && id < MAP_SIZE
    ensures r.Valid() && r.bytes == s.bytes
    ensures r.maps == if LifetimeOnce(e) then s.maps[id := Unmapped] else s.maps
  {
    if LifetimeOnce(e) then s.(maps := s.maps[id := Unmapped]) else s
  }

  /** The little-endian bytes of the value a mapping points at, as many as
    * its type is wide; none for a type that is not one of the four. A value
    * that does not fit into memory raises the range error of Memory::load. */
  function ValueOctets(s: MemState, e: UrlMap): (r: Result<seq<u8>>)
    requires s.Valid()
    ensures match TypeOf(e.optype)
      case None => r == Ok([])
      case Some(t) =>
        var a, n := e.valueAddress, Size(WidthOf(t));
        (r.Err? <==> a + n > MEMORY_SIZE)
        && (r.Err? ==> r.fault == RangeError)
        && (r.Ok? ==> r.value == s.bytes[a..a + n])
  {
    match TypeOf(e.optype)
    case None => Ok([])
    case Some(t) =>
      var w := WidthOf(t);
      match s.Load(e.valueAddress, w)
      case Err(f) => Err(f)
      case Ok(v) =>
        EncodeDecode(s.bytes[e.valueAddress..e.valueAddress + Size(w)]);
        Ok(EncodeLE(v, Size(w)))
  }

  /** gcoap_load_value_octet: the octets of the value mapping `id` points
    * at, and the table after the transfer. */
  function LoadOctet(s: MemState, id: u8): (r: Result<(seq<u8>, MemState)>)
    requires s.Valid() && id < MAP_SIZE
    ensures r.Ok? ==> r.value.1 == AfterTransfer(s, id, s.maps[id])
    ensures r.Err? ==> r == Err(RangeError) && ValueOctets(s, s.maps[id]).Err?
    ensures ValueOctets(s, s.maps[id]).Ok? ==> r.Ok? && r.value.0 == ValueOctets(s, s.maps[id]).value
  {
    var e := s.maps[id];
    var payload :- ValueOctets(s, e);
    Ok((payload, AfterTransfer(s, id, e)))
  }

  /** gcoap_store_value_octet: the first bytes of the payload, as many as the
    * mapping's type is wide, stored at its value address; a payload shorter
    * than that would be read past its end. A mapping with none of the four
    * types stores nothing. */
  function StoreOctet(s: MemState, e: UrlMap, payload: seq<u8>): (r: Result<MemState>)
    requires s.Valid()
    ensures r.Ok? ==> r.value.Valid() && r.value.maps == s.maps
    ensures match TypeOf(e.optype)
      case None => r == Ok(s)
      case Some(t) =>
        var a, n := e.valueAddress, Size(WidthOf(t));
        (r.Err? <==> |payload| < n || a + n > MEMORY_SIZE)
        && (r.Ok? ==> r.value.bytes == s.bytes[..a] + payload[..n] + s.bytes[a + n..])
  {
    match TypeOf(e.optype)
    case None => Ok(s)
    case Some(t) =>
      var w := WidthOf(t);
      if |payload| < Size(w) then Err(Undefined)
      else
        var bs := payload[..Size(w)];
        DecodeBound(bs);
        EncodeDecode(bs);
        s.Store(e.valueAddress, w, DecodeLE(bs))
  }

  /** atoi and atof on a text payload. atof's result is given as the
    * rational_t pattern it converts to. */
  datatype TextParse = TextParse(atoi: seq<u8> -> int, atof: seq<u8> -> u32)

  /** gcoap_store_value_text: a payload of TEXT_LIMIT bytes or more is
    * refused with -1; otherwise the parsed number, cut to the mapping's
    * width, is stored and the answer is 0. */
  function StoreText(s: MemState, e: UrlMap, payload: seq<u8>, text: TextParse): (r: Result<(int, MemState)>)
    requires s.Valid()
    ensures r.Ok? ==> r.value.1.Valid() && r.value.1.maps == s.maps
    ensures r.Ok? ==> (r.value.0 == -1 <==> |payload| >= TEXT_LIMIT) && r.value.0 in {0, -1}
    ensures |payload| >= TEXT_LIMIT ==> r == Ok((-1, s))
  {
    if |payload| >= TEXT_LIMIT then Ok((-1, s))
    else
      var a := e.valueAddress;
      var s1 :- match TypeOf(e.optype)
        case None => Ok(s)
        case Some(UInt8) => s.Store(a, W8, text.atoi(payload) % 0x100)
        case Some(UInt16) => s.Store(a, W16, text.atoi(payload) % 0x1_0000)
        case Some(UInt32) => s.Store(a, W32, text.atoi(payload) % 0x1_0000_0000)
        case Some(Dec) => s.Store(a, W32, text.atof(payload));
      Ok((0, s1))
  }

  /** gcoap_store_value: an octet-stream payload is stored as octets, any
    * other as text; then a once-only mapping is removed, whatever the store
    * answered. */
  function StoreValue(s: MemState, format: u16, id: u8, payload: seq<u8>, text: TextParse): (r: Result<(int, MemState)>)
    requires s.Valid() && id < MAP_SIZE
    ensures r.Ok? ==> r.value.1.Valid()
    ensures r.Ok? ==> r.value.1.maps == if LifetimeOnce(s.maps[id]) then s.maps[id := Unmapped] else s.maps
    ensures r.Ok? ==> (r.value.0 == -1 <==> format != FORMAT_OCTET_STREAM && |payload| >= TEXT_LIMIT)
    ensures r.Ok? && r.value.0 == -1 ==> r.value.1.bytes == s.bytes
    ensures format == FORMAT_OCTET_STREAM ==> (r.Ok? <==> StoreOctet(s, s.maps[id], payload).Ok?)
  {
    var e := s.maps[id];
    var (code, s1) :- if format == FORMAT_OCTET_STREAM then
        var s1 :- StoreOctet(s, e, payload);
        Ok((0, s1))
      else StoreText(s, e, payload, text);
    Ok((code, AfterTransfer(s1, id, e)))
  }

  /** Octets stored through a mapping and loaded back through it come back
    * unchanged. */
  lemma StoreThenLoadOctet(s: MemState, id: u8, payload: seq<u8>, t: OperandType)
    requires s.Valid() && id < MAP_SIZE
    requires TypeOf(s.maps[id].optype) == Some(t) && |payload| == Size(WidthOf(t))
    requires s.maps[id].valueAddress + |payload| <= MEMORY_SIZE
    ensures StoreOctet(s, s.maps[id], payload).Ok?
    ensures LoadOctet(StoreOctet(s, s.maps[id], payload).value, id).Ok?
    ensures LoadOctet(StoreOctet(s, s.maps[id], payload).value, id).value.0 == payload
  {
    var a := s.maps[id].valueAddress;
    var s1 := StoreOctet(s, s.maps[id], payload).value;
    assert payload[..|payload|] == payload;
    assert s1.bytes[a..a + |payload|] == payload;
  }

  // ---- on the Memory object ------------------------------------------------

  method LoadValueOctet(mem: Memory, id: u8) returns (r: Result<seq<u8>>)
    requires mem.Valid() && id < MAP_SIZE
    modifies mem.maps
    ensures match LoadOctet(old(mem.Abs()), id)
      case Ok((payload, after)) => r == Ok(payload) && mem.Abs() == after
      case Err(f) => r == Err(f) && mem.Abs() == old(mem.Abs())
  {
    ghost var s := mem.Abs();
    var e := mem.maps[id];
    var payload: seq<u8> := [];
    match TypeOf(e.optype) {
      case None =>
      case Some(t) =>
        var w := WidthOf(t);
        var loaded := mem.Load(e.valueAddress, w);
        if loaded.Err? {
          return Err(loaded.fault);
        }
        EncodeDecode(s.bytes[e.valueAddress..e.valueAddress + Size(w)]);
        payload := EncodeLE(loaded.value, Size(w));
    }
    assert ValueOctets(s, e) == Ok(payload);
    if LifetimeOnce(e) {
      var _ := mem.Unmap(id);
    }
    return Ok(payload);
  }

  method StoreValueOctet(mem: Memory, e: UrlMap, payload: seq<u8>) returns (r: Result<int>)
    requires mem.Valid()
    modifies mem.data
    ensures Then(r, mem.Abs()) == StoreOctet(old(mem.Abs()), e, payload)
    ensures r.Ok? ==> r.value == 0
    ensures r.Err? ==> mem.Abs() == old(mem.Abs())
  {
    match TypeOf(e.optype) {
      case None =>
      case Some(t) =>
        var w := WidthOf(t);
        if |payload| < Size(w) {
          return Err(Undefined);
        }
        DecodeBound(payload[..Size(w)]);
        var stored := mem.Store(e.valueAddress, w, DecodeLE(payload[..Size(w)]));
        if stored.Err? {
          return Err(stored.fault);
        }
    }
    return Ok(0);
  }

  method StoreValueText(mem: Memory, e: UrlMap, payload: seq<u8>, text: TextParse) returns (r: Result<int>)
    requires mem.Valid()
    modifies mem.data
    ensures match StoreText(old(mem.Abs()), e, payload, text)
      case Ok((code, after)) => r == Ok(code) && mem.Abs() == after
      case Err(f) => r == Err(f) && mem.Abs() == old(mem.Abs())
  {
    if |payload| >= TEXT_LIMIT {
      return Ok(-1);
    }
    var a := e.valueAddress;
    var stored: Result<()> := Ok(());
    match TypeOf(e.optype) {
      case None =>
      case Some(UInt8) => stored := mem.Store(a, W8, text.atoi(payload) % 0x100);
      case Some(UInt16) => stored := mem.Store(a, W16, text.atoi(payload) % 0x1_0000);
      case Some(UInt32) => stored := mem.Store(a, W32, text.atoi(payload) % 0x1_0000_0000);
      case Some(Dec) => stored := mem.Store(a, W32, text.atof(payload));
    }
    if stored.Err? {
      return Err(stored.fault);
    }
    return Ok(0);
  }

  method StoreValueThrough(mem: Memory, format: u16, id: u8, payload: seq<u8>, text: TextParse) returns (r: Result<int>)
    requires mem.Valid() && id < MAP_SIZE
    modifies mem.data, mem.maps
    ensures match StoreValue(old(mem.Abs()), format, id, payload, text)
      case Ok((code, after)) => r == Ok(code) && mem.Abs() == after
      case Err(f) => r == Err(f) && mem.Abs() == old(mem.Abs())
  {
    var e := mem.maps[id];
    if format == FORMAT_OCTET_STREAM {
      r := StoreValueOctet(mem, e, payload);
    } else {
      r := StoreValueText(mem, e, payload, text);
    }
    if r.Err? {
      return;
    }
    if LifetimeOnce(e) {
      var _ := mem.Unmap(id);
    }
  }
}
