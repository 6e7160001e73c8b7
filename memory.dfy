// The shared VM memory: a byte array accessed with typed little-endian
// loads and stores behind a bounds check, and the table of URL mappings that
// ties memory cells to CoAP resources.

module SharedMemory {
  import opened Base

  /** VM_MEMORY_SIZE of the TESTING configuration. */
  const MEMORY_SIZE: nat := 1024
  /** VM_MEMORY_MAP_SIZE: map ids are 4-bit. */
  const MAP_SIZE: nat := 16
  const NO_MAPPING: u16 := 0xFFFF
  const MAP_STATUS_DONE: u8 := 0x01
  const MAP_STATUS_NO_MAPPING: u8 := 0x80
  const MAP_LIFETIME_MASK: u8 := 0x04
  const MAP_LIFETIME_ONCE: u8 := 0x00
  /** What getMapForAddress answers when no mapping holds the address. */
  const NO_MAP_ID: u8 := 0xFF

  /** url_map_t. */
  datatype UrlMap = UrlMap(
    optype: u8,
    options: u8,
    valueAddress: u16,
    urlAddress: u16,
    resourceAddress: u16,
    port: u16,
    status: u8)

  /** The record unmap() leaves behind. */
  const Unmapped := UrlMap(0, 0, NO_MAPPING, NO_MAPPING, NO_MAPPING, 0, MAP_STATUS_NO_MAPPING)

  /** A mapping checkmap, map_done and map_error act on: none of its three
    * addresses is NO_MAPPING and its status is not exactly NO_MAPPING. */
  predicate Active(e: UrlMap)
  {
    e.valueAddress != NO_MAPPING && e.urlAddress != NO_MAPPING
    && e.resourceAddress != NO_MAPPING && e.status != MAP_STATUS_NO_MAPPING
  }

  /** The mapping is to be removed once its value has been transferred. */
  predicate LifetimeOnce(e: UrlMap)
  {
    And8(e.options, MAP_LIFETIME_MASK) == MAP_LIFETIME_ONCE
  }

  /** checkmemoryaddress: a value of width `w` at `a` would not fit. */
  predicate OutOfRange(a: int, w: Width)
  {
    a > MEMORY_SIZE - Size(w)
  }

  /** The contents of a Memory object. */
  datatype MemState = MemState(bytes: seq<u8>, maps: seq<UrlMap>)
  {
    predicate Valid()
    {
      |bytes| == MEMORY_SIZE && |maps| == MAP_SIZE
    }

    /** load / loadaddress / loadunsigned / loadrational. */
    function Load(a: u16, w: Width): (r: Result<nat>)
      requires Valid()
      ensures r.Ok? ==> r.value < Limit(w)
    {
      if OutOfRange(a, w) then Err(RangeError)
      else
        var bs := bytes[a..a + Size(w)];
        DecodeBound(bs);
        Ok(DecodeLE(bs))
    }

    /** store / storeaddress / storeunsigned / storerational. */
    function Store(a: u16, w: Width, v: nat): (r: Result<MemState>)
      requires Valid() && v < Limit(w)
      ensures r.Ok? ==> r.value.Valid() && r.value.maps == maps
    {
      if OutOfRange(a, w) then Err(RangeError)
      else Ok(this.(bytes := bytes[..a] + EncodeLE(v, Size(w)) + bytes[a + Size(w)..]))
    }

    /** copy(src, len, dest) with both blocks checked: memmove of `len`
      * bytes, refused when either block does not lie inside memory. */
    function Copy(src: u16, len: u8, dest: u16): (r: Result<MemState>)
      requires Valid()
      ensures r.Ok? ==> r.value.Valid() && r.value.maps == maps
    {
      if CopyGuardAsWritten(src, dest) || src + len > MEMORY_SIZE || dest + len > MEMORY_SIZE then
        Err(RangeError)
      else
        Ok(this.(bytes := Moved(bytes, src, len, dest)))
    }

    function Map(id: u8, optype: u8, options: u8, valueAddress: u16, port: u16,
                 urlAddress: u16, resourceAddress: u16): (r: Result<MemState>)
      requires Valid()
      ensures r.Ok? ==> r.value.Valid() && r.value.bytes == bytes
    {
      if id >= MAP_SIZE then Err(RangeError)
      else
        var e := UrlMap(optype, options, valueAddress, urlAddress, resourceAddress, port, 0);
        Ok(this.(maps := maps[id := e]))
    }

    /** checkmap: the status of an active mapping (0 for an inactive one),
      * and the table after a finished once-only mapping has been removed. */
    function CheckMap(id: u8, deleteAfter: bool): (r: Result<(u8, MemState)>)
      requires Valid()
      ensures r.Ok? ==> r.value.1.Valid() && r.value.1.bytes == bytes
    {
      if id >= MAP_SIZE then Err(RangeError)
      else if !Active(maps[id]) then Ok((0, this))
      else
        var e := maps[id];
        if deleteAfter && e.status == MAP_STATUS_DONE && LifetimeOnce(e) then
          Ok((e.status, this.(maps := maps[id := Unmapped])))
        else
          Ok((e.status, this))
    }

    function MapDone(id: u8): (r: Result<MemState>)
      requires Valid()
      ensures r.Ok? ==> r.value.Valid() && r.value.bytes == bytes
    {
      if id >= MAP_SIZE then Err(RangeError)
      else if !Active(maps[id]) then Ok(this)
      else Ok(this.(maps := maps[id := maps[id].(status := MAP_STATUS_DONE)]))
    }

    function MapError(id: u8, code: u8): (r: Result<MemState>)
      requires Valid()
      ensures r.Ok? ==> r.value.Valid() && r.value.bytes == bytes
    {
      if id >= MAP_SIZE then Err(RangeError)
      else if !Active(maps[id]) then Ok(this)
      else
        var e := maps[id];
        Ok(this.(maps := maps[id := e.(status := Or8(e.status, Or8(code, MAP_STATUS_DONE)))]))
    }

    function Unmap(id: u8): (r: Result<MemState>)
      requires Valid()
      ensures r.Ok? ==> r.value.Valid() && r.value.bytes == bytes
    {
      if id >= MAP_SIZE then Err(RangeError)
      else Ok(this.(maps := maps[id := Unmapped]))
    }

    /** getMapForAddress scanning from id `i` on: the lowest id at or after
      * `i` whose value address is `addr`, NO_MAP_ID when there is none.
      * Whether that mapping is active is not looked at. */
    function MapFrom(addr: u16, i: nat): (r: u8)
      requires Valid() && i <= MAP_SIZE
      ensures r == NO_MAP_ID || (i <= r < MAP_SIZE && maps[r].valueAddress == addr)
      ensures forall j :: i <= j < MAP_SIZE && maps[j].valueAddress == addr ==> r != NO_MAP_ID && r <= j
      decreases MAP_SIZE - i
    {
      if i == MAP_SIZE then NO_MAP_ID
      else if maps[i].valueAddress == addr then i
      else MapFrom(addr, i + 1)
    }

    /** getMapForAddress: the lowest id whose value address is `addr`,
      * NO_MAP_ID when there is none. */
    function MapForAddress(addr: u16): (r: u8)
      requires Valid()
      ensures r == NO_MAP_ID || (r < MAP_SIZE && maps[r].valueAddress == addr)
      ensures forall j :: 0 <= j < MAP_SIZE && maps[j].valueAddress == addr ==> r != NO_MAP_ID && r <= j
    {
      MapFrom(addr, 0)
    }
  }

  /** memmove of `len` bytes from `src` to `dest`: every destination byte
    * takes the source byte at the same offset, read before anything is
    * written; the other bytes stay. */
  function Moved(bytes: seq<u8>, src: nat, len: nat, dest: nat): (r: seq<u8>)
    requires src + len <= |bytes| && dest + len <= |bytes|
  {
    seq(|bytes|, i requires 0 <= i < |bytes| =>
      if dest <= i < dest + len then bytes[src + (i - dest)] else bytes[i])
  }

  /** The memory after clear(): every byte zero, every mapping removed. */
  function Cleared(): (s: MemState)
    ensures s.Valid()
  {
    MemState(seq(MEMORY_SIZE, _ => 0), seq(MAP_SIZE, _ => Unmapped))
  }

  // ---- the copy guard as written ------------------------------------------------

  /** The guard Memory::copy evaluates: each address is checked as if it
    * started a two-byte value; the length is not looked at. */
  predicate CopyGuardAsWritten(src: u16, dest: u16)
  {
    OutOfRange(src, W16) || OutOfRange(dest, W16)
  }

  /** The guard lets a copy through whose source block runs past the end of
    * memory: 255 bytes from address 1022. */
  lemma CopyGuardAdmitsOverrun()
    ensures !CopyGuardAsWritten(1022, 0) && 1022 + 255 > MEMORY_SIZE
  {
  }

  // ---- properties ---------------------------------------------------------------

  /** A typed access succeeds exactly when the whole value lies in memory. */
  lemma AccessWithinMemory(s: MemState, a: u16, w: Width, v: nat)
    requires s.Valid() && v < Limit(w)
    ensures s.Load(a, w).Ok? <==> a + Size(w) <= MEMORY_SIZE
    ensures s.Store(a, w, v).Ok? <==> a + Size(w) <= MEMORY_SIZE
  {
  }

  /** A stored value is read back unchanged at the same width. */
  lemma StoreThenLoad(s: MemState, a: u16, w: Width, v: nat)
    requires s.Valid() && v < Limit(w)
    requires s.Store(a, w, v).Ok?
    ensures s.Store(a, w, v).value.Load(a, w) == Ok(v)
  {
    var t := s.Store(a, w, v).value;
    var enc := EncodeLE(v, Size(w));
    assert t.bytes[a..a + Size(w)] == enc;
    DecodeEncode(v, Size(w));
  }

  /** A byte store below the end of memory replaces exactly that byte. */
  lemma StoreByte(s: MemState, a: u16, v: u8)
    requires s.Valid() && a < MEMORY_SIZE
    ensures s.Store(a, W8, v as nat) == Ok(s.(bytes := s.bytes[a := v]))
  {
    assert EncodeLE(v as nat, 1) == [v];
    assert s.bytes[..a] + [v] + s.bytes[a + 1..] == s.bytes[a := v];
  }

  /** A store writes the value's bytes, least significant first, and touches
    * no other byte and no mapping. */
  lemma StoreFrame(s: MemState, a: u16, w: Width, v: nat)
    requires s.Valid() && v < Limit(w)
    requires s.Store(a, w, v).Ok?
    ensures var t := s.Store(a, w, v).value;
      t.maps == s.maps
      && t.bytes[a..a + Size(w)] == EncodeLE(v, Size(w))
      && forall i :: 0 <= i < MEMORY_SIZE && !(a <= i < a + Size(w)) ==> t.bytes[i] == s.bytes[i]
  {
  }

  /** A load from a block disjoint from the stored one sees the old value. */
  lemma StoreKeepsDisjointLoad(s: MemState, a: u16, w: Width, v: nat, b: u16, w2: Width)
    requires s.Valid() && v < Limit(w)
    requires s.Store(a, w, v).Ok?
    requires b + Size(w2) <= a || a + Size(w) <= b
    ensures s.Store(a, w, v).value.Load(b, w2) == s.Load(b, w2)
  {
    var t := s.Store(a, w, v).value;
    if !OutOfRange(b, w2) {
      StoreFrame(s, a, w, v);
      assert t.bytes[b..b + Size(w2)] == s.bytes[b..b + Size(w2)];
    }
  }

  /** Storing back what was just loaded changes nothing. */
  lemma LoadThenStore(s: MemState, a: u16, w: Width)
    requires s.Valid() && s.Load(a, w).Ok?
    ensures s.Store(a, w, s.Load(a, w).value) == Ok(s)
  {
    var n := Size(w);
    var bs := s.bytes[a..a + n];
    assert s.Load(a, w).value == DecodeLE(bs);
    assert EncodeLE(DecodeLE(bs), n) == bs by {
      EncodeDecode(bs);
    }
    assert s.bytes[..a] + bs + s.bytes[a + n..] == s.bytes by {
      SpliceUnchanged(s.bytes, a, a + n);
    }
  }

  /** Cutting a sequence in three and joining the pieces gives it back. */
  lemma SpliceUnchanged(xs: seq<u8>, i: nat, j: nat)
    requires i <= j <= |xs|
    ensures xs[..i] + xs[i..j] + xs[j..] == xs
  {
    assert xs[..i] + xs[i..j] == xs[..j];
    assert xs[..j] + xs[j..] == xs;
  }

  /** A checked copy moves `len` bytes as memmove does (the source block is
    * read before the destination is written), changes nothing else, and
    * stays inside memory. */
  lemma CopyMovesBlock(s: MemState, src: u16, len: u8, dest: u16)
    requires s.Valid() && s.Copy(src, len, dest).Ok?
    ensures src + len <= MEMORY_SIZE && dest + len <= MEMORY_SIZE
    ensures var t := s.Copy(src, len, dest).value;
      t.maps == s.maps
      && (forall i :: dest <= i < dest + len ==> t.bytes[i] == s.bytes[src + (i - dest)])
      && (forall i :: 0 <= i < MEMORY_SIZE && !(dest <= i < dest + len) ==> t.bytes[i] == s.bytes[i])
  {
  }

  /** Where Memory::copy as written is defined (both blocks inside memory)
    * the checked copy accepts and refuses exactly the same calls. */
  lemma CopyAgreesWhereDefined(s: MemState, src: u16, len: u8, dest: u16)
    requires s.Valid() && src + len <= MEMORY_SIZE && dest + len <= MEMORY_SIZE
    ensures s.Copy(src, len, dest).Ok? <==> !CopyGuardAsWritten(src, dest)
  {
  }

  /** A new mapping starts with status 0: checkmap reports 0 and removes
    * nothing, whether or not it may delete. */
  lemma MapThenCheck(s: MemState, id: u8, optype: u8, options: u8, valueAddress: u16,
                     port: u16, urlAddress: u16, resourceAddress: u16, deleteAfter: bool)
    requires s.Valid() && id < MAP_SIZE
    ensures var t := s.Map(id, optype, options, valueAddress, port, urlAddress, resourceAddress).value;
      t.maps[id] == UrlMap(optype, options, valueAddress, urlAddress, resourceAddress, port, 0)
      && t.CheckMap(id, deleteAfter) == Ok((0, t))
  {
  }

  /** After map_done on an active mapping, a deleting checkmap reports DONE
    * and removes the mapping exactly when its lifetime is ONCE. */
  lemma DoneThenCheck(s: MemState, id: u8)
    requires s.Valid() && id < MAP_SIZE && Active(s.maps[id])
    ensures var t := s.MapDone(id).value;
      var c := t.CheckMap(id, true).value;
      c.0 == MAP_STATUS_DONE
      && (LifetimeOnce(s.maps[id]) ==> c.1.maps == t.maps[id := Unmapped])
      && (!LifetimeOnce(s.maps[id]) ==> c.1 == t)
  {
  }

  /** map_error with an error code (any bit above DONE) marks the mapping
    * done-with-error: checkmap reports more than DONE and never deletes it. */
  lemma ErrorThenCheck(s: MemState, id: u8, code: u8)
    requires s.Valid() && id < MAP_SIZE && Active(s.maps[id]) && code >= 2
    ensures var t := s.MapError(id, code).value;
      var c := t.CheckMap(id, true).value;
      c.0 > MAP_STATUS_DONE && c.1 == t
  {
    ErrorCodeSurvives(s.maps[id].status, code);
  }

  /** OR-ing an error code into a status keeps a bit above DONE set. */
  lemma ErrorCodeSurvives(status: u8, code: u8)
    requires code >= 2
    ensures Or8(status, Or8(code, MAP_STATUS_DONE)) >= 2
  {
    var st := status as bv8;
    var cd := code as bv8;
    assert (st | (cd | 1)) & 0xFE == (st & 0xFE) | (cd & 0xFE);
    assert cd & 0xFE != 0;
  }

  /** An unmapped entry reads as "no value yet" and stays removed. */
  lemma UnmapThenCheck(s: MemState, id: u8, deleteAfter: bool)
    requires s.Valid() && id < MAP_SIZE
    ensures var t := s.Unmap(id).value;
      !Active(t.maps[id]) && t.CheckMap(id, deleteAfter) == Ok((0, t))
  {
  }

  /** Every map operation refuses an id outside the table. */
  lemma MapIdChecked(s: MemState, id: u8, code: u8, deleteAfter: bool)
    requires s.Valid() && id >= MAP_SIZE
    ensures s.CheckMap(id, deleteAfter) == Err(RangeError)
    ensures s.MapDone(id) == Err(RangeError) && s.MapError(id, code) == Err(RangeError)
    ensures s.Unmap(id) == Err(RangeError)
    ensures forall o, p, v, q, u, res :: s.Map(id, o, p, v, q, u, res) == Err(RangeError)
  {
  }

  /** After clear() every load reads zero and every mapping reads as absent. */
  lemma ClearedReadsZero(a: u16, w: Width, id: u8)
    requires !OutOfRange(a, w) && id < MAP_SIZE
    ensures Cleared().Load(a, w) == Ok(0)
    ensures Cleared().CheckMap(id, true) == Ok((0, Cleared()))
  {
    var bs := Cleared().bytes[a..a + Size(w)];
    assert bs == EncodeLE(0, Size(w)) by {
      EncodeZero(Size(w));
    }
    DecodeEncode(0, Size(w));
  }

  lemma {:induction false} EncodeZero(n: nat)
    ensures EncodeLE(0, n) == seq(n, _ => 0)
  {
    if n > 0 {
      EncodeZero(n - 1);
    }
  }

  // ---- the Memory object -------------------------------------------------------

  class Memory {
    var data: array<u8>
    var maps: array<UrlMap>

    ghost predicate Valid()
      reads this
    {
      data.Length == MEMORY_SIZE && maps.Length == MAP_SIZE
    }

    function Abs(): MemState
      reads this, data, maps
    {
      MemState(data[..], maps[..])
    }

    constructor ()
      ensures Valid() && fresh(data) && fresh(maps)
      ensures Abs() == Cleared()
    {
      data := new u8[MEMORY_SIZE](_ => 0);
      maps := new UrlMap[MAP_SIZE](_ => Unmapped);
      new;
      Clear();
    }

    function Load(a: u16, w: Width): (r: Result<nat>)
      requires Valid()
      reads this, data, maps
      ensures r.Ok? <==> a + Size(w) <= MEMORY_SIZE
      ensures r.Ok? ==> r.value < Limit(w)
    {
      Abs().Load(a, w)
    }

    method Store(a: u16, w: Width, v: nat) returns (r: Result<()>)
      requires Valid() && v < Limit(w)
      modifies data
      ensures Then(r, Abs()) == old(Abs()).Store(a, w, v)
      ensures r.Err? ==> unchanged(data)
    {
      if OutOfRange(a, w) {
        return Err(RangeError);
      }
      var bs := EncodeLE(v, Size(w));
      forall k | 0 <= k < Size(w) {
        data[a + k] := bs[k];
      }
      assert data[..] == old(data[..])[..a] + bs + old(data[..])[a + Size(w)..];
      assert Abs() == old(Abs()).Store(a, w, v).value;
      return Ok(());
    }

    /** copy, with the length taken into account by the bounds check. */
    method Copy(src: u16, len: u8, dest: u16) returns (r: Result<()>)
      requires Valid()
      modifies data
      ensures Then(r, Abs()) == old(Abs()).Copy(src, len, dest)
      ensures r.Err? ==> unchanged(data)
    {
      if CopyGuardAsWritten(src, dest) || src + len > MEMORY_SIZE || dest + len > MEMORY_SIZE {
        return Err(RangeError);
      }
      var block := data[src..src + len];
      forall k | 0 <= k < len {
        data[dest + k] := block[k];
      }
      assert data[..] == Moved(old(data[..]), src, len, dest);
      assert Abs() == old(Abs()).Copy(src, len, dest).value;
      return Ok(());
    }

    method Map(id: u8, optype: u8, options: u8, valueAddress: u16, port: u16,
               urlAddress: u16, resourceAddress: u16) returns (r: Result<()>)
      requires Valid()
      modifies maps
      ensures Then(r, Abs()) == old(Abs()).Map(id, optype, options, valueAddress, port, urlAddress, resourceAddress)
      ensures r.Err? ==> unchanged(maps)
    {
      if id >= MAP_SIZE {
        return Err(RangeError);
      }
      maps[id] := UrlMap(optype, options, valueAddress, urlAddress, resourceAddress, port, 0);
      return Ok(());
    }

    method CheckMap(id: u8, deleteAfter: bool) returns (r: Result<u8>)
      requires Valid()
      modifies maps
      ensures match old(Abs()).CheckMap(id, deleteAfter)
        case Ok((status, after)) => r == Ok(status) && Abs() == after
        case Err(f) => r == Err(f) && Abs() == old(Abs())
    {
      if id >= MAP_SIZE {
        return Err(RangeError);
      }
      var e := maps[id];
      if !Active(e) {
        return Ok(0);
      }
      if deleteAfter && e.status == MAP_STATUS_DONE && LifetimeOnce(e) {
        var _ := Unmap(id);
      }
      return Ok(e.status);
    }

    method MapDone(id: u8) returns (r: Result<()>)
      requires Valid()
      modifies maps
      ensures Then(r, Abs()) == old(Abs()).MapDone(id)
      ensures r.Err? ==> unchanged(maps)
    {
      if id >= MAP_SIZE {
        return Err(RangeError);
      }
      if Active(maps[id]) {
        maps[id] := maps[id].(status := MAP_STATUS_DONE);
      }
      return Ok(());
    }

    method MapError(id: u8, code: u8) returns (r: Result<()>)
      requires Valid()
      modifies maps
      ensures Then(r, Abs()) == old(Abs()).MapError(id, code)
      ensures r.Err? ==> unchanged(maps)
    {
      if id >= MAP_SIZE {
        return Err(RangeError);
      }
      if Active(maps[id]) {
        maps[id] := maps[id].(status := Or8(maps[id].status, Or8(code, MAP_STATUS_DONE)));
      }
      return Ok(());
    }

    method Unmap(id: u8) returns (r: Result<()>)
      requires Valid()
      modifies maps
      ensures Then(r, Abs()) == old(Abs()).Unmap(id)
      ensures r.Err? ==> unchanged(maps)
    {
      if id >= MAP_SIZE {
        return Err(RangeError);
      }
      maps[id] := Unmapped;
      return Ok(());
    }

    method GetMapForAddress(addr: u16) returns (r: u8)
      requires Valid()
      ensures r == Abs().MapForAddress(addr)
    {
      var i := 0;
      while i < MAP_SIZE
        invariant 0 <= i <= MAP_SIZE
        invariant Abs().MapFrom(addr, i) == Abs().MapForAddress(addr)
      {
        if maps[i].valueAddress == addr {
          return i;
        }
        i := i + 1;
      }
      return NO_MAP_ID;
    }

    method Clear()
      requires Valid()
      modifies data, maps
      ensures Abs() == Cleared()
    {
      forall i | 0 <= i < MEMORY_SIZE {
        data[i] := 0;
      }
      var i := 0;
      while i < MAP_SIZE
        invariant 0 <= i <= MAP_SIZE
        invariant data[..] == Cleared().bytes
        invariant forall j :: 0 <= j < i ==> maps[j] == Unmapped
      {
        var _ := Unmap(i);
        i := i + 1;
      }
      assert maps[..] == Cleared().maps;
    }
  }
}
