/** The C++ packets: serialization buffers, and the pool that recycles them. */
module Packets {
  import opened Bytes
  import opened Collections
  import opened Framing
  import opened Messages

  /** MAX_SOCKBUF * 2. */
  const PACKET_SIZE: nat := 8192

  const PACKET_COUNT: nat := 100

  class PacketData {
    /** m_pData; an array of length 0 stands for nullptr, which Allocate never installs. */
    var data: array<byte>
    var size: uint32
    var capacity: uint32

    ghost predicate Valid()
      reads this
    {
      data.Length > 0 ==> data.Length == capacity as int && size <= capacity
    }

    ghost function Contents(): seq<byte>
      reads this, data
      requires Valid()
    {
      if data.Length == 0 then [] else data[..size]
    }

    /** Fit for the pool: empty, with room for any packet. */
    ghost predicate Clean()
      reads this
    {
      Valid() && size == 0 && data.Length == PACKET_SIZE
    }

    constructor ()
      ensures Valid() && Contents() == [] && data.Length == 0 && fresh(data)
    {
      data, size, capacity := new byte[0], 0, 0;
    }

    method Clear()
      requires Valid()
      modifies this`size
      ensures Valid() && Contents() == [] && size == 0
    {
      size := 0;
    }

    /** Reallocation keeps as much of the contents as fits. exhausted: the allocator returns nothing. */
    method Allocate(room: uint32, exhausted: bool) returns (ok: bool)
      requires Valid()
      modifies this
      ensures Valid() && ok == (room != 0 && !exhausted)
      ensures ok ==> && fresh(data) && data.Length == room as int
                     && Contents() == old(Contents())[..if |old(Contents())| < room as int
                                                        then |old(Contents())| else room as int]
      ensures !ok ==> data == old(data) && size == old(size) && capacity == old(capacity)
    {
      if room == 0 {
        return false;
      }
      if exhausted {
        return false;
      }
      var next := new byte[room];
      capacity := room;
      if data.Length != 0 && size != 0 {
        var kept := if size > room then room else size;
        ArrayCopy(data, 0, next, 0, kept as nat);
        size := kept;
      } else {
        size := 0;
      }
      data := next;
      return true;
    }

    /** Drops the first n bytes and slides the rest to the front. Without an array there must be nothing to slide. */
    method Pop(n: uint32)
      requires Valid() && (data.Length == 0 ==> size <= n)
      modifies this`size, data
      ensures Valid() && data == old(data)
      ensures Contents() == old(Contents())[if n as int < |old(Contents())| then n as int else |old(Contents())|..]
    {
      var left := if size > n then size - n else 0;
      if left != 0 {
        ArrayCopy(data, n as nat, data, 0, left as nat);
      }
      size := left;
    }

    /** CopyMemory of one field behind what is already there. */
    method Append(image: seq<byte>)
      requires Valid() && size as int + |image| <= data.Length && data.Length > 0
      modifies this`size, data
      ensures Valid() && Contents() == old(Contents()) + image
    {
      forall i | 0 <= i < |image| {
        data[size as int + i] := image[i];
      }
      size := size + |image| as uint32;
    }

    /** The header fields, written from the start of the array. */
    method WriteHeader(totalSize: uint32, code: int32, reqNo: uint32)
      requires Valid() && data.Length >= HEADER_SIZE
      modifies this`size, data
      ensures Valid() && size as int == HEADER_SIZE
      ensures Contents() == EncodeUint32(totalSize) + EncodeUint32(ToUnsigned(code)) + EncodeUint32(reqNo)
    {
      size := 0;
      Append(EncodeUint32(totalSize));
      Append(EncodeUint32(ToUnsigned(code)));
      Append(EncodeUint32(reqNo));
    }

    /** Init from a pointer and a size. The total is computed in 32 bits. What passes the check against PACKET_SIZE is
        written without another look at the capacity, so there must be room for it. */
    method Init(code: int32, reqNo: uint32, payload: seq<byte>) returns (ok: bool)
      requires Valid() && |payload| < 0x1_0000_0000
      requires (|payload| + HEADER_SIZE) % 0x1_0000_0000 <= PACKET_SIZE ==> |payload| + HEADER_SIZE <= data.Length
      modifies this`size, data
      ensures Valid() && data == old(data) && ok == (|payload| + HEADER_SIZE <= PACKET_SIZE)
      ensures ok ==> Contents() == Encode(Message(code, reqNo, payload))
      ensures !ok ==> Contents() == old(Contents()) && size == old(size)
    {
      var totalSize := ((|payload| + HEADER_SIZE) % 0x1_0000_0000) as uint32;
      if totalSize as int > PACKET_SIZE {
        return false;
      }
      assert |payload| + HEADER_SIZE <= data.Length < 0x1_0000_0000;
      WriteHeader(totalSize, code, reqNo);
      if |payload| > 0 {
        Append(payload);
      }
      return true;
    }

    /** Init without a payload. */
    method InitEmpty(code: int32, reqNo: uint32)
      requires Valid() && data.Length >= HEADER_SIZE
      modifies this`size, data
      ensures Valid() && data == old(data) && Contents() == Encode(Message(code, reqNo, []))
    {
      WriteHeader(HEADER_SIZE as uint32, code, reqNo);
    }
  }

  /** Whatever Init accepts, the C# receive loop gives back: a packet's total size is far below 15361. */
  lemma PacketsRoundTrip(ms: seq<Message>, chunks: seq<seq<byte>>)
    requires forall i :: 0 <= i < |ms| ==> |ms[i].payload| + HEADER_SIZE <= PACKET_SIZE
    ensures AllSendable(ms)
    ensures IsChunking(chunks, Flatten(EncodeAll(ms))) ==> Delivers(Feed([], chunks), ms)
  {
    if IsChunking(chunks, Flatten(EncodeAll(ms))) {
      WireRoundTrip(ms, chunks);
    }
  }

  class PacketPool {
    var free: seq<PacketData>

    /** Every packet on the free list is there once, empty, and of full capacity. */
    ghost predicate Valid()
      reads this, free
    {
      && (forall i, j :: 0 <= i < j < |free| ==> free[i] != free[j])
      && (forall p :: p in free ==> p.Clean())
    }

    /** available: which of the hundred allocations find memory. */
    constructor (available: seq<bool>)
      requires |available| == PACKET_COUNT
      ensures Valid() && |free| == Trues(available) && forall p :: p in free ==> fresh(p) && fresh(p.data)
    {
      free := [];
      new;
      for i := 0 to PACKET_COUNT
        invariant Valid() && |free| == Trues(available[..i])
        invariant forall p :: p in free ==> fresh(p) && fresh(p.data)
      {
        assert available[..i + 1] == available[..i] + [available[i]];
        TruesAppend(available[..i], available[i]);
        var packet := new PacketData();
        var ok := packet.Allocate(PACKET_SIZE as uint32, !available[i]);
        if ok {
          free := free + [packet];
        }
      }
      assert available[..PACKET_COUNT] == available;
    }

    /** A packet from the list, or a new one; null when the list is empty and the allocator is exhausted. */
    method Allocate(exhausted: bool) returns (p: PacketData?)
      requires Valid()
      modifies this
      ensures Valid() && free == if old(free) == [] then [] else old(free)[1..]
      ensures p == null <==> old(free) == [] && exhausted
      ensures p != null ==> p.Clean() && p !in free
      ensures p != null ==> if old(free) == [] then fresh(p) && fresh(p.data) else p == old(free)[0]
    {
      if free != [] {
        p := free[0];
        free := free[1..];
        return;
      }
      if exhausted {
        return null;
      }
      p := new PacketData();
      var ok := p.Allocate(PACKET_SIZE as uint32, false);
    }

    method Deallocate(p: PacketData?)
      requires Valid() && (p != null ==> p !in free && p.Valid() && p.data.Length == PACKET_SIZE)
      modifies this`free, p
      ensures Valid() && free == old(free) + if p == null then [] else [p]
      ensures p != null ==> p.data == old(p.data)
    {
      if p == null {
        return;
      }
      p.Clear();
      free := free + [p];
    }
  }
}
