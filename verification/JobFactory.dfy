/** JobFactory and its MemoryPool: turning a received message into a job that lives in a pool block. */
module JobFactories {
  import opened Bytes
  import opened Collections
  import opened Messages
  import Packets

  /** sizeof(ReqMessage): header, payload size, payload. */
  const PAYLOAD_OFFSET: nat := HEADER_SIZE + 4
  const REQ_MESSAGE_SIZE: nat := PAYLOAD_OFFSET + (Packets.PACKET_SIZE - HEADER_SIZE)

  /** sizeof(EchoParameter). */
  const ECHO_SIZE: nat := 84

  datatype ReqType = Echo | ReqToken | UdpEcho

  function TypeField(sv: seq<byte>): int32
    requires |sv| >= HEADER_SIZE
  {
    ParseHeader(sv).code
  }

  function Kind(code: int32): ReqType {
    if code == 0 then Echo else if code == 1 then ReqToken else UdpEcho
  }

  /** Passes the checks made before a block is taken. */
  predicate WellFormed(sv: seq<byte>) {
    HEADER_SIZE <= |sv| <= REQ_MESSAGE_SIZE && 0 <= TypeField(sv) <= 2
  }

  /** Parse: an echo parameter must not be longer than its struct. The length it is given counts the
      payload-size field, although the bytes start behind it. */
  predicate Parses(sv: seq<byte>)
    requires WellFormed(sv)
  {
    Kind(TypeField(sv)) == ReqToken || |sv| - HEADER_SIZE <= ECHO_SIZE
  }

  /** CreateJob makes a job of it, given a block. */
  predicate Creatable(sv: seq<byte>) {
    WellFormed(sv) && Parses(sv)
  }

  /** The parameter of the job: the bytes behind the payload-size field, zero where there are none. */
  function Param(sv: seq<byte>): (r: seq<byte>)
    ensures |r| == ECHO_SIZE
  {
    seq(ECHO_SIZE, k => if k >= 0 && PAYLOAD_OFFSET + k < |sv| then sv[PAYLOAD_OFFSET + k] else 0)
  }

  /** What CreateJob accepts, off the bytes: type 1, a token request, of any length that fits ReqMessage; types 0 and 2,
      the echoes, up to 84 bytes behind the header; and no other type. Types from 2^31 on are the negative ones. */
  lemma CreatableIff(sv: seq<byte>)
    requires |sv| >= 12
    ensures var t := LittleEndian(sv[4..8]);
            && (Creatable(sv) <==> |sv| <= 8196 && (t == 1 || ((t == 0 || t == 2) && |sv| <= 96)))
            && (Kind(TypeField(sv)) == Echo <==> t == 0)
            && (Kind(TypeField(sv)) == ReqToken <==> t == 1)
            && (TypeField(sv) < 0 <==> t >= 0x8000_0000)
            && ParseHeader(sv).reqNo as nat == LittleEndian(sv[8..12])
            && forall k :: 0 <= k < 84 ==> Param(sv)[k] == if 16 + k < |sv| then sv[16 + k] else 0
  {
    DecodesLittleEndian(sv[4..]);
    DecodesLittleEndian(sv[8..]);
    assert sv[4..][..4] == sv[4..8] && sv[8..][..4] == sv[8..12];
    SignedRoundTrip(TypeField(sv));
  }

  /** A request laid out as ReqMessage. */
  function EncodeReq(code: int32, reqNo: uint32, param: seq<byte>): seq<byte>
    requires |param| < 0x1000_0000
  {
    Encode(Message(code, reqNo, EncodeUint32(|param| as uint32) + param))
  }

  /** An echo request laid out as ReqMessage is accepted if and only if its parameter has at most 80 bytes: four
      less than the struct holds. Then the job echoes exactly those bytes, zero-filled to 84. */
  lemma EchoAcceptedIff(reqNo: uint32, param: seq<byte>)
    requires |param| < 0x1000_0000
    ensures Creatable(EncodeReq(0, reqNo, param)) <==> |param| <= ECHO_SIZE - 4
    ensures |param| <= ECHO_SIZE - 4 ==>
              Param(EncodeReq(0, reqNo, param)) == param + seq(ECHO_SIZE - |param|, _ => 0)
  {
    var size := EncodeUint32(|param| as uint32);
    var m := Message(0, reqNo, size + param);
    var sv := Encode(m);
    DecodeEncodeMessage(m);
    assert sv[HEADER_SIZE..] == size + param;
    if |param| <= ECHO_SIZE - 4 {
      forall k | 0 <= k < ECHO_SIZE
        ensures Param(sv)[k] == (param + seq(ECHO_SIZE - |param|, _ => 0))[k]
      {
        assert k < |param| ==> sv[PAYLOAD_OFFSET + k] == sv[HEADER_SIZE..][4 + k];
      }
    }
  }

  /** The repository's own client sends the parameter right behind the header, without a payload-size field. The
      request is accepted if the parameter fits its struct, but the job holds it shifted by four bytes: what
      comes back is what was sent if and only if every byte of it is zero. */
  lemma ClientEchoIntactIff(reqNo: uint32, param: seq<byte>)
    requires |param| < 0x1000_0000
    ensures var sv := Encode(Message(0, reqNo, param));
            && (Creatable(sv) <==> |param| <= ECHO_SIZE)
            && (|param| <= ECHO_SIZE ==>
                  (Param(sv) == param + seq(ECHO_SIZE - |param|, _ => 0)
                   <==> forall k :: 0 <= k < |param| ==> param[k] == 0))
  {
    var m := Message(0, reqNo, param);
    var sv := Encode(m);
    DecodeEncodeMessage(m);
    if |param| <= ECHO_SIZE {
      var sent := param + seq(ECHO_SIZE - |param|, _ => 0);
      ShiftedParam(sv, param);
      assert forall k :: 0 <= k < |param| ==> sent[k] == param[k];
      if Param(sv) == sent {
        ShiftIsZero(sent);
      }
    }
  }

  lemma ShiftedParam(sv: seq<byte>, param: seq<byte>)
    requires |sv| == HEADER_SIZE + |param| && sv[HEADER_SIZE..] == param && |param| <= ECHO_SIZE
    ensures var sent := param + seq(ECHO_SIZE - |param|, _ => 0);
            forall k :: 0 <= k < ECHO_SIZE ==> Param(sv)[k] == if k + 4 < ECHO_SIZE then sent[k + 4] else 0
  {
    assert forall k :: 0 <= k < |param| ==> sv[HEADER_SIZE + k] == sv[HEADER_SIZE..][k];
  }

  /** Bytes equal to themselves shifted by four, with zeros coming in, are all zero. */
  lemma ShiftIsZero(s: seq<byte>)
    requires forall k :: 0 <= k < |s| ==> s[k] == if k + 4 < |s| then s[k + 4] else 0
    ensures forall k :: 0 <= k < |s| ==> s[k] == 0
  {
    for i := |s| downto 0
      invariant forall k :: i <= k < |s| ==> s[k] == 0
    {
      assert s[i] == if i + 4 < |s| then s[i + 4] else 0;
    }
  }

  /** A raw block of the pool, known by its address. */
  class Block {
    constructor () {}
  }

  class MemoryPool {
    var free: seq<Block>

    /** No block is on the list twice. */
    ghost predicate Valid()
      reads this
    {
      forall i, j :: 0 <= i < j < |free| ==> free[i] != free[j]
    }

    /** available: which of the initial allocations find memory. */
    constructor (available: seq<bool>)
      ensures Valid() && |free| == Trues(available) && forall b :: b in free ==> fresh(b)
    {
      free := [];
      new;
      for i := 0 to |available|
        invariant Valid() && |free| == Trues(available[..i]) && forall b :: b in free ==> fresh(b)
      {
        assert available[..i + 1] == available[..i] + [available[i]];
        TruesAppend(available[..i], available[i]);
        if available[i] {
          var block := new Block();
          free := free + [block];
        }
      }
      assert available[..|available|] == available;
    }

    /** A block from the list, or a new one; null when the list is empty and the allocator is exhausted. */
    method Allocate(exhausted: bool) returns (block: Block?)
      requires Valid()
      modifies this
      ensures Valid() && free == if old(free) == [] then [] else old(free)[1..]
      ensures block == null <==> old(free) == [] && exhausted
      ensures block != null ==> block !in free && if old(free) == [] then fresh(block) else block == old(free)[0]
    {
      block := null;
      if free != [] {
        block := free[0];
        free := free[1..];
      }
      if block == null {
        if exhausted {
          return null;
        }
        block := new Block();
      }
    }

    method Deallocate(block: Block?)
      requires Valid() && (block != null ==> block !in free)
      modifies this
      ensures Valid() && free == old(free) + if block == null then [] else [block]
    {
      if block != null {
        free := free + [block];
      }
    }
  }

  datatype Job = Job(block: Block, kind: ReqType, clientIndex: uint32, reqNo: uint32, param: seq<byte>)

  /** What CreateJob answers: a job, a null pointer, or nothing defined, because a negative type has passed the one
      check there is and then indexed the table of constructors. */
  datatype Made = Made(job: Job) | Null | Undefined

  class JobFactory {
    const pool: MemoryPool

    constructor (available: seq<bool>)
      ensures pool.Valid() && fresh(pool) && |pool.free| == Trues(available)
    {
      pool := new MemoryPool(available);
    }

    /** A job exactly for the messages that pass every check, as long as there is memory. A refused message costs
        the pool nothing: a block taken for it goes back. */
    method CreateJob(user: uint32, sv: seq<byte>, exhausted: bool) returns (made: Made)
      requires pool.Valid()
      modifies pool
      ensures pool.Valid()
      ensures made.Undefined? <==> HEADER_SIZE <= |sv| <= REQ_MESSAGE_SIZE && TypeField(sv) < 0
      ensures made.Made? <==> Creatable(sv) && (old(pool.free) != [] || !exhausted)
      ensures made.Made? ==>
                && made.job == Job(made.job.block, Kind(TypeField(sv)), user, ParseHeader(sv).reqNo,
                                   if TypeField(sv) == 1 then [] else Param(sv))
                && made.job.block !in pool.free
                && pool.free == (if old(pool.free) == [] then [] else old(pool.free)[1..])
                && (if old(pool.free) == [] then fresh(made.job.block) else made.job.block == old(pool.free)[0])
      ensures made.Null? ==>
                && (forall b :: b in old(pool.free) ==> b in pool.free)
                && (forall b :: b in pool.free ==> b in old(pool.free) || fresh(b))
    {
      if |sv| < HEADER_SIZE {
        return Null;
      } else if |sv| > REQ_MESSAGE_SIZE {
        return Null;
      }
      var header := ParseHeader(sv);
      if header.code > 2 {
        return Null;
      }
      if header.code < 0 {
        return Undefined;
      }
      var block := pool.Allocate(exhausted);
      if block == null {
        return Null;
      }
      var kind := Kind(header.code);
      if kind != ReqToken && |sv| - HEADER_SIZE > ECHO_SIZE {
        pool.Deallocate(block);
        return Null;
      }
      return Made(Job(block, kind, user, header.reqNo, if kind == ReqToken then [] else Param(sv)));
    }

    /** None is the null job. */
    method DeallocateJob(job: Option<Job>)
      requires pool.Valid() && (job.Some? ==> job.value.block !in pool.free)
      modifies pool
      ensures pool.Valid() && pool.free == old(pool.free) + if job.None? then [] else [job.value.block]
    {
      if job.Some? {
        pool.Deallocate(job.value.block);
      }
    }
  }
}
