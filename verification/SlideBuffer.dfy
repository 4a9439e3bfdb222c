/** SlideBuffer: a byte FIFO kept at the front of one fixed array. Removing bytes
    slides the remainder to index 0 in place. */
module SlideBuffers {
  import opened Bytes
  import opened Collections

  /** The abstract buffer: what it holds, oldest byte first, and how much it may hold. */
  datatype Fifo = Fifo(cap: nat, held: seq<byte>)

  datatype Op =
    | Enqueue(msg: seq<byte>, n: nat)
    | Dequeue(room: nat, n: nat)
    | Pop(n: nat)

  /** The outcome of one operation: the new buffer, the reported success, and the bytes
      taken in and let out. */
  datatype Effect = Effect(fifo: Fifo, ok: bool, accepted: seq<byte>, removed: seq<byte>)

  ghost predicate Bounded(f: Fifo) {
    |f.held| <= f.cap < 0x8000_0000
  }

  function Apply(f: Fifo, op: Op): Effect {
    match op
    case Enqueue(msg, n) =>
      if n == 0 then Effect(f, true, [], [])
      else if |msg| < n || f.cap - |f.held| < n then Effect(f, false, [], [])
      else Effect(f.(held := f.held + msg[..n]), true, msg[..n], [])
    case Dequeue(room, n) =>
      if n == 0 then Effect(f, true, [], [])
      else if room < n || |f.held| < n then Effect(f, false, [], [])
      else Effect(f.(held := f.held[n..]), true, [], f.held[..n])
    case Pop(n) =>
      if n == 0 then Effect(f, true, [], [])
      else if |f.held| < n then Effect(f, false, [], [])
      else Effect(f.(held := f.held[n..]), true, [], f.held[..n])
  }

  function Run(f: Fifo, ops: seq<Op>): Effect
    decreases |ops|
  {
    if ops == [] then Effect(f, true, [], [])
    else
      var e := Apply(f, ops[0]);
      var r := Run(e.fifo, ops[1..]);
      Effect(r.fifo, e.ok && r.ok, e.accepted + r.accepted, e.removed + r.removed)
  }

  /** One operation lets out a prefix of what was held followed by what it took in. */
  lemma OpLaw(f: Fifo, op: Op)
    requires Bounded(f)
    ensures var e := Apply(f, op);
            e.removed + e.fifo.held == f.held + e.accepted && Bounded(e.fifo) && e.fifo.cap == f.cap
  {
  }

  /** Over every sequence of operations, the bytes let out followed by the bytes still held are
      the bytes that were there followed by the bytes taken in, and the buffer never outgrows
      its capacity. */
  lemma {:induction false} FifoLaw(f: Fifo, ops: seq<Op>)
    requires Bounded(f)
    ensures var r := Run(f, ops);
            r.removed + r.fifo.held == f.held + r.accepted && Bounded(r.fifo) && r.fifo.cap == f.cap
    decreases |ops|
  {
    if ops != [] {
      var e := Apply(f, ops[0]);
      var r := Run(e.fifo, ops[1..]);
      OpLaw(f, ops[0]);
      FifoLaw(e.fifo, ops[1..]);
      Reassociate(e.removed, r.removed, r.fifo.held);
      Reassociate(e.removed, e.fifo.held, r.accepted);
      Reassociate(f.held, e.accepted, r.accepted);
    }
  }

  /** A view of the first n held bytes survives any number of operations that let nothing out. */
  lemma {:induction false} ViewStable(f: Fifo, ops: seq<Op>, n: nat)
    requires n <= |f.held|
    requires Run(f, ops).removed == []
    ensures n <= |Run(f, ops).fifo.held| && Run(f, ops).fifo.held[..n] == f.held[..n]
    decreases |ops|
  {
    if ops != [] {
      ViewStable(Apply(f, ops[0]).fifo, ops[1..], n);
    }
  }

  /** The little-endian length prefix, 0 when fewer than four bytes are present. */
  function PeekLength(s: seq<byte>): nat {
    if |s| < 4 then 0 else DecodeUint32(s) as nat
  }

  /** A whole frame is available: a non-zero declared length no longer than what is held. */
  predicate HeadReady(s: seq<byte>) {
    0 < PeekLength(s) <= |s|
  }

  /** Both read off the first four bytes, lowest first. So a stream that begins n, 0, 0, 0 has a frame of n bytes at
      its head as soon as there are that many. */
  lemma LengthIsLittleEndian(s: seq<byte>)
    requires |s| >= 4
    ensures PeekLength(s) == LittleEndian(s[..4])
    ensures HeadReady(s) <==> 0 < LittleEndian(s[..4]) <= |s|
    ensures s[1] == 0 && s[2] == 0 && s[3] == 0 ==> PeekLength(s) == s[0] as nat
  {
    DecodesLittleEndian(s);
  }

  /** System.ArraySegment<byte>: a window on an array, not a copy of it. */
  datatype ArraySegment = ArraySegment(arr: array<byte>, offset: nat, count: nat) {
    ghost predicate InBounds() {
      offset + count <= arr.Length
    }

    ghost function Bytes(): seq<byte>
      reads arr
      requires InBounds()
    {
      arr[offset..offset + count]
    }
  }

  class SlideBuffer {
    const buffer: array<byte>
    const cap: uint32
    var size: uint32

    ghost predicate Valid()
      reads this
    {
      cap < 0x8000_0000 && buffer.Length == cap as int && size <= cap
    }

    ghost function Contents(): Fifo
      reads this, buffer
      requires Valid()
    {
      Fifo(cap as nat, buffer[..size])
    }

    constructor (capacity: uint32)
      requires capacity < 0x8000_0000
      ensures Valid() && fresh(buffer)
      ensures Contents() == Fifo(capacity as nat, [])
    {
      buffer := new byte[capacity];
      cap := capacity;
      size := 0;
    }

    method Enqueue(msg: array<byte>, n: uint32) returns (ok: bool)
      requires Valid()
      modifies this`size, buffer
      ensures Valid()
      ensures var e := Apply(old(Contents()), Op.Enqueue(old(msg[..]), n as nat));
              Contents() == e.fifo && ok == e.ok
      ensures ok == (n == 0 || (n as int <= msg.Length && old(size) as int + n as int <= cap as int))
      ensures buffer[..size] == old(buffer[..size]) + if ok then old(msg[..n]) else []
      ensures buffer[..old(size)] == old(buffer[..size])
    {
      if n < 1 {
        return true;
      }
      if msg.Length < n as int {
        return false;
      }
      if cap - size < n {
        return false;
      }
      ArrayCopy(msg, 0, buffer, size as nat, n as nat);
      size := size + n;
      assert buffer[..size] == old(buffer[..size]) + old(msg[..n]);
      return true;
    }

    method Dequeue(target: array<byte>, n: uint32) returns (ok: bool)
      requires Valid()
      modifies this`size, buffer, target
      ensures Valid()
      ensures var e := Apply(old(Contents()), Op.Dequeue(target.Length, n as nat));
              Contents() == e.fifo && ok == e.ok && (ok ==> old(buffer[..n]) == e.removed)
      ensures ok == (n == 0 || (n as int <= target.Length && n <= old(size)))
      ensures buffer[..size] == if ok then old(buffer[n..size]) else old(buffer[..size])
      ensures target != buffer ==>
                target[..] == if ok then old(buffer[..n]) + old(target[n..]) else old(target[..])
    {
      if n < 1 {
        return true;
      }
      if target.Length < n as int {
        return false;
      }
      if size < n {
        return false;
      }
      ArrayCopy(buffer, 0, target, 0, n as nat);
      assert buffer[..size] == old(buffer[..size]);
      Slide(n);
      return true;
    }

    method Pop(n: uint32) returns (ok: bool)
      requires Valid()
      modifies this`size, buffer
      ensures Valid()
      ensures var e := Apply(old(Contents()), Op.Pop(n as nat));
              Contents() == e.fifo && ok == e.ok
      ensures ok == (n <= old(size))
      ensures buffer[..size] == if ok then old(buffer[n..size]) else old(buffer[..size])
    {
      if n < 1 {
        return true;
      }
      if size < n {
        return false;
      }
      Slide(n);
      return true;
    }

    /** The in-place left shift shared by Dequeue and Pop. */
    method Slide(n: uint32)
      requires Valid() && n <= size
      modifies this`size, buffer
      ensures Valid() && buffer[..size] == old(buffer[n..size])
    {
      ArrayCopy(buffer, n as nat, buffer, 0, (size - n) as nat);
      size := size - n;
    }

    method Peek() returns (v: uint32)
      requires Valid()
      ensures v as nat == PeekLength(Contents().held)
      ensures v as nat == if size < 4 then 0 else LittleEndian(buffer[..4])
    {
      if size < 4 {
        return 0;
      }
      v := DecodeUint32(buffer[..4]);
      DecodesLittleEndian(buffer[..4]);
      assert buffer[..4][..4] == buffer[..4];
    }

    /** Hands out a window on the first frame when one is complete; otherwise leaves the
        caller's window as it was. */
    method GetMsg(view: ArraySegment) returns (ok: bool, result: ArraySegment)
      requires Valid()
      ensures ok == HeadReady(Contents().held)
      ensures ok == (size >= 4 && 0 < LittleEndian(buffer[..4]) <= size as int)
      ensures !ok ==> result == view
      ensures ok ==> && result == ArraySegment(buffer, 0, PeekLength(Contents().held))
                     && result.count == LittleEndian(buffer[..4])
                     && result.InBounds()
                     && result.Bytes() == Contents().held[..PeekLength(Contents().held)]
    {
      var header := Peek();
      if header == 0 {
        return false, view;
      }
      var held := GetSize();
      if header > held {
        return false, view;
      }
      return true, ArraySegment(buffer, 0, header as nat);
    }

    method GetSize() returns (n: uint32)
      requires Valid()
      ensures n as nat == |Contents().held|
    {
      return size;
    }
  }
}
