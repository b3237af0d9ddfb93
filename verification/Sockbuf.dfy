/** The socket buffer of src/common/net.cpp: a byte array of fixed size of which a prefix is in
    use, with a read cursor, filled at the back and cut off at the front. */
module Sockbufs {
  import opened Arithmetic

  newtype byte = x: int | 0 <= x < 256

  const SOCKBUF_WRITE_SPARE: nat := 8

  /** What the operating system makes of the attempts to send a datagram: SendFailed is one failure
      too many, SocketBroken a socket whose error cannot even be asked for. */
  datatype SendOutcome = Sent | WouldBlock | SentNothing | SendFailed | SocketBroken

  /** And of one attempt to receive one. */
  datatype ReadOutcome = Got(bytes: seq<byte>) | NoneThere | ReadFailed

  class Sockbuf {
    const size: nat
    const readable: bool
    const writable: bool
    const lock: bool
    const dgram: bool
    const buf: array<byte>
    var len: nat
    var ptr: nat

    // Every buffer the program creates is locked against kernel I/O or bound to a datagram socket.
    ghost predicate Valid()
      reads this
    {
      && buf.Length == size
      && len <= size
      && (lock || dgram)
    }

    ghost function Data(): seq<byte>
      requires Valid()
      reads this, buf
    {
      buf[..len]
    }

    constructor (size: nat, readable: bool, writable: bool, lock: bool, dgram: bool)
      requires lock || dgram
      ensures Valid() && fresh(buf)
      ensures this.size == size && this.readable == readable && this.writable == writable
      ensures this.lock == lock && this.dgram == dgram
      ensures Data() == [] && ptr == 0
    {
      this.size := size;
      this.readable, this.writable := readable, writable;
      this.lock, this.dgram := lock, dgram;
      buf := new byte[size];
      len, ptr := 0, 0;
    }

    method Clear()
      requires Valid()
      modifies this
      ensures Valid() && Data() == [] && ptr == 0
    {
      len := 0;
      ptr := 0;
    }

    /** Cuts n bytes off the front: what stays in use is the old contents without its first n bytes. */
    method Advance(n: int)
      requires Valid()
      modifies this, buf
      ensures Valid()
      ensures Data() == old(Data())[Min(Max(n, 0), old(len))..]
      ensures ptr == if n >= old(len) && n > 0 then 0 else Max(0, Min(old(ptr), old(len)) - Max(n, 0))
    {
      if ptr > len {
        ptr := len;
      }
      if n <= 0 {
      } else if n >= len {
        len := 0;
        ptr := 0;
      } else {
        forall i | 0 <= i < len - n {
          buf[i] := buf[i + n];
        }
        len := len - n;
        ptr := if ptr <= n then 0 else ptr - n;
      }
    }

    /** Appends bytes; all or nothing. */
    method Write(bytes: seq<byte>) returns (r: int)
      requires Valid()
      modifies this`len, buf
      ensures Valid()
      ensures r == if writable && |bytes| <= size - old(len) then |bytes| else -1
      ensures Data() == if r == |bytes| then old(Data()) + bytes else old(Data())
    {
      if !writable {
        return -1;
      }
      if size - len < |bytes| {
        return -1;
      }
      Append(bytes);
      return |bytes|;
    }

    /** Behind what has not been scanned yet comes the next datagram, cut to the room there is. */
    method Read(outcome: ReadOutcome) returns (n: int)
      requires Valid()
      modifies this, buf
      ensures Valid()
      ensures !readable || lock ==> Data() == old(Data()) && ptr == old(ptr) && n == if readable then 0 else -1
      ensures readable && !lock ==>
                var kept := old(Unscanned());
                && ptr == 0
                && (if |kept| == size || outcome == ReadFailed then Data() == kept && n == -1
                    else if outcome == NoneThere || outcome.bytes == [] then Data() == kept && n == 0
                    else Data() == kept + Cut(outcome.bytes, size - |kept|) && n == len)
    {
      hide Cut, Unscanned;
      if !readable {
        return -1;
      }
      if lock {
        return 0;
      }
      DropScanned();
      if size - len <= 0 || outcome == ReadFailed {
        return -1;
      }
      if outcome == NoneThere || outcome.bytes == [] {
        return 0;
      }
      Append(Cut(outcome.bytes, size - len));
      return len;
    }

    ghost function Unscanned(): seq<byte>
      requires Valid()
      reads this, buf
    {
      Data()[Min(ptr, len)..]
    }

    method DropScanned()
      requires Valid()
      modifies this, buf
      ensures Valid() && ptr == 0 && Data() == old(Unscanned())
    {
      if ptr > 0 {
        Advance(ptr);
      }
    }

    static function Cut(bytes: seq<byte>, room: nat): (r: seq<byte>)
      ensures |r| <= room && r <= bytes
    {
      bytes[..Min(|bytes|, room)]
    }

    method Append(bytes: seq<byte>)
      requires Valid() && |bytes| <= size - len
      modifies this`len, buf
      ensures Valid() && Data() == old(Data()) + bytes
    {
      forall i | 0 <= i < |bytes| {
        buf[len + i] := bytes[i];
      }
      len := len + |bytes|;
      assert buf[..len - |bytes|] == old(buf[..len]);
    }

    /** Hands the contents to the network as one datagram, or drops them, unless the socket is broken. */
    method Flush(outcome: SendOutcome) returns (n: int, datagram: seq<seq<byte>>)
      requires Valid()
      modifies this
      ensures Valid()
      ensures !writable || lock ==> n == -1 && datagram == [] && Data() == old(Data()) && ptr == old(ptr)
      ensures writable && !lock && old(len) == 0 ==> n == 0 && datagram == [] && Data() == [] && ptr == old(ptr)
      ensures writable && !lock && old(len) > 0 ==>
                && (if outcome == SocketBroken then Data() == old(Data()) && ptr == old(ptr)
                    else Data() == [] && ptr == 0)
                && datagram == (if outcome == Sent then [old(Data())] else [])
                && n == match outcome
                        case Sent => old(len)
                        case SendFailed => -1
                        case SocketBroken => -1
                        case _ => 0
    {
      if !writable || lock {
        return -1, [];
      }
      if len <= 0 {
        return 0, [];
      }
      match outcome
      case Sent =>
        n, datagram := len, [buf[..len]];
        Clear();
      case SendFailed =>
        Clear();
        return -1, [];
      case SocketBroken =>
        return -1, [];
      case _ =>
        Clear();
        return 0, [];
    }
  }
}
