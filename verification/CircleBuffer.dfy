/** The growing ring buffer, against a queue of bytes. */
module CircleBuffers {
  import opened Bytes
  import opened Sequences

  /** What is in a ring, from one cursor on to the other. */
  function Ring(s: seq<byte>, consumer: nat, producer: nat): seq<byte> {
    if consumer > |s| || producer > |s| then []
    else if consumer <= producer then s[consumer..producer]
    else s[consumer..] + s[..producer]
  }

  lemma RingSize(s: seq<byte>, consumer: nat, producer: nat)
    requires consumer <= |s| && producer <= |s|
    ensures |Ring(s, consumer, producer)|
         == if consumer <= producer then producer - consumer else |s| + producer - consumer
  {
  }

  lemma RingDropped(s: seq<byte>, consumer: nat, producer: nat, n: nat, next: nat)
    requires consumer < |s| && producer < |s| && n <= |Ring(s, consumer, producer)|
    requires next == if n + consumer >= |s| then n + consumer - |s| else n + consumer
    ensures next < |s| && Ring(s, next, producer) == Ring(s, consumer, producer)[n..]
  {
  }

  /** The same ring with bytes written from the producer cursor on, to the end and then from the beginning. */
  lemma RingExtended(s: seq<byte>, t: seq<byte>, consumer: nat, producer: nat, bytes: seq<byte>, next: nat)
    requires consumer < |s| && producer < |s| == |t| && |Ring(s, consumer, producer)| + |bytes| < |s|
    requires next == if producer + |bytes| >= |s| then producer + |bytes| - |s| else producer + |bytes|
    requires forall i :: 0 <= i < |bytes| && producer + i < |s| ==> t[producer + i] == bytes[i]
    requires forall i :: 0 <= i < |bytes| && producer + i >= |s| ==> t[producer + i - |s|] == bytes[i]
    requires forall i :: 0 <= i < |s| && InRing(|s|, consumer, producer, i) ==> t[i] == s[i]
    ensures next < |s| && Ring(t, consumer, next) == Ring(s, consumer, producer) + bytes
  {
    var a, b := Ring(t, consumer, next), Ring(s, consumer, producer);
    assert |a| == |b| + |bytes|;
    forall k | 0 <= k < |a| ensures a[k] == (b + bytes)[k] {
      RingAt(t, consumer, next, k);
      if k < |b| {
        RingAt(s, consumer, producer, k);
      }
    }
  }

  predicate InRing(size: nat, consumer: nat, producer: nat, i: nat) {
    if consumer <= producer then consumer <= i < producer else i >= consumer || i < producer
  }

  lemma RingAt(s: seq<byte>, consumer: nat, producer: nat, k: nat)
    requires consumer < |s| && producer < |s| && k < |Ring(s, consumer, producer)|
    ensures Ring(s, consumer, producer)[k] == s[if consumer + k >= |s| then consumer + k - |s| else consumer + k]
    ensures InRing(|s|, consumer, producer, if consumer + k >= |s| then consumer + k - |s| else consumer + k)
  {
  }

  class CircleBuffer {
    var buffer: array<byte>
    var producer: nat
    var consumer: nat

    // Everything ever produced, and everything ever discarded, consumed or not.
    ghost var produced: seq<byte>
    ghost var gone: seq<byte>

    ghost predicate Cursors()
      reads this
    {
      if buffer.Length == 0 then producer == 0 && consumer == 0
      else producer < buffer.Length && consumer < buffer.Length
    }

    /** Both cursors are inside the buffer, or all is zero; nothing is lost or made up. */
    ghost predicate Valid()
      reads this, buffer
    {
      Cursors() && produced == gone + Contents()
    }

    /** The bytes from the consumer cursor on to the producer cursor, around the end. */
    ghost function Contents(): seq<byte>
      reads this, buffer
    {
      Ring(buffer[..], consumer, producer)
    }

    constructor (capacity: nat)
      ensures Valid() && Contents() == [] && fresh(buffer) && buffer.Length == capacity
      ensures produced == [] && gone == []
    {
      buffer := new byte[capacity];
      producer, consumer := 0, 0;
      produced, gone := [], [];
      new;
      assert buffer[..][0..0] == [];
    }

    method AvailableBytes() returns (n: nat)
      requires Valid()
      ensures n == |Contents()|
      ensures buffer.Length > 0 ==> n < buffer.Length
      ensures buffer.Length == 0 ==> n == 0
    {
      if consumer <= producer {
        n := producer - consumer;
      } else {
        n := buffer.Length + producer - consumer;
      }
    }

    /** As many of the first bytes as asked for and there. */
    method Peek(amount: nat) returns (out: seq<byte>)
      requires Valid()
      ensures out == Contents()[..if amount > |Contents()| then |Contents()| else amount]
    {
      var n := amount;
      if consumer <= producer {
        var max := producer - consumer;
        if n > max {
          n := max;
        }
        out := buffer[consumer..consumer + n];
      } else {
        var max := buffer.Length + producer - consumer;
        if n > max {
          n := max;
        }
        if n + consumer > buffer.Length {
          var toEnd := buffer.Length - consumer;
          out := buffer[consumer..] + buffer[..n - toEnd];
        } else {
          out := buffer[consumer..consumer + n];
        }
      }
    }

    method Discard(amount: nat)
      requires Valid()
      modifies this`consumer, this`gone
      ensures Valid() && produced == old(produced)
      ensures Contents() == old(Contents())[if amount > old(|Contents()|) then old(|Contents()|) else amount..]
    {
      hide Ring;
      ghost var contents := Contents();
      var n := amount;
      var max := AvailableBytes();
      if n > max {
        n := max;
      }
      if buffer.Length > 0 {
        RingDropped(buffer[..], consumer, producer, n,
                    if n + consumer >= buffer.Length then n + consumer - buffer.Length else n + consumer);
      }
      if n + consumer >= buffer.Length {
        consumer := n - (buffer.Length - consumer);
      } else {
        consumer := consumer + n;
      }
      assert Contents() == contents[n..];
      gone := gone + contents[..n];
      assert contents == contents[..n] + contents[n..];
      AppendAssoc(old(gone), contents[..n], contents[n..]);
    }

    method Consume(amount: nat) returns (out: seq<byte>)
      requires Valid()
      modifies this`consumer, this`gone
      ensures Valid() && produced == old(produced)
      ensures old(Contents()) == out + Contents()
      ensures |out| == if amount > old(|Contents()|) then old(|Contents()|) else amount
    {
      ghost var contents := Contents();
      out := Peek(amount);
      Discard(|out|);
      assert contents == contents[..|out|] + contents[|out|..];
    }

    /** Moves the contents to the start of a buffer that has room for more and one byte to spare. */
    method Grow(amount: nat)
      requires Valid()
      modifies this`buffer, this`producer, this`consumer
      ensures Valid() && fresh(buffer) && buffer.Length == |Contents()| + amount + 1
      ensures Contents() == old(Contents()) && produced == old(produced) && gone == old(gone)
    {
      ghost var contents := Contents();
      var used := AvailableBytes();
      var bytes := Peek(used);
      var larger := new byte[used + amount + 1];
      forall i | 0 <= i < used {
        larger[i] := bytes[i];
      }
      buffer := larger;
      consumer := 0;
      producer := used;
      assert larger[..used] == contents;
    }

    /** Puts bytes after the others, to the end of the buffer and then from its beginning. */
    method Put(bytes: seq<byte>)
      requires Valid() && |Contents()| + |bytes| < buffer.Length
      modifies this`producer, this`produced, buffer
      ensures Valid() && Contents() == old(Contents()) + bytes
      ensures produced == old(produced) + bytes && gone == old(gone)
    {
      hide Ring;
      ghost var before, from := buffer[..], producer;
      RingSize(before, consumer, from);
      var toEnd := buffer.Length - producer;
      if |bytes| > toEnd {
        var fromBeginning := |bytes| - toEnd;
        forall i | 0 <= i < toEnd {
          buffer[producer + i] := bytes[i];
        }
        forall i | 0 <= i < fromBeginning {
          buffer[i] := bytes[toEnd + i];
        }
        producer := fromBeginning;
      } else {
        forall i | 0 <= i < |bytes| {
          buffer[producer + i] := bytes[i];
        }
        producer := producer + |bytes|;
        if producer == buffer.Length {
          producer := 0;
        }
      }
      RingExtended(before, buffer[..], consumer, from, bytes, producer);
      produced := produced + bytes;
      AppendAssoc(gone, Ring(before, consumer, from), bytes);
    }

    /** One byte always stays free. */
    method Produce(bytes: seq<byte>)
      requires Valid()
      modifies this, buffer
      ensures Valid() && |Contents()| < buffer.Length
      ensures buffer == old(buffer) || fresh(buffer)
      ensures Contents() == old(Contents()) + bytes
      ensures produced == old(produced) + bytes && gone == old(gone)
    {
      var used := AvailableBytes();
      if |bytes| >= buffer.Length - used {
        Grow(|bytes|);
      }
      Put(bytes);
    }
  }
}
