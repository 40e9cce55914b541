/** The buffered pipe over a pipe that may fail part way: no byte is lost, repeated or reordered on the way down. */
module BufferedPipes {
  import opened Bytes
  import opened Wrappers

  /** What the pipe below does with one write: all of it, or it throws after so many bytes. Flushed, it returns or
      throws. */
  datatype Outcome = Whole | FailsAfter(k: nat)

  /** The first writes of a plan that the pipe below takes whole; when the plan is over it takes all. */
  predicate AllWhole(plan: seq<Outcome>, n: nat) {
    forall i :: 0 <= i < n && i < |plan| ==> plan[i].Whole?
  }

  function Rest(plan: seq<Outcome>, n: nat): seq<Outcome> {
    if n <= |plan| then plan[n..] else []
  }

  /** How often the buffer is filled, and therefore drained, by so many more bytes. */
  function Drains(size: nat, more: nat, capacity: nat): nat
    requires capacity > 0
  {
    if more == 0 then 0 else (size + more) / capacity
  }

  /** The pipe below. When it throws it says how many bytes it wrote, or, having written none, leaves the count it was
      given alone. */
  class SubPipe {
    var delivered: seq<byte>
    var plan: seq<Outcome>

    constructor (plan: seq<Outcome>)
      ensures delivered == [] && this.plan == plan
    {
      delivered, this.plan := [], plan;
    }

    method Write(bytes: seq<byte>) returns (ok: bool, count: nat)
      modifies this
      ensures ok ==> count == |bytes| && delivered == old(delivered) + bytes
      ensures !ok ==> count <= |bytes|
                      && delivered == old(delivered) + bytes[..if count == |bytes| then 0 else count]
      ensures ok == AllWhole(old(plan), 1) && plan == Rest(old(plan), 1)
    {
      var outcome := Whole;
      if plan != [] {
        outcome := plan[0];
        plan := plan[1..];
      }
      match outcome {
        case Whole =>
          delivered := delivered + bytes;
          ok, count := true, |bytes|;
        case FailsAfter(k) =>
          ok := false;
          if k < |bytes| {
            delivered := delivered + bytes[..k];
            count := k;
          } else {
            count := |bytes|;
            assert bytes[..0] == [] && delivered + [] == delivered;
          }
      }
    }

    method FlushOutput() returns (ok: bool)
      modifies this`plan
      ensures ok == AllWhole(old(plan), 1) && plan == Rest(old(plan), 1)
    {
      ok := plan == [] || plan[0].Whole?;
      if plan != [] {
        plan := plan[1..];
      }
    }
  }

  class BufferedPipe {
    const sub: SubPipe
    const buffer: array<byte>
    var size: nat

    // The bytes taken from the writer, in order.
    ghost var accepted: seq<byte>

    /** Everything accepted has been delivered or is in the buffer, in order. */
    ghost predicate Valid()
      reads this, buffer, sub
    {
      size <= buffer.Length && buffer.Length > 0 && sub.delivered + Held() == accepted
    }

    ghost function Held(): seq<byte>
      requires size <= buffer.Length
      reads this, buffer
    {
      buffer[..size]
    }

    constructor (sub: SubPipe, capacity: nat)
      requires capacity > 0
      ensures Valid() && this.sub == sub && fresh(buffer) && buffer.Length == capacity
      ensures size == 0 && accepted == sub.delivered
    {
      this.sub := sub;
      buffer := new byte[capacity];
      size := 0;
      accepted := sub.delivered;
      new;
      assert sub.delivered + buffer[..0] == sub.delivered;
    }

    /** Writes the buffer to the pipe below; what could not be written moves to the front. */
    method Drain() returns (ok: bool)
      requires Valid()
      modifies this`size, buffer, sub
      ensures Valid() && accepted == old(accepted) && size <= old(size)
      ensures ok ==> size == 0
      ensures ok == AllWhole(old(sub.plan), 1) && sub.plan == Rest(old(sub.plan), 1)
    {
      hide AllWhole, Rest;
      ghost var held, before := Held(), sub.delivered;
      var count: nat;
      ok, count := sub.Write(buffer[..size]);
      if ok {
        size := 0;
        assert before + held == sub.delivered + [];
      } else if count != size {
        DeliveredPart(before, held, count);
        var rest := buffer[count..size];
        forall i | 0 <= i < |rest| {
          buffer[i] := rest[i];
        }
        size := size - count;
        assert buffer[..size] == held[count..];
      } else {
        assert before + held[..0] == before;
      }
    }

    /** Drains the buffer if there is anything in it, then flushes the pipe below; either may throw. */
    method FlushOutput() returns (r: Result<(), Error>)
      requires Valid()
      modifies this`size, buffer, sub
      ensures Valid() && accepted == old(accepted) && size <= old(size)
      ensures r.Success? || AllWhole(old(sub.plan), 1) ==> size == 0 && sub.delivered == accepted
      ensures r.Success? <==> AllWhole(old(sub.plan), if old(size) > 0 then 2 else 1)
    {
      hide AllWhole, Rest;
      AllWholeNext(sub.plan);
      if size > 0 {
        var ok := Drain();
        if !ok {
          return Failure(UnknownError);
        }
      }
      assert sub.delivered + [] == sub.delivered;
      var flushed := sub.FlushOutput();
      return if flushed then Success(()) else Failure(UnknownError);
    }

    /** Fills the buffer with what fits. */
    method Fill(bytes: seq<byte>)
      requires Valid() && size + |bytes| <= buffer.Length
      modifies this`size, this`accepted, buffer
      ensures Valid() && accepted == old(accepted) + bytes && size == old(size) + |bytes|
    {
      ghost var held := Held();
      forall i | 0 <= i < |bytes| {
        buffer[size + i] := bytes[i];
      }
      size := size + |bytes|;
      accepted := accepted + bytes;
      assert Held() == held + bytes;
      AcceptedMore(sub.delivered, held, bytes);
    }

    /** Puts bytes that fit in the buffer, and drains it once it is full. */
    method Accept(bytes: seq<byte>) returns (ok: bool)
      requires Valid() && size + |bytes| <= buffer.Length
      modifies this`size, this`accepted, buffer, sub
      ensures Valid() && accepted == old(accepted) + bytes
      ensures old(size) + |bytes| < buffer.Length ==> ok && size == old(size) + |bytes| && sub.plan == old(sub.plan)
      ensures old(size) + |bytes| == buffer.Length ==>
                ok == AllWhole(old(sub.plan), 1) && sub.plan == Rest(old(sub.plan), 1) && (ok ==> size == 0)
    {
      hide AllWhole, Rest;
      Fill(bytes);
      ok := true;
      if size == buffer.Length {
        ok := Drain();
      }
    }

    /** Accepts the whole input, or, when the pipe below throws, a prefix of it. The count reported then leaves out the
        chunk that was put in the buffer just before: it is what had been accepted in the turns before. So it is right
        only when the buffer was full before and could not be drained at once. */
    method Write(input: seq<byte>) returns (r: Result<(), Error>, reported: nat, ghost taken: nat)
      requires Valid()
      modifies this`size, this`accepted, buffer, sub
      ensures Valid() && taken <= |input| && accepted == old(accepted) + input[..taken]
      ensures r.Success? ==> taken == |input| == reported
      ensures r.Failure? ==> reported <= taken && taken - reported <= buffer.Length
      ensures r.Failure? ==> (reported == taken <==> old(size) == buffer.Length && !AllWhole(old(sub.plan), 1))
      ensures r.Success? <==> AllWhole(old(sub.plan), Drains(old(size), |input|, buffer.Length))
      ensures r.Success? && input != [] ==> size == (old(size) + |input|) % buffer.Length
    {
      hide AllWhole, Rest, Drains, Filled;
      var done := 0;
      assert accepted + input[..0] == accepted;
      ghost var was, drained := accepted, 0;
      NoneDrained(sub.plan, size, |input|, buffer.Length);
      while done < |input|
        invariant Valid() && done <= |input| && accepted == was + input[..done]
        invariant size == buffer.Length <==> old(size) == buffer.Length && drained == 0
        invariant size == buffer.Length ==> done == 0
        invariant Filled(drained, size, |input| - done, buffer.Length) == old(size) + |input|
        invariant input == [] ==> drained == 0
        invariant AllWhole(old(sub.plan), drained) && sub.plan == Rest(old(sub.plan), drained)
        decreases |input| - done, if size == buffer.Length then 1 else 0
      {
        var n := |input| - done;
        if n + size > buffer.Length {
          n := buffer.Length - size;
        }
        ghost var left := |input| - done - n;
        FilledMore(drained, size, n, left, buffer.Length);
        DrainedOnce(old(sub.plan), drained);
        AcceptedNext(was, input, done, n);
        ghost var full := size + n == buffer.Length;
        var ok := Accept(input[done..done + n]);
        if !ok {
          DrainsMore(drained + 1, 0, left, buffer.Length, old(size), |input|);
          TooFew(old(sub.plan), drained + 1, Drains(old(size), |input|, buffer.Length));
          FirstWhole(old(sub.plan), drained);
          r, reported, taken := Failure(UnknownError), done, done + n;
          return;
        }
        drained := if full then drained + 1 else drained;
        done := done + n;
      }
      DrainsAre(drained, size, buffer.Length, old(size), |input|);
      assert input[..done] == input;
      r, reported, taken := Success(()), |input|, |input|;
    }
  }

  /** The bytes of so many full buffers, of one that is not, and those still to come. */
  function Filled(drained: nat, size: nat, left: nat, capacity: nat): nat {
    capacity * drained + size + left
  }

  lemma FilledMore(drained: nat, size: nat, n: nat, left: nat, capacity: nat)
    ensures Filled(drained, size + n, left, capacity) == Filled(drained, size, n + left, capacity)
    ensures size + n == capacity ==> Filled(drained + 1, 0, left, capacity) == Filled(drained, size, n + left, capacity)
  {
  }

  lemma NoneDrained(plan: seq<Outcome>, size: nat, left: nat, capacity: nat)
    ensures AllWhole(plan, 0) && Rest(plan, 0) == plan && Filled(0, size, left, capacity) == size + left
  {
  }

  lemma DrainedOnce(plan: seq<Outcome>, n: nat)
    requires AllWhole(plan, n)
    ensures AllWhole(Rest(plan, n), 1) <==> AllWhole(plan, n + 1)
    ensures Rest(Rest(plan, n), 1) == Rest(plan, n + 1)
  {
    if n < |plan| {
      assert Rest(plan, n)[0] == plan[n];
    }
  }

  lemma AllWholeNext(plan: seq<Outcome>)
    ensures AllWhole(plan, 2) <==> AllWhole(plan, 1) && AllWhole(Rest(plan, 1), 1)
  {
    if AllWhole(plan, 1) {
      DrainedOnce(plan, 1);
    }
  }

  lemma FirstWhole(plan: seq<Outcome>, n: nat)
    requires AllWhole(plan, n)
    ensures n > 0 ==> AllWhole(plan, 1)
    ensures n == 0 ==> (AllWhole(plan, n + 1) <==> AllWhole(plan, 1))
  {
  }

  lemma TooFew(plan: seq<Outcome>, n: nat, m: nat)
    requires !AllWhole(plan, n) && n <= m
    ensures !AllWhole(plan, m)
  {
  }

  lemma ProductMonotone(capacity: nat, a: nat, b: nat)
    requires a <= b
    ensures capacity * a <= capacity * b
  {
  }

  lemma DrainsMore(drained: nat, size: nat, left: nat, capacity: nat, was: nat, more: nat)
    requires capacity > 0 && more > 0 && Filled(drained, size, left, capacity) == was + more
    ensures drained <= Drains(was, more, capacity)
  {
    var q := (was + more) / capacity;
    if q < drained {
      ProductMonotone(capacity, q + 1, drained);
    }
  }

  lemma DrainsAre(drained: nat, size: nat, capacity: nat, was: nat, more: nat)
    requires capacity > 0 && Filled(drained, size, 0, capacity) == was + more
    requires if more == 0 then drained == 0 else size < capacity
    ensures drained == Drains(was, more, capacity)
    ensures more > 0 ==> size == (was + more) % capacity
  {
    if more > 0 {
      DrainsMore(drained, size, 0, capacity, was, more);
      var q := (was + more) / capacity;
      if drained < q {
        ProductMonotone(capacity, drained + 1, q);
      }
    }
  }

  lemma DeliveredPart(before: seq<byte>, held: seq<byte>, k: nat)
    requires k <= |held|
    ensures before + held == before + held[..k] + held[k..]
  {
    assert held == held[..k] + held[k..];
  }

  lemma AcceptedMore(delivered: seq<byte>, held: seq<byte>, bytes: seq<byte>)
    ensures delivered + held + bytes == delivered + (held + bytes)
  {
  }

  lemma AcceptedNext(was: seq<byte>, input: seq<byte>, done: nat, n: nat)
    requires done + n <= |input|
    ensures was + input[..done] + input[done..done + n] == was + input[..done + n]
  {
    assert input[..done] + input[done..done + n] == input[..done + n];
  }

  /** One byte written to an empty buffer of one byte, over a pipe that throws at once: the byte is accepted and will
      be delivered, and none is reported written. */
  method ReportedWrongly(b: byte) returns (pipe: BufferedPipe, reported: nat)
    ensures reported == 0 && pipe.Valid() && pipe.accepted == [b]
  {
    var sub := new SubPipe([FailsAfter(0)]);
    pipe := new BufferedPipe(sub, 1);
    assert !AllWhole(sub.plan, 1) by {
      assert sub.plan[0] == FailsAfter(0);
    }
    assert Drains(0, 1, 1) == 1 && [] + [b][..1] == [b];
    var r, n, taken := pipe.Write([b]);
    reported := n;
  }
}
