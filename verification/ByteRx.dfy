/**
 The reading end of a bridged byte stream: an unbounded channel of chunks, with the rest of a chunk that was bigger
 than the reader's buffer carried over to the next read.
 */
module ByteRx {
  import opened Sequences

  type byte = b: int | 0 <= b < 256

  datatype Poll = Ready | Pending

  /** `open`: the sender is still in the stream registry. `pos`: how much of `carried` has been delivered. */
  datatype Rx = Rx(queue: seq<seq<byte>>, open: bool, carried: seq<byte>, pos: nat)

  predicate Ok(rx: Rx)
  {
    rx.pos <= |rx.carried|
  }

  function Flat(chunks: seq<seq<byte>>): (bytes: seq<byte>)
  {
    if chunks == [] then [] else chunks[0] + Flat(chunks[1..])
  }

  lemma {:induction false} FlatAppend(chunks: seq<seq<byte>>, chunk: seq<byte>)
    ensures Flat(chunks + [chunk]) == Flat(chunks) + chunk
  {
    if chunks == [] {
      assert (chunks + [chunk])[1..] == [];
    } else {
      assert (chunks + [chunk])[1..] == chunks[1..] + [chunk];
      FlatAppend(chunks[1..], chunk);
    }
  }

  /** The bytes pushed and not yet handed to the reader, in order. */
  function Undelivered(rx: Rx): (bytes: seq<byte>)
    requires Ok(rx)
  {
    rx.carried[rx.pos..] + Flat(rx.queue)
  }

  /** Take chunks until one has bytes left, or none is queued. */
  function Settle(rx: Rx): (r: Rx)
    requires Ok(rx)
    ensures Ok(r)
    decreases |rx.queue|
  {
    if rx.pos < |rx.carried| || rx.queue == [] then rx
    else Settle(rx.(queue := rx.queue[1..], carried := rx.queue[0], pos := 0))
  }

  /** One poll with `room` bytes free in the caller's buffer: the new state, the answer and the bytes put there. */
  function PollRead(rx: Rx, room: nat): (r: (Rx, Poll, seq<byte>))
    requires Ok(rx)
  {
    var t := Settle(rx);
    if t.pos < |t.carried| then
      var n := if |t.carried| - t.pos <= room then |t.carried| - t.pos else room;
      var out := t.carried[t.pos..t.pos + n];
      (if t.pos + n == |t.carried| then t.(carried := [], pos := 0) else t.(pos := t.pos + n), Ready, out)
    else (t, if t.open then Pending else Ready, [])
  }

  lemma {:induction false} SettleKeepsBytes(rx: Rx)
    requires Ok(rx)
    ensures var t := Settle(rx);
            && Undelivered(t) == Undelivered(rx)
            && t.open == rx.open
            && (t.pos < |t.carried| <==> Undelivered(rx) != [])
    decreases |rx.queue|
  {
    if rx.pos < |rx.carried| || rx.queue == [] {
    } else {
      SettleKeepsBytes(rx.(queue := rx.queue[1..], carried := rx.queue[0], pos := 0));
    }
  }

  /**
   A poll loses, repeats and reorders nothing; with room in the buffer it reports zero bytes exactly when the sender
   is gone and everything was delivered, so an empty chunk never looks like the end; it waits exactly when nothing
   is left and the sender is there.
   */
  lemma PollReadConserves(rx: Rx, room: nat)
    requires Ok(rx)
    ensures var (t, poll, out) := PollRead(rx, room);
            && Ok(t) && t.open == rx.open
            && out + Undelivered(t) == Undelivered(rx)
            && |out| <= room
            && (poll == Pending <==> rx.open && Undelivered(rx) == [])
            && (room > 0 ==> (poll == Ready && out == [] <==> !rx.open && Undelivered(rx) == []))
  {
    SettleKeepsBytes(rx);
    var s := Settle(rx);
    var (t, poll, out) := PollRead(rx, room);
    if s.pos < |s.carried| {
      var left := s.carried[s.pos + |out|..];
      assert s.carried[s.pos..] == out + left;
      Assoc(out, left, Flat(s.queue));
    }
  }

  /** Successive reads with these buffer sizes: the final state and everything delivered. */
  function Reads(rx: Rx, rooms: seq<nat>): (r: (Rx, seq<byte>))
    requires Ok(rx)
    decreases |rooms|
  {
    if rooms == [] then (rx, [])
    else
      PollReadConserves(rx, rooms[0]);
      var (t, _, out) := PollRead(rx, rooms[0]);
      var (u, rest) := Reads(t, rooms[1..]);
      (u, out + rest)
  }

  /** Any reads deliver a prefix and keep the rest; as many reads as there are bytes, each with room, deliver all. */
  lemma {:induction false} ReadsDeliver(rx: Rx, rooms: seq<nat>)
    requires Ok(rx)
    ensures var (u, bytes) := Reads(rx, rooms);
            && Ok(u) && u.open == rx.open
            && bytes + Undelivered(u) == Undelivered(rx)
            && (|rooms| >= |Undelivered(rx)| && (forall i :: 0 <= i < |rooms| ==> rooms[i] > 0) ==>
                  bytes == Undelivered(rx))
    decreases |rooms|
  {
    if rooms == [] {
    } else {
      PollReadConserves(rx, rooms[0]);
      var (t, _, out) := PollRead(rx, rooms[0]);
      ReadsDeliver(t, rooms[1..]);
      var (u, rest) := Reads(t, rooms[1..]);
      Assoc(out, rest, Undelivered(u));
      if |rooms| >= |Undelivered(rx)| && forall i :: 0 <= i < |rooms| ==> rooms[i] > 0 {
        assert forall i :: 0 <= i < |rooms[1..]| ==> rooms[1..][i] == rooms[i + 1];
        assert rooms[0] > 0;
        assert Undelivered(rx) != [] ==> |out| > 0;
      }
    }
  }

  /** What a reader reassembles depends neither on how the bytes were cut into chunks nor on its buffer sizes. */
  lemma {:induction false} ReassemblyIsIndependentOfSizes(a: Rx, b: Rx, roomsA: seq<nat>, roomsB: seq<nat>)
    requires Ok(a) && Ok(b) && Undelivered(a) == Undelivered(b)
    requires |roomsA| >= |Undelivered(a)| && forall i :: 0 <= i < |roomsA| ==> roomsA[i] > 0
    requires |roomsB| >= |Undelivered(b)| && forall i :: 0 <= i < |roomsB| ==> roomsB[i] > 0
    ensures Reads(a, roomsA).1 == Reads(b, roomsB).1
  {
    ReadsDeliver(a, roomsA);
    ReadsDeliver(b, roomsB);
  }

  /** The reader as the source keeps it. */
  class Reader {
    var queue: seq<seq<byte>>
    var open: bool
    var carried: seq<byte>
    var pos: nat

    function Abs(): (rx: Rx)
      reads this
    {
      Rx(queue, open, carried, pos)
    }

    constructor ()
      ensures Abs() == Rx([], true, [], 0)
    {
      queue, open, carried, pos := [], true, [], 0;
    }

    method PollReadInto(room: nat) returns (poll: Poll, out: seq<byte>)
      requires Ok(Abs())
      modifies this
      ensures (Abs(), poll, out) == PollRead(old(Abs()), room)
      ensures Ok(Abs()) && out + Undelivered(Abs()) == old(Undelivered(Abs()))
    {
      PollReadConserves(Abs(), room);
      while true
        invariant Ok(Abs()) && open == old(open)
        invariant Settle(Abs()) == Settle(old(Abs()))
        decreases |queue|
      {
        if pos < |carried| {
          var n := if |carried| - pos <= room then |carried| - pos else room;
          out := carried[pos..pos + n];
          pos := pos + n;
          if pos == |carried| {
            carried, pos := [], 0;
          }
          return Ready, out;
        }
        if queue != [] {
          carried, queue, pos := queue[0], queue[1..], 0;
        } else if open {
          return Pending, [];
        } else {
          return Ready, [];
        }
      }
    }
  }
}
