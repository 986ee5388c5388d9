/** The sender that writes a fixed number of patterned bytes to a socket with a bounded buffer. */
module LargeTransfer {
  import opened Collections

  const TOTAL_TX_BYTES: nat := 2000000
  const WRITE_SIZE: nat := 1040

  /** Byte k of the stream. */
  function Letter(k: nat): char {
    (97 + k % 26) as char
  }

  /**
   * What the socket answers in one turn of the loop: the free space seen by the loop's test and
   * by the choice of the size, and the number of bytes taken, negative if it would block.
   */
  datatype Answer = Answer(space: nat, room: nat, taken: int)

  lemma PatternRepeats(current: nat, j: nat)
    ensures Letter(current % WRITE_SIZE + j) == Letter(current + j)
  {
    var q, r := current / WRITE_SIZE, current % WRITE_SIZE;
    assert current == WRITE_SIZE * q + r && WRITE_SIZE * q == 26 * (40 * q);
    SameRemainder(r + j, 40 * q);
  }

  lemma SameRemainder(x: nat, k: nat)
    ensures (26 * k + x) % 26 == x % 26
  {
  }

  predicate Patterned(stream: seq<char>) {
    forall k :: 0 <= k < |stream| ==> stream[k] == Letter(k)
  }

  /** Appending the piece of the buffer that belongs at the end of the stream. */
  lemma Continues(stream: seq<char>, buffer: seq<char>, n: nat)
    requires Patterned(stream) && Patterned(buffer) && |stream| % WRITE_SIZE + n <= |buffer|
    ensures Patterned(stream + buffer[|stream| % WRITE_SIZE..|stream| % WRITE_SIZE + n])
  {
    var offset := |stream| % WRITE_SIZE;
    var longer := stream + buffer[offset..offset + n];
    forall k | 0 <= k < |longer| ensures longer[k] == Letter(k) {
      if k >= |stream| {
        PatternRepeats(|stream|, k - |stream|);
      }
    }
  }

  /** How far the stream gets with one answer: never over the end of the buffer, the total or the free room. */
  function Taken(position: nat, answer: Answer): nat {
    if position >= TOTAL_TX_BYTES || answer.taken < 0 then 0
    else Min(answer.taken, Min(Min(WRITE_SIZE - position % WRITE_SIZE, TOTAL_TX_BYTES - position), answer.room))
  }

  /** The size that Send is called with. */
  function Offered(position: nat, room: nat): nat
    requires position < TOTAL_TX_BYTES
  {
    Min(Min(WRITE_SIZE - position % WRITE_SIZE, TOTAL_TX_BYTES - position), room)
  }

  /** What the socket takes of what it is offered is counted byte for byte, and nothing else is. */
  lemma TakenIsCounted(position: nat, answer: Answer)
    ensures position >= TOTAL_TX_BYTES || answer.taken < 0 ==> Taken(position, answer) == 0
    ensures position < TOTAL_TX_BYTES && 0 <= answer.taken <= Offered(position, answer.room) ==>
              Taken(position, answer) == answer.taken
    ensures position < TOTAL_TX_BYTES && answer.taken > Offered(position, answer.room) ==>
              Taken(position, answer) == Offered(position, answer.room)
  {
  }

  function Position(start: nat, answers: seq<Answer>): nat {
    if answers == [] then start
    else
      var before := Position(start, answers[..|answers| - 1]);
      before + Taken(before, answers[|answers| - 1])
  }

  class Sender {
    var currentTxBytes: nat
    const data: array<char>
    /** Everything the socket has taken so far, in order. */
    ghost var stream: seq<char>

    ghost predicate Valid()
      reads this, data
    {
      data.Length == WRITE_SIZE && Patterned(data[..])
      && currentTxBytes == |stream| <= TOTAL_TX_BYTES && Patterned(stream)
    }

    constructor ()
      ensures Valid() && fresh(data) && currentTxBytes == 0
    {
      data := new char[WRITE_SIZE];
      currentTxBytes, stream := 0, [];
      new;
      for i := 0 to WRITE_SIZE
        invariant data.Length == WRITE_SIZE && currentTxBytes == 0 && stream == []
        invariant forall k :: 0 <= k < i ==> data[k] == Letter(k)
      {
        data[i] := Letter(i);
      }
    }

    /** One call of Send, and what the socket makes of it. */
    method Send(answer: Answer) returns (amountSent: int)
      requires Valid() && currentTxBytes < TOTAL_TX_BYTES
      modifies this`currentTxBytes, this`stream
      ensures Valid() && old(stream) <= stream
      ensures amountSent < 0 <==> answer.taken < 0
      ensures currentTxBytes == old(currentTxBytes) + Taken(old(currentTxBytes), answer)
      ensures amountSent >= 0 ==> currentTxBytes == old(currentTxBytes) + amountSent
    {
      var left := TOTAL_TX_BYTES - currentTxBytes;
      var dataOffset := currentTxBytes % WRITE_SIZE;
      var toWrite := WRITE_SIZE - dataOffset;
      toWrite := Min(toWrite, left);
      toWrite := Min(toWrite, answer.room);
      if answer.taken < 0 {
        return answer.taken;
      }
      // the socket takes at most what it is offered
      amountSent := Min(answer.taken, toWrite);
      Continues(stream, data[..], amountSent);
      stream := stream + data[..][dataOffset..dataOffset + amountSent];
      currentTxBytes := currentTxBytes + amountSent;
    }

    /**
     * Runs until the loop ends or the answers do; done tells that the socket is closed. Whatever
     * the socket takes each time, byte k of the stream is Letter(k) and the total is never exceeded.
     */
    method WriteUntilBufferFull(answers: seq<Answer>) returns (done: bool, used: nat)
      requires Valid()
      modifies this`currentTxBytes, this`stream
      ensures Valid() && old(stream) <= stream && used <= |answers|
      ensures currentTxBytes == Position(old(currentTxBytes), answers[..used])
      ensures done ==> currentTxBytes == TOTAL_TX_BYTES || (used < |answers| && answers[used].space == 0)
      ensures !done ==> used == |answers| || (used > 0 && answers[used - 1].taken < 0)
    {
      used := 0;
      while used < |answers|
        invariant Valid() && old(stream) <= stream && used <= |answers|
        invariant currentTxBytes == Position(old(currentTxBytes), answers[..used])
      {
        var answer := answers[used];
        if currentTxBytes >= TOTAL_TX_BYTES || answer.space == 0 {
          return true, used;
        }
        assert answers[..used + 1][..used] == answers[..used];
        used := used + 1;
        var amountSent := Send(answer);
        if amountSent < 0 {
          return false, used;
        }
      }
      done := currentTxBytes >= TOTAL_TX_BYTES;
    }
  }

  /** Whatever the answers, the position never falls back and never passes the total. */
  lemma {:induction false} PositionBounded(start: nat, answers: seq<Answer>)
    requires start <= TOTAL_TX_BYTES
    ensures start <= Position(start, answers) <= TOTAL_TX_BYTES
  {
    if answers != [] {
      PositionBounded(start, answers[..|answers| - 1]);
    }
  }

  /** A socket that has room and takes something each time gets the whole total. */
  lemma {:induction false} EverythingIsSent(start: nat, answers: seq<Answer>)
    requires start <= TOTAL_TX_BYTES && forall i :: 0 <= i < |answers| ==> answers[i].room > 0 && answers[i].taken > 0
    ensures Position(start, answers) >= Min(TOTAL_TX_BYTES, start + |answers|)
  {
    if answers != [] {
      var n := |answers| - 1;
      EverythingIsSent(start, answers[..n]);
      assert answers[n].room > 0 && answers[n].taken > 0;
    }
  }
}
