/**
  Entities shared by every backend: configuration, producer headers and state,
  offsets, calls of the `Storage` contract and their replies.
 */
module Types {
  datatype Option<+T> = None | Some(value: T)

  type byte = b: int | 0 <= b < 256
  type Bytes = seq<byte>

  const TWO32: nat := 0x1_0000_0000
  const TWO64: nat := 0x1_0000_0000_0000_0000

  /** A position in a stream; `Start` prints as `-1` and `Now` as `now`. */
  datatype Offset = Start | Now | At(readSeq: nat, byteOffset: nat)

  /** Times are nanoseconds since an arbitrary epoch. */
  datatype StreamConfig = StreamConfig(
    contentType: string, ttlSeconds: Option<nat>, expiresAt: Option<int>, createdClosed: bool)

  datatype ProducerHeaders = ProducerHeaders(id: string, epoch: nat, seqNo: nat)

  datatype ProducerState = ProducerState(epoch: nat, lastSeq: nat, updatedAt: int)

  datatype Error =
    | NotFound
    | StreamExpired
    | StreamClosed
    | ConfigMismatch
    | ContentTypeMismatch(expected: string, actual: string)
    | SeqOrderingViolation(last: string, received: string)
    | EpochFenced(current: nat, receivedEpoch: nat)
    | SequenceGap(expectedSeq: nat, actualSeq: nat)
    | InvalidProducerState
    | MemoryLimitExceeded
    | StreamSizeLimitExceeded
    | EmptyBatch
    | RecordTooLarge
    | StorageFailure

  datatype Limits = Limits(maxTotal: nat, maxStream: nat)

  /** The calls of the storage contract that read or write a stream. */
  datatype Call =
    | Create(name: string, config: StreamConfig)
    | CreateWithData(name: string, config: StreamConfig, messages: seq<Bytes>, close: bool)
    | Append(name: string, data: Bytes, contentType: string)
    | BatchAppend(name: string, messages: seq<Bytes>, contentType: string, streamSeq: Option<string>)
    | ProducerAppend(name: string, messages: seq<Bytes>, contentType: string,
                     producer: ProducerHeaders, close: bool, streamSeq: Option<string>)
    | Read(name: string, from: Offset)
    | Close(name: string)
    | Delete(name: string)

  datatype Reply =
    | Created
    | AlreadyExists
    | CreatedWith(isNew: bool, next: Offset, closed: bool)
    | Appended(offset: Offset)
    | Accepted(epoch: nat, seqNo: nat, next: Offset, closed: bool)
    | Duplicate(epoch: nat, seqNo: nat, next: Offset, closed: bool)
    | Messages(messages: seq<Bytes>, next: Offset, atTail: bool, closed: bool)
    | Done
    | Failed(error: Error)

  /** Total length of a sequence of messages; the byte component of the offset after them. */
  function SumLen(ms: seq<Bytes>): nat {
    if ms == [] then 0 else SumLen(ms[..|ms| - 1]) + |ms[|ms| - 1]|
  }

  lemma {:induction false} SumLenAppend(a: seq<Bytes>, b: seq<Bytes>)
    ensures SumLen(a + b) == SumLen(a) + SumLen(b)
  {
    if b == [] {
      assert a + b == a;
    } else {
      var c := b[..|b| - 1];
      assert (a + b)[..|a + b| - 1] == a + c;
      SumLenAppend(a, c);
    }
  }

  lemma SumLenOne(m: Bytes)
    ensures SumLen([m]) == |m|
  {
    assert [m][..0] == [];
  }

  lemma SumLenPush(a: seq<Bytes>, m: Bytes)
    ensures SumLen(a + [m]) == SumLen(a) + |m|
  {
    assert (a + [m])[..|a|] == a;
  }

  /** The offset the next message of a stream holding `ms` will be given. */
  function NextOffset(ms: seq<Bytes>): Offset {
    At(|ms|, SumLen(ms))
  }
}
