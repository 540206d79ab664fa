/** The process-memory artifact store: a map from keys to immutable bytes under one lock, with a
  * byte budget that every write is accounted against before it is let in. */
module MemoryStore {
  import opened Wrappers
  import opened ByteStrings

  /** The largest artifact the server agrees to copy into one buffer. */
  const MAX_BUFFERED_ARTIFACT_BYTES: nat := 100 * 1024 * 1024

  datatype StoreError =
    | AccountingOverflowed
    | CapacityExceeded(next: nat, limit: nat)
    | NotFound(key: string)
    | TooLargeToBuffer(key: string, length: nat)

  /** The bytes a map of objects retains, as a mathematical sum. */
  ghost function TotalLen(objects: map<string, Bytes>): nat
    decreases |objects|
  {
    if objects == map[] then 0
    else
      var key :| key in objects;
      |objects[key]| + TotalLen(objects - {key})
  }

  /** The sum does not depend on which key is taken out first. */
  lemma {:induction false} TotalLenTakesAnyKey(objects: map<string, Bytes>, key: string)
    requires key in objects
    ensures TotalLen(objects) == |objects[key]| + TotalLen(objects - {key})
    decreases |objects|
  {
    var first :| first in objects && TotalLen(objects) == |objects[first]| + TotalLen(objects - {first});
    if first != key {
      TotalLenTakesAnyKey(objects - {first}, key);
      TotalLenTakesAnyKey(objects - {key}, first);
      assert objects - {first} - {key} == objects - {key} - {first};
    }
  }

  /** Writing a key replaces what that key held and counts nothing twice. */
  lemma TotalLenAfterWrite(objects: map<string, Bytes>, key: string, bytes: Bytes)
    ensures TotalLen(objects[key := bytes]) == TotalLen(objects - {key}) + |bytes|
    ensures key in objects ==> TotalLen(objects[key := bytes]) + |objects[key]| == TotalLen(objects) + |bytes|
    ensures key !in objects ==> TotalLen(objects[key := bytes]) == TotalLen(objects) + |bytes|
  {
    TotalLenTakesAnyKey(objects[key := bytes], key);
    assert objects[key := bytes] - {key} == objects - {key};
    if key in objects {
      TotalLenTakesAnyKey(objects, key);
    } else {
      assert objects - {key} == objects;
    }
  }

  /** The overflow-checked u64 fold over every object but the one at `key`, visited in whatever
    * order the hash map yields them: it fails exactly when the true sum does not fit. */
  method RetainedBytes(objects: map<string, Bytes>, key: string) returns (retained: Option<nat>)
    ensures retained ==
      if TotalLen(objects - {key}) <= U64_MAX then Some(TotalLen(objects - {key})) else None
  {
    var unread := objects - {key};
    var total := 0;
    while unread != map[]
      invariant total <= U64_MAX
      invariant total + TotalLen(unread) == TotalLen(objects - {key})
      decreases unread.Keys
    {
      var next :| next in unread;
      TotalLenTakesAnyKey(unread, next);
      if total + |unread[next]| > U64_MAX {
        return None;
      }
      total := total + |unread[next]|;
      unread := unread - {next};
    }
    return Some(total);
  }

  /** What a put answers, decided by the size the whole store would have afterwards. */
  ghost function PutAnswer(objects: map<string, Bytes>, maxBytes: nat, key: string, bytes: Bytes): Result<(), StoreError> {
    var next := TotalLen(objects[key := bytes]);
    if next > U64_MAX then Err(AccountingOverflowed)
    else if next > maxBytes then Err(CapacityExceeded(next, maxBytes))
    else Ok(())
  }

  /** The objects after a put: the write, or nothing at all. */
  ghost function AfterPut(objects: map<string, Bytes>, maxBytes: nat, key: string, bytes: Bytes): map<string, Bytes> {
    if PutAnswer(objects, maxBytes, key, bytes).Ok? then objects[key := bytes] else objects
  }

  class Store {
    var objects: map<string, Bytes>
    const maxBytes: nat

    constructor (maxBytes: nat)
      ensures objects == map[] && this.maxBytes == maxBytes
    {
      this.maxBytes := maxBytes;
      objects := map[];
    }

    method Put(key: string, bytes: Bytes) returns (answer: Result<(), StoreError>)
      modifies this`objects
      ensures answer == PutAnswer(old(objects), maxBytes, key, bytes)
      ensures var next := TotalLen(old(objects)[key := bytes]);
        && (answer.Ok? <==> next <= maxBytes && next <= U64_MAX)
        && (answer.Err? ==> answer.error == if next > U64_MAX then AccountingOverflowed else CapacityExceeded(next, maxBytes))
      ensures objects == if answer.Ok? then old(objects)[key := bytes] else old(objects)
    {
      TotalLenAfterWrite(objects, key, bytes);
      var retained := RetainedBytes(objects, key);
      if retained.None? || retained.value + |bytes| > U64_MAX {
        return Err(AccountingOverflowed);
      }
      var next := retained.value + |bytes|;
      if next > maxBytes {
        return Err(CapacityExceeded(next, maxBytes));
      }
      objects := objects[key := bytes];
      return Ok(());
    }

    /** The stored bytes, shared rather than copied, whatever their size. */
    method Download(key: string) returns (answer: Result<Bytes, StoreError>)
      ensures key in objects ==> answer == Ok(objects[key])
      ensures key !in objects ==> answer == Err(NotFound(key))
    {
      if key !in objects {
        return Err(NotFound(key));
      }
      return Ok(objects[key]);
    }

    /** A private copy of the stored bytes, refused before it is made when it would be too large. */
    method GetBytes(key: string) returns (answer: Result<Bytes, StoreError>)
      ensures answer.Ok? <==> key in objects && |objects[key]| <= MAX_BUFFERED_ARTIFACT_BYTES
      ensures answer.Ok? ==> answer.value == objects[key]
      ensures answer.Err? ==> answer.error == if key in objects then TooLargeToBuffer(key, |objects[key]|) else NotFound(key)
    {
      var bytes := Download(key);
      if bytes.Ok? && |bytes.value| > MAX_BUFFERED_ARTIFACT_BYTES {
        return Err(TooLargeToBuffer(key, |bytes.value|));
      }
      return bytes;
    }
  }

  /* ---------------------------------------- runs ---------------------------------------- */

  datatype Write = Write(key: string, bytes: Bytes)

  /** The store after a list of puts, oldest first. */
  ghost function Written(maxBytes: nat, puts: seq<Write>): map<string, Bytes> {
    if puts == [] then map[]
    else
      var last := puts[|puts| - 1];
      AfterPut(Written(maxBytes, puts[..|puts| - 1]), maxBytes, last.key, last.bytes)
  }

  /** What each of those puts was answered. */
  ghost function Answers(maxBytes: nat, puts: seq<Write>): (answers: seq<Result<(), StoreError>>)
    ensures |answers| == |puts|
  {
    if puts == [] then []
    else
      var before, last := puts[..|puts| - 1], puts[|puts| - 1];
      Answers(maxBytes, before) + [PutAnswer(Written(maxBytes, before), maxBytes, last.key, last.bytes)]
  }

  /** The byte budget holds after every run of puts; so on a store with a u64 budget no fold over
    * the stored objects, whichever key it leaves out, can overflow. */
  lemma {:induction false} CapacityHolds(maxBytes: nat, puts: seq<Write>)
    ensures TotalLen(Written(maxBytes, puts)) <= maxBytes
    ensures forall key: string :: TotalLen(Written(maxBytes, puts) - {key}) <= maxBytes
  {
    var objects := Written(maxBytes, puts);
    if puts != [] {
      CapacityHolds(maxBytes, puts[..|puts| - 1]);
    }
    forall key: string ensures TotalLen(objects - {key}) <= maxBytes {
      if key in objects {
        TotalLenTakesAnyKey(objects, key);
      } else {
        assert objects - {key} == objects;
      }
    }
  }

  /** `i` is the latest of the puts to `key` that was let in. */
  ghost predicate LastAccepted(puts: seq<Write>, answers: seq<Result<(), StoreError>>, key: string, i: nat)
    requires |answers| == |puts|
  {
    && i < |puts| && answers[i].Ok? && puts[i].key == key
    && forall j :: i < j < |puts| && answers[j].Ok? ==> puts[j].key != key
  }

  ghost predicate NeverAccepted(puts: seq<Write>, answers: seq<Result<(), StoreError>>, key: string)
    requires |answers| == |puts|
  {
    forall j :: 0 <= j < |puts| && answers[j].Ok? ==> puts[j].key != key
  }

  /** A key reads back as the bytes of the last accepted put to it, and is absent when no put to it
    * was ever accepted. */
  lemma {:induction false} LookupIsTheLastAcceptedPut(maxBytes: nat, puts: seq<Write>, key: string)
    ensures key !in Written(maxBytes, puts) ==> NeverAccepted(puts, Answers(maxBytes, puts), key)
    ensures key in Written(maxBytes, puts) ==>
      exists i: nat :: LastAccepted(puts, Answers(maxBytes, puts), key, i) && Written(maxBytes, puts)[key] == puts[i].bytes
  {
    if puts != [] {
      var n := |puts| - 1;
      var before := puts[..n];
      var answers, earlier := Answers(maxBytes, puts), Answers(maxBytes, before);
      LookupIsTheLastAcceptedPut(maxBytes, before, key);
      assert answers == earlier + [answers[n]];
      if answers[n].Ok? && puts[n].key == key {
        assert LastAccepted(puts, answers, key, n);
      } else if key in Written(maxBytes, puts) {
        var i: nat :| LastAccepted(before, earlier, key, i) && Written(maxBytes, before)[key] == before[i].bytes;
        assert LastAccepted(puts, answers, key, i);
      }
    }
  }

  /** A refused put leaves no trace: the store goes on as if it had never been made. */
  lemma {:induction false} RefusedPutLeavesNoTrace(maxBytes: nat, before: seq<Write>, refused: Write, after: seq<Write>)
    requires Answers(maxBytes, before + [refused])[|before|].Err?
    ensures Written(maxBytes, before + [refused] + after) == Written(maxBytes, before + after)
  {
    var made := before + [refused];
    assert made[..|before|] == before;
    if after == [] {
      assert made + after == made && before + after == before;
    } else {
      var m := |after| - 1;
      RefusedPutLeavesNoTrace(maxBytes, before, refused, after[..m]);
      assert (made + after)[..|made + after| - 1] == made + after[..m];
      assert (before + after)[..|before + after| - 1] == before + after[..m];
    }
  }

  /** Publishing the same content-addressed bytes again is always let in, even into a full store,
    * and changes nothing. */
  lemma RewritingTheSameBytesIsFree(maxBytes: nat, puts: seq<Write>, key: string)
    requires maxBytes <= U64_MAX
    requires key in Written(maxBytes, puts)
    ensures var again := Write(key, Written(maxBytes, puts)[key]);
      Answers(maxBytes, puts + [again])[|puts|].Ok? && Written(maxBytes, puts + [again]) == Written(maxBytes, puts)
  {
    var objects := Written(maxBytes, puts);
    var again := Write(key, objects[key]);
    CapacityHolds(maxBytes, puts);
    assert objects[key := objects[key]] == objects;
    assert (puts + [again])[..|puts|] == puts;
  }
}
