/** Serving one file out of a tar.gz: a reader that stops the decompressor after a byte budget, a
  * capped copy of one entry, and the scan that reads past every entry before the wanted one. */
module BudgetedExtraction {
  import opened Wrappers
  import opened ByteStrings

  const MAX_SERVED_FILE_BYTES: nat := 25 * 1024 * 1024

  /** How many bytes the copy loop asks for at a time. */
  const COPY_BUFFER: nat := 8192

  datatype ExtractError = TooLarge | InflationBudgetExceeded | Archive

  function Min(a: nat, b: nat): nat { if a <= b then a else b }

  /** What the reader may hand out for a budget: one byte more, so that the end of a stream that
    * just fits can still be seen. The addition saturates. */
  function Allowance(budget: nat): nat
    requires budget <= U64_MAX
  {
    Min(budget + 1, U64_MAX)
  }

  /** The streams a budget lets through. The last clause is the saturation's doing: under the largest
    * budget a stream of exactly that length is turned away. */
  predicate Fits(length: nat, budget: nat) { length <= budget && length < U64_MAX }

  /** What a decompressor yields: its bytes, and then the end or, when the input is corrupt, an error. */
  datatype Stream = Stream(data: Bytes, corrupt: bool)

  /** Where a budgeted stream stands: bytes handed out so far, and bytes it may still hand out. */
  datatype Position = Position(read: nat, remaining: nat)

  datatype Outcome = Got(bytes: Bytes) | OverBudget | DecoderError

  /** One read of the stream into a buffer of `want` bytes. The inner stream may return fewer bytes
    * than it was asked for, and returns none only when there are none or none were asked for. Its own
    * error is passed on and charges nothing. */
  ghost predicate ReadStep(stream: Stream, from: Position, want: nat, to: Position, outcome: Outcome) {
    match outcome
    case OverBudget => from.remaining == 0 && to == from
    case DecoderError => from.remaining > 0 && stream.corrupt && want > 0 && from.read == |stream.data| && to == from
    case Got(bytes) =>
      && from.remaining > 0
      && |bytes| <= Min(want, from.remaining)
      && to == Position(from.read + |bytes|, from.remaining - |bytes|)
      && to.read <= |stream.data| && bytes == stream.data[from.read..to.read]
      && (bytes == [] <==> want == 0 || (from.read == |stream.data| && !stream.corrupt))
  }

  /** The decompressor: a byte stream that may return short, and may fail. */
  class Inflater {
    const stream: Stream
    var read: nat

    ghost predicate Valid() reads this { read <= |stream.data| }

    constructor (stream: Stream)
      ensures Valid() && this.stream == stream && read == 0
    {
      this.stream := stream;
      read := 0;
    }

    /** `None` is the decoder's own error. */
    method Read(buffer: array<Byte>, want: nat) returns (n: Option<nat>)
      requires Valid() && want <= buffer.Length
      modifies this`read, buffer
      ensures Valid() && n.GetOr(0) <= want && read == old(read) + n.GetOr(0)
      ensures n == None <==> want > 0 && old(read) == |stream.data| && stream.corrupt
      ensures n == Some(0) <==> want == 0 || (old(read) == |stream.data| && !stream.corrupt)
      ensures buffer[..n.GetOr(0)] == stream.data[old(read)..read]
      ensures buffer[n.GetOr(0)..] == old(buffer[n.GetOr(0)..])
    {
      var most := Min(want, |stream.data| - read);
      if want > 0 && most == 0 && stream.corrupt {
        return None;
      }
      var got: nat :| got <= most && (got == 0 ==> most == 0);
      forall i | 0 <= i < got {
        buffer[i] := stream.data[read + i];
      }
      read := read + got;
      return Some(got);
    }
  }

  class BudgetReader {
    const inner: Inflater
    var remaining: nat

    ghost predicate Valid() reads this, inner { inner.Valid() && remaining <= U64_MAX }

    ghost function At(): Position reads this, inner { Position(inner.read, remaining) }

    constructor (inner: Inflater, budget: nat)
      requires inner.Valid() && budget <= U64_MAX
      ensures Valid() && this.inner == inner && remaining == Allowance(budget)
    {
      this.inner := inner;
      remaining := Allowance(budget);
    }

    /** Reads into the first `want` bytes of `buffer`. */
    method Read(buffer: array<Byte>, want: nat) returns (n: Result<nat, ExtractError>)
      requires Valid() && want <= buffer.Length
      modifies this`remaining, inner`read, buffer
      ensures Valid()
      ensures n.Ok? ==> n.value <= want
      ensures n.Err? ==> n.error in {InflationBudgetExceeded, Archive}
      ensures ReadStep(inner.stream, old(At()), want, At(),
        if n.Ok? then Got(buffer[..n.value]) else if n.error == Archive then DecoderError else OverBudget)
      ensures if n.Ok? then buffer[n.value..] == old(buffer[n.value..]) else buffer[..] == old(buffer[..])
    {
      if remaining == 0 {
        return Err(InflationBudgetExceeded);
      }
      var got := inner.Read(buffer, Min(want, remaining));
      if got.None? {
        return Err(Archive);
      }
      remaining := remaining - got.value;
      return Ok(got.value);
    }
  }

  /* ------------------------------ any sequence of reads ------------------------------ */

  datatype Call = Call(want: nat, outcome: Outcome, after: Position)

  /** A list of reads, each starting where the one before it stopped. */
  ghost predicate ReadRun(stream: Stream, start: Position, calls: seq<Call>) {
    calls == [] ||
    var n := |calls| - 1;
    ReadRun(stream, start, calls[..n]) && ReadStep(stream, Reached(start, calls[..n]), calls[n].want, calls[n].after, calls[n].outcome)
  }

  ghost function Reached(start: Position, calls: seq<Call>): Position {
    if calls == [] then start else calls[|calls| - 1].after
  }

  /** Everything the reads handed to their caller, in order. */
  ghost function Delivered(calls: seq<Call>): Bytes {
    if calls == [] then []
    else
      var last := calls[|calls| - 1].outcome;
      Delivered(calls[..|calls| - 1]) + (if last.Got? then last.bytes else [])
  }

  ghost predicate ShowsEnd(call: Call) { call.want > 0 && call.outcome == Got([]) }

  /** The end of the stream, or either error. */
  ghost predicate IsVerdict(call: Call) { ShowsEnd(call) || !call.outcome.Got? }

  lemma {:induction false} RunKeepsAccount(stream: Stream, allowance: nat, calls: seq<Call>)
    requires ReadRun(stream, Position(0, allowance), calls)
    ensures var at := Reached(Position(0, allowance), calls);
      && at.read + at.remaining == allowance
      && at.read <= |stream.data| && Delivered(calls) == stream.data[..at.read]
  {
    if calls != [] {
      var n := |calls| - 1;
      RunKeepsAccount(stream, allowance, calls[..n]);
      StepKeepsAccount(stream, Reached(Position(0, allowance), calls[..n]), calls[n]);
    }
  }

  lemma StepKeepsAccount(stream: Stream, from: Position, call: Call)
    requires from.read <= |stream.data| && ReadStep(stream, from, call.want, call.after, call.outcome)
    ensures call.after.read + call.after.remaining == from.read + from.remaining
    ensures call.after.read <= |stream.data|
    ensures stream.data[..call.after.read] == stream.data[..from.read] + (if call.outcome.Got? then call.outcome.bytes else [])
  {
    if call.outcome.Got? {
      assert stream.data[..from.read] + stream.data[from.read..call.after.read] == stream.data[..call.after.read];
    }
  }

  lemma {:induction false} PrefixRuns(stream: Stream, start: Position, calls: seq<Call>, i: nat)
    requires ReadRun(stream, start, calls) && i < |calls|
    ensures ReadRun(stream, start, calls[..i])
    ensures ReadStep(stream, Reached(start, calls[..i]), calls[i].want, calls[i].after, calls[i].outcome)
    decreases |calls|
  {
    var n := |calls| - 1;
    if i < n {
      PrefixRuns(stream, start, calls[..n], i);
      assert calls[..n][..i] == calls[..i];
    }
  }

  /** The budget is transparent, whatever sizes are asked for and however short the inner stream
    * returns: callers see a prefix of the stream; a read reports the end, or the decoder's own
    * error, only after all of a stream that fits came through, and the budget error only for one that
    * does not, after `Allowance` bytes of it. */
  lemma BudgetIsTransparent(stream: Stream, budget: nat, calls: seq<Call>, i: nat)
    requires budget <= U64_MAX
    requires ReadRun(stream, Position(0, Allowance(budget)), calls) && i < |calls|
    ensures var fits := |stream.data| <= budget && |stream.data| < U64_MAX;
      && Delivered(calls[..i]) <= stream.data && |Delivered(calls[..i])| <= budget + 1
      && (ShowsEnd(calls[i]) ==> fits && !stream.corrupt && Delivered(calls[..i]) == stream.data)
      && (calls[i].outcome.DecoderError? ==> fits && stream.corrupt && Delivered(calls[..i]) == stream.data)
      && (calls[i].outcome.OverBudget? ==>
            !fits && Delivered(calls[..i]) == stream.data[..if budget < U64_MAX then budget + 1 else U64_MAX])
  {
    PrefixRuns(stream, Position(0, Allowance(budget)), calls, i);
    RunKeepsAccount(stream, Allowance(budget), calls[..i]);
  }

  lemma {:induction false} BusyReadsProgress(stream: Stream, start: Position, calls: seq<Call>)
    requires ReadRun(stream, start, calls)
    requires forall i :: 0 <= i < |calls| ==> calls[i].want > 0 && !IsVerdict(calls[i])
    ensures |calls| <= |Delivered(calls)|
  {
    if calls != [] {
      BusyReadsProgress(stream, start, calls[..|calls| - 1]);
    }
  }

  /** Reading on with non-empty buffers always comes to a verdict, within one read more than the
    * bytes there were to hand out, and `BudgetIsTransparent` says which verdict it is. */
  lemma ReadingComesToAVerdict(stream: Stream, budget: nat, calls: seq<Call>)
    requires budget <= U64_MAX
    requires ReadRun(stream, Position(0, Allowance(budget)), calls)
    requires forall i :: 0 <= i < |calls| ==> calls[i].want > 0
    requires |calls| > Min(|stream.data|, Allowance(budget))
    ensures exists i :: 0 <= i < |calls| && IsVerdict(calls[i])
  {
    if forall i :: 0 <= i < |calls| ==> !IsVerdict(calls[i]) {
      BusyReadsProgress(stream, Position(0, Allowance(budget)), calls);
      RunKeepsAccount(stream, Allowance(budget), calls);
      assert false;
    }
  }

  /* ------------------------------ copying out of the reader ------------------------------ */

  /** Reading `amount` bytes, or to the end of the stream: the budget error exactly when the budget
    * gives out first, the decoder's when it gives out before the amount is there, otherwise all there
    * is. */
  ghost function ReadThrough(stream: Stream, from: Position, amount: nat): Result<Bytes, ExtractError>
    requires from.read <= |stream.data|
  {
    var left := |stream.data| - from.read;
    if from.remaining < amount && from.remaining <= left then Err(InflationBudgetExceeded)
    else if left < amount && stream.corrupt then Err(Archive)
    else Ok(stream.data[from.read..from.read + Min(amount, left)])
  }

  /** The copy loop: chunk after chunk until `amount` bytes have come or the stream ends. */
  method ReadUpTo(source: BudgetReader, amount: nat) returns (r: Result<Bytes, ExtractError>)
    requires source.Valid()
    modifies source`remaining, source.inner`read
    ensures source.Valid()
    ensures r == ReadThrough(source.inner.stream, old(source.At()), amount)
    ensures r.Ok? ==> source.At() == Position(old(source.At()).read + |r.value|, old(source.At()).remaining - |r.value|)
  {
    var buffer := new Byte[COPY_BUFFER];
    var out: Bytes := [];
    while |out| < amount
      invariant source.Valid() && |out| <= amount
      invariant source.At().read == old(source.At()).read + |out|
      invariant source.At().remaining == old(source.At()).remaining - |out|
      invariant out == source.inner.stream.data[old(source.At()).read..source.At().read]
    {
      var n := source.Read(buffer, Min(COPY_BUFFER, amount - |out|));
      if n.Err? {
        return Err(n.error);
      }
      if n.value == 0 {
        break;
      }
      out := out + buffer[..n.value];
    }
    return Ok(out);
  }

  /** What an entry of `size` bytes comes to, read from `from`. Where the stream holds the whole
    * entry, success is all of it, within the cap, and the refusals are an entry over the cap and a
    * budget that gives out inside it. */
  ghost function CappedCopy(stream: Stream, from: Position, size: nat): (r: Result<Bytes, ExtractError>)
    requires from.read <= |stream.data|
    ensures r.Ok? ==> |r.value| <= MAX_SERVED_FILE_BYTES && r.value <= stream.data[from.read..]
    ensures from.read + size <= |stream.data| ==> (r.Ok? <==> size <= MAX_SERVED_FILE_BYTES && size <= from.remaining)
    ensures from.read + size <= |stream.data| && r.Ok? ==> r.value == stream.data[from.read..from.read + size]
  {
    var copied := ReadThrough(stream, from, Min(size, MAX_SERVED_FILE_BYTES + 1));
    if copied.Ok? && |copied.value| > MAX_SERVED_FILE_BYTES then Err(TooLarge) else copied
  }

  method ReadCapped(source: BudgetReader, size: nat) returns (r: Result<Bytes, ExtractError>)
    requires source.Valid()
    modifies source`remaining, source.inner`read
    ensures source.Valid()
    ensures r == CappedCopy(source.inner.stream, old(source.At()), size)
  {
    var bytes := ReadUpTo(source, Min(size, MAX_SERVED_FILE_BYTES + 1));
    if bytes.Ok? && |bytes.value| > MAX_SERVED_FILE_BYTES {
      return Err(TooLarge);
    }
    return bytes;
  }

  /* ------------------------------ scanning for one entry ------------------------------ */

  /** What one header block declares, if the archive reader can make sense of it. */
  datatype Entry = Entry(path: string, size: nat, readable: bool)

  const BLOCK: nat := 512

  /** Rounded up to whole blocks. */
  function Padded(size: nat): (padded: nat)
    ensures size <= padded < size + BLOCK && padded % BLOCK == 0
  {
    (size + BLOCK - 1) / BLOCK * BLOCK
  }

  /** Where the header after these entries begins. */
  function Offset(entries: seq<Entry>): nat {
    if entries == [] then 0
    else Offset(entries[..|entries| - 1]) + BLOCK + Padded(entries[|entries| - 1].size)
  }

  /** An entry the scan goes no further than: it has the path, or cannot be read. */
  predicate Stops(entry: Entry, path: string) { !entry.readable || entry.path == path }

  /** The first such entry, or the number of entries. */
  function FirstStop(entries: seq<Entry>, path: string): (m: nat)
    ensures m <= |entries|
    ensures forall j :: 0 <= j < m ==> !Stops(entries[j], path)
    ensures m < |entries| ==> Stops(entries[m], path)
  {
    if entries == [] then 0
    else
      var m := FirstStop(entries[..|entries| - 1], path);
      if m < |entries| - 1 || Stops(entries[m], path) then m else m + 1
  }

  /** The stream ends where a header should have begun. */
  ghost predicate EndsBetweenEntries(stream: Stream, entries: seq<Entry>, m: nat)
    requires m <= |entries|
  {
    exists j :: 0 <= j <= m && |stream.data| == Offset(entries[..j])
  }

  /** The answer to a request, by arithmetic on where the wanted entry lies. `entries` are the
    * headers that the blocks at successive offsets hold, the last one followed by a zero block. */
  ghost function ScanAnswer(stream: Stream, entries: seq<Entry>, path: string, allowance: nat): Result<Option<Bytes>, ExtractError> {
    var m := FirstStop(entries, path);
    var headerEnd := Offset(entries[..m]) + BLOCK;
    if allowance < headerEnd && allowance <= |stream.data| then Err(InflationBudgetExceeded)
    else if |stream.data| < headerEnd then
      if !stream.corrupt && EndsBetweenEntries(stream, entries, m) then Ok(None) else Err(Archive)
    else if m == |entries| then Ok(None)
    else if !entries[m].readable then Err(Archive)
    else if entries[m].size > MAX_SERVED_FILE_BYTES then Err(TooLarge)
    else
      var content := CappedCopy(stream, Position(headerEnd, allowance - headerEnd), entries[m].size);
      if content.Ok? then Ok(Some(content.value)) else Err(content.error)
  }

  lemma {:induction false} OffsetsGrow(entries: seq<Entry>, j: nat, k: nat)
    requires j <= k <= |entries|
    ensures Offset(entries[..j]) <= Offset(entries[..k])
    ensures j < k ==> Offset(entries[..j]) + BLOCK + Padded(entries[j].size) <= Offset(entries[..k])
  {
    if j < k {
      assert entries[..k][..k - 1] == entries[..k - 1];
      OffsetsGrow(entries, j, k - 1);
    }
  }

  /** A stream that stops inside a header or the content after it does not end between entries. */
  lemma EndsInside(stream: Stream, entries: seq<Entry>, m: nat, k: nat)
    requires k <= m <= |entries|
    requires Offset(entries[..k]) < |stream.data|
    requires |stream.data| < if k < m then Offset(entries[..k + 1]) else Offset(entries[..k]) + BLOCK
    ensures !EndsBetweenEntries(stream, entries, m)
  {
    forall j | 0 <= j <= m ensures |stream.data| != Offset(entries[..j]) {
      if j <= k {
        OffsetsGrow(entries, j, k);
      } else {
        OffsetsGrow(entries, k + 1, j);
      }
    }
  }

  lemma NextOffset(entries: seq<Entry>, k: nat)
    requires k < |entries|
    ensures Offset(entries[..k + 1]) == Offset(entries[..k]) + BLOCK + Padded(entries[k].size)
  {
    assert entries[..k + 1][..k] == entries[..k];
  }

  function PastHeader(at: Position, skip: nat): Position
    requires skip + BLOCK <= at.remaining
  {
    Position(at.read + skip + BLOCK, at.remaining - skip - BLOCK)
  }

  /** Moving to the next header: what is left of the entry before is read and thrown away, then the
    * header block is read. `Ok(false)` is a stream that ends right there. */
  method NextHeader(source: BudgetReader, skip: nat) returns (r: Result<bool, ExtractError>)
    requires source.Valid()
    modifies source`remaining, source.inner`read
    ensures source.Valid()
    ensures r == HeaderAnswer(source.inner.stream, old(source.At()), skip)
    ensures r == Ok(true) ==> source.At() == PastHeader(old(source.At()), skip)
  {
    var passed := ReadUpTo(source, skip);
    if passed.Err? {
      return Err(passed.error);
    }
    if |passed.value| < skip {
      return Err(Archive);
    }
    var header := ReadUpTo(source, BLOCK);
    if header.Err? {
      return Err(header.error);
    }
    if 0 < |header.value| < BLOCK {
      return Err(Archive);
    }
    return Ok(|header.value| == BLOCK);
  }

  ghost function HeaderAnswer(stream: Stream, from: Position, skip: nat): (r: Result<bool, ExtractError>)
    ensures r == Ok(true) ==> skip + BLOCK <= from.remaining
  {
    var start := from.read + skip;
    if from.remaining < skip + BLOCK && from.read + from.remaining <= |stream.data| then Err(InflationBudgetExceeded)
    else if |stream.data| < start + BLOCK then
      if |stream.data| == start && !stream.corrupt then Ok(false) else Err(Archive)
    else Ok(true)
  }

  /** Where the scan stands before header `k`: nothing before it stopped it, and `skip` bytes of the entry
    * before it are still unread. */
  ghost predicate Scanning(entries: seq<Entry>, path: string, allowance: nat, k: nat, at: Position, skip: nat) {
    && k <= FirstStop(entries, path)
    && at.read + at.remaining == allowance
    && at.read + skip == Offset(entries[..k])
    && (if k > 0 then Offset(entries[..k - 1]) < at.read else skip == 0)
  }

  /** When the scan stops at a header, the whole request has been answered. */
  lemma StoppedScan(stream: Stream, entries: seq<Entry>, path: string, allowance: nat, k: nat, at: Position, skip: nat)
    requires Scanning(entries, path, allowance, k, at, skip) && at.read <= |stream.data|
    requires HeaderAnswer(stream, at, skip) != Ok(true)
    ensures ScanAnswer(stream, entries, path, allowance) ==
      var h := HeaderAnswer(stream, at, skip);
      if h.Err? then Err(h.error) else Ok(None)
  {
    var m := FirstStop(entries, path);
    OffsetsGrow(entries, k, m);
    if HeaderAnswer(stream, at, skip) == Err(Archive) && !stream.corrupt {
      if |stream.data| < Offset(entries[..k]) {
        EndsInside(stream, entries, m, k - 1);
      } else {
        if k < m {
          OffsetsGrow(entries, k, k + 1);
        }
        EndsInside(stream, entries, m, k);
      }
    }
  }

  /** When the scan opens a header that stops it, or the zero block, that decides the request. */
  lemma OpenedScan(stream: Stream, entries: seq<Entry>, path: string, allowance: nat, k: nat, at: Position, skip: nat)
    requires Scanning(entries, path, allowance, k, at, skip) && at.read <= |stream.data|
    requires HeaderAnswer(stream, at, skip) == Ok(true)
    requires k == |entries| || Stops(entries[k], path)
    ensures PastHeader(at, skip).read <= |stream.data|
    ensures ScanAnswer(stream, entries, path, allowance) ==
      if k == |entries| then Ok(None)
      else if !entries[k].readable then Err(Archive)
      else if entries[k].size > MAX_SERVED_FILE_BYTES then Err(TooLarge)
      else
        var content := CappedCopy(stream, PastHeader(at, skip), entries[k].size);
        if content.Ok? then Ok(Some(content.value)) else Err(content.error)
  {
  }

  /** Past any other header the scan goes on to the next one. */
  lemma PassedScan(stream: Stream, entries: seq<Entry>, path: string, allowance: nat, k: nat, at: Position, skip: nat)
    requires Scanning(entries, path, allowance, k, at, skip)
    requires HeaderAnswer(stream, at, skip) == Ok(true)
    requires k < |entries| && !Stops(entries[k], path)
    ensures Scanning(entries, path, allowance, k + 1, PastHeader(at, skip), Padded(entries[k].size))
  {
    NextOffset(entries, k);
  }

  method ExtractTarGz(stream: Stream, entries: seq<Entry>, path: string, budget: nat) returns (r: Result<Option<Bytes>, ExtractError>)
    requires budget <= U64_MAX
    ensures r == ScanAnswer(stream, entries, path, Allowance(budget))
  {
    var inner := new Inflater(stream);
    var source := new BudgetReader(inner, budget);
    var k, skip := 0, 0;
    while true
      invariant k <= |entries|
      invariant source.Valid() && source.inner == inner && fresh(source) && fresh(inner) && inner.stream == stream
      invariant Scanning(entries, path, Allowance(budget), k, source.At(), skip)
      decreases |entries| - k
    {
      ghost var at := source.At();
      var header := NextHeader(source, skip);
      if header != Ok(true) {
        StoppedScan(stream, entries, path, Allowance(budget), k, at, skip);
        return if header.Err? then Err(header.error) else Ok(None);
      }
      if k == |entries| {
        OpenedScan(stream, entries, path, Allowance(budget), k, at, skip);
        return Ok(None);
      }
      if !entries[k].readable {
        OpenedScan(stream, entries, path, Allowance(budget), k, at, skip);
        return Err(Archive);
      }
      if entries[k].path == path {
        OpenedScan(stream, entries, path, Allowance(budget), k, at, skip);
        if entries[k].size > MAX_SERVED_FILE_BYTES {
          return Err(TooLarge);
        }
        var content := ReadCapped(source, entries[k].size);
        return if content.Err? then Err(content.error) else Ok(Some(content.value));
      }
      PassedScan(stream, entries, path, Allowance(budget), k, at, skip);
      skip := Padded(entries[k].size);
      k := k + 1;
    }
  }

  /** The stream holds every entry whole and a closing zero block. */
  ghost predicate Intact(stream: Stream, entries: seq<Entry>) {
    Offset(entries) + BLOCK <= |stream.data|
  }

  /** What a reader with no budget in mind would want back: the first entry of that name, whole, unless an unreadable
    * header comes before it. */
  ghost function Wanted(stream: Stream, entries: seq<Entry>, path: string): Result<Option<Bytes>, ExtractError>
    requires Intact(stream, entries)
  {
    var m := FirstStop(entries, path);
    if m == |entries| then Ok(None)
    else if !entries[m].readable then Err(Archive)
    else if entries[m].size > MAX_SERVED_FILE_BYTES then Err(TooLarge)
    else
      OffsetsGrow(entries, m, |entries|);
      assert entries[..|entries|] == entries;
      var start := Offset(entries[..m]) + BLOCK;
      assert entries[m].size <= Padded(entries[m].size);
      Ok(Some(stream.data[start..start + entries[m].size]))
  }

  /** On an intact archive the budget can only turn the wanted answer into the budget error, and only
    * for an archive that does not fit the budget. */
  lemma ScanFindsTheFirstEntry(stream: Stream, entries: seq<Entry>, path: string, budget: nat)
    requires budget <= U64_MAX && Intact(stream, entries)
    ensures var r := ScanAnswer(stream, entries, path, Allowance(budget));
      && (r == Wanted(stream, entries, path) || r == Err(InflationBudgetExceeded))
      && (Fits(|stream.data|, budget) ==> r == Wanted(stream, entries, path))
  {
    var m := FirstStop(entries, path);
    assert entries[..|entries|] == entries;
    OffsetsGrow(entries, m, |entries|);
    if m < |entries| {
      assert entries[m].size <= Padded(entries[m].size);
    }
  }

  /** Entry `i` is the first of its name, and every header up to it can be read. */
  ghost predicate FirstOfName(entries: seq<Entry>, path: string, i: nat) {
    && i < |entries| && entries[i].path == path && entries[i].readable
    && forall j :: 0 <= j < i ==> entries[j].readable && entries[j].path != path
  }

  /** Entry `i` is the first that cannot be read, with none of the name before it. */
  ghost predicate FirstUnreadable(entries: seq<Entry>, path: string, i: nat) {
    && i < |entries| && !entries[i].readable
    && forall j :: 0 <= j < i ==> entries[j].readable && entries[j].path != path
  }

  ghost predicate Holds(stream: Stream, entries: seq<Entry>, i: nat, content: Bytes)
    requires i < |entries|
  {
    var start := Offset(entries[..i]) + 512;
    start + entries[i].size <= |stream.data| && content == stream.data[start..start + entries[i].size]
  }

  lemma OnlyStop(entries: seq<Entry>, path: string, i: nat)
    requires i < |entries| && (forall j :: 0 <= j < i ==> entries[j].readable && entries[j].path != path)
    requires !entries[i].readable || entries[i].path == path
    ensures FirstStop(entries, path) == i
  {
    assert Stops(entries[i], path);
    assert FirstStop(entries, path) <= i;
  }

  /** What each answer means: the content of the first entry of that very name, within the cap; no entry of the name,
    * all of them readable; a first one over the cap; or a header that cannot be read before any of them. */
  ghost predicate MeansByName(stream: Stream, entries: seq<Entry>, path: string, r: Result<Option<Bytes>, ExtractError>) {
    && (r == Ok(None) <==> forall j :: 0 <= j < |entries| ==> entries[j].readable && entries[j].path != path)
    && (forall content :: r == Ok(Some(content)) <==>
          exists i: nat :: FirstOfName(entries, path, i) && entries[i].size <= 25 * 1024 * 1024 && Holds(stream, entries, i, content))
    && (r == Err(TooLarge) <==> exists i: nat :: FirstOfName(entries, path, i) && entries[i].size > 25 * 1024 * 1024)
    && (r == Err(Archive) <==> exists i: nat :: FirstUnreadable(entries, path, i))
    && r != Err(InflationBudgetExceeded)
  }

  lemma WantedByName(stream: Stream, entries: seq<Entry>, path: string)
    requires Intact(stream, entries)
    ensures MeansByName(stream, entries, path, Wanted(stream, entries, path))
  {
    var m := FirstStop(entries, path);
    if m == |entries| {
      NothingStops(stream, entries, path);
    } else if !entries[m].readable {
      UnreadableStops(stream, entries, path, m);
    } else {
      HeldWhole(stream, entries, m);
      var start := Offset(entries[..m]) + 512;
      NameStops(stream, entries, path, m, stream.data[start..start + entries[m].size]);
    }
  }

  lemma HeldWhole(stream: Stream, entries: seq<Entry>, m: nat)
    requires Intact(stream, entries) && m < |entries|
    ensures var start := Offset(entries[..m]) + 512;
      start + entries[m].size <= |stream.data| && Holds(stream, entries, m, stream.data[start..start + entries[m].size])
  {
    OffsetsGrow(entries, m, |entries|);
    assert entries[..|entries|] == entries;
  }

  lemma NothingStops(stream: Stream, entries: seq<Entry>, path: string)
    requires forall j :: 0 <= j < |entries| ==> entries[j].readable && entries[j].path != path
    ensures MeansByName(stream, entries, path, Ok(None))
  {
  }

  lemma OneStop(entries: seq<Entry>, path: string, m: nat)
    requires FirstOfName(entries, path, m) || FirstUnreadable(entries, path, m)
    ensures forall i: nat :: FirstOfName(entries, path, i) || FirstUnreadable(entries, path, i) ==> i == m
  {
    OnlyStop(entries, path, m);
    forall i: nat | FirstOfName(entries, path, i) || FirstUnreadable(entries, path, i) ensures i == m {
      OnlyStop(entries, path, i);
    }
  }

  lemma UnreadableStops(stream: Stream, entries: seq<Entry>, path: string, m: nat)
    requires FirstUnreadable(entries, path, m)
    ensures MeansByName(stream, entries, path, Err(Archive))
  {
    OneStop(entries, path, m);
  }

  lemma NameStops(stream: Stream, entries: seq<Entry>, path: string, m: nat, content: Bytes)
    requires FirstOfName(entries, path, m) && Holds(stream, entries, m, content)
    ensures MeansByName(stream, entries, path, if entries[m].size > 25 * 1024 * 1024 then Err(TooLarge) else Ok(Some(content)))
  {
    OneStop(entries, path, m);
  }

  /** An intact archive that fits the budget is answered by name, and never with the budget error. */
  lemma AnswersByName(stream: Stream, entries: seq<Entry>, path: string, budget: nat)
    requires budget <= U64_MAX && Intact(stream, entries) && |stream.data| <= budget && |stream.data| < U64_MAX
    ensures MeansByName(stream, entries, path, ScanAnswer(stream, entries, path, Allowance(budget)))
  {
    ScanFindsTheFirstEntry(stream, entries, path, budget);
    WantedByName(stream, entries, path);
  }

  /** A file as a packer writes it: its header block, its content, and padding up to the next block. */
  datatype File = File(path: string, header: Bytes, content: Bytes, padding: Bytes) {
    predicate WellPacked() {
      |header| == 512 && |padding| < 512 && (|content| + |padding|) % 512 == 0
    }
  }

  predicate AllWellPacked(files: seq<File>) {
    forall i :: 0 <= i < |files| ==> files[i].WellPacked()
  }

  function Packed(files: seq<File>): Bytes {
    if files == [] then []
    else
      var last := files[|files| - 1];
      Packed(files[..|files| - 1]) + (last.header + last.content + last.padding)
  }

  function Headers(files: seq<File>): (entries: seq<Entry>)
    ensures |entries| == |files|
  {
    if files == [] then []
    else
      var last := files[|files| - 1];
      Headers(files[..|files| - 1]) + [Entry(last.path, |last.content|, true)]
  }

  lemma {:induction false} HeaderAt(files: seq<File>, i: nat)
    requires i < |files|
    ensures Headers(files)[i] == Entry(files[i].path, |files[i].content|, true)
    ensures Headers(files)[..i] == Headers(files[..i])
  {
    var n := |files| - 1;
    if i < n {
      HeaderAt(files[..n], i);
      assert files[..n][..i] == files[..i];
    }
  }

  lemma PaddingIsTheRest(size: nat, rest: nat)
    requires rest < 512 && (size + rest) % 512 == 0
    ensures size + rest == Padded(size)
  {
  }

  lemma {:induction false} PackedLength(files: seq<File>)
    requires AllWellPacked(files)
    ensures |Packed(files)| == Offset(Headers(files))
  {
    if files != [] {
      var n := |files| - 1;
      var last := files[n];
      PackedLength(files[..n]);
      PaddingIsTheRest(|last.content|, |last.padding|);
      assert Headers(files)[..n] == Headers(files[..n]);
    }
  }

  /** File `i` lies between the files before it and some rest. */
  lemma {:induction false} PackedAround(files: seq<File>, i: nat) returns (rest: Bytes)
    requires i < |files|
    ensures Packed(files) == Packed(files[..i]) + files[i].header + files[i].content + rest
  {
    var n := |files| - 1;
    if i == n {
      rest := files[n].padding;
      Regroup(Packed(files[..n]), files[n].header, files[n].content, rest);
    } else {
      var inner := PackedAround(files[..n], i);
      var last := files[n].header + files[n].content + files[n].padding;
      assert files[..n][..i] == files[..i];
      rest := inner + last;
      Reassociate(Packed(files[..i]) + files[i].header + files[i].content, inner, last);
    }
  }

  lemma Reassociate(a: Bytes, b: Bytes, c: Bytes)
    ensures (a + b) + c == a + (b + c)
  {
  }

  lemma Regroup(a: Bytes, b: Bytes, c: Bytes, d: Bytes)
    ensures a + (b + c + d) == a + b + c + d
  {
  }

  /** Packing and serving are inverse: from files packed one after the other and closed by a block, a request for a
    * name gets back exactly the bytes of the first file packed under it. */
  lemma PackedFileIsServed(files: seq<File>, i: nat, tail: Bytes, budget: nat)
    requires AllWellPacked(files)
    requires i < |files| && (forall j :: 0 <= j < i ==> files[j].path != files[i].path)
    requires |files[i].content| <= 25 * 1024 * 1024 && |tail| >= 512
    requires budget <= U64_MAX && |Packed(files) + tail| <= budget && |Packed(files) + tail| < U64_MAX
    ensures ScanAnswer(Stream(Packed(files) + tail, false), Headers(files), files[i].path, Allowance(budget))
            == Ok(Some(files[i].content))
  {
    var stream, entries := Stream(Packed(files) + tail, false), Headers(files);
    PackedLength(files);
    AnswersByName(stream, entries, files[i].path, budget);
    forall j: nat | j <= i ensures entries[j] == Entry(files[j].path, |files[j].content|, true) {
      HeaderAt(files, j);
    }
    assert FirstOfName(entries, files[i].path, i);
    HoldsPacked(files, i, tail);
  }

  lemma HoldsPacked(files: seq<File>, i: nat, tail: Bytes)
    requires AllWellPacked(files) && i < |files|
    ensures Holds(Stream(Packed(files) + tail, false), Headers(files), i, files[i].content)
  {
    var rest := PackedAround(files, i);
    HeaderAt(files, i);
    StartsAt(files, i);
    HoldsBetween(Stream(Packed(files) + tail, false), Headers(files), i, Packed(files[..i]) + files[i].header, files[i].content, rest, tail);
  }

  lemma HoldsBetween(stream: Stream, entries: seq<Entry>, i: nat, before: Bytes, content: Bytes, rest: Bytes, tail: Bytes)
    requires i < |entries| && entries[i].size == |content| && |before| == Offset(entries[..i]) + 512
    requires stream.data == before + content + rest + tail
    ensures Holds(stream, entries, i, content)
  {
    Between(before, content, rest, tail);
  }

  lemma StartsAt(files: seq<File>, i: nat)
    requires AllWellPacked(files) && i < |files|
    ensures |Packed(files[..i]) + files[i].header| == Offset(Headers(files)[..i]) + 512
  {
    HeaderAt(files, i);
    PackedLength(files[..i]);
  }

  lemma Between(before: Bytes, content: Bytes, rest: Bytes, tail: Bytes)
    ensures var all := before + content + rest + tail;
      |before| + |content| <= |all| && all[|before|..|before| + |content|] == content
  {
  }

  /** The end of the stream ends an entry as quietly as its declared size does: a served entry is the
    * whole declared one exactly when the stream was not cut off inside it. */
  lemma ServedEntryIsWholeIff(stream: Stream, entries: seq<Entry>, path: string, budget: nat)
    requires budget <= U64_MAX
    requires FirstStop(entries, path) < |entries|
    requires var r := ScanAnswer(stream, entries, path, Allowance(budget)); r.Ok? && r.value.Some?
    ensures var m := FirstStop(entries, path);
      var start := Offset(entries[..m]) + BLOCK;
      var served := ScanAnswer(stream, entries, path, Allowance(budget)).value.value;
      && start <= |stream.data| && served <= stream.data[start..]
      && (|served| == entries[m].size <==> start + entries[m].size <= |stream.data|)
  {
  }

  /** An entry cut short and served: any header block and any content shorter than the size it
    * declares, with nothing behind it, is answered with just that content. */
  lemma CutShortEntryIsServed(header: Bytes, content: Bytes, path: string, size: nat, budget: nat)
    requires |header| == BLOCK && |content| < size <= MAX_SERVED_FILE_BYTES
    requires budget <= U64_MAX && Fits(BLOCK + |content|, budget)
    ensures ScanAnswer(Stream(header + content, false), [Entry(path, size, true)], path, Allowance(budget)) == Ok(Some(content))
  {
    var entries := [Entry(path, size, true)];
    assert entries[..0] == [];
    assert FirstStop(entries, path) == 0;
    assert (header + content)[BLOCK..BLOCK + |content|] == content;
  }

  /** A decoder that fails is never taken for the end of the archive: whatever the scan still had to
    * read then, the answer is an error. */
  lemma CorruptionIsReported(stream: Stream, entries: seq<Entry>, path: string, budget: nat)
    requires budget <= U64_MAX && stream.corrupt
    requires var m := FirstStop(entries, path);
      |stream.data| < Offset(entries[..m]) + BLOCK
      || (m < |entries| && |stream.data| < Offset(entries[..m]) + BLOCK + Min(entries[m].size, MAX_SERVED_FILE_BYTES))
    ensures ScanAnswer(stream, entries, path, Allowance(budget)).Err?
  {
  }

  /** An archive cut off before its closing block, none of whose headers so far stopped the scan: the answer is
    * "absent" exactly when the cut lies between two entries, and an archive error anywhere else. */
  lemma CutOffArchive(stream: Stream, entries: seq<Entry>, path: string, budget: nat)
    requires budget <= U64_MAX && |stream.data| <= budget && |stream.data| < U64_MAX
    requires !stream.corrupt && |stream.data| < Offset(entries) + 512
    requires forall j :: 0 <= j < |entries| && Offset(entries[..j]) + 512 <= |stream.data| ==> entries[j].readable && entries[j].path != path
    ensures ScanAnswer(stream, entries, path, Allowance(budget)) ==
      if exists j :: 0 <= j <= |entries| && |stream.data| == Offset(entries[..j]) then Ok(None) else Err(Archive)
  {
    var m := FirstStop(entries, path);
    assert entries[..|entries|] == entries;
    assert |stream.data| < Offset(entries[..m]) + 512;
    if exists j :: 0 <= j <= |entries| && |stream.data| == Offset(entries[..j]) {
      var j :| 0 <= j <= |entries| && |stream.data| == Offset(entries[..j]);
      if m < j { OffsetsGrow(entries, m, j); }
      assert EndsBetweenEntries(stream, entries, m);
    }
  }

  /** A larger budget never takes an answer away. */
  lemma LargerBudgetKeepsAnswers(stream: Stream, entries: seq<Entry>, path: string, small: nat, large: nat)
    requires small <= large <= U64_MAX
    requires ScanAnswer(stream, entries, path, Allowance(small)) != Err(InflationBudgetExceeded)
    ensures ScanAnswer(stream, entries, path, Allowance(large)) == ScanAnswer(stream, entries, path, Allowance(small))
  {
  }
}
