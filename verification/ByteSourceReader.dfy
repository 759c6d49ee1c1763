/** The buffered reader over a byte source, and the plain cursor it refines. */
module ByteSourceReader {
  import opened ByteSource

  const READ_AHEAD_BLOCK: nat := 65536

  datatype ReadError = SourceFailed | UnexpectedEof | BeforeStart

  datatype Result<T> = Ok(value: T) | Err(error: ReadError)

  datatype SeekFrom = Start(offset: nat) | Current(delta: int) | End(delta: int)

  /** The fields of a reader, and the number of range requests it has issued. */
  datatype State = State(position: nat, length: Reply<nat>, blockStart: nat, block: seq<Byte>, requests: nat)

  const NEW_READER := State(0, Failed, 0, [], 0)

  /** `checked_add_signed` on 64-bit positions. */
  function CheckedAdd(p: nat, delta: int): Reply<nat> {
    if 0 <= p + delta <= MAX_U64 then Replied(p + delta) else Failed
  }

  /** The part of the block from the position on. */
  function Buffered(s: State): seq<Byte> {
    if s.blockStart <= s.position <= s.blockStart + |s.block| then s.block[s.position - s.blockStart..] else []
  }

  /** `length`: asked once, then remembered. */
  function KnowLength(s: State, source: Source): State {
    if s.length.Replied? then s else s.(length := source.length)
  }

  function RequestEnd(position: nat, wanted: nat, length: nat): nat {
    Min(Min(position + Min(Max(wanted, READ_AHEAD_BLOCK), MAX_U64), MAX_U64), length)
  }

  /** `fill_block`. */
  function FillBlock(s: State, wanted: nat, source: Source): (State, Result<()>) {
    var known := KnowLength(s, source);
    if known.length.Failed? then (known, Err(SourceFailed)) else
      var cleared := known.(blockStart := s.position, block := []);
      if s.position >= known.length.value then (cleared, Ok(())) else
        var end := RequestEnd(s.position, wanted, known.length.value);
        var asked := cleared.(requests := s.requests + 1);
        var reply := source.range(s.position, end);
        if reply.Failed? then (asked, Err(SourceFailed))
        else if s.position + |reply.value| < end then (asked, Err(UnexpectedEof))
        else (asked.(block := reply.value), Ok(()))
  }

  /** `read` into a buffer of `size` bytes: the bytes delivered. */
  function ReadStep(s: State, size: nat, source: Source): (State, Result<seq<Byte>>) {
    if size == 0 then (s, Ok([])) else
      var (t, filled) := if Buffered(s) == [] then FillBlock(s, size, source) else (s, Ok(()));
      if filled.Err? then (t, Err(filled.error)) else
        var bytes := Buffered(t)[..Min(|Buffered(t)|, size)];
        (t.(position := Min(t.position + |bytes|, MAX_U64)), Ok(bytes))
  }

  /** `seek`: the new position. */
  function SeekStep(s: State, target: SeekFrom, source: Source): (State, Result<nat>) {
    var known := if target.End? then KnowLength(s, source) else s;
    if target.End? && known.length.Failed? then (known, Err(SourceFailed)) else
      var to := match target
        case Start(offset) => Replied(offset)
        case Current(delta) => CheckedAdd(s.position, delta)
        case End(delta) => CheckedAdd(known.length.value, delta);
      if to.Failed? then (known, Err(BeforeStart)) else (known.(position := to.value), Ok(to.value))
  }

  // ---------------------------------------------------------------------
  // The reader
  // ---------------------------------------------------------------------

  class Reader {
    var position: nat
    var length: Reply<nat>
    var blockStart: nat
    var block: seq<Byte>
    ghost var requests: nat

    ghost function View(): State
      reads this
    {
      State(position, length, blockStart, block, requests)
    }

    constructor ()
      ensures View() == NEW_READER
    {
      position, length, blockStart, block, requests := 0, Failed, 0, [], 0;
    }

    method Length(source: Source) returns (r: Result<nat>)
      modifies this`length
      ensures View() == KnowLength(old(View()), source)
      ensures r == if length.Replied? then Ok(length.value) else Err(SourceFailed)
    {
      if length.Failed? {
        length := source.length;
      }
      r := if length.Replied? then Ok(length.value) else Err(SourceFailed);
    }

    method CurrentBlock() returns (bytes: seq<Byte>)
      ensures bytes == Buffered(View())
    {
      if blockStart <= position && position - blockStart <= |block| {
        return block[position - blockStart..];
      }
      return [];
    }

    method Fill(wanted: nat, source: Source) returns (r: Result<()>)
      modifies this
      ensures (View(), r) == FillBlock(old(View()), wanted, source)
    {
      var len := Length(source);
      if len.Err? {
        return Err(len.error);
      }
      blockStart := position;
      block := [];
      if position >= len.value {
        return Ok(());
      }
      var request := Min(Max(wanted, READ_AHEAD_BLOCK), MAX_U64);
      var end := Min(Min(position + request, MAX_U64), len.value);
      requests := requests + 1;
      var bytes := source.range(position, end);
      if bytes.Failed? {
        return Err(SourceFailed);
      }
      if position + |bytes.value| < end {
        return Err(UnexpectedEof);
      }
      block := bytes.value;
      return Ok(());
    }

    /** The bytes a read into `size > 0` bytes delivers, and the move over them. */
    method Take(size: nat, source: Source) returns (r: Result<seq<Byte>>)
      requires size > 0
      modifies this
      ensures (View(), r) == ReadStep(old(View()), size, source)
    {
      hide FillBlock, Buffered;
      var available := CurrentBlock();
      if available == [] {
        var filled := Fill(size, source);
        if filled.Err? {
          return Err(filled.error);
        }
      }
      available := CurrentBlock();
      var count := Min(|available|, size);
      position := Min(position + count, MAX_U64);
      return Ok(available[..count]);
    }

    /** Fills the front of `buffer`; the rest of it stays. */
    method Read(buffer: array<Byte>, source: Source) returns (r: Result<nat>)
      modifies this, buffer
      ensures var (t, out) := ReadStep(old(View()), buffer.Length, source);
              && View() == t
              && (out.Err? ==> r == Err(out.error) && buffer[..] == old(buffer[..]))
              && (out.Ok? ==> r == Ok(|out.value|) && |out.value| <= buffer.Length
                              && buffer[..] == out.value + old(buffer[..])[|out.value|..])
    {
      hide ReadStep;
      ghost var before := buffer[..];
      EmptyRead(View(), source);
      ReadFits(View(), buffer.Length, source);
      if buffer.Length == 0 {
        assert [] + before[0..] == before;
        return Ok(0);
      }
      var bytes := Take(buffer.Length, source);
      if bytes.Err? {
        return Err(bytes.error);
      }
      CopyFront(buffer, bytes.value);
      return Ok(|bytes.value|);
    }

    method Seek(target: SeekFrom, source: Source) returns (r: Result<nat>)
      modifies this
      ensures (View(), r) == SeekStep(old(View()), target, source)
    {
      var to: Reply<nat>;
      match target {
        case Start(offset) =>
          to := Replied(offset);
        case Current(delta) =>
          to := CheckedAdd(position, delta);
        case End(delta) =>
          var len := Length(source);
          if len.Err? {
            return Err(len.error);
          }
          to := CheckedAdd(len.value, delta);
      }
      if to.Failed? {
        return Err(BeforeStart);
      }
      position := to.value;
      return Ok(to.value);
    }
  }

  method CopyFront(buffer: array<Byte>, bytes: seq<Byte>)
    requires |bytes| <= buffer.Length
    modifies buffer
    ensures buffer[..] == bytes + old(buffer[..])[|bytes|..]
  {
    CopyInto(buffer, 0, bytes, 0, |bytes|);
    assert buffer[..] == buffer[..|bytes|] + buffer[|bytes|..];
  }

  lemma {:induction false} ReadFits(s: State, size: nat, source: Source)
    ensures var r := ReadStep(s, size, source).1;
            r.Ok? ==> |r.value| <= size
  {
    hide FillBlock, Buffered;
  }

  lemma {:induction false} EmptyRead(s: State, source: Source)
    ensures ReadStep(s, 0, source) == (s, Ok([]))
  {
  }

  // ---------------------------------------------------------------------
  // A plain cursor
  // ---------------------------------------------------------------------

  datatype Op = Read(size: nat) | Seek(target: SeekFrom)

  datatype Outcome = Bytes(bytes: Result<seq<Byte>>) | Moved(to: Result<nat>)

  /** A position fits in 64 bits. */
  function Within(to: int): Reply<nat> {
    if 0 <= to < 0x1_0000_0000_0000_0000 then Replied(to) else Failed
  }

  /** The position a cursor over `length` bytes is sent to. */
  function Target(position: nat, target: SeekFrom, length: nat): Reply<nat> {
    match target
    case Start(offset) => Replied(offset)
    case Current(delta) => Within(position + delta)
    case End(delta) => Within(length + delta)
  }

  ghost predicate CanFail(source: Source) {
    source.length.Failed? || exists a, b :: source.range(a, b).Failed?
  }

  /** What a cursor at `position` may answer. A read delivers the bytes at the
      position, and none only at the end or into an empty buffer; it fails only
      because the source failed. A seek fails exactly when its target is no 64-bit
      position, or because the source failed. */
  ghost predicate Allowed(data: seq<Byte>, position: nat, op: Op, source: Source, out: Outcome) {
    match op
    case Read(size) =>
      && out.Bytes?
      && (out.bytes.Err? ==> out.bytes.error == SourceFailed && size > 0 && CanFail(source))
      && (out.bytes.Ok? ==>
            var n := |out.bytes.value|;
            && n <= size && out.bytes.value == Slice(data, position, position + n)
            && (n == 0 <==> size == 0 || position >= |data|))
    case Seek(target) =>
      && out.Moved?
      && (out.to.Ok? ==> Target(position, target, |data|) == Replied(out.to.value))
      && (out.to.Err? ==>
            || (out.to.error == BeforeStart && Target(position, target, |data|).Failed?)
            || (out.to.error == SourceFailed && target.End? && CanFail(source)))
  }

  /** Where the cursor is after the answer: a failure moves nothing. */
  function Next(position: nat, out: Outcome): nat {
    match out
    case Bytes(Ok(bytes)) => position + |bytes|
    case Moved(Ok(to)) => to
    case _ => position
  }

  ghost predicate CursorRun(data: seq<Byte>, position: nat, ops: seq<Op>, sources: seq<Source>, outs: seq<Outcome>)
    requires |ops| == |sources|
    decreases |ops|
  {
    |ops| == |outs| && (ops != [] ==>
      && Allowed(data, position, ops[0], sources[0], outs[0])
      && CursorRun(data, Next(position, outs[0]), ops[1..], sources[1..], outs[1..]))
  }

  // ---------------------------------------------------------------------
  // Refinement
  // ---------------------------------------------------------------------

  function Step(s: State, op: Op, source: Source): (State, Outcome) {
    match op
    case Read(size) => var (t, r) := ReadStep(s, size, source); (t, Bytes(r))
    case Seek(target) => var (t, r) := SeekStep(s, target, source); (t, Moved(r))
  }

  /** The answers of a run; each call sees its own source. */
  function Outcomes(s: State, ops: seq<Op>, sources: seq<Source>): seq<Outcome>
    requires |ops| == |sources|
    decreases |ops|
  {
    if ops == [] then [] else
      var (t, out) := Step(s, ops[0], sources[0]);
      [out] + Outcomes(t, ops[1..], sources[1..])
  }

  /** What a reader over `data` keeps: positions are 64-bit, a known length is the
      length, and the block is the data at its place. */
  ghost predicate Valid(s: State, data: seq<Byte>) {
    && s.position <= MAX_U64 && |data| <= MAX_U64
    && (s.length.Replied? ==> s.length.value == |data|)
    && (s.block != [] ==> s.blockStart + |s.block| <= |data| && s.block == data[s.blockStart..s.blockStart + |s.block|])
  }

  predicate ValidOp(op: Op) {
    match op case Seek(Start(offset)) => offset <= MAX_U64 case _ => true
  }

  lemma {:induction false} BufferedIsData(s: State, data: seq<Byte>)
    requires Valid(s, data)
    ensures Buffered(s) == [] || (s.position + |Buffered(s)| <= |data| && Buffered(s) == data[s.position..s.position + |Buffered(s)|])
  {
    if Buffered(s) != [] {
      var k := s.position - s.blockStart;
      assert data[s.blockStart..s.blockStart + |s.block|][k..] == data[s.position..s.blockStart + |s.block|];
    }
  }

  lemma {:induction false} BufferedAtStart(s: State)
    ensures s.blockStart == s.position ==> Buffered(s) == s.block
  {
  }

  /** Filling gives the block at the position, at least 64 KiB of it or all there
      is, by one request; at the end there is nothing to request. */
  lemma {:induction false} FillKeeps(s: State, wanted: nat, source: Source, data: seq<Byte>)
    requires Valid(s, data) && Conforms(source, data)
    ensures var (t, r) := FillBlock(s, wanted, source);
            && Valid(t, data) && t.position == s.position
            && (r.Err? ==> r.error == SourceFailed && CanFail(source))
            && (r.Ok? ==> t.length == Replied(|data|) && t.blockStart == s.position)
            && (r.Ok? && s.position >= |data| ==> t.block == [] && t.requests == s.requests)
            && (r.Ok? && s.position < |data| ==>
                  && t.block != [] && t.requests == s.requests + 1
                  && (t.blockStart + |t.block| == |data| || |t.block| >= READ_AHEAD_BLOCK))
  {
    hide RequestEnd, Slice;
    if s.position < |data| {
      var end := RequestEnd(s.position, wanted, |data|);
      RequestEndIs(s.position, wanted, |data|);
      SliceInside(data, s.position, end);
      assert source.range(s.position, end).Replied? ==> source.range(s.position, end).value == Slice(data, s.position, end);
    }
  }

  lemma {:induction false} RequestEndIs(position: nat, wanted: nat, length: nat)
    requires position < length <= MAX_U64
    ensures var end := RequestEnd(position, wanted, length);
            position < end <= length && (end == length || end >= position + READ_AHEAD_BLOCK)
  {
  }

  lemma {:induction false} SliceInside(data: seq<Byte>, a: nat, b: nat)
    requires a <= b <= |data|
    ensures Slice(data, a, b) == data[a..b]
  {
  }

  /** A read is a fill, if nothing is buffered, and a move over buffered bytes. */
  lemma {:induction false} ReadIsFillAndServe(s: State, size: nat, source: Source, data: seq<Byte>)
    returns (t: State, filled: Result<()>, n: nat)
    requires Valid(s, data) && Conforms(source, data) && size > 0
    ensures (t, filled) == if Buffered(s) == [] then FillBlock(s, size, source) else (s, Ok(()))
    ensures Valid(t, data) && t.position == s.position && n == Min(|Buffered(t)|, size)
    ensures filled.Err? ==> ReadStep(s, size, source) == (t, Err(filled.error)) && filled.error == SourceFailed && CanFail(source)
    ensures filled.Ok? ==>
              && ReadStep(s, size, source) == (t.(position := s.position + n), Ok(Slice(data, s.position, s.position + n)))
              && (n > 0 ==> s.position + |Buffered(t)| <= |data|) && |Slice(data, s.position, s.position + n)| == n
              && (n == 0 <==> s.position >= |data|)
  {
    hide FillBlock, Conforms, CanFail, Slice, Buffered;
    var step := if Buffered(s) == [] then FillBlock(s, size, source) else (s, Ok(()));
    t, filled := step.0, step.1;
    FillKeeps(s, size, source, data);
    n := Min(|Buffered(t)|, size);
    if filled.Ok? {
      BufferedAtStart(t);
      BufferedIsData(t, data);
      ServedIsData(Buffered(t), data, s.position, n);
    }
  }

  lemma {:induction false} ServedIsData(buffered: seq<Byte>, data: seq<Byte>, position: nat, n: nat)
    requires buffered == [] || (position + |buffered| <= |data| && buffered == data[position..position + |buffered|])
    requires n <= |buffered|
    ensures buffered[..n] == Slice(data, position, position + n) && |Slice(data, position, position + n)| == n
  {
  }

  /** One read: the bytes delivered are the data at the position, the buffer stays
      the data at its place, and a failure moves nothing. */
  lemma {:induction false} ReadRefines(s: State, size: nat, source: Source, data: seq<Byte>)
    requires Valid(s, data) && Conforms(source, data)
    ensures var (t, r) := ReadStep(s, size, source);
            && Valid(t, data) && t.position == Next(s.position, Bytes(r))
            && Allowed(data, s.position, Op.Read(size), source, Bytes(r))
  {
    hide FillBlock, Conforms, CanFail, Slice, Buffered;
    if size > 0 {
      var t, filled, n := ReadIsFillAndServe(s, size, source, data);
    } else {
      ServedIsData([], data, s.position, 0);
    }
  }

  lemma {:induction false} SeekRefines(s: State, target: SeekFrom, source: Source, data: seq<Byte>)
    requires Valid(s, data) && Conforms(source, data) && ValidOp(Op.Seek(target))
    ensures var (t, r) := SeekStep(s, target, source);
            && Valid(t, data) && t.position == Next(s.position, Moved(r))
            && Allowed(data, s.position, Op.Seek(target), source, Moved(r))
  {
  }

  /** Whatever the source answers, a failed call moves nothing, and a reply shorter
      than what the length promises is a failure. */
  lemma {:induction false} FailureMovesNothing(s: State, op: Op, source: Source)
    ensures var (t, out) := Step(s, op, source);
            && ((out.Bytes? && out.bytes.Err?) || (out.Moved? && out.to.Err?) ==> t.position == s.position)
            && (op.Read? && op.size > 0 && Buffered(s) == [] && KnowLength(s, source).length.Replied? ==>
                  var end := RequestEnd(s.position, op.size, KnowLength(s, source).length.value);
                  var reply := source.range(s.position, end);
                  s.position < end && reply.Replied? && |reply.value| < end - s.position ==> out == Bytes(Err(UnexpectedEof)))
  {
  }

  ghost predicate AllConform(sources: seq<Source>, data: seq<Byte>) {
    forall k | 0 <= k < |sources| :: Conforms(sources[k], data)
  }

  /** Every run of reads and seeks answers as a plain cursor over the bytes would,
      whichever calls to the source fail. */
  lemma {:induction false} ReaderRefinesCursor(s: State, ops: seq<Op>, sources: seq<Source>, data: seq<Byte>)
    requires Valid(s, data) && |ops| == |sources| && AllConform(sources, data)
    requires forall k | 0 <= k < |ops| :: ValidOp(ops[k])
    ensures CursorRun(data, s.position, ops, sources, Outcomes(s, ops, sources))
    decreases |ops|
  {
    hide ReadStep, SeekStep, Valid, Allowed, Conforms;
    if ops != [] {
      var (t, out) := Step(s, ops[0], sources[0]);
      assert Conforms(sources[0], data) && ValidOp(ops[0]);
      match ops[0] {
        case Read(size) => ReadRefines(s, size, sources[0], data);
        case Seek(target) => SeekRefines(s, target, sources[0], data);
      }
      ReaderRefinesCursor(t, ops[1..], sources[1..], data);
      var rest := Outcomes(t, ops[1..], sources[1..]);
      assert ([out] + rest)[1..] == rest;
    }
  }

  // ---------------------------------------------------------------------
  // Sequential reading
  // ---------------------------------------------------------------------

  /** The state after reads of the given sizes, and all they delivered; `Err` as
      soon as one of them fails. */
  function ReadAll(s: State, sizes: seq<nat>, sources: seq<Source>): (State, Result<seq<Byte>>)
    requires |sizes| == |sources|
    decreases |sizes|
  {
    if sizes == [] then (s, Ok([])) else
      var (t, r) := ReadStep(s, sizes[0], sources[0]);
      if r.Err? then (t, r) else
        var (u, rest) := ReadAll(t, sizes[1..], sources[1..]);
        if rest.Err? then (u, rest) else (u, Ok(r.value + rest.value))
  }

  /** After `n > 0` requests since the position was `p`, all blocks before the last
      were read to their ends, and the last one is at least 64 KiB or reaches the
      end of the data. */
  ghost predicate Pace(position: nat, blockStart: nat, blockEnd: nat, length: nat, p: nat, n: nat) {
    && p <= position
    && (n > 0 ==>
          && position - p > (n - 1) * READ_AHEAD_BLOCK
          && blockStart <= position <= blockEnd
          && (position >= length || blockEnd >= length || blockEnd - p >= n * READ_AHEAD_BLOCK))
  }

  ghost predicate Progress(s: State, data: seq<Byte>, p: nat, n: nat) {
    Valid(s, data) && Pace(s.position, s.blockStart, s.blockStart + |s.block|, |data|, p, n)
  }

  lemma {:induction false} PaceRefilled(position: nat, blockStart: nat, blockEnd: nat, length: nat, p: nat, n: nat,
          blockEnd': nat, k: nat)
    requires Pace(position, blockStart, blockEnd, length, p, n) && position < length
    requires n > 0 ==> position == blockEnd
    requires position < position + k <= blockEnd'
    requires blockEnd' == length || blockEnd' >= position + READ_AHEAD_BLOCK
    ensures Pace(position + k, position, blockEnd', length, p, n + 1)
  {
  }

  /** One read adds at most one request, and only when the blocks so far are used up. */
  lemma {:induction false} ReadProgress(s: State, size: nat, source: Source, data: seq<Byte>, p: nat, n: nat)
    requires Progress(s, data, p, n) && Conforms(source, data)
    requires ReadStep(s, size, source).1.Ok?
    ensures var t := ReadStep(s, size, source).0;
            t.requests >= s.requests && Progress(t, data, p, n + (t.requests - s.requests))
  {
    hide FillBlock, Conforms, CanFail, Slice, ReadStep, Valid, Pace;
    ReadRefines(s, size, source, data);
    if size == 0 {
      EmptyRead(s, source);
    } else {
      var t, filled, k := ReadIsFillAndServe(s, size, source, data);
      if Buffered(s) != [] {
        PaceServed(s.position, s.blockStart, s.blockStart + |s.block|, |data|, p, n, k);
      } else {
        FillKeeps(s, size, source, data);
        PaceUsedUp(s, |data|, p, n);
        if s.position < |data| {
          PaceRefilled(s.position, s.blockStart, s.blockStart + |s.block|, |data|, p, n, t.blockStart + |t.block|, k);
        } else {
          PaceEnded(s.position, s.blockStart, s.blockStart + |s.block|, |data|, p, n);
        }
      }
    }
  }

  lemma {:induction false} PaceServed(position: nat, blockStart: nat, blockEnd: nat, length: nat, p: nat, n: nat,
          k: nat)
    requires Pace(position, blockStart, blockEnd, length, p, n) && blockStart <= position + k <= blockEnd
    ensures Pace(position + k, blockStart, blockEnd, length, p, n)
  {
  }

  lemma {:induction false} PaceEnded(position: nat, blockStart: nat, blockEnd: nat, length: nat, p: nat, n: nat)
    requires Pace(position, blockStart, blockEnd, length, p, n) && position >= length
    ensures Pace(position, position, position, length, p, n)
  {
  }

  lemma {:induction false} PaceUsedUp(s: State, length: nat, p: nat, n: nat)
    requires Pace(s.position, s.blockStart, s.blockStart + |s.block|, length, p, n) && Buffered(s) == []
    ensures n > 0 ==> s.position == s.blockStart + |s.block|
  {
  }

  lemma {:induction false} ReadAllProgress(s: State, sizes: seq<nat>, sources: seq<Source>, data: seq<Byte>, p: nat,
          n: nat)
    requires |sizes| == |sources| && AllConform(sources, data) && Progress(s, data, p, n)
    requires ReadAll(s, sizes, sources).1.Ok?
    ensures var (t, r) := ReadAll(s, sizes, sources);
            && t.requests >= s.requests && Progress(t, data, p, n + (t.requests - s.requests))
            && t.position == s.position + |r.value| && r.value == Slice(data, s.position, t.position)
    decreases |sizes|
  {
    hide ReadStep, Progress, Conforms;
    if sizes != [] {
      assert Conforms(sources[0], data);
      var (t, r) := ReadStep(s, sizes[0], sources[0]);
      ReadProgress(s, sizes[0], sources[0], data, p, n);
      ReadAllProgress(t, sizes[1..], sources[1..], data, p, n + (t.requests - s.requests));
      ProgressValid(s, data, p, n);
      ReadRefines(s, sizes[0], sources[0], data);
    }
  }

  lemma {:induction false} ProgressValid(s: State, data: seq<Byte>, p: nat, n: nat)
    requires Progress(s, data, p, n)
    ensures Valid(s, data)
  {
  }

  /** Sequential reads deliver consecutive bytes, and reading `L` of them issues at
      most `L / 65536`, rounded up, range requests, however small the buffers are. */
  lemma {:induction false} SequentialReads(s: State, sizes: seq<nat>, sources: seq<Source>, data: seq<Byte>)
    requires Valid(s, data) && |sizes| == |sources| && AllConform(sources, data)
    requires ReadAll(s, sizes, sources).1.Ok?
    ensures var (t, r) := ReadAll(s, sizes, sources);
            && r.value == Slice(data, s.position, s.position + |r.value|)
            && t.requests - s.requests <= (|r.value| + READ_AHEAD_BLOCK - 1) / READ_AHEAD_BLOCK
  {
    hide ReadStep, ReadAll, Conforms;
    ReadAllProgress(s, sizes, sources, data, s.position, 0);
  }

  /** The length is asked for once: when it is known no call depends on what the source
      would say, and every read that fetches and every seek from the end makes it
      known unless the source fails. */
  lemma {:induction false} LengthIsRemembered(s: State, op: Op, source: Source, length: Reply<nat>)
    ensures s.length.Replied? ==> Step(s, op, source) == Step(s, op, source.(length := length)) && Step(s, op, source).0.length == s.length
    ensures s.length.Failed? && op.Seek? && op.target.End? ==> Step(s, op, source).0.length == source.length
    ensures s.length.Failed? && op.Read? && op.size > 0 && Buffered(s) == [] ==> Step(s, op, source).0.length == source.length
  {
    hide RequestEnd;
  }
}
