/** Random-access byte sources: what a range request means, and the in-memory
    and local-file sources that answer it. */
module ByteSource {

  type Byte = b: nat | b < 256

  datatype Reply<T> = Failed | Replied(value: T)

  const MAX_U64: nat := 0xFFFF_FFFF_FFFF_FFFF

  function Min(a: nat, b: nat): nat { if a <= b then a else b }

  function Max(a: nat, b: nat): nat { if a <= b then b else a }

  /** `clamp_range`: never inverted, never past the end, and the whole of every
      range that lies inside the source. */
  function ClampRange(start: nat, end: nat, length: nat): (r: (nat, nat))
    ensures r.0 <= r.1 <= length
    ensures start <= end <= length ==> r == (start, end)
  {
    var end' := Min(end, length);
    (Min(start, end'), end')
  }

  /** The bytes of a range, as the in-memory source returns them. */
  function Slice(data: seq<Byte>, start: nat, end: nat): seq<Byte> {
    var (a, b) := ClampRange(start, end, |data|);
    data[a..b]
  }

  /** The slice holds the bytes whose positions are in the range and in the source,
      in order. */
  lemma {:induction false} SliceHolds(data: seq<Byte>, start: nat, end: nat, i: nat)
    ensures var s := Slice(data, start, end);
            && (start <= i < end && i < |data| <==> start <= i < start + |s|)
            && (start <= i < start + |s| ==> s[i - start] == data[i])
  {
  }

  /** A source as one call sees it: what it answers when asked for its length and
      for a range. */
  datatype Source = Source(length: Reply<nat>, range: (nat, nat) -> Reply<seq<Byte>>)

  /** A source over `data` that may fail, but answers nothing wrong. */
  ghost predicate Conforms(source: Source, data: seq<Byte>) {
    && (source.length.Replied? ==> source.length.value == |data|)
    && forall a, b :: source.range(a, b).Replied? ==> source.range(a, b).value == Slice(data, a, b)
  }

  // ---------------------------------------------------------------------
  // The local file
  // ---------------------------------------------------------------------

  /** What one positioned read meets: a signal, an error, or a file that holds
      `content` and delivers at most `most` bytes (at least one if there is any). */
  datatype Attempt = Interrupted | Broken | Delivers(content: seq<Byte>, most: nat)

  /** The number of bytes one attempt delivers. */
  function Delivered(content: seq<Byte>, most: nat, room: nat, offset: nat): (n: nat)
    ensures n <= room && (n > 0 ==> offset + n <= |content|)
    ensures n == 0 <==> room == 0 || offset >= |content|
  {
    if offset >= |content| then 0 else Min(Max(most, 1), Min(room, |content| - offset))
  }

  ghost predicate NoErrors(script: seq<Attempt>) {
    forall k | 0 <= k < |script| :: !script[k].Broken?
  }

  /** Every attempt sees what is left of `data`. */
  ghost predicate OnlyShrinks(script: seq<Attempt>, data: seq<Byte>) {
    forall k | 0 <= k < |script| && script[k].Delivers? :: script[k].content <= data
  }

  /** No attempt sees a file shorter than `least`. */
  ghost predicate KeepsAtLeast(script: seq<Attempt>, least: nat) {
    forall k | 0 <= k < |script| && script[k].Delivers? :: |script[k].content| >= least
  }

  ghost predicate Unchanging(script: seq<Attempt>, data: seq<Byte>) {
    forall k | 0 <= k < |script| && script[k].Delivers? :: script[k].content == data
  }

  /** `FileSource::read_range`: fills a buffer with positioned reads. `data` is the
      file when its length is asked, which may fail; `script` are the attempts in
      order, and when they are used up the file holds `settled` and delivers all it
      is asked for.

      Partial reads and interruptions leave no trace: over an unchanging file the
      result is the slice. If the file shrinks, the result is a prefix of the slice
      that reaches as far as the shortest file seen. */
  method ReadRange(data: seq<Byte>, lengthFails: bool, start: nat, end: nat, script: seq<Attempt>, settled: seq<Byte>,
          ghost least: nat) returns (r: Reply<seq<Byte>>)
    ensures lengthFails ==> r.Failed?
    ensures r.Failed? ==> lengthFails || !NoErrors(script)
    ensures r.Replied? && OnlyShrinks(script, data) && settled <= data ==> r.value <= Slice(data, start, end)
    ensures r.Replied? && KeepsAtLeast(script, least) && |settled| >= least ==>
              |r.value| == |Slice(data, start, end)| || start + |r.value| >= least
    ensures r.Replied? && Unchanging(script, data) && settled == data ==> r.value == Slice(data, start, end)
  {
    hide Delivered, ClampRange;
    if lengthFails {
      return Failed;
    }
    SliceIs(data, start, end);
    var (from, to) := ClampRange(start, end, |data|);
    var size := to - from;
    var bytes := new Byte[size](_ => 0);
    var filled: nat, offset: nat, k: nat := 0, from, 0;
    ghost var shrinks := OnlyShrinks(script, data) && settled <= data;
    ghost var steady := Unchanging(script, data) && settled == data;
    while filled < size
      invariant filled <= size && offset == from + filled && k <= |script|
      invariant shrinks ==> bytes[..filled] == data[from..offset]
      decreases |script| - k, size - filled
    {
      var attempt := if k < |script| then script[k] else Delivers(settled, size);
      k := if k < |script| then k + 1 else k;
      match attempt {
        case Interrupted =>
        case Broken =>
          return Failed;
        case Delivers(content, most) =>
          var read := Delivered(content, most, size - filled, offset);
          if read == 0 {
            assert steady ==> content == data;
            assert KeepsAtLeast(script, least) && |settled| >= least ==> |content| >= least;
            break;
          }
          CopyInto(bytes, filled, content, offset, read);
          if shrinks {
            Extended(content, data, from, offset, read);
          }
          filled := filled + read;
          offset := offset + read;
      }
    }
    return Replied(bytes[..filled]);
  }

  lemma {:induction false} SliceIs(data: seq<Byte>, start: nat, end: nat)
    ensures var (from, to) := ClampRange(start, end, |data|);
            Slice(data, start, end) == data[from..to] && (from < to ==> start == from)
  {
  }

  /** Copies `count` bytes of `content` behind the first `at` bytes of the buffer. */
  method CopyInto(bytes: array<Byte>, at: nat, content: seq<Byte>, from: nat, count: nat)
    requires at + count <= bytes.Length && from + count <= |content|
    modifies bytes
    ensures bytes[..at + count] == old(bytes[..at]) + content[from..from + count]
    ensures bytes[at + count..] == old(bytes[at + count..])
  {
    forall i | 0 <= i < count {
      bytes[at + i] := content[from + i];
    }
  }

  lemma {:induction false} Extended(content: seq<Byte>, data: seq<Byte>, from: nat, offset: nat, read: nat)
    requires from <= offset && offset + read <= |content| && content <= data
    ensures data[from..offset] + content[offset..offset + read] == data[from..offset + read]
  {
    assert content == data[..|content|];
  }
}
