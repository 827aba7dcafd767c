/** Merging the buffers of a glTF into one binary chunk, in place. */
module BufferPacking {
  import opened Wrappers

  type Byte = b: int | 0 <= b < 256

  /** A buffer's URI: decoded data, something external, or none at all. */
  datatype Uri = Data(bytes: seq<Byte>) | External | NoUri

  datatype Buffer = Buffer(uri: Uri, byteLength: nat)

  /** A view of a buffer; its fields are rewritten in place. */
  class BufferView {
    var buffer: int
    var byteOffset: Option<nat>
    var byteLength: nat

    constructor (buffer: int, byteOffset: Option<nat>, byteLength: nat)
      ensures this.buffer == buffer && this.byteOffset == byteOffset && this.byteLength == byteLength
    {
      this.buffer, this.byteOffset, this.byteLength := buffer, byteOffset, byteLength;
    }

    ghost function Current(): View
      reads this
    {
      View(buffer, byteOffset, byteLength)
    }
  }

  datatype View = View(buffer: int, byteOffset: Option<nat>, byteLength: nat) {
    function Offset(): nat {
      if byteOffset.Some? then byteOffset.value else 0
    }
  }

  // ---------------------------------------------------------------------------------------
  // What buffers and views denote
  // ---------------------------------------------------------------------------------------

  function Zeros(n: nat): (z: seq<Byte>)
    ensures |z| == n
  {
    seq(n, _ => 0)
  }

  /** The bytes of a buffer: decoded data, or zeros of its declared length. */
  function BytesOf(b: Buffer): seq<Byte> {
    if b.uri.Data? then b.uri.bytes else Zeros(b.byteLength)
  }

  function Parts(buffers: seq<Buffer>): (parts: seq<seq<Byte>>)
    ensures |parts| == |buffers|
  {
    seq(|buffers|, i requires 0 <= i < |buffers| => BytesOf(buffers[i]))
  }

  function Concat(parts: seq<seq<Byte>>): seq<Byte> {
    if parts == [] then [] else Concat(parts[..|parts| - 1]) + parts[|parts| - 1]
  }

  /** The bytes from `offset` on, `length` of them or as many as there are. */
  function Slice(bytes: seq<Byte>, offset: nat, length: nat): seq<Byte> {
    if offset >= |bytes| then []
    else if offset + length <= |bytes| then bytes[offset..offset + length]
    else bytes[offset..]
  }

  /** The bytes a view denotes; none when its buffer index is out of range. */
  function Denotes(parts: seq<seq<Byte>>, v: View): seq<Byte> {
    if 0 <= v.buffer < |parts| then Slice(parts[v.buffer], v.Offset(), v.byteLength) else []
  }

  /** Where a part starts in the concatenation. */
  function Base(parts: seq<seq<Byte>>, k: nat): nat
    requires k <= |parts|
  {
    |Concat(parts[..k])|
  }

  /** The rewriting of one view: into the single chunk, unless its index is 0 or out of range. */
  function Rewritten(parts: seq<seq<Byte>>, v: View): View {
    if 0 < v.buffer < |parts| then View(0, Some(v.Offset() + Base(parts, v.buffer)), v.byteLength) else v
  }

  // ---------------------------------------------------------------------------------------
  // Packing preserves meaning
  // ---------------------------------------------------------------------------------------

  lemma {:induction false} PartSitsAtBase(parts: seq<seq<Byte>>, k: nat)
    requires k < |parts|
    ensures Base(parts, k) + |parts[k]| <= |Concat(parts)|
    ensures Concat(parts)[Base(parts, k)..Base(parts, k) + |parts[k]|] == parts[k]
  {
    var n := |parts| - 1;
    if k < n {
      PartSitsAtBase(parts[..n], k);
      assert parts[..n][..k] == parts[..k];
    }
  }

  function SumOfLengths(parts: seq<seq<Byte>>): nat {
    if parts == [] then 0 else SumOfLengths(parts[..|parts| - 1]) + |parts[|parts| - 1]|
  }

  /** The chunk is as long as the decoded buffers together. */
  lemma {:induction false} ChunkLengthIsTheSum(parts: seq<seq<Byte>>)
    ensures |Concat(parts)| == SumOfLengths(parts)
  {
    if parts != [] {
      ChunkLengthIsTheSum(parts[..|parts| - 1]);
    }
  }

  /** The view lies within its buffer, as the glTF 2.0 specification (section 3.6.1) demands. */
  predicate InRange(parts: seq<seq<Byte>>, v: View) {
    0 <= v.buffer < |parts| && v.Offset() + v.byteLength <= |parts[v.buffer]|
  }

  /** A view that lies within its buffer denotes the same bytes of the chunk after rewriting. */
  lemma ViewInRangeKeepsItsBytes(parts: seq<seq<Byte>>, v: View)
    requires InRange(parts, v)
    ensures
      var r := Rewritten(parts, v);
      r.buffer == 0 && Denotes([Concat(parts)], r) == Denotes(parts, v)
  {
    ViewKeepsItsBytesIff(parts, v);
  }

  /** The number of bytes that follow a part in the chunk, counted from the part's start. */
  function Room(parts: seq<seq<Byte>>, k: nat): int
    requires k < |parts|
  {
    |Concat(parts)| - Base(parts, k)
  }

  /**
   * Any view with a valid index keeps its bytes exactly when it lies within its buffer, is empty,
   * or has nothing after its buffer (or its offset) to run into.
   */
  lemma ViewKeepsItsBytesIff(parts: seq<seq<Byte>>, v: View)
    requires 0 <= v.buffer < |parts|
    ensures
      var r := Rewritten(parts, v);
      var part := |parts[v.buffer]|;
      r.buffer == 0 &&
      (Slice(Concat(parts), r.Offset(), r.byteLength) == Denotes(parts, v) <==>
       || v.Offset() + v.byteLength <= part
       || v.byteLength == 0
       || Room(parts, v.buffer) <= if part < v.Offset() then v.Offset() else part)
  {
    PartSitsAtBase(parts, v.buffer);
    assert v.buffer == 0 ==> Base(parts, 0) == 0 by {
      assert parts[..0] == [];
    }
    SliceOfPartIff(Concat(parts), Base(parts, v.buffer), parts[v.buffer], v.Offset(), v.byteLength);
  }

  lemma SliceOfPartIff(all: seq<Byte>, base: nat, part: seq<Byte>, offset: nat, length: nat)
    requires base + |part| <= |all| && all[base..base + |part|] == part
    ensures Slice(all, base + offset, length) == Slice(part, offset, length) <==>
            || offset + length <= |part|
            || length == 0
            || |all| - base <= if |part| < offset then offset else |part|
  {
    assert forall i :: 0 <= i < |part| ==> part[i] == all[base..base + |part|][i] == all[base + i];
    if offset + length <= |part| {
      assert part[offset..offset + length] == all[base + offset..base + offset + length];
    } else if offset < |part| && |all| == base + |part| {
      assert part[offset..] == all[base + offset..];
    } else {
      assert |Slice(part, offset, length)| == if offset < |part| then |part| - offset else 0;
    }
  }

  /** Two buffers: a view that overruns the first one reads the second one's bytes after packing. */
  lemma OverrunningViewChanges()
    ensures
      var parts: seq<seq<Byte>> := [[1], [2]];
      var v := View(0, None, 2);
      Slice(Concat(parts), Rewritten(parts, v).Offset(), 2) == [1, 2] && Denotes(parts, v) == [1]
  {
    var parts: seq<seq<Byte>> := [[1], [2]];
    assert parts[..1] == [[1]] && parts[..1][..0] == [];
    assert Concat([[1]]) == [1] by {
      assert [[1]][..0] == [];
    }
    assert Concat(parts) == [1] + [2];
  }

  // ---------------------------------------------------------------------------------------
  // Alignment
  // ---------------------------------------------------------------------------------------

  /** Accessor data starts at a multiple of its component size, 4 at most (glTF 2.0 specification, section 3.6.2.4 Data Alignment). */
  const ALIGNMENT := 4

  lemma OffsetsAgreeIff(offset: nat, base: nat)
    ensures (offset + base) % ALIGNMENT == offset % ALIGNMENT <==> base % ALIGNMENT == 0
  {
  }

  /** The chunk has no padding: a view keeps its alignment exactly when its buffer starts at a multiple of 4 in it. */
  lemma ViewKeepsItsAlignmentIff(parts: seq<seq<Byte>>, v: View)
    requires 0 <= v.buffer < |parts|
    ensures Rewritten(parts, v).Offset() % ALIGNMENT == v.Offset() % ALIGNMENT <==> Base(parts, v.buffer) % ALIGNMENT == 0
  {
    OffsetsAgreeIff(v.Offset(), Base(parts, v.buffer));
    assert v.buffer == 0 ==> Base(parts, 0) == 0 by {
      assert parts[..0] == [];
    }
  }

  /** Buffers whose lengths are all multiples of 4 keep every view aligned. */
  lemma {:induction false} WholeWordsStayAligned(parts: seq<seq<Byte>>, k: nat)
    requires k <= |parts| && forall i :: 0 <= i < k ==> |parts[i]| % ALIGNMENT == 0
    ensures Base(parts, k) % ALIGNMENT == 0
  {
    if k > 0 {
      WholeWordsStayAligned(parts, k - 1);
      assert parts[..k][..k - 1] == parts[..k - 1];
      OffsetsAgreeIff(Base(parts, k - 1), |parts[k - 1]|);
    } else {
      assert parts[..0] == [];
    }
  }

  /** A first buffer of one byte shifts every view of the second. */
  lemma OddBufferMisaligns()
    ensures
      var parts: seq<seq<Byte>> := [[1], [2, 0, 0, 0]];
      Rewritten(parts, View(1, None, 4)).Offset() % ALIGNMENT == 1
  {
    var parts: seq<seq<Byte>> := [[1], [2, 0, 0, 0]];
    assert parts[..1] == [[1]] && parts[..1][..0] == [];
    assert Concat(parts[..1]) == [1];
  }

  // ---------------------------------------------------------------------------------------
  // The code
  // ---------------------------------------------------------------------------------------

  /** Refuses a document whose buffers or images name anything but data. */
  method ValidateComposedUris(buffers: array<Buffer>, images: seq<Uri>) returns (ok: bool)
    ensures ok <==> External !in images && forall i :: 0 <= i < buffers.Length ==> !buffers[i].uri.External?
  {
    for i := 0 to buffers.Length
      invariant forall j :: 0 <= j < i ==> !buffers[j].uri.External?
    {
      if buffers[i].uri.External? {
        return false;
      }
    }
    for i := 0 to |images|
      invariant External !in images[..i]
    {
      if images[i].External? {
        assert images[i] in images;
        return false;
      }
      assert images[..i + 1] == images[..i] + [images[i]];
    }
    assert images[..|images|] == images;
    return true;
  }

  /** Decodes the buffers in order and notes where each starts. */
  method DecodeBuffers(buffers: array<Buffer>) returns (binParts: seq<seq<Byte>>, bufOffsets: seq<nat>)
    ensures binParts == Parts(buffers[..])
    ensures |bufOffsets| == |binParts| && forall k :: 0 <= k < |bufOffsets| ==> bufOffsets[k] == Base(binParts, k)
  {
    binParts, bufOffsets := [], [];
    var cumulative := 0;
    for i := 0 to buffers.Length
      invariant binParts == Parts(buffers[..i]) && |bufOffsets| == i && cumulative == |Concat(binParts)|
      invariant forall k :: 0 <= k < i ==> bufOffsets[k] == Base(binParts, k)
    {
      var b := buffers[i];
      var bytes := if b.uri.Data? then b.uri.bytes else Zeros(b.byteLength);
      assert buffers[..i + 1] == buffers[..i] + [b];
      assert forall k :: 0 <= k <= i ==> (binParts + [bytes])[..k] == binParts[..k];
      assert binParts[..i] == binParts;
      bufOffsets := bufOffsets + [cumulative];
      binParts := binParts + [bytes];
      cumulative := cumulative + |bytes|;
    }
    assert buffers[..buffers.Length] == buffers[..];
  }

  method RewriteView(view: BufferView, ghost parts: seq<seq<Byte>>, bufOffsets: seq<nat>)
    requires |bufOffsets| == |parts| && forall k :: 0 <= k < |bufOffsets| ==> bufOffsets[k] == Base(parts, k)
    modifies view
    ensures view.Current() == Rewritten(parts, old(view.Current()))
  {
    if view.buffer > 0 && view.buffer < |bufOffsets| {
      view.byteOffset := Some((if view.byteOffset.Some? then view.byteOffset.value else 0) + bufOffsets[view.buffer]);
      view.buffer := 0;
    }
  }

  /** Packs all buffers into one chunk and rewrites every view of them. */
  method PackComposedBuffers(buffers: array<Buffer>, views: seq<BufferView>) returns (bin: seq<Byte>)
    requires forall i, j :: 0 <= i < j < |views| ==> views[i] != views[j]
    modifies buffers, views
    ensures bin == Concat(Parts(old(buffers[..])))
    ensures forall i :: 0 <= i < buffers.Length ==> buffers[i] == Buffer(NoUri, |BytesOf(old(buffers[i]))|)
    ensures forall i :: 0 <= i < |views| ==> views[i].Current() == Rewritten(Parts(old(buffers[..])), old(views[i].Current()))
    ensures forall i :: 0 <= i < |views| && InRange(Parts(old(buffers[..])), old(views[i].Current())) ==>
              Denotes([bin], views[i].Current()) == Denotes(Parts(old(buffers[..])), old(views[i].Current()))
  {
    var binParts, bufOffsets := DecodeBuffers(buffers);
    ghost var parts := Parts(old(buffers[..]));
    for i := 0 to buffers.Length
      invariant forall j :: 0 <= j < i ==> buffers[j] == Buffer(NoUri, |parts[j]|)
      invariant forall j :: 0 <= j < |views| ==> views[j].Current() == old(views[j].Current())
    {
      buffers[i] := Buffer(NoUri, |binParts[i]|);
    }
    for i := 0 to |views|
      invariant forall j :: 0 <= j < i ==> views[j].Current() == Rewritten(parts, old(views[j].Current()))
      invariant forall j :: i <= j < |views| ==> views[j].Current() == old(views[j].Current())
      invariant forall j :: 0 <= j < buffers.Length ==> buffers[j] == Buffer(NoUri, |parts[j]|)
    {
      RewriteView(views[i], parts, bufOffsets);
    }
    bin := Concat(binParts);
    forall i | 0 <= i < |views| && InRange(parts, old(views[i].Current()))
      ensures Denotes([bin], views[i].Current()) == Denotes(parts, old(views[i].Current()))
    {
      ViewInRangeKeepsItsBytes(parts, old(views[i].Current()));
    }
  }
}
