/**
 * The boundary to CoreMIDI, CoreFoundation and FFI memory.
 *
 * Nothing on the far side of this boundary is computed here. Each native
 * function the core calls is a field of `Host`: an uninterpreted function
 * whose answers the model takes as given. The operations of the core return,
 * beside their Ruby result, the trace of native calls they issued, in order,
 * so that what they ask of the native side (and what they release) can be
 * stated.
 */
module Native {
  import opened Wrappers

  newtype byte = b: int | 0 <= b < 256

  /**
   * An opaque native address. `Memory(k)` is the k-th `FFI::MemoryPointer`
   * an operation allocates (numbered from 0 within that one operation);
   * `Handle(n)` is anything the native side hands out.
   */
  datatype Ptr = Null | Handle(id: nat) | Memory(serial: nat)

  /** `kCFStringEncodingMacRoman`, the encoding value 0 passed when labels and property names are converted. */
  const MacRoman: int := 0
  /** `kCFStringEncodingUTF8`. */
  const UTF8: int := 0x0800_0100

  /** The native functions, as oracles. */
  datatype Host = Host(
    /** CFStringCreateWithCString: the new string handle, or `Null`. */
    stringCreate: string -> Ptr,
    /** What MIDIObjectGetStringProperty(object, property, out) leaves in `out`. */
    objectStringProperty: (Ptr, Ptr) -> Ptr,
    /** CFStringGetLength. */
    stringLength: Ptr -> int,
    /** CFStringGetMaximumSizeForEncoding(length, UTF-8). */
    maxSizeForEncoding: int -> int,
    /** CFStringGetCString(string, buffer, size, UTF-8): `None` when it returns false, else the bytes it writes. */
    stringGetCString: (Ptr, int) -> Option<seq<byte>>,
    /** MIDIClientCreate(name, nil, nil, out): the status, and what it leaves in `out`. */
    clientCreate: Ptr -> (int, Ptr),
    /** MIDIOutputPortCreate(client, name, out): the status, and what it leaves in `out`. */
    outputPortCreate: (Ptr, Ptr) -> (int, Ptr),
    /** MIDIPacketListInit(list): the cursor to the first packet. */
    packetListInit: Ptr -> Ptr,
    /** What `read_int` yields from the buffer MIDIObjectGetIntegerProperty(object, property, buffer) filled. */
    objectIntegerProperty: (Ptr, Ptr) -> int,
    /** CFStringGetCStringPtr(string, encoding): `None` for a NULL result, else the bytes it points at. */
    stringGetCStringPtr: (Ptr, int) -> Option<seq<byte>>
  )

  /** One native call or allocation, with the arguments it was given. */
  datatype Call =
    | AllocPointer(buffer: Ptr)                       // FFI::MemoryPointer.new(:pointer)
    | AllocBytes(buffer: Ptr, size: int)              // FFI::MemoryPointer.new(size)
    | AllocPointers(buffer: Ptr, count: int)          // FFI::MemoryPointer.new(:pointer, count)
    | StringCreate(text: string, encoding: int, handle: Ptr)
    | Release(handle: Ptr)                            // CFRelease
    | ObjectGetStringProperty(obj: Ptr, property: Ptr, out: Ptr, written: Ptr)
    | StringGetLength(str: Ptr)
    | StringMaxSize(length: int, encoding: int)
    | StringGetCString(str: Ptr, buffer: Ptr, bufferSize: int, encoding: int)
    | ClientCreate(name: Ptr, out: Ptr)
    | OutputPortCreate(client: Ptr, name: Ptr, out: Ptr)
    | PacketListInit(list: Ptr)
    | PacketListAdd(list: Ptr, listSize: int, cursor: Ptr, time: seq<int>, nData: int, data: Ptr)
    | ObjectGetIntegerProperty(obj: Ptr, property: Ptr, out: Ptr)
    | StringGetCStringPtr(str: Ptr, encoding: int)
    | Connect                                         // the concrete endpoint's `connect?`

  function NonNull(p: Ptr): multiset<Ptr> {
    if p != Null then multiset{p} else multiset{}
  }

  /**
   * The CoreFoundation references one call hands to its caller: a created
   * string, and the string MIDIObjectGetStringProperty copies out.
   */
  predicate Acquires(c: Call) {
    c.StringCreate? || c.ObjectGetStringProperty?
  }

  function OwnedBy(c: Call): (r: multiset<Ptr>)
    ensures !Acquires(c) ==> r == multiset{}
  {
    if c.StringCreate? then NonNull(c.handle)
    else if c.ObjectGetStringProperty? then NonNull(c.written)
    else multiset{}
  }

  function ReleasedBy(c: Call): (r: multiset<Ptr>)
    ensures !c.Release? ==> r == multiset{}
  {
    if c.Release? then multiset{c.handle} else multiset{}
  }

  /** Every reference a trace acquires, with multiplicity. */
  function Owned(calls: seq<Call>): multiset<Ptr> {
    if calls == [] then multiset{} else Owned(calls[..|calls| - 1]) + OwnedBy(calls[|calls| - 1])
  }

  /** Every reference a trace releases, with multiplicity. */
  function Released(calls: seq<Call>): multiset<Ptr> {
    if calls == [] then multiset{} else Released(calls[..|calls| - 1]) + ReleasedBy(calls[|calls| - 1])
  }

  /** The number of references a trace leaves outstanding. */
  function Outstanding(calls: seq<Call>): int {
    |Owned(calls)| - |Released(calls)|
  }

  /** Appends one call to a trace, keeping the ledger of references up to date. */
  function Log(calls: seq<Call>, c: Call): (r: seq<Call>)
    ensures r == calls + [c]
    ensures Owned(r) == Owned(calls) + OwnedBy(c)
    ensures Released(r) == Released(calls) + ReleasedBy(c)
  {
    var r := calls + [c];
    assert r[..|r| - 1] == calls;
    r
  }

  lemma AddNothing(m: multiset<Ptr>)
    ensures m + multiset{} == m && multiset{} + m == m
  {
    assert forall p :: (m + multiset{})[p] == m[p];
    assert forall p :: (multiset{} + m)[p] == m[p];
  }

  lemma SumCommutes(a: multiset<Ptr>, b: multiset<Ptr>)
    ensures a + b == b + a
  {
    assert forall p :: (a + b)[p] == (b + a)[p];
  }

  /** The ledger of a concatenation is the sum of the ledgers. */
  lemma {:induction false} LedgerOfConcat(a: seq<Call>, b: seq<Call>)
    ensures Owned(a + b) == Owned(a) + Owned(b)
    ensures Released(a + b) == Released(a) + Released(b)
    decreases |b|
  {
    if b == [] {
      assert a + b == a;
    } else {
      var b' := b[..|b| - 1];
      assert (a + b)[..|a + b| - 1] == a + b';
      LedgerOfConcat(a, b');
    }
  }

  /**
   * When only the call at index `j` acquires anything and no call releases,
   * a prefix of the trace owns what that call acquired once it includes it.
   */
  lemma {:induction false} LedgerOfPrefix(calls: seq<Call>, j: nat, n: nat)
    requires n <= |calls|
    requires forall k :: 0 <= k < |calls| && k != j ==> !Acquires(calls[k])
    requires forall k :: 0 <= k < |calls| ==> !calls[k].Release?
    ensures Released(calls[..n]) == multiset{}
    ensures Owned(calls[..n]) == if j < n then OwnedBy(calls[j]) else multiset{}
  {
    if n > 0 {
      LedgerOfPrefix(calls, j, n - 1);
      LedgerOfSnoc(calls, n);
      assert ReleasedBy(calls[n - 1]) == multiset{};
      AddNothing(multiset{});
      if n - 1 == j {
        AddNothing(OwnedBy(calls[j]));
      } else {
        assert OwnedBy(calls[n - 1]) == multiset{};
        AddNothing(Owned(calls[..n - 1]));
      }
    }
  }

  /** The ledger of a prefix one call longer. */
  lemma LedgerOfSnoc(calls: seq<Call>, n: nat)
    requires 0 < n <= |calls|
    ensures Owned(calls[..n]) == Owned(calls[..n - 1]) + OwnedBy(calls[n - 1])
    ensures Released(calls[..n]) == Released(calls[..n - 1]) + ReleasedBy(calls[n - 1])
  {
    assert calls[..n][..n - 1] == calls[..n - 1];
  }

  /** A trace whose releases match its acquisitions leaves nothing outstanding. */
  lemma BalancedLeavesNothing(calls: seq<Call>)
    requires Released(calls) == Owned(calls)
    ensures Outstanding(calls) == 0
  {
  }

  // ---------------------------------------------------------------------
  // FFI memory
  // ---------------------------------------------------------------------

  /**
   * The contents of a zero-filled buffer of `size` bytes after `src` was
   * written at its start; the writer never goes past the end of the buffer.
   */
  function Fill(size: nat, src: seq<byte>): (buf: seq<byte>)
    ensures |buf| == size
    ensures forall i :: 0 <= i < size ==> buf[i] == if i < |src| then src[i] else 0
  {
    if size == 0 then []
    else if src == [] then [0] + Fill(size - 1, [])
    else [src[0]] + Fill(size - 1, src[1..])
  }

  /**
   * `Pointer#read_string` without a length: the bytes up to the first NUL,
   * or the whole buffer when it holds none.
   */
  function ReadString(buf: seq<byte>): (s: seq<byte>)
    ensures s <= buf
    ensures 0 !in s
    ensures |s| < |buf| ==> buf[|s|] == 0
  {
    if buf == [] || buf[0] == 0 then [] else [buf[0]] + ReadString(buf[1..])
  }

  /** Reading stops at the first NUL: what follows it is never read. */
  lemma {:induction false} ReadStringStopsAtNul(s: seq<byte>, rest: seq<byte>)
    requires 0 !in s
    ensures ReadString(s + [0] + rest) == s
  {
    if s != [] {
      assert (s + [0] + rest)[1..] == s[1..] + [0] + rest;
      ReadStringStopsAtNul(s[1..], rest);
    } else {
      assert (s + [0] + rest)[0] == 0;
    }
  }

  /** A NUL-terminated string written into a buffer large enough for it reads back unchanged. */
  lemma {:induction false} CStringRoundTrip(s: seq<byte>, size: nat)
    requires 0 !in s
    requires |s| < size
    ensures ReadString(Fill(size, s + [0])) == s
  {
    var buf := Fill(size, s + [0]);
    if s != [] {
      assert (s + [0])[1..] == s[1..] + [0];
      assert buf == [s[0]] + Fill(size - 1, s[1..] + [0]);
      assert buf[1..] == Fill(size - 1, s[1..] + [0]);
      CStringRoundTrip(s[1..], size - 1);
    }
  }
}
