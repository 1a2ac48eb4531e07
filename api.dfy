/**
 * The helpers of `CoreMIDI::API` that sit above the native bindings: packing
 * MIDI bytes, building a one-packet list, fetching a string property, and
 * creating a client or an output port.
 *
 * Each operation returns its Ruby result together with the trace of native
 * calls it issued (see module Native).
 */
module Api {
  import opened Wrappers
  import opened Native
  import Text
  import Layout

  // ---------------------------------------------------------------------
  // pack_midi_data
  // ---------------------------------------------------------------------

  /** `FFI.type_size(:char)`. */
  const CharSize: nat := 1

  /** `data.pack("C" * data.size)`: each integer as an unsigned 8-bit value, i.e. its low eight bits. */
  function Pack(data: seq<int>): (bytes: seq<byte>)
    ensures |bytes| == |data|
    ensures forall i :: 0 <= i < |data| ==> bytes[i] as int == data[i] % 256
  {
    if data == [] then [] else [(data[0] % 256) as byte] + Pack(data[1..])
  }

  /** The integers a byte string denotes, one per byte. */
  function Unpack(bytes: seq<byte>): seq<int> {
    if bytes == [] then [] else [bytes[0] as int] + Unpack(bytes[1..])
  }

  /** Packing loses nothing for integers that already are bytes. */
  lemma {:induction false} UnpackPack(data: seq<int>)
    requires forall i :: 0 <= i < |data| ==> 0 <= data[i] < 256
    ensures Unpack(Pack(data)) == data
  {
    if data != [] {
      var p := Pack(data);
      assert p[1..] == Pack(data[1..]);
      UnpackPack(data[1..]);
    }
  }

  /** Every byte string is what packing its own values gives. */
  lemma {:induction false} PackUnpack(bytes: seq<byte>)
    ensures Pack(Unpack(bytes)) == bytes
  {
    if bytes != [] {
      var u := Unpack(bytes);
      assert u[1..] == Unpack(bytes[1..]);
      PackUnpack(bytes[1..]);
    }
  }

  /** Copies `src` to the start of `buffer`, as `Pointer#write_string` and a native writer do. */
  method WriteBytes(buffer: array<byte>, src: seq<byte>)
    requires |src| <= buffer.Length
    modifies buffer
    ensures buffer[..] == src + old(buffer[|src|..])
  {
    for i := 0 to |src|
      invariant forall k :: 0 <= k < i ==> buffer[k] == src[k]
      invariant forall k :: i <= k < buffer.Length ==> buffer[k] == old(buffer[k])
    {
      buffer[i] := src[i];
    }
  }

  /** `pack_midi_data`: a fresh buffer of `data.size` chars holding the packed bytes. */
  method PackMidiData(data: seq<int>) returns (bytes: array<byte>)
    ensures fresh(bytes)
    ensures bytes.Length == CharSize * |data|
    ensures bytes[..] == Pack(data)
  {
    var packed := Pack(data);
    bytes := new byte[CharSize * |data|](_ => 0);
    WriteBytes(bytes, packed);
    assert bytes[..] == packed + [];
  }

  // ---------------------------------------------------------------------
  // create_midi_client and create_midi_output_port
  // ---------------------------------------------------------------------

  /** The client name: `"Client #{resource_id} #{name}"`. */
  function ClientName(resourceId: int, name: string): string {
    Text.Label("Client ", resourceId, " ", name)
  }

  /** The port name: `"Port #{resource_id}: #{name}"`. */
  function PortName(resourceId: int, name: string): string {
    Text.Label("Port ", resourceId, ": ", name)
  }

  /** A client name gives back the resource id and the name it was built from. */
  lemma {:induction false} ClientNameRoundTrip(resourceId: int, name: string)
    ensures Text.ParseLabel("Client ", " ", ClientName(resourceId, name)) == Some((resourceId, name))
  {
    Text.LabelRoundTrip("Client ", resourceId, " ", name);
  }

  /** A port name gives back the resource id and the name it was built from. */
  lemma {:induction false} PortNameRoundTrip(resourceId: int, name: string)
    ensures Text.ParseLabel("Port ", ": ", PortName(resourceId, name)) == Some((resourceId, name))
  {
    Text.LabelRoundTrip("Port ", resourceId, ": ", name);
  }

  /** The Hash `create_midi_client` returns. */
  datatype ClientResult = ClientResult(error: int, pointer: Ptr, resource: Ptr)

  /** The Hash `create_midi_output_port` returns: there is no `:resource` entry. */
  datatype PortResult = PortResult(error: int, pointer: Ptr)

  method CreateMidiClient(host: Host, resourceId: int, name: string) returns (r: ClientResult, calls: seq<Call>)
    ensures var handle := host.stringCreate(ClientName(resourceId, name));
      && calls == [StringCreate(ClientName(resourceId, name), MacRoman, handle),
                   AllocPointer(r.pointer),
                   ClientCreate(handle, r.pointer)]
      && r.error == host.clientCreate(handle).0
      && r.resource == host.clientCreate(handle).1
    ensures r.pointer == Memory(0)
  {
    var clientName := host.stringCreate(ClientName(resourceId, name));
    var clientPointer := Memory(0);
    var (error, written) := host.clientCreate(clientName);
    calls := [StringCreate(ClientName(resourceId, name), MacRoman, clientName),
              AllocPointer(clientPointer),
              ClientCreate(clientName, clientPointer)];
    var client := written;
    r := ClientResult(error, clientPointer, client);
  }

  method CreateMidiOutputPort(host: Host, client: Ptr, resourceId: int, name: string)
    returns (r: PortResult, calls: seq<Call>)
    ensures var handle := host.stringCreate(PortName(resourceId, name));
      && calls == [StringCreate(PortName(resourceId, name), MacRoman, handle),
                   AllocPointer(r.pointer),
                   OutputPortCreate(client, handle, r.pointer)]
      && r.error == host.outputPortCreate(client, handle).0
    ensures r.pointer == Memory(0)
  {
    var portName := host.stringCreate(PortName(resourceId, name));
    var portPointer := Memory(0);
    var (error, _) := host.outputPortCreate(client, portName);
    calls := [StringCreate(PortName(resourceId, name), MacRoman, portName),
              AllocPointer(portPointer),
              OutputPortCreate(client, portName, portPointer)];
    r := PortResult(error, portPointer);
  }

  // ---------------------------------------------------------------------
  // get_midi_packet_list
  // ---------------------------------------------------------------------

  /** The timestamp arguments of MIDIPacketListAdd: one zero on a 64-bit host, two zero 32-bit words otherwise. */
  function TimeArgs(x86_64: bool): seq<int> {
    if x86_64 then [0] else [0, 0]
  }

  /** How many parameters the MIDIPacketListAdd binding declares on each kind of host. */
  function AddArity(x86_64: bool): nat {
    if x86_64 then 6 else 7
  }

  /** How many arguments a MIDIPacketListAdd call passes. */
  function ArgumentCount(c: Call): nat
    requires c.PacketListAdd?
  {
    5 + |c.time|
  }

  /** The native calls `get_midi_packet_list(bytes, size)` issues. */
  function PacketListCalls(host: Host, x86_64: bool, bytes: Ptr, size: int): seq<Call> {
    var list := Memory(0);
    [AllocBytes(list, Layout.ListBufferSize),
     PacketListInit(list),
     PacketListAdd(list, Layout.ListBufferSize, host.packetListInit(list), TimeArgs(x86_64), size, bytes)]
  }

  method GetMidiPacketList(host: Host, x86_64: bool, bytes: Ptr, size: int) returns (list: Ptr, calls: seq<Call>)
    ensures calls == PacketListCalls(host, x86_64, bytes, size)
    ensures calls[0] == AllocBytes(list, Layout.ListBufferSize)
  {
    list := Memory(0);
    calls := [AllocBytes(list, Layout.ListBufferSize)];
    var packetPtr := host.packetListInit(list);
    calls := calls + [PacketListInit(list)];
    if x86_64 {
      calls := calls + [PacketListAdd(list, Layout.ListBufferSize, packetPtr, [0], size, bytes)];
    } else {
      // the 64-bit time passed as two 32-bit zeros
      calls := calls + [PacketListAdd(list, Layout.ListBufferSize, packetPtr, [0, 0], size, bytes)];
    }
  }

  function AddCount(calls: seq<Call>): nat {
    if calls == [] then 0 else (if calls[0].PacketListAdd? then 1 else 0) + AddCount(calls[1..])
  }

  /**
   * The list is allocated with 256 bytes and initialised; exactly one packet
   * is added to it, at the cursor the initialisation returned, into that
   * same 256-byte list, with `size` bytes from `bytes` and a zero timestamp.
   */
  lemma OnePacketAtTimeZero(host: Host, x86_64: bool, bytes: Ptr, size: int)
    ensures var calls := PacketListCalls(host, x86_64, bytes, size);
      && |calls| == 3 && AddCount(calls) == 1
      && calls[0].AllocBytes? && calls[0].size == 256
      && calls[1] == PacketListInit(calls[0].buffer)
      && calls[2].PacketListAdd?
      && calls[2].list == calls[0].buffer && calls[2].listSize == 256
      && calls[2].cursor == host.packetListInit(calls[0].buffer)
      && calls[2].nData == size && calls[2].data == bytes
      && forall k :: 0 <= k < |calls[2].time| ==> calls[2].time[k] == 0
  {
    var calls := PacketListCalls(host, x86_64, bytes, size);
    assert calls[1..][1..][1..] == [];
    assert AddCount(calls[1..][1..]) == 1;
    assert AddCount(calls[1..]) == 1;
  }

  /** The two calling conventions issue the same calls except for the timestamp arguments. */
  lemma ConventionsDifferOnlyInTime(host: Host, bytes: Ptr, size: int)
    ensures var wide := PacketListCalls(host, true, bytes, size);
      var narrow := PacketListCalls(host, false, bytes, size);
      && |wide| == |narrow| == 3
      && wide[..2] == narrow[..2]
      && wide[2].(time := []) == narrow[2].(time := [])
      && |wide[2].time| == 1 && |narrow[2].time| == 2
  {
  }

  /** On both kinds of host the call passes as many arguments as the binding declares. */
  lemma AddCallMatchesBinding(host: Host, x86_64: bool, bytes: Ptr, size: int)
    ensures ArgumentCount(PacketListCalls(host, x86_64, bytes, size)[2]) == AddArity(x86_64)
  {
  }

  // ---------------------------------------------------------------------
  // get_string
  // ---------------------------------------------------------------------

  /** The statements of `get_string` that can raise, in execution order. */
  datatype Step = CreateProperty | AllocOut | GetProperty | GetLength | MaxSize | AllocBuffer | GetCString

  function Rank(s: Step): nat {
    match s
    case CreateProperty => 0
    case AllocOut => 1
    case GetProperty => 2
    case GetLength => 3
    case MaxSize => 4
    case AllocBuffer => 5
    case GetCString => 6
  }

  /** Execution got past step `s`: nothing raised at or before it. */
  predicate Passed(fault: Option<Step>, s: Step) {
    fault.None? || Rank(s) < Rank(fault.value)
  }

  /** The string handle MIDIObjectGetStringProperty hands back for property `name` of `resource`. */
  function FetchedString(host: Host, resource: Ptr, name: string): Ptr {
    host.objectStringProperty(resource, host.stringCreate(name))
  }

  /** The size of the conversion buffer: the maximum UTF-8 size of the string's length, plus one. */
  function BufferSize(host: Host, str: Ptr): int {
    host.maxSizeForEncoding(host.stringLength(str)) + 1
  }

  /** What the conversion yields: `None` when CFStringGetCString reports failure, else the C string read from the buffer. */
  function Converted(host: Host, str: Ptr): (r: Option<seq<byte>>)
    requires BufferSize(host, str) >= 0
    ensures r.None? <==> host.stringGetCString(str, BufferSize(host, str)).None?
    ensures r.Some? ==> 0 !in r.value && |r.value| <= BufferSize(host, str)
  {
    var size := BufferSize(host, str);
    match host.stringGetCString(str, size)
    case None => None
    case Some(written) => Some(ReadString(Fill(size, written)))
  }

  /** When the conversion writes a NUL-terminated string that fits, that string is what comes back. */
  lemma {:induction false} ConvertedIsWrittenText(host: Host, str: Ptr, text: seq<byte>)
    requires 0 !in text && |text| < BufferSize(host, str)
    requires host.stringGetCString(str, BufferSize(host, str)) == Some(text + [0])
    ensures Converted(host, str) == Some(text)
  {
    CStringRoundTrip(text, BufferSize(host, str));
  }

  /**
   * Every native call the `begin` block of `get_string` makes when nothing
   * raises, in order: `str` is the fetched string and `size` the buffer size.
   */
  function BodyCalls(resource: Ptr, property: Ptr, str: Ptr, chars: int, size: int): (calls: seq<Call>)
    ensures |calls| == 6
  {
    [AllocPointer(Memory(0)),
     ObjectGetStringProperty(resource, property, Memory(0), str),
     StringGetLength(str),
     StringMaxSize(chars, UTF8),
     AllocBytes(Memory(1), size),
     StringGetCString(str, Memory(1), size, UTF8)]
  }

  /**
   * How many of those calls are made: the calls before the statement that
   * raises. A negative buffer size makes the allocation raise.
   */
  function Progress(fault: Option<Step>, size: int): (n: nat)
    ensures n <= 6
    ensures fault.None? && size >= 0 <==> n == 6
  {
    var reached := if fault.None? then 6 else if fault.value == CreateProperty then 0 else Rank(fault.value) - 1;
    if size < 0 && reached > 4 then 4 else reached
  }

  /** The trace of the `begin` block. */
  function BodyTrace(host: Host, resource: Ptr, property: Ptr, fault: Option<Step>): seq<Call> {
    var str := host.objectStringProperty(resource, property);
    var chars := host.stringLength(str);
    var size := host.maxSizeForEncoding(chars) + 1;
    BodyCalls(resource, property, str, chars, size)[..Progress(fault, size)]
  }

  /** The block acquires the fetched string once MIDIObjectGetStringProperty has run, and releases nothing. */
  lemma {:induction false} BodyLedger(host: Host, resource: Ptr, property: Ptr, fault: Option<Step>)
    requires fault != Some(CreateProperty)
    ensures Released(BodyTrace(host, resource, property, fault)) == multiset{}
    ensures Owned(BodyTrace(host, resource, property, fault)) ==
      if Passed(fault, GetProperty) then NonNull(host.objectStringProperty(resource, property)) else multiset{}
  {
    var str := host.objectStringProperty(resource, property);
    var chars := host.stringLength(str);
    var size := host.maxSizeForEncoding(chars) + 1;
    var all := BodyCalls(resource, property, str, chars, size);
    assert forall k :: 0 <= k < |all| ==> !all[k].Release?;
    assert forall k :: 0 <= k < |all| && k != 1 ==> !Acquires(all[k]);
    assert BodyTrace(host, resource, property, fault) == all[..Progress(fault, size)];
    assert OwnedBy(all[1]) == NonNull(str);
    assert Passed(fault, GetProperty) <==> 1 < Progress(fault, size);
    LedgerOfPrefix(all, 1, Progress(fault, size));
  }

  /**
   * The `begin` block of `get_string`, from allocating the out pointer to
   * reading the converted string, with `fault` naming the statement that
   * raises. `str` is the fetched string handle once
   * MIDIObjectGetStringProperty has run.
   */
  method FetchAndConvert(host: Host, resource: Ptr, property: Ptr, fault: Option<Step>)
    returns (r: Outcome<Option<seq<byte>>>, str: Option<Ptr>, calls: seq<Call>)
    requires fault != Some(CreateProperty)
    ensures calls == BodyTrace(host, resource, property, fault)
    ensures str.Some? <==> Passed(fault, GetProperty)
    ensures str.Some? ==> str.value == host.objectStringProperty(resource, property)
    ensures r.Returned? <==> fault.None? && BufferSize(host, host.objectStringProperty(resource, property)) >= 0
    ensures r.Returned? ==> r.value == Converted(host, host.objectStringProperty(resource, property))
  {
    ghost var all := BodyCalls(resource, property, host.objectStringProperty(resource, property),
      host.stringLength(host.objectStringProperty(resource, property)),
      BufferSize(host, host.objectStringProperty(resource, property)));
    r, str, calls := Raised, None, [];
    if fault == Some(AllocOut) { return; }
    var pointer := Memory(0);
    calls := calls + [AllocPointer(pointer)];
    if fault == Some(GetProperty) { return; }
    var written := host.objectStringProperty(resource, property);
    calls := calls + [ObjectGetStringProperty(resource, property, pointer, written)];
    str := Some(written);
    if fault == Some(GetLength) { return; }
    var chars := host.stringLength(written);
    calls := calls + [StringGetLength(written)];
    if fault == Some(MaxSize) { return; }
    var length := host.maxSizeForEncoding(chars);
    calls := calls + [StringMaxSize(chars, UTF8)];
    if fault == Some(AllocBuffer) || length + 1 < 0 { return; }
    var bytes := new byte[length + 1](_ => 0);
    calls := calls + [AllocBytes(Memory(1), length + 1)];
    if fault == Some(GetCString) { return; }
    var conversion := host.stringGetCString(written, length + 1);
    calls := calls + [StringGetCString(written, Memory(1), length + 1, UTF8)];
    assert calls == all;
    if conversion.Some? {
      CopyOut(bytes, conversion.value);
      r := Returned(Some(ReadString(bytes[..])));
    } else {
      r := Returned(None);
    }
  }

  /** The native conversion writing `written` into a zero-filled buffer, never past its end. */
  method CopyOut(bytes: array<byte>, written: seq<byte>)
    requires forall i :: 0 <= i < bytes.Length ==> bytes[i] == 0
    modifies bytes
    ensures bytes[..] == Fill(bytes.Length, written)
  {
    var stored := if |written| <= bytes.Length then written else written[..bytes.Length];
    WriteBytes(bytes, stored);
  }

  /**
   * Every native call `get_string(resource, name)` makes: creating the
   * property name, the `begin` block up to the statement that raises, and
   * the `ensure` clause.
   */
  function GetStringTrace(host: Host, resource: Ptr, name: string, fault: Option<Step>): seq<Call> {
    if fault == Some(CreateProperty) then []
    else
      var property := host.stringCreate(name);
      var str := if Passed(fault, GetProperty) then Some(host.objectStringProperty(resource, property)) else None;
      [StringCreate(name, MacRoman, property)] + BodyTrace(host, resource, property, fault) + EnsureCalls(str, property)
  }

  /**
   * `get_string(resource, name)`, where `fault` names the statement that
   * raises (none when it is `None`). A negative buffer size also makes the
   * allocation raise.
   */
  method GetString(host: Host, resource: Ptr, name: string, fault: Option<Step>)
    returns (r: Outcome<Option<seq<byte>>>, calls: seq<Call>)
    ensures calls == GetStringTrace(host, resource, name, fault)
    ensures r.Returned? <==> fault.None? && BufferSize(host, FetchedString(host, resource, name)) >= 0
    ensures r.Returned? ==> r.value == Converted(host, FetchedString(host, resource, name))
  {
    if fault == Some(CreateProperty) {
      return Raised, [];
    }
    var property := host.stringCreate(name);
    calls := [StringCreate(name, MacRoman, property)];
    var str, body;
    r, str, body := FetchAndConvert(host, resource, property, fault);
    calls := calls + body;
    // the ensure clause
    if str.Some? && str.value != Null {
      calls := calls + [Release(str.value)];
    }
    if property != Null {
      calls := calls + [Release(property)];
    }
  }

  /**
   * What `get_string` acquires before raising at `fault`: the property name
   * once it was created, and the fetched string once
   * MIDIObjectGetStringProperty has run.
   */
  function Acquired(host: Host, resource: Ptr, name: string, fault: Option<Step>): multiset<Ptr> {
    (if Passed(fault, CreateProperty) then NonNull(host.stringCreate(name)) else multiset{}) +
    (if Passed(fault, GetProperty) then NonNull(FetchedString(host, resource, name)) else multiset{})
  }

  /** What `get_string` acquires, whatever raises: the property name once created, the fetched string once fetched. */
  lemma {:induction false} GetStringAcquires(host: Host, resource: Ptr, name: string, fault: Option<Step>)
    ensures Owned(GetStringTrace(host, resource, name, fault)) == Acquired(host, resource, name, fault)
  {
    if fault != Some(CreateProperty) {
      var property := host.stringCreate(name);
      var str := if Passed(fault, GetProperty) then Some(host.objectStringProperty(resource, property)) else None;
      var before := [StringCreate(name, MacRoman, property)] + BodyTrace(host, resource, property, fault);
      var after := EnsureCalls(str, property);
      var acquired := NonNull(property) + (if str.Some? then NonNull(str.value) else multiset{});
      assert Owned(before) == acquired by { LedgerBeforeEnsure(host, resource, name, fault); }
      assert Owned(after) == multiset{} by { EnsureLedger(str, property); }
      assert Owned(before + after) == acquired by { LedgerOfConcat(before, after); }
      assert GetStringTrace(host, resource, name, fault) == before + after;
    } else {
      assert GetStringTrace(host, resource, name, fault) == [];
    }
  }

  /** Whatever raises, the `ensure` clause of `get_string` releases exactly what it acquired. */
  lemma {:induction false} GetStringReleases(host: Host, resource: Ptr, name: string, fault: Option<Step>)
    ensures Released(GetStringTrace(host, resource, name, fault)) == Acquired(host, resource, name, fault)
  {
    if fault != Some(CreateProperty) {
      var property := host.stringCreate(name);
      var str := if Passed(fault, GetProperty) then Some(host.objectStringProperty(resource, property)) else None;
      var before := [StringCreate(name, MacRoman, property)] + BodyTrace(host, resource, property, fault);
      var after := EnsureCalls(str, property);
      var acquired := NonNull(property) + (if str.Some? then NonNull(str.value) else multiset{});
      assert Released(before) == multiset{} by { LedgerBeforeEnsure(host, resource, name, fault); }
      assert Released(after) == acquired by { EnsureLedger(str, property); }
      assert Released(before + after) == acquired by { LedgerOfConcat(before, after); }
      assert GetStringTrace(host, resource, name, fault) == before + after;
    } else {
      assert GetStringTrace(host, resource, name, fault) == [];
    }
  }

  /** Hence `get_string` leaves no CoreFoundation reference outstanding. */
  lemma {:induction false} GetStringBalanced(host: Host, resource: Ptr, name: string, fault: Option<Step>)
    ensures Released(GetStringTrace(host, resource, name, fault)) == Owned(GetStringTrace(host, resource, name, fault))
    ensures Outstanding(GetStringTrace(host, resource, name, fault)) == 0
  {
    GetStringAcquires(host, resource, name, fault);
    GetStringReleases(host, resource, name, fault);
    BalancedLeavesNothing(GetStringTrace(host, resource, name, fault));
  }

  /** Up to the `ensure` clause, `get_string` has acquired the property name and, past the fetch, the string. */
  lemma {:induction false} LedgerBeforeEnsure(host: Host, resource: Ptr, name: string, fault: Option<Step>)
    requires fault != Some(CreateProperty)
    ensures var property := host.stringCreate(name);
      var before := [StringCreate(name, MacRoman, property)] + BodyTrace(host, resource, property, fault);
      && Released(before) == multiset{}
      && Owned(before) == NonNull(property) +
        (if Passed(fault, GetProperty) then NonNull(host.objectStringProperty(resource, property)) else multiset{})
  {
    var property := host.stringCreate(name);
    var first := [StringCreate(name, MacRoman, property)];
    assert Owned(first) == NonNull(property) && Released(first) == multiset{} by {
      assert first == Log([], first[0]);
    }
    BodyLedger(host, resource, property, fault);
    LedgerOfConcat(first, BodyTrace(host, resource, property, fault));
  }

  /**
   * When `get_string` returns, it converted into a buffer of the maximum
   * UTF-8 size of the string's length plus one byte, and told
   * CFStringGetCString that size.
   */
  lemma {:induction false} GetStringBufferSize(host: Host, resource: Ptr, name: string)
    requires BufferSize(host, FetchedString(host, resource, name)) >= 0
    ensures var calls := GetStringTrace(host, resource, name, None);
      var s := FetchedString(host, resource, name);
      && |calls| >= 7
      && calls[5] == AllocBytes(Memory(1), BufferSize(host, s))
      && calls[6] == StringGetCString(s, Memory(1), BufferSize(host, s), UTF8)
  {
    var property := host.stringCreate(name);
    var s := FetchedString(host, resource, name);
    var all := BodyCalls(resource, property, s, host.stringLength(s), BufferSize(host, s));
    assert BodyTrace(host, resource, property, None) == all[..6] == all;
  }

  /** The calls of the `ensure` clause: the fetched string is released if there is one, then the property name. */
  function EnsureCalls(str: Option<Ptr>, property: Ptr): seq<Call> {
    (if str.Some? && str.value != Null then [Release(str.value)] else []) +
    (if property != Null then [Release(property)] else [])
  }

  /** Releasing one handle when it is present and not null. */
  lemma ReleaseIfPresent(p: Ptr, present: bool)
    ensures var calls := if present && p != Null then [Release(p)] else [];
      Owned(calls) == multiset{} && Released(calls) == if present then NonNull(p) else multiset{}
  {
    if present && p != Null {
      assert [Release(p)] == Log([], Release(p));
    }
  }

  /** The `ensure` clause releases exactly the handles it was given that are not null. */
  lemma {:induction false} EnsureLedger(str: Option<Ptr>, property: Ptr)
    ensures Owned(EnsureCalls(str, property)) == multiset{}
    ensures Released(EnsureCalls(str, property)) ==
      NonNull(property) + (if str.Some? then NonNull(str.value) else multiset{})
  {
    var fetched := if str.Some? then str.value else Null;
    var first := if str.Some? && fetched != Null then [Release(fetched)] else [];
    var second := if property != Null then [Release(property)] else [];
    ReleaseIfPresent(fetched, str.Some?);
    ReleaseIfPresent(property, true);
    assert EnsureCalls(str, property) == first + second;
    LedgerOfConcat(first, second);
    SumCommutes(Released(first), Released(second));
  }
}
