# ffi-coremidi: the Ruby layer above the CoreMIDI bindings

This Dafny project models the Ruby code of `CoreMIDI::API` and
`CoreMIDI::Endpoint` that sits on top of the foreign-function bindings to
CoreMIDI and CoreFoundation. The model covers:

- packing MIDI bytes;
- building a one-packet `MIDIPacketList`;
- fetching a string property with its `ensure` clause;
- creating clients and output ports;
- the layout of the packet structures;
- the endpoint object: its construction, its write-once id, its property
  reads and `enable_client`;
- finding endpoints across a list of devices.

Native functions are not computed. Each one is a field of `Native.Host`, an
uninterpreted function whose answers the model takes as given. Each operation
that reaches the native side returns its Ruby result together with the
*trace* of native calls it issued, in order and with their arguments.
Properties about what is asked of CoreMIDI, and about what is released, are
stated over that trace.

CoreFoundation references follow a *ledger*. `Native.Owned` is the multiset of
references a trace acquires: created strings, and strings copied out by
MIDIObjectGetStringProperty. `Native.Released` is the multiset a trace releases
through `CFRelease`. `Native.Outstanding` is the difference in size between
the two.

Modules:

- `Wrappers`: `Option`, and `Outcome`, which records whether a Ruby call
  returned or raised.
- `Text`: `Integer#to_s`, the labels built by interpolation,
  `String#split("::")` and ASCII `downcase`.
- `Native`: the oracles, the call trace, the reference ledger, and FFI memory
  (a zero-filled buffer and `read_string`).
- `Layout`: the FFI struct layout of `MIDIPacket` and `MIDIPacketList`.
- `Api`: `pack_midi_data`, `create_midi_client`, `create_midi_output_port`,
  `get_midi_packet_list` and `get_string`.
- `Endpoints`: the `Endpoint` class, `get_property` and its readers, and
  `all_by_type`, `first` and `last` over a sequence of devices.

Operations that update state in place are imperative:

- `pack_midi_data` fills a fresh `array<byte>`.
- `get_string` copies the conversion into an array.
- `Endpoint` is a class. Its constructor sets the fields, `SetId` is `id=`,
  and `EnableClient` sets `@client`.

Things the code does that the model states as written:

- `get_string` in `api.rb` raises at whichever statement `fault` names. The
  model also takes a negative buffer size to raise at the allocation (an
  assumption about `FFI::MemoryPointer`, listed under "Left out"). On every
  one of these paths the `ensure` clause releases exactly what was acquired,
  so nothing is left outstanding.
- The endpoint's own `get_string` creates two CFStrings from the property
  name: the property identifier and a "placeholder" used as the out-pointer.
  It releases nothing.
- `create_midi_client`, `create_midi_output_port` and `enable_client` never
  release the label string they create.
- `create_midi_client` names the client `"Client <id> <name>"`, but
  `enable_client` names it `"Client <id>: <name>"`.
- The list buffer of `get_midi_packet_list` is 256 bytes, but a
  `MIDIPacketList` is 272 bytes. Only 242 payload bytes lie inside the
  buffer.

## Model

| member | source | states |
|---|---|---|
| `Api.Pack` | lib/coremidi/api.rb:52-53 | format `"C"` per element: one byte per integer, the i-th byte being `data[i]` modulo 256 |
| `Api.UnpackPack` | lib/coremidi/api.rb:52-53 | packing integers that are already bytes loses nothing: unpacking gives the input back |
| `Api.PackUnpack` | lib/coremidi/api.rb:52-53 | every byte string is the packing of its own values |
| `Api.WriteBytes` | lib/coremidi/api.rb:56 | `write_string` puts the bytes at the start of the buffer and leaves the rest of it unchanged |
| `Api.PackMidiData` | lib/coremidi/api.rb:51-58 | returns a fresh buffer of `FFI.type_size(:char) * data.size` bytes (Ruby's `char_size`) holding exactly the packed data |
| `Api.ClientNameRoundTrip` | lib/coremidi/api.rb:61 | the client name `"Client <id> <name>"` determines the resource id and the name |
| `Api.PortNameRoundTrip` | lib/coremidi/api.rb:73 | the port name `"Port <id>: <name>"` determines the resource id and the name |
| `Api.CreateMidiClient` | lib/coremidi/api.rb:60-70 | creates the name string, allocates the out-pointer, and calls MIDIClientCreate with both; the result holds the status, the out-pointer, and the handle read from it |
| `Api.CreateMidiOutputPort` | lib/coremidi/api.rb:72-80 | the same steps with MIDIOutputPortCreate on the given client; the result holds only the status and the out-pointer |
| `Api.GetMidiPacketList` | lib/coremidi/api.rb:83-93 | issues the calls of the packet-list specification, and the list it returns is the 256-byte buffer it allocated first |
| `Api.OnePacketAtTimeZero` | lib/coremidi/api.rb:84-92 | allocates 256 bytes, initialises that list, then makes exactly one add call: to the same list, with size 256, at the cursor returned by the initialisation, with `size` bytes from `bytes` and all time arguments zero |
| `Api.ConventionsDifferOnlyInTime` | lib/coremidi/api.rb:86-91 | the two branches issue the same calls except for the time: one zero on a 64-bit host, two zeros otherwise |
| `Api.AddCallMatchesBinding` | lib/coremidi/api.rb:177-184 | the add call passes as many arguments as the binding for that kind of host declares (6 or 7) |
| `Api.Converted` | lib/coremidi/api.rb:106-110 | `nil` exactly when CFStringGetCString reports failure; otherwise a NUL-free string no longer than the buffer |
| `Api.ConvertedIsWrittenText` | lib/coremidi/api.rb:106-109 | a NUL-terminated string that fits in the buffer is read back unchanged |
| `Api.BodyLedger` | lib/coremidi/api.rb:101-110 | the `begin` block releases nothing, and it acquires the fetched string exactly when MIDIObjectGetStringProperty ran |
| `Api.FetchAndConvert` | lib/coremidi/api.rb:100-110 | the `begin` block issues the calls up to the statement that raises; it has a fetched string exactly when the fetch ran, and it returns the conversion result exactly when nothing raised |
| `Api.CopyOut` | lib/coremidi/api.rb:106-108 | CFStringGetCString writes into the zero-filled buffer and never past its end |
| `Api.GetString` | lib/coremidi/api.rb:98-115 | the whole trace is the property creation, then the block, then the `ensure` releases; it returns exactly when no statement raises and the buffer size is non-negative, and it then returns the conversion of the fetched string |
| `Api.LedgerBeforeEnsure` | lib/coremidi/api.rb:99-110 | before the `ensure` clause, the property name has been acquired, and the fetched string too once it was fetched |
| `Api.EnsureLedger` | lib/coremidi/api.rb:111-114 | the `ensure` clause releases the fetched string when it is present and not null, then the property name when it is not null, and acquires nothing |
| `Api.GetStringAcquires` | lib/coremidi/api.rb:99-102 | on every path, what `get_string` acquires is the property name once created plus the fetched string once fetched |
| `Api.GetStringReleases` | lib/coremidi/api.rb:111-114 | on every path, including every exception, what `get_string` releases is exactly what it acquired |
| `Api.GetStringBalanced` | lib/coremidi/api.rb:98-115 | released equals acquired, so no reference is outstanding whatever raises |
| `Api.GetStringBufferSize` | lib/coremidi/api.rb:104-108 | on the returning path, the buffer is allocated with the maximum UTF-8 size of the string's length plus one, and that same size goes to CFStringGetCString |
| `Layout.Alignment` | lib/coremidi/api.rb:35-48 | a struct's alignment is at least 1 and at least that of every member |
| `Layout.AlignmentOfSomeMember` | lib/coremidi/api.rb:35-48 | a struct's alignment is 1 or the alignment of one of its members, so with the bound above it is the largest member alignment |
| `Layout.OffsetAligned` | lib/coremidi/api.rb:35-48 | every member starts at a multiple of its own alignment |
| `Layout.MembersDisjoint` | lib/coremidi/api.rb:35-48 | members are laid out in declaration order without overlapping |
| `Layout.MemberInside` | lib/coremidi/api.rb:35-48 | every member lies inside the struct's size |
| `Layout.PacketLayout` | lib/coremidi/api.rb:35-42 | `MIDIPacket` has timestamp at 0, the reserved word at 4, length at 8 and data at 10; its alignment is 4 and its size 268 |
| `Layout.PacketListLayout` | lib/coremidi/api.rb:44-48 | `MIDIPacketList` has the count at 0 and the one packet at 4; its size is 272 |
| `Layout.LengthCoversPayload` | lib/coremidi/api.rb:39-40 | the 16-bit length member holds every payload length up to 256 |
| `Layout.ListBufferRoom` | lib/coremidi/api.rb:44-48 | the 256-byte list buffer is smaller than a packet list; the payload starts 14 bytes in, so 242 payload bytes fit |
| `Text.NatDigitsRoundTrip` | lib/coremidi/api.rb:61 | the decimal digits of a natural number read back as that number |
| `Text.DecimalRoundTrip` | lib/coremidi/api.rb:61 | `Integer#to_s` of any integer, negative ones included, parses back to that integer |
| `Text.LabelRoundTrip` | lib/coremidi/api.rb:61 | a label `prefix + id + separator + name` gives back the id and the name, when the separator cannot start a numeral |
| `Text.LabelInjective` | lib/coremidi/api.rb:73 | two equal labels with the same prefix and separator have the same id and the same name |
| `Text.IndexOf` | lib/coremidi/endpoint.rb:26 | the position found is an occurrence of the separator, and no occurrence comes before it |
| `Text.SplitJoin` | lib/coremidi/endpoint.rb:26 | `split` loses nothing: joining the fields with the separator gives back the string |
| `Text.JoinSplit` | lib/coremidi/endpoint.rb:26 | splitting names joined by the separator gives back the names, when none of them holds the separator's first character |
| `Text.DropTrailingEmpty` | lib/coremidi/endpoint.rb:26 | Ruby's `split` result is a prefix of the fields, ends in a non-empty field, and drops only empty fields |
| `Text.Downcase` | lib/coremidi/endpoint.rb:26 | `downcase` keeps the length and lowers each ASCII letter |
| `Native.ReadString` | lib/coremidi/api.rb:109 | `read_string` gives the bytes before the first NUL: a prefix of the buffer, free of NUL, ending at a NUL or at the buffer's end |
| `Native.Fill` | lib/coremidi/api.rb:106-108 | a zero-filled buffer of the given size with the written bytes at its start |
| `Native.CStringRoundTrip` | lib/coremidi/api.rb:106-109 | a NUL-terminated string written into a buffer large enough for it reads back unchanged |
| `Native.ReadStringStopsAtNul` | lib/coremidi/endpoint.rb:85 | reading stops at the first NUL, whatever follows it |
| `Native.LedgerOfConcat` | lib/coremidi/api.rb:98-115 | the references a trace acquires and releases are the sums over its parts |
| `Native.BalancedLeavesNothing` | lib/coremidi/api.rb:111-114 | a trace that releases what it acquires leaves nothing outstanding; `Api.GetStringBalanced` concludes through it |
| `Endpoints.StringOf` | lib/coremidi/endpoint.rb:85 | `read_string` builds a String of one character per byte |
| `Endpoints.GetString` | lib/coremidi/endpoint.rb:81-86 | never an Integer; `nil` exactly when the placeholder is NULL or the C-string pointer is NULL, the failed read being rescued; otherwise the characters of the C string up to its first NUL or its end |
| `Endpoints.GetInt` | lib/coremidi/endpoint.rb:89-94 | creates the property name, allocates a buffer of 32 pointers, fetches the Integer property of `from` into that buffer, and yields the Integer read from it |
| `Endpoints.GetProperty` | lib/coremidi/endpoint.rb:97-105 | an Integer exactly for `:int`; no native call and `nil` exactly for a type other than `:string` and `:int`; otherwise the property name is created first and the property is fetched from `:from` when given, else from the entity, with the Integer fetch exactly for `:int` |
| `Endpoints.GetStringReadsCString` | lib/coremidi/endpoint.rb:85 | a NUL-terminated C string comes back as exactly its characters before the NUL |
| `Endpoints.GetStringReleasesNothing` | lib/coremidi/endpoint.rb:81-86 | both CFStrings are created from the name first, and no call releases anything |
| `Endpoints.GetPropertyDispatch` | lib/coremidi/endpoint.rb:97-105 | reads from the entity unless `:from` is given; a String by default, an Integer for `:int`, and `nil` with no native call for any other type |
| `Endpoints.DisplayNameSplits` | lib/coremidi/endpoint.rb:32 | the name is the manufacturer, one space, then the model: the first space separates them when the manufacturer has none |
| `Endpoints.NameOfAbsentMetadata` | lib/coremidi/endpoint.rb:32 | `nil` renders as the empty string, so absent metadata gives a name of one space |
| `Endpoints.TypeTag` | lib/coremidi/endpoint.rb:26 | `nil` exactly when every `::`-field of the class name is empty; otherwise the last non-empty field, downcased: non-empty and with no upper-case ASCII letter |
| `Endpoints.TypeTagOfNestedClass` | lib/coremidi/endpoint.rb:26 | the type of a class nested in modules is its own name, downcased |
| `Endpoints.OutputTag` | lib/coremidi/endpoint.rb:26 | `CoreMIDI::Output` gives the type `output` |
| `Endpoints.ConstructionReadsInOrder` | lib/coremidi/endpoint.rb:28-34 | construction reads the manufacturer, then the model, then the Integer `offline`, each from the entity |
| `Endpoints.ConnectOnlyWhenOnline` | lib/coremidi/endpoint.rb:34 | `connect?` is asked exactly when `offline` is 0, because `&&` short-circuits, and it is then the last step |
| `Endpoints.OrAssign` | lib/coremidi/endpoint.rb:41 | `@id ||= val` keeps the first of the current id and `val` that is not `nil` |
| `Endpoints.FirstSet` | lib/coremidi/endpoint.rb:40-42 | the first value that is not `nil`: one exists exactly when some value is set, and it is set at an index before which every value is `nil` |
| `Endpoints.IdIsWriteOnce` | lib/coremidi/endpoint.rb:40-42 | after any series of `id=` calls, a set id is unchanged and an unset one holds the first value that is not `nil` |
| `Endpoints.ClientLabelRoundTrip` | lib/coremidi/endpoint.rb:71 | the label `"Client <id>: <name>"` determines the endpoint id and the name |
| `Endpoints.Endpoint.constructor` | lib/coremidi/endpoint.rb:21-37 | sets the id and the entity; the type from the class name; the manufacturer and model from the entity; the name from both; online from `offline` and `connect?`; not enabled; no id and no client yet |
| `Endpoints.Endpoint.SetId` | lib/coremidi/endpoint.rb:40-42 | `@id ||= val`: the id changes only when it was unset |
| `Endpoints.Endpoint.EnableClient` | lib/coremidi/endpoint.rb:70-76 | creates the label string, allocates the out-pointer and calls MIDIClientCreate; stores the handle read back, returns the status, and leaves `enabled` unchanged |
| `Endpoints.AllByType` | lib/coremidi/endpoint.rb:55-60 | the Hash has exactly the keys `input` and `output`, holding the flattened input and output lists |
| `Endpoints.Collect` | lib/coremidi/endpoint.rb:57-58 | the flattened list of one type has as many endpoints as the devices have of that type, summed |
| `Endpoints.CollectAppend` | lib/coremidi/endpoint.rb:55-60 | the list over two groups of devices is the two lists, one after the other |
| `Endpoints.CollectAt` | lib/coremidi/endpoint.rb:55-60 | a device's j-th endpoint comes right after all the endpoints of the devices before it, so device order and per-device order are kept |
| `Endpoints.First` | lib/coremidi/endpoint.rb:45-47 | raises exactly for a type other than `:input` and `:output`; otherwise the first endpoint of the first device that has one, `nil` when none has |
| `Endpoints.Last` | lib/coremidi/endpoint.rb:50-52 | raises exactly for a type other than `:input` and `:output`; otherwise the last endpoint of the last device that has one, `nil` when none has |
| `Endpoints.FirstOfCollect` | lib/coremidi/endpoint.rb:45-47 | the first endpoint of the first device that has one is the head of the flattened list |
| `Endpoints.LastOfCollect` | lib/coremidi/endpoint.rb:50-52 | the last endpoint of the last device that has one is the end of the flattened list |
| `Endpoints.FirstIsFirstEndpoint` | lib/coremidi/endpoint.rb:45-47 | `first(:input)` and `first(:output)` give that first endpoint, or `nil` |
| `Endpoints.LastIsLastEndpoint` | lib/coremidi/endpoint.rb:50-52 | `last(:input)` and `last(:output)` give that last endpoint, or `nil` |
| `Endpoints.NoneExactlyWhenEmpty` | lib/coremidi/endpoint.rb:45-52 | `first` and `last` give `nil` exactly when no device has an endpoint of that type |
| `Endpoints.UnknownTypeRaises` | lib/coremidi/endpoint.rb:45-52 | any other type raises, since `nil.first` and `nil.last` raise |

## Left out

- `X86_64` (lib/coremidi/api.rb:10) runs `uname`. It is the boolean parameter `x86_64`.
- The `attach_function` bindings and the `CF` and `HostTime` modules are not modelled. Their functions appear only as oracle fields of `Native.Host`, and as the calls recorded in a trace.
- `MIDISysexSendRequest` is declared but never used by the modelled code.
- `get_int` is modelled only as a trace: the property name, the 32-pointer buffer and MIDIObjectGetIntegerProperty. Its value is the oracle `objectIntegerProperty`, which stands for `read_int` of the filled buffer.
- `Endpoint.all` is not modelled. It flattens per-device Hashes, and `Device` is not part of this model.
- `connect?` is a boolean parameter of the constructor. `Device.all` is a `seq<Device>`, and each device is given with both an input list and an output list.
- Errors raised by native calls in `create_midi_client`, `create_midi_output_port`, `get_midi_packet_list` and the endpoint's code are not modelled. In `get_string` of `api.rb` they are modelled, through `fault`.
- `stringCreate` is a function of the text. So the endpoint's property name and placeholder, both created from the same name, get the same handle in the model. Two distinct allocations are not told apart.
- Encodings: `force_encoding("utf-8")` only tags the bytes, so the model returns them unchanged. `downcase` lowers ASCII letters only.
- `Endpoints.Endpoint.SetId`: the id is `Option<int>`, so a `false` value (which `||=` also overwrites) is not modelled.
- `Endpoints.Endpoint.constructor`: requires a class name whose last `::` segment exists. Ruby raises on such a name (`nil.downcase`), and the model does not give that path.
- `Api.GetMidiPacketList`: what MIDIPacketListAdd does with a payload that does not fit is not modelled. Its return value is ignored by the code, and the model records only the call.
- Labels are strings in the model. The MacRoman conversion of the label by CFStringCreateWithCString is part of the oracle.
- `Map`, through which `endpoint.rb` reaches MIDIClientCreate, MIDIObjectGetStringProperty, MIDIObjectGetIntegerProperty and the CoreFoundation string functions, is not defined in the modelled files. The model takes it to be the same native bindings as `CoreMIDI::API`, the `Native.Host` oracles. If `Map` did not resolve, the calls outside the `rescue nil` would raise a NameError out of `initialize`; that path is not modelled.
- `Endpoints.Endpoint.constructor`: `connect?` is taken to be a plain boolean answer with no side effects. In particular it is assumed not to call `enable_client`, which would set `@client` (the constructor promises no client), and not to touch `@id`.
- `Api.PackMidiData`: the data is a sequence of integers. `Array#pack("C")` also truncates Float elements and raises a TypeError for `nil` or String elements; those inputs and that error path are not modelled.
- `Api.GetString`: that a negative buffer size (`max size + 1 < 0`) makes `FFI::MemoryPointer.new` raise is an assumption about FFI, which is not part of this model; the modelled code does not check it.
