/**
 * `CoreMIDI::Endpoint`: the metadata an endpoint reads when it is built, its
 * write-once id, the client it enables, and discovery of endpoints over a
 * list of devices.
 */
module Endpoints {
  import opened Wrappers
  import opened Native
  import Text

  // ---------------------------------------------------------------------
  // Property values and get_property
  // ---------------------------------------------------------------------

  /** A property value as Ruby holds it: `nil`, a String or an Integer. */
  datatype Value = Nil | Str(s: string) | Int(n: int)

  /** The name of a Symbol other than `:string` and `:int`. */
  type OtherSymbol = s: string | s != "string" && s != "int" witness "float"

  /** The `:type` option of `get_property`, a Symbol. */
  datatype Kind = StringKind | IntKind | OtherKind(symbol: OtherSymbol)

  /** A property value together with the native calls that produced it. */
  datatype Reply = Reply(value: Value, calls: seq<Call>)

  /** The Ruby String `read_string` builds from raw bytes: one character per byte. */
  function StringOf(bytes: seq<byte>): (s: string)
    ensures |s| == |bytes|
    ensures forall i :: 0 <= i < |bytes| ==> s[i] as int == bytes[i] as int
  {
    seq(|bytes|, i requires 0 <= i < |bytes| => bytes[i] as int as char)
  }

  /**
   * `get_string(name, from)`. The property name and a placeholder are both
   * created as CFStrings from `name`; the property is fetched into the
   * placeholder, and the C string behind the handle it then holds is read.
   * Reading through a NULL placeholder or a NULL C-string pointer raises,
   * which `rescue nil` turns into `nil`. Nothing is released.
   */
  function GetString(host: Host, name: string, from: Ptr): (r: Reply)
    ensures var prop := host.stringCreate(name);
      var placeholder := host.stringCreate(name);
      var text := host.stringGetCStringPtr(host.objectStringProperty(from, prop), MacRoman);
      && !r.value.Int?
      && (r.value.Nil? <==> placeholder == Null || text.None?)
      && (r.value.Str? ==>
            && |r.value.s| <= |text.value|
            && (forall i :: 0 <= i < |r.value.s| ==> r.value.s[i] != 0 as char)
            && (forall i :: 0 <= i < |r.value.s| ==> r.value.s[i] as int == text.value[i] as int)
            && (|r.value.s| < |text.value| ==> text.value[|r.value.s|] == 0))
  {
    var prop := host.stringCreate(name);
    var placeholder := host.stringCreate(name);
    var written := if placeholder != Null then host.objectStringProperty(from, prop) else Null;
    var fetch := [StringCreate(name, MacRoman, prop),
                  StringCreate(name, MacRoman, placeholder),
                  ObjectGetStringProperty(from, prop, placeholder, written)];
    if placeholder == Null then
      Reply(Nil, fetch)
    else
      var text := host.stringGetCStringPtr(written, MacRoman);
      var calls := fetch + [StringGetCStringPtr(written, MacRoman)];
      match text
      case None => Reply(Nil, calls)
      case Some(bytes) => Reply(Str(StringOf(ReadString(bytes))), calls)
  }

  /** A NUL-terminated C string comes back as exactly the characters before the NUL. */
  lemma {:induction false} GetStringReadsCString(host: Host, name: string, from: Ptr, text: seq<byte>, rest: seq<byte>)
    requires host.stringCreate(name) != Null
    requires host.stringGetCStringPtr(host.objectStringProperty(from, host.stringCreate(name)), MacRoman) == Some(text + [0] + rest)
    requires 0 !in text
    ensures GetString(host, name, from).value == Str(StringOf(text))
  {
    ReadStringStopsAtNul(text, rest);
  }

  /**
   * The endpoint's `get_string` releases nothing: the property name, the
   * placeholder and the fetched string all stay outstanding.
   */
  lemma GetStringReleasesNothing(host: Host, name: string, from: Ptr)
    ensures forall c | c in GetString(host, name, from).calls :: !c.Release?
    ensures GetString(host, name, from).calls[..2] ==
      [StringCreate(name, MacRoman, host.stringCreate(name)), StringCreate(name, MacRoman, host.stringCreate(name))]
  {
  }

  /** The number of pointers `get_int` allocates for the property value. */
  const IntBufferPointers: nat := 32

  /** `get_int(name, from)`: the Integer `read_int` yields once the property was fetched into the buffer. */
  function GetInt(host: Host, name: string, from: Ptr): (r: Reply)
    ensures |r.calls| == 3 && r.calls[2].ObjectGetIntegerProperty?
    ensures r.calls[0] == StringCreate(name, MacRoman, r.calls[2].property)
    ensures r.calls[1] == AllocPointers(r.calls[2].out, IntBufferPointers)
    ensures r.calls[2].obj == from
    ensures r.value == Int(host.objectIntegerProperty(from, r.calls[2].property))
  {
    var prop := host.stringCreate(name);
    var buffer := Memory(0);
    Reply(Int(host.objectIntegerProperty(from, prop)),
          [StringCreate(name, MacRoman, prop),
           AllocPointers(buffer, IntBufferPointers),
           ObjectGetIntegerProperty(from, prop, buffer)])
  }

  /** `get_property(name, :from => from, :type => kind)`, where `None` is an absent option. */
  function GetProperty(host: Host, entity: Ptr, name: string, from: Option<Ptr>, kind: Option<Kind>): (r: Reply)
    ensures r.value.Int? <==> kind == Some(IntKind)
    ensures r.calls == [] <==> kind.Some? && kind.value.OtherKind?
    ensures kind.Some? && kind.value.OtherKind? ==> r.value == Nil
    ensures r.calls != [] ==>
      && |r.calls| >= 3
      && r.calls[0] == StringCreate(name, MacRoman, host.stringCreate(name))
      && (r.calls[2].ObjectGetStringProperty? || r.calls[2].ObjectGetIntegerProperty?)
      && r.calls[2].obj == (if from.Some? then from.value else entity)
      && (r.calls[2].ObjectGetIntegerProperty? <==> kind == Some(IntKind))
  {
    var source := if from.Some? then from.value else entity;
    var k := if kind.Some? then kind.value else StringKind;
    match k
    case StringKind => GetString(host, name, source)
    case IntKind => GetInt(host, name, source)
    case OtherKind(_) => Reply(Nil, [])
  }

  /**
   * `get_property` reads from the entity unless `:from` is given, reads a
   * String unless `:type` says otherwise, reads an Integer for `:int`, and
   * gives `nil` without any native call for any other type.
   */
  lemma GetPropertyDispatch(host: Host, entity: Ptr, name: string, from: Ptr, symbol: OtherSymbol)
    ensures GetProperty(host, entity, name, None, None) == GetString(host, name, entity)
    ensures GetProperty(host, entity, name, Some(from), None) == GetString(host, name, from)
    ensures GetProperty(host, entity, name, None, Some(IntKind)) == GetInt(host, name, entity)
    ensures GetProperty(host, entity, name, Some(from), Some(IntKind)) == GetInt(host, name, from)
    ensures GetProperty(host, entity, name, None, Some(OtherKind(symbol))) == Reply(Nil, [])
    ensures GetProperty(host, entity, name, Some(from), Some(OtherKind(symbol))) == Reply(Nil, [])
  {
  }

  // ---------------------------------------------------------------------
  // What construction derives
  // ---------------------------------------------------------------------

  /** How string interpolation renders a value: `nil` as the empty string. */
  function Render(v: Value): string {
    match v
    case Nil => ""
    case Str(s) => s
    case Int(n) => Text.DecimalString(n)
  }

  /** `"#{@manufacturer} #{@model}"`. */
  function DisplayName(manufacturer: Value, model: Value): string {
    Render(manufacturer) + " " + Render(model)
  }

  /** When the manufacturer holds no space, the first space of the name separates it from the model. */
  lemma {:induction false} DisplayNameSplits(manufacturer: Value, model: Value)
    requires Text.NoChar(Render(manufacturer), ' ')
    ensures var name := DisplayName(manufacturer, model);
      var i := |Render(manufacturer)|;
      && Text.IndexOf(name, " ") == Some(i)
      && name[..i] == Render(manufacturer)
      && name[i + 1..] == Render(model)
  {
    Text.IndexOfAfterFreePrefix(Render(manufacturer), " ", Render(model));
  }

  /** Absent metadata gives a name of one space. */
  lemma NameOfAbsentMetadata()
    ensures DisplayName(Nil, Nil) == " "
  {
  }

  /** The online test: the Integer `offline` property is 0 and `connect?` holds. */
  function Online(offline: Value, connect: bool): bool {
    offline == Int(0) && connect
  }

  /** The type tag: the last `::`-separated segment of the class name, downcased; `None` where Ruby would raise. */
  function TypeTag(className: string): (r: Option<string>)
    ensures var fields := Text.Split(className, "::");
      && (r.None? <==> forall k :: 0 <= k < |fields| ==> fields[k] == "")
      && (r.Some? ==>
            && r.value != ""
            && (forall i :: 0 <= i < |r.value| ==> !('A' <= r.value[i] <= 'Z'))
            && exists k :: 0 <= k < |fields| && fields[k] != "" && r.value == Text.Downcase(fields[k])
                 && forall j :: k < j < |fields| ==> fields[j] == "")
  {
    var parts := Text.RubySplit(className, "::");
    if parts == [] then None else Some(Text.Downcase(parts[|parts| - 1]))
  }

  /** A class nested in modules is tagged with its own downcased name. */
  lemma {:induction false} TypeTagOfNestedClass(modules: seq<string>, cls: string)
    requires cls != ""
    requires forall k :: 0 <= k < |modules| ==> Text.NoChar(modules[k], ':')
    requires Text.NoChar(cls, ':')
    ensures TypeTag(Text.Join(modules + [cls], "::")) == Some(Text.Downcase(cls))
  {
    var parts := modules + [cls];
    assert forall k :: 0 <= k < |parts| ==> Text.NoChar(parts[k], "::"[0]) by {
      forall k | 0 <= k < |parts| ensures Text.NoChar(parts[k], "::"[0]) {
        if k < |modules| {
          assert parts[k] == modules[k];
        }
      }
    }
    Text.JoinSplit(parts, "::");
  }

  lemma DowncaseOutput()
    ensures Text.Downcase("Output") == "output"
  {
    var d := Text.Downcase("Output");
    assert d[0] == 'o' && d[1] == 'u' && d[2] == 't' && d[3] == 'p' && d[4] == 'u' && d[5] == 't';
  }

  lemma JoinOutput()
    ensures Text.Join(["CoreMIDI"] + ["Output"], "::") == "CoreMIDI::Output"
  {
    assert (["CoreMIDI"] + ["Output"])[1..] == ["Output"];
  }

  /** `CoreMIDI::Output` endpoints are tagged `output`. */
  lemma OutputTag()
    ensures TypeTag("CoreMIDI::Output") == Some("output")
  {
    assert Text.NoChar("CoreMIDI", ':') && Text.NoChar("Output", ':');
    TypeTagOfNestedClass(["CoreMIDI"], "Output");
    JoinOutput();
    DowncaseOutput();
  }

  /** The `offline` property as construction reads it. */
  function OfflineReply(host: Host, entity: Ptr): Reply {
    GetProperty(host, entity, "offline", None, Some(IntKind))
  }

  /** The calls construction makes: the three property reads in order, then `connect?` when the `&&` reaches it. */
  function ConstructionTrace(host: Host, entity: Ptr): seq<Call> {
    GetProperty(host, entity, "manufacturer", None, None).calls +
    GetProperty(host, entity, "model", None, None).calls +
    OfflineReply(host, entity).calls +
    (if OfflineReply(host, entity).value == Int(0) then [Connect] else [])
  }

  /** Construction reads the manufacturer, then the model, then `offline`, each from the entity. */
  lemma {:induction false} ConstructionReadsInOrder(host: Host, entity: Ptr)
    ensures var t := ConstructionTrace(host, entity);
      var i := |GetString(host, "manufacturer", entity).calls|;
      var j := i + |GetString(host, "model", entity).calls|;
      && 0 < i < j < |t|
      && t[0] == StringCreate("manufacturer", MacRoman, host.stringCreate("manufacturer"))
      && t[i] == StringCreate("model", MacRoman, host.stringCreate("model"))
      && t[j] == StringCreate("offline", MacRoman, host.stringCreate("offline"))
      && t[j + 2] == ObjectGetIntegerProperty(entity, host.stringCreate("offline"), Memory(0))
  {
    var m := GetString(host, "manufacturer", entity).calls;
    var mo := GetString(host, "model", entity).calls;
    var off := OfflineReply(host, entity).calls;
    var tail := if OfflineReply(host, entity).value == Int(0) then [Connect] else [];
    assert ConstructionTrace(host, entity) == m + mo + off + tail;
    assert (m + mo + off + tail)[|m|] == mo[0];
    assert (m + mo + off + tail)[|m| + |mo|] == off[0];
    assert (m + mo + off + tail)[|m| + |mo| + 2] == off[2];
  }

  /**
   * `connect?` is asked exactly when the `offline` property is 0, and then
   * as the last step of construction.
   */
  lemma {:induction false} ConnectOnlyWhenOnline(host: Host, entity: Ptr)
    ensures var t := ConstructionTrace(host, entity);
      && (Connect in t <==> OfflineReply(host, entity).value == Int(0))
      && (Connect in t ==> t[|t| - 1] == Connect)
  {
    var m := GetString(host, "manufacturer", entity).calls;
    var mo := GetString(host, "model", entity).calls;
    var off := OfflineReply(host, entity).calls;
    var lookups := m + mo + off;
    assert Connect !in lookups by {
      assert forall k :: 0 <= k < |lookups| ==> !lookups[k].Connect?;
    }
    if OfflineReply(host, entity).value == Int(0) {
      assert ConstructionTrace(host, entity) == lookups + [Connect];
    } else {
      assert ConstructionTrace(host, entity) == lookups;
    }
  }

  // ---------------------------------------------------------------------
  // id=
  // ---------------------------------------------------------------------

  /** `current ||= val`, for an id that is `nil` or an Integer. */
  function OrAssign(current: Option<int>, val: Option<int>): (r: Option<int>)
    ensures r == FirstSet([current, val])
  {
    if current.Some? then current else val
  }

  /** The id after `id=` was called with each of `vals` in turn. */
  function IdAfter(current: Option<int>, vals: seq<Option<int>>): Option<int>
    decreases |vals|
  {
    if vals == [] then current else IdAfter(OrAssign(current, vals[0]), vals[1..])
  }

  /** The first value in `vals` that is not `nil`. */
  function FirstSet(vals: seq<Option<int>>): (r: Option<int>)
    ensures r.Some? <==> exists k :: 0 <= k < |vals| && vals[k].Some?
    ensures r.Some? ==> r in vals
    ensures r.Some? ==> exists k :: 0 <= k < |vals| && vals[k] == r && forall j :: 0 <= j < k ==> vals[j].None?
  {
    if vals == [] then None else if vals[0].Some? then vals[0] else FirstSet(vals[1..])
  }

  /**
   * The id is write-once: once set it never changes again, and an unset id
   * takes the first value that is not `nil` (a `nil` assignment does not
   * stick).
   */
  lemma {:induction false} IdIsWriteOnce(current: Option<int>, vals: seq<Option<int>>)
    ensures IdAfter(current, vals) == if current.Some? then current else FirstSet(vals)
    decreases |vals|
  {
    if vals != [] {
      IdIsWriteOnce(OrAssign(current, vals[0]), vals[1..]);
    }
  }

  // ---------------------------------------------------------------------
  // The endpoint object
  // ---------------------------------------------------------------------

  /** The client name of `enable_client`: `"Client #{@endpoint_id}: #{@name}"`. */
  function ClientLabel(endpointId: int, name: string): string {
    Text.Label("Client ", endpointId, ": ", name)
  }

  /** A client label gives back the endpoint id and the name it was built from. */
  lemma {:induction false} ClientLabelRoundTrip(endpointId: int, name: string)
    ensures Text.ParseLabel("Client ", ": ", ClientLabel(endpointId, name)) == Some((endpointId, name))
  {
    Text.LabelRoundTrip("Client ", endpointId, ": ", name);
  }

  class Endpoint {
    const endpointId: int
    const entity: Ptr
    /** `@type`: the Symbol, by its name. */
    const kind: string
    const manufacturer: Value
    const model: Value
    const name: string
    const isOnline: bool
    /** The native calls construction made. */
    ghost const construction: seq<Call>

    var enabled: bool
    var id: Option<int>
    var client: Option<Ptr>

    /**
     * `initialize(endpoint_id, entity_pointer)` for an instance of the
     * class named `className`, with `connect` the answer `connect?` gives.
     */
    constructor(host: Host, connect: bool, endpointId: int, entity: Ptr, className: string)
      requires TypeTag(className).Some?
      ensures this.endpointId == endpointId && this.entity == entity
      ensures kind == TypeTag(className).value
      ensures manufacturer == GetProperty(host, entity, "manufacturer", None, None).value
      ensures model == GetProperty(host, entity, "model", None, None).value
      ensures name == DisplayName(manufacturer, model)
      ensures isOnline == Online(OfflineReply(host, entity).value, connect)
      ensures construction == ConstructionTrace(host, entity)
      ensures !enabled && id.None? && client.None?
    {
      this.endpointId := endpointId;
      this.entity := entity;
      kind := TypeTag(className).value;
      var m := GetProperty(host, entity, "manufacturer", None, None);
      manufacturer := m.value;
      var mo := GetProperty(host, entity, "model", None, None);
      model := mo.value;
      name := DisplayName(m.value, mo.value);
      var offline := GetProperty(host, entity, "offline", None, Some(IntKind));
      if offline.value == Int(0) {
        isOnline := connect;
        construction := m.calls + mo.calls + offline.calls + [Connect];
      } else {
        isOnline := false;
        construction := m.calls + mo.calls + offline.calls;
      }
      enabled := false;
      id := None;
      client := None;
    }

    /** `id=(val)`. */
    method SetId(val: Option<int>)
      modifies this`id
      ensures id == OrAssign(old(id), val)
    {
      if id.None? {
        id := val;
      }
    }

    /** `enable_client`: creates the client, stores the handle read back from the out-pointer, and returns the status. */
    method EnableClient(host: Host) returns (error: int, calls: seq<Call>)
      modifies this`client
      ensures var text := ClientLabel(endpointId, name);
        var handle := host.stringCreate(text);
        && calls == [StringCreate(text, MacRoman, handle), AllocPointer(Memory(0)), ClientCreate(handle, Memory(0))]
        && error == host.clientCreate(handle).0
        && client == Some(host.clientCreate(handle).1)
      ensures enabled == old(enabled)
    {
      var clientName := host.stringCreate(ClientLabel(endpointId, name));
      var clientPtr := Memory(0);
      var (status, written) := host.clientCreate(clientName);
      calls := [StringCreate(ClientLabel(endpointId, name), MacRoman, clientName),
                AllocPointer(clientPtr),
                ClientCreate(clientName, clientPtr)];
      client := Some(written);
      error := status;
    }
  }

  // ---------------------------------------------------------------------
  // Discovery
  // ---------------------------------------------------------------------

  /** A device with its input and output endpoints, in the device's order. */
  datatype Device<E> = Device(inputs: seq<E>, outputs: seq<E>)

  datatype Direction = Input | Output

  /** The Symbol naming a direction, by its name. */
  function DirectionName(dir: Direction): string {
    match dir
    case Input => "input"
    case Output => "output"
  }

  function EndpointsOf<E>(d: Device<E>, dir: Direction): seq<E> {
    match dir
    case Input => d.inputs
    case Output => d.outputs
  }

  /** `devices.map { |d| d.endpoints[dir] }.flatten`. */
  function Collect<E>(devices: seq<Device<E>>, dir: Direction): (all: seq<E>)
    ensures |all| == Count(devices, dir)
  {
    if devices == [] then [] else EndpointsOf(devices[0], dir) + Collect(devices[1..], dir)
  }

  /** The total number of endpoints of one direction over all devices. */
  function Count<E>(devices: seq<Device<E>>, dir: Direction): nat {
    if devices == [] then 0 else |EndpointsOf(devices[0], dir)| + Count(devices[1..], dir)
  }

  /** `all_by_type`: the two lists, keyed by direction. */
  function AllByType<E>(devices: seq<Device<E>>): (m: map<string, seq<E>>)
    ensures m.Keys == {"input", "output"}
    ensures m["input"] == Collect(devices, Input) && m["output"] == Collect(devices, Output)
  {
    map["input" := Collect(devices, Input), "output" := Collect(devices, Output)]
  }

  /** `first(type)`: raises for a type that is not a key, since `nil.first` raises. */
  function First<E>(devices: seq<Device<E>>, kind: string): (r: Outcome<Option<E>>)
    ensures r.Raised? <==> kind != "input" && kind != "output"
    ensures kind == "input" ==> r == Returned(FirstEndpoint(devices, Input))
    ensures kind == "output" ==> r == Returned(FirstEndpoint(devices, Output))
  {
    FirstOfCollect(devices, Input);
    FirstOfCollect(devices, Output);
    var all := AllByType(devices);
    if kind in all then
      var list := all[kind];
      assert list == Collect(devices, if kind == "input" then Input else Output);
      Returned(if list == [] then None else Some(list[0]))
    else Raised
  }

  /** `last(type)`. */
  function Last<E>(devices: seq<Device<E>>, kind: string): (r: Outcome<Option<E>>)
    ensures r.Raised? <==> kind != "input" && kind != "output"
    ensures kind == "input" ==> r == Returned(LastEndpoint(devices, Input))
    ensures kind == "output" ==> r == Returned(LastEndpoint(devices, Output))
  {
    LastOfCollect(devices, Input);
    LastOfCollect(devices, Output);
    var all := AllByType(devices);
    if kind in all then
      var list := all[kind];
      assert list == Collect(devices, if kind == "input" then Input else Output);
      Returned(if list == [] then None else Some(list[|list| - 1]))
    else Raised
  }

  lemma {:induction false} CollectAppend<E>(a: seq<Device<E>>, b: seq<Device<E>>, dir: Direction)
    ensures Collect(a + b, dir) == Collect(a, dir) + Collect(b, dir)
  {
    if a != [] {
      calc {
        Collect(a + b, dir);
        { assert (a + b)[0] == a[0]; assert (a + b)[1..] == a[1..] + b; }
        EndpointsOf(a[0], dir) + Collect(a[1..] + b, dir);
        { CollectAppend(a[1..], b, dir); }
        EndpointsOf(a[0], dir) + (Collect(a[1..], dir) + Collect(b, dir));
        Collect(a, dir) + Collect(b, dir);
      }
    } else {
      assert a + b == b;
    }
  }

  /**
   * The `j`-th endpoint of device `i` sits in the list right after every
   * endpoint of the devices before it: the list keeps device order and each
   * device's own order.
   */
  lemma {:induction false} CollectAt<E>(devices: seq<Device<E>>, dir: Direction, i: nat, j: nat)
    requires i < |devices| && j < |EndpointsOf(devices[i], dir)|
    ensures Count(devices[..i], dir) + j < |Collect(devices, dir)|
    ensures Collect(devices, dir)[Count(devices[..i], dir) + j] == EndpointsOf(devices[i], dir)[j]
  {
    assert devices == devices[..i] + devices[i..];
    CollectAppend(devices[..i], devices[i..], dir);
    assert devices[i..][0] == devices[i];
  }

  /** The first endpoint of the first device that has one. */
  function FirstEndpoint<E>(devices: seq<Device<E>>, dir: Direction): Option<E> {
    if devices == [] then None
    else if EndpointsOf(devices[0], dir) != [] then Some(EndpointsOf(devices[0], dir)[0])
    else FirstEndpoint(devices[1..], dir)
  }

  /** The last endpoint of the last device that has one. */
  function LastEndpoint<E>(devices: seq<Device<E>>, dir: Direction): Option<E> {
    if devices == [] then None
    else
      var last := EndpointsOf(devices[|devices| - 1], dir);
      if last != [] then Some(last[|last| - 1]) else LastEndpoint(devices[..|devices| - 1], dir)
  }

  lemma {:induction false} FirstOfCollect<E>(devices: seq<Device<E>>, dir: Direction)
    ensures var all := Collect(devices, dir);
      FirstEndpoint(devices, dir) == if all == [] then None else Some(all[0])
  {
    if devices != [] {
      FirstOfCollect(devices[1..], dir);
    }
  }

  lemma {:induction false} LastOfCollect<E>(devices: seq<Device<E>>, dir: Direction)
    ensures var all := Collect(devices, dir);
      LastEndpoint(devices, dir) == if all == [] then None else Some(all[|all| - 1])
  {
    if devices != [] {
      var init := devices[..|devices| - 1];
      var last := devices[|devices| - 1];
      assert devices == init + [last];
      CollectAppend(init, [last], dir);
      assert Collect([last], dir) == EndpointsOf(last, dir) + Collect([last][1..], dir);
      assert Collect([last], dir) == EndpointsOf(last, dir);
      LastOfCollect(init, dir);
    }
  }

  /** `first(type)` for a direction is the first endpoint of the first device that has one, `nil` when none has. */
  lemma FirstIsFirstEndpoint<E>(devices: seq<Device<E>>, dir: Direction)
    ensures First(devices, DirectionName(dir)) == Returned(FirstEndpoint(devices, dir))
  {
    FirstOfCollect(devices, dir);
  }

  /** `last(type)` for a direction is the last endpoint of the last device that has one, `nil` when none has. */
  lemma LastIsLastEndpoint<E>(devices: seq<Device<E>>, dir: Direction)
    ensures Last(devices, DirectionName(dir)) == Returned(LastEndpoint(devices, dir))
  {
    LastOfCollect(devices, dir);
  }

  /** `first` and `last` give `nil` exactly when no device has an endpoint of that direction. */
  lemma NoneExactlyWhenEmpty<E>(devices: seq<Device<E>>, dir: Direction)
    ensures First(devices, DirectionName(dir)) == Returned(None) <==> Count(devices, dir) == 0
    ensures Last(devices, DirectionName(dir)) == Returned(None) <==> Count(devices, dir) == 0
  {
  }

  /** Any other type raises in both `first` and `last`. */
  lemma UnknownTypeRaises<E>(devices: seq<Device<E>>, kind: string)
    requires kind != "input" && kind != "output"
    ensures First(devices, kind) == Raised && Last(devices, kind) == Raised
  {
  }
}
