/**
 * The binary layout of `MIDIPacket` and `MIDIPacketList` as the FFI struct
 * declarations give it.
 *
 * FFI::Struct lays out members in declaration order. Each member starts at
 * the next multiple of its own alignment. The struct's alignment is the
 * largest member alignment. Its size is the end of the last member, rounded
 * up to that alignment.
 */
module Layout {

  /** One member of a struct layout: its size and alignment in bytes. */
  datatype Field = Field(name: string, size: nat, align: nat)

  predicate WellFormed(fields: seq<Field>) {
    forall i :: 0 <= i < |fields| ==> fields[i].align > 0
  }

  /** `r` is a multiple of `a`. */
  predicate IsMultiple(r: nat, a: nat)
    requires a > 0
    decreases r
  {
    r == 0 || (r >= a && IsMultiple(r - a, a))
  }

  lemma {:induction false} MultipleOfProduct(q: nat, a: nat)
    requires a > 0
    ensures IsMultiple(q * a, a)
  {
    if q > 0 {
      MultipleOfProduct(q - 1, a);
      assert q * a - a == (q - 1) * a;
    }
  }

  /** The least multiple of `a` that is at least `n`. */
  function AlignUp(n: nat, a: nat): (r: nat)
    requires a > 0
    ensures n <= r < n + a
  {
    ((n + a - 1) / a) * a
  }

  lemma AlignUpIsMultiple(n: nat, a: nat)
    requires a > 0
    ensures IsMultiple(AlignUp(n, a), a)
  {
    MultipleOfProduct((n + a - 1) / a, a);
  }

  /** Where the next member would start before alignment: the end of the last member laid out so far. */
  function End(fields: seq<Field>): nat
    requires WellFormed(fields)
  {
    if fields == [] then 0
    else
      var last := fields[|fields| - 1];
      AlignUp(End(fields[..|fields| - 1]), last.align) + last.size
  }

  /** The offset of member `i`. */
  function Offset(fields: seq<Field>, i: nat): nat
    requires WellFormed(fields) && i < |fields|
  {
    AlignUp(End(fields[..i]), fields[i].align)
  }

  /** The alignment of the whole struct: the largest member alignment, and at least 1. */
  function Alignment(fields: seq<Field>): (a: nat)
    ensures a >= 1
    ensures forall i :: 0 <= i < |fields| ==> fields[i].align <= a
  {
    if fields == [] then 1
    else
      var rest := Alignment(fields[..|fields| - 1]);
      var last := fields[|fields| - 1].align;
      if last > rest then last else rest
  }

  /** The struct's alignment is 1 or the alignment of one of its members: no larger value is invented. */
  lemma {:induction false} AlignmentOfSomeMember(fields: seq<Field>)
    ensures Alignment(fields) == 1 || exists i :: 0 <= i < |fields| && fields[i].align == Alignment(fields)
  {
    if fields != [] {
      var init := fields[..|fields| - 1];
      AlignmentOfSomeMember(init);
      if Alignment(fields) != fields[|fields| - 1].align && Alignment(fields) != 1 {
        var i :| 0 <= i < |init| && init[i].align == Alignment(init);
        assert fields[i] == init[i];
      }
    }
  }

  /** `FFI::Struct.size`: the end of the last member, padded to the struct's alignment. */
  function Size(fields: seq<Field>): nat
    requires WellFormed(fields)
  {
    AlignUp(End(fields), Alignment(fields))
  }

  lemma {:induction false} EndOfPrefix(fields: seq<Field>, i: nat)
    requires WellFormed(fields) && i < |fields|
    ensures End(fields[..i + 1]) == Offset(fields, i) + fields[i].size
  {
    assert fields[..i + 1][..i] == fields[..i];
  }

  lemma {:induction false} EndMonotone(fields: seq<Field>, i: nat, j: nat)
    requires WellFormed(fields) && i <= j <= |fields|
    ensures End(fields[..i]) <= End(fields[..j])
    decreases j - i
  {
    if i < j {
      EndMonotone(fields, i, j - 1);
      assert fields[..j][..j - 1] == fields[..j - 1];
    }
  }

  /** Each member starts at a multiple of its alignment. */
  lemma OffsetAligned(fields: seq<Field>, i: nat)
    requires WellFormed(fields) && i < |fields|
    ensures IsMultiple(Offset(fields, i), fields[i].align)
  {
    AlignUpIsMultiple(End(fields[..i]), fields[i].align);
  }

  /** Members do not overlap and keep their declaration order. */
  lemma {:induction false} MembersDisjoint(fields: seq<Field>, i: nat, j: nat)
    requires WellFormed(fields) && i < j < |fields|
    ensures Offset(fields, i) + fields[i].size <= Offset(fields, j)
  {
    EndOfPrefix(fields, i);
    EndMonotone(fields, i + 1, j);
  }

  /** Every member lies inside the struct. */
  lemma {:induction false} MemberInside(fields: seq<Field>, i: nat)
    requires WellFormed(fields) && i < |fields|
    ensures Offset(fields, i) + fields[i].size <= Size(fields)
  {
    EndOfPrefix(fields, i);
    EndMonotone(fields, i + 1, |fields|);
    assert fields[..|fields|] == fields;
  }

  // ---------------------------------------------------------------------
  // The CoreMIDI structures
  // ---------------------------------------------------------------------

  /** `MIDITimeStamp` is declared as a 32-bit unsigned integer. */
  const TimeStampBytes: nat := 4
  /** The fixed payload of one packet. */
  const PayloadCapacity: nat := 256
  /** The width of the `length` member, in bits. */
  const LengthBits: nat := 16

  /** `MIDIPacket`: timestamp, a reserved 32-bit word, the 16-bit length and the payload. */
  const PacketFields: seq<Field> := [
    Field("timestamp", TimeStampBytes, TimeStampBytes),
    Field("nothing", 4, 4),
    Field("length", LengthBits / 8, LengthBits / 8),
    Field("data", PayloadCapacity, 1)
  ]

  /** `MIDIPacketList`: a 32-bit packet count and one packet by value. */
  const PacketListFields: seq<Field> := [
    Field("numPackets", 4, 4),
    Field("packet", 1 * Size(PacketFields), Alignment(PacketFields))
  ]

  /** The number of bytes `get_midi_packet_list` allocates for the list, and tells MIDIPacketListAdd it has. */
  const ListBufferSize: nat := 256

  /** How many distinct values an unsigned member of `bytes` bytes holds. */
  function UnsignedRange(bytes: nat): nat {
    if bytes == 0 then 1 else 256 * UnsignedRange(bytes - 1)
  }

  lemma {:induction false} EndSnoc(fields: seq<Field>, f: Field)
    requires WellFormed(fields) && f.align > 0
    ensures WellFormed(fields + [f])
    ensures End(fields + [f]) == AlignUp(End(fields), f.align) + f.size
    ensures Alignment(fields + [f]) == if f.align > Alignment(fields) then f.align else Alignment(fields)
  {
    assert (fields + [f])[..|fields|] == fields;
  }

  lemma PacketLayout()
    ensures WellFormed(PacketFields)
    ensures Offset(PacketFields, 0) == 0 && Offset(PacketFields, 1) == 4
    ensures Offset(PacketFields, 2) == 8 && Offset(PacketFields, 3) == 10
    ensures Alignment(PacketFields) == 4 && Size(PacketFields) == 268
  {
    var p := PacketFields;
    var p1 := [p[0]];
    var p2 := p1 + [p[1]];
    var p3 := p2 + [p[2]];
    assert p[..1] == p1 && p[..2] == p2 && p[..3] == p3 && p == p3 + [p[3]];
    EndSnoc([], p[0]);
    assert [] + [p[0]] == p1;
    assert End(p1) == 4 && Alignment(p1) == 4;
    EndSnoc(p1, p[1]);
    assert End(p2) == 8 && Alignment(p2) == 4;
    EndSnoc(p2, p[2]);
    assert End(p3) == 10 && Alignment(p3) == 4;
    EndSnoc(p3, p[3]);
    assert End(p) == 266 && Alignment(p) == 4;
  }

  lemma PacketListLayout()
    ensures WellFormed(PacketListFields)
    ensures Offset(PacketListFields, 0) == 0 && Offset(PacketListFields, 1) == 4
    ensures Size(PacketListFields) == 272
  {
    PacketLayout();
    var l := PacketListFields;
    var l1 := [l[0]];
    assert l[..1] == l1 && l == l1 + [l[1]];
    assert l[1].size == 268 && l[1].align == 4;
    EndSnoc([], l[0]);
    assert [] + [l[0]] == l1;
    assert End(l1) == 4 && Alignment(l1) == 4;
    EndSnoc(l1, l[1]);
    assert End(l) == 272 && Alignment(l) == 4;
  }

  /** The 16-bit length member can hold every payload length from 0 to the capacity. */
  lemma LengthCoversPayload()
    ensures PacketFields[2].name == "length" && PacketFields[3].name == "data"
    ensures UnsignedRange(PacketFields[2].size) == 65536
    ensures PacketFields[3].size < UnsignedRange(PacketFields[2].size)
  {
  }

  /**
   * The list buffer is smaller than a `MIDIPacketList`: the payload starts
   * 14 bytes into the list, so only 242 of its 256 bytes lie inside the
   * buffer.
   */
  lemma ListBufferRoom()
    ensures ListBufferSize < Size(PacketListFields)
    ensures Offset(PacketListFields, 1) + Offset(PacketFields, 3) == 14
    ensures ListBufferSize - (Offset(PacketListFields, 1) + Offset(PacketFields, 3)) == 242
  {
    PacketLayout();
    PacketListLayout();
  }
}
