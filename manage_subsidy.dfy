/** The subsidy editor (src/app/manage-subsidy/page.tsx): one record with a
    title, a list of packets, a vendor, a list of funding sources, a target
    amount and a deadline. Each input edits one field; a packet or source is
    edited by its index in the list, and a "value" field stores the numeric
    conversion of what was typed. */
module ManageSubsidy {
  import opened JsNumbers

  datatype Packet = Packet(id: string, name: string, value: JsNumber)
  datatype Source = Source(name: string, value: JsNumber)
  datatype Vendor = Vendor(name: string)

  /** The property names `updatePacket` and `updateSource` are called with. */
  datatype PacketKey = PacketId | PacketName | PacketValue
  datatype SourceKey = SourceName | SourceValue

  /** The assignment `packet[key] = value`, after `value = Number(value)` for
      the "value" key: exactly the named field changes. */
  function SetPacketField(p: Packet, key: PacketKey, value: string): (r: Packet)
    ensures r.id == (if key == PacketId then value else p.id)
    ensures r.name == (if key == PacketName then value else p.name)
    ensures r.value == (if key == PacketValue then ToNumber(value) else p.value)
  {
    match key
    case PacketId => p.(id := value)
    case PacketName => p.(name := value)
    case PacketValue => p.(value := ToNumber(value))
  }

  /** The same assignment on a funding source. */
  function SetSourceField(s: Source, key: SourceKey, value: string): (r: Source)
    ensures r.name == (if key == SourceName then value else s.name)
    ensures r.value == (if key == SourceValue then ToNumber(value) else s.value)
  {
    match key
    case SourceName => s.(name := value)
    case SourceValue => s.(value := ToNumber(value))
  }

  /** The packet list after `updatePacket(index, key, value)`. */
  function UpdatedPackets(packets: seq<Packet>, index: nat, key: PacketKey, value: string): (r: seq<Packet>)
    requires index < |packets|
    ensures |r| == |packets|
    ensures r[index] == SetPacketField(packets[index], key, value)
    ensures forall j :: 0 <= j < |packets| && j != index ==> r[j] == packets[j]
  {
    packets[index := SetPacketField(packets[index], key, value)]
  }

  /** The source list after `updateSource(index, key, value)`. */
  function UpdatedSources(sources: seq<Source>, index: nat, key: SourceKey, value: string): (r: seq<Source>)
    requires index < |sources|
    ensures |r| == |sources|
    ensures r[index] == SetSourceField(sources[index], key, value)
    ensures forall j :: 0 <= j < |sources| && j != index ==> r[j] == sources[j]
  {
    sources[index := SetSourceField(sources[index], key, value)]
  }

  /** Typing the same thing into the same field twice changes nothing the
      second time, and a later edit of a field overrides an earlier one. */
  lemma SetPacketFieldLastWins(p: Packet, key: PacketKey, v1: string, v2: string)
    ensures SetPacketField(SetPacketField(p, key, v1), key, v2) == SetPacketField(p, key, v2)
  {
  }

  /** Edits of different fields do not interfere. */
  lemma SetPacketFieldCommutes(p: Packet, k1: PacketKey, v1: string, k2: PacketKey, v2: string)
    requires k1 != k2
    ensures SetPacketField(SetPacketField(p, k1, v1), k2, v2) == SetPacketField(SetPacketField(p, k2, v2), k1, v1)
  {
  }

  lemma SetSourceFieldLastWins(s: Source, key: SourceKey, v1: string, v2: string)
    ensures SetSourceField(SetSourceField(s, key, v1), key, v2) == SetSourceField(s, key, v2)
  {
  }

  /** Applying the same packet update twice is applying it once. */
  lemma UpdatedPacketsIdempotent(packets: seq<Packet>, index: nat, key: PacketKey, value: string)
    requires index < |packets|
    ensures UpdatedPackets(UpdatedPackets(packets, index, key, value), index, key, value) ==
      UpdatedPackets(packets, index, key, value)
  {
    SetPacketFieldLastWins(packets[index], key, value, value);
  }

  /** Applying the same source update twice is applying it once. */
  lemma UpdatedSourcesIdempotent(sources: seq<Source>, index: nat, key: SourceKey, value: string)
    requires index < |sources|
    ensures UpdatedSources(UpdatedSources(sources, index, key, value), index, key, value) ==
      UpdatedSources(sources, index, key, value)
  {
    SetSourceFieldLastWins(sources[index], key, value, value);
  }

  /** Updates of different packets commute. */
  lemma UpdatedPacketsCommute(packets: seq<Packet>, i: nat, ki: PacketKey, vi: string, j: nat, kj: PacketKey, vj: string)
    requires i < |packets| && j < |packets| && i != j
    ensures UpdatedPackets(UpdatedPackets(packets, i, ki, vi), j, kj, vj) ==
      UpdatedPackets(UpdatedPackets(packets, j, kj, vj), i, ki, vi)
  {
  }

  /** Typing digits into a "value" field stores their decimal value. */
  lemma DigitsStoreTheirValue(p: Packet, value: string)
    requires value != [] && JsStrings.AllDigits(value)
    ensures SetPacketField(p, PacketValue, value).value == Finite(DecimalValue(value) as real)
  {
    ToNumberDigits(value);
  }

  /** Clearing a "value" field, or leaving only spaces in it, stores 0, as
      `Number` of blank text is 0. */
  lemma ClearedValueIsZero(p: Packet, value: string)
    requires JsStrings.AllWhitespace(value)
    ensures SetPacketField(p, PacketValue, value).value == Finite(0.0)
  {
    ToNumberBlank(value);
  }

  /** The editable record; `setData` replaces the fields that changed. */
  class EditableSubsidy {
    var title: string
    var packets: seq<Packet>
    var vendor: Vendor
    var sources: seq<Source>
    var target: JsNumber
    var deadline: string

    /** `initialData`. */
    constructor ()
      ensures title == "Subsidy X [Region Name]"
      ensures packets == [
        Packet("A", "Paket A", Finite(1000000.0)),
        Packet("B", "Paket B", Finite(2000000.0)),
        Packet("C", "Paket C", Finite(3000000.0))]
      ensures vendor == Vendor("Vendor Name")
      ensures sources == [Source("APBN", Finite(2500000.0)), Source("CSR", Finite(1500000.0))]
      ensures target == Finite(10000000.0)
      ensures deadline == "2024-12-31"
    {
      title := "Subsidy X [Region Name]";
      packets := [
        Packet("A", "Paket A", Finite(1000000.0)),
        Packet("B", "Paket B", Finite(2000000.0)),
        Packet("C", "Paket C", Finite(3000000.0))];
      vendor := Vendor("Vendor Name");
      sources := [Source("APBN", Finite(2500000.0)), Source("CSR", Finite(1500000.0))];
      target := Finite(10000000.0);
      deadline := "2024-12-31";
    }

    /** `updatePacket`: copy the list, assign one field of one packet, store
        the copy. An index past the end makes the source throw, so callers
        keep it in range. */
    method UpdatePacket(index: nat, key: PacketKey, value: string)
      requires index < |packets|
      modifies this
      ensures packets == UpdatedPackets(old(packets), index, key, value)
      ensures title == old(title) && vendor == old(vendor) && sources == old(sources)
      ensures target == old(target) && deadline == old(deadline)
    {
      var newPackets := packets;
      newPackets := newPackets[index := SetPacketField(newPackets[index], key, value)];
      packets := newPackets;
    }

    /** `updateSource`, the same on the source list. */
    method UpdateSource(index: nat, key: SourceKey, value: string)
      requires index < |sources|
      modifies this
      ensures sources == UpdatedSources(old(sources), index, key, value)
      ensures title == old(title) && vendor == old(vendor) && packets == old(packets)
      ensures target == old(target) && deadline == old(deadline)
    {
      var newSources := sources;
      newSources := newSources[index := SetSourceField(newSources[index], key, value)];
      sources := newSources;
    }

    /** The title input. */
    method SetTitle(value: string)
      modifies this
      ensures title == value
      ensures packets == old(packets) && vendor == old(vendor) && sources == old(sources)
      ensures target == old(target) && deadline == old(deadline)
    {
      title := value;
    }

    /** The vendor input replaces the vendor object. */
    method SetVendorName(value: string)
      modifies this
      ensures vendor == Vendor(value)
      ensures title == old(title) && packets == old(packets) && sources == old(sources)
      ensures target == old(target) && deadline == old(deadline)
    {
      vendor := Vendor(value);
    }

    /** The target input stores `Number` of what was typed. */
    method SetTarget(value: string)
      modifies this
      ensures target == ToNumber(value)
      ensures title == old(title) && packets == old(packets) && vendor == old(vendor)
      ensures sources == old(sources) && deadline == old(deadline)
    {
      target := ToNumber(value);
    }

    /** The deadline input. */
    method SetDeadline(value: string)
      modifies this
      ensures deadline == value
      ensures title == old(title) && packets == old(packets) && vendor == old(vendor)
      ensures sources == old(sources) && target == old(target)
    {
      deadline := value;
    }
  }
}
