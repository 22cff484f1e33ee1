/** The two packet forms: SPacket, the outbound builder whose fluent setters
    reassign its payload, and RPacket, the inbound packet fixed at construction.
    Both are a tag (Java int) and a byte payload that may be null. */
module Packets {
  import opened Common
  import Utf8

  class SPacket {
    var packetNumber: int
    var data: Option<seq<Utf8.byte>>

    /** A packet with tag `packetNumber` and no payload yet (null data). */
    constructor (packetNumber: int)
      ensures this.packetNumber == packetNumber && data == None
    {
      this.packetNumber := packetNumber;
      data := None;
    }

    /** A packet holding the given tag and payload unchanged. */
    constructor WithData(packetNumber: int, data: Option<seq<Utf8.byte>>)
      ensures this.packetNumber == packetNumber && this.data == data
    {
      this.packetNumber := packetNumber;
      this.data := data;
    }

    method GetData() returns (d: Option<seq<Utf8.byte>>)
      ensures d == data
    {
      d := data;
    }

    method GetTag() returns (tag: int)
      ensures tag == packetNumber
    {
      tag := packetNumber;
    }

    /** Replaces the payload and returns the same packet; the tag is untouched. */
    method WriteBytes(data: Option<seq<Utf8.byte>>) returns (self: SPacket)
      modifies this`data
      ensures self == this && this.data == data
    {
      this.data := data;
      self := this;
    }

    /** Sets the payload to the UTF-8 encoding of `text` and returns the same packet;
        the tag is untouched. */
    method WriteString(text: string) returns (self: SPacket)
      modifies this`data
      ensures self == this && data == Some(Utf8.Encode(text))
    {
      data := Some(Utf8.Encode(text));
      self := this;
    }
  }

  /** An inbound packet: tag and payload are given to the constructor and never reassigned. */
  datatype RPacket = RPacket(packetNumber: int, data: Option<seq<Utf8.byte>>)
  {
    function GetTag(): int
    {
      packetNumber
    }

    function GetData(): Option<seq<Utf8.byte>>
    {
      data
    }

    /** The payload decoded as UTF-8 (a null payload is dereferenced by the source).
        Whatever text was encoded into the payload is the text read back. */
    function ReadString(): (text: string)
      requires data.Some?
      ensures |text| <= |data.value|
      ensures forall s :: data.value == Utf8.Encode(s) ==> text == s
    {
      forall s ensures Utf8.Decode(Utf8.Encode(s)) == s {
        Utf8.DecodeEncode(s);
      }
      Utf8.Decode(data.value)
    }
  }

  /** The getters of an RPacket return exactly what its constructor was given. */
  lemma RPacketKeepsFields(tag: int, data: Option<seq<Utf8.byte>>)
    ensures RPacket(tag, data).GetTag() == tag
    ensures RPacket(tag, data).GetData() == data
  {
  }

  /** The text written into an outbound packet is the text read from an inbound packet
      carrying the same payload: RPacket(t, SPacket(t).writeString(s).getData()).readString() == s. */
  lemma ReadWrittenString(tag: int, text: string)
    ensures RPacket(tag, Some(Utf8.Encode(text))).ReadString() == text
  {
  }
}
