// Reading the frame of an item that brings new names: cpp_src/client/itemimplbase.cc
// takes apart what Encode puts together, and GetCJSON puts together the same.

module CjsonFrame {
  import opened Wrappers
  import opened Varint
  import opened CTags
  import opened CjsonWire
  import opened CjsonSerializer
  import opened CjsonEncoder
  import opened CjsonDecoder

  datatype Item = Item(payload: seq<byte>, dict: Option<seq<byte>>)

  // FromCJSON: an end tag in front means a frame, whose offset leads to the dictionary.
  function Unframe(slice: seq<byte>): Option<Item> {
    var (tag, n) := Read(slice);
    if n > 0 && tag == MkCTag(END, 0, 0) then
      ReadBound(slice, 0, 0);
      if n + 4 > |slice| then None
      else
        var offset := FromLE(slice[n..n + 4]);
        if n + 4 <= offset <= |slice| then Some(Item(slice[n + 4..offset], Some(slice[offset..]))) else None
    else Some(Item(slice, None))
  }

  // GetCJSON: a frame is written in front in any case and cut off when no names are new.
  function GetCJSON(payload: seq<byte>, dict: Option<seq<byte>>): seq<byte> {
    var ser := EndBytes() + LE(0, 4) + payload;
    if dict.Some? then
      // the offset is put in behind the end tag
      ser[..|EndBytes()|] + LE(|ser|, 4) + ser[|EndBytes()| + 4..] + dict.value
    else ser[5..]
  }

  lemma EndByte()
    ensures EndBytes() == [END] && MkCTag(END, 0, 0) == END && Bytes(END) == [END]
  {
    NoField(END, 0);
  }

  lemma SameFrame(payload: seq<byte>, dict: Option<seq<byte>>)
    ensures GetCJSON(payload, dict) == if dict.Some? then Framed(payload, dict.value) else payload
  {
    EndByte();
    var ser := EndBytes() + LE(0, 4) + payload;
    assert ser[5..] == payload && ser[..1] == [END];
  }

  // The reader gets back exactly the payload and the dictionary that were framed.
  lemma FrameRecovered(payload: seq<byte>, dict: seq<byte>)
    requires |payload| + 5 < 0x1_0000_0000
    ensures Unframe(Framed(payload, dict)) == Some(Item(payload, Some(dict)))
  {
    var offset := LE(|payload| + 5, 4);
    var slice := [END] + offset + payload + dict;
    EndByte();
    Pow256Of(4);
    FrameParts(offset, payload, dict);
    LEInverse(|payload| + 5, 4);
    ReadNumber(END, offset + payload + dict, slice);
    assert Framed(payload, dict) == slice;
    assert Read(slice) == (END, 1) && FromLE(slice[1..5]) == |payload| + 5;
  }

  lemma FrameParts(offset: seq<byte>, payload: seq<byte>, dict: seq<byte>)
    requires |offset| == 4
    ensures var slice := [END] + offset + payload + dict;
      && slice == [END] + (offset + payload + dict) && slice[1..5] == offset
      && slice[5..|payload| + 5] == payload && slice[|payload| + 5..] == dict
  {
  }

  // An item without a frame is not taken for one with a frame: no document starts with
  // the end tag.
  lemma UnframedIsPayload(tags: seq<Text>, d: Doc, tail: seq<byte>)
    requires DocFits(tags, d)
    ensures Unframe(DocBytes(tags, d) + tail) == Some(Item(DocBytes(tags, d) + tail, None))
  {
    EnterBody(tags, d, DocBytes(tags, d) + tail, tail);
    EndTag();
  }

  // ---- the dictionary ----

  // tagsMatcher.Read
  method ReadTags(ser: Serializer, skip: bool, old1: seq<Text>, ghost names: seq<Text>, ghost tail: seq<byte>)
    returns (ok: bool, tags: seq<Text>)
    requires ser.Valid() && 0 <= ser.pos <= ser.len
    modifies ser`pos
    ensures old(ser.Rest()) == DictBytes(names) + tail && |names| < 0x8000_0000_0000_0000 ==>
      ok && tags == (if skip then old1 else names) && 0 <= ser.pos <= ser.len && ser.Rest() == tail
  {
    ghost var on := ser.Rest() == DictBytes(names) + tail && |names| < 0x8000_0000_0000_0000;
    if on {
      Assoc(Bytes(|names|), NamesBytes(names), tail);
      ReadNumber(|names|, NamesBytes(names) + tail, ser.Rest());
    }
    tags := old1;
    var count;
    ok, count := ser.GetVarUInt();
    if !ok {
      return;
    }
    var got: seq<Text> := [];
    while |got| < count && ok
      invariant |got| <= count
      invariant on ==> ok && count == |names| && 0 <= ser.pos <= ser.len
      invariant on ==> got == names[..|got|] && ser.Rest() == NamesBytes(names[|got|..]) + tail
      decreases count - |got|
    {
      ghost var left := if on then names[|got|..] else [[]];
      if on {
        Assoc(Bytes(|left[0]|) + left[0], NamesBytes(left[1..]), tail);
        ReadString(left[0], NamesBytes(left[1..]) + tail, ser.Rest());
        Small(|left[0]|);
        assert left[1..] == names[|got| + 1..];
      }
      var s;
      ok, s := ser.GetVString();
      got := got + [s];
    }
    if !skip {
      tags := got;
    }
  }
}
