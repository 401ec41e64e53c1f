/** Data types of action arguments and their big-endian codec (core/types/data_types.go). */
module DataTypes {
  import opened Bytes

  datatype DataType = DataType(name: seq<byte>, isArray: bool, meta0: uint16, meta1: uint16)

  function SerializeSize(t: DataType): nat { 2 + 4 + |t.name| + 1 + 4 }

  function Flag(b: bool): byte { if b then 1 else 0 }

  function DataTypeBytes(t: DataType): (r: seq<byte>)
    ensures |r| == SerializeSize(t)
  {
    BE(0, 2) + BE(|t.name|, 4) + t.name + ([Flag(t.isArray)] + BE(t.meta0, 2) + BE(t.meta1, 2))
  }

  /** UnmarshalBinary reads at growing offsets; bytes after the metadata are ignored. */
  function ReadDataType(d: seq<byte>): Option<DataType> {
    if |d| < 6 || FromBE(d[..2]) != 0 then None
    else
      var n := FromBE(d[2..6]);
      if |d| < 6 + n + 5 || d[6 + n] > 1 then None
      else Some(DataType(d[6..6 + n], d[6 + n] == 1, U16(d[7 + n..9 + n]), U16(d[9 + n..11 + n])))
  }

  function U16(s: seq<byte>): uint16
    requires |s| == 2
  {
    FromBEBound(s);
    Pow256Values();
    FromBE(s)
  }

  lemma U16OfBE(n: uint16)
    ensures U16(BE(n, 2)) == n
  {
    Pow256Values();
    BERoundTrip(n, 2);
  }

  lemma DataTypeSlices(t: DataType, rest: seq<byte>)
    ensures var d, n := DataTypeBytes(t) + rest, |t.name|;
      && |d| >= 11 + n
      && d[..2] == BE(0, 2)
      && d[2..6] == BE(n, 4)
      && d[6..6 + n] == t.name
      && d[6 + n] == Flag(t.isArray)
      && d[7 + n..9 + n] == BE(t.meta0, 2)
      && d[9 + n..11 + n] == BE(t.meta1, 2)
  {
  }

  lemma DataTypeRoundTrip(t: DataType, rest: seq<byte>)
    requires |t.name| < TWO_32
    ensures ReadDataType(DataTypeBytes(t) + rest) == Some(t)
  {
    DataTypeSlices(t, rest);
    Pow256Values();
    BERoundTrip(0, 2);
    BERoundTrip(|t.name|, 4);
    U16OfBE(t.meta0);
    U16OfBE(t.meta1);
  }

  /** Writes bytes into b from offset on; the rest of b stays. */
  method Put(b: array<byte>, offset: nat, bytes: seq<byte>)
    requires offset + |bytes| <= b.Length
    modifies b
    ensures b[offset..offset + |bytes|] == bytes
    ensures b[..offset] == old(b[..offset])
    ensures b[offset + |bytes|..] == old(b[offset + |bytes|..])
  {
    for i := 0 to |bytes|
      invariant b[offset..offset + i] == bytes[..i]
      invariant b[..offset] == old(b[..offset])
      invariant b[offset + |bytes|..] == old(b[offset + |bytes|..])
    {
      b[offset + i] := bytes[i];
    }
  }

  /** MarshalBinary fills a buffer of the predicted size field by field. */
  method MarshalBinary(t: DataType) returns (b: array<byte>)
    ensures fresh(b) && b[..] == DataTypeBytes(t)
  {
    b := new byte[SerializeSize(t)](_ => 0);
    Put(b, 0, BE(0, 2));
    var offset := 2;
    Put(b, offset, BE(|t.name|, 4));
    assert b[..6] == BE(0, 2) + BE(|t.name|, 4);
    offset := offset + 4;
    Put(b, offset, t.name);
    assert b[..6 + |t.name|] == BE(0, 2) + BE(|t.name|, 4) + t.name;
    offset := offset + |t.name|;
    PutTail(b, offset, t);
    assert b[..] == b[..offset] + b[offset..];
  }

  method PutTail(b: array<byte>, offset: nat, t: DataType)
    requires offset + 5 == b.Length
    modifies b
    ensures b[..offset] == old(b[..offset])
    ensures b[offset..] == [Flag(t.isArray)] + BE(t.meta0, 2) + BE(t.meta1, 2)
  {
    ghost var front := b[..offset];
    b[offset] := Flag(t.isArray);
    assert b[..offset + 1] == front + [Flag(t.isArray)];
    Put(b, offset + 1, BE(t.meta0, 2));
    assert b[..offset + 3] == front + ([Flag(t.isArray)] + BE(t.meta0, 2)) by {
      assert b[..offset + 3] == b[..offset + 1] + b[offset + 1..offset + 3];
    }
    Put(b, offset + 3, BE(t.meta1, 2));
    assert b[..] == b[..offset + 3] + b[offset + 3..offset + 5];
    assert b[..] == front + ([Flag(t.isArray)] + BE(t.meta0, 2) + BE(t.meta1, 2));
    assert b[..offset] == b[..][..offset] && b[offset..] == b[..][offset..];
  }
}
