/** The reader over the downloaded chunks (Streamer in node/statesyncer.go): reads of any size give the chunks one
    after the other. A read of a file may give fewer bytes than asked for. */
module Streams {
  import opened Bytes
  import opened ChunkFetch

  datatype Outcome = More | End | Missing

  function Body(f: File): seq<byte> { if f.Some? then f.value else [] }

  /** The chunk files from i on, one after the other. */
  function From(files: seq<File>, i: nat): seq<byte>
    requires i <= |files|
    decreases |files| - i
  {
    if i == |files| then [] else Body(files[i]) + From(files, i + 1)
  }

  class Streamer {
    const files: seq<File>
    var current: Option<seq<byte>>  // what is left of the open file
    var index: nat

    ghost predicate Valid()
      reads this
    {
      index <= |files|
    }

    ghost function Rest(): seq<byte>
      requires Valid()
      reads this
    {
      Body(current) + From(files, index)
    }

    predicate AtEnd()
      reads this
    {
      current.None? && index == |files|
    }

    constructor (files: seq<File>)
      ensures this.files == files && Valid() && Rest() == From(files, 0)
    {
      this.files, current, index := files, None, 0;
    }

    method Next() returns (o: Outcome)
      requires Valid() && current.None?
      modifies this
      ensures Valid() && Rest() == old(Rest())
      ensures o.End? <==> old(index) == |files|
      ensures o.Missing? <==> old(index) < |files| && files[old(index)].None?
      ensures if o.More? then current.Some? && index == old(index) + 1 else current.None? && index == old(index)
    {
      if index >= |files| { return End; }
      if files[index].None? { return Missing; }
      current := files[index];
      index := index + 1;
      return More;
    }

    /** A read gives the next bytes, some if any are left. The end is reported by the read after the one that found
        the last file at its end. */
    method Read(max: nat) returns (data: seq<byte>, o: Outcome)
      requires Valid()
      modifies this
      ensures Valid() && |data| <= max && data + Rest() == old(Rest())
      ensures o.End? <==> old(AtEnd())
      ensures o.End? ==> AtEnd() && data == []
      ensures o.Missing? ==> index < |files| && files[index].None?
      ensures o.More? && max > 0 ==> if old(Rest()) != [] then data != [] else AtEnd()
      decreases |files| - index, current.Some?
    {
      if current.None? {
        o := Next();
        if !o.More? { return [], o; }
      }
      if max == 0 { return [], More; }
      if current.value != [] {
        var n :| 0 < n <= max && n <= |current.value|;
        data := current.value[..n];
        current := Some(current.value[n..]);
        return data, More;
      }
      current := None;
      if index < |files| {
        data, o := Read(max);
      } else {
        return [], More;
      }
    }

    /** Reading to the end gives the chunks in order, whole, and nothing else. */
    method Drain(max: nat) returns (out: seq<byte>, o: Outcome)
      requires Valid() && max > 0
      modifies this
      ensures o.End? ==> out == old(Rest())
      ensures (forall i :: 0 <= i < |files| ==> files[i].Some?) ==> o.End?
      ensures !o.More? && out <= old(Rest())
    {
      out, o := [], More;
      while o.More?
        invariant Valid() && out + Rest() == old(Rest())
        invariant o.End? ==> AtEnd()
        invariant o.Missing? ==> index < |files| && files[index].None?
        decreases o.More?, |Rest()|, !AtEnd()
      {
        var data;
        data, o := Read(max);
        out := out + data;
      }
    }
  }
}
