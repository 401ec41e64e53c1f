/** One download attempt of one chunk (downloadChunkAttempt in node/statesyncer.go), on the chunk's two files. */
module ChunkDownload {
  import opened Bytes
  import opened ChunkFetch

  /** What the peer and the file system do in one attempt: the reads of the stream in order, and what fails. */
  datatype Luck = Luck(dial: Choice, pieces: seq<seq<byte>>, copyFails: bool, closeFails: bool,
                       unreadable: bool, renameFails: bool)

  /** The steps of the worker machine, one after the other. */
  function Follow<H(==)>(sn: Snap<H>, f: Files, cs: seq<Choice>): Files {
    if cs == [] then f else Download(sn, Follow(sn, f, cs[..|cs| - 1]), cs[|cs| - 1])
  }

  lemma {:induction false} FollowAppend<H>(sn: Snap<H>, f: Files, a: seq<Choice>, b: seq<Choice>)
    ensures Follow(sn, f, a + b) == Follow(sn, Follow(sn, f, a), b)
  {
    if b == [] {
      assert a + b == a;
    } else {
      var init, c := b[..|b| - 1], b[|b| - 1];
      FollowAppend(sn, f, a, init);
      assert a + b == (a + init) + [c];
    }
  }

  lemma FollowOne<H>(sn: Snap<H>, f: Files, c: Choice)
    ensures Follow(sn, f, [c]) == Download(sn, f, c)
  {
    assert [c][..0] == [];
  }

  lemma FollowTwo<H>(sn: Snap<H>, f: Files, c: Choice, d: Choice)
    ensures Follow(sn, f, [c, d]) == Download(sn, Download(sn, f, c), d)
  {
    FollowOne(sn, f, c);
    assert [c] + [d] == [c, d];
  }

  lemma FollowThree<H>(sn: Snap<H>, f: Files, c: Choice, d: Choice, e: Choice)
    ensures Follow(sn, f, [c, d, e]) == Download(sn, Download(sn, Download(sn, f, c), d), e)
  {
    FollowTwo(sn, f, c, d);
    assert [c, d] + [e] == [c, d, e];
  }

  /** Any number of steps keeps what one step keeps. */
  lemma {:induction false} FollowKeeps<H>(sn: Snap<H>, f: Files, cs: seq<Choice>, i: nat)
    requires Chunk(f.pc) == Some(i) && InDownload(f.pc) && FilesOk(sn, f) && FinalOk(sn, i, f.final)
    ensures var f' := Follow(sn, f, cs);
      && FilesOk(sn, f') && FinalOk(sn, i, f'.final)
      && (Chunk(f'.pc) == Some(i) || (f'.pc.NextTask? && f'.final.Some?))
  {
    if cs != [] {
      var f1 := Follow(sn, f, cs[..|cs| - 1]);
      FollowKeeps(sn, f, cs[..|cs| - 1], i);
      if InDownload(f1.pc) { DownloadKeeps(sn, f1, cs[|cs| - 1], i); }
    }
  }

  class ChunkFiles<!H(==)> {
    const sn: Snap<H>
    const index: nat
    var temp: File
    var final: File

    constructor (sn: Snap<H>, index: nat)
      ensures this.sn == sn && this.index == index && temp == None && final == None
    {
      this.sn, this.index, temp, final := sn, index, None, None;
    }

    ghost function At(pc: Worker): Files
      reads this
    {
      Files(pc, temp, final)
    }

    /** copyLimited: what the stream gives, up to `room` bytes, goes to the end of the temp file. */
    method CopyLimited(pieces: seq<seq<byte>>, room: nat, ghost k: nat, ghost resumable: bool)
      returns (left: nat, ghost cs: seq<Choice>)
      requires temp.Some?
      modifies this`temp
      ensures temp.Some? && left <= room && |temp.value| == |old(temp.value)| + (room - left)
      ensures old(temp.value) <= temp.value
      ensures Follow(sn, old(At(Copying(index, k, room, resumable))), cs) == At(Copying(index, k, left, resumable))
    {
      left, cs := room, [];
      for j := 0 to |pieces|
        invariant temp.Some? && left <= room && |temp.value| == |old(temp.value)| + (room - left)
        invariant old(temp.value) <= temp.value
        invariant Follow(sn, old(At(Copying(index, k, room, resumable))), cs) == At(Copying(index, k, left, resumable))
      {
        var piece := if |pieces[j]| <= left then pieces[j] else pieces[j][..left];
        temp := Some(temp.value + piece);
        left := left - |piece|;
        cs := cs + [Data(piece)];
      }
    }

    /** After the copy: the temp file stays on a broken stream that can be resumed, goes on a wrong hash,
        and becomes the chunk when all is well. */
    method Conclude(luck: Luck, resumable: bool, ghost k: nat, ghost left: nat)
      returns (ok: bool, ghost cs: seq<Choice>)
      requires temp.Some? && index < |sn.hashes|
      modifies this
      ensures ok ==> final.Some?
      ensures Follow(sn, old(At(Copying(index, k, left, resumable))), cs) ==
        At(if ok then NextTask else Failed(index, k))
    {
      ghost var f := At(Copying(index, k, left, resumable));
      if luck.copyFails {
        if !resumable { temp := None; }
        FollowOne(sn, f, Wrong);
        return false, [Wrong];
      }
      if luck.closeFails {
        if !resumable { temp := None; }
        FollowTwo(sn, f, Fine, Wrong);
        return false, [Fine, Wrong];
      }
      if luck.unreadable || sn.sha(temp.value) != sn.hashes[index] {
        temp := None;
        cs := [Fine, if luck.unreadable then Unreadable else Fine];
        FollowTwo(sn, f, Fine, cs[1]);
        return false, cs;
      }
      if luck.renameFails {
        temp := None;
        FollowThree(sn, f, Fine, Fine, Wrong);
        return false, [Fine, Fine, Wrong];
      }
      final := temp;
      temp := None;
      FollowThree(sn, f, Fine, Fine, Fine);
      return true, [Fine, Fine, Fine];
    }

    /** The temp file that the copy goes on with, and how much may still be copied. */
    method Open(dial: Choice, ghost k: nat) returns (room: nat, resumable: bool)
      requires Size(temp) <= CHUNK_SIZE && final.None? && !dial.Wrong?
      modifies this
      ensures temp.Some? && final.None?
      ensures Follow(sn, old(At(Stat(index, k))), [Fine, dial]) == At(Copying(index, k, room, resumable))
    {
      FollowTwo(sn, At(Stat(index, k)), Fine, dial);
      var n := Size(temp);
      room, resumable := CHUNK_SIZE, true;
      if dial.Unsupported? {
        final := None;
        temp := Some([]);
        resumable := false;
      } else if n == 0 {
        temp := Some([]);
      } else {
        room := CHUNK_SIZE - n;
      }
    }

    ghost predicate Sound()
      reads this
    {
      Size(temp) <= CHUNK_SIZE && FinalOk(sn, index, final)
    }

    /** downloadChunkAttempt: whatever the peer sends and whatever fails, the files go where a run of worker
        steps takes them; so they stay sound, and success means a chunk. */
    method Attempt(luck: Luck, ghost k: nat) returns (ok: bool, ghost cs: seq<Choice>)
      requires index < |sn.hashes|
      modifies this
      ensures ok ==> final.Some?
      ensures old(Sound()) ==> Sound()
      ensures Follow(sn, old(At(Stat(index, k))), cs) == At(if ok then NextTask else Failed(index, k))
    {
      ghost var f := At(Stat(index, k));
      ghost var sound := Sound();
      if final.Some? {
        FollowOne(sn, f, Fine);
        return true, [Fine];
      }
      if Size(temp) > CHUNK_SIZE || luck.dial.Wrong? {
        if Size(temp) > CHUNK_SIZE { temp := None; }
        FollowTwo(sn, f, Fine, luck.dial);
        return false, [Fine, luck.dial];
      }
      var room, resumable := Open(luck.dial, k);
      var left;
      ghost var cs1, cs2;
      left, cs1 := CopyLimited(luck.pieces, room, k, resumable);
      ok, cs2 := Conclude(luck, resumable, k, left);
      cs := [Fine, luck.dial] + cs1 + cs2;
      FollowAppend(sn, f, [Fine, luck.dial], cs1);
      FollowAppend(sn, f, [Fine, luck.dial] + cs1, cs2);
      if sound { FollowKeeps(sn, f, cs, index); }
    }
  }
}
