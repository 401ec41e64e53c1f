/** The dump filter in front of psql (writeRestrictedDump in node/statesyncer.go): it writes a \restrict line of
    its own and drops the pair of lines that newer pg_dump versions put into the dump. Lines are read through a
    buffer of `cap` bytes, and a line that does not fit the buffer passes in pieces. */
module RestrictedDump {
  import opened Bytes

  const NEWLINE: byte := 10

  predicate IsSpace(b: byte) { b == 32 || 9 <= b <= 13 }

  // ---- words ----

  function SkipSpace(s: seq<byte>, i: nat): (j: nat)
    requires i <= |s|
    ensures i <= j <= |s|
    ensures j < |s| ==> !IsSpace(s[j])
    decreases |s| - i
  {
    if i < |s| && IsSpace(s[i]) then SkipSpace(s, i + 1) else i
  }

  function WordEnd(s: seq<byte>, i: nat): (j: nat)
    requires i <= |s|
    ensures i <= j <= |s|
    ensures i < |s| && !IsSpace(s[i]) ==> i < j
    decreases |s| - i
  {
    if i < |s| && !IsSpace(s[i]) then WordEnd(s, i + 1) else i
  }

  /** strings.Fields on the bytes from i on. */
  function Fields(s: seq<byte>, i: nat): seq<seq<byte>>
    requires i <= |s|
    decreases |s| - i
  {
    var a := SkipSpace(s, i);
    if a == |s| then [] else
    var b := WordEnd(s, a);
    [s[a..b]] + Fields(s, b)
  }

  function TrimmedEnd(s: seq<byte>, from: nat, to: nat): (j: nat)
    requires from <= to <= |s|
    ensures from <= j <= to
  {
    if from < to && IsSpace(s[to - 1]) then TrimmedEnd(s, from, to - 1) else to
  }

  function TrimSpace(s: seq<byte>): seq<byte> {
    var a := SkipSpace(s, 0);
    s[a..TrimmedEnd(s, a, |s|)]
  }

  /** \restrict */
  const RESTRICT: seq<byte> := [92, 114, 101, 115, 116, 114, 105, 99, 116]

  /** \unrestrict, with the space behind it */
  const UNRESTRICT: seq<byte> := [92, 117, 110, 114, 101, 115, 116, 114, 105, 99, 116, 32]

  /** pgDumpRestrictKey: the key of a line that opens a pair. */
  function Opens(line: seq<byte>): Option<seq<byte>> {
    var f := Fields(line, 0);
    if |f| == 2 && f[0] == RESTRICT then Some(f[1]) else None
  }

  predicate Closes(line: seq<byte>, key: seq<byte>) { TrimSpace(line) == UNRESTRICT + key }

  // ---- lines ----

  /** The end of the line that starts at p: behind its newline, or the end of the dump. */
  function LineEnd(s: seq<byte>, p: nat): (q: nat)
    requires p <= |s|
    ensures p <= q <= |s|
    ensures p < |s| ==> p < q
    ensures q < |s| ==> p < q && s[q - 1] == NEWLINE
    ensures forall i :: p <= i < q - 1 ==> s[i] != NEWLINE
    decreases |s| - p
  {
    if p == |s| then p else if s[p] == NEWLINE then p + 1 else LineEnd(s, p + 1)
  }

  /** The buffer's size, and whether the read behind the last byte fails instead of reporting the end. */
  datatype Reader = Reader(cap: nat, fails: bool)

  predicate Terminated(s: seq<byte>, p: nat)
    requires p <= |s|
  {
    var q := LineEnd(s, p);
    p < q && s[q - 1] == NEWLINE
  }

  /** The line at p reaches the caller in one piece and as a whole line. */
  predicate Fits(s: seq<byte>, p: nat, rd: Reader)
    requires p <= |s|
  {
    if Terminated(s, p) then LineEnd(s, p) - p <= rd.cap else !rd.fails && LineEnd(s, p) - p < rd.cap
  }

  datatype Status = Line | Full | Eof | Broken

  predicate Complete(status: Status) { status.Line? || status.Eof? }

  /** ReadSlice on a file: up to the newline, or a full buffer, or what is left. */
  function ReadSlice(s: seq<byte>, p: nat, rd: Reader): (r: (nat, Status))
    requires p <= |s| && 0 < rd.cap
    ensures p <= r.0 <= |s|
    ensures r.1.Eof? || r.1.Broken? ==> r.0 == |s|
    ensures r.1.Line? || r.1.Full? ==> p < r.0
  {
    if Terminated(s, p) && LineEnd(s, p) - p <= rd.cap then (LineEnd(s, p), Line)
    else if |s| - p >= rd.cap then (p + rd.cap, Full)
    else (|s|, if rd.fails then Broken else Eof)
  }

  // ---- line by line ----

  predicate Drops(s: seq<byte>, p: nat, first: bool, key: Option<seq<byte>>, rd: Reader)
    requires p <= |s|
  {
    var line := s[p..LineEnd(s, p)];
    Fits(s, p, rd) && if first then Opens(line).Some? else key.Some? && Closes(line, key.value)
  }

  function NextKey(s: seq<byte>, p: nat, first: bool, key: Option<seq<byte>>, rd: Reader): Option<seq<byte>>
    requires p <= |s|
  {
    if !Fits(s, p, rd) then key
    else if first then Opens(s[p..LineEnd(s, p)])
    else if Drops(s, p, first, key, rd) then None
    else key
  }

  /** What is kept of the dump from the line start p on. */
  function Kept(s: seq<byte>, p: nat, first: bool, key: Option<seq<byte>>, rd: Reader): seq<byte>
    requires p <= |s|
    decreases |s| - p
  {
    if p == |s| then [] else
    var q := LineEnd(s, p);
    var rest := Kept(s, q, false, NextKey(s, p, first, key, rd), rd);
    if Drops(s, p, first, key, rd) then rest else s[p..q] + rest
  }

  /** Inside a line the line end stays where it is. */
  lemma {:induction false} Middle(s: seq<byte>, start: nat, p: nat)
    requires start <= p <= |s| && p <= LineEnd(s, start)
    requires Terminated(s, start) ==> p < LineEnd(s, start)
    ensures LineEnd(s, p) == LineEnd(s, start)
    decreases p - start
  {
    if start < p { Middle(s, start + 1, p); }
  }

  /** The read at a line start returns the whole line exactly when it fits. */
  lemma WholeLine(s: seq<byte>, p: nat, rd: Reader)
    requires p <= |s| && 0 < rd.cap
    ensures var (q, status) := ReadSlice(s, p, rd);
      (Complete(status) <==> Fits(s, p, rd)) && (Complete(status) ==> q == LineEnd(s, p))
  {
  }

  /** A read in the middle of a line goes on to the end of the line or of the buffer. */
  lemma NextPiece(s: seq<byte>, start: nat, p: nat, rd: Reader)
    requires start <= p <= |s| && p <= LineEnd(s, start) && 0 < rd.cap
    requires Terminated(s, start) ==> p < LineEnd(s, start)
    ensures var (q, status) := ReadSlice(s, p, rd);
      && p <= q <= LineEnd(s, start)
      && (Complete(status) ==> q == LineEnd(s, start))
      && (!Complete(status) ==> (Terminated(s, start) ==> q < LineEnd(s, start)))
  {
    Middle(s, start, p);
  }

  /** Nothing is read as a pair where nothing is left. */
  lemma NothingLeft(key: seq<byte>)
    ensures Opens([]).None? && !Closes([], key)
  {
  }

  /** What the filter still has to write when it stands at p in the line that starts at `start`. */
  ghost function Remaining(
      s: seq<byte>, start: nat, p: nat, whole: bool, first: bool, key: Option<seq<byte>>, rd: Reader): seq<byte>
    requires start <= p <= |s| && p <= LineEnd(s, start)
  {
    if whole then Kept(s, p, first, key, rd)
    else s[p..LineEnd(s, start)] + Kept(s, LineEnd(s, start), false, key, rd)
  }

  lemma LineStep(s: seq<byte>, p: nat, first: bool, key: Option<seq<byte>>, rd: Reader)
    requires p <= |s| && 0 < rd.cap && Fits(s, p, rd) && (first ==> key.None?)
    ensures var q := LineEnd(s, p);
      Kept(s, p, first, key, rd) ==
        (if Drops(s, p, first, key, rd) then [] else s[p..q]) + Kept(s, q, false, NextKey(s, p, first, key, rd), rd)
  {
    if p == |s| {
      assert s[p..p] == [];
      NothingLeft(if key.Some? then key.value else []);
    }
  }

  lemma Split(s: seq<byte>, p: nat, q: nat, e: nat, rest: seq<byte>)
    requires p <= q <= e <= |s|
    ensures s[p..e] + rest == s[p..q] + (s[q..e] + rest)
  {
    assert s[p..e] == s[p..q] + s[q..e];
    Regroup2(s[p..q], s[q..e], rest);
  }

  /** A long line starts: its first piece is written, and the rest of it remains. */
  lemma LongLine(s: seq<byte>, p: nat, q: nat, first: bool, key: Option<seq<byte>>, rd: Reader)
    requires p <= q <= |s| && q <= LineEnd(s, p) && 0 < rd.cap && !Fits(s, p, rd)
    ensures Kept(s, p, first, key, rd) == s[p..q] + Remaining(s, p, q, false, false, key, rd)
  {
    Split(s, p, q, LineEnd(s, p), Kept(s, LineEnd(s, p), false, key, rd));
  }

  lemma LongPiece(s: seq<byte>, start: nat, p: nat, q: nat, first: bool, key: Option<seq<byte>>, rd: Reader)
    requires start <= p <= q <= |s| && q <= LineEnd(s, start)
    ensures Remaining(s, start, p, false, first, key, rd) == s[p..q] + Remaining(s, start, q, false, false, key, rd)
  {
    Split(s, p, q, LineEnd(s, start), Kept(s, LineEnd(s, start), false, key, rd));
  }

  lemma LineDone(s: seq<byte>, start: nat, key: Option<seq<byte>>, rd: Reader)
    requires start <= |s|
    ensures var e := LineEnd(s, start);
      Remaining(s, start, e, false, false, key, rd) == Remaining(s, e, e, true, false, key, rd)
  {
    var e := LineEnd(s, start);
    assert s[e..e] == [];
    assert [] + Kept(s, e, false, key, rd) == Kept(s, e, false, key, rd);
  }

  /** The loop's state: the position, the start of its line, and the three variables of the source. */
  datatype State = State(start: nat, p: nat, atLineStart: bool, firstLine: bool, dropKey: Option<seq<byte>>)

  ghost predicate Valid(s: seq<byte>, st: State) {
    && st.start <= st.p <= |s| && st.p <= LineEnd(s, st.start)
    && (st.firstLine ==> st.dropKey.None?)
    && (st.atLineStart ==> st.p == st.start)
    && (!st.atLineStart ==> (Terminated(s, st.start) ==> st.p < LineEnd(s, st.start)))
  }

  ghost function Left(s: seq<byte>, st: State, rd: Reader): seq<byte>
    requires Valid(s, st)
  {
    Remaining(s, st.start, st.p, st.atLineStart, st.firstLine, st.dropKey, rd)
  }

  predicate DropsChunk(chunk: seq<byte>, whole: bool, first: bool, key: Option<seq<byte>>) {
    whole && if first then Opens(chunk).Some? else key.Some? && Closes(chunk, key.value)
  }

  function KeyAfter(chunk: seq<byte>, whole: bool, first: bool, key: Option<seq<byte>>): Option<seq<byte>> {
    if !whole then key else if first then Opens(chunk)
    else if key.Some? && Closes(chunk, key.value) then None else key
  }

  ghost function After(s: seq<byte>, st: State, rd: Reader): State
    requires Valid(s, st) && 0 < rd.cap
  {
    var (q, status) := ReadSlice(s, st.p, rd);
    var complete := Complete(status);
    var key := KeyAfter(s[st.p..q], st.atLineStart && complete, st.firstLine, st.dropKey);
    State(if complete then q else st.start, q, complete, st.firstLine && !complete, key)
  }

  ghost function Piece(s: seq<byte>, st: State, rd: Reader): seq<byte>
    requires Valid(s, st) && 0 < rd.cap
  {
    var (q, status) := ReadSlice(s, st.p, rd);
    if DropsChunk(s[st.p..q], st.atLineStart && Complete(status), st.firstLine, st.dropKey) then [] else s[st.p..q]
  }

  lemma AfterValid(s: seq<byte>, st: State, rd: Reader)
    requires Valid(s, st) && 0 < rd.cap
    ensures Valid(s, After(s, st, rd))
  {
    NextPiece(s, st.start, st.p, rd);
    WholeLine(s, st.p, rd);
  }

  /** A read at a line start writes what the line-by-line filter writes. */
  lemma StartRead(s: seq<byte>, st: State, rd: Reader)
    requires Valid(s, st) && 0 < rd.cap && st.atLineStart && Valid(s, After(s, st, rd))
    ensures Left(s, st, rd) == Piece(s, st, rd) + Left(s, After(s, st, rd), rd)
  {
    var (q, status) := ReadSlice(s, st.p, rd);
    WholeLine(s, st.p, rd);
    if Complete(status) {
      LineStep(s, st.p, st.firstLine, st.dropKey, rd);
    } else {
      LongLine(s, st.p, q, st.firstLine, st.dropKey, rd);
    }
  }

  lemma MiddleRead(s: seq<byte>, st: State, rd: Reader)
    requires Valid(s, st) && 0 < rd.cap && !st.atLineStart && Valid(s, After(s, st, rd))
    ensures Left(s, st, rd) == Piece(s, st, rd) + Left(s, After(s, st, rd), rd)
  {
    var (q, status) := ReadSlice(s, st.p, rd);
    NextPiece(s, st.start, st.p, rd);
    LongPiece(s, st.start, st.p, q, st.firstLine, st.dropKey, rd);
    if Complete(status) { LineDone(s, st.start, st.dropKey, rd); }
  }

  /** What is written and what is left make up the whole output. */
  ghost predicate Written(opening: seq<byte>, s: seq<byte>, rd: Reader, out: seq<byte>, st: State) {
    Valid(s, st) && opening + Kept(s, 0, true, None, rd) == out + Left(s, st, rd)
  }

  lemma NothingWritten(opening: seq<byte>, s: seq<byte>, rd: Reader)
    ensures Written(opening, s, rd, opening, State(0, 0, true, true, None))
  {
  }

  lemma OneRead(opening: seq<byte>, s: seq<byte>, rd: Reader, out: seq<byte>, st: State)
    requires Written(opening, s, rd, out, st) && 0 < rd.cap
    ensures Written(opening, s, rd, out + Piece(s, st, rd), After(s, st, rd))
  {
    AfterValid(s, st, rd);
    if st.atLineStart { StartRead(s, st, rd); } else { MiddleRead(s, st, rd); }
    Regroup2(out, Piece(s, st, rd), Left(s, After(s, st, rd), rd));
  }

  lemma AllWritten(opening: seq<byte>, s: seq<byte>, rd: Reader, out: seq<byte>, st: State)
    requires Written(opening, s, rd, out, st) && st.p == |s|
    ensures out == opening + Kept(s, 0, true, None, rd)
  {
    assert s[|s|..|s|] == [];
  }

  /** Whether the chunk is dropped, and the key to look for next. */
  method Decide(chunk: seq<byte>, whole: bool, first: bool, key: Option<seq<byte>>)
    returns (drop: bool, next: Option<seq<byte>>)
    ensures drop == DropsChunk(chunk, whole, first, key)
    ensures next == KeyAfter(chunk, whole, first, key)
  {
    drop, next := false, key;
    if whole {
      if first {
        next := Opens(chunk);
        drop := next.Some?;
      } else if key.Some? && Closes(chunk, key.value) {
        next := None;
        drop := true;
      }
    }
  }

  function HexDigit(n: nat): byte
    requires n < 16
  {
    if n < 10 then 48 + n else 87 + n
  }

  /** %x */
  function Hex(bytes: seq<byte>): (r: seq<byte>)
    ensures |r| == 2 * |bytes|
    ensures forall i :: 0 <= i < |r| ==> !IsSpace(r[i])
  {
    if bytes == [] then [] else [HexDigit(bytes[0] / 16), HexDigit(bytes[0] % 16)] + Hex(bytes[1..])
  }

  function OpeningLine(key: seq<byte>): seq<byte> { RESTRICT + [32] + key + [NEWLINE] }

  /** Everything the filter writes: its own opening line, and what it keeps of the dump. */
  function Output(key: seq<byte>, s: seq<byte>, rd: Reader): seq<byte> {
    OpeningLine(Hex(key)) + Kept(s, 0, true, None, rd)
  }

  /** The filter's loop. The buffer splits long lines, yet whole lines are kept or dropped. Every write takes at
      least a byte further, so with as many writes as bytes none is refused. */
  method WriteKept(opening: seq<byte>, s: seq<byte>, rd: Reader, writes: nat) returns (out: seq<byte>, ok: bool)
    requires 0 < rd.cap
    ensures out <= opening + Kept(s, 0, true, None, rd)
    ensures ok || writes >= |s| ==> out == opening + Kept(s, 0, true, None, rd)
    ensures (ok ==> !rd.fails) && (writes >= |s| ==> ok == !rd.fails)
  {
    out := opening;
    var left := writes;
    var p: nat := 0;
    var dropKey: Option<seq<byte>> := None;
    var atLineStart, firstLine, done := true, true, false;
    ghost var start: nat := 0;
    ok := false;
    NothingWritten(opening, s, rd);
    while !done
      invariant Written(opening, s, rd, out, State(start, p, atLineStart, firstLine, dropKey))
      invariant done ==> p == |s| && ok == !rd.fails
      invariant left + p >= writes
      decreases !done, |s| - p
    {
      ghost var st := State(start, p, atLineStart, firstLine, dropKey);
      OneRead(opening, s, rd, out, st);
      ghost var out' := out + Piece(s, st, rd);
      var (q, status) := ReadSlice(s, p, rd);
      var chunk := s[p..q];
      var lineComplete := Complete(status);
      var drop;
      drop, dropKey := Decide(chunk, atLineStart && lineComplete, firstLine, dropKey);
      if !drop && |chunk| > 0 {
        if left == 0 {
          return out, false;
        }
        left := left - 1;
        out := out + chunk;
      }
      assert out == out';
      atLineStart := lineComplete;
      if lineComplete {
        firstLine := false;
        start := q;
      }
      p := q;
      assert State(start, p, atLineStart, firstLine, dropKey) == After(s, st, rd);
      done := status.Eof? || status.Broken?;
      ok := status.Eof?;
    }
    AllWritten(opening, s, rd, out, State(start, p, atLineStart, firstLine, dropKey));
  }

  /** writeRestrictedDump with its random key. `writes` is how many writes succeed: more than there are bytes, and
      the whole output is written; fewer, and what is written is the front of it. */
  method WriteRestrictedDump(key: seq<byte>, s: seq<byte>, rd: Reader, writes: nat) returns (out: seq<byte>, ok: bool)
    requires |key| == 32 && 0 < rd.cap
    ensures out <= Output(key, s, rd)
    ensures ok || writes > |s| ==> out == Output(key, s, rd)
    ensures (ok ==> !rd.fails) && (writes > |s| ==> ok == !rd.fails)
  {
    if writes == 0 {
      return [], false;
    }
    out, ok := WriteKept(OpeningLine(Hex(key)), s, rd, writes - 1);
  }

  // ---- what is dropped ----

  predicate LineStart(s: seq<byte>, p: nat) { p < |s| && (p == 0 || s[p - 1] == NEWLINE) }

  /** A line that fits the buffer and closes the pair of `key` starts at p. */
  predicate ClosesAt(s: seq<byte>, p: nat, key: seq<byte>, rd: Reader) {
    LineStart(s, p) && Fits(s, p, rd) && Closes(s[p..LineEnd(s, p)], key)
  }

  /** c is the first closing line from p on, or the end of the dump when there is none. */
  ghost predicate FirstClose(s: seq<byte>, p: nat, key: seq<byte>, rd: Reader, c: nat) {
    && p <= c <= |s|
    && (c < |s| ==> ClosesAt(s, c, key, rd))
    && (forall i: nat :: p <= i < c ==> !ClosesAt(s, i, key, rd))
  }

  lemma {:induction false} KeptWithoutKey(s: seq<byte>, p: nat, rd: Reader)
    requires p <= |s|
    ensures Kept(s, p, false, None, rd) == s[p..]
    decreases |s| - p
  {
    if p < |s| {
      var q := LineEnd(s, p);
      KeptWithoutKey(s, q, rd);
      assert s[p..] == s[p..q] + s[q..];
    }
  }

  lemma {:induction false} KeptWithKey(s: seq<byte>, p: nat, key: seq<byte>, rd: Reader) returns (c: nat)
    requires p <= |s| && (p < |s| ==> LineStart(s, p))
    ensures FirstClose(s, p, key, rd, c)
    ensures Kept(s, p, false, Some(key), rd) == s[p..c] + s[LineEnd(s, c)..]
    decreases |s| - p
  {
    if p == |s| {
      c := p;
    } else {
      var q := LineEnd(s, p);
      if ClosesAt(s, p, key, rd) {
        c := p;
        KeptWithoutKey(s, q, rd);
        assert s[p..p] == [];
      } else {
        c := KeptWithKey(s, q, key, rd);
        Split(s, p, q, c, s[LineEnd(s, c)..]);
        forall i: nat | p <= i < q ensures !ClosesAt(s, i, key, rd) {
          assert i > p ==> s[i - 1] != NEWLINE;
        }
      }
    }
  }

  /** The key of a first line that fits the buffer and opens a pair. */
  function FirstKey(s: seq<byte>, rd: Reader): Option<seq<byte>> {
    if s != [] && Fits(s, 0, rd) then Opens(s[..LineEnd(s, 0)]) else None
  }

  /** The dump passes unchanged but for one pair: a first line that opens it, and the first later line that closes
      it. */
  lemma AtMostOnePair(s: seq<byte>, rd: Reader)
    ensures FirstKey(s, rd).None? ==> Kept(s, 0, true, None, rd) == s
    ensures FirstKey(s, rd).Some? ==>
      exists c: nat :: FirstClose(s, LineEnd(s, 0), FirstKey(s, rd).value, rd, c) &&
        Kept(s, 0, true, None, rd) == s[LineEnd(s, 0)..c] + s[LineEnd(s, c)..]
  {
    if s != [] {
      var q := LineEnd(s, 0);
      assert s[0..q] == s[..q];
      if FirstKey(s, rd).Some? {
        var c := KeptWithKey(s, q, FirstKey(s, rd).value, rd);
      } else {
        KeptWithoutKey(s, q, rd);
        assert s[..q] + s[q..] == s;
      }
    }
  }

  // ---- pg_dump's own pair ----

  predicate Word(w: seq<byte>) { w != [] && forall i :: 0 <= i < |w| ==> !IsSpace(w[i]) }

  function ClosingLine(key: seq<byte>): seq<byte> { UNRESTRICT + key + [NEWLINE] }

  lemma {:induction false} WordEndAt(s: seq<byte>, i: nat, j: nat)
    requires i <= j <= |s| && (j < |s| ==> IsSpace(s[j]))
    requires forall k :: i <= k < j ==> !IsSpace(s[k])
    ensures WordEnd(s, i) == j
    decreases j - i
  {
    if i < j { WordEndAt(s, i + 1, j); }
  }

  lemma {:induction false} LineEndAt(s: seq<byte>, p: nat, q: nat)
    requires p < q <= |s| && s[q - 1] == NEWLINE
    requires forall k :: p <= k < q - 1 ==> s[k] != NEWLINE
    ensures LineEnd(s, p) == q
    decreases q - p
  {
    if p + 1 < q { LineEndAt(s, p + 1, q); }
  }

  lemma OpeningOpens(key: seq<byte>)
    requires Word(key)
    ensures Opens(OpeningLine(key)) == Some(key)
  {
    var s := OpeningLine(key);
    var n := |key| + 10;
    assert s[..9] == RESTRICT && s[9] == 32 && s[10..n] == key && s[n] == NEWLINE;
    assert forall k :: 10 <= k < n ==> s[k] == key[k - 10];
    WordEndAt(s, 0, 9);
    WordEndAt(s, 10, n);
    assert SkipSpace(s, 0) == 0 && SkipSpace(s, 9) == SkipSpace(s, 10) == 10;
    assert SkipSpace(s, n) == SkipSpace(s, n + 1) == n + 1;
    assert Fields(s, n) == [];
    assert Fields(s, 9) == [key] + Fields(s, n);
    assert Fields(s, 0) == [s[0..9]] + Fields(s, 9);
  }

  lemma ClosingCloses(key: seq<byte>)
    requires Word(key)
    ensures Closes(ClosingLine(key), key)
  {
    var s := ClosingLine(key);
    var n := |key| + 12;
    assert s[0] == 92 && s[n] == NEWLINE && s[n - 1] == key[|key| - 1];
    assert TrimmedEnd(s, 0, n + 1) == TrimmedEnd(s, 0, n) == n;
    assert s[0..n] == UNRESTRICT + key;
  }

  /** One line, with its newline. */
  predicate IsLine(line: seq<byte>) {
    line != [] && line[|line| - 1] == NEWLINE && forall k :: 0 <= k < |line| - 1 ==> line[k] != NEWLINE
  }

  lemma LineInside(s: seq<byte>, p: nat, q: nat)
    requires p <= q <= |s| && IsLine(s[p..q])
    ensures LineEnd(s, p) == q && p < q && s[q - 1] == NEWLINE
  {
    var line := s[p..q];
    assert s[q - 1] == line[|line| - 1];
    forall k | p <= k < q - 1 ensures s[k] != NEWLINE { assert s[k] == line[k - p]; }
    LineEndAt(s, p, q);
  }

  lemma {:induction false} BlockLineEnd(s: seq<byte>, e: nat, c: nat, i: nat)
    requires e <= i < c <= |s| && s[c - 1] == NEWLINE
    ensures LineEnd(s, i) == e + LineEnd(s[e..c], i - e)
    decreases c - i
  {
    assert s[e..c][i - e] == s[i];
    if s[i] != NEWLINE { BlockLineEnd(s, e, c, i + 1); }
  }

  lemma SliceOfSlice(s: seq<byte>, e: nat, c: nat, i: nat, q: nat)
    requires e <= i <= q <= c <= |s|
    ensures s[e..c][i - e..q - e] == s[i..q]
  {
    var t := s[e..c];
    forall k | 0 <= k < q - i ensures t[i - e..q - e][k] == s[i..q][k] {
      assert t[i - e + k] == s[i + k];
    }
  }

  /** A block of whole lines reads the same on its own as inside the dump. */
  lemma InsideBlock(s: seq<byte>, e: nat, c: nat, i: nat, key: seq<byte>, rd: Reader)
    requires e <= i < c <= |s| && s[c - 1] == NEWLINE
    requires ClosesAt(s, i, key, rd)
    ensures ClosesAt(s[e..c], i - e, key, rd)
  {
    var body := s[e..c];
    BlockLineEnd(s, e, c, i);
    var q := LineEnd(s, i);
    assert body[q - e - 1] == s[q - 1];
    SliceOfSlice(s, e, c, i, q);
    if i > e { assert body[i - e - 1] == s[i - 1]; }
  }

  ghost predicate NoClose(body: seq<byte>, key: seq<byte>, rd: Reader) { forall i: nat :: !ClosesAt(body, i, key, rd) }

  ghost predicate OpeningOf(f: seq<byte>, key: seq<byte>, rd: Reader) {
    IsLine(f) && |f| <= rd.cap && Opens(f) == Some(key)
  }

  ghost predicate ClosingOf(g: seq<byte>, key: seq<byte>, rd: Reader) { IsLine(g) && |g| <= rd.cap && Closes(g, key) }

  lemma FirstCloseIs(s: seq<byte>, e: nat, c: nat, n: nat, key: seq<byte>, rd: Reader)
    requires 0 < e <= c <= n <= |s| && s[c - 1] == NEWLINE
    requires NoClose(s[e..c], key, rd) && ClosingOf(s[c..n], key, rd)
    ensures FirstClose(s, e, key, rd, c) && LineEnd(s, c) == n && c < |s|
  {
    LineInside(s, c, n);
    assert ClosesAt(s, c, key, rd);
    forall i: nat | e <= i < c ensures !ClosesAt(s, i, key, rd) {
      if ClosesAt(s, i, key, rd) { InsideBlock(s, e, c, i, key, rd); }
    }
  }

  /** A dump with an opening line up to e and its closing line from c to n loses just these. */
  lemma PairIn(s: seq<byte>, e: nat, c: nat, n: nat, key: seq<byte>, rd: Reader)
    requires 0 < e <= c <= n <= |s| && s[c - 1] == NEWLINE
    requires OpeningOf(s[..e], key, rd) && NoClose(s[e..c], key, rd) && ClosingOf(s[c..n], key, rd)
    ensures Kept(s, 0, true, None, rd) == s[e..c] + s[n..]
  {
    assert s[0..e] == s[..e];
    LineInside(s, 0, e);
    FirstCloseIs(s, e, c, n, key, rd);
    AtMostOnePair(s, rd);
    var d: nat :| FirstClose(s, e, key, rd, d) && Kept(s, 0, true, None, rd) == s[e..d] + s[LineEnd(s, d)..];
    assert d == c;
  }

  lemma Parts(f: seq<byte>, body: seq<byte>, g: seq<byte>, tail: seq<byte>)
    requires IsLine(f) && (body == [] || body[|body| - 1] == NEWLINE)
    ensures var s, c := f + body + g + tail, |f| + |body|;
      && s[..|f|] == f && s[|f|..c] == body && s[c..c + |g|] == g && s[c + |g|..] == tail
      && s[c - 1] == NEWLINE
  {
  }

  lemma PairWith(s: seq<byte>, e: nat, c: nat, n: nat, body: seq<byte>, tail: seq<byte>, key: seq<byte>, rd: Reader)
    requires 0 < e <= c <= n <= |s| && s[c - 1] == NEWLINE && s[e..c] == body && s[n..] == tail
    requires OpeningOf(s[..e], key, rd) && NoClose(body, key, rd) && ClosingOf(s[c..n], key, rd)
    ensures Kept(s, 0, true, None, rd) == body + tail
  {
    PairIn(s, e, c, n, key, rd);
  }

  lemma PairOf(f: seq<byte>, body: seq<byte>, g: seq<byte>, tail: seq<byte>, key: seq<byte>, rd: Reader)
    requires OpeningOf(f, key, rd) && ClosingOf(g, key, rd) && NoClose(body, key, rd)
    requires body == [] || body[|body| - 1] == NEWLINE
    ensures Kept(f + body + g + tail, 0, true, None, rd) == body + tail
  {
    Parts(f, body, g, tail);
    PairWith(f + body + g + tail, |f|, |f| + |body|, |f| + |body| + |g|, body, tail, key, rd);
  }

  lemma LinesOfPair(key: seq<byte>, rd: Reader)
    requires Word(key) && |ClosingLine(key)| <= rd.cap
    ensures OpeningOf(OpeningLine(key), key, rd) && ClosingOf(ClosingLine(key), key, rd)
  {
    OpeningOpens(key);
    ClosingCloses(key);
  }

  /** The pair that pg_dump writes is removed, and everything else is kept. */
  lemma PairRemoved(key: seq<byte>, body: seq<byte>, tail: seq<byte>, rd: Reader)
    requires Word(key) && |ClosingLine(key)| <= rd.cap
    requires body == [] || body[|body| - 1] == NEWLINE
    requires NoClose(body, key, rd)
    ensures Kept(OpeningLine(key) + body + ClosingLine(key) + tail, 0, true, None, rd) == body + tail
  {
    LinesOfPair(key, rd);
    PairOf(OpeningLine(key), body, ClosingLine(key), tail, key, rd);
  }

  /** The output starts with a line that opens restricted mode with the new key. */
  lemma OutputOpens(key: seq<byte>, s: seq<byte>, rd: Reader)
    requires |key| == 32
    ensures var out := Output(key, s, rd);
      var q := LineEnd(out, 0);
      Opens(out[..q]) == Some(Hex(key)) && out[q..] == Kept(s, 0, true, None, rd)
  {
    var f, out := OpeningLine(Hex(key)), Output(key, s, rd);
    OpeningOpens(Hex(key));
    assert out[0..|f|] == f && out[..|f|] == f && out[|f|..] == Kept(s, 0, true, None, rd);
    LineInside(out, 0, |f|);
  }
}
