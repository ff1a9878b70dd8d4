/**
 * log_merger.py: a k-way merge of timestamped log files.
 *
 * Each input file is the sequence of lines `readline` returns before the end
 * of the file, and an open file handle is a position in that sequence. Such
 * a line is never empty (it keeps its newline, or is the unterminated last
 * line), since `readline` returns the empty string only at the end of the
 * file. A `Lines` value holding an empty string stands for no real file; the
 * model decodes such an element like any other line. The `--regex` pattern is a
 * matcher from a stripped line to its `date` and `msg` groups, and the
 * `--date-fmt` conversion is a function from the date text to an ordered
 * key. The merge keeps one pending message per open input (`dates_list` and
 * `msg_list`, held here as one list of entries) next to the list of open
 * files (`file_list`), and repeatedly writes the pending message with the
 * smallest date.
 */
module LogMerger {
  import opened Common

  /** The outcome of `regex_obj.match` on a stripped line: no match, or the two named groups. */
  datatype Match = NoMatch | Groups(date: string, msg: string)

  /** The pattern and the date format the merge is run with. */
  datatype LogFormat = LogFormat(matcher: string -> Match, parseDate: string -> int)

  /** A log message: its date key and its text. */
  datatype Entry = Entry(date: int, msg: string)

  type Lines = seq<string>

  // ---------------------------------------------------------------------------
  // The default pattern

  /** The first index from `start` on that holds `c`, or the length of `s` if there is none. */
  function IndexFrom(s: string, start: nat, c: char): (e: nat)
    requires start <= |s|
    ensures start <= e <= |s|
    ensures forall i | start <= i < e :: s[i] != c
    ensures e < |s| ==> s[e] == c
    decreases |s| - start
  {
    if start == |s| || s[start] == c then start else IndexFrom(s, start + 1, c)
  }

  /**
   * LOG_REGEX_STR_DEFAULT, `\[(?P<date>[^\]]+)\] (?P<msg>[^\n]+)`, applied
   * with `match` (anchored at the start of the line only): an opening
   * bracket, a non-empty date up to the first closing bracket, a bracket and
   * a space, then a non-empty message up to the first newline.
   */
  function DefaultPattern(line: string): (m: Match)
    ensures m.Groups? ==> m.date != [] && ']' !in m.date && m.msg != [] && '\n' !in m.msg
    ensures m.Groups? ==> |m.date| + |m.msg| + 3 <= |line|
                          && line[..|m.date| + |m.msg| + 3] == "[" + m.date + "] " + m.msg
  {
    if line == [] || line[0] != '[' then NoMatch
    else
      var close := IndexFrom(line, 1, ']');
      if close == 1 || close + 2 > |line| - 1 || line[close + 1] != ' ' then NoMatch
      else
        var end := IndexFrom(line, close + 2, '\n');
        if end == close + 2 then NoMatch
        else
          var d, msg := line[1..close], line[close + 2..end];
          assert line[..|d| + |msg| + 3] == "[" + d + "] " + msg;
          Groups(d, msg)
  }

  /** A line written as `[date] msg` gives back its date and message, whatever follows a newline. */
  lemma DefaultPatternReads(d: string, msg: string, tail: string)
    requires d != [] && ']' !in d && msg != [] && '\n' !in msg
    requires tail == [] || tail[0] == '\n'
    ensures DefaultPattern("[" + d + "] " + msg + tail) == Groups(d, msg)
  {
    DatePart(d, msg + tail);
    MessagePart("[" + d + "] ", msg, tail);
    assert "[" + d + "] " + msg + tail == "[" + d + "] " + (msg + tail);
  }

  /** In `[date] rest` the date runs up to the first closing bracket, which a space follows. */
  lemma DatePart(d: string, rest: string)
    requires d != [] && ']' !in d
    ensures var line := "[" + d + "] " + rest;
            && line[0] == '[' && line[|d| + 2] == ' '
            && IndexFrom(line, 1, ']') == |d| + 1 && line[1..|d| + 1] == d
  {
    var line := "[" + d + "] " + rest;
    assert forall i | 1 <= i < |d| + 1 :: line[i] == d[i - 1];
    assert line[|d| + 1] == ']';
    IndexFromIs(line, 1, ']', |d| + 1);
  }

  /** After a prefix `p`, the message runs up to the newline that starts `tail`. */
  lemma MessagePart(p: string, msg: string, tail: string)
    requires '\n' !in msg && (tail == [] || tail[0] == '\n')
    ensures IndexFrom(p + (msg + tail), |p|, '\n') == |p| + |msg|
    ensures (p + (msg + tail))[|p|..|p| + |msg|] == msg
  {
    var line := p + (msg + tail);
    assert forall i | |p| <= i < |p| + |msg| :: line[i] == msg[i - |p|];
    if tail != [] {
      assert line[|p| + |msg|] == tail[0];
    }
    IndexFromIs(line, |p|, '\n', |p| + |msg|);
  }

  lemma IndexFromIs(s: string, start: nat, c: char, e: nat)
    requires start <= e <= |s|
    requires forall i | start <= i < e :: s[i] != c
    requires e < |s| ==> s[e] == c
    ensures IndexFrom(s, start, c) == e
  {
  }

  /** The default pattern, with the date conversion of `--date-fmt`. */
  function DefaultFormat(parseDate: string -> int): LogFormat {
    LogFormat(DefaultPattern, parseDate)
  }

  // ---------------------------------------------------------------------------
  // read_next_msg

  /** The characters `str.rstrip()` removes. */
  predicate IsSpace(c: char) {
    c == ' ' || c == '\t' || c == '\n' || c == '\r' || c == 11 as char || c == 12 as char
  }

  /** `line.rstrip()`: the line without its trailing whitespace. */
  function Rstrip(s: string): (t: string)
    ensures |t| <= |s| && t == s[..|t|]
    ensures forall i | |t| <= i < |s| :: IsSpace(s[i])
    ensures t == [] || !IsSpace(t[|t| - 1])
    decreases |s|
  {
    if s != [] && IsSpace(s[|s| - 1]) then Rstrip(s[..|s| - 1]) else s
  }

  /** The message a line carries: the pattern matches it and both groups are non-empty. */
  function MessageOf(line: string, fmt: LogFormat): Option<Entry> {
    match fmt.matcher(Rstrip(line))
    case NoMatch => None
    case Groups(d, m) => if d != [] && m != [] then Some(Entry(fmt.parseDate(d), m)) else None
  }

  /** How a line is turned into its message, if it carries one. */
  type Decoder = string -> Option<Entry>

  /** The decoder of the pattern and date format: MessageOf. */
  function LineDecoder(fmt: LogFormat): Decoder {
    line => MessageOf(line, fmt)
  }

  /** The message `m`, if there is one, followed by `s`. */
  function Prepend(m: Option<Entry>, s: seq<Entry>): seq<Entry> {
    if m.Some? then [m.value] + s else s
  }

  /** The messages of the lines from `pos` on, in file order. */
  function Parsed(lines: Lines, pos: nat, decode: Decoder): seq<Entry>
    decreases |lines| - pos
  {
    if pos >= |lines| then [] else Prepend(decode(lines[pos]), Parsed(lines, pos + 1, decode))
  }

  /**
   * What read_next_msg returns from position `pos`, and where it leaves the
   * handle: the first message of the rest of the file, its line consumed, or
   * (None, None) with the whole rest of the file consumed.
   */
  function NextMsg(lines: Lines, pos: nat, decode: Decoder): (r: (Option<Entry>, nat))
    ensures pos <= r.1 && (r.1 <= |lines| || r.1 == pos)
    ensures Parsed(lines, pos, decode) == Prepend(r.0, Parsed(lines, r.1, decode))
    ensures r.0.None? ==> r.1 >= |lines|
    ensures r.0.Some? ==> pos < r.1 <= |lines| && decode(lines[r.1 - 1]) == r.0
    decreases |lines| - pos
  {
    if pos >= |lines| then (None, pos)
    else
      var m := decode(lines[pos]);
      if m.Some? then (m, pos + 1)
      else
        var r := NextMsg(lines, pos + 1, decode);
        assert Parsed(lines, pos, decode) == Parsed(lines, pos + 1, decode);
        r
  }

  /** read_next_msg: reads lines until one carries a message or the file ends. */
  method ReadNextMsg(lines: Lines, pos: nat, decode: Decoder) returns (msg: Option<Entry>, newPos: nat)
    ensures (msg, newPos) == NextMsg(lines, pos, decode)
  {
    newPos := pos;
    while true
      invariant pos <= newPos && (newPos <= |lines| || newPos == pos)
      invariant NextMsg(lines, newPos, decode) == NextMsg(lines, pos, decode)
      decreases |lines| - newPos
    {
      if newPos >= |lines| {
        return None, newPos;
      }
      var line := lines[newPos];
      newPos := newPos + 1;
      var m := decode(line);
      if m.Some? {
        return m, newPos;
      }
    }
  }

  // ---------------------------------------------------------------------------
  // File handles

  /** An open file: its lines and the position of the next `readline`. */
  datatype Handle = Handle(lines: Lines, pos: nat)

  /** The messages still to come from a handle. */
  function Rest(h: Handle, decode: Decoder): seq<Entry> {
    Parsed(h.lines, h.pos, decode)
  }

  /** read_next_msg on a handle: the message it returns and the handle it leaves behind. */
  function Advance(h: Handle, decode: Decoder): (r: (Option<Entry>, Handle))
    ensures r.1.lines == h.lines
    ensures Rest(h, decode) == Prepend(r.0, Rest(r.1, decode))
    ensures r.0.None? ==> Unread(r.1) == 0 && Rest(r.1, decode) == []
    ensures r.0.Some? ==> Unread(r.1) < Unread(h)
    ensures Unread(r.1) <= Unread(h)
  {
    var next := NextMsg(h.lines, h.pos, decode);
    (next.0, Handle(h.lines, next.1))
  }

  /** A fresh handle on every input. */
  function Start(files: seq<Lines>): (hs: seq<Handle>)
    ensures |hs| == |files| && forall i | 0 <= i < |files| :: hs[i] == Handle(files[i], 0)
  {
    seq(|files|, i requires 0 <= i < |files| => Handle(files[i], 0))
  }

  // ---------------------------------------------------------------------------
  // The merge loop

  /**
   * The merge's working state: the pending messages (`dates_list` and
   * `msg_list`), the open files (`file_list`, as indices of the inputs) and
   * the handle of every input.
   */
  datatype MergeState = MergeState(heads: seq<Entry>, fileList: seq<nat>, handles: seq<Handle>)

  /** Every pending message has an entry of `file_list` at its index, and that entry names an input. */
  predicate WellFormed(st: MergeState) {
    && |st.heads| <= |st.fileList|
    && forall j | 0 <= j < |st.fileList| :: st.fileList[j] < |st.handles|
  }

  /** The number of lines a handle has not read yet. */
  function Unread(h: Handle): nat {
    if h.pos < |h.lines| then |h.lines| - h.pos else 0
  }

  /** The number of lines not yet read, over all handles. */
  function Remaining(hs: seq<Handle>): nat
    decreases |hs|
  {
    if hs == [] then 0 else Unread(hs[0]) + Remaining(hs[1..])
  }

  /** Replacing one handle changes the lines left to read by that handle's difference. */
  lemma {:induction false} RemainingUpdate(hs: seq<Handle>, f: nat, h: Handle)
    requires f < |hs| && Unread(h) <= Unread(hs[f])
    ensures Remaining(hs[f := h]) + (Unread(hs[f]) - Unread(h)) == Remaining(hs)
    decreases |hs|
  {
    if f == 0 {
      assert hs[f := h][1..] == hs[1..];
    } else {
      assert hs[f := h][1..] == hs[1..][f - 1 := h];
      RemainingUpdate(hs[1..], f - 1, h);
    }
  }

  /** `dates_list.index(min(dates_list))`: the first position holding the smallest date. */
  function FirstMinIndex(heads: seq<Entry>): (k: nat)
    requires heads != []
    ensures k < |heads|
    ensures forall j | 0 <= j < |heads| :: heads[k].date <= heads[j].date
    ensures forall j | 0 <= j < k :: heads[j].date > heads[k].date
    decreases |heads|
  {
    if |heads| == 1 then 0
    else
      var k := FirstMinIndex(heads[..|heads| - 1]);
      if heads[|heads| - 1].date < heads[k].date then |heads| - 1 else k
  }

  /** `del s[k]`: the sequence without its element at `k`, the others in order. */
  function Remove<T>(s: seq<T>, k: nat): (r: seq<T>)
    requires k < |s|
    ensures |r| == |s| - 1
    ensures forall j | 0 <= j < k :: r[j] == s[j]
    ensures forall j | k <= j < |r| :: r[j] == s[j + 1]
    ensures multiset(r) + multiset{s[k]} == multiset(s)
  {
    assert s == s[..k] + [s[k]] + s[k + 1..];
    s[..k] + s[k + 1..]
  }

  /**
   * One iteration of the merge loop after writing the pending message at
   * index `k`, once read_next_msg on the file at the same index of
   * `file_list` has returned `m` and left that file at line `p`: the new
   * message replaces the written one, or, at the end of that file, the
   * index is deleted from all three lists.
   */
  function AfterRead(st: MergeState, k: nat, m: Option<Entry>, p: nat): (r: MergeState)
    requires WellFormed(st) && k < |st.heads|
  {
    var f := st.fileList[k];
    var h := Handle(st.handles[f].lines, p);
    if m.Some? then MergeState(st.heads[k := m.value], st.fileList, st.handles[f := h])
    else MergeState(Remove(st.heads, k), Remove(st.fileList, k), st.handles[f := h])
  }

  /** The iteration that writes the pending message at index `k`. Every iteration reads a line or closes a file. */
  function StepAt(st: MergeState, k: nat, decode: Decoder): (r: MergeState)
    requires WellFormed(st) && k < |st.heads|
    ensures WellFormed(r) && |r.handles| == |st.handles|
    ensures || Remaining(r.handles) < Remaining(st.handles)
            || (Remaining(r.handles) == Remaining(st.handles) && |r.heads| < |st.heads|)
  {
    var f := st.fileList[k];
    var (m, h) := Advance(st.handles[f], decode);
    RemainingUpdate(st.handles, f, h);
    AfterRead(st, k, m, h.pos)
  }

  /** One iteration of the merge loop: the smallest pending message is the one written. */
  function Step(st: MergeState, decode: Decoder): (r: MergeState)
    requires WellFormed(st) && st.heads != []
    ensures WellFormed(r) && |r.handles| == |st.handles|
    ensures || Remaining(r.handles) < Remaining(st.handles)
            || (Remaining(r.handles) == Remaining(st.handles) && |r.heads| < |st.heads|)
  {
    StepAt(st, FirstMinIndex(st.heads), decode)
  }

  /** The messages the merge loop writes from state `st` on, one per iteration, until none is pending. */
  function Run(st: MergeState, decode: Decoder): seq<Entry>
    requires WellFormed(st)
    decreases Remaining(st.handles), |st.heads|
  {
    if st.heads == [] then []
    else [st.heads[FirstMinIndex(st.heads)]] + Run(Step(st, decode), decode)
  }

  /** The `while (len(dates_list) > 0)` loop: writes the messages in the order `Run` gives. */
  method MergeLoop(st: MergeState, decode: Decoder) returns (out: seq<Entry>)
    requires WellFormed(st)
    ensures out == Run(st, decode)
  {
    var heads, fileList, handles := st.heads, st.fileList, st.handles;
    out := [];
    while heads != []
      invariant WellFormed(MergeState(heads, fileList, handles))
      invariant WrittenFrom(st, out, MergeState(heads, fileList, handles), decode)
      decreases Remaining(handles), |heads|
    {
      ghost var cur := MergeState(heads, fileList, handles);
      var k := FirstMinIndex(heads);
      var f := fileList[k];
      var m, p := ReadNextMsg(handles[f].lines, handles[f].pos, decode);
      MergeRead(st, out, cur, k, m, p, decode);
      out := out + [heads[k]];
      handles := handles[f := Handle(handles[f].lines, p)];
      if m.Some? {
        heads := heads[k := m.value];
      } else {
        heads := Remove(heads, k);
        fileList := Remove(fileList, k);
      }
      assert MergeState(heads, fileList, handles) == AfterRead(cur, k, m, p);
    }
  }

  /** `out` followed by what the loop writes from `cur` on is what it writes from `st` on. */
  predicate WrittenFrom(st: MergeState, out: seq<Entry>, cur: MergeState, decode: Decoder)
    requires WellFormed(st) && WellFormed(cur)
  {
    out + Run(cur, decode) == Run(st, decode)
  }

  /** An iteration that writes the smallest pending message and reads the next one from its file is a step of `Run`. */
  lemma MergeRead(st: MergeState, out: seq<Entry>, cur: MergeState, k: nat, m: Option<Entry>, p: nat, decode: Decoder)
    requires WellFormed(st) && WellFormed(cur) && cur.heads != [] && k == FirstMinIndex(cur.heads)
    requires (m, p) == NextMsg(cur.handles[cur.fileList[k]].lines, cur.handles[cur.fileList[k]].pos, decode)
    requires WrittenFrom(st, out, cur, decode)
    ensures AfterRead(cur, k, m, p) == Step(cur, decode)
    ensures WrittenFrom(st, out + [cur.heads[k]], Step(cur, decode), decode)
  {
    StepRead(cur, k, m, p, decode);
    RunStep(cur, decode);
    WrittenNext(out, cur.heads[k], Run(Step(cur, decode), decode), Run(cur, decode), Run(st, decode));
  }

  /** The merge writes the smallest pending message, then what it writes from the next state. */
  lemma RunStep(st: MergeState, decode: Decoder)
    requires WellFormed(st) && st.heads != []
    ensures Run(st, decode) == [st.heads[FirstMinIndex(st.heads)]] + Run(Step(st, decode), decode)
  {
  }

  /** Moving one written message from the run to the output keeps the whole. */
  lemma WrittenNext(out: seq<Entry>, x: Entry, rest: seq<Entry>, run: seq<Entry>, all: seq<Entry>)
    requires run == [x] + rest && out + run == all
    ensures (out + [x]) + rest == all
  {
  }

  /** What read_next_msg returns on the file of pending message `k` determines the iteration that writes it. */
  lemma StepRead(cur: MergeState, k: nat, m: Option<Entry>, p: nat, decode: Decoder)
    requires WellFormed(cur) && k < |cur.heads|
    requires (m, p) == NextMsg(cur.handles[cur.fileList[k]].lines, cur.handles[cur.fileList[k]].pos, decode)
    ensures AfterRead(cur, k, m, p) == StepAt(cur, k, decode)
  {
  }

  // ---------------------------------------------------------------------------
  // Opening the inputs

  /** The indices 0 .. n-1 in order. */
  function Indices(n: nat): (s: seq<nat>)
    ensures |s| == n
  {
    if n == 0 then [] else Indices(n - 1) + [n - 1]
  }

  /** Every index is below the count. */
  lemma {:induction false} IndicesBelow(n: nat)
    ensures forall i | 0 <= i < n :: Indices(n)[i] < n
  {
    if n > 0 {
      IndicesBelow(n - 1);
    }
  }

  /** The lists before the opening loop: nothing is pending; as written, `file_list` already names every input. */
  function Unopened(files: seq<Lines>, alignFiles: bool): (st: MergeState)
    ensures st.heads == [] && st.handles == Start(files)
    ensures st.fileList == if alignFiles then [] else Indices(|files|)
    ensures WellFormed(st)
  {
    IndicesBelow(|files|);
    MergeState([], if alignFiles then [] else Indices(|files|), Start(files))
  }

  /**
   * One iteration of the opening loop, for input `i`: its first message is
   * read; a message found joins the pending list, and with `alignFiles` the
   * input joins `file_list` with it. As the source writes it (`alignFiles`
   * false) `file_list` is left alone.
   */
  function OpenNext(st: MergeState, decode: Decoder, i: nat, alignFiles: bool): (r: MergeState)
    requires i < |st.handles|
  {
    var a := Advance(st.handles[i], decode);
    if a.0.Some? then
      MergeState(st.heads + [a.0.value], if alignFiles then st.fileList + [i] else st.fileList, st.handles[i := a.1])
    else
      MergeState(st.heads, st.fileList, st.handles[i := a.1])
  }

  /** The state after the opening loop has read the first message of the first `n` inputs. */
  function Opened(files: seq<Lines>, decode: Decoder, n: nat, alignFiles: bool): (st: MergeState)
    requires n <= |files|
    ensures WellFormed(st) && |st.handles| == |files|
    ensures |st.heads| <= n
    ensures alignFiles ==> |st.heads| == |st.fileList|
    ensures !alignFiles ==> st.fileList == Indices(|files|)
    decreases n
  {
    if n == 0 then Unopened(files, alignFiles)
    else OpenNext(Opened(files, decode, n - 1, alignFiles), decode, n - 1, alignFiles)
  }

  /** Opening input `i` replaces its handle by one on the same lines and leaves the other handles alone. */
  lemma OpenNextHandles(st: MergeState, decode: Decoder, i: nat, alignFiles: bool)
    requires i < |st.handles|
    ensures var r := OpenNext(st, decode, i, alignFiles);
            && |r.handles| == |st.handles| && r.handles[i].lines == st.handles[i].lines
            && forall k | 0 <= k < |st.handles| && k != i :: r.handles[k] == st.handles[k]
  {
  }

  /** Opening keeps each handle on its own input and leaves the inputs not opened yet at their start. */
  lemma {:induction false} OpenedHandles(files: seq<Lines>, decode: Decoder, n: nat, alignFiles: bool)
    requires n <= |files|
    ensures forall i | 0 <= i < |files| :: Opened(files, decode, n, alignFiles).handles[i].lines == files[i]
    ensures forall i | n <= i < |files| :: Opened(files, decode, n, alignFiles).handles[i] == Handle(files[i], 0)
    decreases n
  {
    if n > 0 {
      OpenedHandles(files, decode, n - 1, alignFiles);
      OpenNextHandles(Opened(files, decode, n - 1, alignFiles), decode, n - 1, alignFiles);
    }
  }

  /** Input n is still at its start when the first n inputs have been opened. */
  lemma OpenedFresh(files: seq<Lines>, decode: Decoder, n: nat, alignFiles: bool)
    requires n < |files|
    ensures Opened(files, decode, n, alignFiles).handles[n] == Handle(files[n], 0)
  {
    OpenedHandles(files, decode, n, alignFiles);
  }

  /** `st` is the state once the first `n` inputs have been opened. */
  predicate OpenedAs(files: seq<Lines>, decode: Decoder, n: nat, alignFiles: bool, st: MergeState)
    requires n <= |files|
  {
    st == Opened(files, decode, n, alignFiles)
  }

  /** The loop over the inputs that reads each one's first message. */
  method OpenAll(files: seq<Lines>, decode: Decoder, alignFiles: bool) returns (st: MergeState)
    ensures st == Opened(files, decode, |files|, alignFiles)
  {
    st := Unopened(files, alignFiles);
    for i := 0 to |files|
      invariant OpenedAs(files, decode, i, alignFiles, st)
    {
      var m, p := ReadNextMsg(files[i], 0, decode);
      OpenedRead(files, decode, i, alignFiles, st, m, p);
      st := OpenRead(st, i, m, p, alignFiles);
    }
  }

  /** The lists once input `i` has been read up to position `p`, giving `m`. */
  function OpenRead(st: MergeState, i: nat, m: Option<Entry>, p: nat, alignFiles: bool): MergeState
    requires i < |st.handles|
  {
    var handles := st.handles[i := Handle(st.handles[i].lines, p)];
    if m.Some? then
      MergeState(st.heads + [m.value], if alignFiles then st.fileList + [i] else st.fileList, handles)
    else
      MergeState(st.heads, st.fileList, handles)
  }

  /** Opening input `i` from its start, where read_next_msg returns `m` and stops at `p`, is one more step of the opening. */
  lemma OpenedRead(files: seq<Lines>, decode: Decoder, i: nat, alignFiles: bool, st: MergeState, m: Option<Entry>, p: nat)
    requires i < |files| && OpenedAs(files, decode, i, alignFiles, st)
    requires (m, p) == NextMsg(files[i], 0, decode)
    ensures i < |st.handles| && OpenedAs(files, decode, i + 1, alignFiles, OpenRead(st, i, m, p, alignFiles))
  {
    OpenedFresh(files, decode, i, alignFiles);
  }

  /** The `__main__` merge as written: the messages it writes, in order. */
  method MergeAsWritten(files: seq<Lines>, decode: Decoder) returns (out: seq<Entry>)
    ensures out == Run(Opened(files, decode, |files|, false), decode)
    ensures (forall i | 0 <= i < |files| :: Parsed(files[i], 0, decode) != [])
            ==> out == Run(Opened(files, decode, |files|, true), decode)
  {
    var st := OpenAll(files, decode, false);
    out := MergeLoop(st, decode);
    if forall i | 0 <= i < |files| :: Parsed(files[i], 0, decode) != [] {
      AllHaveMessages(files, decode);
    }
  }

  /**
   * The merge with `file_list` kept aligned with `dates_list`: every message
   * of every input is written exactly once, and in date order when every
   * input is in date order.
   */
  method Merge(files: seq<Lines>, decode: Decoder) returns (out: seq<Entry>)
    ensures multiset(out) == AllMessages(files, decode)
    ensures (forall i | 0 <= i < |files| :: Sorted(Parsed(files[i], 0, decode))) ==> Sorted(out)
  {
    var st := OpenAll(files, decode, true);
    out := MergeLoop(st, decode);
    OpenedAligned(files, decode, |files|);
    RunEmitsPending(st, decode);
    if forall i | 0 <= i < |files| :: Sorted(Parsed(files[i], 0, decode)) {
      OpenedHeadsLead(files, decode);
      RunSorted(st, decode);
    }
  }

  // ---------------------------------------------------------------------------
  // What the merge writes

  /** The messages still to come from the handles. */
  function InFiles(hs: seq<Handle>, decode: Decoder): multiset<Entry>
    decreases |hs|
  {
    if hs == [] then multiset{} else multiset(Rest(hs[0], decode)) + InFiles(hs[1..], decode)
  }

  /** Every message of every input. */
  function AllMessages(files: seq<Lines>, decode: Decoder): multiset<Entry> {
    InFiles(Start(files), decode)
  }

  /** Messages pending in the lists or still in the files. */
  function Pending(st: MergeState, decode: Decoder): multiset<Entry> {
    multiset(st.heads) + InFiles(st.handles, decode)
  }

  /** Reading the message `m` from one handle moves exactly it out of the files. */
  lemma {:induction false} InFilesUpdate(hs: seq<Handle>, decode: Decoder, f: nat, h: Handle, m: Option<Entry>)
    requires f < |hs| && Rest(hs[f], decode) == Prepend(m, Rest(h, decode))
    ensures InFiles(hs[f := h], decode) + multiset(Prepend(m, [])) == InFiles(hs, decode)
    decreases |hs|
  {
    if f == 0 {
      assert hs[f := h][1..] == hs[1..];
    } else {
      assert hs[f := h][1..] == hs[1..][f - 1 := h];
      InFilesUpdate(hs[1..], decode, f - 1, h, m);
    }
  }

  /** No message is left in the files when no handle has one ahead of it. */
  lemma {:induction false} InFilesExhausted(hs: seq<Handle>, decode: Decoder)
    requires forall i | 0 <= i < |hs| :: Rest(hs[i], decode) == []
    ensures InFiles(hs, decode) == multiset{}
    decreases |hs|
  {
    if hs != [] {
      assert Rest(hs[0], decode) == [];
      assert forall i | 0 <= i < |hs| - 1 :: hs[1..][i] == hs[i + 1];
      InFilesExhausted(hs[1..], decode);
    }
  }

  /** A lower bound on the dates of every handle's remaining messages bounds the messages in the files. */
  lemma {:induction false} InFilesAtLeast(hs: seq<Handle>, decode: Decoder, d: int)
    requires forall i, x | 0 <= i < |hs| && x in Rest(hs[i], decode) :: d <= x.date
    ensures forall x | x in InFiles(hs, decode) :: d <= x.date
    decreases |hs|
  {
    if hs != [] {
      assert forall i | 0 <= i < |hs| - 1 :: hs[1..][i] == hs[i + 1];
      InFilesAtLeast(hs[1..], decode, d);
    }
  }

  /**
   * Every pending message was read from the file at the same index of
   * `file_list`, the open files are distinct, and the files that are not
   * open have no message left.
   */
  predicate Aligned(st: MergeState, decode: Decoder) {
    && |st.heads| == |st.fileList|
    && (forall j1, j2 | 0 <= j1 < j2 < |st.fileList| :: st.fileList[j1] != st.fileList[j2])
    && (forall i | 0 <= i < |st.handles| && i !in st.fileList :: Rest(st.handles[i], decode) == [])
  }

  /** One iteration writes one pending message and leaves the others pending. */
  lemma StepPending(st: MergeState, k: nat, decode: Decoder)
    requires WellFormed(st) && k < |st.heads|
    ensures Pending(StepAt(st, k, decode), decode) + multiset{st.heads[k]} == Pending(st, decode)
  {
    var f := st.fileList[k];
    var (m, h) := Advance(st.handles[f], decode);
    var r := StepAt(st, k, decode);
    var read := multiset(Prepend(m, []));
    InFilesUpdate(st.handles, decode, f, h, m);
    if m.Some? {
      UpdateMultiset(st.heads, k, m.value);
      assert read == multiset{m.value} by {
        assert Prepend(m, []) == [m.value];
      }
    } else {
      assert read == multiset{};
    }
    TradeOne(multiset(st.heads), InFiles(st.handles, decode), multiset(r.heads), InFiles(r.handles, decode),
             st.heads[k], read);
  }

  /** Writing `x` while `v` moves from the files to the lists leaves the total as it was. */
  lemma TradeOne<T>(a: multiset<T>, b: multiset<T>, a2: multiset<T>, b2: multiset<T>, x: T, v: multiset<T>)
    requires a2 + multiset{x} == a + v && b2 + v == b
    ensures (a2 + b2) + multiset{x} == a + b
  {
    forall o
      ensures ((a2 + b2) + multiset{x})[o] == (a + b)[o]
    {
      assert (a2 + multiset{x})[o] == (a + v)[o];
      assert (b2 + v)[o] == b[o];
    }
  }

  /** Overwriting one element trades it for the new one in the multiset. */
  lemma UpdateMultiset<T>(s: seq<T>, k: nat, v: T)
    requires k < |s|
    ensures multiset(s[k := v]) + multiset{s[k]} == multiset(s) + multiset{v}
  {
    assert Remove(s[k := v], k) == Remove(s, k);
    assert s[k := v][k] == v;
  }

  /** Aligned states stay aligned. */
  lemma StepAligned(st: MergeState, k: nat, decode: Decoder)
    requires WellFormed(st) && k < |st.heads| && Aligned(st, decode)
    ensures Aligned(StepAt(st, k, decode), decode)
  {
    var f := st.fileList[k];
    var (m, h) := Advance(st.handles[f], decode);
    var r := StepAt(st, k, decode);
    forall i | 0 <= i < |r.handles| && i !in r.fileList
      ensures Rest(r.handles[i], decode) == []
    {
      if i != f {
        assert r.handles[i] == st.handles[i];
        if m.None? {
          forall j | 0 <= j < |st.fileList|
            ensures st.fileList[j] != i
          {
            if j < k {
              assert r.fileList[j] == st.fileList[j];
            } else if j > k {
              assert r.fileList[j - 1] == st.fileList[j];
            }
          }
        }
      }
    }
  }

  /** From an aligned state the merge writes exactly the pending messages. */
  lemma {:induction false} RunEmitsPending(st: MergeState, decode: Decoder)
    requires WellFormed(st) && Aligned(st, decode)
    ensures multiset(Run(st, decode)) == Pending(st, decode)
    decreases Remaining(st.handles), |st.heads|
  {
    if st.heads == [] {
      InFilesExhausted(st.handles, decode);
    } else {
      StepAligned(st, FirstMinIndex(st.heads), decode);
      RunEmitsPending(Step(st, decode), decode);
      EmitsStep(st, decode);
    }
  }

  /** The first iteration writes one pending message, and the rest of the run the others. */
  lemma EmitsStep(st: MergeState, decode: Decoder)
    requires WellFormed(st) && st.heads != []
    requires multiset(Run(Step(st, decode), decode)) == Pending(Step(st, decode), decode)
    ensures multiset(Run(st, decode)) == Pending(st, decode)
  {
    StepPending(st, FirstMinIndex(st.heads), decode);
    assert Run(st, decode) == [st.heads[FirstMinIndex(st.heads)]] + Run(Step(st, decode), decode);
  }

  /**
   * After aligned opening of the first `n` inputs: `file_list` holds, in
   * increasing order, the inputs that have a message, each with its first
   * message pending, the others have been read to their end, and no message
   * is lost.
   */
  predicate OpenInvariant(files: seq<Lines>, decode: Decoder, n: nat, st: MergeState) {
    && WellFormed(st)
    && OpenOrdered(n, st)
    && OpenExhausted(decode, n, st)
    && OpenHeads(decode, st)
    && Pending(st, decode) == AllMessages(files, decode)
  }

  predicate OpenOrdered(n: nat, st: MergeState) {
    && (forall j1, j2 | 0 <= j1 < j2 < |st.fileList| :: st.fileList[j1] < st.fileList[j2])
    && (forall j | 0 <= j < |st.fileList| :: st.fileList[j] < n)
  }

  predicate OpenExhausted(decode: Decoder, n: nat, st: MergeState) {
    forall i | 0 <= i < n && i < |st.handles| && i !in st.fileList :: Rest(st.handles[i], decode) == []
  }

  predicate OpenHeads(decode: Decoder, st: MergeState)
    requires WellFormed(st)
  {
    forall j | 0 <= j < |st.heads| ::
      Parsed(st.handles[st.fileList[j]].lines, 0, decode) == [st.heads[j]] + Rest(st.handles[st.fileList[j]], decode)
  }

  /** Aligned opening keeps the opening invariant, input by input. */
  lemma {:induction false} OpenedAligned(files: seq<Lines>, decode: Decoder, n: nat)
    requires n <= |files|
    ensures OpenInvariant(files, decode, n, Opened(files, decode, n, true))
    decreases n
  {
    if n > 0 {
      OpenedAligned(files, decode, n - 1);
      OpenStep(files, decode, n);
    }
  }

  /** Opening one more input keeps the opening invariant. */
  lemma OpenStep(files: seq<Lines>, decode: Decoder, n: nat)
    requires 0 < n <= |files|
    requires OpenInvariant(files, decode, n - 1, Opened(files, decode, n - 1, true))
    ensures OpenInvariant(files, decode, n, Opened(files, decode, n, true))
  {
    var st := Opened(files, decode, n - 1, true);
    OpenedHandles(files, decode, n - 1, true);
    OpenNextOrdered(st, decode, n - 1);
    OpenNextExhausted(st, decode, n - 1);
    OpenNextHeads(st, decode, n - 1);
    OpenNextPending(st, decode, n - 1, true);
  }

  /** Opening input `i` after the inputs before it keeps `file_list` increasing and below i + 1. */
  lemma OpenNextOrdered(st: MergeState, decode: Decoder, i: nat)
    requires i < |st.handles| && OpenOrdered(i, st)
    ensures OpenOrdered(i + 1, OpenNext(st, decode, i, true))
  {
  }

  /** Opening input `i` leaves it read to its end exactly when it does not join `file_list`. */
  lemma OpenNextExhausted(st: MergeState, decode: Decoder, i: nat)
    requires i < |st.handles| && OpenExhausted(decode, i, st)
    ensures OpenExhausted(decode, i + 1, OpenNext(st, decode, i, true))
  {
    var a := Advance(st.handles[i], decode);
    var r := OpenNext(st, decode, i, true);
    forall k | 0 <= k < i + 1 && k < |r.handles| && k !in r.fileList
      ensures Rest(r.handles[k], decode) == []
    {
      if k < i {
        assert r.handles[k] == st.handles[k];
        assert k !in st.fileList by {
          forall j | 0 <= j < |st.fileList|
            ensures st.fileList[j] != k
          {
            assert r.fileList[j] == st.fileList[j];
          }
        }
      } else {
        assert a.0.None?;
      }
    }
  }

  /** Opening input `i` from its start pends its first message ahead of the rest of it. */
  lemma OpenNextHeads(st: MergeState, decode: Decoder, i: nat)
    requires i < |st.handles| && WellFormed(st) && |st.heads| == |st.fileList|
    requires OpenOrdered(i, st) && OpenHeads(decode, st) && st.handles[i].pos == 0
    ensures WellFormed(OpenNext(st, decode, i, true))
    ensures OpenHeads(decode, OpenNext(st, decode, i, true))
  {
    var r := OpenNext(st, decode, i, true);
    forall j | 0 <= j < |r.heads|
      ensures Parsed(r.handles[r.fileList[j]].lines, 0, decode) == [r.heads[j]] + Rest(r.handles[r.fileList[j]], decode)
    {
      if j < |st.heads| {
        assert r.fileList[j] == st.fileList[j] && r.heads[j] == st.heads[j];
        assert r.handles[r.fileList[j]] == st.handles[st.fileList[j]];
      }
    }
  }

  /** Opening an input moves its first message, if any, from the file to the pending list. */
  lemma OpenNextPending(st: MergeState, decode: Decoder, i: nat, alignFiles: bool)
    requires i < |st.handles|
    ensures Pending(OpenNext(st, decode, i, alignFiles), decode) == Pending(st, decode)
  {
    var a := Advance(st.handles[i], decode);
    InFilesUpdate(st.handles, decode, i, a.1, a.0);
  }

  /** Opening reads the same messages and leaves the same handles whichever way `file_list` is kept. */
  lemma {:induction false} OpenedSameReads(files: seq<Lines>, decode: Decoder, n: nat)
    requires n <= |files|
    ensures SameReads(Opened(files, decode, n, true), Opened(files, decode, n, false))
    decreases n
  {
    if n > 0 {
      OpenedSameReads(files, decode, n - 1);
      OpenNextSameReads(Opened(files, decode, n - 1, true), Opened(files, decode, n - 1, false), decode, n - 1);
    }
  }

  /** Two states that differ at most in `file_list`. */
  predicate SameReads(s: MergeState, t: MergeState) {
    s.heads == t.heads && s.handles == t.handles
  }

  lemma OpenNextSameReads(s: MergeState, t: MergeState, decode: Decoder, i: nat)
    requires i < |s.handles| && SameReads(s, t)
    ensures SameReads(OpenNext(s, decode, i, true), OpenNext(t, decode, i, false))
  {
  }

  /** After aligned opening of the first `n` inputs, `file_list` is 0 .. n-1. */
  predicate ListedInOrder(files: seq<Lines>, decode: Decoder, n: nat)
    requires n <= |files|
  {
    Opened(files, decode, n, true).fileList == Indices(n)
  }

  /** When every input has a message, aligned opening lists every input, in order. */
  lemma {:induction false} AllListed(files: seq<Lines>, decode: Decoder, n: nat)
    requires n <= |files|
    requires forall i | 0 <= i < |files| :: Parsed(files[i], 0, decode) != []
    ensures ListedInOrder(files, decode, n)
    decreases n
  {
    if n > 0 {
      AllListed(files, decode, n - 1);
      ListedOpened(files, decode, n);
    }
  }

  /** Input n - 1, when it has a message, joins the end of the aligned `file_list`. */
  lemma ListedOpened(files: seq<Lines>, decode: Decoder, n: nat)
    requires 0 < n <= |files| && Parsed(files[n - 1], 0, decode) != []
    requires ListedInOrder(files, decode, n - 1)
    ensures ListedInOrder(files, decode, n)
  {
    OpenedFresh(files, decode, n - 1, true);
    ListedNext(Opened(files, decode, n - 1, true), decode, n - 1);
  }

  /** An input with a message joins the end of the aligned `file_list`. */
  lemma ListedNext(st: MergeState, decode: Decoder, i: nat)
    requires i < |st.handles| && Rest(st.handles[i], decode) != []
    ensures OpenNext(st, decode, i, true).fileList == st.fileList + [i]
  {
  }

  /** When every input has a message, the lists as written and the aligned ones coincide. */
  lemma AllHaveMessages(files: seq<Lines>, decode: Decoder)
    requires forall i | 0 <= i < |files| :: Parsed(files[i], 0, decode) != []
    ensures Opened(files, decode, |files|, true) == Opened(files, decode, |files|, false)
  {
    OpenedSameReads(files, decode, |files|);
    AllListed(files, decode, |files|);
  }

  // ---------------------------------------------------------------------------
  // Date order

  /** Dates never decrease along `s`. */
  predicate Sorted(s: seq<Entry>) {
    forall i, j | 0 <= i < j < |s| :: s[i].date <= s[j].date
  }

  lemma SortedTail(e: Entry, rest: seq<Entry>)
    requires Sorted([e] + rest)
    ensures Sorted(rest)
    ensures forall x | x in rest :: e.date <= x.date
  {
    var s := [e] + rest;
    forall i, j | 0 <= i < j < |rest|
      ensures rest[i].date <= rest[j].date
    {
      assert rest[i] == s[i + 1] && rest[j] == s[j + 1];
    }
    forall x | x in rest
      ensures e.date <= x.date
    {
      var i :| 0 <= i < |rest| && rest[i] == x;
      assert s[0] == e && s[i + 1] == x;
    }
  }

  lemma SortedCons(e: Entry, rest: seq<Entry>)
    requires Sorted(rest)
    requires forall x | x in rest :: e.date <= x.date
    ensures Sorted([e] + rest)
  {
    forall i, j | 0 <= i < j < |[e] + rest|
      ensures ([e] + rest)[i].date <= ([e] + rest)[j].date
    {
      assert ([e] + rest)[j] == rest[j - 1];
      if i > 0 {
        assert ([e] + rest)[i] == rest[i - 1];
      }
    }
  }

  /** A handle's remaining messages are in date order and none is dated before `d`. */
  predicate Leads(h: Handle, decode: Decoder, d: int) {
    Sorted(Rest(h, decode)) && forall x | x in Rest(h, decode) :: d <= x.date
  }

  /** Every open file's remaining messages are in date order and come no earlier than its pending message. */
  predicate HeadsLead(st: MergeState, decode: Decoder)
    requires WellFormed(st)
  {
    forall j | 0 <= j < |st.heads| :: Leads(st.handles[st.fileList[j]], decode, st.heads[j].date)
  }

  lemma StepHeadsLead(st: MergeState, k: nat, decode: Decoder)
    requires WellFormed(st) && k < |st.heads| && Aligned(st, decode) && HeadsLead(st, decode)
    ensures HeadsLead(StepAt(st, k, decode), decode)
  {
    var f := st.fileList[k];
    var (m, h) := Advance(st.handles[f], decode);
    var r := StepAt(st, k, decode);
    forall j | 0 <= j < |r.heads|
      ensures Leads(r.handles[r.fileList[j]], decode, r.heads[j].date)
    {
      if m.Some? {
        if j == k {
          SortedTail(m.value, Rest(h, decode));
        } else {
          assert r.handles[r.fileList[j]] == st.handles[st.fileList[j]];
        }
      } else {
        var j0 := if j < k then j else j + 1;
        assert r.fileList[j] == st.fileList[j0] && r.heads[j] == st.heads[j0];
        assert r.handles[r.fileList[j]] == st.handles[st.fileList[j0]];
      }
    }
  }

  /** Nothing pending is dated before the message an iteration writes. */
  lemma PendingAtLeast(st: MergeState, decode: Decoder)
    requires WellFormed(st) && st.heads != [] && Aligned(st, decode) && HeadsLead(st, decode)
    ensures forall x | x in Pending(st, decode) :: st.heads[FirstMinIndex(st.heads)].date <= x.date
  {
    var d := st.heads[FirstMinIndex(st.heads)].date;
    forall i, x | 0 <= i < |st.handles| && x in Rest(st.handles[i], decode)
      ensures d <= x.date
    {
      var j :| 0 <= j < |st.fileList| && st.fileList[j] == i;
      assert Leads(st.handles[st.fileList[j]], decode, st.heads[j].date);
    }
    InFilesAtLeast(st.handles, decode, d);
  }

  /** Everything written after an iteration is dated no earlier than the message that iteration writes. */
  lemma LaterRunAtLeast(st: MergeState, decode: Decoder)
    requires WellFormed(st) && st.heads != [] && Aligned(st, decode) && HeadsLead(st, decode)
    ensures forall x | x in Run(Step(st, decode), decode) :: st.heads[FirstMinIndex(st.heads)].date <= x.date
  {
    var next := Step(st, decode);
    StepAligned(st, FirstMinIndex(st.heads), decode);
    StepPending(st, FirstMinIndex(st.heads), decode);
    RunEmitsPending(next, decode);
    PendingAtLeast(st, decode);
    BoundCarries(Run(next, decode), Pending(next, decode), Pending(st, decode),
                 st.heads[FirstMinIndex(st.heads)]);
  }

  /** A lower bound on the dates of a multiset holds for a sequence whose elements it includes. */
  lemma BoundCarries(s: seq<Entry>, p: multiset<Entry>, q: multiset<Entry>, e: Entry)
    requires multiset(s) == p && p + multiset{e} == q
    requires forall x | x in q :: e.date <= x.date
    ensures forall x | x in s :: e.date <= x.date
  {
    forall x | x in s
      ensures e.date <= x.date
    {
      assert x in multiset(s);
      assert x in q;
    }
  }

  /** From an aligned state whose open files lead with their pending messages, the merge writes in date order. */
  lemma {:induction false} RunSorted(st: MergeState, decode: Decoder)
    requires WellFormed(st) && Aligned(st, decode) && HeadsLead(st, decode)
    ensures Sorted(Run(st, decode))
    decreases Remaining(st.handles), |st.heads|
  {
    if st.heads != [] {
      var next := Step(st, decode);
      StepAligned(st, FirstMinIndex(st.heads), decode);
      StepHeadsLead(st, FirstMinIndex(st.heads), decode);
      RunSorted(next, decode);
      LaterRunAtLeast(st, decode);
      SortedCons(st.heads[FirstMinIndex(st.heads)], Run(next, decode));
    }
  }

  /** Opening inputs that are each in date order leaves every open file leading with its pending message. */
  lemma OpenedHeadsLead(files: seq<Lines>, decode: Decoder)
    requires forall i | 0 <= i < |files| :: Sorted(Parsed(files[i], 0, decode))
    ensures HeadsLead(Opened(files, decode, |files|, true), decode)
  {
    var st := Opened(files, decode, |files|, true);
    OpenedAligned(files, decode, |files|);
    OpenedHandles(files, decode, |files|, true);
    forall j | 0 <= j < |st.heads|
      ensures Leads(st.handles[st.fileList[j]], decode, st.heads[j].date)
    {
      var f := st.fileList[j];
      assert Parsed(files[f], 0, decode) == [st.heads[j]] + Rest(st.handles[f], decode);
      SortedTail(st.heads[j], Rest(st.handles[f], decode));
    }
  }

  // ---------------------------------------------------------------------------
  // The misaligned lists

  /** A line without trailing whitespace is left as it is. */
  lemma RstripKeeps(s: string)
    requires s == [] || !IsSpace(s[|s| - 1])
    ensures Rstrip(s) == s
  {
  }

  /** The default pattern decodes a line `[date] msg` to the message `msg` at the parsed date. */
  lemma DefaultDecodes(parseDate: string -> int, d: string, msg: string)
    requires d != [] && ']' !in d && msg != [] && '\n' !in msg && !IsSpace(msg[|msg| - 1])
    ensures LineDecoder(DefaultFormat(parseDate))("[" + d + "] " + msg) == Some(Entry(parseDate(d), msg))
  {
    var line := "[" + d + "] " + msg;
    RstripKeeps(line);
    DefaultPatternReads(d, msg, "");
    assert line + "" == line;
  }

  /**
   * As written, `file_list` keeps an input that has no message while
   * `dates_list` does not, so the indices of the two lists drift apart: with
   * a first input holding no message and a second one holding two, the loop
   * writes the second input's first message, reads the next message from the
   * first input (which has none), closes it and drops the pending entry. The
   * second message is never written.
   */
  lemma MergeAsWrittenDropsMessage(parseDate: string -> int)
    ensures var files := [["junk"], ["[1] x", "[2] y"]];
            var decode := LineDecoder(DefaultFormat(parseDate));
            && Run(Opened(files, decode, 2, false), decode) == [Entry(parseDate("1"), "x")]
            && AllMessages(files, decode) == multiset{Entry(parseDate("1"), "x"), Entry(parseDate("2"), "y")}
  {
    var files := [["junk"], ["[1] x", "[2] y"]];
    var decode := LineDecoder(DefaultFormat(parseDate));
    var x, y := Entry(parseDate("1"), "x"), Entry(parseDate("2"), "y");
    ExampleDecodes(parseDate);
    ExampleOpened(files, decode, x, y);
    ExampleRun(files, decode, x);
  }

  /** How the default pattern decodes the three lines of the example. */
  lemma ExampleDecodes(parseDate: string -> int)
    ensures var decode := LineDecoder(DefaultFormat(parseDate));
            && decode("junk") == None
            && decode("[1] x") == Some(Entry(parseDate("1"), "x"))
            && decode("[2] y") == Some(Entry(parseDate("2"), "y"))
  {
    JunkDecodes(parseDate);
    BracketedLineDecodes(parseDate, '1', 'x');
    BracketedLineDecodes(parseDate, '2', 'y');
  }

  lemma JunkDecodes(parseDate: string -> int)
    ensures LineDecoder(DefaultFormat(parseDate))("junk") == None
  {
    RstripKeeps("junk");
  }

  /** A line `[d] m` of one-character date and message decodes to `m` at the date of `d`. */
  lemma BracketedLineDecodes(parseDate: string -> int, d: char, m: char)
    requires d != ']' && m != '\n' && !IsSpace(m)
    ensures LineDecoder(DefaultFormat(parseDate))(['[', d, ']', ' ', m]) == Some(Entry(parseDate([d]), [m]))
  {
    DefaultDecodes(parseDate, [d], [m]);
    assert ['[', d, ']', ' ', m] == "[" + [d] + "] " + [m];
  }

  /** Opening the example as written: only the second input has a pending message, but both are listed. */
  lemma ExampleOpened(files: seq<Lines>, decode: Decoder, x: Entry, y: Entry)
    requires files == [["junk"], ["[1] x", "[2] y"]]
    requires decode("junk") == None && decode("[1] x") == Some(x) && decode("[2] y") == Some(y)
    ensures Opened(files, decode, 2, false) == MergeState([x], [0, 1], [Handle(files[0], 1), Handle(files[1], 1)])
    ensures AllMessages(files, decode) == multiset{x, y}
  {
    assert Indices(2) == [0, 1];
    var st1 := Opened(files, decode, 1, false);
    assert st1 == MergeState([], [0, 1], [Handle(files[0], 1), Handle(files[1], 0)]);
    ExampleAll(files, decode, x, y);
  }

  lemma ExampleAll(files: seq<Lines>, decode: Decoder, x: Entry, y: Entry)
    requires files == [["junk"], ["[1] x", "[2] y"]]
    requires decode("junk") == None && decode("[1] x") == Some(x) && decode("[2] y") == Some(y)
    ensures AllMessages(files, decode) == multiset{x, y}
  {
    var hs := Start(files);
    assert hs == [Handle(files[0], 0), Handle(files[1], 0)];
    assert Rest(hs[0], decode) == [];
    assert Rest(Handle(files[1], 1), decode) == [y];
    assert Rest(hs[1], decode) == [x, y];
    assert hs[1..][1..] == [];
    assert InFiles(hs[1..], decode) == multiset{x, y};
  }

  /** The loop on the opened example writes one message and stops. */
  lemma ExampleRun(files: seq<Lines>, decode: Decoder, x: Entry)
    requires files == [["junk"], ["[1] x", "[2] y"]]
    ensures Run(MergeState([x], [0, 1], [Handle(files[0], 1), Handle(files[1], 1)]), decode) == [x]
  {
    var st := MergeState([x], [0, 1], [Handle(files[0], 1), Handle(files[1], 1)]);
    assert FirstMinIndex(st.heads) == 0;
    assert Advance(st.handles[0], decode) == (None, st.handles[0]);
    assert Step(st, decode).heads == [];
  }
}
