/** A range scan: an iterator over stream frames that may be left and resumed, with one replayed first frame. */
module ScanStream {
  import opened Options

  datatype ScanRow = ScanRow(key: seq<int>, value: seq<int>, version: Option<int>, expiresAtMs: Option<int>)

  datatype TrailerInfo = TrailerInfo(finalCompleteness: int, warnings: seq<string>, rowsReturned: nat)

  /** Unset: a response whose oneof carries nothing. */
  datatype Frame = Header(mode: int, completeness: int) | Row(row: ScanRow) | Trailer(info: TrailerInfo) | Unset

  /** What one Recv returns. */
  datatype Received = Got(frame: Frame) | Eof | Error(code: int)

  /** A stream is what its successive Recv calls return; past the end it keeps returning EOF. */
  type Stream = seq<Received>

  function Recv(stream: Stream, pos: nat): Received {
    if pos < |stream| then stream[pos] else Eof
  }

  /** Whether the consumer goes on after the i-th row of one iteration. */
  type Consumer = nat -> bool

  datatype Scan = Scan(pos: nat, pending: Option<Frame>, exhausted: bool, header: Option<(int, int)>,
      trailer: Option<TrailerInfo>)

  datatype Opened = OpenFailed(code: int) | Opened(scan: Scan)

  /** Opening a scan consumes the first frame; anything but a header is kept for replay. */
  function Open(stream: Stream): Opened {
    match Recv(stream, 0)
    case Eof => Opened(Scan(0, None, true, None, None))
    case Error(code) => OpenFailed(code)
    case Got(Header(mode, completeness)) => Opened(Scan(1, None, false, Some((mode, completeness)), None))
    case Got(frame) => Opened(Scan(1, Some(frame), false, None, None))
  }

  /** The rows one iteration yields, the error of its final step if any, and what it leaves behind. */
  datatype Iteration = Iteration(rows: seq<ScanRow>, error: Option<int>, scan: Scan)

  function Prepend(row: ScanRow, it: Iteration): Iteration {
    it.(rows := [row] + it.rows)
  }

  /** The receive loop, n rows into the iteration. */
  function Receive(stream: Stream, s: Scan, go: Consumer, n: nat): Iteration
    decreases |stream| - s.pos
  {
    var s1 := s.(pos := s.pos + 1);
    match Recv(stream, s.pos)
    case Eof => Iteration([], None, s.(exhausted := true))
    case Error(code) => Iteration([], Some(code), s1)
    case Got(Row(row)) => if go(n) then Prepend(row, Receive(stream, s1, go, n + 1)) else Iteration([row], None, s1)
    case Got(Trailer(info)) => Iteration([], None, s1.(trailer := Some(info), exhausted := true))
    case Got(_) => Receive(stream, s1, go, n)
  }

  function Resume(stream: Stream, s: Scan, go: Consumer, n: nat): Iteration {
    if s.exhausted then Iteration([], None, s) else Receive(stream, s, go, n)
  }

  /** One call of the row iterator: the kept frame first, then the stream. */
  function Iterate(stream: Stream, s: Scan, go: Consumer): Iteration {
    var s1 := s.(pending := None);
    match s.pending
    case Some(Row(row)) => if go(0) then Prepend(row, Resume(stream, s1, go, 1)) else Iteration([row], None, s1)
    case Some(Trailer(info)) => Iteration([], None, s1.(trailer := Some(info), exhausted := true))
    case _ => Resume(stream, s1, go, 0)
  }

  /** Successive iterations, each left where its consumer left it. */
  function IterateAll(stream: Stream, s: Scan, consumers: seq<Consumer>): Iteration {
    if consumers == [] then Iteration([], None, s)
    else
      var before := IterateAll(stream, s, consumers[..|consumers| - 1]);
      var last := Iterate(stream, before.scan, consumers[|consumers| - 1]);
      last.(rows := before.rows + last.rows)
  }

  // ----- what must have been yielded -----

  /** The row frames of a stretch of the stream, in order. */
  function RowsOf(frames: Stream): seq<ScanRow> {
    if frames == [] then []
    else RowsOf(frames[..|frames| - 1]) + RowOf(frames[|frames| - 1])
  }

  function RowOf(r: Received): seq<ScanRow> {
    if r.Got? && r.frame.Row? then [r.frame.row] else []
  }

  predicate Ends(r: Received) {
    r.Eof? || (r.Got? && r.frame.Trailer?)
  }

  /** The position of the first trailer or EOF. */
  function End(stream: Stream): (e: nat)
    ensures e <= |stream| && (e < |stream| ==> Ends(stream[e]))
  {
    if stream == [] || Ends(stream[0]) then 0 else 1 + End(stream[1..])
  }

  lemma {:induction false} EndIsFirst(stream: Stream)
    ensures forall i | 0 <= i < End(stream) :: !Ends(stream[i])
  {
    if stream != [] && !Ends(stream[0]) {
      EndIsFirst(stream[1..]);
    }
  }

  lemma {:induction false} EndAt(stream: Stream, e: nat)
    requires e <= |stream| && (forall i | 0 <= i < e :: !Ends(stream[i])) && (e < |stream| ==> Ends(stream[e]))
    ensures End(stream) == e
  {
    if e > 0 {
      EndAt(stream[1..], e - 1);
    }
  }

  /** Rows consumed so far and not kept back for replay. */
  function Due(stream: Stream, s: Scan): seq<ScanRow>
    requires s.pos <= |stream|
  {
    RowsOf(stream[..if s.pending.Some? then 0 else s.pos])
  }

  /** A live scan has met no trailer and no EOF (save a trailer kept for replay); an exhausted one has met the first. */
  predicate ScanOk(stream: Stream, s: Scan) {
    && s.pos <= |stream|
    && (s.pending.Some? ==> s.pos == 1 && stream[0] == Got(s.pending.value) && !s.exhausted && !s.pending.value.Header?)
    && (!s.exhausted ==> s.trailer.None? && forall i | 0 <= i < s.pos :: Ends(stream[i]) ==> s.pending.Some?)
    && (s.exhausted ==>
          && (forall i | 0 <= i < s.pos - 1 :: !Ends(stream[i]))
          && (if s.trailer.Some? then 0 < s.pos && stream[s.pos - 1] == Got(Trailer(s.trailer.value))
              else Recv(stream, s.pos).Eof? && (0 < s.pos ==> !Ends(stream[s.pos - 1]))))
  }

  lemma RowsExtend(stream: Stream, pos: nat)
    requires pos < |stream|
    ensures RowsOf(stream[..pos + 1]) == RowsOf(stream[..pos]) + RowOf(stream[pos])
  {
    assert stream[..pos + 1][..pos] == stream[..pos];
  }

  /** Consuming one frame that does not end the stream keeps a live scan live. */
  lemma ConsumeOne(stream: Stream, s: Scan)
    requires ScanOk(stream, s) && !s.exhausted && s.pending.None? && s.pos < |stream| && !Ends(stream[s.pos])
    ensures var s1 := s.(pos := s.pos + 1);
            ScanOk(stream, s1) && Due(stream, s1) == Due(stream, s) + RowOf(stream[s.pos])
  {
    RowsExtend(stream, s.pos);
  }

  /** The frame that ends a live scan adds no row and is the only one recorded as the trailer. */
  lemma ConsumeLast(stream: Stream, s: Scan, go: Consumer, n: nat)
    requires ScanOk(stream, s) && !s.exhausted && s.pending.None? && Ends(Recv(stream, s.pos))
    ensures var it := Receive(stream, s, go, n);
            && ScanOk(stream, it.scan) && it.scan.exhausted && it.scan.header == s.header
            && Due(stream, it.scan) == Due(stream, s) && it.rows == []
  {
    if s.pos < |stream| {
      RowsExtend(stream, s.pos);
    }
  }

  lemma {:induction false} ReceiveYields(stream: Stream, s: Scan, go: Consumer, n: nat)
    requires ScanOk(stream, s) && !s.exhausted && s.pending.None?
    ensures var it := Receive(stream, s, go, n);
            && ScanOk(stream, it.scan) && it.scan.header == s.header
            && Due(stream, it.scan) == Due(stream, s) + it.rows
            && ((forall k :: go(k)) && it.error.None? ==> it.scan.exhausted)
    decreases |stream| - s.pos
  {
    var s1 := s.(pos := s.pos + 1);
    if Ends(Recv(stream, s.pos)) {
      ConsumeLast(stream, s, go, n);
    } else {
      ConsumeOne(stream, s);
      if stream[s.pos].Got? && (stream[s.pos].frame.Row? ==> go(n)) {
        ReceiveYields(stream, s1, go, if stream[s.pos].frame.Row? then n + 1 else n);
      }
    }
  }

  lemma IterateYields(stream: Stream, s: Scan, go: Consumer)
    requires ScanOk(stream, s)
    ensures var it := Iterate(stream, s, go);
            && ScanOk(stream, it.scan) && it.scan.header == s.header
            && Due(stream, it.scan) == Due(stream, s) + it.rows
            && ((forall k :: go(k)) && it.error.None? ==> it.scan.exhausted)
  {
    var s1 := s.(pending := None);
    if s.pending.Some? {
      RowsExtend(stream, 0);
      if s.pending.value.Row? {
        if go(0) {
          ReceiveYields(stream, s1, go, 1);
        }
      } else if s.pending.value.Unset? {
        ReceiveYields(stream, s1, go, 0);
      }
    } else if !s.exhausted {
      ReceiveYields(stream, s1, go, 0);
    }
  }

  lemma {:induction false} ReceiveObeys(stream: Stream, s: Scan, go: Consumer, n: nat)
    requires !s.exhausted
    ensures var it := Receive(stream, s, go, n);
            && (forall k: nat | n <= k < n + |it.rows| - 1 :: go(k))
            && (it.error.Some? ==> 0 < it.scan.pos <= |stream| && stream[it.scan.pos - 1] == Error(it.error.value))
            && (if it.rows != [] && !go(n + |it.rows| - 1) then it.error.None? && !it.scan.exhausted
                else it.error.Some? || it.scan.exhausted)
    decreases |stream| - s.pos
  {
    var s1, r := s.(pos := s.pos + 1), Recv(stream, s.pos);
    if r.Got? && !r.frame.Trailer? && (r.frame.Row? ==> go(n)) {
      ReceiveObeys(stream, s1, go, if r.frame.Row? then n + 1 else n);
    }
  }

  /** An iteration stops exactly at the row its consumer breaks on, at an error, or at the end of the scan. */
  lemma IterateObeys(stream: Stream, s: Scan, go: Consumer)
    requires ScanOk(stream, s)
    ensures var it := Iterate(stream, s, go);
            && (forall k: nat | k < |it.rows| - 1 :: go(k))
            && (it.error.Some? ==> 0 < it.scan.pos <= |stream| && stream[it.scan.pos - 1] == Error(it.error.value))
            && (if it.rows != [] && !go(|it.rows| - 1) then it.error.None? && !it.scan.exhausted
                else it.error.Some? || it.scan.exhausted)
  {
    if !s.exhausted {
      ReceiveObeys(stream, s.(pending := None), go, if s.pending.Some? && s.pending.value.Row? then 1 else 0);
    }
  }

  /** The mode and the completeness of a leading header. */
  function HeaderOf(stream: Stream): Option<(int, int)> {
    if |stream| > 0 && stream[0].Got? && stream[0].frame.Header?
    then Some((stream[0].frame.mode, stream[0].frame.completeness))
    else None
  }

  /** Opening fails exactly on a leading error, with its code; it is exhausted at once exactly on a leading EOF; it
      keeps a leading frame that is not a header, and no other; and it has read that one frame, and no trailer yet. */
  lemma OpensExactly(stream: Stream)
    ensures Open(stream).OpenFailed? <==> Recv(stream, 0).Error?
    ensures Open(stream).OpenFailed? ==> Open(stream).code == stream[0].code
    ensures Open(stream).Opened? ==>
              var s := Open(stream).scan;
              && (s.exhausted <==> Recv(stream, 0).Eof?) && s.trailer.None? && s.header == HeaderOf(stream)
              && s.pos == (if s.exhausted then 0 else 1)
              && s.pending == (if s.exhausted || s.header.Some? then None else Some(stream[0].frame))
  {
  }

  /** Over any sequence of partial iterations the concatenated rows are exactly the row frames consumed, in order, up to
      the first trailer or EOF; the trailer is recorded from that frame only; the header, from a first header only. */
  lemma {:induction false} ScanLosesNothing(stream: Stream, consumers: seq<Consumer>)
    requires Open(stream).Opened?
    ensures var it := IterateAll(stream, Open(stream).scan, consumers);
            && ScanOk(stream, it.scan)
            && it.rows == Due(stream, it.scan)
            && it.scan.header == HeaderOf(stream)
  {
    var s := Open(stream).scan;
    if consumers == [] {
      if s.pos == 1 {
        RowsExtend(stream, 0);
      }
    } else {
      var before := consumers[..|consumers| - 1];
      ScanLosesNothing(stream, before);
      IterateYields(stream, IterateAll(stream, s, before).scan, consumers[|consumers| - 1]);
    }
  }

  /** An exhausted scan has yielded every row before the first trailer or EOF, and holds a trailer exactly when that
      frame is one; an iteration its consumer does not break and no error ends does exhaust the scan. */
  lemma ScanIsComplete(stream: Stream, consumers: seq<Consumer>, last: Consumer)
    requires Open(stream).Opened? && forall k :: last(k)
    ensures var it := IterateAll(stream, Open(stream).scan, consumers + [last]);
            it.error.None? ==>
              && it.scan.exhausted && it.rows == RowsOf(stream[..End(stream)])
              && it.scan.trailer == (if Recv(stream, End(stream)).Got?
                 then Some(Recv(stream, End(stream)).frame.info) else None)
  {
    var s, all := Open(stream).scan, consumers + [last];
    assert all[..|all| - 1] == consumers;
    ScanLosesNothing(stream, consumers);
    ScanLosesNothing(stream, all);
    IterateYields(stream, IterateAll(stream, s, consumers).scan, last);
    var it := IterateAll(stream, s, all);
    EndIsFirst(stream);
    if it.error.None? {
      ExhaustedAtEnd(stream, it.scan);
    }
  }

  lemma ExhaustedAtEnd(stream: Stream, s: Scan)
    requires ScanOk(stream, s) && s.exhausted
    ensures Due(stream, s) == RowsOf(stream[..End(stream)])
    ensures s.trailer.Some? <==> Recv(stream, End(stream)).Got?
    ensures s.trailer.Some? ==> Recv(stream, End(stream)) == Got(Trailer(s.trailer.value))
  {
    if s.trailer.Some? {
      EndAt(stream, s.pos - 1);
      RowsExtend(stream, s.pos - 1);
    } else {
      EndAt(stream, s.pos);
    }
  }

  // ----- the scan result as an object -----

  class ScanResult {
    const stream: Stream
    var pos: nat
    var pending: Option<Frame>
    var exhausted: bool
    var header: Option<(int, int)>
    var trailer: Option<TrailerInfo>

    function Value(): Scan
      reads this
    {
      Scan(pos, pending, exhausted, header, trailer)
    }

    constructor (stream: Stream)
      ensures this.stream == stream && Value() == Scan(0, None, false, None, None)
    {
      this.stream, pos, pending, exhausted, header, trailer := stream, 0, None, false, None, None;
    }

    method NextFrame() returns (r: Received)
      modifies this`pos
      ensures r == Recv(stream, old(pos)) && pos == if r.Eof? then old(pos) else old(pos) + 1
    {
      r := Recv(stream, pos);
      if !r.Eof? {
        pos := pos + 1;
      }
    }

    /** Hands a row to the consumer or records the trailer; more: go on iterating. */
    method Dispatch(frame: Frame, go: Consumer, n: nat) returns (row: Option<ScanRow>, more: bool)
      modifies this`exhausted, this`trailer
      ensures row == if frame.Row? then Some(frame.row) else None
      ensures more <==> !frame.Trailer? && (frame.Row? ==> go(n))
      ensures exhausted == (old(exhausted) || frame.Trailer?)
      ensures trailer == if frame.Trailer? then Some(frame.info) else old(trailer)
    {
      match frame
      case Row(r) =>
        return Some(r), go(n);
      case Trailer(info) =>
        trailer := Some(info);
        exhausted := true;
        return None, false;
      case _ =>
        return None, true;
    }

    /** The iterator body: rows delivered to a consumer that goes on as `go` says, and the error of the last step. */
    method Rows(go: Consumer) returns (rows: seq<ScanRow>, error: Option<int>)
      modifies this
      ensures Iteration(rows, error, Value()) == Iterate(stream, old(Value()), go)
    {
      rows, error := [], None;
      var n := 0;
      if pending.Some? {
        var p := pending.value;
        pending := None;
        var row, more := Dispatch(p, go, n);
        if row.Some? {
          rows, n := [row.value], 1;
        }
        if !more {
          return;
        }
      }
      if exhausted {
        return;
      }
      ghost var whole, first := Receive(stream, Value(), go, n), rows;
      while true
        invariant pending.None? && !exhausted
        invariant var rest := Receive(stream, Value(), go, n);
                  Iteration(rows + rest.rows, rest.error, rest.scan) == whole.(rows := first + whole.rows)
        decreases |stream| - pos
      {
        assert rows + [] == rows;
        var received := NextFrame();
        if received.Eof? {
          exhausted := true;
          return;
        }
        if received.Error? {
          error := Some(received.code);
          return;
        }
        var row, more := Dispatch(received.frame, go, n);
        if row.Some? {
          rows, n := rows + [row.value], n + 1;
        }
        if !more {
          return;
        }
      }
    }
  }

  /** Opens a scan and reads its first frame eagerly. */
  method OpenScan(stream: Stream) returns (result: ScanResult?, code: int)
    ensures match Open(stream)
            case OpenFailed(e) => result == null && code == e
            case Opened(s) => result != null && fresh(result) && result.stream == stream && result.Value() == s
  {
    var sr := new ScanResult(stream);
    var first := sr.NextFrame();
    match first {
      case Eof =>
        sr.exhausted := true;
      case Error(e) =>
        return null, e;
      case Got(Header(mode, completeness)) =>
        sr.header := Some((mode, completeness));
      case Got(frame) =>
        sr.pending := Some(frame);
    }
    result, code := sr, 0;
  }
}
