/**
 The cursor loops over append-only logs: the gateway's backtest, optimization, strategy and prediction
 sources, and the two progress streams of the quant service. They differ in what they select, what ends
 them, and whether a malformed entry moves the cursor; the loop and its promise are the same.
 */
module StreamReaders {
  import opened Prelude

  /** A log entry whose payload does not decode, or one that does; `owner` is its run, study or strategy id. */
  datatype Entry = Malformed | Entry(typ: string, owner: Option<string>, state: Option<real>, body: string)

  datatype Reader =
    | BacktestSource(id: string)
    | OptimizationSource(id: string)
    | StrategySource(id: string)
    | PredictionSource(id: string)
    | BacktestRpc(id: string)
    | OptimizationRpc(id: string)

  /** The progress stream, and the stream of final events that only the first two readers have. */
  datatype Stream = Progress | Final

  const ORDER_PREFIX := "event.order."
  const PREDICTION_PREFIX := "event.prediction_order."
  const COUNT: nat := 16
  const COMPLETED := 3
  const FAILED := 4
  const BUDGET_EXCEEDED := 5

  predicate HasFinalStream(r: Reader) {
    r.BacktestSource? || r.OptimizationSource?
  }

  /** The two sources with a final stream leave their cursor behind at a malformed entry. */
  predicate StepsOverMalformed(r: Reader) {
    !HasFinalStream(r)
  }

  function Trunc(x: real): int {
    if x >= 0.0 then x.Floor else -((-x).Floor)
  }

  predicate InState(e: Entry, states: set<int>)
    requires e.Entry?
  {
    e.state.Some? && Trunc(e.state.value) in states
  }

  predicate IsRpc(r: Reader) {
    r.BacktestRpc? || r.OptimizationRpc?
  }

  /** The gateway reads a missing owner as the empty string; the quant service does not. */
  predicate Selects(r: Reader, e: Entry) {
    && e.Entry?
    && (if e.owner.None? then !IsRpc(r) && r.id == "" else e.owner.value == r.id)
    && (r.StrategySource? ==> ORDER_PREFIX <= e.typ)
    && (r.PredictionSource? ==> PREDICTION_PREFIX <= e.typ)
  }

  predicate Ends(r: Reader, s: Stream, e: Entry)
    requires e.Entry?
  {
    match r
    case BacktestSource(_) => s == Final
    case OptimizationSource(_) => s == Final || InState(e, {COMPLETED, FAILED, BUDGET_EXCEEDED})
    case BacktestRpc(_) => InState(e, {COMPLETED, FAILED})
    case OptimizationRpc(_) => InState(e, {COMPLETED, FAILED, BUDGET_EXCEEDED})
    case _ => false
  }

  // ---- The loop as functions -----------------------------------------------------------------------

  /** `Latest` is `$`: only entries appended after the read was issued. */
  datatype Cursor = Latest | After(next: nat)

  /** A cursor, and the entry at which it left `$`. */
  datatype Track = Track(cursor: Cursor, start: nat)

  datatype Sent = Sent(s: Stream, e: Entry)

  /** `cancelled` when the context ended at a send, `ended` when a terminal entry was forwarded. */
  datatype St = St(progress: Track, final: Track, out: seq<Sent>, ended: bool, cancelled: bool)

  const START := St(Track(Latest, 0), Track(Latest, 0), [], false, false)

  predicate Stopped(st: St) {
    st.ended || st.cancelled
  }

  function TrackOf(st: St, s: Stream): Track {
    if s == Progress then st.progress else st.final
  }

  /** The cursor moves to entry `i`. */
  function Advance(st: St, s: Stream, i: nat): St {
    var t := TrackOf(st, s);
    var t' := Track(After(i + 1), if t.cursor == Latest then i else t.start);
    if s == Progress then st.(progress := t') else st.(final := t')
  }

  /** One entry. The context ends at the send that would be number `cut`. */
  function Take(r: Reader, st: St, s: Stream, i: nat, e: Entry, cut: nat): St {
    if Stopped(st) then st
    else if e.Malformed? then (if StepsOverMalformed(r) then Advance(st, s, i) else st)
    else if !Selects(r, e) then Advance(st, s, i)
    else if |st.out| >= cut then st.(cancelled := true)
    else Advance(st, s, i).(out := st.out + [Sent(s, e)], ended := Ends(r, s, e))
  }

  function Scan(r: Reader, st: St, s: Stream, log: seq<Entry>, i: nat, to: nat, cut: nat): St
    requires to <= |log|
    decreases if i < to then to - i else 0
  {
    if i >= to then st else Scan(r, Take(r, st, s, i, log[i], cut), s, log, i + 1, to, cut)
  }

  /**
   What each read finds. `logs(n, s)` is as much of stream `s` as read `n` gets to see, and `tails(n, s)` the
   stream's length when that read was issued; a read that fails or times out changes nothing. The context ends
   at the send that would be number `cut`.
   */
  datatype World = World(fails: nat -> bool, logs: (nat, Stream) -> seq<Entry>, tails: (nat, Stream) -> nat, cut: nat)

  ghost predicate AppendOnly(w: World) {
    && (forall n: nat, s :: w.logs(n, s) <= w.logs(n + 1, s))
    && (forall n: nat, s :: w.tails(n, s) <= |w.logs(n, s)| && w.tails(n, s) <= w.tails(n + 1, s))
  }

  /** The batch that a cursor is given: up to 16 entries. */
  function From(w: World, st: St, n: nat, s: Stream): nat {
    var cursor := TrackOf(st, s).cursor;
    if cursor == Latest then w.tails(n, s) else cursor.next
  }

  function Upto(w: World, st: St, n: nat, s: Stream): nat {
    var len := |w.logs(n, s)|;
    if From(w, st, n, s) + COUNT <= len then From(w, st, n, s) + COUNT else len
  }

  function ScanBatch(r: Reader, w: World, st: St, n: nat, s: Stream, from: nat, to: nat): St {
    if to <= |w.logs(n, s)| then Scan(r, st, s, w.logs(n, s), from, to, w.cut) else st
  }

  /** One read: both batches are taken with the cursors it was issued with. */
  function Round(r: Reader, w: World, st: St, n: nat): St {
    if Stopped(st) || w.fails(n) then st
    else
      var st' := ScanBatch(r, w, st, n, Progress, From(w, st, n, Progress), Upto(w, st, n, Progress));
      if HasFinalStream(r) then ScanBatch(r, w, st', n, Final, From(w, st, n, Final), Upto(w, st, n, Final)) else st'
  }

  function Rounds(r: Reader, w: World, n: nat): St {
    if n == 0 then START else Round(r, w, Rounds(r, w, n - 1), n - 1)
  }

  // ---- The loop itself -------------------------------------------------------------------------------

  lemma {:induction false} StoppedScan(r: Reader, st: St, s: Stream, log: seq<Entry>, i: nat, to: nat, cut: nat)
    requires to <= |log| && Stopped(st)
    ensures Scan(r, st, s, log, i, to, cut) == st
    decreases if i < to then to - i else 0
  {
    if i < to {
      StoppedScan(r, st, s, log, i + 1, to, cut);
    }
  }

  lemma {:induction false} StoppedRounds(r: Reader, w: World, n: nat, m: nat)
    requires n <= m && Stopped(Rounds(r, w, n))
    ensures Rounds(r, w, m) == Rounds(r, w, n)
  {
    if n < m {
      StoppedRounds(r, w, n, m - 1);
    }
  }

  method ScanLoop(r: Reader, st: St, s: Stream, log: seq<Entry>, from: nat, to: nat, cut: nat) returns (st': St)
    requires to <= |log|
    ensures st' == Scan(r, st, s, log, from, to, cut)
  {
    st' := st;
    var i := from;
    while i < to
      invariant Scan(r, st', s, log, i, to, cut) == Scan(r, st, s, log, from, to, cut)
    {
      if Stopped(st') {
        StoppedScan(r, st', s, log, i, to, cut);
        return;
      }
      var e := log[i];
      if e.Malformed? {
        if StepsOverMalformed(r) {
          st' := Advance(st', s, i);
        }
      } else if !Selects(r, e) {
        st' := Advance(st', s, i);
      } else if |st'.out| >= cut {
        st' := st'.(cancelled := true);
      } else {
        st' := st'.(out := st'.out + [Sent(s, e)]);
        st' := Advance(st', s, i);
        if Ends(r, s, e) {
          st' := st'.(ended := true);
        } else {
          st' := st'.(ended := false);
        }
      }
      i := i + 1;
    }
  }

  /** The reader's life of at most `count` reads; it ends earlier at a terminal entry or a cancelled send. */
  method Loop(r: Reader, w: World, count: nat) returns (st: St)
    ensures st == Rounds(r, w, count)
  {
    st := START;
    var n := 0;
    while n < count
      invariant n <= count && st == Rounds(r, w, n)
    {
      if Stopped(st) {
        StoppedRounds(r, w, n, count);
        return;
      }
      if !w.fails(n) {
        var from, to := From(w, st, n, Progress), Upto(w, st, n, Progress);
        var from', to' := From(w, st, n, Final), Upto(w, st, n, Final);
        st := ScanLoop(r, st, Progress, w.logs(n, Progress), from, to, w.cut);
        if HasFinalStream(r) {
          st := ScanLoop(r, st, Final, w.logs(n, Final), from', to', w.cut);
        }
      }
      n := n + 1;
    }
  }

  // ---- No gap, no repeat -----------------------------------------------------------------------------

  function Selected(r: Reader, es: seq<Entry>): seq<Entry> {
    if es == [] then []
    else Selected(r, es[..|es| - 1]) + (if Selects(r, es[|es| - 1]) then [es[|es| - 1]] else [])
  }

  /** What was forwarded from one stream. */
  function Forwarded(out: seq<Sent>, s: Stream): seq<Entry> {
    if out == [] then []
    else Forwarded(out[..|out| - 1], s) + (if out[|out| - 1].s == s then [out[|out| - 1].e] else [])
  }

  lemma {:induction false} SelectedSplits(r: Reader, a: seq<Entry>, b: seq<Entry>)
    ensures Selected(r, a + b) == Selected(r, a) + Selected(r, b)
    decreases |b|
  {
    if b == [] {
      assert a + b == a;
    } else {
      assert (a + b)[..|a + b| - 1] == a + b[..|b| - 1];
      SelectedSplits(r, a, b[..|b| - 1]);
    }
  }

  predicate AllMalformed(es: seq<Entry>) {
    forall e <- es :: e.Malformed?
  }

  lemma {:induction false} NothingInMalformed(r: Reader, es: seq<Entry>)
    requires AllMalformed(es)
    ensures Selected(r, es) == []
  {
    if es != [] {
      assert es[|es| - 1].Malformed?;
      NothingInMalformed(r, es[..|es| - 1]);
    }
  }

  lemma ForwardedSnoc(out: seq<Sent>, x: Sent, s: Stream)
    ensures Forwarded(out + [x], s) == Forwarded(out, s) + (if x.s == s then [x.e] else [])
  {
    assert (out + [x])[..|out|] == out;
  }

  /**
   The promise: before the cursor leaves `$` nothing was forwarded; afterwards, what was forwarded is exactly
   the selected part of the one segment from where it left `$` to where it stands.
   */
  predicate Tracks(r: Reader, st: St, s: Stream, log: seq<Entry>) {
    var t := TrackOf(st, s);
    if t.cursor == Latest then Forwarded(st.out, s) == []
    else t.start < t.cursor.next <= |log| && Forwarded(st.out, s) == Selected(r, log[t.start..t.cursor.next])
  }

  /** Entries between the cursor and the reading position were malformed. */
  predicate Skipped(st: St, s: Stream, log: seq<Entry>, i: nat) {
    var t := TrackOf(st, s);
    t.cursor != Latest && !Stopped(st) ==> t.cursor.next <= i <= |log| && AllMalformed(log[t.cursor.next..i])
  }

  lemma SegmentGrows(r: Reader, log: seq<Entry>, a: nat, n: nat, i: nat)
    requires a <= n <= i < |log| && AllMalformed(log[n..i])
    ensures Selected(r, log[a..i + 1]) == Selected(r, log[a..n]) + (if Selects(r, log[i]) then [log[i]] else [])
  {
    assert log[a..i + 1][..i - a] == log[a..n] + log[n..i];
    SelectedSplits(r, log[a..n], log[n..i]);
    NothingInMalformed(r, log[n..i]);
  }

  lemma TakeTracks(r: Reader, st: St, s: Stream, log: seq<Entry>, i: nat, cut: nat)
    requires i < |log| && Tracks(r, st, s, log) && Skipped(st, s, log, i)
    ensures Tracks(r, Take(r, st, s, i, log[i], cut), s, log)
  {
    var e, t := log[i], TrackOf(st, s);
    var st' := Take(r, st, s, i, e, cut);
    ForwardedSnoc(st.out, Sent(s, e), s);
    if !Stopped(st) && !st'.cancelled && (e.Malformed? ==> StepsOverMalformed(r)) {
      var a := if t.cursor == Latest then i else t.start;
      var n := if t.cursor == Latest then i else t.cursor.next;
      assert log[i..i] == [];
      assert Forwarded(st.out, s) == Selected(r, log[a..n]);
      SegmentGrows(r, log, a, n, i);
      assert TrackOf(st', s) == Track(After(i + 1), a);
      assert Forwarded(st'.out, s) == Selected(r, log[a..i + 1]);
    }
  }

  lemma TakeSkips(r: Reader, st: St, s: Stream, log: seq<Entry>, i: nat, cut: nat)
    requires i < |log| && Skipped(st, s, log, i)
    ensures Skipped(Take(r, st, s, i, log[i], cut), s, log, i + 1)
  {
    var t := TrackOf(st, s);
    assert log[i + 1..i + 1] == [];
    if !Stopped(st) && t.cursor != Latest && log[i].Malformed? {
      assert log[t.cursor.next..i + 1] == log[t.cursor.next..i] + [log[i]];
    }
  }

  lemma TakeLeavesOther(r: Reader, st: St, s: Stream, other: Stream, log: seq<Entry>, i: nat, e: Entry, cut: nat)
    requires s != other && Tracks(r, st, other, log)
    ensures Tracks(r, Take(r, st, s, i, e, cut), other, log)
    ensures TrackOf(Take(r, st, s, i, e, cut), other) == TrackOf(st, other)
  {
    ForwardedSnoc(st.out, Sent(s, e), other);
  }

  lemma {:induction false} ScanTracks(r: Reader, st: St, s: Stream, log: seq<Entry>, i: nat, to: nat, cut: nat)
    requires to <= |log| && Tracks(r, st, s, log) && Skipped(st, s, log, i)
    ensures Tracks(r, Scan(r, st, s, log, i, to, cut), s, log)
    decreases if i < to then to - i else 0
  {
    if i < to {
      TakeTracks(r, st, s, log, i, cut);
      TakeSkips(r, st, s, log, i, cut);
      ScanTracks(r, Take(r, st, s, i, log[i], cut), s, log, i + 1, to, cut);
    }
  }

  lemma {:induction false} ScanLeavesOther(r: Reader, st: St, s: Stream, log: seq<Entry>, i: nat, to: nat, cut: nat,
                                           other: Stream, otherLog: seq<Entry>)
    requires to <= |log| && s != other && Tracks(r, st, other, otherLog)
    ensures Tracks(r, Scan(r, st, s, log, i, to, cut), other, otherLog)
    ensures TrackOf(Scan(r, st, s, log, i, to, cut), other) == TrackOf(st, other)
    decreases if i < to then to - i else 0
  {
    if i < to {
      TakeLeavesOther(r, st, s, other, otherLog, i, log[i], cut);
      ScanLeavesOther(r, Take(r, st, s, i, log[i], cut), s, log, i + 1, to, cut, other, otherLog);
    }
  }

  lemma LogGrows(r: Reader, st: St, s: Stream, log: seq<Entry>, log': seq<Entry>)
    requires Tracks(r, st, s, log) && log <= log'
    ensures Tracks(r, st, s, log')
  {
    var t := TrackOf(st, s);
    if t.cursor != Latest {
      assert log'[t.start..t.cursor.next] == log[t.start..t.cursor.next];
    }
  }

  lemma RoundTracks(r: Reader, w: World, st: St, n: nat)
    requires AppendOnly(w)
    requires forall s :: Tracks(r, st, s, w.logs(n, s))
    ensures forall s :: Tracks(r, Round(r, w, st, n), s, w.logs(n, s))
  {
    if !Stopped(st) && !w.fails(n) {
      var p, f := w.logs(n, Progress), w.logs(n, Final);
      var from, to := From(w, st, n, Progress), Upto(w, st, n, Progress);
      ScanTracks(r, st, Progress, p, from, to, w.cut);
      ScanLeavesOther(r, st, Progress, p, from, to, w.cut, Final, f);
      if HasFinalStream(r) {
        var st' := Scan(r, st, Progress, p, from, to, w.cut);
        var from', to' := From(w, st, n, Final), Upto(w, st, n, Final);
        ScanTracks(r, st', Final, f, from', to', w.cut);
        ScanLeavesOther(r, st', Final, f, from', to', w.cut, Progress, p);
      }
    }
  }

  /** After any number of reads, failing or not, what each stream forwarded is the selected part of one segment. */
  lemma {:induction false} ForwardsOneSegment(r: Reader, w: World, n: nat)
    requires AppendOnly(w)
    ensures forall s :: Tracks(r, Rounds(r, w, n), s, w.logs(n, s))
  {
    if n > 0 {
      ForwardsOneSegment(r, w, n - 1);
      RoundTracks(r, w, Rounds(r, w, n - 1), n - 1);
      forall s ensures Tracks(r, Rounds(r, w, n), s, w.logs(n, s)) {
        LogGrows(r, Rounds(r, w, n), s, w.logs(n - 1, s), w.logs(n, s));
      }
    }
  }

  // ---- Nothing after the terminal entry ----------------------------------------------------------------

  predicate EndsWell(r: Reader, st: St) {
    && (forall k :: 0 <= k < |st.out| ==> st.out[k].e.Entry?)
    && (forall k :: 0 <= k < |st.out| - 1 ==> !Ends(r, st.out[k].s, st.out[k].e))
    && (st.ended <==> st.out != [] && Ends(r, st.out[|st.out| - 1].s, st.out[|st.out| - 1].e))
  }

  lemma {:induction false} ScanEndsWell(r: Reader, st: St, s: Stream, log: seq<Entry>, i: nat, to: nat, cut: nat)
    requires to <= |log| && EndsWell(r, st)
    ensures EndsWell(r, Scan(r, st, s, log, i, to, cut))
    decreases if i < to then to - i else 0
  {
    if i < to {
      ScanEndsWell(r, Take(r, st, s, i, log[i], cut), s, log, i + 1, to, cut);
    }
  }

  /** The terminal entry, if one was forwarded, is the last; and the reader ended exactly if it was forwarded. */
  lemma {:induction false} NothingAfterTheEnd(r: Reader, w: World, n: nat)
    ensures EndsWell(r, Rounds(r, w, n))
  {
    if n > 0 {
      NothingAfterTheEnd(r, w, n - 1);
      var st := Rounds(r, w, n - 1);
      if !Stopped(st) && !w.fails(n - 1) {
        var from, to := From(w, st, n - 1, Progress), Upto(w, st, n - 1, Progress);
        if to <= |w.logs(n - 1, Progress)| {
          ScanEndsWell(r, st, Progress, w.logs(n - 1, Progress), from, to, w.cut);
        }
        var st' := ScanBatch(r, w, st, n - 1, Progress, from, to);
        var from', to' := From(w, st, n - 1, Final), Upto(w, st, n - 1, Final);
        if HasFinalStream(r) && to' <= |w.logs(n - 1, Final)| {
          ScanEndsWell(r, st', Final, w.logs(n - 1, Final), from', to', w.cut);
        }
      }
    }
  }

  // ---- When a reader is stuck ----------------------------------------------------------------------------

  predicate Moves(r: Reader, es: seq<Entry>) {
    es != [] && (StepsOverMalformed(r) || !AllMalformed(es))
  }

  /** `st'` has stopped, or its cursor stands after an entry of `[i..to]`, or (if not `moves`) it is `st`. */
  predicate Moved(st: St, st': St, s: Stream, i: nat, to: nat, moves: bool) {
    var c := TrackOf(st', s).cursor;
    Stopped(st') || (if moves then c.After? && i < c.next <= to else st' == st)
  }

  lemma {:induction false} ScanMoves(r: Reader, st: St, s: Stream, log: seq<Entry>, i: nat, to: nat, cut: nat)
    requires i <= to <= |log|
    ensures Moved(st, Scan(r, st, s, log, i, to, cut), s, i, to, Moves(r, log[i..to]))
    decreases if i < to then to - i else 0
  {
    if i < to {
      var e := log[i];
      var st' := Take(r, st, s, i, e, cut);
      assert log[i..to] == [e] + log[i + 1..to];
      if Stopped(st') {
        StoppedScan(r, st', s, log, i + 1, to, cut);
      } else {
        ScanMoves(r, st', s, log, i + 1, to, cut);
        assert AllMalformed(log[i..to]) <==> e.Malformed? && AllMalformed(log[i + 1..to]);
      }
    }
  }

  /** A read that returns entries moves the cursor unless all of them are malformed and the reader waits at those. */
  lemma ReadMovesIff(r: Reader, w: World, st: St, n: nat, s: Stream)
    requires AppendOnly(w)
    requires Tracks(r, st, Progress, w.logs(n, Progress)) && Tracks(r, st, Final, w.logs(n, Final))
    requires !Stopped(Round(r, w, st, n)) && !w.fails(n) && (s == Final ==> HasFinalStream(r))
    ensures var batch := w.logs(n, s)[From(w, st, n, s)..Upto(w, st, n, s)];
      TrackOf(Round(r, w, st, n), s).cursor != TrackOf(st, s).cursor <==> Moves(r, batch)
  {
    var p, f := w.logs(n, Progress), w.logs(n, Final);
    var from, to := From(w, st, n, Progress), Upto(w, st, n, Progress);
    ScanMoves(r, st, Progress, p, from, to, w.cut);
    var st' := Scan(r, st, Progress, p, from, to, w.cut);
    ScanLeavesOther(r, st, Progress, p, from, to, w.cut, Final, f);
    ScanTracks(r, st, Progress, p, from, to, w.cut);
    if HasFinalStream(r) {
      var from', to' := From(w, st, n, Final), Upto(w, st, n, Final);
      ScanMoves(r, st', Final, f, from', to', w.cut);
      ScanLeavesOther(r, st', Final, f, from', to', w.cut, Progress, p);
      if Stopped(st') {
        StoppedScan(r, st', Final, f, from', to', w.cut);
      }
    }
  }

  /** Sixteen malformed entries in a row after the cursor hold such a reader there for good. */
  lemma {:induction false} StuckForGood(r: Reader, w: World, n: nat, m: nat, s: Stream)
    requires AppendOnly(w) && HasFinalStream(r) && n <= m
    requires var c := TrackOf(Rounds(r, w, n), s).cursor;
      c.After? && c.next + 16 <= |w.logs(n, s)| && AllMalformed(w.logs(n, s)[c.next..c.next + 16])
    ensures TrackOf(Rounds(r, w, m), s) == TrackOf(Rounds(r, w, n), s)
    ensures Forwarded(Rounds(r, w, m).out, s) == Forwarded(Rounds(r, w, n).out, s)
  {
    if n < m {
      StuckForGood(r, w, n, m - 1, s);
      ForwardsOneSegment(r, w, m - 1);
      LogsGrow(w, n, m - 1, s);
      var c := TrackOf(Rounds(r, w, n), s).cursor.next;
      assert w.logs(m - 1, s)[c..c + COUNT] == w.logs(n, s)[c..c + COUNT];
      StuckRead(r, w, Rounds(r, w, m - 1), m - 1, s);
    }
  }

  lemma {:induction false} LogsGrow(w: World, n: nat, m: nat, s: Stream)
    requires AppendOnly(w) && n <= m
    ensures w.logs(n, s) <= w.logs(m, s)
  {
    if n < m {
      LogsGrow(w, n, m - 1, s);
    }
  }

  lemma {:induction false} ScanOfMalformed(r: Reader, st: St, s: Stream, log: seq<Entry>, i: nat, to: nat, cut: nat)
    requires i <= to <= |log| && HasFinalStream(r) && AllMalformed(log[i..to])
    ensures Scan(r, st, s, log, i, to, cut) == st
    decreases if i < to then to - i else 0
  {
    if i < to {
      assert log[i..to] == [log[i]] + log[i + 1..to];
      ScanOfMalformed(r, st, s, log, i + 1, to, cut);
    }
  }

  lemma {:induction false} ScanForwardsElsewhere(r: Reader, st: St, s: Stream, log: seq<Entry>, i: nat, to: nat,
                                                 cut: nat, other: Stream)
    requires to <= |log| && s != other
    ensures Forwarded(Scan(r, st, s, log, i, to, cut).out, other) == Forwarded(st.out, other)
    ensures TrackOf(Scan(r, st, s, log, i, to, cut), other) == TrackOf(st, other)
    decreases if i < to then to - i else 0
  {
    if i < to {
      ForwardedSnoc(st.out, Sent(s, log[i]), other);
      ScanForwardsElsewhere(r, Take(r, st, s, i, log[i], cut), s, log, i + 1, to, cut, other);
    }
  }

  lemma StuckRead(r: Reader, w: World, st: St, n: nat, s: Stream)
    requires AppendOnly(w) && HasFinalStream(r)
    requires var c := TrackOf(st, s).cursor;
      c.After? && c.next + COUNT <= |w.logs(n, s)| && AllMalformed(w.logs(n, s)[c.next..c.next + COUNT])
    ensures TrackOf(Round(r, w, st, n), s) == TrackOf(st, s)
    ensures Forwarded(Round(r, w, st, n).out, s) == Forwarded(st.out, s)
  {
    var p, f := w.logs(n, Progress), w.logs(n, Final);
    var from, to := From(w, st, n, Progress), Upto(w, st, n, Progress);
    var from', to' := From(w, st, n, Final), Upto(w, st, n, Final);
    var st' := Scan(r, st, Progress, p, from, to, w.cut);
    if s == Progress {
      ScanOfMalformed(r, st, Progress, p, from, to, w.cut);
      ScanForwardsElsewhere(r, st', Final, f, from', to', w.cut, Progress);
    } else {
      ScanForwardsElsewhere(r, st, Progress, p, from, to, w.cut, Final);
      ScanOfMalformed(r, st', Final, f, from', to', w.cut);
    }
  }

  // ---- Who sees an event -----------------------------------------------------------------------------------

  /** An event goes to its owner's topic only, and never to both an order topic and a prediction topic. */
  lemma OneTopicPerEvent(a: Reader, b: Reader, e: Entry)
    requires Selects(a, e) && Selects(b, e)
    ensures a.id == b.id
    ensures !(a.StrategySource? && b.PredictionSource?)
  {
    assert ORDER_PREFIX[6] != PREDICTION_PREFIX[6];
  }

  /** The event of an order rejected after its row was inserted: the engine publishes it without a strategy id. */
  function RejectionEvent(body: string): Entry {
    Entry("event.order.rejected", Some(""), None, body)
  }

  lemma {:induction false} SelectedAreSelected(r: Reader, es: seq<Entry>)
    ensures forall e <- Selected(r, es) :: Selects(r, e)
  {
    if es != [] {
      SelectedAreSelected(r, es[..|es| - 1]);
    }
  }

  /** No strategy's topic ever carries such an event, whatever is published and however often it is read. */
  lemma LateRejectionsAreNotForwarded(id: string, w: World, n: nat, body: string)
    requires AppendOnly(w) && id != ""
    ensures RejectionEvent(body) !in Forwarded(Rounds(StrategySource(id), w, n).out, Progress)
  {
    var r := StrategySource(id);
    ForwardsOneSegment(r, w, n);
    var st := Rounds(r, w, n);
    assert Tracks(r, st, Progress, w.logs(n, Progress));
    if st.progress.cursor != Latest {
      SelectedAreSelected(r, w.logs(n, Progress)[st.progress.start..st.progress.cursor.next]);
    }
  }
}
