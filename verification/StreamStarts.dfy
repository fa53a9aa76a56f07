/**
 Where the readers begin, and how far each read takes them: `$` means entries appended after the read was issued,
 and a read takes up to sixteen entries.
 */
module StreamStarts {
  import opened Prelude
  import opened StreamReaders

  /** The two sources with a stream of final events wait at a malformed entry; the other readers step over it. */
  predicate Waits(r: Reader) {
    r.BacktestSource? || r.OptimizationSource?
  }

  /** `start` is the first entry appended after read `m` was issued that the reader does not wait at; `m` found it. */
  predicate StartedIn(r: Reader, w: World, s: Stream, m: nat, start: nat) {
    var log := w.logs(m, s);
    && !w.fails(m) && w.tails(m, s) <= start < |log| && start < w.tails(m, s) + 16
    && (Waits(r) ==> log[start].Entry?)
    && forall i | w.tails(m, s) <= i < start :: Waits(r) && log[i].Malformed?
  }

  // ---- Where a cursor leaves `$` -----------------------------------------------------------------------

  /** Within one batch a cursor leaves `$` at the first entry that the reader does not wait at. */
  lemma {:induction false} ScanStarts(r: Reader, st: St, s: Stream, log: seq<Entry>, i: nat, to: nat, cut: nat)
    requires to <= |log| && TrackOf(st, s).cursor == Latest
    ensures var t := TrackOf(Scan(r, st, s, log, i, to, cut), s);
      (t.cursor != Latest ==>
        && i <= t.start < to && (Waits(r) ==> log[t.start].Entry?)
        && forall j | i <= j < t.start :: Waits(r) && log[j].Malformed?)
    decreases if i < to then to - i else 0
  {
    if i < to {
      var st' := Take(r, st, s, i, log[i], cut);
      if TrackOf(st', s).cursor == Latest {
        ScanStarts(r, st', s, log, i + 1, to, cut);
        if Stopped(st') {
          StoppedScan(r, st', s, log, i + 1, to, cut);
        }
      } else {
        ScanKeepsStart(r, st', s, log, i + 1, to, cut);
      }
    }
  }

  lemma {:induction false} ScanKeepsStart(r: Reader, st: St, s: Stream, log: seq<Entry>, i: nat, to: nat, cut: nat)
    requires to <= |log| && TrackOf(st, s).cursor != Latest
    ensures var t := TrackOf(Scan(r, st, s, log, i, to, cut), s);
      t.cursor != Latest && t.start == TrackOf(st, s).start
    decreases if i < to then to - i else 0
  {
    if i < to {
      ScanKeepsStart(r, Take(r, st, s, i, log[i], cut), s, log, i + 1, to, cut);
    }
  }

  /** What one read does to one stream's track, whatever the other stream brings. */
  lemma RoundIsAScan(r: Reader, w: World, st: St, n: nat, s: Stream) returns (before: St)
    requires AppendOnly(w) && !Stopped(st) && !w.fails(n)
    requires TrackOf(st, s).cursor.After? ==> TrackOf(st, s).cursor.next <= |w.logs(n, s)|
    requires s == Final ==> TrackOf(st, Progress).cursor.After? ==>
               TrackOf(st, Progress).cursor.next <= |w.logs(n, Progress)|
    ensures TrackOf(before, s) == TrackOf(st, s)
    ensures s == Progress || HasFinalStream(r) ==>
      TrackOf(Round(r, w, st, n), s)
      == TrackOf(ScanBatch(r, w, before, n, s, From(w, st, n, s), Upto(w, st, n, s)), s)
    ensures s == Final && !HasFinalStream(r) ==> TrackOf(Round(r, w, st, n), s) == TrackOf(st, s)
    ensures !Stopped(Round(r, w, st, n)) && (s == Progress || HasFinalStream(r)) ==>
      !Stopped(ScanBatch(r, w, before, n, s, From(w, st, n, s), Upto(w, st, n, s)))
  {
    var from, to := From(w, st, n, Progress), Upto(w, st, n, Progress);
    var st' := ScanBatch(r, w, st, n, Progress, from, to);
    if s == Progress {
      before := st;
      var from', to' := From(w, st, n, Final), Upto(w, st, n, Final);
      if HasFinalStream(r) && to' <= |w.logs(n, Final)| {
        ScanForwardsElsewhere(r, st', Final, w.logs(n, Final), from', to', w.cut, Progress);
        if Stopped(st') {
          StoppedScan(r, st', Final, w.logs(n, Final), from', to', w.cut);
        }
      }
    } else {
      before := st';
      if to <= |w.logs(n, Progress)| {
        ScanForwardsElsewhere(r, st, Progress, w.logs(n, Progress), from, to, w.cut, Final);
      }
    }
  }

  /** The tracks of both streams stay inside the logs. */
  predicate Inside(w: World, st: St, n: nat) {
    forall s :: TrackOf(st, s).cursor.After? ==> TrackOf(st, s).cursor.next <= |w.logs(n, s)|
  }

  lemma LeavesInRead(r: Reader, w: World, st: St, n: nat, s: Stream)
    requires AppendOnly(w) && !Stopped(st) && !w.fails(n) && Inside(w, st, n)
    requires TrackOf(st, s).cursor == Latest && TrackOf(Round(r, w, st, n), s).cursor != Latest
    ensures StartedIn(r, w, s, n, TrackOf(Round(r, w, st, n), s).start)
  {
    var before := RoundIsAScan(r, w, st, n, s);
    ScanStarts(r, before, s, w.logs(n, s), From(w, st, n, s), Upto(w, st, n, s), w.cut);
  }

  lemma StaysInRead(r: Reader, w: World, st: St, n: nat, s: Stream)
    requires AppendOnly(w) && !Stopped(st) && !w.fails(n) && Inside(w, st, n)
    requires TrackOf(st, s).cursor != Latest
    ensures TrackOf(Round(r, w, st, n), s).start == TrackOf(st, s).start
  {
    var before := RoundIsAScan(r, w, st, n, s);
    ScanKeepsStart(r, before, s, w.logs(n, s), From(w, st, n, s), Upto(w, st, n, s), w.cut);
  }

  lemma AlwaysInside(r: Reader, w: World, n: nat)
    requires AppendOnly(w)
    ensures Inside(w, Rounds(r, w, n), n)
  {
    ForwardsOneSegment(r, w, n);
    forall s ensures TrackOf(Rounds(r, w, n), s).cursor.After? ==>
      TrackOf(Rounds(r, w, n), s).cursor.next <= |w.logs(n, s)|
    {
      assert Tracks(r, Rounds(r, w, n), s, w.logs(n, s));
    }
  }

  lemma {:induction false} LeftAt(r: Reader, w: World, n: nat, s: Stream) returns (m: nat)
    requires AppendOnly(w) && TrackOf(Rounds(r, w, n), s).cursor != Latest
    ensures m < n && StartedIn(r, w, s, m, TrackOf(Rounds(r, w, n), s).start)
  {
    var st := Rounds(r, w, n - 1);
    AlwaysInside(r, w, n - 1);
    if Stopped(st) || w.fails(n - 1) {
      m := LeftAt(r, w, n - 1, s);
    } else if TrackOf(st, s).cursor == Latest {
      LeavesInRead(r, w, st, n - 1, s);
      m := n - 1;
    } else {
      m := LeftAt(r, w, n - 1, s);
      StaysInRead(r, w, st, n - 1, s);
    }
  }

  lemma {:induction false} TailsGrow(w: World, n: nat, s: Stream)
    requires AppendOnly(w)
    ensures w.tails(0, s) <= w.tails(n, s)
  {
    if n > 0 {
      TailsGrow(w, n - 1, s);
    }
  }

  /**
   After any number of reads, what was forwarded from a stream is exactly the selected part of one segment `[a..b]` of
   it. The segment begins in some read, at the first entry appended after that read was issued that the reader does not
   wait at; so nothing that was in the stream when the first read was issued is ever forwarded.
   */
  lemma ForwardsOnlyNewEntries(r: Reader, w: World, n: nat, s: Stream) returns (a: nat, b: nat)
    requires AppendOnly(w)
    ensures w.tails(0, s) <= a <= b
    ensures a == b ==> Forwarded(Rounds(r, w, n).out, s) == []
    ensures a < b ==> b <= |w.logs(n, s)| && Forwarded(Rounds(r, w, n).out, s) == Selected(r, w.logs(n, s)[a..b])
    ensures a < b ==> exists m: nat :: m < n && StartedIn(r, w, s, m, a)
  {
    ForwardsOneSegment(r, w, n);
    var t := TrackOf(Rounds(r, w, n), s);
    assert Tracks(r, Rounds(r, w, n), s, w.logs(n, s));
    if t.cursor == Latest {
      a, b := w.tails(0, s), w.tails(0, s);
    } else {
      var m := LeftAt(r, w, n, s);
      TailsGrow(w, m, s);
      a, b := t.start, t.cursor.next;
    }
  }

  // ---- How far a read goes ------------------------------------------------------------------------------

  /** The reader waits at each of these entries. */
  predicate AllWaited(r: Reader, es: seq<Entry>) {
    forall e <- es :: Waits(r) && e.Malformed?
  }

  /** The cursor stands behind the last entry of `[i..to]` that the reader does not wait at, or where it was. */
  predicate Reached(r: Reader, was: Cursor, now: Cursor, log: seq<Entry>, i: nat, to: nat)
    requires i <= to <= |log|
  {
    if AllWaited(r, log[i..to]) then now == was
    else
      && now.After? && i < now.next <= to
      && (Waits(r) ==> log[now.next - 1].Entry?)
      && AllWaited(r, log[now.next..to])
  }

  lemma AllWaitedCons(r: Reader, e: Entry, es: seq<Entry>)
    ensures AllWaited(r, [e] + es) <==> Waits(r) && e.Malformed? && AllWaited(r, es)
  {
    assert e in [e] + es && forall x <- es :: x in [e] + es;
  }

  /** One entry before the others: either it is waited at, or the cursor stands at least behind it. */
  lemma ReachedWithOneMore(r: Reader, was: Cursor, mid: Cursor, now: Cursor, log: seq<Entry>, i: nat, to: nat)
    requires i < to <= |log| && Reached(r, mid, now, log, i + 1, to)
    requires mid == if Waits(r) && log[i].Malformed? then was else After(i + 1)
    ensures Reached(r, was, now, log, i, to)
  {
    assert log[i..to] == [log[i]] + log[i + 1..to];
    AllWaitedCons(r, log[i], log[i + 1..to]);
  }

  lemma {:induction false} ScanReaches(r: Reader, st: St, s: Stream, log: seq<Entry>, i: nat, to: nat, cut: nat)
    requires i <= to <= |log| && !Stopped(Scan(r, st, s, log, i, to, cut))
    ensures Reached(r, TrackOf(st, s).cursor, TrackOf(Scan(r, st, s, log, i, to, cut), s).cursor, log, i, to)
    decreases if i < to then to - i else 0
  {
    if i < to {
      var st' := Take(r, st, s, i, log[i], cut);
      if Stopped(st) {
        StoppedScan(r, st, s, log, i, to, cut);
      }
      if Stopped(st') {
        StoppedScan(r, st', s, log, i + 1, to, cut);
      }
      ScanReaches(r, st', s, log, i + 1, to, cut);
      var end := TrackOf(Scan(r, st, s, log, i, to, cut), s).cursor;
      ReachedWithOneMore(r, TrackOf(st, s).cursor, TrackOf(st', s).cursor, end, log, i, to);
    }
  }

  /**
   A read that goes well takes the sixteen entries after the cursor, or as many as there are: the cursor then stands
   behind the last of them that the reader does not wait at.
   */
  lemma ReadTakesSixteen(r: Reader, w: World, n: nat, s: Stream)
    requires AppendOnly(w) && !w.fails(n) && !Stopped(Rounds(r, w, n + 1)) && (s == Final ==> Waits(r))
    ensures var was, now := TrackOf(Rounds(r, w, n), s).cursor, TrackOf(Rounds(r, w, n + 1), s).cursor;
      var log := w.logs(n, s);
      var from := if was == Latest then w.tails(n, s) else was.next;
      from <= |log| && Reached(r, was, now, log, from, if from + 16 <= |log| then from + 16 else |log|)
  {
    var st := Rounds(r, w, n);
    AlwaysInside(r, w, n);
    var before := RoundIsAScan(r, w, st, n, s);
    ScanReaches(r, before, s, w.logs(n, s), From(w, st, n, s), Upto(w, st, n, s), w.cut);
  }

  // ---- What is forwarded, and what ends a stream -----------------------------------------------------------

  /** A missing owner is the empty one for the gateway, and nobody's for the quant service. */
  predicate Owns(r: Reader, e: Entry)
    requires e.Entry?
  {
    match e.owner
    case Some(o) => o == r.id
    case None => r.id == "" && !r.BacktestRpc? && !r.OptimizationRpc?
  }

  predicate Starts(text: string, prefix: string) {
    |prefix| <= |text| && text[..|prefix|] == prefix
  }

  /** Exactly these entries are forwarded, and exactly these end the stream; states are read as whole numbers. */
  lemma ForwardsAndEndsExactly(r: Reader, s: Stream, e: Entry)
    ensures Selects(r, e) <==>
      && e.Entry? && Owns(r, e)
      && (r.StrategySource? ==> Starts(e.typ, "event.order."))
      && (r.PredictionSource? ==> Starts(e.typ, "event.prediction_order."))
    ensures e.Entry? ==>
      var in34 := e.state.Some? && 3.0 <= e.state.value < 5.0;
      var in345 := e.state.Some? && 3.0 <= e.state.value < 6.0;
      (Ends(r, s, e) <==>
        match r
        case BacktestSource(_) => s == Final
        case OptimizationSource(_) => s == Final || in345
        case StrategySource(_) => false
        case PredictionSource(_) => false
        case BacktestRpc(_) => in34
        case OptimizationRpc(_) => in345)
  {
    if e.Entry? && e.state.Some? {
      assert Trunc(e.state.value) >= 3 <==> e.state.value >= 3.0;
      assert Trunc(e.state.value) < 5 <==> e.state.value < 5.0;
      assert Trunc(e.state.value) < 6 <==> e.state.value < 6.0;
    }
    assert Starts("event.order.", "event.order.");
  }

  // ---- The order of what is sent -----------------------------------------------------------------------------

  predicate AllFrom(sent: seq<Sent>, s: Stream) {
    forall x <- sent :: x.s == s
  }

  /** A batch only appends, and only what came from its stream. */
  lemma {:induction false} ScanAppends(r: Reader, st: St, s: Stream, log: seq<Entry>, i: nat, to: nat, cut: nat)
    returns (more: seq<Sent>)
    requires to <= |log|
    ensures Scan(r, st, s, log, i, to, cut).out == st.out + more && AllFrom(more, s)
    ensures |st.out| <= cut ==> |Scan(r, st, s, log, i, to, cut).out| <= cut
    decreases if i < to then to - i else 0
  {
    more := [];
    if i < to {
      var st' := Take(r, st, s, i, log[i], cut);
      more := ScanAppends(r, st', s, log, i + 1, to, cut);
      if st'.out != st.out {
        assert st'.out == st.out + [Sent(s, log[i])];
        assert st.out + [Sent(s, log[i])] + more == st.out + ([Sent(s, log[i])] + more);
        more := [Sent(s, log[i])] + more;
      }
    }
  }

  /** One read sends what it found of the progress stream before what it found of the final events. */
  lemma ProgressComesFirst(r: Reader, w: World, st: St, n: nat) returns (progress: seq<Sent>, final: seq<Sent>)
    ensures Round(r, w, st, n).out == st.out + progress + final
    ensures AllFrom(progress, Progress) && AllFrom(final, Final) && (!Waits(r) ==> final == [])
    ensures |st.out| <= w.cut ==> |Round(r, w, st, n).out| <= w.cut
  {
    progress, final := [], [];
    if !Stopped(st) && !w.fails(n) {
      var from, to := From(w, st, n, Progress), Upto(w, st, n, Progress);
      var from', to' := From(w, st, n, Final), Upto(w, st, n, Final);
      var st' := ScanBatch(r, w, st, n, Progress, from, to);
      if to <= |w.logs(n, Progress)| {
        progress := ScanAppends(r, st, Progress, w.logs(n, Progress), from, to, w.cut);
      }
      if HasFinalStream(r) && to' <= |w.logs(n, Final)| {
        final := ScanAppends(r, st', Final, w.logs(n, Final), from', to', w.cut);
      }
    }
  }

  /** A reader whose context ends at a send has sent nothing from that one on. */
  lemma {:induction false} SendsNothingOnceCancelled(r: Reader, w: World, n: nat)
    ensures |Rounds(r, w, n).out| <= w.cut
  {
    if n > 0 {
      SendsNothingOnceCancelled(r, w, n - 1);
      var progress, final := ProgressComesFirst(r, w, Rounds(r, w, n - 1), n - 1);
    }
  }
}
