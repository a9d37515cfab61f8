/** The fire-and-forget cost ledger: a semaphore bounds the background writers. */
module CostRecorder {

  const RECORD_SEM_CAP: nat := 50

  datatype WriteOutcome = Written | WriteFailed | WritePanicked

  /** How far a writer has come. A write that panics unwinds until the inner
      deferred function recovers; then, as after a return, the writer is leaving
      until the outer deferred receive gives its slot back. */
  datatype Phase = Writing | Unwinding | Leaving

  /** `sem` counts the slots in the channel. */
  datatype Recorder = Recorder(
    sem: nat, writers: map<nat, Phase>, launched: nat, records: nat, dropped: nat, released: seq<nat>)

  datatype Event =
    | Record
    | WriteEnds(writer: nat, outcome: WriteOutcome)
    | Recover(writer: nat)
    | Release(writer: nat)

  function Initial(): Recorder {
    Recorder(0, map[], 0, 0, 0, [])
  }

  predicate IsAt(r: Recorder, w: nat, ph: Phase) {
    w in r.writers && r.writers[w] == ph
  }

  function MoveTo(r: Recorder, w: nat, ph: Phase): Recorder {
    r.(writers := r.writers[w := ph])
  }

  function Step(r: Recorder, e: Event): Recorder {
    match e
    case Record =>
      if r.sem < RECORD_SEM_CAP
      then MoveTo(r, r.launched, Writing).(sem := r.sem + 1, launched := r.launched + 1, records := r.records + 1)
      else r.(dropped := r.dropped + 1, records := r.records + 1)
    case WriteEnds(w, o) =>
      if IsAt(r, w, Writing) then MoveTo(r, w, if o.WritePanicked? then Unwinding else Leaving) else r
    case Recover(w) =>
      if IsAt(r, w, Unwinding) then MoveTo(r, w, Leaving) else r
    case Release(w) =>
      if IsAt(r, w, Leaving) && r.sem > 0
      then r.(sem := r.sem - 1, writers := r.writers - {w}, released := r.released + [w])
      else r
  }

  function Run(es: seq<Event>): Recorder {
    if |es| == 0 then Initial() else Step(Run(es[..|es| - 1]), es[|es| - 1])
  }

  function Live(r: Recorder): set<nat> {
    r.writers.Keys
  }

  ghost predicate Inv(r: Recorder) {
    && r.sem == |Live(r)| <= 50
    && (forall w :: w in Live(r) ==> w < r.launched && w !in r.released)
    && (forall w :: w in r.released ==> w < r.launched)
    && (forall i, j :: 0 <= i < j < |r.released| ==> r.released[i] != r.released[j])
    && r.launched == r.sem + |r.released|
    && r.records == r.launched + r.dropped
  }

  lemma RecordKeepsInv(r: Recorder)
    requires Inv(r)
    ensures Inv(Step(r, Record))
  {
    if r.sem < RECORD_SEM_CAP {
      assert Live(Step(r, Record)) == Live(r) + {r.launched};
      assert r.launched !in Live(r);
    }
  }

  /** A writer that only moves on keeps its slot. */
  lemma MoveKeepsInv(r: Recorder, w: nat, ph: Phase)
    requires Inv(r) && w in Live(r)
    ensures Inv(MoveTo(r, w, ph))
  {
    assert Live(MoveTo(r, w, ph)) == Live(r);
  }

  lemma ReleaseKeepsInv(r: Recorder, w: nat)
    requires Inv(r)
    ensures Inv(Step(r, Release(w)))
  {
    if IsAt(r, w, Leaving) {
      var r' := Step(r, Release(w));
      assert w in Live(r);
      assert Live(r') == Live(r) - {w};
      assert forall i :: 0 <= i < |r.released| ==> r.released[i] in r.released && r.released[i] != w;
    }
  }

  lemma StepKeepsInv(r: Recorder, e: Event)
    requires Inv(r)
    ensures Inv(Step(r, e))
  {
    match e
    case Record => RecordKeepsInv(r);
    case WriteEnds(w, o) =>
      if IsAt(r, w, Writing) { MoveKeepsInv(r, w, if o.WritePanicked? then Unwinding else Leaving); }
    case Recover(w) => if IsAt(r, w, Unwinding) { MoveKeepsInv(r, w, Leaving); }
    case Release(w) => ReleaseKeepsInv(r, w);
  }

  /** In every interleaving the slots taken are the writers alive, never more
      than 50; every writer gives its slot back at most once; and every record
      is accounted for as dropped, finished or still being written. */
  lemma {:induction false} SlotsAreLiveWriters(es: seq<Event>)
    ensures Inv(Run(es))
    decreases |es|
  {
    if |es| > 0 {
      SlotsAreLiveWriters(es[..|es| - 1]);
      StepKeepsInv(Run(es[..|es| - 1]), es[|es| - 1]);
    }
  }

  lemma RecordEffect(r: Recorder)
    requires Inv(r)
    ensures var r' := Step(r, Record);
            && r'.records == r.records + 1
            && (r'.dropped == r.dropped + 1 <==> |Live(r)| == 50)
            && (r'.dropped == r.dropped <==> Live(r') == Live(r) + {r.launched} && r.launched !in Live(r))
  {
    assert r.launched !in Live(r);
  }

  /** A record is dropped exactly when 50 earlier writes are still unfinished;
      otherwise it becomes a new writer. Either way it takes one step. */
  lemma {:induction false} DroppedExactlyWhenFull(es: seq<Event>)
    ensures var r, r' := Run(es), Run(es + [Record]);
            && r'.records == r.records + 1
            && (r'.dropped == r.dropped + 1 <==> |Live(r)| == 50)
            && (r'.dropped == r.dropped <==> Live(r') == Live(r) + {r.launched} && r.launched !in Live(r))
  {
    SlotsAreLiveWriters(es);
    assert (es + [Record])[..|es|] == es;
    assert Run(es + [Record]) == Step(Run(es), Record);
    RecordEffect(Run(es));
  }

  /** When the writes are over no slot is leaked, whatever their outcomes. */
  lemma {:induction false} NoSlotLeaks(es: seq<Event>)
    requires Live(Run(es)) == {}
    ensures var r := Run(es);
            && r.sem == 0
            && r.records == r.dropped + |r.released|
            && |r.released| == r.launched
  {
    SlotsAreLiveWriters(es);
  }

  /** Steps a writer still has to take before its slot is back. */
  function StepsLeft(r: Recorder, w: nat): nat {
    if w !in r.writers then 0
    else
      match r.writers[w]
      case Writing => 3
      case Unwinding => 2
      case Leaving => 1
  }

  predicate OfWriter(e: Event, w: nat) {
    (e.WriteEnds? || e.Recover? || e.Release?) && e.writer == w
  }

  /** The step a writer takes next, when its write ends as `o` says. */
  function NextOf(ph: Phase, w: nat, o: WriteOutcome): Event {
    match ph
    case Writing => WriteEnds(w, o)
    case Unwinding => Recover(w)
    case Leaving => Release(w)
  }

  /** A writer alive is never blocked: whatever has happened, its next step brings
      it nearer to the end, and no step of anybody else moves it. It holds its slot
      up to its last step and gives it back in that one. After a panic only the
      recover leads there. */
  lemma {:induction false} EveryPathReleases(es: seq<Event>, w: nat, o: WriteOutcome, other: Event)
    requires w in Live(Run(es)) && !OfWriter(other, w)
    ensures var r := Run(es);
            var r' := Step(r, NextOf(r.writers[w], w, o));
            && StepsLeft(r', w) < StepsLeft(r, w) && StepsLeft(Step(r, other), w) == StepsLeft(r, w)
            && (StepsLeft(r', w) == 0 <==> w in r'.released && r'.sem == r.sem - 1)
            && (StepsLeft(r', w) > 0 <==> w in Live(r') && r'.sem == r.sem)
            && (StepsLeft(r', w) == 2 <==> IsAt(r, w, Writing) && o.WritePanicked?)
            && (IsAt(r, w, Unwinding) ==> Step(r, Release(w)) == r && Step(r, WriteEnds(w, o)) == r)
  {
    SlotsAreLiveWriters(es);
  }
}
