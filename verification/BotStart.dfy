/** Starting the chat bot beside the server: the start goroutine, the timeout
    watcher and any number of stop calls, one atomic step at a time. */
module BotStart {
  import opened Ids

  datatype Outcome = ReturnsNil | ReturnsError | ReturnsSessionUnavailable | Panics

  datatype Detail = StartFailed | StartPanicked | TimedOut

  datatype Health = Starting | Ok | Degraded(detail: Detail)

  /** Where the start goroutine is. `Recovering` is its deferred recover block. */
  datatype Starter =
    | InStart
    | Returned(outcome: Outcome)
    | Closed(outcome: Outcome)
    | StoppingHalfOpen
    | Recovering
    | RecoverWritten
    | RecoverClosed
    | Finished

  datatype Watcher = Waiting | TimeoutChosen | Gone

  /** A call of the returned stop function. */
  datatype StopCall = Chosen | Skipped | Stopped

  datatype State = State(
    starter: Starter, watcher: Watcher, stops: map<nat, StopCall>,
    ended: Option<Outcome>, expired: bool, closes: nat, crashed: bool,
    once: bool, history: seq<Health>,
    botStops: seq<bool>, ownStopPanicked: bool)

  datatype Event =
    | StartEnds(outcome: Outcome)
    | CloseChannel
    | WriteResult
    | OwnStop(panics: bool)
    | Expire
    | SeeClosed
    | SeeTimeout
    | WriteTimeout
    | CallStop(call: nat)
    | FinishStop(call: nat)

  function Initial(): State {
    State(InStart, Waiting, map[], None, false, 0, false, false, [Starting], [], false)
  }

  /** `writeOnce.Do`: only the first caller sets the health. */
  function WriteOnce(s: State, h: Health): State {
    if s.once then s else s.(once := true, history := s.history + [h])
  }

  /** Closing a closed channel panics and nothing recovers it: the process dies. */
  function CloseStarted(s: State, next: Starter): State {
    if s.closes > 0 then s.(closes := s.closes + 1, crashed := true)
    else s.(closes := 1, starter := next)
  }

  /** `bot.Stop()`, remembering whether Start had ended by then. */
  function BotStop(s: State): State {
    s.(botStops := s.botStops + [s.ended.Some?])
  }

  function StarterStep(s: State, e: Event): State {
    match e
    case StartEnds(o) =>
      if s.starter.InStart? then s.(ended := Some(o), starter := if o.Panics? then Recovering else Returned(o)) else s
    case CloseChannel =>
      (match s.starter
       case Returned(o) => CloseStarted(s, Closed(o))
       case RecoverWritten => CloseStarted(s, RecoverClosed)
       case _ => s)
    case WriteResult =>
      (match s.starter
       case Closed(o) =>
         if o.ReturnsNil? then WriteOnce(s, Ok).(starter := Finished)
         else WriteOnce(s, Degraded(StartFailed)).(
                starter := if o.ReturnsSessionUnavailable? then StoppingHalfOpen else Finished)
       case Recovering => WriteOnce(s, Degraded(StartPanicked)).(starter := RecoverWritten)
       case _ => s)
    case OwnStop(panics) =>
      (match s.starter
       case StoppingHalfOpen =>
         BotStop(s).(starter := if panics then Recovering else Finished, ownStopPanicked := panics)
       case RecoverClosed => BotStop(s).(starter := Finished, crashed := panics, ownStopPanicked := panics)
       case _ => s)
    case _ => s
  }

  function WatcherStep(s: State, e: Event): State {
    match e
    case Expire => s.(expired := true)
    case SeeClosed => if s.watcher.Waiting? && s.closes > 0 then s.(watcher := Gone) else s
    case SeeTimeout => if s.watcher.Waiting? && s.expired then s.(watcher := TimeoutChosen) else s
    case WriteTimeout => if s.watcher.TimeoutChosen? then WriteOnce(s, Degraded(TimedOut)).(watcher := Gone) else s
    case _ => s
  }

  function StopStep(s: State, e: Event): State {
    match e
    case CallStop(c) =>
      if c in s.stops then s else s.(stops := s.stops[c := if s.closes > 0 then Chosen else Skipped])
    case FinishStop(c) =>
      if c in s.stops && s.stops[c].Chosen? then BotStop(s).(stops := s.stops[c := Stopped]) else s
    case _ => s
  }

  predicate OfStarter(e: Event) {
    e.StartEnds? || e.CloseChannel? || e.WriteResult? || e.OwnStop?
  }

  predicate OfWatcher(e: Event) {
    e.Expire? || e.SeeClosed? || e.SeeTimeout? || e.WriteTimeout?
  }

  /** The next state. A step that is not enabled changes nothing, and nothing
      happens in a dead process. */
  function Step(s: State, e: Event): State {
    if s.crashed then s
    else if OfStarter(e) then StarterStep(s, e)
    else if OfWatcher(e) then WatcherStep(s, e)
    else StopStep(s, e)
  }

  function Run(s: State, es: seq<Event>): State {
    if |es| == 0 then s else Step(Run(s, es[..|es| - 1]), es[|es| - 1])
  }

  /** Start's own verdict, as the health can show it. */
  function Verdict(o: Outcome): Health {
    match o
    case ReturnsNil => Ok
    case ReturnsError => Degraded(StartFailed)
    case ReturnsSessionUnavailable => Degraded(StartFailed)
    case Panics => Degraded(StartPanicked)
  }

  /** Has the start goroutine passed its turn at writing the health? */
  predicate Wrote(st: Starter) {
    st.StoppingHalfOpen? || st.RecoverWritten? || st.RecoverClosed? || st.Finished?
  }

  ghost predicate StarterOk(s: State) {
    && (s.starter.InStart? <==> s.ended.None?)
    && (s.starter.Returned? ==> !s.starter.outcome.Panics? && s.ended == Some(s.starter.outcome) && s.closes == 0)
    && (s.starter.Closed? ==> !s.starter.outcome.Panics? && s.ended == Some(s.starter.outcome) && s.closes == 1)
    && (s.starter.StoppingHalfOpen? ==> s.ended == Some(ReturnsSessionUnavailable))
    && (s.starter.RecoverClosed? ==> s.ended == Some(Panics))
    && (s.starter.Recovering? || s.starter.RecoverWritten? ==>
         s.ended == Some(Panics) || (s.ended == Some(ReturnsSessionUnavailable) && s.ownStopPanicked && s.once))
  }

  ghost predicate ClosesOk(s: State) {
    && (s.starter.InStart? ==> s.closes == 0)
    && (s.starter.StoppingHalfOpen? || s.starter.RecoverClosed? || s.starter.Finished? ==> s.closes == 1)
    && (s.starter.Recovering? || s.starter.RecoverWritten? ==>
         if s.ended == Some(Panics) then s.closes == 0 else s.closes == if s.crashed then 2 else 1)
    && (s.ownStopPanicked ==> s.starter.Recovering? || s.starter.RecoverWritten? || s.crashed)
    && (s.ownStopPanicked && !s.crashed ==> s.ended == Some(ReturnsSessionUnavailable))
    && (s.crashed ==> s.ownStopPanicked)
    && (s.crashed && s.ended == Some(ReturnsSessionUnavailable) ==> s.closes == 2)
  }

  ghost predicate HistoryOk(s: State) {
    && (if s.once then |s.history| == 2 else |s.history| == 1)
    && s.history[0] == Starting
    && (s.once ==> s.history[1] == Degraded(TimedOut) || (s.ended.Some? && s.history[1] == Verdict(s.ended.value)))
    && (Wrote(s.starter) ==> s.once)
    && (s.crashed ==> s.once)
    && (s.watcher.Gone? ==> s.once || s.closes > 0)
    && (s.watcher.TimeoutChosen? ==> s.expired)
    && (s.once && s.history[1] == Degraded(TimedOut) ==> s.expired && s.watcher.Gone?)
  }

  ghost predicate StopsOk(s: State) {
    && (forall b :: b in s.botStops ==> b)
    && (forall c :: c in s.stops && s.stops[c].Chosen? ==> s.closes > 0)
    && (s.closes > 0 ==> s.ended.Some?)
  }

  ghost predicate Inv(s: State) {
    StarterOk(s) && ClosesOk(s) && HistoryOk(s) && StopsOk(s)
  }

  lemma StarterKeepsCloses(s: State, e: Event)
    requires Inv(s) && !s.crashed && OfStarter(e)
    ensures StarterOk(StarterStep(s, e)) && ClosesOk(StarterStep(s, e))
  {
  }

  lemma StarterKeepsHistory(s: State, e: Event)
    requires Inv(s) && !s.crashed && OfStarter(e)
    ensures HistoryOk(StarterStep(s, e)) && StopsOk(StarterStep(s, e))
  {
  }

  lemma StarterKeepsInv(s: State, e: Event)
    requires Inv(s) && !s.crashed && OfStarter(e)
    ensures Inv(StarterStep(s, e))
  {
    StarterKeepsCloses(s, e);
    StarterKeepsHistory(s, e);
  }

  lemma WatcherKeepsInv(s: State, e: Event)
    requires Inv(s) && !s.crashed && OfWatcher(e)
    ensures Inv(WatcherStep(s, e))
  {
  }

  lemma StopKeepsInv(s: State, e: Event)
    requires Inv(s) && !s.crashed && (e.CallStop? || e.FinishStop?)
    ensures Inv(StopStep(s, e))
  {
  }

  lemma {:induction false} RunKeepsInv(es: seq<Event>)
    ensures Inv(Run(Initial(), es))
    decreases |es|
  {
    if |es| > 0 {
      RunKeepsInv(es[..|es| - 1]);
      var s, e := Run(Initial(), es[..|es| - 1]), es[|es| - 1];
      if !s.crashed {
        if OfStarter(e) { StarterKeepsInv(s, e); }
        else if OfWatcher(e) { WatcherKeepsInv(s, e); }
        else { StopKeepsInv(s, e); }
      }
    }
  }

  /** `bot.Stop` never runs before Start has ended; health leaves "starting" at
      most once; "ok" means Start returned nil. */
  ghost predicate Safe(s: State) {
    && (forall b :: b in s.botStops ==> b)
    && 1 <= |s.history| <= 2 && s.history[0] == Starting
    && (|s.history| == 2 ==> s.history[1] != Starting)
    && (Ok in s.history ==> s.ended == Some(ReturnsNil))
    && (Degraded(StartPanicked) in s.history ==> s.ended == Some(Panics))
  }

  lemma InvIsSafe(s: State)
    requires Inv(s)
    ensures Safe(s)
  {
  }

  /** Safety in every interleaving, for any number of stop calls. */
  lemma {:induction false} AlwaysSafe(es: seq<Event>)
    ensures Safe(Run(Initial(), es))
  {
    RunKeepsInv(es);
    InvIsSafe(Run(Initial(), es));
  }

  lemma {:induction false} RunConcat(s: State, a: seq<Event>, b: seq<Event>)
    ensures Run(s, a + b) == Run(Run(s, a), b)
    decreases |b|
  {
    if |b| == 0 {
      assert a + b == a;
    } else {
      RunConcat(s, a, b[..|b| - 1]);
      assert (a + b)[..|a + b| - 1] == a + b[..|b| - 1];
    }
  }

  lemma StepHistory(s: State, e: Event)
    requires Inv(s)
    ensures s.history <= Step(s, e).history
    ensures |s.history| == 2 ==> Step(s, e).history == s.history
  {
  }

  /** Health leaves "starting" once and then stays as it is. */
  lemma {:induction false} HealthIsFinal(es: seq<Event>, more: seq<Event>)
    ensures Run(Initial(), es).history <= Run(Initial(), es + more).history
    ensures |Run(Initial(), es).history| == 2 ==> Run(Initial(), es + more).history == Run(Initial(), es).history
    decreases |more|
  {
    if |more| == 0 {
      assert es + more == es;
    } else {
      var init, e := es + more[..|more| - 1], more[|more| - 1];
      HealthIsFinal(es, more[..|more| - 1]);
      assert (es + more)[..|es + more| - 1] == init && (es + more)[|es + more| - 1] == e;
      RunKeepsInv(init);
      StepHistory(Run(Initial(), init), e);
    }
  }

  /** Once the start goroutine is through or the process is dead, the channel has
      been closed twice exactly when Start found the session unavailable and
      `bot.Stop` panicked on that branch; the second close kills the process. */
  lemma {:induction false} ClosedTwiceIff(es: seq<Event>)
    ensures var s := Run(Initial(), es);
            && s.closes <= 2
            && (s.starter.Finished? || s.crashed ==>
                  (s.closes == 2 <==> s.ended == Some(ReturnsSessionUnavailable) && s.ownStopPanicked))
            && (s.closes == 2 <==> s.crashed && s.ended == Some(ReturnsSessionUnavailable))
            && (s.crashed ==> s.ownStopPanicked)
            && (s.ended == Some(ReturnsSessionUnavailable) && s.ownStopPanicked ==>
                 s.crashed || s.starter.Recovering? || s.starter.RecoverWritten?)
  {
    RunKeepsInv(es);
  }

  lemma QuietStep(s: State, e: Event)
    requires !s.ownStopPanicked && e != OwnStop(true)
    ensures !Step(s, e).ownStopPanicked
  {
  }

  lemma {:induction false} NoOwnPanic(es: seq<Event>)
    requires OwnStop(true) !in es
    ensures !Run(Initial(), es).ownStopPanicked
    decreases |es|
  {
    if |es| > 0 {
      var init, e := es[..|es| - 1], es[|es| - 1];
      assert e in es && forall x :: x in init ==> x in es;
      NoOwnPanic(init);
      QuietStep(Run(Initial(), init), e);
    }
  }

  /** So a `bot.Stop` that does not panic is what "closed at most once" needs. */
  lemma {:induction false} ClosedAtMostOnce(es: seq<Event>)
    requires OwnStop(true) !in es
    ensures Run(Initial(), es).closes <= 1 && !Run(Initial(), es).crashed
    decreases |es|
  {
    NoOwnPanic(es);
    RunKeepsInv(es);
  }

  lemma {:induction false} ThreeSteps(s: State, a: Event, b: Event, c: Event)
    ensures Run(s, [a, b, c]) == Step(Step(Step(s, a), b), c)
  {
    assert [a, b, c][..2] == [a, b] && [a, b][..1] == [a] && [a][..0] == [];
    assert Run(s, [a]) == Step(Run(s, []), a);
    assert Run(s, [a, b]) == Step(Run(s, [a]), b);
    assert Run(s, [a, b, c]) == Step(Run(s, [a, b]), c);
  }

  /** ... and a panicking one always breaks it, from any state of any run. */
  lemma {:induction false} HalfOpenStopPanicKills(es: seq<Event>)
    requires Run(Initial(), es).starter.StoppingHalfOpen? && !Run(Initial(), es).crashed
    ensures var s := Run(Initial(), es + [OwnStop(true), WriteResult, CloseChannel]);
            s.closes == 2 && s.crashed
  {
    RunKeepsInv(es);
    var s := Run(Initial(), es);
    var s1 := Step(s, OwnStop(true));
    var s2 := Step(s1, WriteResult);
    RunConcat(Initial(), es, [OwnStop(true), WriteResult, CloseChannel]);
    ThreeSteps(s, OwnStop(true), WriteResult, CloseChannel);
  }

  /** Such a run exists. */
  lemma {:induction false} HalfOpenIsReachable()
    ensures Run(Initial(), [StartEnds(ReturnsSessionUnavailable), CloseChannel, WriteResult]).starter.StoppingHalfOpen?
  {
    ThreeSteps(Initial(), StartEnds(ReturnsSessionUnavailable), CloseChannel, WriteResult);
  }

  /** A stop call decides in its own single step, in every live state: exactly
      when the channel is closed, and so Start has ended, it goes on to `bot.Stop`. */
  lemma {:induction false} StopNeverWaits(es: seq<Event>, c: nat)
    requires !Run(Initial(), es).crashed && c !in Run(Initial(), es).stops
    ensures var s := Run(Initial(), es);
            var s' := Step(s, CallStop(c));
            && s' == s.(stops := s.stops[c := if s.closes > 0 then Chosen else Skipped])
            && (s.closes > 0 ==> s.ended.Some?)
            && Step(s', FinishStop(c)) == if s.closes > 0
               then s'.(stops := s.stops[c := Stopped], botStops := s.botStops + [true])
               else s'
  {
    RunKeepsInv(es);
  }

  /** `bot.Stop` runs when it is its turn: for a call that found the channel
      closed, on the half-open branch and in the recover block. */
  lemma {:induction false} EveryStopIsMade(es: seq<Event>, panics: bool)
    requires !Run(Initial(), es).crashed
    ensures var s := Run(Initial(), es);
            && (forall c :: c in s.stops && s.stops[c] == Chosen ==>
                 Step(s, FinishStop(c)) == s.(stops := s.stops[c := Stopped], botStops := s.botStops + [true]))
            && (s.starter == StoppingHalfOpen || s.starter == RecoverClosed ==>
                 Step(s, OwnStop(panics)).botStops == s.botStops + [true])
  {
    RunKeepsInv(es);
  }

  /** The watcher takes whichever of the two it sees and touches nothing but, once
      the timer has fired first, the health. */
  lemma {:induction false} WatcherChooses(es: seq<Event>)
    requires !Run(Initial(), es).crashed && Run(Initial(), es).watcher == Waiting
    ensures var s := Run(Initial(), es);
            && Step(s, Expire) == s.(expired := true)
            && Step(s, SeeClosed) == (if s.closes > 0 then s.(watcher := Gone) else s)
            && Step(s, SeeTimeout) == (if s.expired then s.(watcher := TimeoutChosen) else s)
            && (s.expired ==>
                 var t := Step(Step(s, SeeTimeout), WriteTimeout);
                 t.watcher == Gone && t.botStops == s.botStops && t.starter == s.starter && t.closes == s.closes
                 && t.history == if |s.history| == 1 then s.history + [Degraded(TimedOut)] else s.history)
  {
    RunKeepsInv(es);
  }

  /** The calls of the returned function that got to `bot.Stop`. */
  ghost function StoppedCalls(s: State): set<nat> {
    set c | c in s.stops && s.stops[c] == Stopped
  }

  /** The goroutine's own `bot.Stop`: once, and only after a panic of Start or an
      unavailable session. */
  ghost function OwnStops(s: State): nat {
    if s.ended == Some(Panics) && s.starter == Finished then 1
    else if s.ended == Some(ReturnsSessionUnavailable)
            && !s.starter.Returned? && !s.starter.Closed? && s.starter != StoppingHalfOpen then 1
    else 0
  }

  lemma StarterCountsStops(s: State, e: Event)
    requires Inv(s) && !s.crashed && OfStarter(e)
    ensures var s' := StarterStep(s, e);
            s'.stops == s.stops && |s'.botStops| - OwnStops(s') == |s.botStops| - OwnStops(s)
  {
  }

  lemma CallsAreCounted(s: State, e: Event)
    requires e.CallStop? || e.FinishStop?
    ensures var s' := StopStep(s, e);
            OwnStops(s') == OwnStops(s) && |s'.botStops| - |StoppedCalls(s')| == |s.botStops| - |StoppedCalls(s)|
  {
    var s' := StopStep(s, e);
    if e.FinishStop? && e.call in s.stops && s.stops[e.call].Chosen? {
      assert StoppedCalls(s') == StoppedCalls(s) + {e.call};
    } else {
      assert StoppedCalls(s') == StoppedCalls(s);
    }
  }

  lemma WatcherStopsNothing(s: State, e: Event)
    requires OfWatcher(e)
    ensures var s' := WatcherStep(s, e); s'.stops == s.stops && s'.botStops == s.botStops && OwnStops(s') == OwnStops(s)
  {
  }

  /** In every run `bot.Stop` has run once for each stopped call and once for each
      of the goroutine's own stops. */
  lemma {:induction false} StopsAreCounted(es: seq<Event>)
    ensures var s := Run(Initial(), es); |s.botStops| == |StoppedCalls(s)| + OwnStops(s)
    decreases |es|
  {
    if |es| > 0 {
      var init := es[..|es| - 1];
      StopsAreCounted(init);
      RunKeepsInv(init);
      var s, e := Run(Initial(), init), es[|es| - 1];
      if !s.crashed {
        if OfStarter(e) { StarterCountsStops(s, e); }
        else if OfWatcher(e) { WatcherStopsNothing(s, e); }
        else { CallsAreCounted(s, e); }
      }
    }
  }

  /** Nothing the goroutines themselves can do is left: Start may hang for
      ever, but the timer does fire and every other step is eventually taken. */
  ghost predicate Quiescent(s: State) {
    && s.expired
    && Step(s, CloseChannel) == s && Step(s, WriteResult) == s && Step(s, OwnStop(false)) == s
    && Step(s, SeeClosed) == s && Step(s, SeeTimeout) == s && Step(s, WriteTimeout) == s
  }

  lemma StarterIsDone(s: State)
    requires Inv(s) && Quiescent(s) && !s.crashed
    ensures s.starter.InStart? || s.starter.Finished?
  {
  }

  lemma WatcherIsDone(s: State)
    requires Inv(s) && Quiescent(s) && !s.crashed
    ensures s.watcher.Gone?
  {
  }

  /** No run ends with the health still "starting", Start hanging included. */
  lemma {:induction false} NeverEndsStarting(es: seq<Event>)
    requires Quiescent(Run(Initial(), es))
    ensures |Run(Initial(), es).history| == 2
  {
    RunKeepsInv(es);
    var s := Run(Initial(), es);
    if !s.crashed {
      StarterIsDone(s);
      WatcherIsDone(s);
    }
  }

  /** If the timer never fires before the goroutine has written, the final
      health is Start's own verdict. */
  lemma {:induction false} InTimeIsVerdict(es: seq<Event>)
    requires !Run(Initial(), es).expired && Wrote(Run(Initial(), es).starter)
    ensures var s := Run(Initial(), es);
            s.ended.Some? && s.history == [Starting, Verdict(s.ended.value)]
  {
    RunKeepsInv(es);
  }

  /** Steps still to come: what every effective step uses up. */
  function Remaining(s: State): nat {
    (match s.starter
     case InStart => 7
     case Returned(_) => 6
     case Closed(_) => 5
     case StoppingHalfOpen => 4
     case Recovering => 3
     case RecoverWritten => 2
     case RecoverClosed => 1
     case Finished => 0)
    + (match s.watcher case Waiting => 2 case TimeoutChosen => 1 case Gone => 0)
    + (if s.expired then 0 else 1) + (if s.crashed then 0 else 1)
  }

  /** Every effective step of the goroutines and the timer brings the end nearer. */
  lemma StepsRunOut(s: State, e: Event)
    requires Inv(s) && (OfStarter(e) || OfWatcher(e)) && Step(s, e) != s
    ensures Remaining(Step(s, e)) < Remaining(s)
  {
  }
}
