/**
 * The loop shared by the reset and load operations: run the command lines
 * strictly in order, ask the operator after each failure whether to go on,
 * and wait `delay` seconds between two commands.
 */
module Sequencer {
  import opened Remote

  /** Whether the SSH outcome makes a command count as successful. */
  predicate Succeeds(session: Session) {
    session == Exited(0)
  }

  /** Whether the loop goes on after command `i`: it succeeded, or the operator chose to continue. */
  predicate Continues(sessions: nat -> Session, proceed: nat -> bool, i: nat) {
    Succeeds(sessions(i)) || proceed(i)
  }

  /** One delay round: `delay` one-second ticks, none when `delay` is not positive. */
  function Ticks(delay: int): (r: seq<Event>)
    ensures |r| == (if delay > 0 then delay else 0)
    ensures forall k :: 0 <= k < |r| ==> r[k] == Tick
    decreases delay
  {
    if delay <= 0 then [] else Ticks(delay - 1) + [Tick]
  }

  /** What the loop reports: whether every command it ran succeeded, and its events. */
  datatype Outcome = Outcome(allSuccess: bool, events: seq<Event>)

  /**
   * The loop from command `i` on. A failure records `Ask(i)` and ends the
   * loop when the operator declines to go on; otherwise a delay round
   * follows every command but the last.
   */
  function Steps(lines: seq<string>, delay: int, sessions: nat -> Session, proceed: nat -> bool, i: nat): Outcome
    requires i <= |lines|
    decreases |lines| - i
  {
    if i == |lines| then Outcome(true, [])
    else if !Continues(sessions, proceed, i) then Outcome(false, Head(lines, sessions, i))
    else
      var rest := Steps(lines, delay, sessions, proceed, i + 1);
      Outcome(Succeeds(sessions(i)) && rest.allSuccess, Head(lines, sessions, i) + Wait(|lines|, delay, i) + rest.events)
  }

  /** The events of command `i` itself: its run, and the question when it failed. */
  function Head(lines: seq<string>, sessions: nat -> Session, i: nat): seq<Event>
    requires i < |lines|
  {
    Execute(i, lines[i], sessions(i)).events + (if Succeeds(sessions(i)) then [] else [Ask(i)])
  }

  /** The delay round after command `i` of `n`: none after the last. */
  function Wait(n: nat, delay: int, i: nat): seq<Event> {
    if i + 1 < n then Ticks(delay) else []
  }

  /** One past the last command the loop runs, starting at `i`, out of `n`. */
  function Stop(n: nat, sessions: nat -> Session, proceed: nat -> bool, i: nat): (k: nat)
    requires i <= n
    ensures i <= k <= n
    ensures i < n ==> i < k
    decreases n - i
  {
    if i == n then n
    else if !Continues(sessions, proceed, i) then i + 1
    else Stop(n, sessions, proceed, i + 1)
  }

  /**
   * The loop stops right after the first command that failed and that the
   * operator did not want to continue past, or after the last command.
   */
  lemma {:induction false} StopIsFirstAbort(n: nat, sessions: nat -> Session, proceed: nat -> bool, i: nat)
    requires i <= n
    ensures var k := Stop(n, sessions, proceed, i);
      (forall j :: i <= j < k - 1 ==> Continues(sessions, proceed, j)) &&
      (k < n ==> !Continues(sessions, proceed, k - 1))
    decreases n - i
  {
    if i < n && Continues(sessions, proceed, i) {
      StopIsFirstAbort(n, sessions, proceed, i + 1);
    }
  }

  /**
   * The loop as the engine runs it: a `for` over the commands with a `break`
   * when the operator declines to continue, and an inner loop of ticks.
   */
  method RunSequence(lines: seq<string>, delay: int, sessions: nat -> Session, proceed: nat -> bool)
    returns (allSuccess: bool, trace: seq<Event>)
    ensures Outcome(allSuccess, trace) == Steps(lines, delay, sessions, proceed, 0)
    ensures allSuccess <==> forall j :: 0 <= j < Stop(|lines|, sessions, proceed, 0) ==> Succeeds(sessions(j))
    ensures allSuccess ==> Stop(|lines|, sessions, proceed, 0) == |lines|
  {
    allSuccess := true;
    trace := [];
    var i := 0;
    while i < |lines|
      invariant 0 <= i <= |lines|
      invariant Steps(lines, delay, sessions, proceed, 0) ==
        Outcome(allSuccess && Steps(lines, delay, sessions, proceed, i).allSuccess,
                trace + Steps(lines, delay, sessions, proceed, i).events)
    {
      ghost var before := trace;
      ghost var flag := allSuccess;
      var e := Execute(i, lines[i], sessions(i));
      trace := trace + e.events;
      if !e.success {
        allSuccess := false;
        trace := trace + [Ask(i)];
      }
      assert trace == before + Head(lines, sessions, i);
      if !e.success && !proceed(i) {
        StepsAbort(lines, delay, sessions, proceed, i);
        break;
      }
      ghost var afterHead := trace;
      if i + 1 < |lines| && delay > 0 {
        var round := WaitRound(delay);
        trace := trace + round;
      }
      assert trace == afterHead + Wait(|lines|, delay, i);
      var next := i + 1;
      StepsAdvance(lines, delay, sessions, proceed, i, next, Steps(lines, delay, sessions, proceed, 0), flag, before, trace);
      i := next;
    }
    StepsSucceedIff(lines, delay, sessions, proceed, 0);
  }

  /** The pause between two commands: `delay` sleeps of one second each. */
  method WaitRound(delay: int) returns (round: seq<Event>)
    ensures round == Ticks(delay)
  {
    round := [];
    var t := 0;
    while t < delay
      invariant 0 <= t <= (if delay > 0 then delay else 0)
      invariant round == Ticks(t)
    {
      round := round + [Tick];
      t := t + 1;
    }
  }

  /** When the operator declines to go on after command `i`, the loop ends with its events. */
  lemma StepsAbort(lines: seq<string>, delay: int, sessions: nat -> Session, proceed: nat -> bool, i: nat)
    requires i < |lines| && !Continues(sessions, proceed, i)
    ensures Steps(lines, delay, sessions, proceed, i) == Outcome(false, Head(lines, sessions, i))
  {
  }

  /**
   * One round of the loop keeps its invariant: what is still to come from
   * `i` is command `i`, its delay round, and what is still to come from `next`.
   */
  lemma StepsAdvance(lines: seq<string>, delay: int, sessions: nat -> Session, proceed: nat -> bool, i: nat, next: nat,
                     total: Outcome, flag: bool, before: seq<Event>, trace: seq<Event>)
    requires i < |lines| && Continues(sessions, proceed, i) && next == i + 1
    requires total == Outcome(flag && Steps(lines, delay, sessions, proceed, i).allSuccess,
                              before + Steps(lines, delay, sessions, proceed, i).events)
    requires trace == before + Head(lines, sessions, i) + Wait(|lines|, delay, i)
    ensures total == Outcome(flag && Succeeds(sessions(i)) && Steps(lines, delay, sessions, proceed, next).allSuccess,
                             trace + Steps(lines, delay, sessions, proceed, next).events)
  {
    StepsUnfold(lines, delay, sessions, proceed, i, next);
    var head := Head(lines, sessions, i);
    var w := Wait(|lines|, delay, i);
    var rest := Steps(lines, delay, sessions, proceed, next).events;
    AppendAssociative(before, head + w, rest);
    AppendAssociative(before, head, w);
  }

  lemma AppendAssociative(a: seq<Event>, b: seq<Event>, c: seq<Event>)
    ensures a + b + c == a + (b + c)
  {
  }

  /** The loop reports success exactly when every command it ran succeeded, and then it ran them all. */
  lemma {:induction false} StepsSucceedIff(lines: seq<string>, delay: int, sessions: nat -> Session, proceed: nat -> bool, i: nat)
    requires i <= |lines|
    ensures var k := Stop(|lines|, sessions, proceed, i);
      (Steps(lines, delay, sessions, proceed, i).allSuccess <==> forall j :: i <= j < k ==> Succeeds(sessions(j))) &&
      (Steps(lines, delay, sessions, proceed, i).allSuccess ==> k == |lines|)
    decreases |lines| - i, 1
  {
    if i < |lines| && Continues(sessions, proceed, i) {
      StepsSucceedOn(lines, delay, sessions, proceed, i);
    }
  }

  /** The step of `StepsSucceedIff` where the loop goes on after command `i`. */
  lemma {:induction false} StepsSucceedOn(lines: seq<string>, delay: int, sessions: nat -> Session, proceed: nat -> bool, i: nat)
    requires i < |lines| && Continues(sessions, proceed, i)
    ensures var k := Stop(|lines|, sessions, proceed, i);
      (Steps(lines, delay, sessions, proceed, i).allSuccess <==> forall j :: i <= j < k ==> Succeeds(sessions(j))) &&
      (Steps(lines, delay, sessions, proceed, i).allSuccess ==> k == |lines|)
    decreases |lines| - i, 0
  {
    var next := i + 1;
    StepsUnfold(lines, delay, sessions, proceed, i, next);
    StepsSucceedIff(lines, delay, sessions, proceed, next);
  }

  /** The `Run` events of a trace, in order. */
  function Runs(events: seq<Event>): seq<Event> {
    if events == [] then []
    else (if events[0].Run? then [events[0]] else []) + Runs(events[1..])
  }

  lemma {:induction false} RunsConcat(a: seq<Event>, b: seq<Event>)
    ensures Runs(a + b) == Runs(a) + Runs(b)
  {
    if a != [] {
      var head := if a[0].Run? then [a[0]] else [];
      assert (a + b)[0] == a[0];
      assert (a + b)[1..] == a[1..] + b;
      RunsConcat(a[1..], b);
      calc {
        Runs(a + b);
        head + Runs(a[1..] + b);
        head + (Runs(a[1..]) + Runs(b));
        (head + Runs(a[1..])) + Runs(b);
        Runs(a) + Runs(b);
      }
    } else {
      assert a + b == b;
    }
  }

  /** A trace made only of ticks. */
  lemma {:induction false} OnlyTicks(r: seq<Event>)
    requires forall k :: 0 <= k < |r| ==> r[k] == Tick
    ensures Runs(r) == []
    ensures multiset(r) == multiset{}[Tick := |r|]
  {
    if r != [] {
      OnlyTicks(r[1..]);
      assert r == [r[0]] + r[1..];
    }
  }

  /** Running one command puts exactly its `Run` in the trace. */
  lemma ExecuteRuns(index: nat, command: string, session: Session)
    ensures Runs(Execute(index, command, session).events) == [Run(index, command)]
  {
    var ev := Execute(index, command, session).events;
    if session.ConnectFailed? {
      assert ev == [Run(index, command)];
      assert ev[1..] == [];
    } else {
      assert ev == [Run(index, command), Closed(index)];
      assert ev[1..] == [Closed(index)] && ev[1..][1..] == [];
      assert Runs(ev[1..]) == [];
    }
  }

  /** Running one command records only its `Run` and its `Closed`: no question and no tick. */
  lemma ExecuteCount(index: nat, command: string, session: Session, x: Event)
    requires !x.Run? && !x.Closed?
    ensures Count(Execute(index, command, session).events, x) == 0
  {
    var ev := Execute(index, command, session).events;
    if session.ConnectFailed? {
      assert ev == [Run(index, command)];
      assert ev[1..] == [];
    } else {
      assert ev == [Run(index, command), Closed(index)];
      assert ev[1..] == [Closed(index)] && ev[1..][1..] == [];
      assert Count(ev[1..][1..], x) == 0;
      assert Count(ev[1..], x) == 0;
    }
  }

  /** What command `i` puts in the trace holds its own `Run` and no other. */
  lemma HeadRuns(lines: seq<string>, sessions: nat -> Session, i: nat)
    requires i < |lines|
    ensures Runs(Head(lines, sessions, i)) == [Run(i, lines[i])]
  {
    var e := Execute(i, lines[i], sessions(i));
    var asked: seq<Event> := if Succeeds(sessions(i)) then [] else [Ask(i)];
    ExecuteRuns(i, lines[i], sessions(i));
    assert Runs(asked) == [] by {
      if asked != [] { assert asked[1..] == []; }
    }
    RunsConcat(e.events, asked);
  }

  /** Occurrences in command `i`'s part of the trace of anything but its `Run` and `Closed`: only the question about a failure. */
  lemma HeadCount(lines: seq<string>, sessions: nat -> Session, i: nat, x: Event)
    requires i < |lines| && !x.Run? && !x.Closed?
    ensures Count(Head(lines, sessions, i), x) == if x == Ask(i) && !Succeeds(sessions(i)) then 1 else 0
  {
    var e := Execute(i, lines[i], sessions(i));
    var asked: seq<Event> := if Succeeds(sessions(i)) then [] else [Ask(i)];
    ExecuteCount(i, lines[i], sessions(i), x);
    CountConcat(e.events, asked, x);
    if asked != [] {
      assert asked[1..] == [];
    }
  }

  /** The commands run from `i` to `k`, each with its position. */
  function Executed(lines: seq<string>, i: nat, k: nat): (r: seq<Event>)
    requires i <= k <= |lines|
    ensures |r| == k - i
    ensures forall j :: 0 <= j < k - i ==> r[j] == Run(i + j, lines[i + j])
    decreases k - i
  {
    if i == k then [] else [Run(i, lines[i])] + Executed(lines, i + 1, k)
  }

  /**
   * The commands run are exactly the first `Stop` lines, each once and in
   * order: a prefix of the list, cut right after the command whose failure
   * the operator did not want to continue past.
   */
  lemma {:induction false} StepsRunPrefix(lines: seq<string>, delay: int, sessions: nat -> Session, proceed: nat -> bool, i: nat)
    requires i <= |lines|
    ensures Runs(Steps(lines, delay, sessions, proceed, i).events) == Executed(lines, i, Stop(|lines|, sessions, proceed, i))
    decreases |lines| - i
  {
    if i < |lines| {
      var ev := Steps(lines, delay, sessions, proceed, i).events;
      var k := Stop(|lines|, sessions, proceed, i);
      var head := Head(lines, sessions, i);
      assert Runs(head) == [Run(i, lines[i])] by {
        HeadRuns(lines, sessions, i);
      }
      if Continues(sessions, proceed, i) {
        var w := Wait(|lines|, delay, i);
        var rest := Steps(lines, delay, sessions, proceed, i + 1).events;
        assert ev == head + w + rest && k == Stop(|lines|, sessions, proceed, i + 1);
        assert Runs(w) == [] by {
          WaitEvents(|lines|, delay, i);
        }
        StepsRunPrefix(lines, delay, sessions, proceed, i + 1);
        RunsConcat(head, w);
        RunsConcat(head + w, rest);
      } else {
        assert ev == head && k == i + 1;
      }
    }
  }

  /**
   * The operator is asked once about each failed command that ran, and never
   * about a command that succeeded or did not run.
   */
  lemma StepsAskOnFailure(lines: seq<string>, delay: int, sessions: nat -> Session, proceed: nat -> bool, i: nat, j: nat)
    requires i <= |lines|
    ensures multiset(Steps(lines, delay, sessions, proceed, i).events)[Ask(j)] ==
      (if i <= j < Stop(|lines|, sessions, proceed, i) && !Succeeds(sessions(j)) then 1 else 0)
  {
    StepsAsks(lines, delay, sessions, proceed, i, j);
    CountIsMultiplicity(Steps(lines, delay, sessions, proceed, i).events, Ask(j));
  }

  lemma {:induction false} StepsAsks(lines: seq<string>, delay: int, sessions: nat -> Session, proceed: nat -> bool, i: nat, j: nat)
    requires i <= |lines|
    ensures Count(Steps(lines, delay, sessions, proceed, i).events, Ask(j)) ==
      (if i <= j < Stop(|lines|, sessions, proceed, i) && !Succeeds(sessions(j)) then 1 else 0)
    decreases |lines| - i, 1
  {
    if i == |lines| {
      assert Steps(lines, delay, sessions, proceed, i).events == [];
    } else if Continues(sessions, proceed, i) {
      StepsAsksOn(lines, delay, sessions, proceed, i, j);
    } else {
      HeadAsks(lines, sessions, i, j);
      assert Steps(lines, delay, sessions, proceed, i).events == Head(lines, sessions, i);
    }
  }

  /** The step of `StepsAsks` where the loop goes on after command `i`. */
  lemma {:induction false} StepsAsksOn(lines: seq<string>, delay: int, sessions: nat -> Session, proceed: nat -> bool, i: nat, j: nat)
    requires i < |lines| && Continues(sessions, proceed, i)
    ensures Count(Steps(lines, delay, sessions, proceed, i).events, Ask(j)) ==
      (if i <= j < Stop(|lines|, sessions, proceed, i) && !Succeeds(sessions(j)) then 1 else 0)
    decreases |lines| - i, 0
  {
    var next := i + 1;
    var head := Head(lines, sessions, i);
    var w := Wait(|lines|, delay, i);
    var rest := Steps(lines, delay, sessions, proceed, next).events;
    StepsUnfold(lines, delay, sessions, proceed, i, next);
    HeadAsks(lines, sessions, i, j);
    WaitAsks(|lines|, delay, i, j);
    StepsAsks(lines, delay, sessions, proceed, next, j);
    CountThree(head, w, rest, Ask(j));
  }

  /** Command `i` asks about itself when it failed, and about no other command. */
  lemma HeadAsks(lines: seq<string>, sessions: nat -> Session, i: nat, j: nat)
    requires i < |lines|
    ensures Count(Head(lines, sessions, i), Ask(j)) == if j == i && !Succeeds(sessions(i)) then 1 else 0
  {
    HeadCount(lines, sessions, i, Ask(j));
  }

  /** A delay round never asks. */
  lemma WaitAsks(n: nat, delay: int, i: nat, j: nat)
    ensures Count(Wait(n, delay, i), Ask(j)) == 0
  {
    WaitEvents(n, delay, i);
    CountIsMultiplicity(Wait(n, delay, i), Ask(j));
  }

  /** The ticks waited when `executed` commands ran: one delay round between each two. */
  function DelayTicks(executed: nat, delay: int): nat {
    if executed <= 1 || delay <= 0 then 0 else DelayTicks(executed - 1, delay) + delay
  }

  lemma {:induction false} DelayTicksIsProduct(executed: nat, delay: int)
    ensures DelayTicks(executed, delay) == if delay > 0 && executed > 0 then (executed - 1) * delay else 0
  {
    if executed > 1 && delay > 0 {
      DelayTicksIsProduct(executed - 1, delay);
      assert (executed - 1) * delay == (executed - 2) * delay + delay;
    }
  }

  /** How often `x` occurs in a trace. */
  function Count(events: seq<Event>, x: Event): nat {
    if events == [] then 0 else (if events[0] == x then 1 else 0) + Count(events[1..], x)
  }

  lemma {:induction false} CountConcat(a: seq<Event>, b: seq<Event>, x: Event)
    ensures Count(a + b, x) == Count(a, x) + Count(b, x)
  {
    if a != [] {
      assert (a + b)[1..] == a[1..] + b;
      CountConcat(a[1..], b, x);
    } else {
      assert a + b == b;
    }
  }

  /** `Count` is the multiplicity of the element in the trace's multiset. */
  lemma {:induction false} CountIsMultiplicity(events: seq<Event>, x: Event)
    ensures Count(events, x) == multiset(events)[x]
  {
    if events != [] {
      CountIsMultiplicity(events[1..], x);
      assert events == [events[0]] + events[1..];
    }
  }

  /** A delay round follows every command that ran except the last one. */
  lemma {:induction false} StepsTicks(lines: seq<string>, delay: int, sessions: nat -> Session, proceed: nat -> bool, i: nat)
    requires i <= |lines|
    ensures Count(Steps(lines, delay, sessions, proceed, i).events, Tick) ==
      DelayTicks(Stop(|lines|, sessions, proceed, i) - i, delay)
    decreases |lines| - i, 1
  {
    if i == |lines| {
      assert Steps(lines, delay, sessions, proceed, i).events == [];
    } else if Continues(sessions, proceed, i) {
      StepsTicksOn(lines, delay, sessions, proceed, i);
    } else {
      HeadTicks(lines, sessions, i);
      assert Steps(lines, delay, sessions, proceed, i).events == Head(lines, sessions, i);
    }
  }

  /** The step of `StepsTicks` where the loop goes on after command `i`. */
  lemma {:induction false} StepsTicksOn(lines: seq<string>, delay: int, sessions: nat -> Session, proceed: nat -> bool, i: nat)
    requires i < |lines| && Continues(sessions, proceed, i)
    ensures Count(Steps(lines, delay, sessions, proceed, i).events, Tick) ==
      DelayTicks(Stop(|lines|, sessions, proceed, i) - i, delay)
    decreases |lines| - i, 0
  {
    var next := i + 1;
    var ev := Steps(lines, delay, sessions, proceed, i).events;
    var head := Head(lines, sessions, i);
    var w := Wait(|lines|, delay, i);
    var rest := Steps(lines, delay, sessions, proceed, next).events;
    var ran := Stop(|lines|, sessions, proceed, i) - i;
    var ranRest := Stop(|lines|, sessions, proceed, next) - next;
    StepsUnfold(lines, delay, sessions, proceed, i, next);
    HeadTicks(lines, sessions, i);
    WaitTicks(|lines|, delay, i);
    StepsTicks(lines, delay, sessions, proceed, next);
    CountThree(head, w, rest, Tick);
    DelayTicksStep(ran, ranRest, delay);
  }

  /** The loop from `i` when it goes on after command `i` to command `next`. */
  lemma StepsUnfold(lines: seq<string>, delay: int, sessions: nat -> Session, proceed: nat -> bool, i: nat, next: nat)
    requires i < |lines| && Continues(sessions, proceed, i) && next == i + 1
    ensures Steps(lines, delay, sessions, proceed, i).events ==
      Head(lines, sessions, i) + Wait(|lines|, delay, i) + Steps(lines, delay, sessions, proceed, next).events
    ensures Steps(lines, delay, sessions, proceed, i).allSuccess ==
      (Succeeds(sessions(i)) && Steps(lines, delay, sessions, proceed, next).allSuccess)
    ensures Stop(|lines|, sessions, proceed, i) == Stop(|lines|, sessions, proceed, next)
    ensures next < |lines| <==> Stop(|lines|, sessions, proceed, next) > next
  {
  }

  /** One more command ran: its delay round adds `delay` ticks unless no command follows it. */
  lemma DelayTicksStep(ran: nat, ranRest: nat, delay: int)
    requires ran == ranRest + 1
    ensures DelayTicks(ran, delay) == (if ranRest > 0 && delay > 0 then delay else 0) + DelayTicks(ranRest, delay)
  {
  }

  /** Occurrences in a trace made of three parts are the sum of those in each part. */
  lemma CountThree(a: seq<Event>, b: seq<Event>, c: seq<Event>, x: Event)
    ensures Count(a + b + c, x) == Count(a, x) + Count(b, x) + Count(c, x)
  {
    CountConcat(a, b, x);
    CountConcat(a + b, c, x);
  }

  /** Command `i` itself never waits. */
  lemma HeadTicks(lines: seq<string>, sessions: nat -> Session, i: nat)
    requires i < |lines|
    ensures Count(Head(lines, sessions, i), Tick) == 0
  {
    HeadCount(lines, sessions, i, Tick);
  }

  /** The delay round after command `i` holds `delay` ticks unless it is the last command. */
  lemma WaitTicks(n: nat, delay: int, i: nat)
    ensures Count(Wait(n, delay, i), Tick) == if i + 1 < n && delay > 0 then delay else 0
  {
    WaitEvents(n, delay, i);
    CountIsMultiplicity(Wait(n, delay, i), Tick);
  }

  /**
   * With a positive delay, every command that ran except the last one is
   * followed by a full delay round of `delay` ticks; with no positive delay
   * the loop never waits.
   */
  lemma StepsTickCount(lines: seq<string>, delay: int, sessions: nat -> Session, proceed: nat -> bool)
    ensures var k := Stop(|lines|, sessions, proceed, 0);
      multiset(Steps(lines, delay, sessions, proceed, 0).events)[Tick] ==
        (if delay > 0 && k > 0 then (k - 1) * delay else 0)
  {
    StepsTicks(lines, delay, sessions, proceed, 0);
    CountIsMultiplicity(Steps(lines, delay, sessions, proceed, 0).events, Tick);
    DelayTicksIsProduct(Stop(|lines|, sessions, proceed, 0), delay);
  }

  /** A delay round holds ticks and nothing else. */
  lemma WaitEvents(n: nat, delay: int, i: nat)
    ensures Runs(Wait(n, delay, i)) == []
    ensures multiset(Wait(n, delay, i)) == multiset{}[Tick := if i + 1 < n && delay > 0 then delay else 0]
  {
    OnlyTicks(Wait(n, delay, i));
  }

  /** The loop never ends on a delay: nothing waits after the last command or after an abort. */
  lemma {:induction false} StepsEndWithoutWait(lines: seq<string>, delay: int, sessions: nat -> Session, proceed: nat -> bool, i: nat)
    requires i <= |lines|
    ensures var ev := Steps(lines, delay, sessions, proceed, i).events;
      ev != [] ==> ev[|ev| - 1] != Tick
    ensures i < |lines| ==> Steps(lines, delay, sessions, proceed, i).events != []
    decreases |lines| - i
  {
    if i < |lines| {
      var head := Head(lines, sessions, i);
      HeadEnds(lines, sessions, i);
      if Continues(sessions, proceed, i) {
        var next := i + 1;
        var w := Wait(|lines|, delay, i);
        var rest := Steps(lines, delay, sessions, proceed, next).events;
        StepsUnfold(lines, delay, sessions, proceed, i, next);
        StepsEndWithoutWait(lines, delay, sessions, proceed, next);
        if next == |lines| {
          assert w == [] && rest == [];
          assert head + w + rest == head;
        } else {
          LastOfAppend(head + w, rest);
        }
      } else {
        assert Steps(lines, delay, sessions, proceed, i).events == head;
      }
    }
  }

  /** What command `i` records is not empty and does not end on a tick. */
  lemma HeadEnds(lines: seq<string>, sessions: nat -> Session, i: nat)
    requires i < |lines|
    ensures var h := Head(lines, sessions, i);
      h != [] && h[|h| - 1] != Tick
  {
    var e := Execute(i, lines[i], sessions(i)).events;
    if !Succeeds(sessions(i)) {
      LastOfAppend(e, [Ask(i)]);
    } else {
      assert Head(lines, sessions, i) == e;
    }
  }

  lemma LastOfAppend(a: seq<Event>, b: seq<Event>)
    requires b != []
    ensures (a + b)[|a + b| - 1] == b[|b| - 1]
  {
  }
}
