/** The event loop's functor queue and its cross-thread wakeup, step by step. */
module EventLoop {
  import opened Basics

  /**
   * Where the loop thread is: outside loop(), at the loop condition, inside poll, handling the active channels
   * (`read`: the wakeup channel is among those still to be handled), between raising callingPendingFunctors_
   * and the swap, running the functors it swapped out, or between a push of its own and the wakeup after it.
   */
  datatype Phase = Outside | Top | InPoll | Handling(read: bool) | Swapping | Running | Waking

  /** `running`: the functors swapped out and not yet run; `between`: other threads past their push and before their wakeup. */
  datatype Loop = Loop(
    phase: Phase, quit: bool, calling: bool, pending: seq<int>, running: seq<int>, count: nat, between: set<int>,
    queued: seq<int>, ran: seq<int>)

  datatype Step =
    | Begin                            // loop() is called
    | Poll                             // quit_ is not set, poll is entered
    | Leave                            // quit_ is set
    | PollReturns(readable: bool)      // poll returns, with the wakeup channel active or not
    | HandleRead                       // the wakeup channel's callback reads the eventfd
    | OwnPush(f: int)                  // queueInLoop on the loop thread, its locked part
    | Raise                            // callingPendingFunctors_ = true
    | Swap                             // the locked swap
    | RunNext                          // one functor runs
    | OwnWakeup                        // queueInLoop on the loop thread, its wakeup
    | Lower                            // callingPendingFunctors_ = false
    | Push(thread: int, f: int)        // queueInLoop on another thread, its locked part
    | Wakeup(thread: int)              // and its wakeup
    | Quit(wakes: bool)                // quit(), from another thread with a wakeup

  predicate Enabled(s: Loop, e: Step) {
    match e
    case Begin => s.phase == Outside
    case Poll => s.phase == Top && !s.quit
    case Leave => s.phase == Top && s.quit
    case PollReturns(readable) => s.phase == InPoll && (readable ==> s.count > 0)
    case HandleRead => s.phase == Handling(true)
    case OwnPush(_) => s.phase.Handling? || s.phase == Running || s.phase == Outside
    case Raise => s.phase == Handling(false)
    case Swap => s.phase == Swapping
    case RunNext => s.phase == Running && s.running != []
    case OwnWakeup => s.phase == Waking
    case Lower => s.phase == Running && s.running == []
    case Push(t, _) => t !in s.between
    case Wakeup(t) => t in s.between
    case Quit(_) => true
  }

  function Next(s: Loop, e: Step): Loop
    requires Enabled(s, e)
  {
    match e
    case Begin => s.(phase := Top, quit := false)
    case Poll => s.(phase := InPoll)
    case Leave => s.(phase := Outside)
    case PollReturns(readable) => s.(phase := Handling(readable))
    case HandleRead => s.(phase := Handling(false), count := 0)
    case OwnPush(f) =>
      // queueInLoop wakes only if callingPendingFunctors_ is set
      s.(pending := s.pending + [f], queued := s.queued + [f], phase := if s.calling then Waking else s.phase)
    case Raise => s.(phase := Swapping, calling := true)
    case Swap => s.(phase := Running, running := s.pending, pending := [])
    case RunNext => s.(running := s.running[1..], ran := s.ran + [s.running[0]])
    case OwnWakeup => s.(phase := Running, count := s.count + 1)
    case Lower => s.(phase := Top, calling := false)
    case Push(t, f) => s.(pending := s.pending + [f], queued := s.queued + [f], between := s.between + {t})
    case Wakeup(t) => s.(between := s.between - {t}, count := s.count + 1)
    case Quit(wakes) => s.(quit := true, count := if wakes then s.count + 1 else s.count)
  }

  const Fresh := Loop(Outside, false, false, [], [], 0, {}, [], [])

  function Run(es: seq<Step>): (s: Loop)
    requires IsRun(es)
    decreases |es|, 1
  {
    if es == [] then Fresh else Next(Run(es[..|es| - 1]), es[|es| - 1])
  }

  predicate IsRun(es: seq<Step>)
    decreases |es|, 0
  {
    es == [] || (IsRun(es[..|es| - 1]) && Enabled(Run(es[..|es| - 1]), es[|es| - 1]))
  }

  /** The loop thread queues only inside loop(). */
  ghost predicate Disciplined(es: seq<Step>) {
    forall i :: 0 <= i < |es| && es[i].OwnPush? ==> IsRun(es[..i]) && Run(es[..i]).phase != Outside
  }

  /** A wakeup is on record or on its way. */
  predicate WillWake(s: Loop) { s.count > 0 || s.between != {} }

  /** What every step keeps. */
  ghost predicate Kept(s: Loop) {
    && s.queued == s.ran + s.running + s.pending
    && (s.running != [] ==> s.phase == Running || s.phase == Waking)
    && (s.calling <==> s.phase in {Swapping, Running, Waking})
  }

  ghost predicate NoLost(s: Loop) {
    s.pending != [] && s.phase in {Outside, Top, InPoll, Running} ==> WillWake(s)
  }

  lemma StepKeeps(s: Loop, e: Step)
    requires Kept(s) && Enabled(s, e)
    ensures Kept(Next(s, e))
    ensures NoLost(s) && (e.OwnPush? ==> s.phase != Outside) ==> NoLost(Next(s, e))
  {
    var t := Next(s, e);
    match e
    case Swap => assert s.running == []; assert s.ran + [] + s.pending == s.ran + s.pending + [];
    case RunNext => assert s.running == [s.running[0]] + s.running[1..];
      assert s.ran + s.running == t.ran + t.running;
    case OwnPush(f) => assert s.ran + s.running + (s.pending + [f]) == s.queued + [f];
    case Push(_, f) => assert s.ran + s.running + (s.pending + [f]) == s.queued + [f];
    case _ =>
  }

  lemma {:induction false} RunKeeps(es: seq<Step>)
    requires IsRun(es)
    ensures Kept(Run(es))
    ensures Disciplined(es) ==> NoLost(Run(es))
    decreases |es|
  {
    if es != [] {
      var init, e := es[..|es| - 1], es[|es| - 1];
      RunKeeps(init);
      StepKeeps(Run(init), e);
      if Disciplined(es) {
        forall i | 0 <= i < |init| && init[i].OwnPush? ensures IsRun(init[..i]) && Run(init[..i]).phase != Outside {
          assert es[i] == init[i] && es[..i] == init[..i];
        }
        assert e.OwnPush? ==> es[..|es| - 1] == init && Run(init).phase != Outside;
      }
    }
  }

  ghost predicate InOrder(s: Loop) {
    && s.ran <= s.queued
    && s.queued[|s.ran|..] == s.running + s.pending
    && (s.phase == Top || s.phase == InPoll ==> s.queued == s.ran + s.pending)
  }

  lemma KeptInOrder(s: Loop)
    requires Kept(s)
    ensures InOrder(s)
  {
    var rest := s.running + s.pending;
    assert s.queued == s.ran + rest;
    assert s.running == [] ==> rest == s.pending;
  }

  /** In every interleaving each functor runs at most once, in the order in which it was queued, and none is dropped. */
  lemma RunsInQueueOrder(es: seq<Step>)
    requires IsRun(es)
    ensures InOrder(Run(es))
  {
    hide Run, IsRun, Kept, InOrder;
    RunKeeps(es);
    KeptInOrder(Run(es));
  }

  /** poll is never entered or sat in with a functor pending unless a wakeup is recorded or on its way. */
  lemma NoLostFunctor(es: seq<Step>)
    requires IsRun(es) && Disciplined(es)
    ensures var s := Run(es); s.phase == InPoll && s.pending != [] ==> s.count > 0 || s.between != {}
  {
    RunKeeps(es);
  }

  /** Once a functor has been queued in a poll, some thread can make poll return with the wakeup channel active. */
  lemma WakeupReachesPoll(es: seq<Step>)
    requires IsRun(es) && Disciplined(es) && Run(es).phase == InPoll && Run(es).pending != []
    ensures Enabled(Run(es), PollReturns(true))
      || exists t :: t in Run(es).between && Enabled(Run(es), Wakeup(t)) && Enabled(Next(Run(es), Wakeup(t)), PollReturns(true))
  {
    NoLostFunctor(es);
    var s := Run(es);
    if s.count == 0 {
      Inhabited(s.between);
      var t :| t in s.between;
      assert Enabled(s, Wakeup(t)) && Enabled(Next(s, Wakeup(t)), PollReturns(true));
    }
  }

  lemma RunSnoc(es: seq<Step>, e: Step)
    requires IsRun(es) && Enabled(Run(es), e)
    ensures IsRun(es + [e]) && Run(es + [e]) == Next(Run(es), e)
  {
    assert (es + [e])[..|es|] == es;
  }

  /** From the swap on, the functors swapped out run one after another. */
  lemma {:induction false} RunsAll(es: seq<Step>) returns (more: seq<Step>)
    requires IsRun(es) && Run(es).phase == Running
    ensures es <= more && IsRun(more)
    ensures var s := Run(es); Run(more) == s.(running := [], ran := s.ran + s.running)
    decreases |Run(es).running|
  {
    hide Run, IsRun;
    var s := Run(es);
    if s.running == [] {
      more := es;
      assert s.ran + [] == s.ran;
    } else {
      RunSnoc(es, RunNext);
      more := RunsAll(es + [RunNext]);
      assert s.running == [s.running[0]] + s.running[1..];
      assert s.ran + [s.running[0]] + s.running[1..] == s.ran + s.running;
    }
  }

  /** Whenever poll is sat in with a wakeup recorded, the loop can go round once and come to poll again with every
      functor queued so far run, in order, and the wakeup used up. */
  lemma OneRoundRunsAll(es: seq<Step>) returns (more: seq<Step>)
    requires IsRun(es) && Run(es).phase == InPoll && Run(es).count > 0
    ensures es <= more && IsRun(more)
    ensures var s, t := Run(es), Run(more);
            t.phase == Top && t.ran == s.queued == t.queued && t.pending == [] && t.running == [] && t.count == 0 && !t.calling
  {
    hide Run, IsRun;
    RunKeeps(es);
    var s := Run(es);
    RunSnoc(es, PollReturns(true));
    var a := es + [PollReturns(true)];
    RunSnoc(a, HandleRead);
    var b := a + [HandleRead];
    RunSnoc(b, Raise);
    var c := b + [Raise];
    RunSnoc(c, Swap);
    var d := c + [Swap];
    var e := RunsAll(d);
    RunSnoc(e, Lower);
    more := e + [Lower];
    assert s.ran + [] + s.pending == s.ran + s.pending;
  }

  /**
   * A functor queued by the loop thread outside loop(): the poll that follows has a wakeup in sight exactly if
   * one was in sight already.
   */
  lemma EarlyPush(es: seq<Step>, f: int)
    requires IsRun(es) && Run(es).phase == Outside
    ensures var es' := es + [OwnPush(f)] + [Begin] + [Poll];
      && IsRun(es') && Run(es').phase == InPoll && f in Run(es').pending
      && (WillWake(Run(es')) <==> WillWake(Run(es)))
  {
    hide Run, IsRun;
    RunKeeps(es);
    RunSnoc(es, OwnPush(f));
    RunSnoc(es + [OwnPush(f)], Begin);
    RunSnoc(es + [OwnPush(f)] + [Begin], Poll);
    var s := Run(es);
    assert (s.pending + [f])[|s.pending|] == f;
  }

  /** So a functor queued before the first loop() is not noticed by poll. */
  lemma EarlyPushIsLost(f: int)
    ensures IsRun([] + [OwnPush(f)] + [Begin] + [Poll]) && !WillWake(Run([] + [OwnPush(f)] + [Begin] + [Poll]))
  {
    EarlyPush([], f);
  }
}
