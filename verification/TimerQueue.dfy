/** The timer queue as an object: the loops of getExpired, handleRead and reset. */
module TimerQueues {
  import opened Options
  import opened TimerModel
  import opened TimerProof
  import opened TimerRuns
  import opened TimerBatch

  class TimerQueue {
    var timers: set<Timer>
    var timerIdSet: set<nat>
    var armed: Option<Arm>
    var clock: int
    var created: nat
    ghost var model: Timers

    ghost predicate Valid()
      reads this
    {
      && model.heap == timers && model.live == timerIdSet && model.armed == armed
      && model.clock == clock && model.created == created && Inv(model)
    }

    constructor (now: int)
      ensures Valid() && model == Empty(now)
    {
      timers, timerIdSet, armed, clock, created := {}, {}, None, now, 0;
      model := Empty(now);
      new;
      EmptyInv(now);
    }

    /** `top()` of the priority queue: some timer with the earliest deadline. */
    method Top() returns (t: Timer)
      requires timers != {}
      ensures Earliest(timers, t)
    {
      EarliestExists(timers);
      t :| Earliest(timers, t);
    }

    method Insert(t: Timer) returns (earliestChanged: bool)
      modifies this`timers
      ensures timers == old(timers) + {t} && earliestChanged == EarliestChanged(old(timers), t)
    {
      earliestChanged := true;
      if timers != {} {
        var top := Top();
        earliestChanged := t.when < top.when;
      }
      timers := timers + {t};
    }

    /** The constructor of a timer takes the next id. */
    method NewTimerObject(when: int, interval: nat) returns (t: Timer)
      requires Valid()
      modifies this
      ensures Valid() && model == Do(old(model), Create(when, interval))
      ensures t == Timer(created, when, interval) && t in model.waiting
      ensures timers == old(timers) && timerIdSet == old(timerIdSet)
    {
      StepKeeps(model, Create(when, interval));
      model := Do(model, Create(when, interval));
      created := created + 1;
      t := Timer(created, when, interval);
    }

    method AddTimerInLoop(t: Timer)
      requires Valid() && Can(model, Add(t))
      modifies this
      ensures Valid() && model == Do(old(model), Add(t))
    {
      StepKeeps(model, Add(t));
      model := Do(model, Add(t));
      timerIdSet := timerIdSet + {t.id};
      var changed := Insert(t);
      if changed {
        armed := Some(Arm(t.when, clock));
      }
    }

    method InvalidateTimer(id: nat)
      requires Valid()
      modifies this
      ensures Valid() && model == Do(old(model), Cancel(id))
    {
      StepKeeps(model, Cancel(id));
      model := Do(model, Cancel(id));
      timerIdSet := timerIdSet - {id};
    }

    method GetExpired(now: int) returns (expired: seq<Timer>)
      modifies this`timers
      ensures ExpiredIn(old(timers), now, expired)
      ensures timers == NotBefore(old(timers), now)
    {
      expired := [];
      while timers != {}
        invariant timers <= old(timers)
        invariant forall t :: t in old(timers) ==> t in timers || t.when < now
        invariant forall t :: t in expired <==> t in old(timers) && t !in timers
        invariant forall i, t :: 0 <= i < |expired| && t in timers ==> expired[i].when <= t.when
        invariant SortedByDeadline(expired)
        invariant forall i, j :: 0 <= i < j < |expired| ==> expired[i] != expired[j]
        decreases timers
      {
        var top := Top();
        if top.when < now {
          expired := expired + [top];
          timers := timers - {top};
        } else {
          break;
        }
      }
    }

    /** The loop of `reset`, then the timerfd for the top of the queue. */
    method Reset(expired: seq<Timer>, now: int)
      modifies this`timers, this`timerIdSet, this`armed
      ensures (timers, timerIdSet) == Reenter(old(timers), old(timerIdSet), expired, now)
      ensures timers == {} ==> armed == old(armed)
      ensures timers != {} ==> armed.Some? && armed.value.since == clock
                               && exists t :: Earliest(timers, t) && t.when == armed.value.when
    {
      var rest := expired;
      while rest != []
        invariant Reenter(timers, timerIdSet, rest, now) == Reenter(old(timers), old(timerIdSet), expired, now)
        invariant armed == old(armed)
        decreases |rest|
      {
        var t := rest[0];
        if t.id in timerIdSet {
          if t.interval > 0 {
            var _ := Insert(t.(when := now + t.interval));
          } else {
            timerIdSet := timerIdSet - {t.id};
          }
        }
        rest := rest[1..];
      }
      if timers != {} {
        var top := Top();
        armed := Some(Arm(top.when, clock));
      }
    }

    /** One thing that a callback does. */
    method React(reaction: Reaction) returns (ghost steps: seq<Step>)
      requires Valid()
      modifies this
      ensures Valid() && steps == ReactionSteps(reaction, old(created)) && Trace(old(model), steps, model)
      ensures created == old(created) + if reaction.NewTimer? then 1 else 0
    {
      match reaction {
        case NewTimer(when, interval) =>
          TraceOne(model, Create(when, interval));
          var t := NewTimerObject(when, interval);
          TraceAppend(old(model), [Create(when, interval)], model, Add(t));
          steps := [Create(when, interval)] + [Add(t)];
          AddTimerInLoop(t);
        case Invalidate(id) =>
          TraceOne(model, Cancel(id));
          steps := [Cancel(id)];
          InvalidateTimer(id);
        case Elapse(time) =>
          TraceOne(model, Pass(time));
          steps := [Pass(time)];
          LetPass(time);
      }
    }

    method LetPass(time: nat)
      requires Valid()
      modifies this
      ensures Valid() && model == Do(old(model), Pass(time))
    {
      StepKeeps(model, Pass(time));
      model := Do(model, Pass(time));
      clock := clock + time;
    }

    /** A callback adds and cancels timers, in any number and order. */
    method RunCallback(reactions: seq<Reaction>) returns (ghost steps: seq<Step>)
      requires Valid()
      modifies this
      ensures Valid() && steps == ScriptSteps(reactions, old(created)) && Trace(old(model), steps, model)
    {
      steps := [];
      for i := 0 to |reactions|
        invariant Valid() && Reacted(old(model), reactions, i, steps, model)
      {
        ghost var between := model;
        ghost var more := React(reactions[i]);
        ReactedNext(old(model), reactions, i, steps, between, more, model);
        steps := steps + more;
      }
      assert reactions[..|reactions|] == reactions;
    }

    /** The start of `handleRead`: the overdue timers leave the queue. */
    method BeginBatch() returns (expired: seq<Timer>)
      requires Valid() && model.batch.None?
      modifies this
      ensures Can(old(model), Fire(expired)) && Valid() && model == Do(old(model), Fire(expired))
    {
      armed := AfterRead(armed, clock);
      expired := GetExpired(clock);
      StepKeeps(model, Fire(expired));
      model := Do(model, Fire(expired));
    }

    /** One round of the loop of `handleRead`: the callback runs if and only if the id is live. */
    method CallOne(t: Timer, reactions: seq<Reaction>) returns (ghost steps: seq<Step>)
      requires Valid() && Can(model, CallNext) && t == model.batch.value.expired[model.batch.value.next]
      modifies this
      ensures Valid() && Trace(old(model), steps, model)
      ensures steps == [CallNext] + if t.id in old(timerIdSet) then ScriptSteps(reactions, old(created)) else []
    {
      StepKeeps(model, CallNext);
      TraceOne(model, CallNext);
      steps := [CallNext];
      model := Do(model, CallNext);
      if t.id in timerIdSet {
        ghost var between := model;
        ghost var more := RunCallback(reactions);
        TraceJoin(old(model), steps, between, more, model);
        steps := steps + more;
      }
    }

    /** The end of `handleRead`: `reset(expired, now)`. */
    method EndBatch(expired: seq<Timer>, now: int)
      requires Valid() && Can(model, Finish)
      requires expired == model.batch.value.expired && now == model.batch.value.now
      modifies this
      ensures Can(old(model), Finish) && Valid() && model == Do(old(model), Finish)
    {
      StepKeeps(model, Finish);
      Reset(expired, now);
      SameTop(model, armed, timers, timerIdSet);
      model := Do(model, Finish);
    }

    method Round(t: Timer, reactions: seq<Reaction>, pause: nat) returns (ghost round: seq<Step>)
      requires Valid() && Can(model, CallNext) && t == model.batch.value.expired[model.batch.value.next]
      modifies this
      ensures Valid() && IsRound(old(model), t, reactions, pause, round, model)
    {
      LetPass(pause);
      ghost var between := model;
      ghost var steps := CallOne(t, reactions);
      RoundJoins(old(model), t, reactions, pause, between, steps, model);
      round := [Pass(pause)] + steps;
    }

    /** The loop of `handleRead`. */
    method CallAll(expired: seq<Timer>, scripts: seq<seq<Reaction>>, pauses: seq<nat>)
      returns (ghost rounds: seq<seq<Step>>, ghost states: seq<Timers>)
      requires Valid() && Called(model, expired, scripts, pauses, [], [model], model)
      modifies this
      ensures Valid() && |rounds| == |expired|
      ensures Called(old(model), expired, scripts, pauses, rounds, states, model)
    {
      rounds, states := [], [model];
      for k := 0 to |expired|
        invariant Valid() && |rounds| == k && Called(old(model), expired, scripts, pauses, rounds, states, model)
      {
        ghost var between := model;
        ghost var round := Round(expired[k], ScriptAt(scripts, k), PauseAt(pauses, k));
        CalledNext(old(model), expired, scripts, pauses, rounds, states, between, round, model);
        rounds, states := rounds + [round], states + [model];
      }
    }

    /** `handleRead`, called when the timerfd was reported readable. `scripts[k]` is what the
        callback of the `k`-th expired timer does if it is called; `pauses[k]` passes before its
        turn, and the last pause after all. The run is a run of the model: the start of a batch,
        one round for each expired timer, and the end. */
    method HandleRead(scripts: seq<seq<Reaction>>, pauses: seq<nat>)
      returns (ghost expired: seq<Timer>, ghost rounds: seq<seq<Step>>, ghost states: seq<Timers>)
      requires Valid() && model.batch.None?
      modifies this
      ensures Valid() && model.batch.None?
      ensures Can(old(model), Fire(expired)) && |rounds| == |expired|
      ensures AreRounds(expired, scripts, pauses, rounds, states) && states[0] == Do(old(model), Fire(expired))
      ensures Trace(old(model), [Fire(expired)] + Flat(rounds) + [Pass(PauseAt(pauses, |expired|)), Finish], model)
      ensures model.calls == old(model).calls + CallsMade(expired, states, |expired|)
      ensures Changes(Flat(rounds)) == ChangesAsked(expired, scripts, states, |expired|)
    {
      var now := clock;
      var overdue := BeginBatch();
      expired := overdue;
      ghost var begun := model;
      rounds, states := CallAll(overdue, scripts, pauses);
      RoundsAre(begun, overdue, scripts, pauses, rounds, states, model);
      TraceOne(old(model), Fire(overdue));
      TraceJoin(old(model), [Fire(overdue)], begun, Flat(rounds), model);
      FinishBatch(overdue, now, PauseAt(pauses, |overdue|), old(model), [Fire(overdue)] + Flat(rounds));
    }

    method FinishBatch(expired: seq<Timer>, now: int, pause: nat, ghost before: Timers, ghost steps: seq<Step>)
      requires Valid() && model.batch == Some(Batch(now, expired, |expired|)) && Trace(before, steps, model)
      modifies this
      ensures Valid() && model.batch.None? && model.calls == old(model).calls
      ensures Trace(before, steps + [Pass(pause), Finish], model)
    {
      TraceAppend(before, steps, model, Pass(pause));
      LetPass(pause);
      TraceAppend(before, steps + [Pass(pause)], model, Finish);
      FinishCalls(model);
      EndBatch(expired, now);
      assert steps + [Pass(pause)] + [Finish] == steps + [Pass(pause), Finish];
    }
  }

  /** Whichever earliest timer is on top, the timerfd is set for the same deadline. */
  lemma SameTop(s: Timers, armed: Option<Arm>, heap: set<Timer>, live: set<nat>)
    requires Can(s, Finish)
    requires (heap, live) == Reenter(s.heap, s.live, s.batch.value.expired, s.batch.value.now)
    requires heap == {} ==> armed == s.armed
    requires heap != {} ==> armed.Some? && armed.value.since == s.clock
                            && exists t :: Earliest(heap, t) && t.when == armed.value.when
    ensures Do(s, Finish).armed == armed && Do(s, Finish).heap == heap && Do(s, Finish).live == live
  {
  }
}
