/** One run of `handleRead` as steps of the model: which callbacks run, and what they do. */
module TimerBatch {
  import opened Options
  import opened TimerModel
  import opened TimerProof
  import opened TimerRuns

  /** What a callback may do on the loop's thread. */
  datatype Reaction =
    | NewTimer(when: int, interval: nat)
    | Invalidate(id: nat)
    | Elapse(time: nat)

  /** The steps of a reaction when `created` ids have been given out. */
  function ReactionSteps(reaction: Reaction, created: nat): seq<Step> {
    match reaction
    case NewTimer(when, interval) => [Create(when, interval), Add(Timer(created + 1, when, interval))]
    case Invalidate(id) => [Cancel(id)]
    case Elapse(time) => [Pass(time)]
  }

  lemma OneStep(s: Timers, a: Step, s': Timers)
    requires Trace(s, [a], s')
    ensures Can(s, a) && s' == Do(s, a)
  {
    assert [a][1..] == [];
  }

  lemma TwoSteps(s: Timers, a: Step, b: Step, s': Timers)
    requires Trace(s, [a, b], s')
    ensures Can(s, a) && Can(Do(s, a), b) && s' == Do(Do(s, a), b)
  {
    assert [a, b][1..] == [b];
    OneStep(Do(s, a), b, s');
  }

  /** `s'` comes after a timer has been created and inserted. */
  ghost predicate CreatedAndAdded(s: Timers, t: Timer, s': Timers) {
    Can(Do(s, Create(t.when, t.interval)), Add(t)) && s' == Do(Do(s, Create(t.when, t.interval)), Add(t))
  }

  lemma NewTimerSteps(s: Timers, when: int, interval: nat, s': Timers)
    requires Trace(s, ReactionSteps(NewTimer(when, interval), s.created), s')
    ensures CreatedAndAdded(s, Timer(s.created + 1, when, interval), s')
  {
    TwoSteps(s, Create(when, interval), Add(Timer(s.created + 1, when, interval)), s');
  }

  /** A callback's new timer is in the queue under a new live id. */
  lemma NewTimerDoes(s: Timers, t: Timer, s': Timers)
    requires t.id == s.created + 1 && CreatedAndAdded(s, t, s')
    ensures s'.created == t.id && s'.live == s.live + {t.id} && s'.heap == s.heap + {t} && s'.clock == s.clock
  {
  }

  /** An id that a callback invalidates is no longer live, and its timer stays where it is. */
  lemma InvalidateDoes(s: Timers, id: nat, s': Timers)
    requires Trace(s, ReactionSteps(Invalidate(id), s.created), s')
    ensures s'.live == s.live - {id} && s'.heap == s.heap && s'.clock == s.clock
  {
    OneStep(s, Cancel(id), s');
  }

  lemma ElapseDoes(s: Timers, time: nat, s': Timers)
    requires Trace(s, ReactionSteps(Elapse(time), s.created), s')
    ensures s'.live == s.live && s'.heap == s.heap && s'.clock == s.clock + time
  {
    OneStep(s, Pass(time), s');
  }

  function CreatedBy(reactions: seq<Reaction>): nat {
    if reactions == [] then 0
    else CreatedBy(reactions[..|reactions| - 1]) + if reactions[|reactions| - 1].NewTimer? then 1 else 0
  }

  /** The steps of a whole callback. */
  function ScriptSteps(reactions: seq<Reaction>, created: nat): seq<Step> {
    if reactions == [] then
      []
    else
      var before := reactions[..|reactions| - 1];
      ScriptSteps(before, created) + ReactionSteps(reactions[|reactions| - 1], created + CreatedBy(before))
  }

  /** The round for timer `t`: time passes, the timer's turn comes, and if its id is live its
      callback runs; if not, nothing does. */
  ghost predicate IsRound(s: Timers, t: Timer, script: seq<Reaction>, pause: nat, round: seq<Step>, s': Timers) {
    && Trace(s, round, s')
    && round == [Pass(pause), CallNext] + if t.id in s.live then ScriptSteps(script, s.created) else []
  }

  function ScriptAt(scripts: seq<seq<Reaction>>, k: nat): seq<Reaction> {
    if k < |scripts| then scripts[k] else []
  }

  function PauseAt(pauses: seq<nat>, k: nat): nat {
    if k < |pauses| then pauses[k] else 0
  }

  function Flat(rounds: seq<seq<Step>>): seq<Step> {
    if rounds == [] then [] else Flat(rounds[..|rounds| - 1]) + rounds[|rounds| - 1]
  }

  /** The rounds for the expired timers so far, in their order, with the states between them. */
  ghost predicate AreRounds(expired: seq<Timer>, scripts: seq<seq<Reaction>>, pauses: seq<nat>,
                            rounds: seq<seq<Step>>, states: seq<Timers>)
  {
    && |rounds| <= |expired| && |states| == |rounds| + 1
    && forall k {:trigger rounds[k]} :: 0 <= k < |rounds| ==>
         IsRound(states[k], expired[k], ScriptAt(scripts, k), PauseAt(pauses, k), rounds[k], states[k + 1])
  }

  // ---------------------------------------------------------------- calls and scripts

  /** The steps that create, insert or cancel timers. */
  function Changes(steps: seq<Step>): seq<Step> {
    if steps == [] then
      []
    else
      var last := steps[|steps| - 1];
      Changes(steps[..|steps| - 1]) + if last.Create? || last.Add? || last.Cancel? then [last] else []
  }

  lemma {:induction false} ChangesJoin(a: seq<Step>, b: seq<Step>)
    ensures Changes(a + b) == Changes(a) + Changes(b)
    decreases |b|
  {
    if b == [] {
      assert a + b == a;
    } else {
      var last := b[|b| - 1];
      assert (a + b)[..|a + b| - 1] == a + b[..|b| - 1];
      ChangesJoin(a, b[..|b| - 1]);
    }
  }

  /** The calls of the first `k` rounds: one for each timer whose id is live when its turn comes. */
  function CallsMade(expired: seq<Timer>, states: seq<Timers>, k: nat): seq<Call>
    requires k <= |expired| && k <= |states|
  {
    if k == 0 then
      []
    else
      var t, s := expired[k - 1], states[k - 1];
      CallsMade(expired, states, k - 1) + if t.id in s.live then [Call(t.id, t.when, s.batches)] else []
  }

  /** The changes that the script of round `j` asks for, if the round calls its timer. */
  function AskedIn(expired: seq<Timer>, scripts: seq<seq<Reaction>>, states: seq<Timers>, j: nat): seq<Step>
    requires j < |expired| && j < |states|
  {
    if expired[j].id in states[j].live then Changes(ScriptSteps(ScriptAt(scripts, j), states[j].created)) else []
  }

  /** The changes that the scripts of exactly these calls ask for, one script after the other. */
  function ChangesAsked(expired: seq<Timer>, scripts: seq<seq<Reaction>>, states: seq<Timers>, k: nat): seq<Step>
    requires k <= |expired| && k <= |states|
  {
    if k == 0 then []
    else ChangesAsked(expired, scripts, states, k - 1) + AskedIn(expired, scripts, states, k - 1)
  }

  /** The steps of callbacks leave the batch and the calls alone. */
  predicate IsReaction(step: Step) {
    step.Create? || step.Add? || step.Cancel? || step.Pass?
  }

  lemma {:induction false} ScriptIsReactions(reactions: seq<Reaction>, created: nat)
    ensures forall k :: 0 <= k < |ScriptSteps(reactions, created)| ==> IsReaction(ScriptSteps(reactions, created)[k])
  {
    if reactions != [] {
      ScriptIsReactions(reactions[..|reactions| - 1], created);
    }
  }

  lemma {:induction false} ReactionsKeep(s: Timers, steps: seq<Step>, s': Timers)
    requires Trace(s, steps, s') && forall k :: 0 <= k < |steps| ==> IsReaction(steps[k])
    ensures s'.batch == s.batch && s'.calls == s.calls && s'.batches == s.batches
    decreases |steps|
  {
    if steps != [] {
      assert IsReaction(steps[0]);
      ReactionsKeep(Do(s, steps[0]), steps[1..], s');
    }
  }

  lemma RoundStart(s: Timers, pause: nat, rest: seq<Step>, s': Timers)
    requires Trace(s, [Pass(pause), CallNext] + rest, s')
    ensures var s1 := Do(s, Pass(pause)); Can(s1, CallNext) && Trace(Do(s1, CallNext), rest, s')
  {
    var steps := [Pass(pause), CallNext] + rest;
    assert steps[1..] == [CallNext] + rest && steps[1..][1..] == rest;
  }

  /** A round calls its timer if and only if the id is live. */
  lemma RoundIs(s: Timers, t: Timer, script: seq<Reaction>, pause: nat, round: seq<Step>, s': Timers)
    requires IsRound(s, t, script, pause, round, s') && s.batch.Some?
    requires s.batch.value.next < |s.batch.value.expired| && t == s.batch.value.expired[s.batch.value.next]
    ensures s'.calls == s.calls + if t.id in s.live then [Call(t.id, t.when, s.batches)] else []
    ensures s'.batch == Some(s.batch.value.(next := s.batch.value.next + 1))
  {
    var rest := if t.id in s.live then ScriptSteps(script, s.created) else [];
    RoundStart(s, pause, rest, s');
    ScriptIsReactions(script, s.created);
    ReactionsKeep(Do(Do(s, Pass(pause)), CallNext), rest, s');
  }

  /** A pause, then the call and what follows it. */
  lemma RoundJoins(s: Timers, t: Timer, script: seq<Reaction>, pause: nat, s1: Timers, steps: seq<Step>, s': Timers)
    requires s1 == Do(s, Pass(pause)) && Trace(s1, steps, s')
    requires steps == [CallNext] + if t.id in s.live then ScriptSteps(script, s.created) else []
    ensures IsRound(s, t, script, pause, [Pass(pause)] + steps, s')
  {
    TraceOne(s, Pass(pause));
    TraceJoin(s, [Pass(pause)], s1, steps, s');
    assert [Pass(pause)] + [CallNext] == [Pass(pause), CallNext];
  }

  lemma NoChanges(pause: nat)
    ensures Changes([Pass(pause), CallNext]) == []
  {
    var steps := [Pass(pause), CallNext];
    assert steps[..1] == [Pass(pause)] && [Pass(pause)][..0] == [];
    assert Changes([Pass(pause)]) == Changes([]) == [];
  }

  lemma RoundChanges(s: Timers, t: Timer, script: seq<Reaction>, pause: nat, round: seq<Step>, s': Timers)
    requires IsRound(s, t, script, pause, round, s')
    ensures Changes(round) == if t.id in s.live then Changes(ScriptSteps(script, s.created)) else []
  {
    NoChanges(pause);
    ChangesJoin([Pass(pause), CallNext], if t.id in s.live then ScriptSteps(script, s.created) else []);
  }

  lemma RoundAt(expired: seq<Timer>, scripts: seq<seq<Reaction>>, pauses: seq<nat>,
                rounds: seq<seq<Step>>, states: seq<Timers>, k: nat)
    requires AreRounds(expired, scripts, pauses, rounds, states) && k < |rounds|
    ensures IsRound(states[k], expired[k], ScriptAt(scripts, k), PauseAt(pauses, k), rounds[k], states[k + 1])
  {
  }

  lemma FlatAppend(rounds: seq<seq<Step>>, round: seq<Step>)
    ensures Flat(rounds + [round]) == Flat(rounds) + round
  {
    assert (rounds + [round])[..|rounds|] == rounds;
  }

  lemma RoundsAppend(expired: seq<Timer>, scripts: seq<seq<Reaction>>, pauses: seq<nat>,
                     rounds: seq<seq<Step>>, states: seq<Timers>, round: seq<Step>, s': Timers)
    requires AreRounds(expired, scripts, pauses, rounds, states) && |rounds| < |expired|
    requires var k := |rounds|;
             IsRound(states[k], expired[k], ScriptAt(scripts, k), PauseAt(pauses, k), round, s')
    ensures AreRounds(expired, scripts, pauses, rounds + [round], states + [s'])
  {
  }

  lemma ScriptNext(reactions: seq<Reaction>, i: nat, created: nat)
    requires i < |reactions|
    ensures ScriptSteps(reactions[..i + 1], created) ==
            ScriptSteps(reactions[..i], created)
            + ReactionSteps(reactions[i], created + CreatedBy(reactions[..i]))
    ensures CreatedBy(reactions[..i + 1]) == CreatedBy(reactions[..i]) + if reactions[i].NewTimer? then 1 else 0
  {
    assert reactions[..i + 1][..i] == reactions[..i];
  }

  // ---------------------------------------------------------------- put together

  /** The first `i` reactions have been performed since `start`. */
  ghost predicate Reacted(start: Timers, reactions: seq<Reaction>, i: nat, steps: seq<Step>, s: Timers)
    requires i <= |reactions|
  {
    && steps == ScriptSteps(reactions[..i], start.created) && Trace(start, steps, s)
    && s.created == start.created + CreatedBy(reactions[..i])
  }

  lemma ReactedNext(start: Timers, reactions: seq<Reaction>, i: nat, steps: seq<Step>, s: Timers,
                    more: seq<Step>, s': Timers)
    requires i < |reactions| && Reacted(start, reactions, i, steps, s)
    requires more == ReactionSteps(reactions[i], s.created) && Trace(s, more, s')
    requires s'.created == s.created + if reactions[i].NewTimer? then 1 else 0
    ensures Reacted(start, reactions, i + 1, steps + more, s')
  {
    ScriptNext(reactions, i, start.created);
    assert Trace(start, steps + more, s') by {
      TraceJoin(start, steps, s, more, s');
    }
  }

  /** The rounds so far, since the state `start` at the beginning of the batch. */
  ghost predicate Called(start: Timers, expired: seq<Timer>, scripts: seq<seq<Reaction>>, pauses: seq<nat>,
                         rounds: seq<seq<Step>>, states: seq<Timers>, s: Timers)
  {
    && AreRounds(expired, scripts, pauses, rounds, states) && states[0] == start && states[|rounds|] == s
    && Trace(start, Flat(rounds), s)
    && start.batch.Some? && start.batch.value.expired == expired && start.batch.value.next == 0
    && s.batch == Some(start.batch.value.(next := |rounds|))
  }

  lemma CalledNext(start: Timers, expired: seq<Timer>, scripts: seq<seq<Reaction>>, pauses: seq<nat>,
                   rounds: seq<seq<Step>>, states: seq<Timers>, s: Timers, round: seq<Step>, s': Timers)
    requires Called(start, expired, scripts, pauses, rounds, states, s) && |rounds| < |expired|
    requires var k := |rounds|; IsRound(s, expired[k], ScriptAt(scripts, k), PauseAt(pauses, k), round, s')
    ensures Called(start, expired, scripts, pauses, rounds + [round], states + [s'], s')
  {
    var k := |rounds|;
    RoundIs(s, expired[k], ScriptAt(scripts, k), PauseAt(pauses, k), round, s');
    TraceJoin(start, Flat(rounds), s, round, s');
    FlatAppend(rounds, round);
    RoundsAppend(expired, scripts, pauses, rounds, states, round, s');
  }

  lemma {:induction false} RoundsCall(expired: seq<Timer>, scripts: seq<seq<Reaction>>, pauses: seq<nat>,
                                      rounds: seq<seq<Step>>, states: seq<Timers>, k: nat)
    requires AreRounds(expired, scripts, pauses, rounds, states) && k <= |rounds|
    requires states[0].batch.Some? && states[0].batch.value.expired == expired && states[0].batch.value.next == 0
    ensures states[k].batch == Some(states[0].batch.value.(next := k))
    ensures states[k].calls == states[0].calls + CallsMade(expired, states, k)
    decreases k
  {
    if k > 0 {
      RoundsCall(expired, scripts, pauses, rounds, states, k - 1);
      RoundAt(expired, scripts, pauses, rounds, states, k - 1);
      RoundIs(states[k - 1], expired[k - 1], ScriptAt(scripts, k - 1), PauseAt(pauses, k - 1), rounds[k - 1],
              states[k]);
    }
  }

  lemma ChangesNext(rounds: seq<seq<Step>>, k: nat)
    requires 0 < k <= |rounds|
    ensures Changes(Flat(rounds[..k])) == Changes(Flat(rounds[..k - 1])) + Changes(rounds[k - 1])
  {
    FlatAppend(rounds[..k - 1], rounds[k - 1]);
    assert rounds[..k] == rounds[..k - 1] + [rounds[k - 1]];
    ChangesJoin(Flat(rounds[..k - 1]), rounds[k - 1]);
  }

  lemma RoundChangesAt(expired: seq<Timer>, scripts: seq<seq<Reaction>>, pauses: seq<nat>,
                       rounds: seq<seq<Step>>, states: seq<Timers>, j: nat)
    requires AreRounds(expired, scripts, pauses, rounds, states) && j < |rounds|
    ensures Changes(rounds[j]) == AskedIn(expired, scripts, states, j)
  {
    RoundAt(expired, scripts, pauses, rounds, states, j);
    RoundChanges(states[j], expired[j], ScriptAt(scripts, j), PauseAt(pauses, j), rounds[j], states[j + 1]);
  }

  ghost predicate EachAsked(expired: seq<Timer>, scripts: seq<seq<Reaction>>, rounds: seq<seq<Step>>,
                            states: seq<Timers>)
  {
    && |rounds| <= |expired| && |rounds| <= |states|
    && forall j {:trigger rounds[j]} :: 0 <= j < |rounds| ==> Changes(rounds[j]) == AskedIn(expired, scripts, states, j)
  }

  lemma AllAsked(expired: seq<Timer>, scripts: seq<seq<Reaction>>, pauses: seq<nat>,
                 rounds: seq<seq<Step>>, states: seq<Timers>)
    requires AreRounds(expired, scripts, pauses, rounds, states)
    ensures EachAsked(expired, scripts, rounds, states)
  {
    forall j {:trigger rounds[j]} | 0 <= j < |rounds| ensures Changes(rounds[j]) == AskedIn(expired, scripts, states, j) {
      RoundChangesAt(expired, scripts, pauses, rounds, states, j);
    }
  }

  lemma {:induction false} RoundsChange(expired: seq<Timer>, scripts: seq<seq<Reaction>>, rounds: seq<seq<Step>>,
                                        states: seq<Timers>, k: nat)
    requires EachAsked(expired, scripts, rounds, states) && k <= |rounds|
    ensures Changes(Flat(rounds[..k])) == ChangesAsked(expired, scripts, states, k)
    decreases k
  {
    if k > 0 {
      RoundsChange(expired, scripts, rounds, states, k - 1);
      ChangesNext(rounds, k);
    }
  }

  /** What the rounds amount to: the calls are those of the timers whose id is live when their turn
      comes, and the timers created, inserted and cancelled in between are what the scripts of
      exactly these calls ask for, in order. */
  lemma RoundsAre(start: Timers, expired: seq<Timer>, scripts: seq<seq<Reaction>>, pauses: seq<nat>,
                  rounds: seq<seq<Step>>, states: seq<Timers>, s: Timers)
    requires Called(start, expired, scripts, pauses, rounds, states, s)
    ensures s.calls == start.calls + CallsMade(expired, states, |rounds|)
    ensures Changes(Flat(rounds)) == ChangesAsked(expired, scripts, states, |rounds|)
  {
    RoundsCall(expired, scripts, pauses, rounds, states, |rounds|);
    AllAsked(expired, scripts, pauses, rounds, states);
    RoundsChange(expired, scripts, rounds, states, |rounds|);
    assert rounds[..|rounds|] == rounds;
  }
}
