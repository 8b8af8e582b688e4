/**
 A check of a loaded workflow that decides whether max_visits can be trusted: a search over the picks its
 steps can make, from the first step on, that looks only at the workflow and ends.
 */
module LimitCheck {
  import opened Prelude
  import opened Events
  import opened Execution
  import opened Visits
  import opened Walks
  import W = Workflow

  /** The picks of passing with each of the outputs. */
  function PassChoices(engine: W.Engine, at: string, outputs: seq<string>): seq<Move> {
    if outputs == [] then []
    else
      (match W.PickNext(engine, at, outputs[0])
       case Primary(target) => [Move(target, false)]
       case Decided(_) => []) + PassChoices(engine, at, outputs[1..])
  }

  /** Every pick the step can make. */
  function Choices(engine: W.Engine, at: string): seq<Move> {
    match W.Lookup(engine, at)
    case None => []
    case Some(step) =>
      var outputs :=
        if step.action.None? then Witnesses(step) else if step.action == Some("merge_to_main") then ["pass"] else [];
      var onFail :=
        if step.onFail.Some? && step.onFail != Some("escalate") then [Move(step.onFail.value, true)] else [];
      PassChoices(engine, at, outputs) + onFail
  }

  lemma {:induction false} PassChoicesIn(engine: W.Engine, at: string, outputs: seq<string>, m: Move)
    ensures m in PassChoices(engine, at, outputs)
      <==> !m.failed && exists i :: 0 <= i < |outputs| && W.PickNext(engine, at, outputs[i]) == W.Primary(m.target)
  {
    if outputs != [] {
      PassChoicesIn(engine, at, outputs[1..], m);
      if i :| 0 <= i < |outputs| && W.PickNext(engine, at, outputs[i]) == W.Primary(m.target) {
        assert i == 0 || outputs[1..][i - 1] == outputs[i];
      }
    }
  }

  lemma ChoicesArePossible(engine: W.Engine, at: string, m: Move)
    ensures m in Choices(engine, at) <==> Possible(engine, at, m)
  {
    if W.Lookup(engine, at).Some? {
      var step := W.Lookup(engine, at).value;
      PassChoicesIn(engine, at, Witnesses(step), m);
      PassChoicesIn(engine, at, ["pass"], m);
      assert ["pass"][0] == "pass";
    }
  }

  /** What a pick leaves of the visits allowed: none, nothing more to come, or a step to go on from. */
  datatype Fate = TooMany | Stops | GoesOn(at: string, visits: W.Visits, left: nat)

  function FateOf(engine: W.Engine, m: Move, visits: W.Visits, step: string, left: nat): Fate {
    var (advance, visits') := Land(engine, m, visits);
    if One(advance == W.Goto(step)) > left then TooMany
    else if advance.Goto? then GoesOn(advance.step, visits', left - One(advance == W.Goto(step)))
    else Stops
  }

  /** Some picks, at most `fuel` of them, enter the step more than `left` times. */
  predicate Exceeds(engine: W.Engine, at: string, visits: W.Visits, step: string, left: nat, fuel: nat)
    decreases fuel
  {
    fuel > 0 &&
    exists i ::
      && 0 <= i < |Choices(engine, at)|
      && match FateOf(engine, Choices(engine, at)[i], visits, step, left)
         case TooMany => true
         case Stops => false
         case GoesOn(at', visits', left') => Exceeds(engine, at', visits', step, left', fuel - 1)
  }

  lemma ChoiceExceeds(engine: W.Engine, at: string, m: Move, visits: W.Visits, step: string, left: nat, fuel: nat)
    requires fuel > 0 && m in Choices(engine, at)
    requires match FateOf(engine, m, visits, step, left)
             case TooMany => true
             case Stops => false
             case GoesOn(at', visits', left') => Exceeds(engine, at', visits', step, left', fuel - 1)
    ensures Exceeds(engine, at, visits, step, left, fuel)
  {
    var i :| 0 <= i < |Choices(engine, at)| && Choices(engine, at)[i] == m;
    assert Choices(engine, at)[i] == m;
  }

  lemma ExceedsByChoice(engine: W.Engine, at: string, visits: W.Visits, step: string, left: nat, fuel: nat) returns (m: Move)
    requires Exceeds(engine, at, visits, step, left, fuel)
    ensures fuel > 0 && m in Choices(engine, at)
    ensures match FateOf(engine, m, visits, step, left)
            case TooMany => true
            case Stops => false
            case GoesOn(at', visits', left') => Exceeds(engine, at', visits', step, left', fuel - 1)
  {
    var i :| 0 <= i < |Choices(engine, at)| &&
      (match FateOf(engine, Choices(engine, at)[i], visits, step, left)
       case TooMany => true
       case Stops => false
       case GoesOn(at', visits', left') => Exceeds(engine, at', visits', step, left', fuel - 1));
    m := Choices(engine, at)[i];
  }

  /** A walk of at most that length enters the step more often than that. */
  ghost predicate Breaks(engine: W.Engine, at: string, visits: W.Visits, step: string, left: nat, fuel: nat, w: seq<Move>) {
    |w| <= fuel && IsWalk(engine, at, visits, w) && WalkEntries(engine, visits, w, step) > left
  }

  lemma ShiftBreaks(engine: W.Engine, at: string, visits: W.Visits, step: string, left: nat, fuel: nat, w: seq<Move>)
    returns (m: Move, rest: seq<Move>)
    requires Breaks(engine, at, visits, step, left, fuel, w)
    ensures fuel > 0 && m in Choices(engine, at)
    ensures match FateOf(engine, m, visits, step, left)
            case TooMany => true
            case Stops => false
            case GoesOn(at', visits', left') => Breaks(engine, at', visits', step, left', fuel - 1, rest)
  {
    m, rest := w[0], w[1..];
    ChoicesArePossible(engine, at, m);
    var (advance, visits') := Land(engine, m, visits);
    assert WalkEntries(engine, visits', rest, step) > 0 ==> rest != [];
  }

  lemma ExtendBreaks(engine: W.Engine, at: string, visits: W.Visits, step: string, left: nat, fuel: nat, m: Move, rest: seq<Move>)
    returns (w: seq<Move>)
    requires fuel > 0 && m in Choices(engine, at)
    requires match FateOf(engine, m, visits, step, left)
             case TooMany => rest == []
             case Stops => false
             case GoesOn(at', visits', left') => Breaks(engine, at', visits', step, left', fuel - 1, rest)
    ensures Breaks(engine, at, visits, step, left, fuel, w)
  {
    ChoicesArePossible(engine, at, m);
    w := Extend(engine, at, visits, m, rest, step);
  }

  lemma {:induction false} ExceedingHasWalk(engine: W.Engine, at: string, visits: W.Visits, step: string, left: nat, fuel: nat)
    returns (w: seq<Move>)
    requires Exceeds(engine, at, visits, step, left, fuel)
    ensures Breaks(engine, at, visits, step, left, fuel, w)
    decreases fuel
  {
    var m := ExceedsByChoice(engine, at, visits, step, left, fuel);
    var rest := [];
    match FateOf(engine, m, visits, step, left) {
      case GoesOn(at', visits', left') =>
        rest := ExceedingHasWalk(engine, at', visits', step, left', fuel - 1);
      case _ =>
    }
    w := ExtendBreaks(engine, at, visits, step, left, fuel, m, rest);
  }

  lemma {:induction false} WalkExceeds(engine: W.Engine, at: string, visits: W.Visits, step: string, left: nat, fuel: nat,
                                       w: seq<Move>)
    requires Breaks(engine, at, visits, step, left, fuel, w)
    ensures Exceeds(engine, at, visits, step, left, fuel)
    decreases fuel
  {
    var m, rest := ShiftBreaks(engine, at, visits, step, left, fuel, w);
    match FateOf(engine, m, visits, step, left) {
      case GoesOn(at', visits', left') =>
        WalkExceeds(engine, at', visits', step, left', fuel - 1, rest);
      case _ =>
    }
    ChoiceExceeds(engine, at, m, visits, step, left, fuel);
  }

  ghost predicate NoneBreaks(engine: W.Engine, at: string, visits: W.Visits, step: string, left: nat, fuel: nat) {
    forall w :: !Breaks(engine, at, visits, step, left, fuel, w)
  }

  lemma SearchIff(engine: W.Engine, at: string, visits: W.Visits, step: string, left: nat, fuel: nat)
    ensures Exceeds(engine, at, visits, step, left, fuel) <==> !NoneBreaks(engine, at, visits, step, left, fuel)
  {
    if Exceeds(engine, at, visits, step, left, fuel) {
      var w := ExceedingHasWalk(engine, at, visits, step, left, fuel);
    } else {
      forall w ensures !Breaks(engine, at, visits, step, left, fuel, w) {
        if Breaks(engine, at, visits, step, left, fuel, w) {
          WalkExceeds(engine, at, visits, step, left, fuel, w);
        }
      }
    }
  }

  lemma EmptyWalk(engine: W.Engine, start: string, step: string)
    ensures IsWalk(engine, start, map[], []) && WalkEntries(engine, map[], [], step) == 0
  {
  }

  ghost predicate NoneBreaksFrom(engine: W.Engine, start: string, step: string, max: nat, length: nat) {
    One(start == step) <= max && NoneBreaks(engine, start, map[], step, max - One(start == step), length)
  }

  lemma NoneBreaksIff(engine: W.Engine, start: string, step: string, max: nat, length: nat)
    ensures NoWalkExceeds(engine, start, step, max, length) <==> NoneBreaksFrom(engine, start, step, max, length)
  {
    EmptyWalk(engine, start, step);
    if NoneBreaksFrom(engine, start, step, max, length) {
      forall w | |w| <= length && IsWalk(engine, start, map[], w)
        ensures One(start == step) + WalkEntries(engine, map[], w, step) <= max
      {
        assert !Breaks(engine, start, map[], step, max - One(start == step), length, w);
      }
    }
  }

  /** The check: no search from the first step, of at most that many picks, finds one visit too many. */
  predicate Trusted(engine: W.Engine, start: string, step: string, max: nat, length: nat) {
    One(start == step) <= max && !Exceeds(engine, start, map[], step, max - One(start == step), length)
  }

  lemma TrustedIff(engine: W.Engine, start: string, step: string, max: nat, length: nat)
    ensures NoneBreaksFrom(engine, start, step, max, length) <==> Trusted(engine, start, step, max, length)
  {
    if One(start == step) <= max {
      SearchIff(engine, start, map[], step, max - One(start == step), length);
    }
  }

  /** The documented limit holds over all runs of a new execution exactly if the check, run far enough, trusts it. */
  lemma LimitHoldsIff(engines: Engines, exec: ExecView, step: string, max: nat)
    requires New(engines, exec) && W.UniqueNames(engines[exec.workflow].steps)
    ensures var engine := engines[exec.workflow];
            LimitHolds(engines, exec, step, max) <==> Trusted(engine, exec.phase.step, step, max, Enough(engine, max))
  {
    WalksDecide(engines, exec, step, max);
    var engine, start := engines[exec.workflow], exec.phase.step;
    NoneBreaksIff(engine, start, step, max, Enough(engine, max));
    TrustedIff(engine, start, step, max, Enough(engine, max));
  }
}
