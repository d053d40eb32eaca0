/** The daemon keeper: when to restart a daemon that went away. */
module Keeper {
  import opened Options

  const RETRY: int := 60_000

  datatype Action = Restart | Wait(ms: int)

  function ClosedAfter(last: Option<int>, held: int): Option<int> {
    if held >= RETRY then None else last
  }

  function ActionAt(last: Option<int>, now: int): Action {
    if last.Some? && now - last.value < RETRY then Wait(RETRY - (now - last.value)) else Restart
  }

  function LastAfter(last: Option<int>, now: int): Option<int> {
    if ActionAt(last, now).Restart? then Some(now) else last
  }

  class DaemonKeeper {
    var lastRestart: Option<int>

    constructor ()
      ensures lastRestart == None
    {
      lastRestart := None;
    }

    method OnClosed(held: int)
      modifies this
      ensures lastRestart == ClosedAfter(old(lastRestart), held)
    {
      if held >= RETRY { lastRestart := None; }
    }

    method OnDown(now: int) returns (action: Action)
      modifies this
      ensures action == ActionAt(old(lastRestart), now) && lastRestart == LastAfter(old(lastRestart), now)
    {
      if lastRestart.Some? && now - lastRestart.value < RETRY {
        action := Wait(RETRY - (now - lastRestart.value));
      } else {
        lastRestart := Some(now);
        action := Restart;
      }
    }
  }

  /** One turn of the loop: when it began, when and how long an attach was held if the daemon
      answered, and when the decision was taken. */
  datatype Turn = Turn(began: int, attached: Option<(int, int)>, now: int)

  function Before(last: Option<int>, turn: Turn): Option<int> {
    if turn.attached.Some? then ClosedAfter(last, turn.attached.value.1) else last
  }

  /** The keeper's memory before turn `i` decides. */
  function MemoryAt(turns: seq<Turn>, i: nat): Option<int>
    requires i < |turns|
  {
    Before(if i == 0 then None else LastAfter(MemoryAt(turns, i - 1), turns[i - 1].now), turns[i])
  }

  function Decision(turns: seq<Turn>, i: nat): Action
    requires i < |turns|
  {
    ActionAt(MemoryAt(turns, i), turns[i].now)
  }

  /** A monotone clock: an attach starts within its turn and lasts as long as it was held, and
      the next turn begins no earlier than this decision, nor than the end of its wait. */
  ghost predicate WellTimed(turns: seq<Turn>) {
    && (forall i :: 0 <= i < |turns| ==> turns[i].began <= turns[i].now)
    && (forall i :: 0 <= i < |turns| && turns[i].attached.Some? ==>
          var (at, held) := turns[i].attached.value;
          turns[i].began <= at && 0 <= held && at + held <= turns[i].now)
    && (forall i :: 0 <= i < |turns| - 1 ==>
          turns[i].now + (if Decision(turns, i).Wait? then Decision(turns, i).ms else 0) <= turns[i + 1].began)
  }

  /** Drive the keeper object through the turns. */
  method KeepDaemon(turns: seq<Turn>) returns (actions: seq<Action>)
    ensures |actions| == |turns| && forall i :: 0 <= i < |turns| ==> actions[i] == Decision(turns, i)
  {
    var keeper := new DaemonKeeper();
    actions := [];
    for i := 0 to |turns|
      invariant |actions| == i && forall k :: 0 <= k < i ==> actions[k] == Decision(turns, k)
      invariant keeper.lastRestart == if i == 0 then None else LastAfter(MemoryAt(turns, i - 1), turns[i - 1].now)
    {
      if turns[i].attached.Some? { keeper.OnClosed(turns[i].attached.value.1); }
      var action := keeper.OnDown(turns[i].now);
      actions := actions + [action];
    }
  }

  lemma {:induction false} ClockGrows(turns: seq<Turn>, i: nat, j: nat)
    requires WellTimed(turns) && i < j < |turns|
    ensures turns[i].now <= turns[j].began
    decreases j
  {
    MemoryIsPast(turns, i);
    if i < j - 1 {
      ClockGrows(turns, i, j - 1);
      MemoryIsPast(turns, j - 1);
    }
  }

  /** What the keeper remembers is a restart it decided, no later than now; so a wait is
      positive and at most the interval. */
  lemma {:induction false} MemoryIsPast(turns: seq<Turn>, i: nat)
    requires WellTimed(turns) && i < |turns|
    ensures MemoryAt(turns, i).Some? ==> MemoryAt(turns, i).value <= turns[i].began
    ensures Decision(turns, i).Wait? ==> 0 < Decision(turns, i).ms <= RETRY
  {
    if i > 0 { MemoryIsPast(turns, i - 1); }
  }

  /** Every past restart is remembered, or lies a full interval back. */
  lemma {:induction false} RestartIsRemembered(turns: seq<Turn>, i: nat, j: nat)
    requires WellTimed(turns) && i < j < |turns| && Decision(turns, i).Restart?
    requires forall k :: i < k < j ==> !Decision(turns, k).Restart?
    ensures MemoryAt(turns, j) == Some(turns[i].now) || turns[i].now + RETRY <= turns[j].now
    decreases j
  {
    if i < j - 1 { RestartIsRemembered(turns, i, j - 1); }
    MemoryIsPast(turns, j - 1);
    ClockGrows(turns, i, j);
  }

  /** Consecutive restarts are at least the retry interval apart, a reset by a long-held
      connection included. */
  lemma {:induction false} NeverHammers(turns: seq<Turn>, i: nat, j: nat)
    requires WellTimed(turns) && i < j < |turns|
    requires Decision(turns, i).Restart? && Decision(turns, j).Restart?
    ensures turns[i].now + RETRY <= turns[j].now
    decreases j - i
  {
    if k :| i < k < j && Decision(turns, k).Restart? {
      NeverHammers(turns, i, k);
      NeverHammers(turns, k, j);
    } else {
      RestartIsRemembered(turns, i, j);
    }
  }

  /** What the keeper remembers is the time of a restart it decided. */
  lemma {:induction false} MemoryIsARestart(turns: seq<Turn>, i: nat)
    requires i < |turns| && MemoryAt(turns, i).Some?
    ensures exists j :: 0 <= j < i && Decision(turns, j).Restart? && MemoryAt(turns, i) == Some(turns[j].now)
  {
    if Decision(turns, i - 1).Wait? { MemoryIsARestart(turns, i - 1); }
  }

  /** The keeper waits exactly when it restarted the daemon less than the interval ago, and the
      wait ends exactly one interval after that restart. */
  lemma DecidedExactlyWhen(turns: seq<Turn>, i: nat)
    requires WellTimed(turns) && i < |turns|
    ensures Decision(turns, i).Wait? <==>
              exists j :: 0 <= j < i && Decision(turns, j).Restart? && turns[i].now < turns[j].now + RETRY
    ensures forall j :: 0 <= j < i && Decision(turns, j).Restart? && turns[i].now < turns[j].now + RETRY ==>
              turns[i].now + Decision(turns, i).ms == turns[j].now + RETRY
  {
    forall j | 0 <= j < i && Decision(turns, j).Restart? && turns[i].now < turns[j].now + RETRY
      ensures Decision(turns, i) == Wait(turns[j].now + RETRY - turns[i].now)
    {
      RecentRestartWaits(turns, i, j);
    }
    if Decision(turns, i).Wait? {
      MemoryIsARestart(turns, i);
    }
  }

  lemma RecentRestartWaits(turns: seq<Turn>, i: nat, j: nat)
    requires WellTimed(turns) && j < i < |turns| && Decision(turns, j).Restart? && turns[i].now < turns[j].now + RETRY
    ensures Decision(turns, i) == Wait(turns[j].now + RETRY - turns[i].now)
  {
    if k :| j < k < i && Decision(turns, k).Restart? {
      NeverHammers(turns, j, k);
      ClockGrows(turns, k, i);
      assert false;
    }
    RestartIsRemembered(turns, j, i);
  }

  /** A wait is positive, at most the interval, and always followed by a restart. */
  lemma WaitsOnce(turns: seq<Turn>, i: nat)
    requires WellTimed(turns) && i < |turns| && Decision(turns, i).Wait?
    ensures 0 < Decision(turns, i).ms <= RETRY
    ensures i + 1 < |turns| ==> Decision(turns, i + 1).Restart?
  {
    MemoryIsPast(turns, i);
    if i + 1 < |turns| {
      assert MemoryAt(turns, i).Some?;
      assert turns[i].now + Decision(turns, i).ms == MemoryAt(turns, i).value + RETRY;
    }
  }
}
