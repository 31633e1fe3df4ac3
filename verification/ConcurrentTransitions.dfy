/**
 Transitions of one account in several sessions at once (services/state_machine.py).  A session
 loads the row, raises the version in memory, and writes it back with an audit row; nothing checks
 that the version is still the one it loaded.
 */
module ConcurrentTransitions {

  type Session = string

  /** What a session has loaded: the version, and how many audit rows the account had by then. */
  datatype Snapshot = Snapshot(version: int, rows: nat)

  datatype State = State(version: int, rows: nat, loaded: map<Session, Snapshot>)

  datatype Step = Load(session: Session) | Write(session: Session)

  /** One step; a session that has loaded nothing writes nothing. */
  function Take(s: State, step: Step): State {
    match step
    case Load(x) => s.(loaded := s.loaded[x := Snapshot(s.version, s.rows)])
    case Write(x) => if x in s.loaded then State(s.loaded[x].version + 1, s.rows + 1, s.loaded - {x}) else s
  }

  function TakeAll(initial: int, steps: seq<Step>): State {
    if steps == [] then State(initial, 0, map[]) else Take(TakeAll(initial, steps[..|steps| - 1]), steps[|steps| - 1])
  }

  /** Another session has written since this one loaded. */
  predicate IsStale(s: State, step: Step) {
    step.Write? && step.session in s.loaded && s.loaded[step.session].rows != s.rows
  }

  ghost predicate NoneStale(initial: int, steps: seq<Step>) {
    forall k :: 0 <= k < |steps| ==> !IsStale(TakeAll(initial, steps[..k]), steps[k])
  }

  /**
   As long as no write was stale, every version is explained by the rows of its moment; afterwards none
   ever is again.
   */
  ghost predicate Explained(initial: int, s: State, fine: bool) {
    && (if fine then s.version == initial + s.rows else s.version < initial + s.rows)
    && (forall x :: x in s.loaded ==>
          && s.loaded[x].rows <= s.rows
          && (if fine then s.loaded[x].version == initial + s.loaded[x].rows
              else s.loaded[x].version < initial + s.rows))
  }

  lemma StepIsExplained(initial: int, s: State, step: Step, fine: bool)
    requires Explained(initial, s, fine)
    ensures Explained(initial, Take(s, step), fine && !IsStale(s, step))
  {
  }

  lemma NoneStaleOfRun(initial: int, steps: seq<Step>)
    requires steps != []
    ensures var n := |steps| - 1;
            NoneStale(initial, steps) <==>
            NoneStale(initial, steps[..n]) && !IsStale(TakeAll(initial, steps[..n]), steps[n])
  {
    var n := |steps| - 1;
    assert forall k :: 0 <= k < n ==> steps[..n][..k] == steps[..k] && steps[..n][k] == steps[k];
  }

  lemma {:induction false} RunIsExplained(initial: int, steps: seq<Step>)
    ensures Explained(initial, TakeAll(initial, steps), NoneStale(initial, steps))
  {
    if steps != [] {
      var n := |steps| - 1;
      RunIsExplained(initial, steps[..n]);
      NoneStaleOfRun(initial, steps);
      StepIsExplained(initial, TakeAll(initial, steps[..n]), steps[n], NoneStale(initial, steps[..n]));
    }
  }

  /** The version counts the audit rows exactly when no session has written over a version that it had not loaded. */
  lemma VersionCountsRowsIffNoneStale(initial: int, steps: seq<Step>)
    ensures var s := TakeAll(initial, steps);
            && (s.version == initial + s.rows <==> NoneStale(initial, steps))
            && s.version <= initial + s.rows
  {
    RunIsExplained(initial, steps);
  }

  lemma TakeAllOfAppend(initial: int, steps: seq<Step>, step: Step)
    ensures TakeAll(initial, steps + [step]) == Take(TakeAll(initial, steps), step)
  {
    assert (steps + [step])[..|steps|] == steps;
  }

  /** Two sessions that load the same row: two audit rows, one version. */
  lemma TwoSessionsLoseAVersion(initial: int, x: Session, y: Session)
    requires x != y
    ensures var s := TakeAll(initial, [Load(x), Load(y), Write(x), Write(y)]);
            s.version == initial + 1 && s.rows == 2
  {
    assert [] + [Load(x)] == [Load(x)];
    TakeAllOfAppend(initial, [], Load(x));
    TakeAllOfAppend(initial, [Load(x)], Load(y));
    TakeAllOfAppend(initial, [Load(x)] + [Load(y)], Write(x));
    TakeAllOfAppend(initial, [Load(x)] + [Load(y)] + [Write(x)], Write(y));
    assert [Load(x)] + [Load(y)] + [Write(x)] + [Write(y)] == [Load(x), Load(y), Write(x), Write(y)];
  }
}
