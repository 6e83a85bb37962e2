/** The engine as its callers see it: stopped, or running one session. */
module Core {
  import opened Wrappers
  import opened Config

  /** `list` is what the start was given, `accepted` the positions that survived in it,
      `active` the survivor in use. */
  datatype Session<O> = Session(list: seq<O>, accepted: seq<nat>, active: nat, mode: Mode)

  const MAX_ENGINE_CANDIDATES := 32

  ghost predicate Ascending(s: seq<nat>) {
    forall i, j :: 0 <= i < j < |s| ==> s[i] < s[j]
  }

  /** What can survive a start: always the first candidate, nothing beyond the cap. */
  ghost predicate Survivors(count: nat, accepted: seq<nat>) {
    && accepted != [] && accepted[0] == 0 && Ascending(accepted)
    && accepted[|accepted| - 1] < count && accepted[|accepted| - 1] < MAX_ENGINE_CANDIDATES
  }

  ghost predicate GoodSession<O>(s: Session<O>) {
    Survivors(|s.list|, s.accepted) && s.active < |s.accepted|
  }

  /** The candidate in use, as the caller numbers it. */
  function Using<O>(s: Session<O>): nat
    requires s.active < |s.accepted|
  {
    s.accepted[s.active]
  }

  datatype StartOutcome = Refused | Booted(accepted: seq<nat>)

  ghost predicate PossibleOutcome(count: nat, o: StartOutcome) {
    o.Booted? ==> Survivors(count, o.accepted)
  }

  /** Serving a start: on a running engine it silently does nothing and reports success. */
  function ServeStart<O>(core: Option<Session<O>>, list: seq<O>, mode: Mode, o: StartOutcome)
    : (Option<Session<O>>, int)
  {
    if core.Some? then (core, 0)
    else if o.Refused? then (None, 1)
    else (Some(Session(list, o.accepted, 0, mode)), 0)
  }

  predicate CanSelect<O>(core: Option<Session<O>>, i: int) {
    && core.Some? && |core.value.accepted| >= 2
    && exists p :: 0 <= p < |core.value.accepted| && core.value.accepted[p] == i
  }

  function PositionOf(accepted: seq<nat>, i: int): (p: nat)
    requires exists p :: 0 <= p < |accepted| && accepted[p] == i
    ensures p < |accepted| && accepted[p] == i
  {
    if accepted[0] == i then 0
    else
      assert exists p :: 0 <= p < |accepted[1..]| && accepted[1..][p] == i by {
        var p :| 0 <= p < |accepted| && accepted[p] == i;
        assert accepted[1..][p - 1] == i;
      }
      1 + PositionOf(accepted[1..], i)
  }

  function SelectOn<O>(core: Option<Session<O>>, i: int): Option<Session<O>> {
    if CanSelect(core, i) then Some(core.value.(active := PositionOf(core.value.accepted, i))) else core
  }

  lemma SelectAt<O>(core: Option<Session<O>>, i: int, p: nat)
    requires core.Some? && |core.value.accepted| >= 2 && Ascending(core.value.accepted)
    requires p < |core.value.accepted| && core.value.accepted[p] == i
    ensures CanSelect(core, i) && SelectOn(core, i) == Some(core.value.(active := p))
  {
    assert CanSelect(core, i);
  }
}
