/**
 Idempotent operations. All calls here share actor, client, tool and idempotency key; other
 keys have records of their own. Calls interleave freely. Creating the record is atomic.

 The body of a call may return or throw, and each later write of the record may itself fail.
 */
module McpOperations {
  import opened Wrappers

  datatype Status = Pending | Completed(result: int) | Failed(message: int)

  datatype Record = Record(hash: int, status: Status)

  /** Why a call throws: its own error, the stored one of an earlier call, or a conflict over the key. */
  datatype Reason = OwnError(message: int) | StoredError(message: int) | OtherRequest | StillRunning

  /** Where a call is. `Failing` has caught an error and is about to store it. */
  datatype Phase =
    | Running
    | GotValue(value: int)
    | Failing(message: int)
    | Returned(value: int)
    | Threw(reason: Reason)

  datatype Call = Call(hash: int, phase: Phase)

  /** `runs` lists the outcomes of the body, one per execution. */
  datatype State = State(record: Option<Record>, calls: map<int, Call>, runs: seq<Option<int>>)

  datatype Action =
    | Start(call: int, hash: int)
    | RunBody(call: int, outcome: Option<int>, message: int)
    | SaveValue(call: int, stored: bool, message: int)
    | SaveError(call: int, stored: bool)

  /** What a call does that finds the record already there. */
  function Joined(record: Record, hash: int): Phase {
    if record.hash != hash then Threw(OtherRequest)
    else match record.status
      case Completed(result) => Returned(result)
      case Failed(message) => Threw(StoredError(message))
      case Pending => Threw(StillRunning)
  }

  function Moved(s: State, call: int, phase: Phase): State
    requires call in s.calls
  {
    s.(calls := s.calls[call := s.calls[call].(phase := phase)])
  }

  /** Steps that are not possible change nothing. */
  function Step(s: State, a: Action): State {
    match a
    case Start(call, hash) =>
      if call in s.calls then s
      else if s.record.None? then
        s.(record := Some(Record(hash, Pending)), calls := s.calls[call := Call(hash, Running)])
      else s.(calls := s.calls[call := Call(hash, Joined(s.record.value, hash))])
    case RunBody(call, outcome, message) =>
      if call !in s.calls || !s.calls[call].phase.Running? then s
      else Moved(s, call, if outcome.Some? then GotValue(outcome.value) else Failing(message))
             .(runs := s.runs + [outcome])
    case SaveValue(call, stored, message) =>
      if call !in s.calls || !s.calls[call].phase.GotValue? || s.record.None? then s
      else if !stored then Moved(s, call, Failing(message))
      else
        var value := s.calls[call].phase.value;
        Moved(s, call, Returned(value)).(record := Some(s.record.value.(status := Completed(value))))
    case SaveError(call, stored) =>
      if call !in s.calls || !s.calls[call].phase.Failing? || s.record.None? then s
      else
        var message := s.calls[call].phase.message;
        var next := Moved(s, call, Threw(OwnError(message)));
        if stored then next.(record := Some(s.record.value.(status := Failed(message)))) else next
  }

  function Run(s: State, actions: seq<Action>): State
    decreases |actions|
  {
    if actions == [] then s else Run(Step(s, actions[0]), actions[1..])
  }

  const EMPTY := State(None, map[], [])

  predicate Working(phase: Phase) {
    phase.Running? || phase.GotValue? || phase.Failing?
  }

  /** At most one call works; the record stays pending while it does, and remembers its outcome. */
  ghost predicate Inv(s: State) {
    && (s.record.None? ==> s.calls == map[] && s.runs == [])
    && |s.runs| <= 1
    && (forall c, d ::
          c in s.calls && d in s.calls && Working(s.calls[c].phase) && Working(s.calls[d].phase) ==> c == d)
    && (forall c :: c in s.calls && Working(s.calls[c].phase) ==>
          && s.record.Some? && s.record.value.status.Pending? && s.record.value.hash == s.calls[c].hash)
    && (forall c :: c in s.calls && s.calls[c].phase.Running? ==> s.runs == [])
    && (forall c :: c in s.calls && s.calls[c].phase.GotValue? ==> s.runs == [Some(s.calls[c].phase.value)])
    && (forall c :: c in s.calls && s.calls[c].phase.Failing? ==> |s.runs| == 1)
    && (forall c :: c in s.calls && s.calls[c].phase.Returned? ==>
          && s.runs == [Some(s.calls[c].phase.value)]
          && s.record == Some(Record(s.calls[c].hash, Completed(s.calls[c].phase.value))))
    && (s.record.Some? && s.record.value.status.Completed? ==> s.runs == [Some(s.record.value.status.result)])
  }

  lemma StepKeepsInv(s: State, a: Action)
    requires Inv(s)
    ensures Inv(Step(s, a))
    ensures s.record.Some? ==> Step(s, a).record.Some? && Step(s, a).record.value.hash == s.record.value.hash
  {
    match a
    case Start(call, hash) =>
    case RunBody(call, outcome, message) =>
    case SaveValue(call, stored, message) =>
    case SaveError(call, stored) =>
  }

  lemma {:induction false} RunKeepsInv(s: State, actions: seq<Action>)
    requires Inv(s)
    ensures Inv(Run(s, actions))
    ensures s.record.Some? ==>
      Run(s, actions).record.Some? && Run(s, actions).record.value.hash == s.record.value.hash
    decreases |actions|
  {
    if actions != [] {
      StepKeepsInv(s, actions[0]);
      RunKeepsInv(Step(s, actions[0]), actions[1..]);
    }
  }

  /**
   In every interleaving the body runs at most once, every call that returns a value returns
   what that run returned, and all of them, and the record, carry one request hash.
   */
  lemma BodyRunsOnce(actions: seq<Action>)
    ensures var s := Run(EMPTY, actions);
      && |s.runs| <= 1
      && (forall c :: c in s.calls && s.calls[c].phase.Returned? ==>
            && s.runs == [Some(s.calls[c].phase.value)]
            && s.record.Some? && s.calls[c].hash == s.record.value.hash)
  {
    RunKeepsInv(EMPTY, actions);
  }

  /** Once a call has returned a value, a later call with the same request returns it too; any other request throws. */
  lemma RepeatReturnsSame(actions: seq<Action>, first: int, again: int, hash: int)
    requires var s := Run(EMPTY, actions);
      first in s.calls && s.calls[first].phase.Returned? && again !in s.calls
    ensures var s := Run(EMPTY, actions);
      Step(s, Start(again, hash)).calls[again].phase
      == (if hash == s.calls[first].hash then Returned(s.calls[first].phase.value) else Threw(OtherRequest))
  {
    RunKeepsInv(EMPTY, actions);
  }

  /** The state after an action that is about one call: its phase and the record have become these. */
  ghost predicate Becomes(s: State, next: State, call: int, hash: int, phase: Phase, status: Status) {
    && next.record == Some(Record(hash, status))
    && next.calls == s.calls[call := Call(hash, phase)]
  }

  /** A call is started once, and the first of a key can go all the way. */
  lemma FirstCallGoesThrough(call: int, hash: int, value: int, message: int)
    ensures
      var s := Run(EMPTY, [Start(call, hash), RunBody(call, Some(value), message), SaveValue(call, true, message)]);
      Becomes(EMPTY, s, call, hash, Returned(value), Completed(value)) && s.runs == [Some(value)]
      && forall other :: Step(s, Start(call, other)) == s
  {
    var three := [Start(call, hash), RunBody(call, Some(value), message), SaveValue(call, true, message)];
    assert three[1..][1..][1..] == [];
    var one := Step(EMPTY, three[0]);
    var two := Step(one, three[1]);
    var last := Step(two, three[2]);
    assert Run(last, []) == last;
    assert Run(two, three[1..][1..]) == last;
    assert Run(one, three[1..]) == Run(two, three[1..][1..]);
  }

  /** In any run, the first call runs the body; later ones return or throw by what the record says. */
  lemma StartMeans(actions: seq<Action>, call: int, hash: int)
    requires call !in Run(EMPTY, actions).calls
    ensures var s := Run(EMPTY, actions);
      var next := Step(s, Start(call, hash));
      && next.runs == s.runs
      && if s.record.None? then Becomes(s, next, call, hash, Running, Pending)
         else && next.record == s.record
              && next.calls == s.calls[call := Call(hash,
                   if s.record.value.hash != hash then Threw(OtherRequest)
                   else if s.record.value.status.Completed? then Returned(s.record.value.status.result)
                   else if s.record.value.status.Failed? then Threw(StoredError(s.record.value.status.message))
                   else Threw(StillRunning))]
  {}

  /**
   In any run, the call that runs the body returns the value it gets once that is stored, and the
   record keeps it. If the body or the storing fails, the call throws that error, and the record
   keeps it if it can be stored.
   */
  lemma OwnerReturns(actions: seq<Action>, call: int, value: int, message: int, stored: bool)
    requires var s := Run(EMPTY, actions); call in s.calls && s.calls[call].phase.Running?
    ensures var s := Run(EMPTY, actions);
      var hash := s.calls[call].hash;
      var got := Step(s, RunBody(call, Some(value), message));
      var failed := Step(s, RunBody(call, None, message));
      && got.runs == [Some(value)] && failed.runs == [None]
      && Becomes(s, Step(got, SaveValue(call, true, message)), call, hash, Returned(value), Completed(value))
      && Becomes(s, Step(Step(got, SaveValue(call, false, message)), SaveError(call, stored)), call, hash,
                 Threw(OwnError(message)), if stored then Failed(message) else Pending)
      && Becomes(s, Step(failed, SaveError(call, stored)), call, hash,
                 Threw(OwnError(message)), if stored then Failed(message) else Pending)
  {
    RunKeepsInv(EMPTY, actions);
  }
}
