/**
 The run loop of the agent object, as events of a device: what is proved of every
 run of events holds of every run of the loop.
 */
module RunsAgent {
  import opened AgentModel
  import opened Agent
  import opened Runs

  function TickEvents(ticks: seq<TickEnv>): seq<Event> {
    seq(|ticks|, i requires 0 <= i < |ticks| => TickEvent(ticks[i]))
  }

  lemma {:induction false} FromFirst(w: World, e: Event, events: seq<Event>, binary: Binary)
    ensures From(w, [e] + events, binary) == From(Step(w, e, binary), events, binary)
  {
    var all := [e] + events;
    if events == [] {
      assert all == [e] && [e][..0] == [];
    } else {
      FromFirst(w, e, events[..|events| - 1], binary);
      assert all[..|all| - 1] == [e] + events[..|events| - 1];
    }
  }

  lemma {:induction false} IdleTicks(w: World, ticks: seq<TickEnv>, binary: Binary)
    requires w.mode != Running
    ensures From(w, TickEvents(ticks), binary) == w
  {
    if ticks != [] {
      IdleTicks(w, ticks[..|ticks| - 1], binary);
      assert TickEvents(ticks)[..|ticks| - 1] == TickEvents(ticks[..|ticks| - 1]);
    }
  }

  lemma {:induction false} TicksAreEvents(w: World, ticks: seq<TickEnv>, i: nat, binary: Binary)
    requires i <= |ticks| && w.mode == Running
    ensures From(w, TickEvents(ticks[i..]), binary).agent == TicksFrom(w.agent, ticks, i, binary)
    decreases |ticks| - i
  {
    if i < |ticks| {
      var w' := Step(w, TickEvent(ticks[i]), binary);
      assert TickEvents(ticks[i..]) == [TickEvent(ticks[i])] + TickEvents(ticks[i + 1..]);
      FromFirst(w, TickEvent(ticks[i]), TickEvents(ticks[i + 1..]), binary);
      if TickStep(w.agent, ticks[i], binary).revoked {
        IdleTicks(w', ticks[i + 1..], binary);
      } else {
        TicksAreEvents(w', ticks, i + 1, binary);
      }
    }
  }

  /** A run of the loop, from a process that has just started, is the run of its contract
      and its ticks as events; a process that finds itself dormant waits through them. */
  lemma RunIsEvents(w: World, contract: ContractEnv, ticks: seq<TickEnv>, binary: Binary)
    requires w.mode == Starting
    ensures From(w, [ContractEvent(contract)] + TickEvents(ticks), binary).agent
            == RunTicks(w.agent, contract, ticks, binary)
  {
    var w' := Step(w, ContractEvent(contract), binary);
    FromFirst(w, ContractEvent(contract), TickEvents(ticks), binary);
    if w'.mode == Running {
      assert ticks[0..] == ticks;
      TicksAreEvents(w', ticks, 0, binary);
    } else {
      IdleTicks(w', ticks, binary);
    }
  }
}
