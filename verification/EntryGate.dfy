/** The fail-closed gate of bot/durable_execution.py in front of new entries. */
module EntryGate {

  class Gate {
    var errors: set<string>
    var stateOk: bool
    var entriesPaused: bool
    var dailyPnlOk: bool

    constructor ()
      ensures Valid() && errors == {} && !entriesPaused && dailyPnlOk
    {
      errors, stateOk, entriesPaused, dailyPnlOk := {}, true, false, true;
    }

    ghost predicate Valid()
      reads this
    {
      stateOk <==> errors == {}
    }

    method Block(reason: string)
      requires Valid()
      modifies this`errors, this`stateOk
      ensures Valid() && errors == old(errors) + {reason} && !stateOk
    {
      errors := errors + {reason};
      stateOk := false;
    }

    method Clear(reason: string)
      requires Valid()
      modifies this`errors, this`stateOk
      ensures Valid() && errors == old(errors) - {reason}
    {
      errors := errors - {reason};
      stateOk := errors == {};
    }

    /** `can_open` */
    predicate CanOpen(pendingPartials: set<string>)
      reads this
    {
      !entriesPaused && pendingPartials == {} && stateOk && dailyPnlOk
    }
  }

  /** New entries are possible exactly when nobody paused them, no partial exit
      is pending, no durable state is in error, and the daily ledger is sound. */
  lemma OpensExactly(g: Gate, pendingPartials: set<string>)
    requires g.Valid()
    ensures g.CanOpen(pendingPartials) <==>
              !g.entriesPaused && g.dailyPnlOk && |g.errors| == 0 && |pendingPartials| == 0
  {
  }
}
