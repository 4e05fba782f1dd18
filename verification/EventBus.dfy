/** The event bus as an object: handlers subscribe to kinds of events or to all of them. */
module EventBus {
  import opened Wrappers
  import opened Domain
  import opened Cascade

  datatype RegisterError = InvalidEventRegister

  class EventBus {
    var subscribedForEvents: map<Kind, set<HandlerId>>
    var subscribedForAll: set<HandlerId>

    constructor ()
      ensures forall kind :: Subscribed(kind) == {}
    {
      subscribedForEvents, subscribedForAll := map[], {};
    }

    /** The handlers that an event of this kind is handed to. */
    function Subscribed(kind: Kind): set<HandlerId>
      reads this
    {
      EventFuncs(subscribedForEvents, subscribedForAll, kind)
    }

    /** Adds a handler for the given kinds, or for all; asking for both is refused and changes
        nothing, asking for neither changes nothing. */
    method Subscribe(kinds: seq<Kind>, allEvent: bool, handler: HandlerId) returns (r: Result<(), RegisterError>)
      modifies this
      ensures r.Failure? <==> allEvent && kinds != []
      ensures forall kind :: Subscribed(kind) ==
                             old(Subscribed(kind)) + if r.Success? && (allEvent || kind in kinds) then {handler} else {}
    {
      if allEvent && kinds != [] {
        return Failure(InvalidEventRegister);
      }
      r := Success(());
      if allEvent {
        subscribedForAll := subscribedForAll + {handler};
      } else {
        for i := 0 to |kinds|
          invariant subscribedForAll == old(subscribedForAll)
          invariant forall kind :: Subscribed(kind) == old(Subscribed(kind)) + if kind in kinds[..i] then {handler} else {}
        {
          var k := kinds[i];
          assert kinds[..i + 1] == kinds[..i] + [k];
          subscribedForEvents := subscribedForEvents[k := (if k in subscribedForEvents then subscribedForEvents[k] else {}) + {handler}];
        }
        assert kinds[..|kinds|] == kinds;
      }
    }

    method DeregisterAllEvents()
      modifies this
      ensures forall kind :: Subscribed(kind) == {}
    {
      subscribedForEvents, subscribedForAll := map[], {};
    }
  }
}
