/**
 * Class `Emitter` of event-emiter.ts: a name-keyed multicast dispatcher
 * whose only state is the map `events`. Every method is proved to change
 * that map exactly as the matching function of module EmitterSpec says.
 */
module EventBus {
  import opened Wrappers
  import opened EventNames
  import opened EmitterSpec

  class Emitter {
    /** Each event name's listeners, in registration order. */
    var events: Events
    /**
     * How many wrappers `once` has built so far; the next one is numbered
     * with it, which makes every wrapper closure a distinct identity.
     */
    var created: nat

    ghost predicate Valid()
      reads this
    {
      WellFormed(events, created)
    }

    /** `new Emitter()`: an empty map. */
    constructor ()
      ensures Valid() && events == map[] && created == 0
    {
      events := map[];
      created := 0;
    }

    /**
     * `on(name, fn)`: `fn` is pushed onto the list of every split name, a
     * missing list being created first. Only `once` builds wrappers, so a
     * wrapper passed in carries a serial it already handed out.
     */
    method On(name: EventName, fn: Listener)
      requires Valid()
      requires fn.Wrapper? ==> fn.serial < created
      modifies this
      ensures Valid() && created == old(created)
      ensures events == Register(old(events), MultiName(name), fn)
    {
      var names := MultiName(name);
      RegisterWellFormed(events, created, name, fn);
      PushAll(names, fn);
    }

    /** The `names.forEach` loop of `on`: `fn` pushed onto each name's list, created when missing. */
    method PushAll(names: seq<EventName>, fn: Listener)
      modifies this
      ensures created == old(created)
      ensures events == Register(old(events), names, fn)
    {
      for i := 0 to |names|
        invariant created == old(created)
        invariant events == Register(old(events), names[..i], fn)
      {
        var n := names[i];
        RegisterStep(old(events), names, i, fn);
        if n !in events {
          events := events[n := []];
        }
        events := events[n := events[n] + [fn]];
      }
      assert names[..|names|] == names;
    }

    /**
     * `only(name, fn)`: nothing happens when the map already has the key
     * `name` itself (the unsplit name), even with an empty list; otherwise
     * it is `on(name, fn)`.
     */
    method Only(name: EventName, fn: Listener)
      requires Valid()
      requires fn.Wrapper? ==> fn.serial < created
      modifies this
      ensures Valid() && created == old(created)
      ensures events == OnlyRegister(old(events), name, fn)
    {
      if name !in events {
        On(name, fn);
      }
    }

    /**
     * `once(name, fn)`: registers a new wrapper whose `_` is `fn` and which,
     * when called, runs `off(name, wrapper)` before calling `fn`.
     */
    method Once(name: EventName, fn: Listener)
      requires Valid()
      modifies this
      ensures Valid() && created == old(created) + 1
      ensures events == Register(old(events), MultiName(name), Wrapper(old(created), name, fn))
    {
      var listener := Wrapper(created, name, fn);
      created := created + 1;
      On(name, listener);
    }

    /**
     * `off(name, fn)`. With a function: every split name's list is replaced
     * by a filtered copy, and `ok` is false when a split name has no entry
     * (the source throws there, after filtering the names before it).
     * Without one: the entries of the split names are deleted. The test of
     * `fn` is the same for every name, so it is made once, outside the loop.
     */
    method Off(name: EventName, fn: Option<Listener>) returns (ok: bool)
      requires Valid()
      modifies this
      ensures Valid() && created == old(created)
      ensures fn.None? ==> ok && events == Unregister(old(events), MultiName(name))
      ensures fn.Some? ==> events == Detach(old(events), MultiName(name), fn.value).0
      ensures fn.Some? ==> ok == Detach(old(events), MultiName(name), fn.value).1
    {
      var names := MultiName(name);
      if fn.Some? {
        ok := FilterAll(names, fn.value);
        DetachWithin(old(events), names, fn.value);
        WithinWellFormed(events, old(events), created);
      } else {
        DeleteAll(names);
        UnregisterWellFormed(old(events), names, created);
        ok := true;
      }
    }

    /** The loop of `off` with a function: each list filtered in turn, stopping where `get` finds none. */
    method FilterAll(names: seq<EventName>, fn: Listener) returns (ok: bool)
      modifies this
      ensures created == old(created)
      ensures (events, ok) == Detach(old(events), names, fn)
    {
      ok := true;
      var i := 0;
      while i < |names| && ok
        invariant 0 <= i <= |names|
        invariant created == old(created)
        invariant (events, ok) == Detach(old(events), names[..i], fn)
      {
        var n := names[i];
        assert names[..i + 1][..i] == names[..i];
        if n in events {
          events := events[n := Remove(events[n], fn)];
        } else {
          ok := false;
        }
        i := i + 1;
      }
      if ok {
        assert names[..i] == names;
      } else {
        DetachStops(old(events), names, i, fn);
      }
    }

    /** The loop of `off` without a function: each name's entry deleted. */
    method DeleteAll(names: seq<EventName>)
      modifies this
      ensures created == old(created)
      ensures events == Unregister(old(events), names)
    {
      for i := 0 to |names|
        invariant created == old(created)
        invariant events == Unregister(old(events), names[..i])
      {
        assert names[..i + 1] == names[..i] + [names[i]];
        UnregisterStep(old(events), names[..i], names[i]);
        events := events - {names[i]};
      }
      assert names[..|names|] == names;
    }

    /**
     * Calls one listener. A once wrapper first runs `off(name, wrapper)` and
     * calls its original only when that did not throw.
     */
    method Call(l: Listener, reply: nat -> Reply) returns (d: Run)
      modifies this
      ensures created == old(created)
      ensures d == Invoke(old(events), l, reply) && events == d.events
      decreases l
    {
      match l
      case Fn(id) =>
        var r := reply(id);
        d := Run(events, [id], [r], r.Throw?);
      case Wrapper(_, nm, original) =>
        var ok := FilterAll(MultiName(nm), l);
        if ok {
          d := Call(original, reply);
        } else {
          d := Run(events, [], [], true);
        }
    }

    /**
     * `emit(name, ...args)`: for each split name in turn, the list it has at
     * that moment is fetched once and every listener in it called in order;
     * `calls` are the caller's functions called, and `outcome` is what
     * `Promise.all` of their results gives, or `Threw` when a call threw.
     */
    method Emit(name: EventName, reply: nat -> Reply) returns (outcome: Outcome, calls: seq<nat>)
      requires Valid()
      modifies this
      ensures Valid() && created == old(created)
      ensures events == EmitRun(old(events), name, reply).events
      ensures calls == EmitRun(old(events), name, reply).calls
      ensures outcome == Settle(EmitRun(old(events), name, reply))
    {
      var names := MultiName(name);
      var replies, threw;
      calls, replies, threw := CallNames(names, reply);
      RunNamesShrinks(Start(old(events)), names, reply);
      WithinWellFormed(events, old(events), created);
      outcome := Settle(Run(events, calls, replies, threw));
    }

    /** The `names.forEach` loop of `emit`: each name's list is fetched when its turn comes and run. */
    method CallNames(names: seq<EventName>, reply: nat -> Reply) returns (calls: seq<nat>, replies: seq<Reply>, threw: bool)
      modifies this
      ensures created == old(created)
      ensures Run(events, calls, replies, threw) == RunNames(Start(old(events)), names, reply)
    {
      ghost var start := Start(events);
      replies, threw, calls := [], false, [];
      var i := 0;
      while i < |names| && !threw
        invariant 0 <= i <= |names|
        invariant created == old(created)
        invariant Run(events, calls, replies, threw) == RunNames(start, names[..i], reply)
      {
        var n := names[i];
        RunNamesNext(start, names, i, reply);
        if n in events {
          ghost var before := Run(events, calls, replies, threw);
          var d := CallEach(events[n], reply);
          RunListFrom(before, before.events[n], reply);
          calls, replies, threw := calls + d.calls, replies + d.replies, d.threw;
        }
        i := i + 1;
      }
      if threw {
        RunNamesStops(start, names, i, reply);
      } else {
        assert names[..i] == names;
      }
    }

    /**
     * `events.map(fn => tasks.push(fn(...args)))` over one fetched list:
     * every listener of `list` is called in order, up to a throw.
     */
    method CallEach(list: seq<Listener>, reply: nat -> Reply) returns (d: Run)
      modifies this
      ensures created == old(created)
      ensures d == RunList(Start(old(events)), list, reply) && events == d.events
    {
      d := Start(events);
      var j := 0;
      while j < |list| && !d.threw
        invariant 0 <= j <= |list|
        invariant created == old(created)
        invariant d == RunList(Start(old(events)), list[..j], reply) && events == d.events
      {
        var s := Call(list[j], reply);
        d := Then(d, s);
        assert list[..j + 1][..j] == list[..j];
        j := j + 1;
      }
      if d.threw {
        RunListStops(Start(old(events)), list, j, reply);
      } else {
        assert list[..j] == list;
      }
    }

    /** `clear()`: a new, empty map. */
    method Clear()
      modifies this
      ensures Valid() && events == map[] && created == old(created)
    {
      events := map[];
    }
  }
}
