/**
 * One call of `asyncModal` in index.tsx: its emitter, the `let v` the ok
 * path assigns, the promise it returns and the dialog's destroy calls.
 * The steps are the `ok` and `cancel` closures (the dialog's buttons) and
 * the content's own `on` and `emit` on the emitter it is handed.
 */
module AsyncModal {
  import opened Wrappers
  import opened EventNames
  import opened EmitterSpec
  import opened EventBus
  import opened ModalSpec

  class Invocation {
    /** The props after defaulting. */
    const settings: Settings
    /** The `className` the dialog is opened with. */
    const className: string
    const onOk: Option<Value -> Reply>
    const onCancel: Option<Reply>
    /** The invocation's own emitter, shared with the content. */
    const bus: Emitter
    /** `let v`: the value the ok path submits. */
    var v: Value
    /** The promise `asyncModal` returned. */
    var settlement: Settlement
    /** How often `modal.destroy()` was called. */
    var destroyed: nat

    ghost predicate Valid()
      reads bus
    {
      bus.Valid() && Wiring(bus.events)
    }

    /**
     * `asyncModal(component, props)`: the props are defaulted, a new
     * emitter is made, and the `submit` and `close` listeners are the first
     * ones registered on it.
     */
    constructor (props: Props)
      ensures Valid() && fresh(bus)
      ensures settings == Defaults(props) && className == ClassName(Defaults(props).className)
      ensures onOk == props.onOk && onCancel == props.onCancel
      ensures bus.events == Wired
      ensures v == Undefined && settlement == Pending && destroyed == 0
    {
      settings := Defaults(props);
      className := ClassName(Defaults(props).className);
      onOk := props.onOk;
      onCancel := props.onCancel;
      var e := NewWired();
      bus := e;
      v := Undefined;
      settlement := Pending;
      destroyed := 0;
      WiredWiring();
    }

    /** The content's `emitter.on(name, handler)`. */
    method ContentOn(name: EventName, id: nat)
      requires Valid() && !Terminal(id)
      modifies bus
      ensures Valid()
      ensures bus.events == Register(old(bus.events), MultiName(name), Fn(id))
    {
      WiringRegister(bus.events, MultiName(name), id);
      bus.On(name, Fn(id));
    }

    /**
     * `emitter.emit(name, arg)`, from the content or from the closures. The
     * listeners answer as `reply` says, the invocation's own two return
     * `undefined`, and each call of those settles the promise (first call
     * wins) and destroys the dialog.
     */
    method Emit(name: EventName, arg: Value, reply: nat -> Reply) returns (outcome: Outcome)
      requires Valid()
      modifies this, bus
      ensures Valid() && bus.events == old(bus.events) && v == old(v)
      ensures outcome == Settle(EmitRun(old(bus.events), name, Respond(reply)))
      ensures settlement == Fire(old(settlement), EmitRun(old(bus.events), name, Respond(reply)).calls, arg)
      ensures destroyed == old(destroyed) + Terminals(EmitRun(old(bus.events), name, Respond(reply)).calls)
    {
      EmitKeepsWiring(bus.events, name, Respond(reply));
      var calls;
      outcome, calls := bus.Emit(name, Respond(reply));
      settlement := Fire(settlement, calls, arg);
      destroyed := destroyed + Terminals(calls);
    }

    /**
     * The `ok` closure: `v` is the first result of the `ok` emit, `onOk`
     * replaces it when given, and `submit` is emitted with it. A failing
     * `ok` handler or `onOk` stops the path before `submit`: the dialog
     * stays open, and `v` keeps the first result when only `onOk` failed.
     * `reached` says whether `submit` was emitted.
     */
    method OkPressed(okReply: nat -> Reply, submitReply: nat -> Reply) returns (reached: bool)
      requires Valid()
      modifies this, bus
      ensures Valid() && bus.events == old(bus.events)
      ensures var ok := Settle(EmitRun(old(bus.events), OkName, Respond(okReply)));
        var value := OkValue(ok, onOk);
        && reached == value.Some?
        && (reached ==> v == value.value)
        && (!reached ==> v == if ok.Resolved? then First(ok.values) else old(v))
        && settlement == (if reached then SettleOnce(old(settlement), Settlement.Resolved(value.value)) else old(settlement))
        && destroyed == old(destroyed) + (if reached then 1 else 0)
    {
      var ok := EmitOk(okReply);
      reached := false;
      if ok.Resolved? {
        var value := First(ok.values);
        v := value;
        if onOk.Some? {
          var r := onOk.value(value);
          if !r.Return? {
            return;
          }
          value := r.v;
          v := value;
        }
        Submit(value, submitReply);
        reached := true;
      }
    }

    /** `await emitter.emit('ok')` of the `ok` closure: the promise stays as it is and the dialog open. */
    method EmitOk(reply: nat -> Reply) returns (ok: Outcome)
      requires Valid()
      modifies this, bus
      ensures Valid() && bus.events == old(bus.events) && v == old(v)
      ensures settlement == old(settlement) && destroyed == old(destroyed)
      ensures ok == Settle(EmitRun(old(bus.events), OkName, Respond(reply)))
    {
      OkQuiet(bus.events, settlement, Undefined, reply);
      ok := Emit(OkName, Undefined, reply);
    }

    /**
     * The `cancel` closure: the `cancel` emit, then `onCancel` when given,
     * then the `close` emit, which rejects the promise. A failing `cancel`
     * handler or `onCancel` stops it. `reached` says whether `close` was
     * emitted.
     */
    method CancelPressed(cancelReply: nat -> Reply, closeReply: nat -> Reply) returns (reached: bool)
      requires Valid()
      modifies this, bus
      ensures Valid() && bus.events == old(bus.events) && v == old(v)
      ensures reached == CancelGoesOn(Settle(EmitRun(old(bus.events), CancelName, Respond(cancelReply))), onCancel)
      ensures settlement == (if reached then SettleOnce(old(settlement), Settlement.Rejected) else old(settlement))
      ensures destroyed == old(destroyed) + (if reached then 1 else 0)
    {
      var cancel := EmitCancel(cancelReply);
      reached := false;
      if cancel.Resolved? {
        if onCancel.Some? && !onCancel.value.Return? {
          return;
        }
        Close(closeReply);
        reached := true;
      }
    }

    /** `await emitter.emit('cancel')` of the `cancel` closure: the promise stays as it is and the dialog open. */
    method EmitCancel(reply: nat -> Reply) returns (cancel: Outcome)
      requires Valid()
      modifies this, bus
      ensures Valid() && bus.events == old(bus.events) && v == old(v)
      ensures settlement == old(settlement) && destroyed == old(destroyed)
      ensures cancel == Settle(EmitRun(old(bus.events), CancelName, Respond(reply)))
    {
      CancelQuiet(bus.events, settlement, Undefined, reply);
      cancel := Emit(CancelName, Undefined, reply);
    }

    /** The content's `emitter.emit('submit', value)`: resolves the promise unless it is settled already. */
    method Submit(value: Value, reply: nat -> Reply)
      requires Valid()
      modifies this, bus
      ensures Valid() && bus.events == old(bus.events) && v == old(v)
      ensures settlement == SettleOnce(old(settlement), Settlement.Resolved(value))
      ensures destroyed == old(destroyed) + 1
    {
      SubmitSettles(bus.events, settlement, value, reply);
      var _ := Emit(SubmitName, value, reply);
    }

    /** The content's `emitter.emit('close')`: rejects the promise unless it is settled already. */
    method Close(reply: nat -> Reply)
      requires Valid()
      modifies this, bus
      ensures Valid() && bus.events == old(bus.events) && v == old(v)
      ensures settlement == SettleOnce(old(settlement), Settlement.Rejected)
      ensures destroyed == old(destroyed) + 1
    {
      CloseSettles(bus.events, settlement, Undefined, reply);
      var _ := Emit(CloseName, Undefined, reply);
    }
  }

  /** `new Emitter()` followed by the `submit` and `close` registrations of index.tsx:139-147. */
  method NewWired() returns (e: Emitter)
    ensures fresh(e) && e.Valid() && e.events == Wired
  {
    e := new Emitter();
    SubmitToken();
    CloseToken();
    e.On(SubmitName, Fn(SubmitId));
    e.On(CloseName, Fn(CloseId));
    RegisterWired();
  }
}
