/** The pieces of the DOM wrapper the options page relies on: unpacking
    JavaScript callback arguments, and the dialog wrapper's fallback for
    hosts whose dialog element has no `showModal` or `close`. */
module Dom {
  import opened Wrappers

  /** A JavaScript value, as far as this model needs one: `undefined`, or
      some other value known by a handle. */
  datatype JsValue = Undefined | Value(handle: nat)

  /** ExpandArgs: copy the arguments into the targets, one each; targets
      beyond the last argument become `undefined`, arguments beyond the
      last target are dropped. The targets are the cells of `target`. */
  method ExpandArgs(args: seq<JsValue>, target: array<JsValue>)
    modifies target
    ensures forall i :: 0 <= i < target.Length && i < |args| ==> target[i] == args[i]
    ensures forall i :: |args| <= i < target.Length ==> target[i] == Undefined
  {
    var i := 0;
    while i < |args| && i < target.Length
      invariant 0 <= i <= |args| && i <= target.Length
      invariant forall k :: 0 <= k < i ==> target[k] == args[k]
    {
      target[i] := args[i];
      i := i + 1;
    }
    i := |args|;
    while i < target.Length
      invariant |args| <= i
      invariant forall k :: 0 <= k < target.Length && k < |args| ==> target[k] == args[k]
      invariant forall k :: |args| <= k < i && k < target.Length ==> target[k] == Undefined
    {
      target[i] := Undefined;
      i := i + 1;
    }
  }

  /** SingleArg: the first argument, or `undefined` when there is none. */
  method SingleArg(args: seq<JsValue>) returns (val: JsValue)
    ensures val == if |args| > 0 then args[0] else Undefined
  {
    var cell := new JsValue[1](_ => Undefined);
    ExpandArgs(args, cell);
    val := cell[0];
  }

  /** A Go callback registered with a dialog. */
  datatype Handler = Handler(id: nat)

  /** A call of a registered callback, with the event value it received. */
  datatype Invocation = Invocation(handler: Handler, event: JsValue)

  /** What the wrapper asks of the host dialog element. */
  datatype HostCall = CallShowModal | CallClose | AddCloseListener(handler: Handler)

  class Dialog {
    /** Whether the host element has `showModal` and `close`. */
    const showModalSupported: bool
    const closeSupported: bool
    /** The close handler kept for hosts without `close`. */
    var simOnClose: Option<Handler>
    /** Calls made into the host element. */
    var hostCalls: seq<HostCall>
    /** Callbacks the wrapper itself has invoked. */
    var invoked: seq<Invocation>
    /** Messages written to the console. */
    var console: seq<string>

    /** NewDialog: no close handler stored, nothing done yet. */
    constructor (hasShowModal: bool, hasClose: bool)
      ensures showModalSupported == hasShowModal && closeSupported == hasClose
      ensures simOnClose == None && hostCalls == [] && invoked == [] && console == []
    {
      showModalSupported, closeSupported := hasShowModal, hasClose;
      simOnClose := None;
      hostCalls, invoked, console := [], [], [];
    }

    /** ShowModal: on a host without `showModal`, only log; otherwise call it. */
    method ShowModal()
      modifies this`hostCalls, this`console
      ensures !showModalSupported ==>
        hostCalls == old(hostCalls) && console == old(console) + ["showModal() not found"]
      ensures showModalSupported ==>
        hostCalls == old(hostCalls) + [CallShowModal] && console == old(console)
    {
      if !showModalSupported {
        console := console + ["showModal() not found"];
        return;
      }
      hostCalls := hostCalls + [CallShowModal];
    }

    /** Close: on a host without `close`, log and fire the stored close
        handler, if any, with an `undefined` event, keeping it stored;
        otherwise call the host's `close`. */
    method Close()
      modifies this`hostCalls, this`invoked, this`console
      ensures !closeSupported ==>
        && hostCalls == old(hostCalls)
        && console == old(console) + ["close() not found"]
        && invoked == old(invoked) + (if simOnClose.Some? then [Invocation(simOnClose.value, Undefined)] else [])
      ensures closeSupported ==>
        hostCalls == old(hostCalls) + [CallClose] && invoked == old(invoked) && console == old(console)
    {
      if !closeSupported {
        console := console + ["close() not found"];
        if simOnClose.Some? {
          var ev := SingleArg([]);
          invoked := invoked + [Invocation(simOnClose.value, ev)];
        }
        return;
      }
      hostCalls := hostCalls + [CallClose];
    }

    /** OnClose: on a host without `close`, store the handler, or fail when
        one is already stored; otherwise add it as a host close listener. */
    method OnClose(callback: Handler) returns (r: Result<()>)
      modifies this`simOnClose, this`hostCalls
      ensures !closeSupported && old(simOnClose).Some? ==>
        && r == Err("Multiple simulated OnClose handlers not supported")
        && simOnClose == old(simOnClose) && hostCalls == old(hostCalls)
      ensures !closeSupported && old(simOnClose).None? ==>
        r == Ok(()) && simOnClose == Some(callback) && hostCalls == old(hostCalls)
      ensures closeSupported ==>
        && r == Ok(())
        && simOnClose == old(simOnClose) && hostCalls == old(hostCalls) + [AddCloseListener(callback)]
    {
      if !closeSupported {
        if simOnClose.Some? {
          return Err("Multiple simulated OnClose handlers not supported");
        }
        simOnClose := Some(callback);
        return Ok(());
      }
      hostCalls := hostCalls + [AddCloseListener(callback)];
      r := Ok(());
    }
  }

  /** On a host without `close`, a stored close handler fires on every
      close, since closing does not clear it, and a second registration
      fails. */
  method SimulatedCloseFiresEachTime(h: Handler, other: Handler) returns (d: Dialog, second: Result<()>)
    ensures d.invoked == [Invocation(h, Undefined), Invocation(h, Undefined)]
    ensures second.Err? && d.simOnClose == Some(h)
  {
    d := new Dialog(false, false);
    var first := d.OnClose(h);
    d.Close();
    d.Close();
    second := d.OnClose(other);
  }
}
