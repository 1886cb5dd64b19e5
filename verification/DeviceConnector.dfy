/** The serial-owned device as an object, with the calls its reader receives, and the
    guard that brackets an operation. */
module DeviceConnector {
  import opened Common
  import opened B = DeviceBinding

  datatype Calls = Calls(binding: Binding, trace: Trace)

  function Begun(c: Calls, transport: Rv): (Calls, Rv) {
    if !c.binding.present then (c, Success)
    else
      var (claimed, reader) := Claim(c.binding);
      if reader.Err? then (c, Failure(reader.error))
      else if transport.Failure? then (c.(binding := Unclaim(claimed)), transport)
      else (Calls(claimed, Then(c.trace, Begin(reader.value))), Success)
  }

  function Finished(c: Calls): Calls {
    Calls(Unclaim(c.binding), if c.binding.active.Some? then Then(c.trace, End(c.binding.active.value)) else c.trace)
  }

  class CcidDevice {
    const serial: Serial
    var current: ReaderId
    var active: Option<ReaderId>
    var observed: nat
    var mismatched: Option<Serial>
    var inventoryPresent: bool
    var epoch: nat
    var trace: Trace

    function View(): Calls
      reads this
    {
      Calls(Binding(serial, current, active, observed, mismatched, inventoryPresent, epoch), trace)
    }

    constructor (serial: Serial, reader: ReaderId, generation: nat)
      ensures View() == Calls(Bound(serial, reader, generation), Start)
    {
      this.serial := serial;
      current, active, observed := reader, None, generation;
      mismatched, inventoryPresent, epoch := None, true, 0;
      trace := Start;
    }

    method BindReader(reader: ReaderId, generation: nat) returns (rv: Rv)
      modifies this
      ensures (View().binding, rv) == ApplyReader(old(View().binding), reader, generation)
      ensures trace == old(trace)
    {
      if active.Some? { return Failure(OperationActive); }
      observed, current, mismatched := generation, reader, None;
      inventoryPresent := true;
      epoch := epoch + 1;
      rv := Success;
    }

    method MarkInventoryAbsent()
      modifies `inventoryPresent
      ensures View().binding == old(View().binding).(present := false)
    {
      inventoryPresent := false;
    }

    method MarkInventoryPresent()
      modifies `inventoryPresent
      ensures View().binding == old(View().binding).(present := true)
    {
      inventoryPresent := true;
    }

    method TakeMismatchedSerial() returns (taken: Option<Serial>)
      modifies `mismatched
      ensures taken == old(mismatched) && View().binding == old(View().binding).(mismatched := None)
    {
      taken, mismatched := mismatched, None;
    }

    method SelectedConnector() returns (reader: ReaderId)
      ensures reader == Selected(View().binding)
    {
      reader := if active.Some? then active.value else current;
    }

    method BeginOperation(transport: Rv) returns (rv: Rv)
      modifies this
      ensures (View(), rv) == Begun(old(View()), transport)
    {
      if !inventoryPresent { return Success; }
      if active.Some? { return Failure(OperationActive); }
      var reader := current;
      active := Some(reader);
      if transport.Failure? {
        active := None;
        return transport;
      }
      trace := Then(trace, Begin(reader));
      rv := Success;
    }

    method EndOperation()
      modifies this
      ensures View() == Finished(old(View()))
    {
      var taken := active;
      active := None;
      if taken.Some? { trace := Then(trace, End(taken.value)); }
    }

    method RefreshCurrent(reply: Reply) returns (rv: Rv)
      modifies this
      ensures (View().binding, rv) == Refresh(old(View().binding), reply)
      ensures trace == old(trace)
    {
      if !inventoryPresent { return Failure(TokenNotPresent); }
      if reply.answer.Failure? { return reply.answer; }
      if reply.generation == observed { return Success; }
      if reply.identity.Err? {
        inventoryPresent := false;
        return Failure(reply.identity.error);
      }
      if reply.identity.value != serial {
        mismatched := Some(reply.identity.value);
        inventoryPresent := false;
        return Failure(DeviceRemoved);
      }
      observed := reply.generation;
      epoch := epoch + 1;
      rv := Success;
    }
  }

  datatype Kind = HidOperation | CcidOperation

  /** The gate of one device: any number of HID guards or one CCID guard. */
  class Gate {
    const device: CcidDevice
    var hid: nat
    var ccid: bool

    constructor (device: CcidDevice)
      ensures this.device == device && hid == 0 && !ccid
    {
      this.device, hid, ccid := device, 0, false;
    }

    /** The lock blocks until the guard can be granted. */
    predicate Grants(kind: Kind)
      reads this
    {
      if kind.HidOperation? then !ccid else !ccid && hid == 0
    }

    method LockOperation(kind: Kind, transport: Rv) returns (rv: Rv)
      requires Grants(kind)
      modifies this, device
      ensures kind.HidOperation? ==>
                rv.Success? && hid == old(hid) + 1 && ccid == old(ccid) && device.View() == old(device.View())
      ensures kind.CcidOperation? ==> (device.View(), rv) == Begun(old(device.View()), transport)
      ensures kind.CcidOperation? ==> hid == old(hid) && ccid == rv.Success?
    {
      if kind.HidOperation? {
        hid := hid + 1;
        return Success;
      }
      ccid := true;
      rv := device.BeginOperation(transport);
      if rv.Failure? { ccid := false; }
    }

    /** Dropping a guard ends the operation before the lock is released. */
    method DropGuard(kind: Kind)
      requires if kind.HidOperation? then hid > 0 else ccid
      modifies this, device
      ensures kind.HidOperation? ==> hid == old(hid) - 1 && ccid == old(ccid) && device.View() == old(device.View())
      ensures kind.CcidOperation? ==> hid == old(hid) && !ccid && device.View() == Finished(old(device.View()))
    {
      if kind.HidOperation? {
        hid := hid - 1;
      } else {
        device.EndOperation();
        ccid := false;
      }
    }
  }

  /** A guard that was granted and dropped leaves the binding as it was, and adds a
      begin and an end on the same reader, or nothing when the route was absent. */
  lemma BeginThenEnd(c: Calls, transport: Rv)
    requires c.binding.active.None?
    ensures var (begun, rv) := Begun(c, transport);
            && (rv.Failure? ==> begun == c)
            && (rv.Success? ==>
                  Finished(begun) == if c.binding.present
                  then c.(trace := Then(Then(c.trace, Begin(c.binding.current)), End(c.binding.current))) else c)
  {
  }

  /** Beginning in one call is what the separate steps of a thread in the gate do. */
  lemma BegunBySteps(w: World, s: State, t: Thread, transport: Rv)
    requires In(s, t, Locked) && s.binding.active.None?
    ensures var (begun, rv) := Begun(Calls(s.binding, s.trace), transport);
            var checked := Step(w, s, CheckInventory(t)).0;
            if !s.binding.present
            then In(checked, t, Inside) && rv.Success? && begun == Calls(checked.binding, checked.trace)
            else
              && In(checked, t, Checked)
              && var claimed := Step(w, checked, ClaimReader(t)).0;
              && Enabled(w, claimed, BeginTransport(t, transport.Success?))
              && var entered := Step(w, claimed, BeginTransport(t, transport.Success?)).0;
              && begun == Calls(entered.binding, entered.trace)
              && (rv.Success? <==> In(entered, t, Inside))
  {
  }
}
