/** The endpoint and the connector as objects.  Connectors of several devices share one
    endpoint. */
module HttpConnector {
  import opened Common
  import opened H = HttpEpoch

  datatype Error = DeviceError | DeviceRemoved
  datatype Rv = Success | Failure(error: Error)

  class Endpoint {
    const url: seq<char>
    var agent: bool
    var epoch: nat
    ghost var history: Trace

    /** The endpoint's counter is the number of disconnects in its history. */
    ghost predicate Valid()
      reads this
    {
      epoch == Disconnects(history)
    }

    constructor (url: seq<char>)
      ensures Valid() && this.url == url && !agent && history == Start
    {
      this.url, agent, epoch, history := url, false, 0, Start;
    }

    method InstallHttpAgent()
      modifies `agent
      ensures agent
    {
      agent := true;
    }

    method LoseAgent()
      requires Valid()
      modifies this
      ensures Valid() && !agent
      ensures history == if old(agent) then Then(old(history), Disconnected) else old(history)
    {
      if agent {
        agent := false;
        epoch, history := epoch + 1, Then(history, Disconnected);
      }
    }
  }

  class Device {
    const endpoint: Endpoint
    const serial: seq<char>
    var generation: nat
    var version: Version
    var present: bool
    var epoch: nat
    ghost var history: Trace

    ghost function View(): State
      reads this, endpoint
    {
      State(endpoint.agent, endpoint.epoch, generation, version, present, epoch, 0, history)
    }

    /** The device's counter is the number of generation changes and absences, and its
        version is the one set since the last generation change. */
    ghost predicate Valid()
      reads this, endpoint
    {
      endpoint.Valid() && epoch == Changes(history) && version == Reported(history)
    }

    constructor (endpoint: Endpoint, serial: seq<char>, generation: nat, present: bool)
      requires endpoint.Valid()
      ensures Valid() && this.endpoint == endpoint && this.serial == serial
      ensures View() == State(endpoint.agent, endpoint.epoch, generation, UNKNOWN, present, 0, 0, Start)
    {
      this.endpoint, this.serial, this.generation, this.present := endpoint, serial, generation, present;
      version, epoch, history := UNKNOWN, 0, Start;
    }

    /** The epoch counts everything that happened to the endpoint and to the device, so two
        calls agree exactly when nothing was added. */
    method ConnectionEpoch() returns (e: nat)
      requires Valid()
      ensures e == Disconnects(endpoint.history) + Changes(history)
    {
      e := endpoint.epoch + epoch;
    }

    /** A version is reported exactly when it was set and no generation changed since. */
    method FirmwareVersion() returns (v: Option<Version>)
      requires Valid()
      ensures forall w | w != UNKNOWN :: v == Some(w) <==> SetSinceChange(history, w)
      ensures v != Some(UNKNOWN)
    {
      v := if version != UNKNOWN then Some(version) else None;
      forall w | w != UNKNOWN ensures v == Some(w) <==> SetSinceChange(history, w) {
        ReportedExactly(history, w);
      }
    }

    method Disconnect()
      requires Valid()
      modifies endpoint
      ensures Valid() && View() == MarkDisconnected(old(View())).(trace := history)
      ensures endpoint.history ==
              if old(endpoint.agent) then Then(old(endpoint.history), Disconnected) else old(endpoint.history)
    {
      endpoint.LoseAgent();
    }

    method SetDeviceInfoVersion(v: Version)
      requires Valid()
      modifies this
      ensures Valid() && View() == SetVersion(old(View()), v)
    {
      version, history := v, Then(history, VersionSet(v));
    }

    method AdoptStatus(serial: seq<char>, generation: nat) returns (rv: Rv)
      requires Valid()
      modifies this
      ensures Valid() && rv == if serial == this.serial then Success else Failure(DeviceError)
      ensures View() == if rv.Success? then ApplyStatus(old(View()), generation) else old(View())
    {
      if serial != this.serial { return Failure(DeviceError); }
      if this.generation != generation {
        this.generation := generation;
        version, history := UNKNOWN, Then(history, GenerationChanged(generation));
        epoch := epoch + 1;
      }
      rv := Success;
    }

    method LoseDiscovery()
      requires Valid()
      modifies this
      ensures Valid() && View() == MarkDiscoveryAbsent(old(View()))
    {
      if present {
        present := false;
        epoch, history := epoch + 1, Then(history, DiscoveredAbsent);
      }
    }

    method AdoptDiscovered(discovered: Device) returns (rv: Rv)
      requires Valid()
      modifies this
      ensures Valid()
      ensures rv == if endpoint.url != discovered.endpoint.url || serial != discovered.serial
                       || endpoint != discovered.endpoint then Failure(DeviceError)
                    else if !old(discovered.present) || !endpoint.agent then Failure(DeviceRemoved)
                    else Success
      ensures View() == if rv.Success? then Discovered(old(View()), old(discovered.generation)) else old(View())
    {
      if endpoint.url != discovered.endpoint.url || serial != discovered.serial { return Failure(DeviceError); }
      if endpoint != discovered.endpoint { return Failure(DeviceError); }
      if !discovered.present || !discovered.endpoint.agent { return Failure(DeviceRemoved); }
      var g := discovered.generation;
      var changed := generation != g;
      present := true;
      if changed {
        generation := g;
        version, history := UNKNOWN, Then(history, GenerationChanged(g));
      }
      if changed { epoch := epoch + 1; }
      rv := Success;
    }
  }
}
