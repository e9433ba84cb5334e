/** The entities of the unit graph: keys, unit kinds, units and errors. */
module Units {

  /** A key of the unit arena. The arena never removes a unit, so a key is its position. */
  type UnitKey = nat

  type Pid = nat

  /** A reading of the monotonic clock, in nanoseconds. */
  type Time = nat

  datatype Option<+T> = None | Some(value: T)

  datatype Result<+T> = Ok(value: T) | Err(error: ForgeError)

  datatype ForgeError =
    | MissingUnit(unit: string, dependency: string)
    | CycleDetected
    | SpawnFailed(name: string)
    | SocketFailed(name: string)
    | NotFound(name: string)
    | NotService(name: string)
    | NotRunning(name: string)
    | InvalidOperation(name: string)

  datatype UnitState = Dead | Starting | Listening | Running | Failed | Stopping

  datatype RestartPolicy = No | OnFailure | Always

  datatype ServiceType = Simple | Forking | Oneshot | Dbus | Notify | NotifyReload

  /** What waitpid reports about a child. */
  datatype ExitStatus = Exited(code: nat) | Signaled(signal: nat) | Abnormal {
    predicate Failure() {
      (Exited? && code != 0) || Signaled?
    }

    predicate Success() {
      Exited? && code == 0
    }
  }

  /** One listening socket: the open file behind its descriptor, and its path label. */
  datatype SocketEntry = SocketEntry(file: nat, path: string)

  /** The fields of each kind that scheduling and supervision read. `needs` is the source's `requires`. */
  datatype Kind =
    | Service(after: seq<string>, needs: seq<string>, wants: seq<string>, sockets: seq<string>,
              restart: RestartPolicy, serviceType: ServiceType, runlevels: seq<string>, pid: Option<Pid>)
    | Timer(after: seq<string>)
    | Mount(after: seq<string>, mounted: bool)
    | Device(service: string, after: seq<string>, activated: bool)
    | Socket(activates: Option<string>, after: seq<string>, activation: Option<seq<SocketEntry>>)
    | Target(needs: seq<string>, wants: seq<string>)
  {
    predicate Bootable() {
      Service? || Socket? || Device? || Mount?
    }

    /** The definition without what starting and stopping units changes. */
    function Static(): Kind {
      if Service? then this.(pid := None)
      else if Mount? then this.(mounted := false)
      else if Socket? then this.(activation := None)
      else this
    }

    /** The definition as it is registered. */
    function Definition(): Kind {
      if Device? then this.(activated := false) else Static()
    }

    /** Mounted, or activated as a device: neither is ever taken back. */
    predicate Settled() {
      (Mount? && mounted) || (Device? && activated)
    }
  }

  datatype Unit = Unit(name: string, kind: Kind, state: UnitState,
                       dependencies: seq<UnitKey>, lastExit: Option<ExitStatus>)
}
