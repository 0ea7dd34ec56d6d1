/**
  The records the scan engine reads and writes, and the state store that holds them.
  The store's engine is outside this model: a store here keeps the targets it holds and
  the log of `AddHost` calls it has received, in call order.
 */
module Model {

  datatype Option<T> = None | Some(value: T)

  /** Lifecycle stage of a target or host. Stages named by other scan categories are `Other`. */
  datatype Step = Imported | New | Sweeped | Other(tag: string)

  /** An address slated for processing, with the stage it has reached. */
  datatype Target = Target(address: string, step: Step)

  /** One recorded call `AddHost(address, status, step)` on the store. */
  datatype HostCall = AddHost(address: string, status: string, step: Step)

  /** One host of a parsed scan report: its liveness state and its addresses. */
  datatype ReportHost = ReportHost(state: string, addresses: seq<string>)

  /** Some stored target has this address. */
  predicate Stored(targets: seq<Target>, address: string) {
    exists i :: 0 <= i < |targets| && targets[i].address == address
  }

  /** The targets after saving `t`: the record keyed by `t.address` takes its value. */
  function SavedTargets(targets: seq<Target>, t: Target): seq<Target> {
    seq(|targets|, i requires 0 <= i < |targets| =>
      if targets[i].address == t.address then t else targets[i])
  }

  class Store {
    /** Whether a database is configured at all; when false, no record is read or written. */
    const available: bool
    /** The stored targets, in the order `GetAllTargets` returns them. */
    var targets: seq<Target>
    /** Every `AddHost` call received so far, oldest first. */
    var hostCalls: seq<HostCall>

    constructor (available: bool, targets: seq<Target>)
      ensures this.available == available
      ensures this.targets == targets && hostCalls == []
    {
      this.available := available;
      this.targets := targets;
      hostCalls := [];
    }

    /** Records the upsert of a host; what the store does with duplicates is not modelled. */
    method AddHost(address: string, status: string, step: Step)
      requires available
      modifies this
      ensures hostCalls == old(hostCalls) + [HostCall.AddHost(address, status, step)]
      ensures targets == old(targets)
    {
      hostCalls := hostCalls + [HostCall.AddHost(address, status, step)];
    }

    /** Persists a target record the store already holds. */
    method Save(t: Target)
      requires available && Stored(targets, t.address)
      modifies this
      ensures targets == SavedTargets(old(targets), t)
      ensures hostCalls == old(hostCalls)
    {
      targets := SavedTargets(targets, t);
    }
  }
}
