/** The owner lock for the host's shell slots (`try_acquire` and its guard). */
module ShellChannel {

  datatype Kind = Exec | Interactive

  datatype Channel = Channel(execRefs: nat, interactive: bool)

  /** Consoles never share; a host with one slot also keeps the two kinds apart. */
  predicate Grants(c: Channel, kind: Kind, dual: bool) {
    match kind
    case Interactive => !c.interactive && (dual || c.execRefs == 0)
    case Exec => dual || !c.interactive
  }

  function Acquired(c: Channel, kind: Kind): Channel {
    match kind
    case Interactive => c.(interactive := true)
    case Exec => c.(execRefs := c.execRefs + 1)
  }

  function Released(c: Channel, kind: Kind): Channel {
    match kind
    case Interactive => c.(interactive := false)
    case Exec => c.(execRefs := if c.execRefs == 0 then 0 else c.execRefs - 1)
  }

  class SharedShellOwner {
    var execRefs: nat
    var interactive: bool

    ghost function View(): Channel
      reads this
    {
      Channel(execRefs, interactive)
    }

    constructor ()
      ensures View() == Channel(0, false)
    {
      execRefs, interactive := 0, false;
    }

    method TryAcquire(kind: Kind, dual: bool) returns (granted: bool)
      modifies this
      ensures granted == Grants(old(View()), kind, dual)
      ensures View() == if granted then Acquired(old(View()), kind) else old(View())
    {
      match kind {
        case Interactive =>
          if interactive || (!dual && execRefs > 0) {
            return false;
          }
          interactive := true;
        case Exec =>
          if !dual && interactive {
            return false;
          }
          execRefs := execRefs + 1;
      }
      granted := true;
    }

    method DropGuard(kind: Kind)
      modifies this
      ensures View() == Released(old(View()), kind)
    {
      match kind
      case Exec => execRefs := if execRefs == 0 then 0 else execRefs - 1;
      case Interactive => interactive := false;
    }
  }
}
