/** Values shared by the lock parsers, the command builder and the mutation coordinator. */
module LockTypes {
  import opened Common

  const PCI_WILDCARD: nat := 65535
  const CLEAR_FREQUENCY: nat := 65535
  const PCI_MAX: nat := 503

  /** Content of the persisted lock, as the NVM parser reports it. */
  datatype LockState = LockState(enabled: bool, hasPci: bool, earfcn: nat, pci: nat, band: nat)

  datatype Cell = Cell(serving: bool, earfcn: nat, pci: nat, band: nat, rsrpDbm: int, rsrqTenthsDb: int)

  /** What the caller asked for: no lock, or a channel with or without a cell identity. */
  datatype Request = ClearLock | SetLock(earfcn: nat, pci: Option<nat>)

  predicate StateMatches(state: LockState, request: Request) {
    match request
    case ClearLock =>
      !state.enabled && state.earfcn == CLEAR_FREQUENCY && state.pci == PCI_WILDCARD
    case SetLock(earfcn, pci) =>
      && state.enabled && state.earfcn == earfcn
      && state.hasPci == pci.Some?
      && state.pci == (if pci.Some? then pci.value else PCI_WILDCARD)
  }

  predicate CellMatches(cell: Cell, request: Request) {
    request.SetLock? ==>
      cell.earfcn == request.earfcn && (request.pci.Some? ==> cell.pci == request.pci.value)
  }
}
