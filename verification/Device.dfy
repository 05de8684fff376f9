/**
  Vocabulary shared by the controller and the memory device: operations, requests, and the row automaton
  that says which operations make sense on a subarray.
*/
module Device {
  datatype Op =
    | NOP
    | ACTIVATE
    | READ
    | READ_PRECHARGE
    | WRITE
    | WRITE_PRECHARGE
    | PRECHARGE
    | PRECHARGE_ALL
    | POWERDOWN_PDA
    | POWERDOWN_PDPF
    | POWERDOWN_PDPS
    | POWERUP
    | REFRESH
    | BUS_READ
    | BUS_WRITE
    | CACHED_READ
    | CACHED_WRITE

  predicate IsRead(op: Op) { op == READ || op == READ_PRECHARGE }
  predicate IsWrite(op: Op) { op == WRITE || op == WRITE_PRECHARGE }
  predicate IsPrecharge(op: Op) { op == PRECHARGE || op == PRECHARGE_ALL }
  predicate IsPowerDown(op: Op) { op == POWERDOWN_PDA || op == POWERDOWN_PDPF || op == POWERDOWN_PDPS }

  // Operations after which the row is on its way to being closed.
  predicate Closes(op: Op) { IsPrecharge(op) || op == READ_PRECHARGE || op == WRITE_PRECHARGE }

  // The row a subarray holds; an accepted implicit precharge counts as closed.
  datatype Row = Closed | Open(row: nat)

  // ACTIVATE needs a closed subarray, a column command its own row open, REFRESH a closed subarray.
  predicate RowLegal(r: Row, op: Op, row: nat) {
    if op == ACTIVATE || op == REFRESH then r == Closed
    else if IsRead(op) || IsWrite(op) then r == Open(row)
    else true
  }

  function RowStep(r: Row, op: Op, row: nat): Row {
    if op == ACTIVATE then Open(row) else if Closes(op) then Closed else r
  }

  function Max(a: int, b: int): (m: int)
    ensures m >= a && m >= b && (m == a || m == b)
  {
    if a > b then a else b
  }
}
