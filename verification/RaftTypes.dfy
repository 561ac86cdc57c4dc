/** The records exchanged and stored by the Raft package, with the numbering the
    wire format uses: message types and entry types are plain integers.
    Terms and indexes are unbounded integers; 64-bit overflow is not modelled here. */
module RaftTypes {

  newtype byte = x: int | 0 <= x < 0x100

  type Bytes = seq<byte>

  // The id of no node.
  const NONE: int := 0

  const ENTRY_NORMAL: int := 0
  const ENTRY_CONF_CHANGE: int := 1

  const MSG_HUP: int := 0
  const MSG_BEAT: int := 1
  const MSG_PROP: int := 2
  const MSG_APP: int := 3
  const MSG_APP_RESP: int := 4
  const MSG_VOTE: int := 5
  const MSG_VOTE_RESP: int := 6
  const MSG_SNAP: int := 7

  datatype Entry = Entry(typ: int, term: int, index: int, data: Bytes)

  // The slot every fresh log starts with; it only serves to match (0, 0).
  const DUMMY_ENTRY: Entry := Entry(ENTRY_NORMAL, 0, 0, [])

  datatype Snapshot = Snapshot(data: Bytes, nodes: seq<int>, index: int, term: int)

  const EMPTY_SNAPSHOT: Snapshot := Snapshot([], [], 0, 0)

  datatype Message = Message(
    typ: int, to: int, from: int, term: int, logTerm: int, index: int,
    entries: seq<Entry>, commit: int, snapshot: Snapshot, denied: bool)

  // A message with every field at its zero value except type and recipient.
  function Blank(typ: int, to: int): Message {
    Message(typ, to, NONE, 0, 0, 0, [], 0, EMPTY_SNAPSHOT, false)
  }

  datatype HardState = HardState(term: int, vote: int, commit: int)

  const EMPTY_HARD_STATE: HardState := HardState(0, 0, 0)

  function Min(a: int, b: int): int { if a > b then b else a }

  function Max(a: int, b: int): int { if a > b then a else b }
}
