/** Message ids and ack routing (Network/messagehandler/receivers.go, config/config.go) in 64-bit unsigned
    arithmetic: each message type owns one partition of the id space. */
module MessageIds {
  import opened Wrappers

  type uint64 = x: int | 0 <= x < 0x1_0000_0000_0000_0000

  function Wrap(x: int): uint64 {
    x % 0x1_0000_0000_0000_0000
  }

  /** 2 << 60. */
  const PARTITION_SIZE: uint64 := 0x2000_0000_0000_0000

  datatype MessageType = NewHallAssignment | HallLightUpdate | ConnectionReq | HallAssignmentComplete

  function Code(t: MessageType): uint64 {
    match t
    case NewHallAssignment => 0
    case HallLightUpdate => 1
    case ConnectionReq => 2
    case HallAssignmentComplete => 3
  }

  /** The id generated for a message type code and a random draw; no id for an unknown code. */
  function GenerateMessageID(partition: uint64, draw: uint64): Option<uint64>
    requires draw < PARTITION_SIZE
  {
    if partition > Code(HallAssignmentComplete) then None
    else Some(Wrap(draw + Wrap(PARTITION_SIZE * partition)))
  }

  /** The channel the ack distributor forwards an ack to; ids above all partitions are dropped. */
  function Route(id: uint64): Option<MessageType> {
    if id < Wrap(PARTITION_SIZE * Wrap(Code(NewHallAssignment) + 1)) then Some(NewHallAssignment)
    else if id < Wrap(PARTITION_SIZE * Wrap(Code(HallLightUpdate) + 1)) then Some(HallLightUpdate)
    else if id < Wrap(PARTITION_SIZE * Wrap(Code(ConnectionReq) + 1)) then Some(ConnectionReq)
    else if id < Wrap(PARTITION_SIZE * Wrap(Code(HallAssignmentComplete) + 1)) then Some(HallAssignmentComplete)
    else None
  }

  /** Generation never wraps: the id is the draw above the start of the type's partition. */
  lemma GenerationDoesNotOverflow(t: MessageType, draw: uint64)
    requires draw < PARTITION_SIZE
    ensures GenerateMessageID(Code(t), draw) == Some(PARTITION_SIZE * Code(t) + draw)
  {}

  /** Some random draw makes id the id of a message of type t. */
  ghost predicate Generates(t: MessageType, id: uint64) {
    exists draw: uint64 :: draw < PARTITION_SIZE && GenerateMessageID(Code(t), draw) == Some(id)
  }

  /** The distributor sends an id to the channel of type t exactly when some draw generates it for t, so the
      ranges of different types are disjoint, every ack reaches its own transmitter and no other ack does. */
  lemma RoutingInvertsGeneration(t: MessageType, id: uint64)
    ensures Route(id) == Some(t) <==> Generates(t, id)
  {
    if Route(id) == Some(t) {
      var draw: uint64 := id - PARTITION_SIZE * Code(t);
      GenerationDoesNotOverflow(t, draw);
      assert GenerateMessageID(Code(t), draw) == Some(id);
    }
    forall draw: uint64 | draw < PARTITION_SIZE && GenerateMessageID(Code(t), draw) == Some(id)
      ensures Route(id) == Some(t)
    {
      GenerationDoesNotOverflow(t, draw);
    }
  }

  /** Different draws give different ids, whatever the types. */
  lemma GenerationIsInjective(t: MessageType, draw: uint64, u: MessageType, other: uint64)
    requires draw < PARTITION_SIZE && other < PARTITION_SIZE
    requires GenerateMessageID(Code(t), draw) == GenerateMessageID(Code(u), other)
    ensures t == u && draw == other
  {
    GenerationDoesNotOverflow(t, draw);
    GenerationDoesNotOverflow(u, other);
  }

  /** 0 is an id only a hall assignment can get; a completion id is never 0. */
  lemma OnlyAssignmentsGetIdZero(t: MessageType)
    ensures Generates(t, 0) <==> t == NewHallAssignment
  {
    RoutingInvertsGeneration(t, 0);
  }

  /** The whole partition table: four ranges of 2 ** 61 ids each fill the lower half of the id space. */
  lemma PartitionTable(id: uint64)
    ensures Route(id) == Some(NewHallAssignment) <==> id < 0x2000_0000_0000_0000
    ensures Route(id) == Some(HallLightUpdate) <==> 0x2000_0000_0000_0000 <= id < 0x4000_0000_0000_0000
    ensures Route(id) == Some(ConnectionReq) <==> 0x4000_0000_0000_0000 <= id < 0x6000_0000_0000_0000
    ensures Route(id) == Some(HallAssignmentComplete) <==> 0x6000_0000_0000_0000 <= id < 0x8000_0000_0000_0000
    ensures Route(id) == None <==> 0x8000_0000_0000_0000 <= id
  {}

  /** Every type has a code and no other code has ids. */
  lemma OnlyTypesHaveIds(partition: uint64, draw: uint64)
    requires draw < PARTITION_SIZE
    ensures GenerateMessageID(partition, draw).Some? <==> exists t :: Code(t) == partition
    ensures partition >= 4 <==> forall t :: Code(t) != partition
  {
    assert partition == 0 ==> Code(NewHallAssignment) == partition;
    assert partition == 1 ==> Code(HallLightUpdate) == partition;
    assert partition == 2 ==> Code(ConnectionReq) == partition;
    assert partition == 3 ==> Code(HallAssignmentComplete) == partition;
  }
}
