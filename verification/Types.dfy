/** Values shared by the model of the Ethereum trigger pipeline: chain data, data
    sources with their handlers, and the small wrappers used for absent values. */
module Types {

  datatype Option<+T> = None | Some(value: T)

  // A contract address; only equality matters.
  datatype Address = Address(id: int)
  // A 32-byte word: an event signature, a topic or a block hash.
  type Hash = int
  type Byte = b: int | 0 <= b < 256
  type Selector = s: seq<Byte> | |s| == 4 witness [0, 0, 0, 0]

  // A block pointer.
  datatype Ptr = Ptr(hash: Hash, number: int)

  // `tx` is the transaction index and `index` the log index within the block.
  datatype Log = Log(number: int, address: Address, topics: seq<Hash>, tx: nat, index: nat)

  // A trace as the tracing API returns it; `failed` is its error field, `isCall` its action
  // and result kinds, `inTx` whether it has a transaction position `tx`, `txOk` the receipt
  // status of that transaction, and `rest` its sender, value, gas and output.
  datatype Trace = Trace(number: int, to: Address, input: seq<Byte>, failed: bool,
                         isCall: bool, inTx: bool, txOk: bool, tx: nat, rest: nat)

  // A call does not record its place among the traces: repeated calls may be equal.
  datatype Call = Call(number: int, to: Address, input: seq<Byte>, txOk: bool, tx: nat, rest: nat)

  datatype TopicList = AnyTopic | OneOf(allowed: seq<Hash>)

  /** `topics.get(i).is_some_and(|t| list.contains(t))`, or no list at all. */
  predicate Allows(list: TopicList, topics: seq<Hash>, i: nat) {
    list.AnyTopic? || (i < |topics| && topics[i] in list.allowed)
  }

  predicate EmptyList(list: TopicList) {
    list.OneOf? && list.allowed == []
  }

  datatype EventHandler = EventHandler(name: string, topic0: Hash, topic1: TopicList,
                                       topic2: TopicList, topic3: TopicList, receipt: bool)
  {
    predicate Matches(log: Log) {
      && |log.topics| > 0
      && log.topics[0] == topic0
      && Allows(topic1, log.topics, 1)
      && Allows(topic2, log.topics, 2)
      && Allows(topic3, log.topics, 3)
    }

    predicate HasAdditionalTopics() {
      || (topic1.OneOf? && topic1.allowed != [])
      || (topic2.OneOf? && topic2.allowed != [])
      || (topic3.OneOf? && topic3.allowed != [])
    }

    // No topic list at all: every log with this signature is wanted.
    predicate Unfiltered() {
      topic1.AnyTopic? && topic2.AnyTopic? && topic3.AnyTopic?
    }

    // Topic lists are present but every one of them is empty.
    predicate Degenerate() {
      && (topic1 == AnyTopic || topic1 == OneOf([]))
      && (topic2 == AnyTopic || topic2 == OneOf([]))
      && (topic3 == AnyTopic || topic3 == OneOf([]))
      && !(topic1 == topic2 == topic3 == AnyTopic)
    }
  }

  datatype CallHandler = CallHandler(name: string, selector: Selector)

  type Interval = n: nat | 1 <= n witness 1

  datatype BlockHandlerFilter = WithCall | Polling(every: Interval) | Once

  datatype BlockHandler = BlockHandler(name: string, filter: Option<BlockHandlerFilter>)

  datatype DataSource = DataSource(address: Option<Address>, start: int,
                                   events: seq<EventHandler>, calls: seq<CallHandler>,
                                   blocks: seq<BlockHandler>)
  {
    predicate ListensTo(a: Address) {
      address.None? || address.value == a
    }
  }
}
