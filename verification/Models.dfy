/** The stored documents and the events built from them. */
module Models {

  type PollId = string
  type OptionId = string
  type Token = string
  type Counts = map<OptionId, int>

  datatype Option<+T> = None | Some(value: T)

  datatype Result<+T, +E> = Success(value: T) | Failure(error: E)

  datatype PollOption = PollOption(id: OptionId, text: string)

  datatype PollStatus = Active | Closed

  datatype Poll = Poll(creator: string, title: string, description: string,
                       options: seq<PollOption>, status: PollStatus)

  datatype Vote = Vote(poll: PollId, option: OptionId, token: Token)

  datatype Event = Event(poll: PollId, counts: Counts, total: int)

  function Ids(options: seq<PollOption>): set<OptionId> {
    set opt | opt in options :: opt.id
  }

  function Lookup(counts: Counts, o: OptionId): int {
    if o in counts then counts[o] else 0
  }

  /** Every count of the left result is at most the same count of the right one. */
  ghost predicate Below(left: Counts, right: Counts) {
    left.Keys == right.Keys && forall o :: o in left ==> left[o] <= right[o]
  }
}
