/** The calculation history of the date-range calculator: a newest-first
    list of at most ten entries. `AddEntry` is what `calculate` does to it
    (prepend, keep the first nine of the old list); `Recent` is what that
    list is meant to be: the ten most recent calculations, newest first. */
module History {
  import opened InterestEngine

  /** One recorded calculation. `id` is the creation timestamp; `interest`
      and `totalAmount` are the rounded figures shown to the user. */
  datatype Entry = Entry(id: int, amount: real, interestRate: real,
                         rateType: RateType, interestType: InterestType,
                         fromDate: Option<int>, toDate: Option<int>, days: int,
                         interest: real, totalAmount: real)

  /** The most entries the history keeps. */
  const Capacity: nat := 10

  function Min(a: int, b: int): int
  {
    if a < b then a else b
  }

  /** `[newEntry, ...history.slice(0, 9)]`: the new entry first, then the
      old entries in their order, the oldest one dropped once ten are kept. */
  function AddEntry(history: seq<Entry>, e: Entry): (h: seq<Entry>)
    ensures |h| == Min(|history|, Capacity - 1) + 1 <= Capacity
    ensures h[0] == e
    ensures h[1..] == history[..Min(|history|, Capacity - 1)]
  {
    [e] + history[..Min(|history|, Capacity - 1)]
  }

  /** The reference view: given every entry recorded since the history
      was last cleared (oldest first), the last `Capacity` of them, newest
      first. */
  function Recent(log: seq<Entry>): (h: seq<Entry>)
    ensures |h| == Min(|log|, Capacity) <= Capacity
    ensures |log| > 0 ==> h[0] == log[|log| - 1]
  {
    seq(Min(|log|, Capacity), i requires 0 <= i < Min(|log|, Capacity) => log[|log| - 1 - i])
  }

  /** Adding an entry to the recent view of a log gives the recent view of
      the log extended by that entry: the history always holds the ten most
      recent calculations, newest first, and only the oldest is evicted. */
  lemma AddEntryKeepsRecent(log: seq<Entry>, e: Entry)
    ensures AddEntry(Recent(log), e) == Recent(log + [e])
  {
    var h, r := AddEntry(Recent(log), e), Recent(log + [e]);
    assert |h| == |r|;
    forall i | 0 <= i < |h|
      ensures h[i] == r[i]
    {
      if i > 0 {
        assert h[i] == Recent(log)[i - 1];
      }
    }
  }
}
