/** The bounded, most-recent-first list of past translations. */
module History {

  /** One successful translation: `id` is the caller-supplied token that the
      application takes from the clock, `lang` the target language code. */
  datatype HistoryEntry = HistoryEntry(id: int, source: string, target: string, lang: string)

  /** The most entries the list ever holds. */
  const MaxHistory: nat := 5

  function Min(a: int, b: int): int {
    if a <= b then a else b
  }

  /** The updater `prev => [entry, ...prev.slice(0, 4)]`: the new entry goes
      to the head and at most four earlier entries stay behind it, in order. */
  function Record(prev: seq<HistoryEntry>, entry: HistoryEntry): (r: seq<HistoryEntry>)
    ensures |r| == Min(|prev| + 1, MaxHistory)
    ensures r[0] == entry
    ensures forall i :: 1 <= i < |r| ==> r[i] == prev[i - 1]
  {
    [entry] + prev[..Min(|prev|, 4)]
  }

  /** The list after recording `entries` one by one, oldest first, into `h`. */
  function RecordAll(h: seq<HistoryEntry>, entries: seq<HistoryEntry>): seq<HistoryEntry>
    decreases |entries|
  {
    if entries == [] then h
    else Record(RecordAll(h, entries[..|entries| - 1]), entries[|entries| - 1])
  }

  function Reversed(s: seq<HistoryEntry>): (r: seq<HistoryEntry>)
    ensures |r| == |s|
    ensures forall i :: 0 <= i < |s| ==> r[i] == s[|s| - 1 - i]
  {
    if s == [] then [] else [s[|s| - 1]] + Reversed(s[..|s| - 1])
  }

  /** The list is always the at most five latest entries, latest first:
      recording `entries` into `h` leaves the first five of `entries`
      reversed followed by `h`. */
  lemma {:induction false} RecordAllLatestFirst(h: seq<HistoryEntry>, entries: seq<HistoryEntry>)
    requires |h| <= MaxHistory
    ensures RecordAll(h, entries) == (Reversed(entries) + h)[..Min(|entries| + |h|, MaxHistory)]
  {
    if entries != [] {
      var n := |entries|;
      var front := entries[..n - 1];
      RecordAllLatestFirst(h, front);
      var prev := RecordAll(h, front);
      var r := RecordAll(h, entries);
      var whole := Reversed(entries) + h;
      assert |r| == Min(n + |h|, MaxHistory);
      forall i | 0 <= i < |r| ensures r[i] == whole[i] {
        if i > 0 {
          assert r[i] == prev[i - 1];
          assert prev[i - 1] == (Reversed(front) + h)[i - 1];
        }
      }
    }
  }

  /** Starting from the empty list, the list holds exactly the latest
      `min(n, 5)` of the `n` recorded entries, latest first. */
  lemma LatestFromEmpty(entries: seq<HistoryEntry>)
    ensures |RecordAll([], entries)| == Min(|entries|, MaxHistory)
    ensures forall i :: 0 <= i < |RecordAll([], entries)| ==>
              RecordAll([], entries)[i] == entries[|entries| - 1 - i]
  {
  }

  /** Recording one more entry into the list of `entries` is recording
      `entries + [e]`: the class below keeps its list in this form. */
  lemma RecordAllSnoc(h: seq<HistoryEntry>, entries: seq<HistoryEntry>, e: HistoryEntry)
    ensures RecordAll(h, entries + [e]) == Record(RecordAll(h, entries), e)
  {
  }

  predicate DistinctIds(entries: seq<HistoryEntry>) {
    forall i, j :: 0 <= i < j < |entries| ==> entries[i].id != entries[j].id
  }

  /** With a full list, a new entry evicts the oldest one: an entry whose id
      differs from every other one is no longer present. */
  lemma RecordEvictsOldest(prev: seq<HistoryEntry>, entry: HistoryEntry)
    requires |prev| == MaxHistory
    requires DistinctIds(prev + [entry])
    ensures prev[MaxHistory - 1] !in Record(prev, entry)
    ensures Record(prev, entry)[1..] == prev[..MaxHistory - 1]
  {
    var all := prev + [entry];
    forall k | 0 <= k < MaxHistory ensures Record(prev, entry)[k].id != prev[4].id {
      assert all[4] == prev[4] && all[5] == entry;
      if k > 0 {
        assert all[k - 1] == prev[k - 1];
      }
    }
  }

  /** After six successes from the empty list, the first one is gone. */
  lemma SixthEvictsFirst(entries: seq<HistoryEntry>)
    requires |entries| == MaxHistory + 1
    requires DistinctIds(entries)
    ensures entries[0] !in RecordAll([], entries)
    ensures |RecordAll([], entries)| == MaxHistory
  {
    LatestFromEmpty(entries);
  }
}
