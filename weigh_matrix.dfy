/** `weigh_matrix(sequences, start, end)`: the pseudocount table of
    nucleotide counts over the half-open window [start, end) of a set of
    aligned sequences.

    The Python function has no `return` statement and so returns None; it
    never turns the counts into the weight values its comment describes.
    `Weigh` returns the table the function builds, which is all the
    function computes. */
module WeighMatrix {
  import opened Nucleotides
  import opened CountTable

  // ---------------------------------------------------------------------
  // Specification
  // ---------------------------------------------------------------------

  /** The first fault met while reading `s` at positions `i`, `i + 1`, ..., `end - 1`. */
  function ScanFault(s: string, i: int, end: int): (r: Option<Fault>)
    decreases end - i
  {
    if i >= end then None
    else match Read(s, i)
      case Err(e) => Some(e)
      case Ok(_) => ScanFault(s, i + 1, end)
  }

  /** One slot after the sequence `s` has been counted at absolute position `p`.
      The `Err` branch is never taken in the model: `Tally` counts a sequence
      only after `ScanFault` has found every read of its window to succeed,
      and the source raises rather than skipping a failed read. */
  function Step(slot: Counts, s: string, p: int): Counts
  {
    match Read(s, p)
    case Ok(n) => slot.Inc(n)
    case Err(_) => slot
  }

  /** The table after one more sequence has been counted at every window position. */
  function AddSequence(t: Table, s: string, start: int): (r: Table)
    ensures |r| == |t|
  {
    seq(|t|, k requires 0 <= k < |t| => Step(t[k], s, start + k))
  }

  /** What `weigh_matrix` computes: the pseudocount table, then each sequence
      counted in turn; the first fault, in sequence-then-position order, is
      what the call raises. */
  function Tally(sequences: seq<string>, start: int, end: int): (r: Result<Table>)
    ensures r.Ok? ==> |r.value| == Width(start, end)
    decreases |sequences|
  {
    if |sequences| == 0 then Ok(seq(Width(start, end), _ => Pseudocount))
    else
      var last := sequences[|sequences| - 1];
      match Tally(sequences[..|sequences| - 1], start, end)
      case Err(e) => Err(e)
      case Ok(t) =>
        match ScanFault(last, start, end)
        case Some(e) => Err(e)
        case None => Ok(AddSequence(t, last, start))
  }

  /** The number of sequences whose character at absolute position `i` is the key of `n`. */
  function Occurrences(sequences: seq<string>, i: int, n: Nucleotide): (r: nat)
    ensures r <= |sequences|
    decreases |sequences|
  {
    if |sequences| == 0 then 0
    else
      Occurrences(sequences[..|sequences| - 1], i, n)
      + (if Read(sequences[|sequences| - 1], i) == Ok(n) then 1 else 0)
  }

  /** Every character the loops examine exists and is one of the four keys. */
  ghost predicate WellFormed(sequences: seq<string>, start: int, end: int)
  {
    forall j, i :: 0 <= j < |sequences| && start <= i < end ==> Read(sequences[j], i).Ok?
  }

  // ---------------------------------------------------------------------
  // The source's loops
  // ---------------------------------------------------------------------

  /** Lines 11-13: one pseudocount slot appended per value of `range(start, end)`. */
  method NewTable(start: int, end: int) returns (table: Table)
    ensures |table| == Width(start, end)
    ensures forall k :: 0 <= k < |table| ==> table[k] == Pseudocount
  {
    table := [];
    var i := start;
    while i < end
      invariant start <= i
      invariant start < end ==> i <= end
      invariant end <= start ==> i == start
      invariant |table| == i - start
      invariant forall k :: 0 <= k < |table| ==> table[k] == Pseudocount
    {
      table := table + [Pseudocount];
      i := i + 1;
    }
  }

  /** Lines 10-16: the whole function. The Python function returns None; the
      table it builds is returned here instead. */
  method Weigh(sequences: seq<string>, start: int, end: int) returns (r: Result<Table>)
    ensures r == Tally(sequences, start, end)
  {
    var table := NewTable(start, end);
    assert table == seq(Width(start, end), _ => Pseudocount);
    for j := 0 to |sequences|
      invariant Tally(sequences[..j], start, end) == Ok(table)
    {
      var s := sequences[j];
      ghost var before := table;
      assert sequences[..j + 1][..j] == sequences[..j];
      var i := start;
      while i < end
        invariant start <= i
        invariant start < end ==> i <= end
        invariant ScanFault(s, i, end) == ScanFault(s, start, end)
        invariant |table| == |before| == Width(start, end)
        invariant forall k :: 0 <= k < |table| ==>
                    table[k] == if k < i - start then Step(before[k], s, start + k) else before[k]
      {
        var ch: char;
        match Index(s, i) {
          case Err(e) =>
            TallyFaultPersists(sequences, j + 1, start, end);
            return Err(e);
          case Ok(c) =>
            ch := c;
        }
        match FromKey(ch) {
          case None =>
            TallyFaultPersists(sequences, j + 1, start, end);
            return Err(KeyError(ch));
          case Some(n) =>
            table := table[i - start := table[i - start].Inc(n)];
        }
        i := i + 1;
      }
      assert table == AddSequence(before, s, start);
    }
    assert sequences[..|sequences|] == sequences;
    r := Ok(table);
  }

  // ---------------------------------------------------------------------
  // Properties of the specification
  // ---------------------------------------------------------------------

  /** Once a prefix of the sequences faults, the whole call raises that fault. */
  lemma {:induction false} TallyFaultPersists(sequences: seq<string>, j: nat, start: int, end: int)
    requires j <= |sequences|
    requires Tally(sequences[..j], start, end).Err?
    ensures Tally(sequences, start, end) == Tally(sequences[..j], start, end)
    decreases |sequences| - j
  {
    if j < |sequences| {
      assert sequences[..j + 1][..j] == sequences[..j];
      TallyFaultPersists(sequences, j + 1, start, end);
    } else {
      assert sequences[..j] == sequences;
    }
  }

  /** No fault is met on a stretch of positions exactly when every read there succeeds. */
  lemma {:induction false} ScanFaultNone(s: string, i: int, end: int)
    ensures ScanFault(s, i, end).None? <==> forall p :: i <= p < end ==> Read(s, p).Ok?
    decreases end - i
  {
    if i < end {
      ScanFaultNone(s, i + 1, end);
    }
  }

  /** A fault that is met is the failure of some read in the stretch. */
  lemma {:induction false} ScanFaultWitness(s: string, i: int, end: int)
    requires ScanFault(s, i, end).Some?
    ensures exists p :: i <= p < end && Read(s, p) == Err(ScanFault(s, i, end).value)
    decreases end - i
  {
    if Read(s, i).Ok? {
      ScanFaultWitness(s, i + 1, end);
    }
  }

  /** The call succeeds if and only if every examined character exists and is a key. */
  lemma {:induction false} TallyOkIff(sequences: seq<string>, start: int, end: int)
    ensures Tally(sequences, start, end).Ok? <==> WellFormed(sequences, start, end)
    decreases |sequences|
  {
    if |sequences| > 0 {
      var init := sequences[..|sequences| - 1];
      var last := sequences[|sequences| - 1];
      TallyOkIff(init, start, end);
      ScanFaultNone(last, start, end);
      assert WellFormed(sequences, start, end) <==>
        WellFormed(init, start, end) && forall p :: start <= p < end ==> Read(last, p).Ok? by {
        if WellFormed(sequences, start, end) {
          forall j, i | 0 <= j < |init| && start <= i < end ensures Read(init[j], i).Ok? {
            assert init[j] == sequences[j];
          }
        }
        if WellFormed(init, start, end) && forall p :: start <= p < end ==> Read(last, p).Ok? {
          forall j, i | 0 <= j < |sequences| && start <= i < end ensures Read(sequences[j], i).Ok? {
            if j < |init| {
              assert sequences[j] == init[j];
            }
          }
        }
      }
    }
  }

  /** A fault the call raises is the failure of reading some examined character:
      an index outside the sequence (IndexError) or a character that is not a key (KeyError). */
  lemma {:induction false} TallyFaultWitness(sequences: seq<string>, start: int, end: int)
    requires Tally(sequences, start, end).Err?
    ensures exists j, i :: 0 <= j < |sequences| && start <= i < end &&
              Read(sequences[j], i) == Err(Tally(sequences, start, end).fault)
    decreases |sequences|
  {
    var init := sequences[..|sequences| - 1];
    var last := sequences[|sequences| - 1];
    var f := Tally(sequences, start, end).fault;
    if Tally(init, start, end).Err? {
      TallyFaultWitness(init, start, end);
      var j, i :| 0 <= j < |init| && start <= i < end && Read(init[j], i) == Err(f);
      assert sequences[j] == init[j];
    } else {
      ScanFaultWitness(last, start, end);
      var i :| start <= i < end && Read(last, i) == Err(f);
      assert Read(sequences[|sequences| - 1], i) == Err(f);
    }
  }

  /** A sequence too short to hold index `end - 1` makes the call raise
      (IndexError for the first offending sequence, or an earlier fault). */
  lemma ShortSequenceFails(sequences: seq<string>, start: int, end: int, j: nat)
    requires start < end && j < |sequences| && |sequences[j]| < end
    ensures Tally(sequences, start, end).Err?
  {
    TallyOkIff(sequences, start, end);
    assert Read(sequences[j], end - 1).Err?;
  }

  /** A negative `start` reaching further back than the length of a sequence
      makes the call raise: `seq[start]` is out of range. */
  lemma ShortNegativeStartFails(sequences: seq<string>, start: int, end: int, j: nat)
    requires start < end && j < |sequences| && |sequences[j]| < -start
    ensures Tally(sequences, start, end).Err?
  {
    TallyOkIff(sequences, start, end);
    assert Read(sequences[j], start).Err?;
  }

  /** A character outside A, G, T, C at a window position makes the call raise. */
  lemma BadSymbolFails(sequences: seq<string>, start: int, end: int, j: nat, i: int)
    requires j < |sequences| && start <= i < end
    requires Index(sequences[j], i).Ok? && Index(sequences[j], i).value !in {'A', 'G', 'T', 'C'}
    ensures Tally(sequences, start, end).Err?
  {
    TallyOkIff(sequences, start, end);
    assert Read(sequences[j], i).Err?;
  }

  /** An empty window (`start >= end`) yields an empty table whatever the sequences hold. */
  lemma {:induction false} EmptyWindow(sequences: seq<string>, start: int, end: int)
    requires end <= start
    ensures Tally(sequences, start, end) == Ok([])
    decreases |sequences|
  {
    if |sequences| > 0 {
      EmptyWindow(sequences[..|sequences| - 1], start, end);
    }
  }

  /** Per-slot counts: symbol `n` at slot `k` is 1 plus the number of sequences
      holding `n` at absolute position `start + k`. */
  lemma {:induction false} TallyCounts(sequences: seq<string>, start: int, end: int, k: nat, n: Nucleotide)
    requires Tally(sequences, start, end).Ok? && k < Width(start, end)
    ensures Tally(sequences, start, end).value[k].Get(n) == 1 + Occurrences(sequences, start + k, n)
    decreases |sequences|
  {
    if |sequences| > 0 {
      var init := sequences[..|sequences| - 1];
      TallyCounts(init, start, end, k, n);
    }
  }

  /** When every sequence has a key at position `i`, the four symbols' occurrences
      there add up to the number of sequences. */
  lemma {:induction false} OccurrencesSum(sequences: seq<string>, i: int)
    requires forall j :: 0 <= j < |sequences| ==> Read(sequences[j], i).Ok?
    ensures Occurrences(sequences, i, A) + Occurrences(sequences, i, G)
          + Occurrences(sequences, i, T) + Occurrences(sequences, i, C) == |sequences|
    decreases |sequences|
  {
    if |sequences| > 0 {
      var init := sequences[..|sequences| - 1];
      forall j | 0 <= j < |init| ensures Read(init[j], i).Ok? {
        assert init[j] == sequences[j];
      }
      OccurrencesSum(init, i);
      assert Read(sequences[|sequences| - 1], i).Ok?;
    }
  }

  /** Per-slot totals: on success every slot's four counts sum to 4 plus the number of sequences. */
  lemma SlotTotal(sequences: seq<string>, start: int, end: int, k: nat)
    requires Tally(sequences, start, end).Ok? && k < Width(start, end)
    ensures Tally(sequences, start, end).value[k].Total() == 4 + |sequences|
  {
    TallyOkIff(sequences, start, end);
    forall j | 0 <= j < |sequences| ensures Read(sequences[j], start + k).Ok? {
    }
    OccurrencesSum(sequences, start + k);
    TallyCounts(sequences, start, end, k, A);
    TallyCounts(sequences, start, end, k, G);
    TallyCounts(sequences, start, end, k, T);
    TallyCounts(sequences, start, end, k, C);
  }

  /** Counting one more sequence increments exactly the entry for the symbol that
      sequence holds at each slot and leaves every other entry unchanged. */
  lemma OneMoreSequence(sequences: seq<string>, s: string, start: int, end: int, k: nat, m: Nucleotide)
    requires Tally(sequences, start, end).Ok? && WellFormed([s], start, end)
    requires k < Width(start, end)
    ensures Tally(sequences + [s], start, end).Ok?
    ensures Read(s, start + k).Ok?
    ensures Tally(sequences + [s], start, end).value[k].Get(m)
         == Tally(sequences, start, end).value[k].Get(m) + (if Read(s, start + k) == Ok(m) then 1 else 0)
    ensures Tally(sequences + [s], start, end).value[k].Total()
         == Tally(sequences, start, end).value[k].Total() + 1
  {
    forall p | start <= p < end ensures Read(s, p).Ok? {
      assert [s][0] == s;
    }
    ScanFaultNone(s, start, end);
    TallyAppend(sequences, s, start, end);
    var t := Tally(sequences, start, end).value;
    var n := Read(s, start + k).value;
    assert AddSequence(t, s, start)[k] == t[k].Inc(n);
  }

  /** Counting a sequence that reads without fault extends the table by `AddSequence`. */
  lemma TallyAppend(sequences: seq<string>, s: string, start: int, end: int)
    requires Tally(sequences, start, end).Ok? && ScanFault(s, start, end).None?
    ensures Tally(sequences + [s], start, end) == Ok(AddSequence(Tally(sequences, start, end).value, s, start))
  {
    var both := sequences + [s];
    assert both[..|both| - 1] == sequences && both[|both| - 1] == s;
  }

  /** Characters outside the window are never read: two lists of sequences that
      agree at every window position give the same result. */
  lemma {:induction false} WindowOnly(xs: seq<string>, ys: seq<string>, start: int, end: int)
    requires |xs| == |ys|
    requires forall j, i :: 0 <= j < |xs| && start <= i < end ==> Index(xs[j], i) == Index(ys[j], i)
    ensures Tally(xs, start, end) == Tally(ys, start, end)
    decreases |xs|
  {
    if |xs| > 0 {
      var xi, yi := xs[..|xs| - 1], ys[..|ys| - 1];
      forall j, i | 0 <= j < |xi| && start <= i < end ensures Index(xi[j], i) == Index(yi[j], i) {
        assert xi[j] == xs[j] && yi[j] == ys[j];
      }
      WindowOnly(xi, yi, start, end);
      var x, y := xs[|xs| - 1], ys[|ys| - 1];
      assert forall i :: start <= i < end ==> Read(x, i) == Read(y, i);
      ScanFaultSame(x, y, start, end);
      if Tally(xi, start, end).Ok? {
        var t := Tally(xi, start, end).value;
        assert AddSequence(t, x, start) == AddSequence(t, y, start);
      }
    }
  }

  /** Two sequences that read alike on a stretch meet the same first fault there. */
  lemma {:induction false} ScanFaultSame(x: string, y: string, i: int, end: int)
    requires forall p :: i <= p < end ==> Read(x, p) == Read(y, p)
    ensures ScanFault(x, i, end) == ScanFault(y, i, end)
    decreases end - i
  {
    if i < end {
      ScanFaultSame(x, y, i + 1, end);
    }
  }

  /** With a non-negative window inside every sequence, the result depends only
      on the slices `seq[start:end]`. */
  lemma WindowSlices(xs: seq<string>, ys: seq<string>, start: nat, end: nat)
    requires start <= end && |xs| == |ys|
    requires forall j :: 0 <= j < |xs| ==> end <= |xs[j]| && end <= |ys[j]|
    requires forall j :: 0 <= j < |xs| ==> xs[j][start..end] == ys[j][start..end]
    ensures Tally(xs, start, end) == Tally(ys, start, end)
  {
    forall j, i | 0 <= j < |xs| && start <= i < end ensures Index(xs[j], i) == Index(ys[j], i) {
      assert xs[j][i] == xs[j][start..end][i - start];
      assert ys[j][i] == ys[j][start..end][i - start];
    }
    WindowOnly(xs, ys, start, end);
  }
}
