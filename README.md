# weigh_matrix: a pseudocount nucleotide count table

This project models `weigh_matrix(sequences, start, end)` from `main.py`.
The function takes a list of aligned DNA sequences and a half-open window
`[start, end)`. It builds one slot per window position. Each slot is a
dictionary with the keys `A`, `G`, `T` and `C`, and each key starts at the
pseudocount 1. It then walks every sequence and every absolute position `i`
of the window, and adds 1 to the entry for `seq[i]` in slot `i - start`.

The Python function has no `return` statement, so it returns `None`. Its
comment promises a list of weight values, one tuple per position, but the
code never converts counts into weights. The model returns the count table
the loops build. That table is all the function computes.

Layout:

- `nucleotides.dfy` (module `Nucleotides`): the four symbols, ordered A, G, T, C as in the comment at `main.py:7`. It also holds the lookup of a character among the dictionary keys.
- `count_table.dfy` (module `CountTable`): one slot (`Counts`, a record of four naturals), the pseudocount slot, the window width, and the two exceptions the loop can raise. It models Python string indexing, including negative indices, and the key lookup.
- `weigh_matrix.dfy` (module `WeighMatrix`):
  - the specification function `Tally`;
  - the two loops of the source as methods `NewTable` and `Weigh`, proved equal to the specification;
  - the lemmas about `Tally`.

Errors are results, not preconditions. A read at an index outside the
sequence gives `IndexError(i)`. A character that is not one of the four
upper-case keys gives `KeyError(c)`. The first fault in the source's loop
order is the one reported: sequences in order, and positions in order
within each sequence. Python's `seq[i]` accepts a negative `i` and counts from
the end. The model does the same, so a negative `start` is handled as the
source handles it.

The code differs from its own comment (`main.py:2-9`): it computes no
weights and returns nothing. The model follows the code.

Because every key starts at the pseudocount 1, the four counts of each slot
sum to `4 + len(sequences)` once every sequence has been counted.

## Model

| member | source | states |
|---|---|---|
| Nucleotides.FromKey | main.py:16 | a character is found among the slot keys exactly when it is one of A, G, T, C, and the symbol found has that character as its key |
| Nucleotides.KeyRoundTrip | main.py:13 | the key of every symbol is found again by the lookup |
| CountTable.Counts.Inc | main.py:16 | `+= 1` raises the entry for the given symbol by one, leaves the other three entries unchanged, and raises the slot total by one |
| CountTable.Index | main.py:16 | `seq[i]` succeeds exactly for `-len(seq) <= i < len(seq)`; on success the result is `seq[i]`, or `seq[len(seq) + i]` for a negative `i`; otherwise it raises IndexError for `i` |
| CountTable.Read | main.py:16 | the read succeeds exactly when `seq[i]` exists and is one of the keys, and then finds the symbol with that key; an index out of range raises IndexError for `i`; a character that is not a key raises KeyError for that character |
| CountTable.ReadInWindow | main.py:16 | inside a sequence, the read succeeds exactly when `seq[i]` is one of A, G, T, C; otherwise it raises KeyError for that character |
| WeighMatrix.AddSequence | main.py:15-16 | counting one sequence at every window position keeps the table's number of slots |
| WeighMatrix.Tally | main.py:10-16 | on success the table has exactly `Width(start, end)` slots: `end - start` when `start < end`, and none otherwise |
| WeighMatrix.Occurrences | main.py:14-16 | the number of sequences holding a symbol at a position is at most the number of sequences |
| WeighMatrix.NewTable | main.py:11-13 | the new table has one slot per value of `range(start, end)`, and every slot is A, G, T, C all set to 1 |
| WeighMatrix.Weigh | main.py:10-16 | the nested loops return exactly the table, or the first fault, that the specification `Tally` gives |
| WeighMatrix.TallyFaultPersists | main.py:14-16 | once counting a prefix of the sequences raises a fault, the whole call raises that same fault |
| WeighMatrix.ScanFaultNone | main.py:15-16 | no fault is raised while reading one sequence over a stretch of positions if and only if every read there succeeds |
| WeighMatrix.ScanFaultWitness | main.py:15-16 | a fault raised while reading one sequence is the failure of a read at some position of the stretch |
| WeighMatrix.TallyOkIff | main.py:14-16 | the call succeeds if and only if every examined character exists and is one of A, G, T, C |
| WeighMatrix.TallyFaultWitness | main.py:14-16 | a fault the call raises is the failing read of some sequence at some window position |
| WeighMatrix.ShortSequenceFails | main.py:16 | with `start < end`, a sequence shorter than `end` makes the call fail |
| WeighMatrix.ShortNegativeStartFails | main.py:16 | with `start < end`, a sequence shorter than `-start` makes the call fail, because `seq[start]` is out of range |
| WeighMatrix.BadSymbolFails | main.py:16 | a character other than A, G, T, C at a window position makes the call fail |
| WeighMatrix.EmptyWindow | main.py:12-15 | when `start >= end` the result is the empty table, whatever the sequences hold |
| WeighMatrix.TallyCounts | main.py:13-16 | the count for symbol `n` at slot `k` is 1 plus the number of sequences holding `n` at absolute position `start + k` |
| WeighMatrix.OccurrencesSum | main.py:14-16 | when every sequence has a key at a position, the four symbols' occurrences there add up to the number of sequences |
| WeighMatrix.SlotTotal | main.py:13-16 | on success the four counts of every slot sum to `4 + len(sequences)` |
| WeighMatrix.TallyAppend | main.py:14-16 | counting one more sequence that reads without fault extends the previous table by counting that sequence once in every slot |
| WeighMatrix.OneMoreSequence | main.py:14-16 | counting one more well-formed sequence raises, in each slot, the entry of the symbol that sequence holds there by one, leaves the other entries unchanged, and raises the slot total by one |
| WeighMatrix.WindowOnly | main.py:15-16 | two lists of sequences that agree at every window position give the same result, so characters outside the window are never read |
| WeighMatrix.ScanFaultSame | main.py:15-16 | two sequences that read alike over a stretch of positions raise the same first fault there |
| WeighMatrix.WindowSlices | main.py:15-16 | for a non-negative window inside every sequence, the result depends only on each sequence's slice `seq[start:end]` |

## Left out

- Weight values: the conversion from counts to log-odds weights described in the comment at `main.py:2-9` does not exist in the code, so it is not modelled.
- The return value: the source returns `None`. `WeighMatrix.Weigh` returns the table that the loops build instead, and the model invents no tuple format for it.
- Python values other than a list of strings and two integers are not modelled. Such values include non-integer bounds and sequences held as lists of characters. They would raise a TypeError in the source, or behave like strings.
- Partial mutation before an exception: the table is a local variable of the source and is lost when an exception propagates, so the model reports only the fault.
- Fault detail: `IndexError(index)` carries the offending index, while Python's `IndexError: string index out of range` carries none. Equal faults in the model (as in `WeighMatrix.WindowOnly` and `WeighMatrix.ScanFaultSame`) are therefore a finer distinction than the source's exceptions can show.
