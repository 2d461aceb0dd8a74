/** The shapes `weigh_matrix` works on: one slot of counts per window
    position, and the two ways a read of a sequence character can fail. */
module CountTable {
  import opened Nucleotides

  /** One slot of the table: the dictionary with exactly the keys A, G, T and C.
      Being a four-field record, a slot can neither lose a key nor gain one. */
  datatype Counts = Counts(a: nat, g: nat, t: nat, c: nat)
  {
    function Get(n: Nucleotide): nat
    {
      match n
      case A => a
      case G => g
      case T => t
      case C => c
    }

    /** The in-place `+= 1` on the entry for `n`. */
    function Inc(n: Nucleotide): (r: Counts)
      ensures r.Get(n) == Get(n) + 1
      ensures forall m :: m != n ==> r.Get(m) == Get(m)
      ensures r.Total() == Total() + 1
    {
      match n
      case A => this.(a := a + 1)
      case G => this.(g := g + 1)
      case T => this.(t := t + 1)
      case C => this.(c := c + 1)
    }

    /** The sum of the four counts. */
    function Total(): nat
    {
      a + g + t + c
    }
  }

  /** The slot every window position starts from: each key set to the pseudocount 1. */
  const Pseudocount := Counts(1, 1, 1, 1)

  /** A table: one slot per window position, in window order. */
  type Table = seq<Counts>

  /** The number of values `range(start, end)` yields: empty when `start >= end`. */
  function Width(start: int, end: int): nat
  {
    if start < end then end - start else 0
  }

  /** The exceptions the counting loop can raise. */
  datatype Fault =
    | IndexError(index: int)  // `seq[i]` with `i` outside the sequence
    | KeyError(key: char)     // `seq[i]` is not one of the keys A, G, T, C

  datatype Result<+T> = Ok(value: T) | Err(fault: Fault)

  /** Python's `s[i]` on a string: a negative index counts from the end, and
      an index outside `-len(s) <= i < len(s)` raises IndexError. */
  function Index(s: string, i: int): (r: Result<char>)
    ensures r.Ok? <==> -|s| <= i < |s|
    ensures r.Ok? ==> r.value == s[if i < 0 then |s| + i else i]
    ensures r.Err? ==> r.fault == IndexError(i)
  {
    if 0 <= i < |s| then Ok(s[i])
    else if -|s| <= i < 0 then Ok(s[|s| + i])
    else Err(IndexError(i))
  }

  /** `nucleotide_table[k][seq[i]]`: read the character, then look it up among the keys. */
  function Read(s: string, i: int): (r: Result<Nucleotide>)
    ensures r.Ok? <==> Index(s, i).Ok? && FromKey(Index(s, i).value).Some?
    ensures r.Ok? ==> Index(s, i) == Ok(Key(r.value))
    ensures Index(s, i).Err? ==> r == Err(IndexError(i))
    ensures Index(s, i).Ok? && FromKey(Index(s, i).value).None? ==> r == Err(KeyError(Index(s, i).value))
  {
    match Index(s, i)
    case Err(e) => Err(e)
    case Ok(ch) =>
      match FromKey(ch)
      case None => Err(KeyError(ch))
      case Some(n) => Ok(n)
  }

  /** For a non-negative window inside the sequence, `Read` reads exactly `s[i]`. */
  lemma ReadInWindow(s: string, i: int)
    requires 0 <= i < |s|
    ensures Read(s, i).Ok? <==> s[i] in {'A', 'G', 'T', 'C'}
    ensures Read(s, i).Ok? ==> Key(Read(s, i).value) == s[i]
    ensures Read(s, i).Err? ==> Read(s, i) == Err(KeyError(s[i]))
  {
  }
}
