/** The four nucleotide symbols and the character keys that name them. */
module Nucleotides {

  datatype Option<+T> = None | Some(value: T)

  /** The symbols in the order A, G, T, C in which each table slot lists them. */
  datatype Nucleotide = A | G | T | C

  /** The dictionary key under which a symbol's count is stored. */
  function Key(n: Nucleotide): char
  {
    match n
    case A => 'A'
    case G => 'G'
    case T => 'T'
    case C => 'C'
  }

  /** Looks a character up among the four keys of a slot. Only the upper-case
      letters A, G, T and C are keys; anything else (a lower-case letter, `N`,
      a gap) is missing, which the source reports as a KeyError. */
  function FromKey(c: char): (r: Option<Nucleotide>)
    ensures r.None? <==> c !in {'A', 'G', 'T', 'C'}
    ensures r.Some? ==> Key(r.value) == c
  {
    if c == 'A' then Some(A)
    else if c == 'G' then Some(G)
    else if c == 'T' then Some(T)
    else if c == 'C' then Some(C)
    else None
  }

  /** Every symbol's key is found again by the lookup. */
  lemma KeyRoundTrip(n: Nucleotide)
    ensures FromKey(Key(n)) == Some(n)
  {
  }
}
