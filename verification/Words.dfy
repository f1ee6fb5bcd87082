/** 64-bit machine words, as numbers. */
module Words {

  /** 2^64. */
  const WORD: nat := 0x1_0000_0000_0000_0000

  type Word = w: nat | w < WORD

  function Wrapped(x: int): Word {
    x % WORD
  }

  /** Addition, or subtraction of -x, as the machine does it. */
  function Add(w: Word, x: int): Word {
    (w + x) % WORD
  }

  lemma AddWrapped(x: int, y: int)
    ensures Add(Wrapped(x), y) == Wrapped(x + y)
  {
  }

  lemma WrappedWord(w: Word)
    ensures Wrapped(w) == w
  {
  }
}
