/** access_ok (utils.c) and the checks of sys_clone on its two pointers. */
module Access {
  import opened Config

  const WORD: int := 4

  ghost predicate IsAddress(a: int) { 0 <= a < UINT_MOD }

  /** access_ok.  When the test for writing fails, the switch falls through to the test for reading. */
  predicate AccessOk(write: bool, addr: int, size: int) {
    var first, last := addr / PAGE_SIZE, (addr + size) % UINT_MOD / PAGE_SIZE;
    if last < first then false
    else if write && first >= PAG_DATA && last <= PAG_END then true
    else first >= PAG_CODE && last <= PAG_END
  }

  /** The checks at the start of sys_clone. */
  predicate CloneArgs(code: int, stack: int) {
    code != 0 && stack != 0 && AccessOk(false, code, WORD) && AccessOk(true, stack, WORD)
  }

  /** access_ok makes no difference between reading and writing, and it accepts exactly what lies between the first
      code page and the end of the page behind the data pages, as long as the addition does not wrap around. */
  lemma AccessIff(write: bool, addr: int, size: int)
    requires IsAddress(addr) && 0 <= size && addr + size < UINT_MOD
    ensures AccessOk(write, addr, size) <==> PAG_CODE * PAGE_SIZE <= addr && addr + size < (PAG_END + 1) * PAGE_SIZE
    ensures AccessOk(write, addr, size) == AccessOk(!write, addr, size)
  {
    assert (addr + size) % UINT_MOD == addr + size;
  }

  /** Which pointers sys_clone accepts, over all 32-bit values. */
  lemma CloneArgsIff(code: int, stack: int)
    requires IsAddress(code) && IsAddress(stack)
    ensures CloneArgs(code, stack) <==>
            && PAG_CODE * PAGE_SIZE <= code < (PAG_END + 1) * PAGE_SIZE - WORD
            && PAG_CODE * PAGE_SIZE <= stack < (PAG_END + 1) * PAGE_SIZE - WORD
  {
    Pointer(false, code);
    Pointer(true, stack);
  }

  lemma Pointer(write: bool, a: int)
    requires IsAddress(a)
    ensures AccessOk(write, a, WORD) <==> PAG_CODE * PAGE_SIZE <= a < (PAG_END + 1) * PAGE_SIZE - WORD
  {
    if a + WORD < UINT_MOD {
      AccessIff(write, a, WORD);
    } else {
      assert (a + WORD) % UINT_MOD == a + WORD - UINT_MOD;
    }
  }
}
