/**
  The bounds-checked 2 KiB memory of cpu_test.c: `store` and `retrieve`
  take a 16-bit address; out-of-range stores are dropped and out-of-range
  retrieves answer 0xFF, the `uint8_t` conversion of -1. The stderr
  messages are not modelled.
*/
module TestMemory {
  import opened Cpu

  /** `MEM_SIZE`. */
  const MemSize: nat := 2048

  /** `uint8_t mem[MEM_SIZE]`, zero-initialised as a global. */
  type Mem = s: seq<Byte> | |s| == MemSize witness seq(MemSize, _ => 0)

  const Zeroed: Mem := seq(MemSize, _ => 0)

  /** `(uint8_t)-1`: C converts -1 modulo 256. */
  const OutOfBounds: Byte := Wrap8(-1)

  /** store: writes the cell when the address is in range, else does nothing. */
  function Store(mem: Mem, address: Word, value: Byte): (r: Mem)
    ensures address < MemSize ==> r[address] == value
    ensures forall i :: 0 <= i < MemSize && i != address ==> r[i] == mem[i]
    ensures address >= MemSize ==> r == mem
  {
    if address < MemSize then mem[address := value] else mem
  }

  /** retrieve: the cell when the address is in range, else 0xFF. */
  function Retrieve(mem: Mem, address: Word): (r: Byte)
    ensures address >= MemSize ==> r == 0xFF
  {
    if address < MemSize then mem[address] else OutOfBounds
  }

  /** A retrieve after a store sees the stored byte at an in-range address,
      what was there before at any other address, and 0xFF out of range. */
  lemma StoreThenRetrieve(mem: Mem, stored: Word, value: Byte, address: Word)
    ensures Retrieve(Store(mem, stored, value), address)
              == if address >= MemSize then 0xFF
                 else if address == stored then value
                 else Retrieve(mem, address)
  {
  }

  /** Stores to distinct addresses commute. */
  lemma StoresCommute(mem: Mem, a1: Word, v1: Byte, a2: Word, v2: Byte)
    requires a1 != a2
    ensures Store(Store(mem, a1, v1), a2, v2) == Store(Store(mem, a2, v2), a1, v1)
  {
  }

  /** Storing what is already there changes nothing. */
  lemma StoreRetrieved(mem: Mem, address: Word)
    ensures Store(mem, address, Retrieve(mem, address)) == mem
  {
  }

  /** main's example: 0xAB stored at address 0 of the zeroed memory is
      read back as 0xAB. */
  lemma MainExample()
    ensures Retrieve(Store(Zeroed, 0x0000, 0xAB), 0x0000) == 0xAB
    ensures forall i :: 1 <= i < MemSize ==> Store(Zeroed, 0x0000, 0xAB)[i] == 0
  {
  }
}
