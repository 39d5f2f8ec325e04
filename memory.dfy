/** The allocation ledger of project/src/Memory.cpp: a map from block address to block record, a running
    byte total and a limit (0 = unlimited). The static members become the fields of one `Ledger`; `malloc`
    becomes a counter handing out fresh addresses, and the mutex is dropped (calls are sequential). */
module Memory {
  import opened Exceptions

  /** `Memory::Block`: the type name and hash of what was allocated, its size, its address, and its bytes. */
  datatype Block = Block(typeName: string, typeHash: nat, size: nat, ptr: nat, data: seq<int>)

  /** Header default `MEMORY_DEFAULT_LIMIT`: 1 GiB. */
  const DefaultLimit: nat := 1024 * 1024 * 1024

  /** Total size of the blocks whose address is below `n`. */
  function SumBelow(blocks: map<nat, Block>, n: nat): nat
  {
    if n == 0 then 0
    else SumBelow(blocks, n - 1) + (if n - 1 in blocks then blocks[n - 1].size else 0)
  }

  /** Adding a block at an address at or above `n` leaves the sum below `n` alone. */
  lemma {:induction false} SumIgnoresAbove(blocks: map<nat, Block>, p: nat, b: Block, n: nat)
    requires p >= n
    ensures SumBelow(blocks[p := b], n) == SumBelow(blocks, n)
    ensures SumBelow(blocks - {p}, n) == SumBelow(blocks, n)
  {
    if n > 0 {
      SumIgnoresAbove(blocks, p, b, n - 1);
    }
  }

  /** Recording a new block at the next free address adds exactly its size. */
  lemma SumAfterInsert(blocks: map<nat, Block>, p: nat, b: Block)
    requires p !in blocks
    ensures SumBelow(blocks[p := b], p + 1) == SumBelow(blocks, p) + b.size
  {
    SumIgnoresAbove(blocks, p, b, p);
  }

  /** Removing a recorded block below `n` subtracts exactly its size. */
  lemma {:induction false} SumAfterRemove(blocks: map<nat, Block>, p: nat, n: nat)
    requires p in blocks && p < n
    ensures SumBelow(blocks - {p}, n) + blocks[p].size == SumBelow(blocks, n)
  {
    if n - 1 == p {
      SumIgnoresAbove(blocks, p, blocks[p], p);
    } else {
      SumAfterRemove(blocks, p, n - 1);
    }
  }

  /** Zero-filled contents of a fresh block (`memset(ptr, 0, size)`). */
  function Zeros(size: nat): (z: seq<int>)
    ensures |z| == size && forall i :: 0 <= i < size ==> z[i] == 0
  {
    seq(size, _ => 0)
  }

  class Ledger {
    var limit: nat
    var blocks: map<nat, Block>
    var total: nat
    /** Addresses below this have been handed out; `malloc` never returns a recorded address. */
    var nextPtr: nat

    /** The ledger invariant: every block sits at its own, already handed-out address, and the total is
        the sum of the recorded sizes. */
    ghost predicate Valid()
      reads this
    {
      && (forall p :: p in blocks ==> p < nextPtr && blocks[p].ptr == p)
      && total == SumBelow(blocks, nextPtr)
    }

    /** Static storage starts zeroed: no limit, no blocks, nothing allocated. */
    constructor ()
      ensures Valid() && limit == 0 && blocks == map[] && total == 0
    {
      limit := 0;
      blocks := map[];
      total := 0;
      nextPtr := 0;
    }

    /** `Memory::Initialize`: set the limit. */
    method Initialize(newLimit: nat)
      requires Valid()
      modifies this`limit
      ensures Valid() && limit == newLimit
    {
      limit := newLimit;
    }

    /** `MemoryInitialize()` called without an argument: the limit becomes the 1 GiB default. */
    method InitializeDefault()
      requires Valid()
      modifies this`limit
      ensures Valid() && limit == DefaultLimit
    {
      Initialize(DefaultLimit);
    }

    /** Would an allocation of `size` more bytes exceed a (nonzero) limit? */
    predicate OverLimit(size: nat)
      reads this
    {
      limit != 0 && total + size > limit
    }

    /** `Memory::Allocate`: refuse with OutOfMemoryException over the limit, otherwise record one new
        zero-filled block and add its size to the total. */
    method Allocate(name: string, hash: nat, size: nat) returns (r: Result<nat>)
      requires Valid()
      modifies this
      ensures Valid() && limit == old(limit)
      ensures old(OverLimit(size)) ==>
        && r == Throw(Thrown("OutOfMemoryException",
             "Out of memory (" + Decimal(old(total)) + "/" + Decimal(limit) + ")"))
        && blocks == old(blocks) && total == old(total)
      ensures !old(OverLimit(size)) ==>
        && r.Ok? && r.value !in old(blocks)
        && blocks == old(blocks)[r.value := Block(name, hash, size, r.value, Zeros(size))]
        && total == old(total) + size
    {
      if limit != 0 && total + size > limit {
        return Throw(Thrown("OutOfMemoryException",
          "Out of memory (" + Decimal(total) + "/" + Decimal(limit) + ")"));
      }
      var ptr := nextPtr;
      SumAfterInsert(blocks, ptr, Block(name, hash, size, ptr, Zeros(size)));
      nextPtr := nextPtr + 1;
      total := total + size;
      blocks := blocks[ptr := Block(name, hash, size, ptr, Zeros(size))];
      r := Ok(ptr);
    }

    /** `Memory::Free`: an unrecorded address throws UnknownMemoryException and changes nothing;
        otherwise exactly that block is dropped and its size subtracted. */
    method Free(ptr: nat) returns (r: Outcome)
      requires Valid()
      modifies this
      ensures Valid() && limit == old(limit)
      ensures ptr !in old(blocks) ==>
        && r == Fail(Thrown("UnknownMemoryException", "Unknown memory block 0x" + Hex(ptr)))
        && blocks == old(blocks) && total == old(total)
      ensures ptr in old(blocks) ==>
        && r == Done
        && blocks == old(blocks) - {ptr}
        && total == old(total) - old(blocks)[ptr].size
    {
      if ptr !in blocks {
        return Fail(Thrown("UnknownMemoryException", "Unknown memory block 0x" + Hex(ptr)));
      }
      var size := blocks[ptr].size;
      SumAfterRemove(blocks, ptr, nextPtr);
      total := total - size;
      blocks := blocks - {ptr};
      r := Done;
    }

    /** `Memory::Shutdown`: any block still recorded is a leak. */
    method Shutdown() returns (r: Outcome)
      requires Valid()
      ensures r.Fail? <==> blocks != map[]
      ensures r.Fail? ==> r.error.kind == "MemoryLeakException"
      ensures blocks == map[] ==> total == 0
    {
      if blocks != map[] {
        return Fail(Thrown("MemoryLeakException",
          "Memory leak detected (" + Decimal(|blocks|) + " blocks, " + Decimal(total) + "/" + Decimal(limit) + ")"));
      }
      EmptySum(nextPtr);
      r := Done;
    }
  }

  lemma {:induction false} EmptySum(n: nat)
    ensures SumBelow(map[], n) == 0
  {
    if n > 0 {
      EmptySum(n - 1);
    }
  }

  /** Allocating and then freeing the same block leaves the ledger as it was. */
  method AllocateThenFree(ledger: Ledger, name: string, hash: nat, size: nat)
    requires ledger.Valid() && !ledger.OverLimit(size)
    modifies ledger
    ensures ledger.Valid()
    ensures ledger.blocks == old(ledger.blocks) && ledger.total == old(ledger.total)
  {
    var r := ledger.Allocate(name, hash, size);
    var done := ledger.Free(r.value);
    assert ledger.blocks == old(ledger.blocks);
  }
}
