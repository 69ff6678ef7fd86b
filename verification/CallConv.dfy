/** Reading integer arguments: stack offsets, the two readers, and the address
    offered for copying. */
module CallConv {
  import opened Positions
  import opened Recordings
  import opened Widths

  type Byte = b: nat | b < 256
  type Memory = Address -> Byte

  datatype Convention = Cdecl | Stdcall | Fastcall | OtherConvention

  datatype Bitness = X86 | X64 | OtherBitness

  datatype Registers = Registers(ecx: nat, edx: nat, esp: nat, rcx: nat, rdx: nat, r8: nat, r9: nat, rsp: nat)

  // A function type as far as it is used: its convention and argument sizes.
  datatype FuncType = FuncType(cc: Convention, sizes: seq<nat>)

  // -------------------------------------------------------------------------
  // the packed area

  // Sizes of the arguments from..to.
  function Packed(sizes: seq<nat>, from: nat, to: nat): nat
    requires to <= |sizes|
  {
    if to <= from then 0 else Packed(sizes, from, to - 1) + sizes[to - 1]
  }

  lemma {:induction false} OffsetsSplit(sizes: seq<nat>, a: nat, b: nat, c: nat)
    requires a <= b <= c <= |sizes|
    ensures Packed(sizes, a, c) == Packed(sizes, a, b) + Packed(sizes, b, c)
    decreases c
  {
    if b < c {
      OffsetsSplit(sizes, a, b, c - 1);
    }
  }

  // Slots do not overlap: each ends before the next ones begin.
  lemma SlotBefore(sizes: seq<nat>, first: nat, i: nat, n: nat)
    requires first <= i < n <= |sizes|
    ensures Packed(sizes, first, i) + sizes[i] == Packed(sizes, first, i + 1) <= Packed(sizes, first, n)
  {
    OffsetsSplit(sizes, first, i + 1, n);
  }

  predicate InSlot(sizes: seq<nat>, first: nat, i: nat, offset: nat)
    requires i < |sizes|
  {
    Packed(sizes, first, i) <= offset < Packed(sizes, first, i + 1)
  }

  /** The slots from the first stack argument on tile the area: each of its
      bytes lies in one slot and in no other. */
  lemma {:induction false} SlotsTile(sizes: seq<nat>, first: nat, n: nat, offset: nat) returns (i: nat)
    requires first <= n <= |sizes| && offset < Packed(sizes, first, n)
    ensures first <= i < n && InSlot(sizes, first, i, offset)
    ensures forall j :: first <= j < n && j != i ==> !InSlot(sizes, first, j, offset)
    decreases n
  {
    if Packed(sizes, first, n - 1) <= offset {
      i := n - 1;
    } else {
      i := SlotsTile(sizes, first, n - 1, offset);
    }
    forall j | first <= j < n && j != i ensures !InSlot(sizes, first, j, offset) {
      if j < i { SlotBefore(sizes, first, j, i); } else { SlotBefore(sizes, first, i, j); }
    }
  }

  // -------------------------------------------------------------------------
  // memory

  // little-endian
  function Fetch(memory: Memory, a: Address, n: nat): nat
    decreases n
  {
    if n == 0 then 0 else memory(a) + 256 * Fetch(memory, a + 1, n - 1)
  }

  function Store(memory: Memory, a: Address, n: nat, v: nat): Memory
    decreases n
  {
    if n == 0 then memory
    else
      var rest := Store(memory, a + 1, n - 1, v / 256);
      x => if x == a then v % 256 else rest(x)
  }

  function Power256(n: nat): (p: nat)
    ensures p > 0
  {
    if n == 0 then 1 else 256 * Power256(n - 1)
  }

  lemma {:induction false} StoreElsewhere(memory: Memory, a: Address, n: nat, v: nat, x: Address)
    requires x < a || a + n <= x
    ensures Store(memory, a, n, v)(x) == memory(x)
    decreases n
  {
    if n > 0 { StoreElsewhere(memory, a + 1, n - 1, v / 256, x); }
  }

  lemma {:induction false} FetchSame(memory: Memory, other: Memory, a: Address, n: nat)
    requires forall x :: a <= x < a + n ==> memory(x) == other(x)
    ensures Fetch(memory, a, n) == Fetch(other, a, n)
    decreases n
  {
    if n > 0 { FetchSame(memory, other, a + 1, n - 1); }
  }

  lemma {:induction false} FetchStored(memory: Memory, a: Address, n: nat, v: nat)
    requires v < Power256(n)
    ensures Fetch(Store(memory, a, n, v), a, n) == v
    decreases n
  {
    if n > 0 {
      var rest := Store(memory, a + 1, n - 1, v / 256);
      FetchStored(memory, a + 1, n - 1, v / 256);
      FetchSame(Store(memory, a, n, v), rest, a + 1, n - 1);
    }
  }

  lemma {:induction false} FetchSplits(memory: Memory, a: Address, j: nat, k: nat)
    ensures Fetch(memory, a, j + k) == Fetch(memory, a, j) + Power256(j) * Fetch(memory, a + j, k)
    decreases j
  {
    if j == 0 {
      assert a + j == a && j + k == k;
    } else {
      FetchSplits(memory, a + 1, j - 1, k);
      assert a + 1 + (j - 1) == a + j && j + k - 1 == (j - 1) + k;
      FetchFirst(memory, a, j);
      FetchFirst(memory, a, j + k);
      hide Fetch;
      ShiftByte(memory(a), Fetch(memory, a + 1, j - 1), Power256(j - 1), Fetch(memory, a + j, k));
    }
  }

  lemma FetchFirst(memory: Memory, a: Address, n: nat)
    requires n > 0
    ensures Fetch(memory, a, n) == memory(a) + 256 * Fetch(memory, a + 1, n - 1)
  {
  }

  lemma ShiftByte(first: nat, low: nat, p: nat, high: nat)
    ensures first + 256 * (low + p * high) == (first + 256 * low) + (256 * p) * high
  {
  }

  lemma {:induction false} FetchFits(memory: Memory, a: Address, n: nat)
    ensures Fetch(memory, a, n) < Power256(n)
    decreases n
  {
    if n > 0 { FetchFits(memory, a + 1, n - 1); }
  }

  lemma LowPart(low: nat, high: nat, p: nat)
    requires low < p
    ensures (low + p * high) % p == low
    ensures low + p * high == low <==> high == 0
  {
    var x := low + p * high;
    var q := x / p;
    assert x == p * q + x % p;
    SameMultiple(high, q, p, x % p - low);
  }

  lemma SameMultiple(a: int, b: int, p: int, d: int)
    requires p * a == p * b + d && -p < d < p
    ensures a == b && d == 0
  {
    assert p * (a - b) == d;
    MultipleSize(p, a - b);
  }

  lemma MultipleSize(p: int, k: int)
    requires p > 0
    ensures k >= 1 ==> p * k >= p
    ensures k <= -1 ==> p * k <= -p
  {
    if k >= 1 {
      assert p * k == p + p * (k - 1);
    } else if k <= -1 {
      assert p * k == -p + p * (k + 1);
    }
  }

  // The caller's pushes: arguments first..n at their packed offsets.
  function StoreArguments(memory: Memory, sp: Address, sizes: seq<nat>, values: seq<nat>, first: nat, n: nat): Memory
    requires n <= |sizes| == |values|
  {
    if n <= first then memory
    else Store(StoreArguments(memory, sp, sizes, values, first, n - 1),
               sp + Packed(sizes, first, n - 1), sizes[n - 1], values[n - 1])
  }

  lemma FetchPastStore(memory: Memory, a: Address, n: nat, v: nat, b: Address, m: nat)
    requires b + m <= a
    ensures Fetch(Store(memory, a, n, v), b, m) == Fetch(memory, b, m)
  {
    forall x | b <= x < b + m ensures Store(memory, a, n, v)(x) == memory(x) {
      StoreElsewhere(memory, a, n, v, x);
    }
    FetchSame(Store(memory, a, n, v), memory, b, m);
  }

  lemma {:induction false} ArgumentsKeepApart(memory: Memory, sp: Address, sizes: seq<nat>, values: seq<nat>,
                                              first: nat, n: nat, i: nat)
    requires first <= i < n <= |sizes| == |values| && values[i] < Power256(sizes[i])
    ensures Fetch(StoreArguments(memory, sp, sizes, values, first, n), sp + Packed(sizes, first, i), sizes[i]) == values[i]
    decreases n
  {
    hide Store, Fetch;
    var before := StoreArguments(memory, sp, sizes, values, first, n - 1);
    var a, b := sp + Packed(sizes, first, n - 1), sp + Packed(sizes, first, i);
    var size, value := sizes[n - 1], values[n - 1];
    assert StoreArguments(memory, sp, sizes, values, first, n) == Store(before, a, size, value);
    if i == n - 1 {
      FetchStored(before, a, size, value);
    } else {
      ArgumentsKeepApart(memory, sp, sizes, values, first, n - 1, i);
      SlotBefore(sizes, first, i, n - 1);
      FetchPastStore(before, a, size, value, b, sizes[i]);
    }
  }

  // -------------------------------------------------------------------------
  // the source's functions

  lemma AddModulo(a: nat, b: nat)
    ensures (a + b % TWO_64) % TWO_64 == (a + b) % TWO_64
  {
    assert a + b == a + b % TWO_64 + TWO_64 * (b / TWO_64);
  }

  // The sum is kept in a size_t.
  method StackArgOffset(f: FuncType, n: nat, firstStackArg: nat) returns (offset: nat)
    requires n <= |f.sizes|
    ensures offset == Packed(f.sizes, firstStackArg, n) % TWO_64
  {
    offset := 0;
    var i := firstStackArg;
    while i < n
      invariant firstStackArg <= i && (firstStackArg <= n ==> i <= n)
      invariant i <= n ==> offset == Packed(f.sizes, firstStackArg, i) % TWO_64
      invariant n < i ==> offset == 0
    {
      AddModulo(f.sizes[i], Packed(f.sizes, firstStackArg, i));
      offset := (offset + f.sizes[i]) % TWO_64;
      i := i + 1;
    }
  }

  // Where the readers look on the stack, if they do.
  function X86ReadsAt(f: FuncType, regs: Registers, n: nat): Option<Address>
    requires n <= |f.sizes|
  {
    if f.cc.Stdcall? || f.cc.Cdecl? then Some((regs.esp + Packed(f.sizes, 0, n)) % TWO_64) else None
  }

  function X64ReadsAt(f: FuncType, regs: Registers, n: nat): Option<Address>
    requires n <= |f.sizes|
  {
    if f.cc.Fastcall? && n >= 4 then Some((regs.rsp + Packed(f.sizes, 4, n)) % TWO_64) else None
  }

  // -1 as a DWORD32 stands for everything that is not supported, stack
  // arguments of a fastcall function among it.
  function X86Arg(regs: Registers, memory: Memory, f: FuncType, n: nat): nat
    requires n <= |f.sizes|
  {
    if f.cc.Fastcall? && n < 2 then [regs.ecx, regs.edx][n]
    else match X86ReadsAt(f, regs, n)
      case Some(a) => Fetch(memory, a, 4)
      case None => TWO_32 - 1
  }

  function X64Arg(regs: Registers, memory: Memory, f: FuncType, n: nat): nat
    requires n <= |f.sizes|
  {
    if f.cc.Fastcall? && n < 4 then [regs.rcx, regs.rdx, regs.r8, regs.r9][n]
    else match X64ReadsAt(f, regs, n)
      case Some(a) => Fetch(memory, a, 8)
      case None => TWO_64 - 1
  }

  method X86GetIntArg(regs: Registers, memory: Memory, f: FuncType, n: nat) returns (v: nat)
    requires n <= |f.sizes|
    ensures v == X86Arg(regs, memory, f, n)
    ensures f.cc.Fastcall? ==> v == if n == 0 then regs.ecx else if n == 1 then regs.edx else 0xFFFF_FFFF
    ensures f.cc.OtherConvention? ==> v == 0xFFFF_FFFF
  {
    hide Fetch, Packed;
    if f.cc.Fastcall? && n < 2 {
      return [regs.ecx, regs.edx][n];
    } else if f.cc.Stdcall? || f.cc.Cdecl? {
      var espOffset := StackArgOffset(f, n, 0);
      AddModulo(regs.esp, Packed(f.sizes, 0, n));
      return Fetch(memory, (regs.esp + espOffset) % TWO_64, 4);
    }
    return TWO_32 - 1;
  }

  method X64GetIntArg(regs: Registers, memory: Memory, f: FuncType, n: nat) returns (v: nat)
    requires n <= |f.sizes|
    ensures v == X64Arg(regs, memory, f, n)
    ensures f.cc.Fastcall? && n == 0 ==> v == regs.rcx
    ensures f.cc.Fastcall? && n == 1 ==> v == regs.rdx
    ensures f.cc.Fastcall? && n == 2 ==> v == regs.r8
    ensures f.cc.Fastcall? && n == 3 ==> v == regs.r9
    ensures !f.cc.Fastcall? ==> v == 0xFFFF_FFFF_FFFF_FFFF
  {
    hide Fetch, Packed;
    if !f.cc.Fastcall? { return TWO_64 - 1; }
    if n < 4 {
      return [regs.rcx, regs.rdx, regs.r8, regs.r9][n];
    }
    var rspOffset := StackArgOffset(f, n, 4);
    AddModulo(regs.rsp, Packed(f.sizes, 4, n));
    return Fetch(memory, (regs.rsp + rspOffset) % TWO_64, 8);
  }

  lemma NoWrap(a: Address)
    requires a < TWO_64
    ensures a % TWO_64 == a
  {
  }

  // What a reader of `width` bytes makes of a value pushed with `size` bytes:
  // the value itself, its low bytes, or the value below whatever follows it.
  ghost predicate ReadAs(v: nat, width: nat, value: nat, size: nat, following: nat) {
    && (size == width ==> v == value)
    && (size > width ==> v == value % Power256(width))
    && (size < width ==> v % Power256(size) == value && (v == value <==> following == 0))
  }

  // The bytes that a reader of `width` bytes reads past a slot of `size`.
  function Following(memory: Memory, a: Address, size: nat, width: nat): nat {
    if width <= size then 0 else Fetch(memory, a + size, width - size)
  }

  lemma FetchWidth(memory: Memory, a: Address, size: nat, width: nat)
    ensures ReadAs(Fetch(memory, a, width), width, Fetch(memory, a, size), size, Following(memory, a, size, width))
  {
    if size > width {
      FetchSplits(memory, a, width, size - width);
      FetchFits(memory, a, width);
      LowPart(Fetch(memory, a, width), Fetch(memory, a + width, size - width), Power256(width));
    } else if size < width {
      FetchSplits(memory, a, size, width - size);
      FetchFits(memory, a, size);
      LowPart(Fetch(memory, a, size), Fetch(memory, a + size, width - size), Power256(size));
    }
  }

  lemma ArgumentIsRead(memory: Memory, sp: Address, sizes: seq<nat>, values: seq<nat>, first: nat, n: nat, width: nat)
    requires first <= n < |sizes| == |values| && values[n] < Power256(sizes[n])
    requires sp + Packed(sizes, first, n) < TWO_64
    ensures var pushed := StoreArguments(memory, sp, sizes, values, first, |sizes|);
            var a := sp + Packed(sizes, first, n);
            a % TWO_64 == a
            && ReadAs(Fetch(pushed, a, width), width, values[n], sizes[n], Following(pushed, a, sizes[n], width))
  {
    hide Fetch, Store, StoreArguments, Packed, ReadAs, Following;
    var pushed := StoreArguments(memory, sp, sizes, values, first, |sizes|);
    var a := sp + Packed(sizes, first, n);
    ArgumentsKeepApart(memory, sp, sizes, values, first, |sizes|, n);
    FetchWidth(pushed, a, sizes[n], width);
    NoWrap(a);
  }

  /** What the x86 reader returns for an argument the caller pushed at its packed
      offset: the argument if it has 4 bytes, the low 4 bytes of a larger one,
      and for a smaller one its value exactly when zeros follow it in memory. */
  lemma X86ArgumentReadsBack(regs: Registers, memory: Memory, f: FuncType, values: seq<nat>, n: nat)
    requires f.cc.Cdecl? || f.cc.Stdcall?
    requires n < |f.sizes| == |values| && values[n] < Power256(f.sizes[n])
    requires regs.esp + Packed(f.sizes, 0, n) < TWO_64
    ensures var pushed := StoreArguments(memory, regs.esp, f.sizes, values, 0, |f.sizes|);
            ReadAs(X86Arg(regs, pushed, f, n), 4, values[n], f.sizes[n],
                   Following(pushed, regs.esp + Packed(f.sizes, 0, n), f.sizes[n], 4))
  {
    hide ReadAs, Packed, Fetch, StoreArguments, Following;
    ArgumentIsRead(memory, regs.esp, f.sizes, values, 0, n, 4);
  }

  /** The same for the x64 reader and its 8 bytes, from the fifth argument on. */
  lemma X64ArgumentReadsBack(regs: Registers, memory: Memory, f: FuncType, values: seq<nat>, n: nat)
    requires f.cc.Fastcall?
    requires 4 <= n < |f.sizes| == |values| && values[n] < Power256(f.sizes[n])
    requires regs.rsp + Packed(f.sizes, 4, n) < TWO_64
    ensures var pushed := StoreArguments(memory, regs.rsp, f.sizes, values, 4, |f.sizes|);
            ReadAs(X64Arg(regs, pushed, f, n), 8, values[n], f.sizes[n],
                   Following(pushed, regs.rsp + Packed(f.sizes, 4, n), f.sizes[n], 8))
  {
    hide ReadAs, Packed, Fetch, StoreArguments, Following;
    ArgumentIsRead(memory, regs.rsp, f.sizes, values, 4, n, 8);
  }

  // A fastcall caller's first arguments, in the registers it uses for them.
  predicate PassedX86(regs: Registers, values: seq<nat>) {
    (|values| > 0 ==> values[0] == regs.ecx) && (|values| > 1 ==> values[1] == regs.edx)
  }

  predicate PassedX64(regs: Registers, values: seq<nat>) {
    && (|values| > 0 ==> values[0] == regs.rcx) && (|values| > 1 ==> values[1] == regs.rdx)
    && (|values| > 2 ==> values[2] == regs.r8) && (|values| > 3 ==> values[3] == regs.r9)
  }

  /** Register arguments are read back: the first two of an x86 fastcall
      function, the first four on x64. */
  lemma RegisterArgumentsReadBack(regs: Registers, memory: Memory, f: FuncType, values: seq<nat>, n: nat)
    requires f.cc.Fastcall? && n < |f.sizes| == |values|
    ensures PassedX86(regs, values) && n < 2 ==> X86Arg(regs, memory, f, n) == values[n]
    ensures PassedX64(regs, values) && n < 4 ==> X64Arg(regs, memory, f, n) == values[n]
  {
  }

  lemma LowBits(a: nat)
    ensures (a % TWO_64) % TWO_32 == a % TWO_32
    ensures a % TWO_32 == a % TWO_64 <==> a % TWO_64 < TWO_32
  {
    var q := a / TWO_64;
    assert a == (q * TWO_32) * TWO_32 + a % TWO_64;
  }

  lemma LowBitsOfSum(a: nat, b: nat)
    ensures (a + b % TWO_64) % TWO_32 == (a + b) % TWO_32
  {
    AddModulo(a, b);
    LowBits(a + b % TWO_64);
    LowBits(a + b);
  }

  // Asked only for pointers: copy the address stored in the argument instead?
  datatype Answer = Yes | No | Cancel

  // What ends up on the clipboard: nothing new after a warning, an empty text,
  // or what "0x%X" makes of a number, its low 32 bits.
  datatype Copied = Warned | EmptyText | Number(low: nat)

  method CopyArgumentAddress(bitness: Bitness, regs: Registers, memory: Memory, f: FuncType, n: nat,
                             isPointer: bool, answer: Answer) returns (copied: Copied)
    ensures copied.Warned? <==>
              || n >= |f.sizes|
              || (!(isPointer && answer != No) && ((bitness.X86? && f.cc.Fastcall? && n < 2) || (bitness.X64? && n < 4)))
    ensures copied.EmptyText? <==>
              && n < |f.sizes|
              && ((isPointer && answer == Cancel) || (bitness.OtherBitness? && !(isPointer && answer == Yes)))
    ensures n < |f.sizes| && isPointer && answer == Yes && bitness.OtherBitness? ==> copied == Number(0)
    ensures copied == if n >= |f.sizes| then Warned
                      else if isPointer && answer != No then CopiedContents(bitness, regs, memory, f, n, answer)
                      else CopiedAddress(bitness, regs, f, n)
  {
    if n >= |f.sizes| { return Warned; }
    copied := EmptyText;
    var copyPointerContents := No;
    if isPointer {
      copyPointerContents := answer;
      if copyPointerContents == Yes {
        var ptr := 0;
        if bitness.X86? {
          ptr := X86GetIntArg(regs, memory, f, n);
        } else if bitness.X64? {
          ptr := X64GetIntArg(regs, memory, f, n);
        }
        copied := Number(ptr % TWO_32);
      }
    }
    if copyPointerContents == No {
      if bitness.X86? {
        var firstStackArg := 0;
        if f.cc.Fastcall? && n < 2 {
          return Warned;
        } else if f.cc.Fastcall? {
          firstStackArg := 2;
        }
        var espOffset := StackArgOffset(f, n, firstStackArg);
        LowBitsOfSum(regs.esp, Packed(f.sizes, firstStackArg, n));
        copied := Number((regs.esp + espOffset) % TWO_32);
      } else if bitness.X64? {
        if n < 4 { return Warned; }
        var rspOffset := StackArgOffset(f, n, 4);
        LowBitsOfSum(regs.rsp, Packed(f.sizes, 4, n));
        copied := Number((regs.rsp + rspOffset) % TWO_32);
      }
    }
  }

  function CopiedContents(bitness: Bitness, regs: Registers, memory: Memory, f: FuncType, n: nat, answer: Answer): Copied
    requires n <= |f.sizes|
  {
    if answer != Yes then EmptyText
    else match bitness
      case X86 => Number(X86Arg(regs, memory, f, n) % TWO_32)
      case X64 => Number(X64Arg(regs, memory, f, n) % TWO_32)
      case OtherBitness => Number(0)
  }

  function CopiedAddress(bitness: Bitness, regs: Registers, f: FuncType, n: nat): Copied
    requires n <= |f.sizes|
  {
    var offer := match bitness
      case X86 => X86Offers(f, regs, n)
      case X64 => X64Offers(f, regs, n)
      case OtherBitness => None;
    if bitness.OtherBitness? then EmptyText
    else if offer.None? then Warned else Number(offer.value)
  }

  /** Of a pointer's contents the low 32 bits are copied.  One stored on the stack
      is copied whole on x86, and on x64 exactly when it is below 2^32. */
  lemma CopiedPointer(regs: Registers, memory: Memory, f: FuncType, n: nat)
    requires n <= |f.sizes|
    ensures var copied, pointer := CopiedContents(X86, regs, memory, f, n, Yes), X86Arg(regs, memory, f, n);
            copied.Number? && copied.low < 0x1_0000_0000 && (pointer - copied.low) % 0x1_0000_0000 == 0
    ensures var copied, pointer := CopiedContents(X64, regs, memory, f, n, Yes), X64Arg(regs, memory, f, n);
            copied.Number? && copied.low < 0x1_0000_0000 && (pointer - copied.low) % 0x1_0000_0000 == 0
    ensures X86ReadsAt(f, regs, n).Some? ==>
              CopiedContents(X86, regs, memory, f, n, Yes) == Number(X86Arg(regs, memory, f, n))
    ensures X64ReadsAt(f, regs, n).Some? ==>
              (CopiedContents(X64, regs, memory, f, n, Yes) == Number(X64Arg(regs, memory, f, n)) <==>
                 Fetch(memory, X64ReadsAt(f, regs, n).value + 4, 4) == 0)
  {
    hide Fetch, Packed;
    assert Power256(4) == TWO_32 by { assert Power256(2) == 256 * 256; }
    if X86ReadsAt(f, regs, n).Some? {
      FetchFits(memory, X86ReadsAt(f, regs, n).value, 4);
    }
    if X64ReadsAt(f, regs, n).Some? {
      var a := X64ReadsAt(f, regs, n).value;
      FetchSplits(memory, a, 4, 4);
      FetchFits(memory, a, 4);
    }
  }

  function X86Offers(f: FuncType, regs: Registers, n: nat): Option<nat>
    requires n <= |f.sizes|
  {
    if f.cc.Fastcall? && n < 2 then None
    else Some((regs.esp + Packed(f.sizes, if f.cc.Fastcall? then 2 else 0, n)) % TWO_32)
  }

  function X64Offers(f: FuncType, regs: Registers, n: nat): Option<nat>
    requires n <= |f.sizes|
  {
    if n < 4 then None else Some((regs.rsp + Packed(f.sizes, 4, n)) % TWO_32)
  }

  /** The address offered for copying is the one the reader uses exactly when the
      convention makes the reader use the stack and the address fits 32 bits;
      the source prints 64-bit stack addresses with a 32-bit format. */
  lemma OfferedAddress(f: FuncType, regs: Registers, n: nat)
    requires n < |f.sizes|
    ensures X86Offers(f, regs, n).Some? ==>
              (X86ReadsAt(f, regs, n) == X86Offers(f, regs, n) <==>
                 (f.cc.Cdecl? || f.cc.Stdcall?) && (regs.esp + Packed(f.sizes, 0, n)) % TWO_64 < TWO_32)
    ensures X64Offers(f, regs, n).Some? ==>
              (X64ReadsAt(f, regs, n) == X64Offers(f, regs, n) <==>
                 f.cc.Fastcall? && (regs.rsp + Packed(f.sizes, 4, n)) % TWO_64 < TWO_32)
  {
    LowBits(regs.esp + Packed(f.sizes, 0, n));
    LowBits(regs.rsp + Packed(f.sizes, 4, n));
  }

  lemma AddressHolds(memory: Memory, sp: Address, sizes: seq<nat>, values: seq<nat>, first: nat, n: nat)
    requires first <= n < |sizes| == |values| && values[n] < Power256(sizes[n]) && sp + Packed(sizes, first, n) < TWO_32
    ensures Fetch(StoreArguments(memory, sp, sizes, values, first, |sizes|), (sp + Packed(sizes, first, n)) % TWO_32, sizes[n])
         == values[n]
  {
    hide Fetch, Store, StoreArguments, Packed;
    ArgumentsKeepApart(memory, sp, sizes, values, first, |sizes|, n);
  }

  /** The address offered on x86 is where a caller that passes `first` arguments
      in registers put the argument, also for the fastcall arguments the reader
      does not read. */
  lemma X86OffersTheArgument(regs: Registers, memory: Memory, f: FuncType, values: seq<nat>, first: nat, n: nat)
    requires first == (if f.cc.Fastcall? then 2 else 0) && first <= n < |f.sizes| == |values|
    requires values[n] < Power256(f.sizes[n]) && regs.esp + Packed(f.sizes, first, n) < TWO_32
    ensures X86Offers(f, regs, n).Some?
    ensures Fetch(StoreArguments(memory, regs.esp, f.sizes, values, first, |f.sizes|), X86Offers(f, regs, n).value, f.sizes[n])
         == values[n]
  {
    hide Fetch, StoreArguments, Packed;
    AddressHolds(memory, regs.esp, f.sizes, values, first, n);
  }

  lemma X64OffersTheArgument(regs: Registers, memory: Memory, f: FuncType, values: seq<nat>, n: nat)
    requires 4 <= n < |f.sizes| == |values|
    requires values[n] < Power256(f.sizes[n]) && regs.rsp + Packed(f.sizes, 4, n) < TWO_32
    ensures X64Offers(f, regs, n).Some?
    ensures Fetch(StoreArguments(memory, regs.rsp, f.sizes, values, 4, |f.sizes|), X64Offers(f, regs, n).value, f.sizes[n])
         == values[n]
  {
    hide Fetch, StoreArguments, Packed;
    AddressHolds(memory, regs.rsp, f.sizes, values, 4, n);
  }
}
