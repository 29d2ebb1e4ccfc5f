/** The growable child list of a syntax tree node: it doubles when its length is a power of two. */
module AstLists {

  datatype Child = Null | Node(id: int)

  predicate IsPower(n: nat) {
    n == 1 || (n > 1 && n % 2 == 0 && IsPower(n / 2))
  }

  // ---- the bit trick ----

  predicate Odd(w: bv32) { w & 1 == 1 }

  function Half(w: bv32): bv32 { w >> 1 }

  /** The number a word stands for. */
  function Value(w: bv32): nat
    decreases w
  {
    if w == 0 then 0 else HalfLess(w); (if Odd(w) then 1 else 0) + 2 * Value(Half(w))
  }

  lemma HalfLess(w: bv32)
    requires w != 0
    ensures Half(w) < w
  {}

  /** n is its own lowest set bit. */
  predicate PowerTrick(n: bv32) {
    n != 0 && n == (n & (!n + 1))
  }

  lemma TrickEven(n: bv32)
    requires !Odd(n) && n != 0
    ensures PowerTrick(n) <==> PowerTrick(Half(n))
    ensures Half(n) != 0
  {}

  lemma TrickOdd(n: bv32)
    requires Odd(n)
    ensures PowerTrick(n) <==> n == 1
    ensures n != 1 ==> Half(n) != 0
    ensures n == 1 ==> Half(n) == 0
  {}

  lemma {:induction false} ValuePositive(n: bv32)
    requires n != 0
    ensures Value(n) > 0
    decreases n
  {
    if !Odd(n) {
      TrickEven(n);
      HalfLess(n);
      ValuePositive(Half(n));
    }
  }

  lemma ValueUnfolds(n: bv32)
    requires n != 0
    ensures Value(n) == (if Odd(n) then 1 else 0) + 2 * Value(Half(n)) && Half(n) < n
  {
    hide Odd, Half;
    HalfLess(n);
  }

  lemma PowerEven(h: nat)
    requires h > 0
    ensures IsPower(2 * h) <==> IsPower(h)
  {
    assert 2 * h / 2 == h;
  }

  lemma PowerOdd(h: nat)
    ensures IsPower(2 * h + 1) <==> h == 0
  {}

  /** The word trick tells powers of two. */
  lemma {:induction false} TrickTells(n: bv32)
    ensures PowerTrick(n) <==> IsPower(Value(n))
    decreases n
  {
    hide *;
    if n == 0 {
      ZeroIsNone();
    } else {
      ValueUnfolds(n);
      if Odd(n) {
        TrickOdd(n);
        PowerOdd(Value(Half(n)));
        if Half(n) != 0 {
          ValuePositive(Half(n));
        } else {
          ZeroIsNone();
        }
      } else {
        TrickEven(n);
        ValuePositive(Half(n));
        PowerEven(Value(Half(n)));
        TrickTells(Half(n));
      }
    }
  }

  lemma ZeroIsNone()
    ensures !PowerTrick(0) && Value(0) == 0 && !IsPower(0)
  {}

  // ---- how much room a list of n has ----

  /** The least power of two that is at least n and at least 4. */
  function Room(n: nat): (r: nat)
    ensures r >= n && r >= 4 && IsPower(r)
    decreases n
  {
    if n <= 4 then IsPower4(); 4 else Doubled(Room((n + 1) / 2)); 2 * Room((n + 1) / 2)
  }

  lemma IsPower4()
    ensures IsPower(4) && IsPower(2)
  {
    assert IsPower(2);
  }

  lemma Doubled(n: nat)
    requires IsPower(n) && n > 0
    ensures IsPower(2 * n)
  {
    assert 2 * n / 2 == n;
  }

  lemma {:induction false} RoomGrows(m: nat, n: nat)
    requires m <= n
    ensures Room(m) <= Room(n)
    decreases n
  {
    if n > 4 && m > 4 {
      RoomGrows((m + 1) / 2, (n + 1) / 2);
    }
  }

  /** At a power of two the list is full; one more child needs twice the room. Elsewhere there is room for one more. */
  lemma {:induction false} RoomAtPower(n: nat)
    requires n >= 4
    ensures IsPower(n) ==> Room(n) == n && Room(n + 1) == 2 * n
    ensures !IsPower(n) ==> Room(n) > n
    decreases n
  {
    if n == 4 {
      assert Room(3) == 4;
    } else if n < 8 {
      assert !IsPower(3);
    } else if n % 2 == 0 {
      RoomAtPower(n / 2);
      assert (n + 1) / 2 == n / 2 && (n + 2) / 2 == n / 2 + 1;
    } else {
      RoomAtPower((n + 1) / 2);
    }
  }

  class AstList {
    var slots: array<Child>
    var children: nat

    ghost predicate Valid()
      reads this, slots
    {
      children <= slots.Length && Room(children) <= slots.Length
    }

    ghost function Contents(): seq<Child>
      reads this, slots
      requires Valid()
    {
      slots[..children]
    }

    /** A list of the given children, added one by one. */
    constructor (init: seq<Child>)
      ensures Valid() && fresh(slots) && Contents() == init
    {
      slots := new Child[4];
      children := 0;
      new;
      for i := 0 to |init|
        invariant Valid() && fresh(slots) && Contents() == init[..i]
      {
        Add(init[i]);
      }
    }

    /** A larger block with the first oldSize children copied. */
    method Realloc(oldSize: nat, newSize: nat) returns (block: array<Child>)
      requires oldSize <= slots.Length && oldSize <= newSize
      ensures fresh(block) && block.Length == newSize && block[..oldSize] == slots[..oldSize]
    {
      block := new Child[newSize];
      for i := 0 to oldSize
        invariant block[..i] == slots[..i]
      {
        block[i] := slots[i];
      }
    }

    method Add(op: Child)
      requires Valid()
      modifies this, slots
      ensures Valid() && Contents() == old(Contents()) + [op]
      ensures slots == old(slots) || fresh(slots)
      ensures old(children) >= 4 && IsPower(old(children)) ==> fresh(slots) && slots.Length == 2 * old(children)
      ensures !(old(children) >= 4 && IsPower(old(children))) ==> slots == old(slots)
    {
      hide Room, IsPower;
      if children >= 4 { RoomAtPower(children); }
      if children >= 4 && IsPower(children) {
        slots := Realloc(children, children * 2);
      } else {
        RoomNext(children);
      }
      slots[children] := op;
      children := children + 1;
    }

    /** Takes one missing child off the end. */
    method Rtrim()
      requires Valid()
      modifies this
      ensures Valid() && slots == old(slots)
      ensures Contents() == Trimmed(old(Contents()))
    {
      if children != 0 && slots[children - 1] == Null {
        RoomGrows(children - 1, children);
        children := children - 1;
      }
    }
  }

  function Trimmed(s: seq<Child>): seq<Child> {
    if s != [] && s[|s| - 1] == Null then s[..|s| - 1] else s
  }

  /** Room only changes where the list grows. */
  lemma RoomNext(n: nat)
    requires n < 4 || !IsPower(n)
    ensures Room(n + 1) == Room(n)
  {
    if n >= 4 { RoomSame(n); }
  }

  lemma {:induction false} RoomSame(n: nat)
    requires n >= 4 && !IsPower(n)
    ensures Room(n + 1) == Room(n)
    decreases n
  {
    if n < 8 {
      assert n > 4 by { IsPower4(); }
    } else if n % 2 == 0 {
      assert (n + 1) / 2 == n / 2 && (n + 2) / 2 == n / 2 + 1;
      RoomSame(n / 2);
    } else {
      assert (n + 1) / 2 == (n + 2) / 2;
    }
  }

  /** A list built and changed in any order of additions and trims. */
  datatype Change = Add(op: Child) | Trim

  ghost function Result(s: seq<Child>, changes: seq<Change>): seq<Child>
    decreases |changes|
  {
    if changes == [] then s
    else Result(match changes[0] case Add(op) => s + [op] case Trim => Trimmed(s), changes[1..])
  }

  method Apply(list: AstList, changes: seq<Change>)
    requires list.Valid()
    modifies list, list.slots
    ensures list.Valid() && list.Contents() == Result(old(list.Contents()), changes)
    ensures list.slots == old(list.slots) || fresh(list.slots)
  {
    assert changes[0..] == changes;
    for i := 0 to |changes|
      invariant list.Valid() && Result(list.Contents(), changes[i..]) == Result(old(list.Contents()), changes)
      invariant list.slots == old(list.slots) || fresh(list.slots)
    {
      assert changes[i..][1..] == changes[i + 1..];
      match changes[i] {
        case Add(op) => list.Add(op);
        case Trim => list.Rtrim();
      }
    }
  }
}
