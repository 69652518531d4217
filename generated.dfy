/** What the code the generator emits does when it runs: the methods that
    `add_methods` writes and the operator and `Display` impls that
    `add_operators` writes (`src/parser.rs`), on the struct
    `{ value: <storage type> }` declared by the struct header. */
module Generated {
  import opened Numbers
  import opened FlagsTypes

  // ---------------------------------------------------------------------
  // The bitwise operators of the storage type, bit by bit from the lowest

  /** `&` */
  function And(a: nat, b: nat): (r: nat)
    ensures r <= a && r <= b
    decreases a + b
  {
    if a == 0 && b == 0 then 0
    else 2 * And(a / 2, b / 2) + (if a % 2 == 1 && b % 2 == 1 then 1 else 0)
  }

  /** `|` */
  function Or(a: nat, b: nat): (r: nat)
    ensures a <= r <= a + b && b <= r
    decreases a + b
  {
    if a == 0 && b == 0 then 0
    else 2 * Or(a / 2, b / 2) + (if a % 2 == 1 || b % 2 == 1 then 1 else 0)
  }

  /** Reference for `remove`: the bits of `a` that are not bits of `b`. */
  function AndNot(a: nat, b: nat): (r: nat)
    ensures r <= a
    decreases a + b
  {
    if a == 0 && b == 0 then 0
    else 2 * AndNot(a / 2, b / 2) + (if a % 2 == 1 && b % 2 == 0 then 1 else 0)
  }

  /** Subtracting the common bits clears exactly the bits of `b`. */
  lemma {:induction false} SubtractCommonBits(a: nat, b: nat)
    ensures a - And(a, b) == AndNot(a, b)
    decreases a + b
  {
    if a != 0 || b != 0 {
      SubtractCommonBits(a / 2, b / 2);
    }
  }

  lemma {:induction false} SubmaskIffOr(a: nat, b: nat)
    ensures And(a, b) == b <==> Or(a, b) == a
    decreases a + b
  {
    if a != 0 || b != 0 {
      SubmaskIffOr(a / 2, b / 2);
    }
  }

  lemma {:induction false} AndSelf(a: nat)
    ensures And(a, a) == a
    decreases a
  {
    if a != 0 {
      AndSelf(a / 2);
    }
  }

  lemma {:induction false} OrCommutes(a: nat, b: nat)
    ensures Or(a, b) == Or(b, a) && And(a, b) == And(b, a)
    decreases a + b
  {
    if a != 0 || b != 0 {
      OrCommutes(a / 2, b / 2);
    }
  }

  lemma {:induction false} OrHoldsRight(a: nat, b: nat)
    ensures And(Or(a, b), b) == b
    decreases a + b
  {
    if a != 0 || b != 0 {
      OrHoldsRight(a / 2, b / 2);
      var o := Or(a, b);
      assert o / 2 == Or(a / 2, b / 2);
    }
  }

  lemma {:induction false} OrIsLeast(a: nat, b: nat, c: nat)
    requires And(c, a) == a && And(c, b) == b
    ensures And(c, Or(a, b)) == Or(a, b)
    decreases a + b + c
  {
    if a != 0 || b != 0 || c != 0 {
      OrIsLeast(a / 2, b / 2, c / 2);
      var o := Or(a, b);
      assert o / 2 == Or(a / 2, b / 2);
    }
  }

  lemma {:induction false} AndHeldByBoth(a: nat, b: nat)
    ensures And(a, And(a, b)) == And(a, b)
    decreases a + b
  {
    if a != 0 || b != 0 {
      AndHeldByBoth(a / 2, b / 2);
      var d := And(a, b);
      assert d / 2 == And(a / 2, b / 2);
    }
  }

  lemma {:induction false} AndIsGreatest(a: nat, b: nat, c: nat)
    requires And(a, c) == c && And(b, c) == c
    ensures And(And(a, b), c) == c
    decreases a + b + c
  {
    if a != 0 || b != 0 || c != 0 {
      AndIsGreatest(a / 2, b / 2, c / 2);
      var d := And(a, b);
      assert d / 2 == And(a / 2, b / 2);
    }
  }

  lemma {:induction false} RemoveAfterOr(a: nat, b: nat)
    ensures AndNot(Or(a, b), b) == AndNot(a, b)
    decreases a + b
  {
    if a != 0 || b != 0 {
      RemoveAfterOr(a / 2, b / 2);
      var o := Or(a, b);
      assert o / 2 == Or(a / 2, b / 2);
    }
  }

  lemma {:induction false} RestoreSubmask(a: nat, b: nat)
    requires And(a, b) == b
    ensures Or(AndNot(a, b), b) == a
    decreases a + b
  {
    if a != 0 || b != 0 {
      RestoreSubmask(a / 2, b / 2);
      var d := AndNot(a, b);
      assert d / 2 == AndNot(a / 2, b / 2);
    }
  }

  lemma {:induction false} AndNotClears(a: nat, b: nat)
    ensures And(AndNot(a, b), b) == 0
    decreases a + b
  {
    if a != 0 || b != 0 {
      AndNotClears(a / 2, b / 2);
      var d := AndNot(a, b);
      assert d / 2 == AndNot(a / 2, b / 2);
    }
  }

  lemma {:induction false} AndNotKeeps(a: nat, b: nat, c: nat)
    requires And(a, c) == c && And(c, b) == 0
    ensures And(AndNot(a, b), c) == c
    decreases a + b + c
  {
    if a != 0 || b != 0 || c != 0 {
      AndNotKeeps(a / 2, b / 2, c / 2);
      var d := AndNot(a, b);
      assert d / 2 == AndNot(a / 2, b / 2);
    }
  }

  lemma {:induction false} OrBelowPow(a: nat, b: nat, n: nat)
    requires a < Pow(2, n) && b < Pow(2, n)
    ensures Or(a, b) < Pow(2, n)
    decreases n
  {
    if n > 0 {
      OrBelowPow(a / 2, b / 2, n - 1);
    }
  }

  lemma {:induction false} SingleBit(a: nat, i: nat)
    ensures Pow(2, i) > 0
    ensures And(a, Pow(2, i)) == 0 || And(a, Pow(2, i)) == Pow(2, i)
    decreases i
  {
    if i > 0 {
      SingleBit(a / 2, i - 1);
      assert Pow(2, i) / 2 == Pow(2, i - 1);
    }
  }

  // ---------------------------------------------------------------------
  // The generated struct

  /** The struct's one field, a value of the storage type. */
  datatype Flags = Flags(value: nat)

  /** The value is one the storage type holds. */
  predicate Fits(f: Flags, t: FlagsType)
  {
    f.value < Pow(2, Bits(t))
  }

  /** The test `(self.value & v) == v`, which `contains` and the Display
      impl both write. */
  predicate Passes(f: Flags, v: nat)
  {
    And(f.value, v) == v
  }

  // The methods of `add_methods`

  /** `contains`: every bit of `obj` is set in `self`, and `obj` has at
      least one bit. */
  function Contains(self: Flags, obj: Flags): (r: bool)
    ensures r <==> obj.value != 0 && BitOr(self, obj) == self
  {
    SubmaskIffOr(self.value, obj.value);
    Passes(self, obj.value) && obj.value != 0
  }

  /** `contains_one`: some bit of `obj` is set in `self`, that is,
      removing `obj` changes `self`. */
  function ContainsOne(self: Flags, obj: Flags): (r: bool)
    ensures r <==> Remove(self, obj) != self
  {
    And(self.value, obj.value) != 0
  }

  /** `is_empty`: no bit is set. */
  function IsEmpty(self: Flags): (r: bool)
    ensures r <==> self == Default()
  {
    self.value == 0
  }

  /** `remove`: the subtraction never goes below zero and clears exactly
      the bits of `obj`. */
  function Remove(self: Flags, obj: Flags): (r: Flags)
    ensures r.value == AndNot(self.value, obj.value)
  {
    SubtractCommonBits(self.value, obj.value);
    Flags(self.value - And(self.value, obj.value))
  }

  // The operators of `add_operators`

  /** `|` of `BitOr`; also the new value after `set` and `|=`. */
  function BitOr(a: Flags, b: Flags): (r: Flags)
    ensures r.value >= a.value && r.value >= b.value
  {
    Flags(Or(a.value, b.value))
  }

  /** `&` of `BitAnd`; also the new value after `&=`. */
  function BitAnd(a: Flags, b: Flags): (r: Flags)
    ensures r.value <= a.value && r.value <= b.value
  {
    Flags(And(a.value, b.value))
  }

  /** `eq` of `PartialEq`: equal fields, equal structs. */
  function Eq(a: Flags, b: Flags): (r: bool)
    ensures r <==> a == b
  {
    a.value == b.value
  }

  /** `default` of `Default`; also the value after `clear`: no flag is set. */
  function Default(): (r: Flags)
    ensures forall obj :: !ContainsOne(r, obj)
  {
    Flags(0)
  }

  // ---------------------------------------------------------------------
  // Laws the generated code keeps

  /** Values of the storage type stay values of the storage type. */
  lemma OperationsKeepWidth(a: Flags, b: Flags, t: FlagsType)
    requires Fits(a, t) && Fits(b, t)
    ensures Fits(BitOr(a, b), t) && Fits(BitAnd(a, b), t) && Fits(Remove(a, b), t)
  {
    OrBelowPow(a.value, b.value, Bits(t));
  }

  /** `|` and `&` do not depend on the order of their operands. */
  lemma OperatorsCommute(a: Flags, b: Flags)
    ensures BitOr(a, b) == BitOr(b, a) && BitAnd(a, b) == BitAnd(b, a)
  {
    OrCommutes(a.value, b.value);
  }

  /** `|` is the union: it contains both operands, and whatever contains
      both operands contains it. */
  lemma BitOrIsUnion(a: Flags, b: Flags, c: Flags)
    ensures a.value != 0 ==> Contains(BitOr(a, b), a)
    ensures b.value != 0 ==> Contains(BitOr(a, b), b)
    ensures Contains(c, a) && Contains(c, b) ==> Contains(c, BitOr(a, b))
  {
    OrHoldsRight(a.value, b.value);
    OrHoldsRight(b.value, a.value);
    OrCommutes(a.value, b.value);
    if Contains(c, a) && Contains(c, b) {
      OrIsLeast(a.value, b.value, c.value);
    }
  }

  /** `&` is the intersection: both operands contain it, and it contains
      whatever both operands contain. */
  lemma BitAndIsIntersection(a: Flags, b: Flags, c: Flags)
    ensures BitAnd(a, b).value != 0 ==> Contains(a, BitAnd(a, b)) && Contains(b, BitAnd(a, b))
    ensures Contains(a, c) && Contains(b, c) ==> Contains(BitAnd(a, b), c)
  {
    AndHeldByBoth(a.value, b.value);
    AndHeldByBoth(b.value, a.value);
    OrCommutes(a.value, b.value);
    if Contains(a, c) && Contains(b, c) {
      AndIsGreatest(a.value, b.value, c.value);
    }
  }

  /** After `set(obj)` the value contains `obj`, and removing `obj` again
      gives what removing it from the old value gives. */
  lemma SetThenContains(a: Flags, b: Flags)
    ensures b.value != 0 ==> Contains(BitOr(a, b), b)
    ensures Remove(BitOr(a, b), b) == Remove(a, b)
  {
    OrHoldsRight(a.value, b.value);
    RemoveAfterOr(a.value, b.value);
  }

  /** Removing a contained flag and setting it again restores the value;
      setting an absent flag and removing it again does too. */
  lemma SetRemoveRoundTrip(a: Flags, b: Flags)
    ensures Contains(a, b) ==> BitOr(Remove(a, b), b) == a
    ensures !ContainsOne(a, b) ==> Remove(BitOr(a, b), b) == a
  {
    if Contains(a, b) {
      RestoreSubmask(a.value, b.value);
    }
    SubtractCommonBits(a.value, b.value);
    RemoveAfterOr(a.value, b.value);
  }

  /** After `remove(obj)` no bit of `obj` is left, and every flag that
      shares no bit with `obj` is still contained. */
  lemma RemoveLeavesNoBitOf(a: Flags, b: Flags, c: Flags)
    ensures !ContainsOne(Remove(a, b), b)
    ensures Contains(a, c) && !ContainsOne(c, b) ==> Contains(Remove(a, b), c)
  {
    AndNotClears(a.value, b.value);
    if Contains(a, c) && !ContainsOne(c, b) {
      AndNotKeeps(a.value, b.value, c.value);
    }
  }

  /** `contains` implies `contains_one`; on a single-bit flag they agree. */
  lemma ContainsAndContainsOne(a: Flags, b: Flags, i: nat)
    ensures Contains(a, b) ==> ContainsOne(a, b)
    ensures b.value == Pow(2, i) ==> (Contains(a, b) <==> ContainsOne(a, b))
  {
    SingleBit(a.value, i);
  }

  /** `clear` and `default` give an empty value, and only the empty value
      is empty. */
  lemma ClearIsEmpty(a: Flags)
    ensures IsEmpty(Default())
    ensures IsEmpty(a) <==> forall obj :: !ContainsOne(a, obj)
  {
    if !IsEmpty(a) {
      AndSelf(a.value);
      assert ContainsOne(a, a);
    }
  }

  /** `test_bit_or` of the crate's tests, on `V1 = 1`, `V2 = 2` and
      `V3 = 128`. */
  lemma TestBitOr()
    ensures var t := BitOr(Flags(1), Flags(2));
      Contains(t, Flags(1)) && Contains(t, Flags(2)) && !Contains(t, Flags(128))
      && !Contains(t, BitOr(Flags(1), Flags(128))) && ContainsOne(t, BitOr(Flags(1), Flags(128)))
  {
    assert Or(1, 2) == 3;
    assert And(3, 1) == 1 && And(3, 2) == 2;
    assert And(3, 128) == 0;
    assert Or(1, 128) == 129;
    assert And(3, 129) == 1;
  }

  /** The first removals of `test_remove_method`: removing `V2` from
      `V1 | V2` keeps `V1` only, and removing `V1` then empties it. */
  lemma TestRemoveMethod()
    ensures var t := Remove(BitOr(Flags(1), Flags(2)), Flags(2));
      Contains(t, Flags(1)) && !Contains(t, Flags(2)) && IsEmpty(Remove(t, Flags(1)))
  {
    assert Or(1, 2) == 3;
    assert And(3, 2) == 2 && And(1, 2) == 0 && And(1, 1) == 1;
  }

  /** `test_contains` and `test_cmp_opes` of the crate's tests: `&` with
      a flag keeps exactly that flag or nothing, and equality compares the
      bits. */
  lemma TestContainsAndCompare()
    ensures var t := BitOr(Flags(1), Flags(2));
      BitAnd(t, Flags(1)) == Flags(1) && BitAnd(t, Flags(2)) == Flags(2) && BitAnd(t, Flags(128)) == Default()
    ensures Eq(Flags(1), Flags(1)) && !Eq(Flags(1), BitOr(Flags(1), Flags(2)))
  {
    assert Or(1, 2) == 3;
    assert And(3, 1) == 1 && And(3, 2) == 2;
    assert And(3, 128) == 0;
  }

  // ---------------------------------------------------------------------
  // Display

  /** The tests that `add_operators` writes into `fmt`, one per flag in
      name order, as written: a flag is shown when it `Passes`, preceded by
      " | " unless it is the first one shown. This is what the pieces
      `Emitted.VariantCheck` (the `(self.value & v) == v` test, the `first`
      flag and the " | " separator) compute when they run; `first` starts
      out true, as the last line of `Emitted.DISPLAY_EMPTY` sets it. */
  function WriteTests(vs: seq<(nat, string)>, f: Flags, first: bool): string
  {
    if vs == [] then ""
    else if Passes(f, vs[0].0) then
      (if first then "" else " | ") + vs[0].1 + WriteTests(vs[1..], f, false)
    else WriteTests(vs[1..], f, first)
  }

  /** The whole of `fmt`: the type's name, then the empty case's name for
      a zero value and the shown flags otherwise, in parentheses. The head
      and the zero-value branch are `Emitted.DISPLAY_EMPTY`, the tests
      `WriteTests` and the closing parenthesis `Emitted.DISPLAY_TAIL`. */
  function DisplayAsWritten(name: string, empty: string, vs: seq<(nat, string)>, f: Flags): string
  {
    name + " (" + (if f.value == 0 then empty else WriteTests(vs, f, true)) + ")"
  }

  /** Reference: the names of the flags whose test passes, in order. */
  function Shown(vs: seq<(nat, string)>, f: Flags): (r: seq<string>)
    ensures |r| <= |vs|
  {
    if vs == [] then []
    else (if Passes(f, vs[0].0) then [vs[0].1] else []) + Shown(vs[1..], f)
  }

  /** Names joined by " | ". */
  function Join(ns: seq<string>): string
  {
    if ns == [] then "" else ns[0] + Joined(ns[1..])
  }

  /** Names, each preceded by " | ". */
  function Joined(ns: seq<string>): string
  {
    if ns == [] then "" else " | " + ns[0] + Joined(ns[1..])
  }

  /** The `first` flag of the written tests puts " | " between the shown
      names and nowhere else. */
  lemma {:induction false} WriteTestsJoins(vs: seq<(nat, string)>, f: Flags)
    ensures WriteTests(vs, f, true) == Join(Shown(vs, f))
    ensures WriteTests(vs, f, false) == Joined(Shown(vs, f))
  {
    if vs != [] {
      WriteTestsJoins(vs[1..], f);
      var rest := Shown(vs[1..], f);
      if Passes(f, vs[0].0) {
        assert Shown(vs, f) == [vs[0].1] + rest;
        assert ([vs[0].1] + rest)[1..] == rest;
      } else {
        assert Shown(vs, f) == rest;
      }
    }
  }

  /** As written, a zero-valued flag passes its test for every value, so a
      type with an explicit empty flag lists it in the display of every
      non-zero value. */
  lemma {:induction false} ZeroFlagAlwaysShown(vs: seq<(nat, string)>, f: Flags, i: nat)
    requires i < |vs| && vs[i].0 == 0
    ensures vs[i].1 in Shown(vs, f)
  {
    if i > 0 {
      ZeroFlagAlwaysShown(vs[1..], f, i - 1);
    }
  }

  /** The test declaration `Test3 { V1 = 1, V2 = 2, V3 = 4, Nothing = 0 }`,
      whose Display tests run in name order: `V1` displays as
      "Test3 (Nothing | V1)". */
  lemma EmptyFlagDisplayedWithOthers()
    ensures DisplayAsWritten("Test3", "Nothing", TEST3, Flags(1)) == "Test3 (Nothing | V1)"
  {
    var f := Flags(1);
    assert TEST3[1..][1..][1..][1..] == [];
    assert WriteTests(TEST3[1..][1..][1..], f, false) == "";
    assert WriteTests(TEST3[1..][1..], f, false) == "";
    assert WriteTests(TEST3[1..], f, false) == " | V1";
  }

  const TEST3: seq<(nat, string)> := [(0, "Nothing"), (1, "V1"), (2, "V2"), (4, "V3")]

  /** The evidently intended display: the zero flag is left out of the
      tests, as it names the zero value only. */
  function NonZero(vs: seq<(nat, string)>): (r: seq<(nat, string)>)
    ensures forall e :: e in r <==> e in vs && e.0 != 0
  {
    if vs == [] then []
    else (if vs[0].0 != 0 then [vs[0]] else []) + NonZero(vs[1..])
  }

  function Display(name: string, empty: string, vs: seq<(nat, string)>, f: Flags): string
  {
    DisplayAsWritten(name, empty, NonZero(vs), f)
  }

  /** Corrected, exactly the flags `contains` reports are shown. */
  lemma {:induction false} ShownIffContains(vs: seq<(nat, string)>, f: Flags)
    ensures forall e :: e in vs && Contains(f, Flags(e.0)) ==> e.1 in Shown(NonZero(vs), f)
    ensures forall n :: n in Shown(NonZero(vs), f) ==> exists e :: e in vs && e.1 == n && Contains(f, Flags(e.0))
  {
    if vs != [] {
      ShownIffContains(vs[1..], f);
      var head := if vs[0].0 != 0 then [vs[0]] else [];
      assert NonZero(vs) == head + NonZero(vs[1..]);
      ShownAppend(head, NonZero(vs[1..]), f);
      forall e | e in vs && Contains(f, Flags(e.0))
        ensures e.1 in Shown(NonZero(vs), f)
      {
        if e != vs[0] {
          assert e in vs[1..];
        }
      }
    }
  }

  lemma {:induction false} ShownAppend(a: seq<(nat, string)>, b: seq<(nat, string)>, f: Flags)
    ensures Shown(a + b, f) == Shown(a, f) + Shown(b, f)
  {
    if a == [] {
      assert a + b == b;
    } else {
      assert (a + b)[1..] == a[1..] + b;
      ShownAppend(a[1..], b, f);
    }
  }

  /** Corrected, the same value displays as "Test3 (V1)". */
  lemma EmptyFlagNotDisplayedWithOthers()
    ensures Display("Test3", "Nothing", TEST3, Flags(1)) == "Test3 (V1)"
  {
    var vs: seq<(nat, string)> := TEST3[1..];
    var f := Flags(1);
    assert NonZero(TEST3) == vs;
    assert vs[1..][1..][1..] == [];
    assert WriteTests(vs[1..][1..], f, false) == "";
    assert WriteTests(vs[1..], f, false) == "";
  }

  /** The display the test suite expects of `Test { V1 = 1, V2 = 2, V3 = 128 }`
      with `empty=None`: "Test (V1 | V2)" for `V1 | V2` and "Test (None)"
      for the default value. */
  lemma DisplayMatchesTestSuite()
    ensures DisplayAsWritten("Test", "None", [(1, "V1"), (2, "V2"), (128, "V3")], BitOr(Flags(1), Flags(2)))
         == "Test (V1 | V2)"
    ensures DisplayAsWritten("Test", "None", [(1, "V1"), (2, "V2"), (128, "V3")], Default()) == "Test (None)"
  {
    var vs: seq<(nat, string)> := [(1, "V1"), (2, "V2"), (128, "V3")];
    var f := Flags(3);
    assert vs[1..][1..][1..] == [];
    assert WriteTests(vs[1..][1..], f, false) == "";
    assert WriteTests(vs[1..], f, false) == " | V2";
  }
}
