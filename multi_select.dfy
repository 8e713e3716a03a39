/** The option toggle of the multi-select dropdown
    (src/components/Dropdown/MultiSelectDropdown.jsx): a chosen option is
    dropped from the value list, an unchosen one is appended. */
module MultiSelect {

  /** `value.filter((v) => v !== option)`. */
  function RemoveAll<T(==)>(value: seq<T>, option: T): seq<T>
    decreases |value|
  {
    if |value| == 0 then []
    else RemoveAll(value[..|value| - 1], option) + (if value[|value| - 1] != option then [value[|value| - 1]] else [])
  }

  /** `toggleOption`: the list it hands to `onChange`. */
  function Toggle<T(==)>(value: seq<T>, option: T): seq<T> {
    if option in value then RemoveAll(value, option) else value + [option]
  }

  /** Removal distributes over concatenation, so the survivors keep their
      relative order. */
  lemma {:induction false} RemoveAllAppend<T>(a: seq<T>, b: seq<T>, option: T)
    ensures RemoveAll(a + b, option) == RemoveAll(a, option) + RemoveAll(b, option)
    decreases |b|
  {
    if |b| == 0 {
      assert a + b == a;
    } else {
      var b' := b[..|b| - 1];
      assert (a + b)[..|a + b| - 1] == a + b';
      RemoveAllAppend(a, b', option);
    }
  }

  /** How often `x` occurs after removal: never for the option, as often
      as before for anything else. */
  lemma {:induction false} RemoveAllCount<T>(value: seq<T>, option: T, x: T)
    ensures multiset(RemoveAll(value, option))[x] == if x == option then 0 else multiset(value)[x]
    decreases |value|
  {
    if |value| > 0 {
      var init, last := value[..|value| - 1], value[|value| - 1];
      RemoveAllCount(init, option, x);
      assert value == init + [last];
      var tail := if last != option then [last] else [];
      assert RemoveAll(value, option) == RemoveAll(init, option) + tail;
      assert multiset(RemoveAll(value, option))[x] == multiset(RemoveAll(init, option))[x] + multiset(tail)[x];
      assert multiset(value)[x] == multiset(init)[x] + multiset([last])[x];
    }
  }

  /** Every occurrence of the option goes; every other element keeps its
      number of occurrences. */
  lemma RemoveAllCounts<T>(value: seq<T>, option: T)
    ensures multiset(RemoveAll(value, option))[option] == 0
    ensures forall x | x != option :: multiset(RemoveAll(value, option))[x] == multiset(value)[x]
  {
    RemoveAllCount(value, option, option);
    forall x | x != option
      ensures multiset(RemoveAll(value, option))[x] == multiset(value)[x]
    {
      RemoveAllCount(value, option, x);
    }
  }

  /** Without the option present, removal changes nothing. */
  lemma {:induction false} RemoveAllAbsent<T>(value: seq<T>, option: T)
    requires option !in value
    ensures RemoveAll(value, option) == value
    decreases |value|
  {
    if |value| > 0 {
      var init := value[..|value| - 1];
      assert option !in init by {
        forall i | 0 <= i < |init|
          ensures init[i] != option
        {
          assert init[i] == value[i];
        }
      }
      RemoveAllAbsent(init, option);
      assert value == init + [value[|value| - 1]];
    }
  }

  /** The option's membership flips, and every other element keeps its
      membership. */
  lemma ToggleFlips<T>(value: seq<T>, option: T)
    ensures option in Toggle(value, option) <==> option !in value
    ensures forall x | x != option :: x in Toggle(value, option) <==> x in value
  {
    if option in value {
      RemoveAllCounts(value, option);
      var r := RemoveAll(value, option);
      assert option !in r by {
        assert multiset(r)[option] == 0;
      }
      forall x | x != option
        ensures x in r <==> x in value
      {
        assert x in r <==> x in multiset(r);
        assert x in value <==> x in multiset(value);
      }
    }
  }

  /** Toggling a chosen option gives the list without any occurrence of it,
      in order; toggling an unchosen one appends it. */
  lemma ToggleCases<T>(value: seq<T>, option: T)
    ensures option in value ==>
      && Toggle(value, option) == RemoveAll(value, option)
      && forall x | x != option :: multiset(Toggle(value, option))[x] == multiset(value)[x]
    ensures option !in value ==> Toggle(value, option) == value + [option]
  {
    if option in value {
      RemoveAllCounts(value, option);
    }
  }

  /** Toggling an unchosen option twice restores the list. */
  lemma ToggleTwice<T>(value: seq<T>, option: T)
    requires option !in value
    ensures Toggle(Toggle(value, option), option) == value
  {
    RemoveAllAppend(value, [option], option);
    RemoveAllAbsent(value, option);
    assert RemoveAll([option], option) == [] by {
      assert [option][..0] == [];
    }
  }

  /** Toggling a chosen option twice moves it to the end, once. */
  lemma ToggleTwiceChosen<T>(value: seq<T>, option: T)
    requires option in value
    ensures Toggle(Toggle(value, option), option) == RemoveAll(value, option) + [option]
  {
    ToggleFlips(value, option);
  }
}
