/** Error maps: what every validator returns. A key is a field path, which
    the source writes as a dotted string (`"eventName"`,
    `"transportSchedules.1"`, `"gates.0.capacity"`); the value is the message
    shown beside the field. Each form names its own fields with an
    enumeration `F`. */
module FormErrors {
  import opened JsValues

  /** `Field(EventName)` is "eventName", `Item(TransportSchedules, 1)` is
      "transportSchedules.1", `ItemField(Gates, 0, Capacity)` is
      "gates.0.capacity". */
  datatype FieldPath<F> =
    | Field(name: F)
    | Item(list: F, index: nat)
    | ItemField(list: F, index: nat, field: F)

  type ErrorMap<F(==)> = map<FieldPath<F>, string>

  /** `if (cond) errors[p] = msg;` */
  function Put<F>(e: ErrorMap<F>, cond: bool, p: FieldPath<F>, msg: string): ErrorMap<F> {
    if cond then e[p := msg] else e
  }

  /** One conditional write leaves every other key as it was. */
  lemma PutOther<F>(e: ErrorMap<F>, cond: bool, p: FieldPath<F>, msg: string, q: FieldPath<F>)
    requires q != p
    ensures q in Put(e, cond, p, msg) <==> q in e
    ensures q in e ==> Put(e, cond, p, msg)[q] == e[q]
  {
  }

  /** `!x || x < 1`: the count check. */
  predicate BadCount(v: JVal) {
    !Truthy(v) || Less(v, Num(1))
  }

  /** `!x || x <= 0`: the capacity and attendance check. */
  predicate NotPositive(v: JVal) {
    !Truthy(v) || LessEq(v, Num(0))
  }

  /** Every key `entry(x, i)` produces is an indexed path under the list
      `list` at index `i`. */
  ghost predicate KeysUnder<F>(entry: (JVal, nat) -> ErrorMap<F>, list: F) {
    forall x, i, p | p in entry(x, i) :: !p.Field? && p.list == list && p.index == i
  }

  /** What the callback of `items.forEach((x, i) => ...)` writes after
      visiting the first `n` items, `entry(x, i)` being what one visit
      writes. */
  function IndexedErrors<F>(items: seq<JVal>, n: nat, entry: (JVal, nat) -> ErrorMap<F>): ErrorMap<F>
    requires n <= |items|
  {
    if n == 0 then map[] else IndexedErrors(items, n - 1, entry) + entry(items[n - 1], n - 1)
  }

  /** A key occurs after the visits exactly when the visit at its index wrote
      it, with the message that visit wrote: no visit overwrites another. */
  lemma {:induction false} IndexedErrorsAt<F>(items: seq<JVal>, n: nat, entry: (JVal, nat) -> ErrorMap<F>,
                                             list: F, p: FieldPath<F>)
    requires n <= |items| && KeysUnder(entry, list)
    ensures p in IndexedErrors(items, n, entry) <==>
      !p.Field? && p.list == list && p.index < n && p in entry(items[p.index], p.index)
    ensures p in IndexedErrors(items, n, entry) ==>
      IndexedErrors(items, n, entry)[p] == entry(items[p.index], p.index)[p]
  {
    if n > 0 {
      IndexedErrorsAt(items, n - 1, entry, list, p);
    }
  }

  /** The visits write nothing when no single visit writes anything. */
  lemma IndexedErrorsEmpty<F>(items: seq<JVal>, n: nat, entry: (JVal, nat) -> ErrorMap<F>, list: F)
    requires n <= |items| && KeysUnder(entry, list)
    ensures IndexedErrors(items, n, entry) == map[] <==>
      forall i | 0 <= i < n :: entry(items[i], i) == map[]
  {
    forall p {
      IndexedErrorsAt(items, n, entry, list, p);
    }
    if forall i | 0 <= i < n :: entry(items[i], i) == map[] {
      assert forall p :: p !in IndexedErrors(items, n, entry);
    }
  }

  /** The `throws` argument for a loop whose body can never throw, such as
      one that reads a property only of a truthy item. */
  predicate NeverThrows(x: JVal) {
    false
  }

  /** `v.forEach((x, i) => ...)` run on the errors object `e`: only arrays
      have `forEach`, and a visit for which `throws` holds (a property read
      on `null`, say) aborts the whole validator. Otherwise every visit's
      writes land on top of `e`. */
  function ForEachErrors<F>(e: ErrorMap<F>, v: JVal, throws: JVal -> bool,
                            entry: (JVal, nat) -> ErrorMap<F>): Outcome<ErrorMap<F>>
  {
    if !v.Arr? then TypeError
    else if exists i | 0 <= i < |v.items| :: throws(v.items[i]) then TypeError
    else Ok(e + IndexedErrors(v.items, |v.items|, entry))
  }

  /** The `forEach` loop, one visit at a time. */
  method ForEachCheck<F>(e: ErrorMap<F>, v: JVal, throws: JVal -> bool,
                         entry: (JVal, nat) -> ErrorMap<F>) returns (r: Outcome<ErrorMap<F>>)
    ensures r == ForEachErrors(e, v, throws, entry)
  {
    if !v.Arr? {
      return TypeError;
    }
    var items := v.items;
    var errors := e;
    var i := 0;
    while i < |items|
      invariant 0 <= i <= |items|
      invariant errors == e + IndexedErrors(items, i, entry)
      invariant forall j | 0 <= j < i :: !throws(items[j])
    {
      if throws(items[i]) {
        return TypeError;
      }
      MergeAssoc(e, IndexedErrors(items, i, entry), entry(items[i], i));
      errors := errors + entry(items[i], i);
      i := i + 1;
    }
    return Ok(errors);
  }

  lemma MergeAssoc<K, V>(a: map<K, V>, b: map<K, V>, c: map<K, V>)
    ensures (a + b) + c == a + (b + c)
  {
  }

  /** The common list block: when `on`, a missing or empty list `v` gets the
      key `key` (`if (!v || v.length === 0) ... else v.forEach(...)`). */
  function ListBlock<F>(e: ErrorMap<F>, on: bool, v: JVal, key: F, msg: string, throws: JVal -> bool,
                        entry: (JVal, nat) -> ErrorMap<F>): Outcome<ErrorMap<F>>
  {
    if !on then Ok(e)
    else if MissingOrEmpty(v) then Ok(e[Field(key) := msg])
    else ForEachErrors(e, v, throws, entry)
  }

  method CheckList<F>(e: ErrorMap<F>, on: bool, v: JVal, key: F, msg: string, throws: JVal -> bool,
                      entry: (JVal, nat) -> ErrorMap<F>) returns (r: Outcome<ErrorMap<F>>)
    ensures r == ListBlock(e, on, v, key, msg, throws, entry)
  {
    if !on {
      return Ok(e);
    }
    if !Truthy(v) || OptProp(v, "length") == Num(0) {
      return Ok(e[Field(key) := msg]);
    }
    r := ForEachCheck(e, v, throws, entry);
  }

  /** A list block throws exactly when it runs over a present, non-empty
      value that is not an array or holds an item the callback cannot read. */
  lemma ListBlockThrows<F>(e: ErrorMap<F>, on: bool, v: JVal, key: F, msg: string, throws: JVal -> bool,
                           entry: (JVal, nat) -> ErrorMap<F>)
    ensures ListBlock(e, on, v, key, msg, throws, entry).TypeError? <==>
      on && !MissingOrEmpty(v) && (!v.Arr? || exists i | 0 <= i < |v.items| :: throws(v.items[i]))
  {
  }

  /** A list block writes its own key exactly when it is on and the list is
      missing or empty. */
  lemma ListBlockOwnKey<F>(e: ErrorMap<F>, on: bool, v: JVal, key: F, msg: string, throws: JVal -> bool,
                           entry: (JVal, nat) -> ErrorMap<F>, list: F)
    requires KeysUnder(entry, list)
    requires ListBlock(e, on, v, key, msg, throws, entry).Ok?
    ensures var r := ListBlock(e, on, v, key, msg, throws, entry).value;
      && (Field(key) in r <==> (on && MissingOrEmpty(v)) || Field(key) in e)
      && (on && MissingOrEmpty(v) ==> r[Field(key)] == msg)
      && (!(on && MissingOrEmpty(v)) && Field(key) in e ==> r[Field(key)] == e[Field(key)])
  {
    if on && !MissingOrEmpty(v) {
      IndexedErrorsAt(v.items, |v.items|, entry, list, Field(key));
    }
  }

  /** Does a list block's visit of the item at `p`'s index write `p`? */
  predicate VisitWrites<F>(on: bool, v: JVal, entry: (JVal, nat) -> ErrorMap<F>, p: FieldPath<F>) {
    && on && !MissingOrEmpty(v) && v.Arr? && !p.Field?
    && p.index < |v.items| && p in entry(v.items[p.index], p.index)
  }

  /** Under `list`, a list block adds the keys the visits write, when it is
      on and runs over the items. */
  lemma ListBlockItems<F>(e: ErrorMap<F>, on: bool, v: JVal, key: F, msg: string, throws: JVal -> bool,
                          entry: (JVal, nat) -> ErrorMap<F>, list: F, p: FieldPath<F>)
    requires KeysUnder(entry, list)
    requires ListBlock(e, on, v, key, msg, throws, entry).Ok?
    requires !p.Field? && p.list == list
    ensures var r := ListBlock(e, on, v, key, msg, throws, entry).value;
      && (p in r <==> VisitWrites(on, v, entry, p) || p in e)
      && (VisitWrites(on, v, entry, p) ==> r[p] == entry(v.items[p.index], p.index)[p])
      && (!VisitWrites(on, v, entry, p) && p in e ==> r[p] == e[p])
  {
    if on && !MissingOrEmpty(v) {
      IndexedErrorsAt(v.items, |v.items|, entry, list, p);
    }
  }

  /** Every other key passes through a list block unchanged. */
  lemma ListBlockOther<F>(e: ErrorMap<F>, on: bool, v: JVal, key: F, msg: string, throws: JVal -> bool,
                          entry: (JVal, nat) -> ErrorMap<F>, list: F, p: FieldPath<F>)
    requires KeysUnder(entry, list)
    requires ListBlock(e, on, v, key, msg, throws, entry).Ok?
    requires p != Field(key) && (p.Field? || p.list != list)
    ensures var r := ListBlock(e, on, v, key, msg, throws, entry).value;
      (p in r <==> p in e) && (p in e ==> r[p] == e[p])
  {
    if on && !MissingOrEmpty(v) {
      IndexedErrorsAt(v.items, |v.items|, entry, list, p);
    }
  }

  /** A list block whose list passes writes nothing. */
  lemma ListBlockSilent<F>(e: ErrorMap<F>, on: bool, v: JVal, key: F, msg: string, throws: JVal -> bool,
                           entry: (JVal, nat) -> ErrorMap<F>, list: F)
    requires KeysUnder(entry, list)
    requires !on || (v.Arr? && |v.items| > 0 && forall i | 0 <= i < |v.items| :: !throws(v.items[i]) && entry(v.items[i], i) == map[])
    ensures ListBlock(e, on, v, key, msg, throws, entry) == Ok(e)
  {
    if on {
      IndexedErrorsEmpty(v.items, |v.items|, entry, list);
      assert e + map[] == e;
    }
  }

  /** `items.every(pred)`: stops at the first item for which `pred` is false
      or throws. */
  function Every(items: seq<JVal>, pred: JVal -> Outcome<bool>): Outcome<bool> {
    if |items| == 0 then Ok(true)
    else
      match pred(items[0])
      case TypeError => TypeError
      case Ok(b) => if b then Every(items[1..], pred) else Ok(false)
  }

  /** `every` holds exactly when the predicate holds of every item. */
  lemma {:induction false} EveryIff(items: seq<JVal>, pred: JVal -> Outcome<bool>)
    ensures Every(items, pred) == Ok(true) <==> forall i | 0 <= i < |items| :: pred(items[i]) == Ok(true)
  {
    if |items| > 0 {
      EveryIff(items[1..], pred);
      assert forall i | 1 <= i < |items| :: items[i] == items[1..][i - 1];
    }
  }

  /** `v && v.length > 0 && v.every(pred)`: only arrays have `every`. */
  function ListComplete(v: JVal, pred: JVal -> Outcome<bool>): Outcome<bool> {
    if !Truthy(v) || !Greater(OptProp(v, "length"), Num(0)) then Ok(false)
    else if !v.Arr? then TypeError
    else Every(v.items, pred)
  }

  /** A list that `ListComplete` accepts makes its list block write nothing,
      when every item the predicate accepts is one whose visit writes
      nothing. */
  lemma ListCompleteSilent<F>(e: ErrorMap<F>, v: JVal, key: F, msg: string, throws: JVal -> bool,
                              entry: (JVal, nat) -> ErrorMap<F>, list: F, pred: JVal -> Outcome<bool>)
    requires KeysUnder(entry, list)
    requires ListComplete(v, pred) == Ok(true)
    requires forall x :: pred(x) == Ok(true) ==> !throws(x)
    requires forall x, i: nat :: pred(x) == Ok(true) ==> entry(x, i) == map[]
    ensures ListBlock(e, true, v, key, msg, throws, entry) == Ok(e)
  {
    assert OptProp(v, "length") == Num(|v.items|);
    EveryIff(v.items, pred);
    forall i: nat | i < |v.items|
      ensures !throws(v.items[i]) && entry(v.items[i], i) == map[]
    {
      assert pred(v.items[i]) == Ok(true);
    }
    ListBlockSilent(e, true, v, key, msg, throws, entry, list);
  }

  /** A subset is no larger than its superset. */
  lemma SubsetCardinality<T>(a: set<T>, b: set<T>)
    requires a <= b
    ensures |a| <= |b|
  {
    if a != {} {
      var x :| x in a;
      SubsetCardinality(a - {x}, b - {x});
    }
  }
}
