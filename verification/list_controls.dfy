/**
 * The sort controls shared by the student and course lists: comparators
 * built from a record key, the direction flip, and the two-field
 * (`sortBy`, `sortDirection`) state that clicking a column header toggles.
 */
module ListControls {
  import opened JsString
  import opened JsArray

  /** `sortDirection`: the lists only ever hold `'asc'` or `'desc'`. */
  datatype Direction = Asc | Desc

  datatype SortState = SortState(sortBy: string, direction: Direction)

  /** The state both lists start in: by name, ascending. */
  const InitialSort := SortState("name", Asc)

  /**
   * `toggleSort(field)`: the current field flips direction; another field
   * becomes current and starts ascending.
   */
  function ToggleSort(s: SortState, field: string): (r: SortState)
    ensures r.sortBy == field
  {
    if s.sortBy == field then
      SortState(field, if s.direction == Asc then Desc else Asc)
    else
      SortState(field, Asc)
  }

  /** Toggling the current field changes only the direction, and toggling it again restores it. */
  lemma ToggleSameField(s: SortState)
    ensures ToggleSort(s, s.sortBy).direction != s.direction
    ensures ToggleSort(ToggleSort(s, s.sortBy), s.sortBy) == s
  {
  }

  /** Choosing a different field always starts ascending, whatever the previous direction. */
  lemma ToggleOtherField(s: SortState, field: string)
    requires field != s.sortBy
    ensures ToggleSort(s, field) == SortState(field, Asc)
  {
  }

  /** Comparison by a string key, through `localeCompare`. */
  function ByString<T>(key: T -> string): (T, T) -> int {
    (a, b) => LocaleCompare(key(a), key(b))
  }

  /** Comparison by a numeric key, as the difference of the keys. */
  function ByInt<T>(key: T -> int): (T, T) -> int {
    (a, b) => key(a) - key(b)
  }

  /** The comparison of an unrecognised key: every pair compares equal. */
  function NoOrder<T>(): (T, T) -> int {
    (a, b) => 0
  }

  /** `sortDirection === 'asc' ? comparison : -comparison` */
  function Directed<T(!new)>(cmp: (T, T) -> int, d: Direction): (T, T) -> int {
    if d == Asc then cmp else Negate(cmp)
  }

  lemma ByStringValid<T(!new)>(key: T -> string)
    ensures ValidComparator(ByString(key))
  {
    forall a, b
      ensures ByString(key)(a, b) < 0 <==> ByString(key)(b, a) > 0
    {
      LocaleCompareFlip(key(a), key(b));
    }
    forall a, b, c | ByString(key)(a, b) <= 0 && ByString(key)(b, c) <= 0
      ensures ByString(key)(a, c) <= 0
    {
      LocaleCompareTransitive(key(a), key(b), key(c));
    }
  }

  lemma ByIntValid<T(!new)>(key: T -> int)
    ensures ValidComparator(ByInt(key))
  {
  }

  lemma NoOrderValid<T(!new)>()
    ensures ValidComparator(NoOrder<T>())
  {
  }

  lemma DirectedValid<T(!new)>(cmp: (T, T) -> int, d: Direction)
    requires ValidComparator(cmp)
    ensures ValidComparator(Directed(cmp, d))
  {
    if d == Desc {
      NegateValid(cmp);
    }
  }

  /** The two directions share their classes of ties. */
  lemma DirectedTies<T(!new)>(cmp: (T, T) -> int, d: Direction, a: T, b: T)
    ensures Directed(cmp, d)(a, b) == 0 <==> cmp(a, b) == 0
  {
  }

  /**
   * Sorting by `Directed(cmp, d)` keeps, in either direction, the input
   * order among the elements tied with `x`.
   */
  lemma DirectedStable<T(!new)>(s: seq<T>, cmp: (T, T) -> int, d: Direction, x: T)
    requires ValidComparator(cmp)
    ensures Filter(SortBy(s, Directed(cmp, d)), TiedWith(Directed(cmp, d), x)) == Filter(s, TiedWith(Directed(cmp, d), x))
    ensures Filter(s, TiedWith(Directed(cmp, d), x)) == Filter(s, TiedWith(cmp, x))
  {
    DirectedValid(cmp, d);
    TiedWithIsTieClass(Directed(cmp, d), x);
    SortByStable(s, Directed(cmp, d), TiedWith(Directed(cmp, d), x));
    FilterSamePredicate(s, TiedWith(Directed(cmp, d), x), TiedWith(cmp, x));
  }
}
