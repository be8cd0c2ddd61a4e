/**
 * The pure part of the cities state container: the state record, the
 * actions, the reducer that maps a state and an action to the next state,
 * and the fold of the reducer over a sequence of dispatched actions.
 */
module CitiesReducer {
  import opened Wrappers

  /** A JavaScript identifier value, a number or a text. Strict equality
      never equates `Num(n)` with `Text(s)`, and neither does this datatype.
      Where an id may be `undefined`, it is an `Option<Id>` and `None`. */
  datatype Id = Num(n: int) | Text(s: string)

  /** A city record: its `id` property, absent in the empty record `{}`, and
      the remaining properties, which are passed through untouched. */
  datatype City = City(id: Option<Id>, attrs: map<string, string>)

  /** The empty record `{}`. */
  const EmptyCity: City := City(None, map[])

  datatype State = State(cities: seq<City>, isLoading: bool, currentCity: City, error: string)

  const InitialState: State := State([], false, EmptyCity, "")

  /** The six action types the reducer knows, and `Unknown` for any other
      `type` string. */
  datatype Action =
    | Loading
    | CitiesLoaded(cities: seq<City>)
    | CityLoaded(city: City)
    | CityCreated(city: City)
    | CityDeleted(id: Option<Id>)
    | Rejected(message: string)
    | Unknown(tag: string)

  const UnknownActionError := "Unknown action type"

  /** `cities.filter(city => city.id !== d)`: keeps, in order, exactly the
      cities whose id is not `d`. With `d` undefined (`None`) it drops every
      city that has no id and keeps all the others. */
  function Remove(cs: seq<City>, d: Option<Id>): (r: seq<City>)
    ensures |r| <= |cs|
    ensures forall c :: c in r <==> c in cs && c.id != d
  {
    if cs == [] then []
    else if cs[0].id == d then Remove(cs[1..], d)
    else [cs[0]] + Remove(cs[1..], d)
  }

  /** The reducer. Each action states which fields it sets; every field it
      does not mention keeps its value. An unknown action type is an error and
      yields no state. */
  function Reduce(s: State, a: Action): (r: Result<State, string>)
    ensures r.Failure? <==> a.Unknown?
    ensures r.Failure? ==> r.error == UnknownActionError
    // only `loading` leaves the container loading; every other action ends it
    ensures r.Success? ==> r.value.isLoading == a.Loading?
    // `error` changes only on `rejected`, so a success never clears an earlier error
    ensures r.Success? ==> r.value.error == if a.Rejected? then a.message else s.error
    ensures a.Loading? ==> r.Success? && r.value.cities == s.cities && r.value.currentCity == s.currentCity
    ensures a.CitiesLoaded? ==> r.Success? && r.value.cities == a.cities && r.value.currentCity == s.currentCity
    ensures a.CityLoaded? ==> r.Success? && r.value.cities == s.cities && r.value.currentCity == a.city
    // `city/created` appends: the old list is a prefix and the payload is last
    ensures a.CityCreated? ==>
      r.Success? && |r.value.cities| == |s.cities| + 1 &&
      r.value.cities[..|s.cities|] == s.cities && r.value.cities[|s.cities|] == a.city &&
      r.value.currentCity == a.city
    // `city/deleted` filters by id and clears the current city whatever its id
    ensures a.CityDeleted? ==>
      r.Success? && r.value.cities == Remove(s.cities, a.id) && r.value.currentCity == EmptyCity
    ensures a.Rejected? ==> r.Success? && r.value.cities == s.cities && r.value.currentCity == s.currentCity
  {
    match a
    case Loading => Success(s.(isLoading := true))
    case CitiesLoaded(cs) => Success(s.(isLoading := false, cities := cs))
    case CityLoaded(c) => Success(s.(isLoading := false, currentCity := c))
    case CityCreated(c) => Success(s.(isLoading := false, cities := s.cities + [c], currentCity := c))
    case CityDeleted(d) => Success(s.(isLoading := false, cities := Remove(s.cities, d), currentCity := EmptyCity))
    case Rejected(m) => Success(s.(isLoading := false, error := m))
    case Unknown(_) => Failure(UnknownActionError)
  }

  /** The state after dispatching `acts` in order from `s`; the first unknown
      action throws, and nothing after it is reduced. */
  function Replay(s: State, acts: seq<Action>): (r: Result<State, string>)
    ensures r.Failure? <==> exists i :: 0 <= i < |acts| && acts[i].Unknown?
    decreases |acts|
  {
    if acts == [] then Success(s)
    else match Reduce(s, acts[0])
      case Failure(e) => Failure(e)
      case Success(t) =>
        assert forall i :: 1 <= i < |acts| ==> acts[i] == acts[1..][i - 1];
        Replay(t, acts[1..])
  }

  // ---------------------------------------------------------------------
  // `city/deleted`: the filter by id

  /** Filtering distributes over concatenation: the survivors of a prefix come
      before the survivors of the rest, so relative order is kept. */
  lemma {:induction false} RemoveConcat(a: seq<City>, b: seq<City>, d: Option<Id>)
    ensures Remove(a + b, d) == Remove(a, d) + Remove(b, d)
  {
    if a == [] {
      assert a + b == b;
    } else {
      assert (a + b)[0] == a[0];
      assert (a + b)[1..] == a[1..] + b;
      RemoveConcat(a[1..], b, d);
    }
  }

  /** Each city survives with its multiplicity unless its id is `d`. */
  lemma {:induction false} RemoveCount(cs: seq<City>, d: Option<Id>)
    ensures forall c :: multiset(Remove(cs, d))[c] == if c.id == d then 0 else multiset(cs)[c]
  {
    if cs != [] {
      RemoveCount(cs[1..], d);
      assert cs == [cs[0]] + cs[1..];
      assert multiset(cs) == multiset{cs[0]} + multiset(cs[1..]);
    }
  }

  /** Deleting the same id a second time changes nothing. */
  lemma {:induction false} RemoveIdempotent(cs: seq<City>, d: Option<Id>)
    ensures Remove(Remove(cs, d), d) == Remove(cs, d)
  {
    if cs != [] {
      RemoveIdempotent(cs[1..], d);
    }
  }

  /** Deleting an id no city carries leaves the list as it was. */
  lemma {:induction false} RemoveAbsent(cs: seq<City>, d: Option<Id>)
    requires forall i :: 0 <= i < |cs| ==> cs[i].id != d
    ensures Remove(cs, d) == cs
  {
    if cs != [] {
      RemoveAbsent(cs[1..], d);
      assert cs == [cs[0]] + cs[1..];
    }
  }

  /** No two cities of the list carry the same id. */
  predicate UniqueIds(cs: seq<City>)
  {
    forall i, j :: 0 <= i < j < |cs| && cs[i].id.Some? ==> cs[i].id != cs[j].id
  }

  /** When ids are unique, deleting a defined id removes at most one city.
      (Deleting `undefined` drops every city without an id, however many.) */
  lemma {:induction false} RemoveAtMostOne(cs: seq<City>, d: Option<Id>)
    requires UniqueIds(cs) && d.Some?
    ensures |cs| - 1 <= |Remove(cs, d)|
  {
    if cs != [] {
      var rest := cs[1..];
      if cs[0].id == d {
        forall i | 0 <= i < |rest| ensures rest[i].id != d {
          assert rest[i] == cs[i + 1];
        }
        RemoveAbsent(rest, d);
      } else {
        assert UniqueIds(rest) by {
          forall i, j | 0 <= i < j < |rest| && rest[i].id.Some? ensures rest[i].id != rest[j].id {
            assert rest[i] == cs[i + 1] && rest[j] == cs[j + 1];
          }
        }
        RemoveAtMostOne(rest, d);
      }
    }
  }

  /** Dispatching `city/deleted` twice with the same id ends where
      dispatching it once does. */
  lemma DeletedTwice(s: State, d: Option<Id>)
    ensures Reduce(Reduce(s, CityDeleted(d)).value, CityDeleted(d)) == Reduce(s, CityDeleted(d))
  {
    RemoveIdempotent(s.cities, d);
  }

  // ---------------------------------------------------------------------
  // Sequences of dispatched actions

  /** Dispatching one more action reduces it in the state reached so far. */
  lemma {:induction false} ReplaySnoc(s: State, acts: seq<Action>, a: Action)
    ensures Replay(s, acts + [a]) ==
      match Replay(s, acts)
      case Success(t) => Reduce(t, a)
      case Failure(e) => Failure(e)
    decreases |acts|
  {
    if acts == [] {
      assert acts + [a] == [a];
    } else {
      assert (acts + [a])[0] == acts[0];
      assert (acts + [a])[1..] == acts[1..] + [a];
      match Reduce(s, acts[0])
      case Failure(_) =>
      case Success(t) => ReplaySnoc(t, acts[1..], a);
    }
  }

  /** After any sequence of actions the container is loading exactly when the
      last action was `loading`. */
  lemma LoadingFlagFollowsLastAction(s: State, acts: seq<Action>)
    requires acts != [] && Replay(s, acts).Success?
    ensures Replay(s, acts).value.isLoading == acts[|acts| - 1].Loading?
  {
    var init, last := acts[..|acts| - 1], acts[|acts| - 1];
    assert acts == init + [last];
    ReplaySnoc(s, init, last);
  }

  /** Without a `rejected` action the error text is never touched: an error
      left by an earlier operation survives later successes. */
  lemma {:induction false} ErrorOnlyChangedByRejected(s: State, acts: seq<Action>)
    requires forall i :: 0 <= i < |acts| ==> !acts[i].Rejected?
    requires Replay(s, acts).Success?
    ensures Replay(s, acts).value.error == s.error
    decreases |acts|
  {
    if acts != [] {
      var t := Reduce(s, acts[0]).value;
      assert forall i :: 0 <= i < |acts[1..]| ==> acts[1..][i] == acts[i + 1];
      ErrorOnlyChangedByRejected(t, acts[1..]);
    }
  }

  /** The scenario of deleting city 2 from the list of cities 1 and 2. */
  lemma DeleteScenario(one: City, two: City, current: City)
    requires one.id == Some(Num(1)) && two.id == Some(Num(2))
    ensures Reduce(State([one, two], true, current, ""), CityDeleted(Some(Num(2)))) ==
            Success(State([one], false, EmptyCity, ""))
  {
    assert Remove([one, two], Some(Num(2))) == [one] by {
      assert [one, two][1..] == [two];
    }
  }
}
