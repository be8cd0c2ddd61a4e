/**
 * The cities provider: the reducer-held state and the four asynchronous
 * operations that drive it by dispatching actions. Each backend call is
 * replaced by a `Reply` parameter saying how it ended; each operation runs to
 * completion on its own.
 */
module CitiesProvider {
  import opened Wrappers
  import opened CitiesReducer

  /** How a backend call ended: resolved with a payload, or threw. */
  datatype Reply<T> = Ok(payload: T) | Failed

  /** The data of one document of the `cities` collection. */
  datatype CitiesDoc = CitiesDoc(cities: seq<City>)

  const LoadError := "There was an error loading data..."
  const SendError := "There was an error sending data..."
  const DeleteError := "There was an error deleting city..."

  class CitiesStore {
    /** The state held by the reducer hook. */
    var state: State
    /** Every action dispatched so far, oldest first. */
    ghost var dispatched: seq<Action>

    /** The held state is always the reducer folded over what was dispatched. */
    ghost predicate Valid()
      reads this
    {
      Replay(InitialState, dispatched) == Success(state)
    }

    constructor ()
      ensures Valid() && state == InitialState && dispatched == []
    {
      state := InitialState;
      dispatched := [];
    }

    /** `dispatch(a)`: the reducer replaces the state. The operations below
        dispatch only recognised actions. */
    method Dispatch(a: Action)
      requires Valid() && !a.Unknown?
      modifies this
      ensures Valid()
      ensures dispatched == old(dispatched) + [a]
      ensures Reduce(old(state), a) == Success(state)
    {
      ReplaySnoc(InitialState, dispatched, a);
      state := Reduce(state, a).value;
      dispatched := dispatched + [a];
    }

    /** The initial load. `listing` is how listing the `cities` collection
        ended; `init` is how writing `{ cities: [] }` for the user ended, which
        is attempted only when the listing came back empty. */
    method FetchCities(listing: Reply<seq<CitiesDoc>>, init: Reply<()>)
      requires Valid()
      modifies this
      ensures Valid() && !state.isLoading
      ensures state.currentCity == old(state.currentCity)
      // an empty listing initialises the user's document and loads no cities
      ensures listing.Ok? && listing.payload == [] && init.Ok? ==>
        dispatched == old(dispatched) + [Loading, CitiesLoaded([])] &&
        state.cities == [] && state.error == old(state.error)
      // otherwise the `cities` field of the first document is loaded verbatim
      ensures listing.Ok? && listing.payload != [] ==>
        dispatched == old(dispatched) + [Loading, CitiesLoaded(listing.payload[0].cities)] &&
        state.cities == listing.payload[0].cities && state.error == old(state.error)
      // any failure keeps the previous cities and reports the load error
      ensures listing.Failed? || (listing.payload == [] && init.Failed?) ==>
        dispatched == old(dispatched) + [Loading, Rejected(LoadError)] &&
        state.cities == old(state.cities) && state.error == LoadError
    {
      Dispatch(Loading);
      if listing.Failed? {
        Dispatch(Rejected(LoadError));
      } else if listing.payload == [] {
        if init.Failed? {
          Dispatch(Rejected(LoadError));
        } else {
          Dispatch(CitiesLoaded([]));
        }
      } else {
        Dispatch(CitiesLoaded(listing.payload[0].cities));
      }
    }

    /** `getCity(id)`, with `None` for an undefined id: `response` is how the
        GET of the record and the parsing of its body ended. Asking for the
        current city's id does nothing; so does an undefined id while the
        current city is `{}`. */
    method GetCity(id: Option<Id>, response: Reply<City>)
      requires Valid()
      modifies this
      ensures Valid()
      ensures state.cities == old(state.cities)
      ensures old(state.currentCity.id) == id ==>
        dispatched == old(dispatched) && state == old(state)
      ensures old(state.currentCity.id) != id && response.Ok? ==>
        dispatched == old(dispatched) + [Loading, CityLoaded(response.payload)] &&
        !state.isLoading && state.currentCity == response.payload && state.error == old(state.error)
      ensures old(state.currentCity.id) != id && response.Failed? ==>
        dispatched == old(dispatched) + [Loading, Rejected(LoadError)] &&
        !state.isLoading && state.currentCity == old(state.currentCity) && state.error == LoadError
    {
      if state.currentCity.id == id {
        return;
      }
      Dispatch(Loading);
      if response.Failed? {
        Dispatch(Rejected(LoadError));
      } else {
        Dispatch(CityLoaded(response.payload));
      }
    }

    /** `createCity(newCity)`: `newCity` reaches only the update of the user's
        document, which ended as `write`; on success the value dispatched as
        the created city is `docRef`, the reference to that document. */
    method CreateCity(newCity: City, docRef: City, write: Reply<()>)
      requires Valid()
      modifies this
      ensures Valid() && !state.isLoading
      ensures write.Ok? ==>
        dispatched == old(dispatched) + [Loading, CityCreated(docRef)] &&
        state.cities == old(state.cities) + [docRef] && state.currentCity == docRef &&
        state.error == old(state.error)
      ensures write.Failed? ==>
        dispatched == old(dispatched) + [Loading, Rejected(SendError)] &&
        state.cities == old(state.cities) && state.currentCity == old(state.currentCity) &&
        state.error == SendError
    {
      Dispatch(Loading);
      if write.Failed? {
        Dispatch(Rejected(SendError));
      } else {
        Dispatch(CityCreated(docRef));
      }
    }

    /** `deleteCity(id)`, with `None` for an undefined id: `request` is how
        the DELETE request ended. */
    method DeleteCity(id: Option<Id>, request: Reply<()>)
      requires Valid()
      modifies this
      ensures Valid() && !state.isLoading
      ensures request.Ok? ==>
        dispatched == old(dispatched) + [Loading, CityDeleted(id)] &&
        state.cities == Remove(old(state.cities), id) && state.currentCity == EmptyCity &&
        state.error == old(state.error)
      ensures request.Failed? ==>
        dispatched == old(dispatched) + [Loading, Rejected(DeleteError)] &&
        state.cities == old(state.cities) && state.currentCity == old(state.currentCity) &&
        state.error == DeleteError
    {
      Dispatch(Loading);
      if request.Failed? {
        Dispatch(Rejected(DeleteError));
      } else {
        Dispatch(CityDeleted(id));
      }
    }
  }
}
