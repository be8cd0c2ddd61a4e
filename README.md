# Cities state container — a Dafny model

This project models the cities context of the worldwise web application
(`src/Contexts/CitiesContext.jsx`). The container holds four fields:

- the list of the user's cities;
- a loading flag;
- the currently selected city, or the empty record `{}`;
- an error text.

A reducer turns that state and an action into the next state. Four
asynchronous operations drive the state by dispatching `loading` followed by
exactly one terminal action, except that `getCity` dispatches nothing when
asked for the current city's id:

- the initial load;
- `getCity`;
- `createCity`;
- `deleteCity`.

Files:

- `wrappers.dfy` holds `Option` and `Result`.
- `cities_reducer.dfy` (module `CitiesReducer`) holds the pure part: the state and action datatypes, the reducer `Reduce` with a frame-style contract for every action, the id filter `Remove`, and `Replay`, the fold of the reducer over a sequence of dispatched actions. It also holds the lemmas about them.
- `cities_provider.dfy` (module `CitiesProvider`) holds the class `CitiesStore`. The class keeps the state and a ghost log of every dispatched action. Its invariant `Valid()` says that the state is always `Replay(InitialState, log)`. Each operation is a method. How each backend call ended (`Reply`: `Ok(payload)` or `Failed`) is a parameter of the method.

Modelling choices:

- An id is `Num(n)` or `Text(s)`. JavaScript strict equality never equates a number with a string, and neither does this model: `getCity(Some(Text("5")))` is not a no-op when the current city's id is `Some(Num(5))`.
- Where an id may be `undefined` (the id of `{}`, the arguments of `getCity` and `deleteCity`, the `city/deleted` payload) it is an `Option<Id>`, with `None` for `undefined`. Deleting `undefined` drops every city without an id, as the filter does.
- A city is its optional `id` plus its other properties, which the model keeps as an opaque string map. The empty record is `City(None, map[])`.
- Actions with a type string outside the six known ones are `Unknown(tag)`. The reducer returns `Failure("Unknown action type")` for them.

Two behaviours of the code a reader may not expect, which the model keeps as written:

- The load lists the whole `cities` collection. `getDocs` takes one argument, so the user id passed as a second argument has no effect. The "first document" is therefore the first document of the collection, not necessarily the user's. The model takes the listing as a parameter and loads the `cities` field of its first entry.
- On success, `createCity` dispatches the reference to the user's document as the created city, not `newCity`. The model does the same. `CreateCity` takes that reference as the parameter `docRef`, and `newCity` reaches only the backend write.

## Model

| member | source | states |
|---|---|---|
| CitiesReducer.Reduce | src/Contexts/CitiesContext.jsx:23-58 | An unknown type fails with "Unknown action type" and no state; every known one succeeds. `isLoading` is true exactly after `loading`. `error` changes only on `rejected`. `loading` keeps cities and currentCity. `cities/loaded` replaces cities. `city/loaded` replaces currentCity. `city/created` appends the payload (old list as prefix, payload last) and makes it current. `city/deleted` filters by id and resets currentCity to `{}`. `rejected` keeps cities and currentCity. |
| CitiesReducer.Remove | src/Contexts/CitiesContext.jsx:46 | The filtered list is no longer than the input. A city is in it exactly when it was in the input and its id differs from the deleted id (which may be `undefined`), so no city with that id remains. |
| CitiesReducer.RemoveConcat | src/Contexts/CitiesContext.jsx:46 | The filter distributes over concatenation, so surviving cities keep their relative order. |
| CitiesReducer.RemoveCount | src/Contexts/CitiesContext.jsx:46 | Every city with another id is kept with its multiplicity; cities with the deleted id are all dropped. |
| CitiesReducer.RemoveIdempotent | src/Contexts/CitiesContext.jsx:46 | Filtering the same id twice equals filtering it once. |
| CitiesReducer.RemoveAbsent | src/Contexts/CitiesContext.jsx:46 | Deleting an id no city carries leaves the list unchanged. |
| CitiesReducer.RemoveAtMostOne | src/Contexts/CitiesContext.jsx:42-48 | When ids are unique, deleting a defined id removes at most one city. |
| CitiesReducer.DeletedTwice | src/Contexts/CitiesContext.jsx:42-48 | Dispatching `city/deleted` with the same id twice gives the same state as once. |
| CitiesReducer.DeleteScenario | src/Contexts/CitiesContext.jsx:42-48 | Deleting id 2 from cities with ids 1 and 2 leaves the city with id 1, `{}` as current city and `isLoading` false. |
| CitiesReducer.Replay | src/Contexts/CitiesContext.jsx:61-64 | Folding the reducer over dispatched actions fails exactly when one of them has an unknown type. |
| CitiesReducer.ReplaySnoc | src/Contexts/CitiesContext.jsx:61-64 | One more dispatch reduces the new action in the state reached so far, and a failure already reached stays. |
| CitiesReducer.LoadingFlagFollowsLastAction | src/Contexts/CitiesContext.jsx:25-54 | After any sequence of actions, `isLoading` is true exactly when the last action was `loading`. |
| CitiesReducer.ErrorOnlyChangedByRejected | src/Contexts/CitiesContext.jsx:49-54 | A sequence of actions with no `rejected` keeps the error text, so an earlier error survives later successes. |
| CitiesProvider.CitiesStore.constructor | src/Contexts/CitiesContext.jsx:17-22 | The store starts in the initial state (no cities, not loading, `{}` current, empty error) with nothing dispatched. |
| CitiesProvider.CitiesStore.Dispatch | src/Contexts/CitiesContext.jsx:61-64 | The state becomes the reducer's result, the action is logged, and the state stays the fold of the log. |
| CitiesProvider.CitiesStore.FetchCities | src/Contexts/CitiesContext.jsx:68-87 | Dispatches `loading` and then one terminal action. An empty listing followed by a successful initialising write loads `[]`. A non-empty listing loads the first document's `cities`. A failure keeps cities and sets "There was an error loading data...". currentCity never changes and loading ends. |
| CitiesProvider.CitiesStore.GetCity | src/Contexts/CitiesContext.jsx:95-108 | If the id (possibly `undefined`) equals the current city's id, nothing is dispatched and the state is unchanged. Otherwise it dispatches `loading` and then `city/loaded` with the response, or `rejected` with the load error; cities are untouched. |
| CitiesProvider.CitiesStore.CreateCity | src/Contexts/CitiesContext.jsx:109-133 | On success, it dispatches `loading` then `city/created` with the document reference, which is appended to cities and becomes current. On failure, cities and currentCity are kept and the error is "There was an error sending data...". |
| CitiesProvider.CitiesStore.DeleteCity | src/Contexts/CitiesContext.jsx:134-147 | On success, it dispatches `loading` then `city/deleted`: cities are filtered by the id (possibly `undefined`) and currentCity becomes `{}`. On failure, cities and currentCity are kept and the error is "There was an error deleting city...". |

## Left out

- Document-database and REST calls (`collection`, `getDocs`, `doc`, `setDoc`, `updateDoc`, `fetch`, `res.json()`) are foreign I/O. Each becomes a `Reply` parameter, and the value `doc` builds for `createCity` becomes the parameter `docRef`.
- React machinery is framework glue and is not modelled: the context, `useReducer`, `useEffect` and its re-run when the user id changes, `useCities` and its wrong-place guard, the provider markup and `PropTypes`. The constructor does not run the initial load; a caller calls `FetchCities`.
- Concurrency is not modelled. Operations that interleave and let a stale completion overwrite newer state are out of scope; each operation runs to completion on its own.
- `console.log` output is not modelled.
- The shape of a city record beyond its `id` is not modelled: the other properties are an opaque string map. A first document whose `cities` field is missing or not a list is not modelled either: the listing's documents always carry a list.
- CitiesProvider.CitiesStore.Dispatch: requires a recognised action. Throwing on an unknown type is modelled in `Reduce`, and the operations never dispatch one.
- A missing signed-in user, which makes `currentUser.uid` throw, is not modelled.
