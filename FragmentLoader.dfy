/**
 * loadConfigs: checks that it was given an array, then resolves each
 * location in order to a fragment, stopping at the first location that
 * cannot be resolved. Module resolution itself is a parameter.
 */
module FragmentLoader {
  import opened Wrappers
  import opened ConfigValues

  const ArrayRequiredMessage: string := "loadConfigs must he supplied with an array"

  const NotFoundPrefix: string := "Cannot find module"

  datatype LoadError =
    | ArgumentError(message: string)
    | ResolutionError(message: string)
    | LocationTypeError(index: nat)

  /**
   * The host's module loader: a location and an optional base directory
   * to the fragment found there, or None when nothing is found.
   */
  type Resolver = (string, Option<string>) -> Option<Fragment>

  function NotFoundMessage(location: string): (m: string)
    ensures NotFoundPrefix <= m
  {
    NotFoundPrefix + " '" + location + "'"
  }

  /** True when the location is a string that the resolver finds. */
  predicate Resolves(location: Value, baseDir: Option<string>, resolve: Resolver)
  {
    location.Str? && resolve(location.s, baseDir).Some?
  }

  /** The error reported for a location, numbered `index`, that does not resolve. */
  function LocationError(location: Value, index: nat): LoadError
  {
    if location.Str? then ResolutionError(NotFoundMessage(location.s)) else LocationTypeError(index)
  }

  /** Resolves `locations` in order, numbering them from `start`; fails at the first one that does not resolve. */
  function LoadEach(locations: seq<Value>, start: nat, baseDir: Option<string>, resolve: Resolver)
    : (r: Result<seq<Fragment>, LoadError>)
    ensures r.Ok? <==> forall i :: 0 <= i < |locations| ==> Resolves(locations[i], baseDir, resolve)
    ensures r.Ok? ==> |r.value| == |locations|
    ensures r.Ok? ==> forall i :: 0 <= i < |locations| ==>
      r.value[i] == resolve(locations[i].s, baseDir).value
    ensures r.Err? ==> exists i ::
                         && 0 <= i < |locations|
                         && (forall j :: 0 <= j < i ==> Resolves(locations[j], baseDir, resolve))
                         && !Resolves(locations[i], baseDir, resolve)
                         && r.error == LocationError(locations[i], start + i)
    decreases |locations|
  {
    if locations == [] then Ok([])
    else if !Resolves(locations[0], baseDir, resolve) then
      Err(LocationError(locations[0], start))
    else
      var rest :- LoadEach(locations[1..], start + 1, baseDir, resolve);
      Ok([resolve(locations[0].s, baseDir).value] + rest)
  }

  /** loadConfigs: the argument must be an array; each element is then loaded in turn. */
  function LoadConfigs(locations: Value, baseDir: Option<string>, resolve: Resolver)
    : (r: Result<seq<Fragment>, LoadError>)
    ensures !locations.Arr? ==> r == Err(ArgumentError(ArrayRequiredMessage))
    ensures locations.Arr? ==> r != Err(ArgumentError(ArrayRequiredMessage))
    ensures locations == Arr([]) ==> r == Ok([])
    ensures r.Err? && r.error.ResolutionError? ==> NotFoundPrefix <= r.error.message
  {
    if !locations.Arr? then Err(ArgumentError(ArrayRequiredMessage))
    else LoadEach(locations.items, 0, baseDir, resolve)
  }
}
