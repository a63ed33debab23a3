# Parameter registration of hector_pose_estimation

This project models how hector_pose_estimation binds its declared, typed
parameters to the ROS parameter server (`hector_pose_estimation_core/src/parameters.cpp`).
The model is written in Dafny and proved correct against its specification.

A parameter is a handle with a key and a value whose runtime type is fixed.
`ParameterRegistryROS` tries one handler per supported type in a fixed order:
`std::string`, `double`, `std::vector<double>`, `int`, `bool`, `ColumnVector`.
Each handler first tests whether the parameter has exactly its type.

- A scalar handler looks up the lower-cased key. A stored value of its type
  replaces the parameter's value. Otherwise the handler writes the parameter's
  default to the store.
- A vector handler never writes to the store. A stored array replaces the
  vector element by element after a resize. A stored non-array makes the
  handler return false.

When no handler returns true, the registrar reports an unknown type.
`ParameterList::initialize` registers every parameter once, in list order.

Files:

- `keys.dfy` (module `Keys`): ASCII lower-casing of keys, and when two keys
  address the same store entry.
- `values.dfy` (module `Values`): the store's dynamic values and the
  parameters' typed values. Also the typed read and write of a store entry,
  and `std::vector::resize`.
- `reconcile.dfy` (module `Reconcile`): each handler, the handler chain, the
  registrar and the initialisation pass, written as functions of the
  parameter's key and value and of the store.
- `properties.dfy` (module `Properties`): lemmas about the registrar and the
  initialisation pass.
- `registry.dfy` (module `Registry`): the imperative form, which mirrors the
  source.
  - `Parameter` is a class whose value the handlers overwrite in place.
  - `ParameterRegistry` owns the store map and the diagnostic log. Its handler
    methods, its registrar and `ParameterList.Initialize` are each proved to
    leave exactly the state that the matching function in `Reconcile` gives.

Modelling choices:

- The ROS node handle is a `map<string, DynValue>`. Reads and writes match
  keys exactly. `DynValue` stands for a subset of the XML-RPC values: a
  string, number, integer, boolean or array.
- Type recovery through `std::bad_cast` becomes a test on the value's tag
  (`Values.IsOfType`). A type that has no handler is `OtherValue`.
- The ROS debug, warning and error messages are events appended to a log.
- Vector elements are copied as the store holds them. The conversion of an
  XML-RPC element to `double` is not modelled.
- A typed scalar read (`getParam` into `p.value`) fails when the key is
  absent. It also fails when the entry holds a value of another type, and
  then the handler writes the default over that entry.

## Model

| member | source | states |
|---|---|---|
| Keys.LowerChar | hector_pose_estimation_core/src/parameters.cpp:46 | the result is never an ASCII capital; a capital becomes its small letter; every other character is kept |
| Keys.ToLower | hector_pose_estimation_core/src/parameters.cpp:46 | the lower-cased key has the same length, each character is lower-cased in place, and it contains no ASCII capital |
| Keys.ToLowerIdempotent | hector_pose_estimation_core/src/parameters.cpp:46 | lower-casing a key twice gives the same key as lower-casing it once |
| Keys.SameLowerCharIffSameLetter | hector_pose_estimation_core/src/parameters.cpp:46 | two characters have the same lower-case form exactly when they are the same letter up to case (both directions) |
| Keys.SameEntryIffEqualIgnoringCase | hector_pose_estimation_core/src/parameters.cpp:46 | two declared keys have the same lower-case store key if and only if they are equal up to the case of ASCII letters (both directions) |
| Values.TypeOf | hector_pose_estimation_core/src/parameters.cpp:45 | a value has a handler type exactly when it is not of an unhandled type, and then it passes that type's test |
| Values.TypeIsUnique | hector_pose_estimation_core/src/parameters.cpp:45 | a value passes the type test of at most one handler type (no widening) |
| Values.IsOfType | hector_pose_estimation_core/src/parameters.cpp:45 | type recovery; its contract is stated by Values.TypeTestIsRuntimeType: a value passes the test for k exactly when its runtime type is k, with no widening |
| Values.TypeTestIsRuntimeType | hector_pose_estimation_core/src/parameters.cpp:45 | a value passes the type test for k exactly when k is its runtime type; a vector kind is passed only by vectors and a scalar kind only by scalars |
| Values.Fetch | hector_pose_estimation_core/src/parameters.cpp:47 | a typed read succeeds exactly when the stored value has the requested type, and it then yields a value of that type |
| Values.Encode | hector_pose_estimation_core/src/parameters.cpp:48 | a stored scalar is never an array, and a typed read of it returns the value that was written |
| Values.EncodeAfterFetch | hector_pose_estimation_core/src/parameters.cpp:47-48 | writing back what a typed read returned gives the same store value |
| Values.Resize | hector_pose_estimation_core/src/parameters.cpp:76 | the resized vector has the requested length, keeps the common prefix and pads with zero |
| Values.TypeName | hector_pose_estimation_core/src/parameters.cpp:139 | the type description of an unhandled type is the name it carries, and every handled type has a non-empty description |
| Values.TypeNamesDistinct | hector_pose_estimation_core/src/parameters.cpp:139 | two values of handled types with the same description in the unknown-type report have the same runtime type |
| Reconcile.ScalarOutcome | hector_pose_estimation_core/src/parameters.cpp:43-57 | if the key is absent, the default is written under the lower-case key and the value is unchanged; if a value of the type is stored, it becomes the parameter's value and the store is unchanged; if a value of another type is stored, it is overwritten with the default; the handler returns true; afterwards the entry reads back as the parameter's value; no other key changes |
| Reconcile.VectorOutcome | hector_pose_estimation_core/src/parameters.cpp:63-84 | the store never changes; if the key is absent the vector is kept and the handler returns true; a stored non-array leaves the vector unchanged, logs one warning and returns false; a stored array of length n gives a vector of length n whose element i is stored element i, and the handler returns true |
| Reconcile.HandlerOutcome | hector_pose_estimation_core/src/parameters.cpp:40-123 | a handler of another type returns false and changes nothing; a scalar handler of the parameter's type always returns true; a false return leaves value and store untouched; the runtime type never changes; only the lower-case key's entry may change |
| Reconcile.HANDLER_ORDER | hector_pose_estimation_core/src/parameters.cpp:130-135 | the order string, double, vector of double, int, bool, ColumnVector; Reconcile.HandlerOrderIsComplete states that every handler type occurs in it exactly once |
| Reconcile.HandlerOrderIsComplete | hector_pose_estimation_core/src/parameters.cpp:130-135 | the registrar's order contains every handler type, and no type twice |
| Reconcile.Position | hector_pose_estimation_core/src/parameters.cpp:130-135 | every handler type has a place in the fixed order string, double, vector of double, int, bool, ColumnVector |
| Reconcile.ChainOutcome | hector_pose_estimation_core/src/parameters.cpp:130-136 | a chain that returns false leaves value and store unchanged; it returns true only if some tried type matches; the type is preserved; only the lower-case key's entry may change |
| Reconcile.RegisterOutcome | hector_pose_estimation_core/src/parameters.cpp:129-140 | when no handler returns true, value and store are unchanged and the last event is the unknown-type error with the declared key and type name; an unhandled type is never taken by a handler; the type is preserved |
| Reconcile.InitializeOutcome | hector_pose_estimation_core/src/parameters.cpp:142-144 | the pass yields one value per list element, registering the elements in list order against the store left by the previous ones |
| Properties.ChainSkipsMismatches | hector_pose_estimation_core/src/parameters.cpp:130-135 | handlers whose type test fails can be dropped from the front of the chain without changing its outcome |
| Properties.ChainWithoutMatch | hector_pose_estimation_core/src/parameters.cpp:130-136 | a chain in which no type test succeeds returns false, logs nothing and mutates nothing |
| Properties.ChainAtOwnType | hector_pose_estimation_core/src/parameters.cpp:130-136 | when only one handler of the chain has the parameter's type, the chain's outcome is that handler's outcome |
| Properties.ExactlyOneHandlerType | hector_pose_estimation_core/src/parameters.cpp:130-135 | for a parameter of a handled type, exactly one handler in the registrar's order passes the type test |
| Properties.RegisterDispatchesOnType | hector_pose_estimation_core/src/parameters.cpp:129-140 | the registrar's outcome is the outcome of the handler of the parameter's own type, followed by the unknown-type error exactly when that handler returns false |
| Properties.RegisterScalar | hector_pose_estimation_core/src/parameters.cpp:47-53 | for the four scalar types, the whole registrar does get-or-set-default |
| Properties.RegisterUnknownType | hector_pose_estimation_core/src/parameters.cpp:139 | a parameter of an unhandled type yields exactly one unknown-type report and no store or value change |
| Properties.VectorNotAnArrayFallsThrough | hector_pose_estimation_core/src/parameters.cpp:72-75 | a vector parameter whose store entry is not an array produces the warning and then the unknown-type error of line 139; its value and the store stay unchanged |
| Properties.InitializeStep | hector_pose_estimation_core/src/parameters.cpp:143 | registering one more list element extends the pass by that element's registration against the current store |
| Properties.InitializeKeepsTypes | hector_pose_estimation_core/src/parameters.cpp:142-144 | no parameter's runtime type changes during a pass |
| Properties.InitializeTouchesOnlyDeclaredKeys | hector_pose_estimation_core/src/parameters.cpp:142-144 | store entries whose key is no element's lower-case key are untouched by a pass |
| Properties.InitializeAgreesWithStore | hector_pose_estimation_core/src/parameters.cpp:142-144 | with lower-case keys pairwise distinct, after a pass every scalar parameter's store entry reads back as its value |
| Properties.CaseVariantsShareEntry | hector_pose_estimation_core/src/parameters.cpp:46-53 | two scalar parameters of one type whose keys differ only in case share one entry: the first writes its default, and the second takes it over |
| Registry.Parameter.Assign | hector_pose_estimation_core/src/parameters.cpp:76-77 | resizing and copying element by element leaves the vector equal to the stored array, with the parameter's type unchanged |
| Registry.ParameterRegistry.constructor | hector_pose_estimation_core/src/parameters.cpp:125-127 | the registry holds the given store and an empty log |
| Registry.ParameterRegistry.GetParam | hector_pose_estimation_core/src/parameters.cpp:68 | an untyped read finds a value exactly when the key is present, and returns the stored value |
| Registry.ParameterRegistry.GetTyped | hector_pose_estimation_core/src/parameters.cpp:47 | a typed read succeeds exactly when the key holds a value of the type, and returns a value of that type that encodes to the stored one |
| Registry.ParameterRegistry.SetParam | hector_pose_estimation_core/src/parameters.cpp:48 | a write replaces the one entry and leaves the log alone |
| Registry.ParameterRegistry.ScalarHandler | hector_pose_estimation_core/src/parameters.cpp:40-58 | the return value, parameter value, store and log after the call are those given by Reconcile.HandlerOutcome |
| Registry.ParameterRegistry.VectorHandler | hector_pose_estimation_core/src/parameters.cpp:60-85 | the same for the vector specialisations (the `std::vector<T>` one at lines 98-123 is identical) |
| Registry.ParameterRegistry.Handler | hector_pose_estimation_core/src/parameters.cpp:40-123 | the handler for a type is the vector specialisation or the scalar template, with the outcome of Reconcile.HandlerOutcome |
| Registry.ParameterRegistry.Register | hector_pose_estimation_core/src/parameters.cpp:129-140 | the short-circuit chain of six handler calls and the error report leave value, store and log as Reconcile.RegisterOutcome gives them |
| Registry.ParameterList.Initialize | hector_pose_estimation_core/src/parameters.cpp:142-144 | registering every parameter in list order leaves store, log and every parameter's value as Reconcile.InitializeOutcome gives them |
| Registry.ParameterList.RegisterNext | hector_pose_estimation_core/src/parameters.cpp:143 | one iteration of the loop registers the next parameter and extends the pass by exactly that registration, leaving the earlier values of the pass unchanged |

## Left out

- ROS `NodeHandle` transport, namespaces and parameter-server caching are left out. The store is a map with exact-match get and set.
- XML-RPC struct, dateTime and base64 values are not modelled; a `getParam` on a namespace key, which returns a struct, is one such case. The source treats them like any value of another type. Under a scalar key the typed `getParam` fails and `setParam` overwrites the entry with the default (parameters.cpp:47-48). Under a vector key the entry is not an array, so the handler logs the warning and returns false (parameters.cpp:72-75).
- Values.Fetch: ROS's typed `getParam` also reads an integer entry as a `double`, and some ROS versions round a `double` entry for an `int`. The model reads only the exact type, so such an entry counts as absent and is overwritten by the default.
- The conversion of each XML-RPC array element to `double` (parameters.cpp:77 and 115) is left out. In ROS a non-double element would raise an XML-RPC exception, which the handler does not catch. The model copies elements as opaque store values.
- Values.Resize: padding follows `std::vector`. A `ColumnVector` resize may leave its contents undefined, but the copy loop overwrites every element either way.
- Keys.ToLower: only ASCII letters are folded. The locale rules of `boost::algorithm::to_lower_copy` are not modelled.
- The `operator<<` stream formatter for vectors (parameters.cpp:87-96) exists only for log output and is not modelled. Events carry the values they would print.
- The type description in the unknown-type error comes from `Parameter::type()`, which is declared elsewhere. The model uses the C++ spelling of each handled type and a caller-given name for the others.
- `TypedParameter`, `ParameterList` and `ColumnVector` are declared in headers that are not part of this model. A parameter is a key plus a tagged value, and a `ColumnVector` is a resizable sequence.
- `ParameterList::initialize` accepts any registration function. The model passes the registrar, the only registration function in this file.
- Registry.ParameterList.Initialize: requires the list's handles to be distinct objects. A list that holds the same handle twice (aliasing) is not modelled.
- Concurrency and floating-point semantics are not modelled. Numbers are mathematical reals.
