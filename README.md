# Storage strategies for collections, and the Topaz Array built on them

This project models the storage-strategy engine of `rstrategies.py` and its use by the Ruby `Array` of Topaz (`topaz/objects/arrayobject.py`), and proves properties of that model in Dafny.

A collection does not store its elements itself. It delegates them to a *strategy* instance whose class picks the representation:
- nothing at all (Empty);
- a run of one constant (SingleValue);
- a list of boxed objects (Generic, WeakGeneric);
- a list of unboxed primitives (SingleType, Tagging).

When an instance is asked to hold a value its class refuses, it *escalates*:
1. The factory picks the first declared generalization that accepts the value.
2. It builds an instance of that class and makes it the host's strategy.
3. It copies the elements across one by one.
4. The operation is retried on the new instance.

The factory also does two things up front:
- It orders its registry of classes by generalization depth, deepest first.
- It picks the most specific class for a fresh batch of values with an early-exit scan over a flag array.

Modules, one per file:

| file | module | contents |
|---|---|---|
| `values.dfy` | `Values` | The values the engine sees (nil, Fixnum, Float as an opaque token, other objects by identity), boxing, and the error, result and option types. |
| `lattice.dfy` | `Lattice` | The representations with `check_can_handle`, `_wrap` and `_unwrap`; the class table; the conditions a lattice must meet; `generalized_strategy_for`. |
| `depth.dfy` | `Depth` | `get_generalization_depth` as written and corrected, and the depth formula both are compared with. |
| `classify.dfy` | `Classify` | `strategy_type_for`, as a method over a flag array and as the function that specifies it. |
| `ordering.dfy` | `Ordering` | The descending sort of the registry by depth. |
| `strategies.dfy` | `Strategies` | Classes `StrategyFactory`, `Strategy` (instances, updated in place) and `ArrayObject` (the host owning the current strategy). |
| `topaz.dfy` | `Topaz` | Topaz's four strategy classes, their lattice and registry, the class chosen for a batch, and `__deepcopy__`. |
| `arraymethods.dfy` | `ArrayMethods` | The Array methods that reduce to index arithmetic and splicing over the strategy API. |

A strategy's `Contents()` is the sequence of values that `fetch(0)`, ..., `fetch(size() - 1)` would return. Every mutator is specified by its effect on `Contents()`. When a mutator escalates, its contract speaks of the instance that replaced it as the host's strategy.

## Model

| member | source | states |
|---|---|---|
| Values.Box | topaz/objects/arrayobject.py:86-101 | Boxing gives a value of the requested primitive type whose unboxed form is the given payload (`wrap`/`unwrap` of IntStrategy and FloatStrategy). |
| Lattice.Handles | rstrategies.py:237-406 | `check_can_handle`: Empty accepts nothing, SingleValue only its constant, Generic and WeakGeneric everything, SingleType values of its contained type, Tagging the tagged object and values of its type whose unboxed form is not the sentinel. |
| Lattice.Unwrap | rstrategies.py:303-416 | `_unwrap`: Generic keeps the object, WeakGeneric a weak reference to it, SingleType the unboxed form, Tagging the sentinel for the tagged object and the unboxed form otherwise. |
| Lattice.Wrap | rstrategies.py:303-416 | `_wrap`: the inverse reading of a slot; a collected weak referent reads as the default value and the sentinel as the tagged object. |
| Lattice.DefaultValue | topaz/objects/arrayobject.py:77-99 | `default_value()`: the representation's default, nil for ObjectStrategy and a boxed 0 for IntStrategy and FloatStrategy. |
| Lattice.TwoHandled | rstrategies.py:336-406 | Every storage representation accepts two distinct values. |
| Lattice.StorageGeneralizesToStorage | rstrategies.py:313-322 | On a well-formed lattice every generalization of a storage class is a storage class, so the escalations of a storage `insert` never reach the SingleValue `insert`. |
| Lattice.WrapUnwrap | rstrategies.py:286-416 | For every value a storage representation accepts, `_unwrap` gives a slot of the representation's shape and `_wrap` of that slot gives the value back (Generic, WeakGeneric with a live referent, SingleType, Tagging). |
| Lattice.WrapHandled | rstrategies.py:336-406 | Whatever a well-shaped slot reads as is accepted by its representation, so an instance only ever holds values its class accepts. |
| Lattice.TaggingDisambiguates | rstrategies.py:396-416 | A tagging representation accepts the tagged object, refuses a genuine primitive whose unboxed form is the sentinel, and reads the sentinel slot as the tagged object. |
| Lattice.CatchAllHandles | rstrategies.py:328-349 | Generic and WeakGeneric representations accept every value. |
| Lattice.FirstAccepting | rstrategies.py:129-133 | The position of the first class in the list accepting the value: it accepts, every earlier one refuses, and None only when all refuse. |
| Lattice.GeneralizedStrategyFor | rstrategies.py:123-140 | `generalized_strategy_for`: the first declared generalization accepting the value, with every earlier one refusing; ConfigurationError exactly when no declared generalization accepts it. |
| Lattice.EscalationSucceeds | rstrategies.py:123-140 | On a well-formed lattice a refused value always finds a generalization, and that generalization is defined earlier, so escalation chains terminate. |
| Depth.DeeperThanGeneralizations | rstrategies.py:56-69 | A class is strictly deeper than each of its generalizations, so sorting deepest first puts every class ahead of the classes it escalates to. |
| Depth.MaxDepthAtLeast | rstrategies.py:63-66 | The running maximum over the generalizations is at least the depth of each of them. |
| Depth.DepthAsWritten | rstrategies.py:56-69 | `get_generalization_depth` with one shared `visited` set: the set only grows, stays within the table, and the only error is the cycle report. |
| Depth.MaxDepthAsWritten | rstrategies.py:63-66 | The loop over `_generalizations`, threading the shared set: the set only grows and the only error is the cycle report. |
| Depth.DepthOnPath | rstrategies.py:56-69 | The depth walk with the set holding only the current path; the only error is the cycle report. |
| Depth.MaxDepthOnPath | rstrategies.py:63-66 | The loop over `_generalizations` of the per-path walk; the only error is the cycle report. |
| Depth.GeneralizationDepth | rstrategies.py:56-70 | The corrected sort key: the per-path walk from an empty path. It is the depth formula on a definition-ordered table (`Depth.DepthOnPathCorrect`) and a ConfigurationError when a cycle is reachable (`Depth.CycleReported`). |
| Depth.DepthOnPathCorrect | rstrategies.py:56-69 | On a table in definition order the per-path walk never reports a cycle and returns 0 for a class without generalizations, else 1 + the largest depth among them. |
| Depth.MaxDepthOnPathCorrect | rstrategies.py:63-67 | The per-path loop returns the larger of its accumulator and the largest generalization depth. |
| Depth.AsWrittenAgrees | rstrategies.py:56-69 | Whenever the shared-set walk succeeds, the per-path walk gives the same depth: sharing the set can only add false cycle reports. |
| Depth.MaxAsWrittenAgrees | rstrategies.py:63-66 | The same agreement for the loop over the generalizations. |
| Depth.DiamondFirstBranch | rstrategies.py:56-67 | On the five-class diamond, walking 2 then 1 then 0 gives depth 2 and leaves 4, 2 and 1 in the shared set. |
| Depth.DiamondSecondBranch | rstrategies.py:56-67 | The second branch, 3 then 1, meets class 1 in the shared set and reports a cycle. |
| Depth.DiamondReportedAsCycle | rstrategies.py:56-67 | The shared-set walk reports a cycle for class 4 of an acyclic lattice whose depth is 3. |
| Depth.DiamondDepths | rstrategies.py:56-69 | The depth formula gives class 4 of the diamond depth 3. |
| Depth.SelfLoopReported | rstrategies.py:59-61 | A genuine cycle (a class escalating to itself) is still reported by the per-path walk. |
| Depth.CycleReported | rstrategies.py:56-70 | On any table, including the unordered ones `decorate_strategies` builds: when a class reachable from `c` lies on a generalization cycle, the per-path walk and `get_generalization_depth` as written both raise the cycle error for `c`. |
| Depth.WalkReported | rstrategies.py:59-66 | A walk along generalization edges that reaches a class already on the stack makes the walk from its first class report a cycle. |
| Depth.MaxReported | rstrategies.py:64-66 | The loop over the generalizations reports a cycle once any generalization does. |
| Classify.Classification | rstrategies.py:104-117 | What `strategy_type_for` returns: the first registry entry accepting every value scanned before the early exit, or the configuration error when none does. |
| Classify.Flags | rstrategies.py:106-113 | The `can_handle` flags after scanning a batch: one per registry entry, set exactly when the entry's class accepts every scanned value. |
| Classify.FirstTrue | rstrategies.py:114-116 | The first set flag: it is set, all earlier ones are clear, and None only when no flag is set. |
| Classify.ScanEnd | rstrategies.py:107-109 | The number of values the scan looks at: it stops at the end of the batch or once at most one candidate is left. |
| Classify.CountTrueClear | rstrategies.py:111-113 | Clearing a set flag lowers the candidate count by one. |
| Classify.CountTrueAtMostOne | rstrategies.py:107-109 | With at most one candidate left, two set flags are the same flag. |
| Classify.CountTruePositive | rstrategies.py:107-109 | A set flag means at least one candidate. |
| Classify.CountTrueAllTrue | rstrategies.py:105-106 | All flags set initially means the counter starts at the registry's length. |
| Classify.ScanValue | rstrategies.py:110-113 | The inner loop clears the flag of every entry refusing the value, yielding the flags of the batch one value longer and the matching candidate count. |
| Classify.ScanEntry | rstrategies.py:111-113 | One pass of the inner loop: entry `i` sees the value, and the counter drops exactly when a set flag is cleared. |
| Classify.StrategyTypeFor | rstrategies.py:103-117 | `strategy_type_for` with the flag array, the decremented counter and the early exit computes `Classification`: the first surviving entry, or ConfigurationError when none survives. |
| Classify.FirstCandidate | rstrategies.py:114-117 | The final loop returns the position of the first surviving flag, or None. |
| Classify.ClassifyEmpty | rstrategies.py:105-116 | An empty batch classifies as the first (deepest) registry entry. |
| Classify.ClassifyNoClasses | rstrategies.py:105-117 | An empty registry raises for every batch. |
| Classify.ClassifyFindsMostSpecific | rstrategies.py:103-117 | With a catch-all class registered, the early exit is sound: classification succeeds, and its answer is the first registry entry accepting every value of the batch, scanned or not. |
| Ordering.SortDescending | rstrategies.py:70 | `self.strategies.sort(key=depth, reverse=True)`: the result is a permutation of the registry, sorted by key, largest first. |
| Ordering.InsertAt | rstrategies.py:70 | One insertion-sort pass keeps the multiset and extends the sorted prefix by one. |
| Ordering.SwapStep | rstrategies.py:70 | Swapping the moving entry one place left keeps the sortedness of the other entries. |
| Ordering.InsertDone | rstrategies.py:70 | When the moving entry stops, the prefix is sorted. |
| Ordering.SwapKeepsMultiset | rstrategies.py:70 | Swapping two entries keeps the multiset. |
| Strategies.IndexOk | rstrategies.py:354-371 | `check_index_fetch` / `check_index_store`: the checked policy admits `0 <= i < size`, the unchecked one every index. |
| Strategies.RangeOkAsWritten | rstrategies.py:358-362 | `check_index_range` as written under the checked policy: `start <= end` and both ends valid element indices; the unchecked policy admits every range. |
| Strategies.RangeOk | rstrategies.py:358-373 | The intended range check: `0 <= start <= end <= size` under the checked policy, every range under the unchecked one. |
| Strategies.RangeCheckEndExcluded | rstrategies.py:353-365 | The checked `check_index_range` as written refuses `[0, size)`, which the intended check accepts. It never accepts a range the intended check refuses, and the two agree on every range ending before `size`. As written it refuses `[size - 1, size)`, the range `pop(size - 1)` deletes. |
| Strategies.InsertAsWrittenDiffers | rstrategies.py:216-266 | On a well-formed lattice, wherever `insert` as written completes it splices the values in at `min(start, size)`, as the corrected insert does. It raises only IndexError or NameError, and then leaves the contents unchanged. IndexError comes exactly from an empty list into an Empty instance. NameError comes exactly from a non-empty list reaching a SingleValue `insert`: one into a SingleValue instance, or one into an Empty instance whose first value escalates to a SingleValue class. |
| Strategies.InsertAsWrittenOutcome | rstrategies.py:231-266 | The status and contents `insert` as written leaves, by class. Empty defers to `cannot_handle_insert`. SingleValue completes on an empty list and raises NameError on any other. A storage class splices at `min(start, size)`. |
| Strategies.CannotHandleInsertOutcome | rstrategies.py:216-219 | `cannot_handle_insert` as written: IndexError on an empty list, otherwise the outcome of the as-written insert of the generalization accepting the first value, over the same contents. |
| Strategies.EmptyIntoSingleValueAsWritten | rstrategies.py:216-266 | On the well-formed table Generic(nil), SingleValue(nil) → [0], Empty → [1, 0], inserting `[nil]` into the Empty instance, or storing nil into it (`cannot_handle_insert(0, [nil])`), escalates to the SingleValue class and raises NameError there. |
| Strategies.Strategy.InsertAsWritten | rstrategies.py:216-266 | `insert(index0, list_w)` as written on a live instance: the status is the as-written outcome's for its class. When the values escalate, the host holds a fresh instance with the outcome's contents; otherwise the instance itself holds them and the host keeps it. |
| Strategies.Strategy.CannotHandleInsertAsWritten | rstrategies.py:216-219 | `cannot_handle_insert` as written: an empty list raises IndexError with the host untouched. Otherwise the host gets a fresh generalized instance, which runs its own `insert` as written; status and contents are `CannotHandleInsertOutcome`'s. |
| Topaz.EmptyInsertAsWritten | rstrategies.py:231-232 | Inserting no values into a new empty Topaz array through the as-written insert raises IndexError and leaves the array empty. |
| Strategies.Repeat | rstrategies.py:286-288 | `[v] * n`: `n` copies of `v`. |
| Strategies.InitialContents | rstrategies.py:248-288 | A fresh instance of size `n` holds nothing (Empty), or `n` elements (SingleValue, storage). |
| Strategies.View | rstrategies.py:298-301 | A storage list reads element by element through `_wrap`. |
| Strategies.StrategyFactory.constructor | rstrategies.py:23-34 | `__init__` registers every class once and orders the registry deepest first by the corrected per-path depth; specialisation starts on. |
| Strategies.StrategyFactory.OrderStrategies | rstrategies.py:54-70 | `order_strategies` keeps the registry's classes and sorts them deepest first by the corrected per-path depth. |
| Strategies.StrategyFactory.InstantiateAndSwitch | topaz/objects/arrayobject.py:45-49 | A fresh instance of the target class with the given size, installed as the host array's strategy before anything is copied. |
| Strategies.StrategyFactory.InitializeStorage | topaz/objects/arrayobject.py:33-43 | A fresh instance for the array holding exactly `objs`; its class is `strategy_type_for(objs)`, or ObjectStrategy when specialisation is off. |
| Strategies.StrategyFactory.CatchAllRegistered | topaz/objects/arrayobject.py:30 | The catch-all class is in the registry. |
| Strategies.DepthKeys | rstrategies.py:56-70 | The sort key computed with the corrected per-path walk for every class. On a table in definition order it equals the depth formula. |
| Strategies.AllClasses | rstrategies.py:26-32 | The registry before ordering: every class index once, in definition order. |
| Strategies.Depths | rstrategies.py:56-69 | The depth of every class, by class index. |
| Strategies.ArrayObject.Length | topaz/objects/arrayobject.py:162-166 | `length()` is the number of elements. |
| Strategies.ArrayObject.constructor | topaz/objects/arrayobject.py:150-152 | `W_ArrayObject.__init__` gives an array holding `items` in the class `initialize_storage` picks. |
| Strategies.ArrayObject.CopyOfAsWritten | topaz/objects/arrayobject.py:154-157 | `__deepcopy__` as written: a fresh strategy of the same class and contents whose host is the ORIGINAL array. |
| Strategies.ArrayObject.CopyOf | topaz/objects/arrayobject.py:154-157 | `__deepcopy__` corrected: a valid copy with the same class and contents, owned by the copy. |
| Strategies.Strategy.Size | rstrategies.py:235-310 | `size()` is the number of elements held. |
| Strategies.Strategy.ContentsHandled | rstrategies.py:273-349 | Every element an instance holds is accepted by its class. |
| Strategies.Strategy.constructor | topaz/objects/arrayobject.py:65-68 | `__init__` with `init_strategy(size)`: the instance holds the initial contents of its class for that size. |
| Strategies.Strategy.Fetch | rstrategies.py:227-301 | `fetch(i)` returns element `i` when in range; out of range (checked policy, or any Empty fetch) raises IndexError. |
| Strategies.Strategy.Slice | rstrategies.py:178-179 | `slice(start, end)` is `[]` for an empty range, the elements `[start, end)` when in range, and IndexError otherwise. |
| Strategies.Strategy.FetchAll | rstrategies.py:181-182 | `fetch_all()` returns every element. |
| Strategies.Strategy.Delete | rstrategies.py:233-326 | `delete(start, end)` after the intended range check: removes exactly `[start, end)`, or raises IndexError leaving the contents unchanged. |
| Strategies.Strategy.DeleteSlots | rstrategies.py:323-326 | `del storage[start:end]` removes exactly those elements. |
| Strategies.Strategy.Store | rstrategies.py:212-296 | `store(i, v)`: an accepted value replaces element `i` and nothing else, in place; a refused value (and every Empty store, through the corrected insert) switches the host to a fresh instance holding the same result. |
| Strategies.Strategy.Insert | rstrategies.py:216-321 | `insert(start, vs)`: the contents become `vs` spliced in at `min(start, size)`, in this instance if it accepts every value and in a fresh replacement otherwise. |
| Strategies.Strategy.InsertSingleValue | rstrategies.py:259-266 | SingleValueStrategy.insert reading `list_w[i]`: the same splice, escalating exactly when some value differs from the constant. |
| Strategies.Strategy.EscalateRest | rstrategies.py:264-266 | After `i` constants grew the run, `cannot_handle_insert(index0 + i, list_w[i:])` completes the whole splice in a fresh instance. |
| Strategies.Strategy.AbsorbConstants | rstrategies.py:261-263 | The loop grows the size by one per leading constant and stops at the first other value. |
| Strategies.Strategy.ConstantSplice | rstrategies.py:261-266 | Growing the run by `i` constants and inserting the rest at `start + i` equals inserting the whole list at `start`. |
| Strategies.Strategy.InsertIntoStorage | rstrategies.py:312-321 | StrategyWithStorage.insert clamps `start` to the size, keeps the accepted prefix in place, and hands the suffix from the first refused value to the generalized instance at `start + i`; the result is the full splice. |
| Strategies.Strategy.InsertAccepted | rstrategies.py:316-318 | The accepted prefix of `vs` is unwrapped into the storage list at `start`; the loop stops exactly at the first refused value. |
| Strategies.Strategy.UnwrapAll | rstrategies.py:318 | The slots kept for a list of values, one `_unwrap` each. |
| Strategies.Strategy.UnwrapAllStep | rstrategies.py:318 | One `storage.insert(start + i, ...)` extends the inserted block by one slot. |
| Strategies.Strategy.StorageSplice | rstrategies.py:316-318 | Slots of accepted values inserted at `s` read as the values spliced in at `s`, and the instance stays valid. |
| Strategies.Strategy.SpliceRest | rstrategies.py:316-320 | Splicing a prefix at `s`, then the rest at `s + i`, is splicing the whole list at `s`. |
| Strategies.Strategy.CannotHandleInsert | rstrategies.py:216-219 | `cannot_handle_insert(p, list_w)` switches the host to a fresh instance holding the old contents with `list_w` spliced in at `min(p, size)`. |
| Strategies.Strategy.GeneralizeForValue | rstrategies.py:207-210 | Switches the host to a fresh instance of `generalized_strategy_for(v)`, an earlier class that accepts `v`, with the same contents. |
| Strategies.Strategy.SwitchStrategy | rstrategies.py:96-101 | `switch_strategy` installs a fresh instance of the target as the host's strategy, with the same size and, after the copy, the same element at every index. |
| Strategies.Strategy.CopyFrom | rstrategies.py:152-158 | `copy_from` stores `other.fetch(i)` for every index; the target accepts every element, so no store escalates, and the contents become those of `other`. |
| Strategies.Strategy.StoreAll | topaz/objects/arrayobject.py:39-41 | The store loop of `initialize_storage` leaves the instance holding exactly `objs` without switching the host. |
| Strategies.Strategy.DeepCopyAsWritten | topaz/objects/arrayobject.py:78-115 | `deepcopy` as written: a fresh instance of the same class and contents bound to the original `arr`. |
| Strategies.Strategy.DeepCopy | topaz/objects/arrayobject.py:78-115 | `deepcopy` corrected: a fresh instance of the same class and contents bound to the new array. |
| Strategies.Strategy.Append | rstrategies.py:194-195 | `append(vs)` leaves the contents followed by `vs`, escalating exactly when some value is refused. |
| Strategies.Strategy.Pop | rstrategies.py:197-200 | `pop(i)` returns element `i` and removes exactly it, after the intended range check of `Delete` (Findings row rstrategies.py:358-362); out of range it raises IndexError and changes nothing. |
| Topaz.Classes | topaz/objects/arrayobject.py:74-115 | Four unchecked classes; ObjectStrategy accepts everything. |
| Topaz.ClassesWellFormed | topaz/objects/arrayobject.py:74-115 | The Topaz lattice is well formed: generalizations defined first, each accepting what its specialization accepts, and every refused value accepted up the lattice. |
| Topaz.ClassDepths | topaz/objects/arrayobject.py:74-115 | The depths are ObjectStrategy 0, IntStrategy 1, FloatStrategy 1 and EmptyStrategy 2. |
| Topaz.ClassDepthsAsWritten | rstrategies.py:56-70 | `get_generalization_depth` as written, starting each sort key from an empty shared set, gives the Topaz classes the depths 0, 1, 1 and 2 without a false cycle report. |
| Topaz.EmptyWalkAsWritten | rstrategies.py:56-70 | The as-written walk from EmptyStrategy visits FloatStrategy, IntStrategy and ObjectStrategy once each and answers depth 2. |
| Topaz.SortedRegistry | topaz/objects/arrayobject.py:28-31 | Any ordering of the four classes sorted deepest first is EmptyStrategy, then Int and Float in either order, then ObjectStrategy. |
| Topaz.StrategyFor | topaz/objects/arrayobject.py:33-37 | The class Topaz picks for a batch: EmptyStrategy for none, IntStrategy for all Fixnums, FloatStrategy for all Floats, ObjectStrategy otherwise; `Topaz.ClassifyTopaz` proves it is `strategy_type_for` over the Topaz registry. |
| Topaz.ClassifyTopaz | topaz/objects/arrayobject.py:33-37 | `strategy_type_for` on the Topaz registry picks EmptyStrategy for `[]`, IntStrategy for all Fixnums, FloatStrategy for all Floats, and ObjectStrategy otherwise. |
| Topaz.FirstHandlingAll | topaz/objects/arrayobject.py:74-115 | The first Topaz registry entry accepting a whole batch is the class described in `Topaz.ClassifyTopaz`. |
| Topaz.NewFactory | topaz/objects/arrayobject.py:28-31 | The Topaz factory has a well-formed table, a registry ordered Empty first and Object last, and specialisation on. |
| Topaz.NewArray | topaz/objects/arrayobject.py:150-152 | A new array holds its items in the class `Topaz.ClassifyTopaz` picks, or ObjectStrategy when specialisation is off. |
| Topaz.DeepCopyAliasing | topaz/objects/arrayobject.py:154-157 | Deep-copying `[1]` as written, then storing a Float into the copy, makes the ORIGINAL array read `[Float]`. |
| Topaz.DeepCopyIndependent | topaz/objects/arrayobject.py:154-157 | With the corrected copy the same store changes only the copy, and the original still reads `[1]`. |
| ArrayMethods.FetchAt | rstrategies.py:170-171 | `strategy.fetch(i)` on an index in range returns element `i`. |
| ArrayMethods.StoreAt | rstrategies.py:167-168 | `strategy.store(i, v)` in range: whichever strategy the array ends up with, element `i` is `v` and nothing else changes. |
| ArrayMethods.AppendAll | rstrategies.py:194-195 | `strategy.append(vs)` leaves the array followed by `vs`. |
| ArrayMethods.InsertAll | rstrategies.py:186-187 | `strategy.insert(i, vs)` in range splices `vs` in at `i`. |
| ArrayMethods.DeleteRange | rstrategies.py:189-190 | `strategy.delete(s, e)` in range removes exactly `[s, e)`. |
| ArrayMethods.SliceOf | rstrategies.py:178-179 | `strategy.slice(s, e)` in range returns elements `[s, e)`. |
| ArrayMethods.ListView | topaz/objects/arrayobject.py:159-160 | `listview` returns every element. |
| ArrayMethods.Replace | topaz/objects/arrayobject.py:172-178 | `replace(other)` leaves the array equal to `other`. |
| ArrayMethods.Clear | topaz/objects/arrayobject.py:402-406 | `clear` leaves the array empty. |
| ArrayMethods.AppendNils | topaz/objects/arrayobject.py:471-473 | `_append_nils(num)` appends exactly `num` nils. |
| ArrayMethods.SubscriptAssign | topaz/objects/arrayobject.py:193-226 | `[]=`: IndexError with no change for a negative length or a negative start. A range assignment leaves `Assigned(xs, start, end, rep)`: with `start <= end` the replacement takes the place of `[start, end)`, and a range starting past the end pads with nils up to `start` before the replacement. A single index in range replaces that element. Past the end, the array is padded with nils so that element `start` is the object. |
| ArrayMethods.Assigned | topaz/objects/arrayobject.py:228-241 | The target of a range assignment, element by element: the first `start` elements (nil past the old end), then the replacement, then the old elements from `end` on; its length is `start + len(rep) + (size - end)`. |
| ArrayMethods.AssignedCases | topaz/objects/arrayobject.py:228-241 | With `start <= end` the target is `xs[:start] + rep + xs[end:]`; with `end == size <= start` it is `xs + [nil] * (start - size) + rep`. |
| ArrayMethods.SubscriptAssignRange | topaz/objects/arrayobject.py:228-241 | `_subscript_assign_range(start, end, rep)` leaves the array equal to `Assigned(xs, start, end, rep)` for any `end` within the array, including `end < start`; in particular `xs[:start] + rep + xs[end:]` when `start <= end`, and the nil-padded append when `end == size <= start`. |
| ArrayMethods.ClosedGapAgrees | topaz/objects/arrayobject.py:238-239 | After deleting `delta` elements at `start`, the tail sits right after the replacement's place. |
| ArrayMethods.SameLengthAgrees | topaz/objects/arrayobject.py:228-241 | With `delta == 0` the array already agrees with the target outside the replacement's place. |
| ArrayMethods.StoredAgrees | topaz/objects/arrayobject.py:240-241 | Storing the replacement over the one place that may differ gives the target. |
| ArrayMethods.ShiftStep | topaz/objects/arrayobject.py:235-237 | One `store(i, fetch(i + delta))` moves the shifted boundary down by one. |
| ArrayMethods.ShiftedAgrees | topaz/objects/arrayobject.py:231-237 | Once the walk reaches `lim`, the array agrees with the target outside the replacement's place. |
| ArrayMethods.ShiftTail | topaz/objects/arrayobject.py:231-237 | The `delta < 0` branch (append nils, then shift the tail right, walking down) leaves the array agreeing with the target outside the replacement's place. |
| ArrayMethods.ShiftDown | topaz/objects/arrayobject.py:234-237 | The descending `while` loop moves every element from `lim` on to its shifted place. |
| ArrayMethods.ShiftOne | topaz/objects/arrayobject.py:236 | One iteration of that loop keeps the shifting invariant with the index one lower. |
| ArrayMethods.StoredStep | topaz/objects/arrayobject.py:240-241 | One store of the replacement loop extends the stored run by one element. |
| ArrayMethods.StoredAll | topaz/objects/arrayobject.py:240-241 | After the whole run, the array is the prefix, the replacement and the rest. |
| ArrayMethods.StoreRun | topaz/objects/arrayobject.py:240-241 | The store loop writes `rep` over `[start, start + len(rep))` and changes nothing else. |
| ArrayMethods.Clamp | topaz/objects/arrayobject.py:251-252 | `min(max(x, 0), n)` lies in `[0, n]` and is `x` when `x` already does. |
| ArrayMethods.SliceBang | topaz/objects/arrayobject.py:243-261 | `slice!`: nil with no change; for a range, the clamped elements are returned and removed; for an index, that element is returned and removed. |
| ArrayMethods.Pop | topaz/objects/arrayobject.py:344-362 | `pop`: nil on an empty array; otherwise it returns and removes the last element. `pop(num)`: ArgumentError for a negative count; otherwise it returns and removes the last `min(num, length)` elements. |
| ArrayMethods.DeleteAt | topaz/objects/arrayobject.py:364-372 | `delete_at(idx)` adds the length to a negative index; out of range it returns nil with no change, otherwise it returns and removes that element. |
| ArrayMethods.Last | topaz/objects/arrayobject.py:374-388 | `last(count)`: ArgumentError for a negative count, otherwise the last `min(count, length)` elements. `last`: nil when empty, else the last element. |
| ArrayMethods.Unshift | topaz/objects/arrayobject.py:320-325 | `unshift(*args)`, inserting at 0 from the last argument back, leaves `args` followed by the old contents. |
| ArrayMethods.PrependStep | topaz/objects/arrayobject.py:323-324 | One insert at 0 extends the prepended suffix of `args` by one. |
| ArrayMethods.RotationCount | topaz/objects/arrayobject.py:437-440 | The reduce-then-make-non-negative steps of `rotate!` compute `n mod length` (floored), for every `n`. |
| ArrayMethods.ModSmall | topaz/objects/arrayobject.py:437-440 | Without the reduction step (`abs(n) < length`), adding the length to a negative count is already `n mod length`. |
| ArrayMethods.RotateSplice | topaz/objects/arrayobject.py:444-445 | Appending the first `m` elements and deleting them gives `xs[m:] + xs[:m]`. |
| ArrayMethods.Rotate | topaz/objects/arrayobject.py:431-446 | `rotate!(n)` leaves `xs[k:] + xs[:k]` with `k = n mod length`; an empty array is unchanged. |
| ArrayMethods.Insert | topaz/objects/arrayobject.py:448-469 | `insert(i, *args)`: no change for empty `args`. `i > length` pads with `i - length` nils, then appends. `i < -length - 1` raises IndexError with no change. Otherwise `args` is spliced in at `i`, or at `i + length + 1` for negative `i`. |
| ArrayMethods.InsertEach | topaz/objects/arrayobject.py:466-468 | One single-element insert per argument at consecutive positions splices all of `args` in at the starting position, in order. |
| ArrayMethods.InsertedOne | topaz/objects/arrayobject.py:466-468 | One insert at position `p + k` extends the inserted block by one argument. |

## Left out

- Logging (`log`, `log_string_for_object`, the logger) has no behavioural content and is not modelled.
- The metaclass, `collect_subclasses` and the `copy_from_<Name>` patching are not modelled. The class table is an explicit sequence in definition order, and the copy is the direct `copy_from` loop.
- JIT and RPython annotations (`unroll_safe`, `_immutable_fields_`, `_freeze_`, `look_inside_iff`, `specialize`) do not change behaviour and are dropped.
- Garbage collection behind WeakGenericStrategy is a slot holding an optional referent; a collected referent reads as the default value.
- Float arithmetic and bignum promotion (`newfloat`, `newint_or_bigint`) are out: a Float is an opaque token, and a Fixnum payload is an unbounded integer.
- Python identity (`is`) is value equality on the modelled values.
- The object space (`subscript_access`, `convert_type`, `Coerce`, `check_frozen`, error-message text) is not modelled. The Array methods take the already normalised indices and the converted replacement as parameters.
- `[]`, `+`, `*`, `<<`, `concat`, `push`, `shift`, `join`, `pack`, `length`, `empty?`, `to_ary`, the sorts and `reverse!` are outside the modelled set of Array methods.
- `shift(n)` with `n > length` reads past the end under unchecked indexing, so it has no contract to state.
- A method answering a new Ruby array answers with that array's contents (`ArrayMethods.Answer.NewArray`). No second array object is built.
- Deep copy copies the storage list by value. The element objects themselves are not copied.
- `strategy_switched` and `init_strategy` are no-op hooks in the engine and are folded into the constructor.
- The registry is a sequence of class indices. The model builds none of the per-class instances that `instantiate_empty` attaches to the registered classes; `Strategy.arr` is nullable because `instantiate_empty` passes no host, and for the placeholder below.
- `W_ArrayObject.__init__` assigns `strategy` once, from `initialize_storage`. A Dafny constructor must give the field a value first, so the model's constructor installs a placeholder ObjectStrategy instance with no host, which the result of `initialize_storage` then replaces.
- Strategies.StrategyFactory.constructor, Strategies.StrategyFactory.OrderStrategies and Strategies.DepthKeys order the registry by the corrected per-path depth, `Depth.GeneralizationDepth`. A lattice on which `get_generalization_depth` as written reports a false cycle, such as the diamond of `Depth.DiamondReportedAsCycle`, is ordered by the model, where the source's `__init__` raises.
- Strategies.StrategyFactory.constructor requires a well-formed lattice, which includes generalizations defined before the classes naming them. `decorate_strategies` can build tables in any order, cycles included, and on a cycle the source's `__init__` raises the cycle error from `order_strategies`. The model does not construct a factory there. `Depth.CycleReported` proves, for every table, that both depth walks report a reachable cycle.
- Strategies.Strategy.Store, Strategies.Strategy.Insert and the other mutators require a well-formed lattice: generalizations defined first, each accepting what its specialization accepts, and no dead end. The engine does not check this. On a lattice that breaks it the Python code either raises from `generalized_strategy_for` or continues the copy loop on an instance that is no longer the host's strategy. `Topaz.ClassesWellFormed` proves the Topaz lattice meets it.
- Strategies.Strategy.Fetch, Strategies.Strategy.Store, Strategies.Strategy.Delete, Strategies.Strategy.Slice and Strategies.Strategy.Pop require an in-range index or range under the unchecked policy. Fetch, Slice, Pop and Store also accept any index on an Empty instance, whose `fetch` raises IndexError and whose `store` escalates; Delete does not, though the unchecked Empty `delete` does nothing. Out of range, the unchecked code indexes the storage list unchecked (undefined after translation), and a SingleValue `delete` would drive `_size` negative.
- Strategies.Strategy.Insert and Strategies.Strategy.InsertAsWritten require a non-negative start, and Strategies.Strategy.Store a non-negative index on an Empty instance. A negative index reaches a `storage.insert`, where Python counts it from the end of the list.
- Lattice.GeneralizedStrategyFor answers ConfigurationError for a class with no generalizations. There the decorator installs no `generalized_strategy_for` of its own, so the source's lookup fails with an AttributeError (or finds a base class's method). Under a well-formed lattice such a class accepts every value, so escalation never asks it.
- Strategies.Strategy.Pop deletes through the corrected `Delete`, so on a checked instance `pop(size - 1)` returns the element where the source's `delete(i, i + 1)` raises IndexError (Findings row rstrategies.py:358-362; `Strategies.RangeCheckEndExcluded` states the as-written refusal).
- Strategies.Strategy.Store on an Empty instance goes through the corrected insert, so it answers `Done` where the source's `cannot_handle_insert(index0, [value])` reaches a SingleValue class and raises NameError (Findings row rstrategies.py:262; `Strategies.EmptyIntoSingleValueAsWritten` states the as-written outcome).
- ArrayMethods.SliceBang requires the single-index case to be in range, which `subscript_access` guarantees in the source (it answers nil otherwise), and for a range that the clamped start does not pass the clamped end, which the source asserts (`assert delta >= 0`, topaz/objects/arrayobject.py:254) rather than handles.
- ArrayMethods.SubscriptAssign requires the end of a range to lie within the array. The normalisation of `subscript_access` is not part of this model, so the case of an end past the array's end is not covered.
- Strategies.StrategyFactory.InitializeStorage builds the instance, then stores the objects; the host's `strategy` field is written by the caller, `W_ArrayObject.__init__`, as in the source.
- The Python `sort` is a stable Timsort. `Ordering.SortDescending` is an insertion sort with the same contract (sorted by key, a permutation of the input), so equal-depth classes may be ordered differently. `Topaz.SortedRegistry` covers every order the contract allows.

## Findings

| source | as written | input that shows it | evidently intended | confidence | as-written member | corrected member |
|---|---|---|---|---|---|---|
| rstrategies.py:262 | `list_w[handled]` reads a name bound nowhere | any non-empty `insert` into a SingleValue instance, e.g. `insert(0, [v])`, or into an Empty instance whose first value escalates to a SingleValue class; likewise `store(0, v)` on such an Empty instance, which is `cannot_handle_insert(0, [v])` | `list_w[i]` | not executed | Strategies.Strategy.InsertAsWritten, Strategies.InsertAsWrittenDiffers, Strategies.EmptyIntoSingleValueAsWritten | Strategies.Strategy.InsertSingleValue |
| rstrategies.py:231-232 | EmptyStrategy.insert passes an empty list to `cannot_handle_insert`, which reads `list_w[0]` | `insert(0, [])` on an Empty instance, as `[].push()`, `[].concat([])` or `[].replace([])` do in Topaz | inserting nothing changes nothing | not executed | Strategies.Strategy.CannotHandleInsertAsWritten, Topaz.EmptyInsertAsWritten | Strategies.Strategy.Insert |
| rstrategies.py:358-362 | `check_index(end)` demands `end < size` | `delete(0, 1)` on a checked instance of size 1, and so `pop(size - 1)` on any non-empty checked instance | `0 <= start <= end <= size` | not executed | Strategies.RangeCheckEndExcluded | Strategies.Strategy.Delete |
| rstrategies.py:56-67 | one `visited` set is shared by sibling branches | classes 4 → [2, 3], 2 → [1], 3 → [1], 1 → [0]: class 1 is met twice and reported as a cycle | the set holds the current path only | not executed | Depth.DiamondReportedAsCycle | Depth.DepthOnPathCorrect |
| topaz/objects/arrayobject.py:79 | `deepcopy` builds the copy with `self.arr` (also lines 91, 103 and 115) | deep-copy `[1]`, then store a Float into the copy: the escalation installs the new strategy in the original array | the copy's strategy is bound to the copy | not executed | Topaz.DeepCopyAliasing | Topaz.DeepCopyIndependent |
