/**
 The task entity and the key-value table it is kept in.

 The table is keyed by the task's hash key `TaskId`; the backend's client
 calls the handlers use (load by key, save, full scan) are modelled as pure
 functions over a `map`.
 */
module Tasks {
  import opened Wrappers

  /**
   One task: its hash key, its title and its completion flag. The title is
   `None` when the create request carried `"title": null`.
   */
  datatype TaskItem = TaskItem(taskId: string, title: Option<string>, isComplete: bool)

  /** The task table, from hash key to the item stored under it. */
  type Store = map<string, TaskItem>

  /** Every item is stored under its own `taskId`, and no key is empty. */
  predicate WellFormed(store: Store) {
    forall k :: k in store ==> store[k].taskId == k && k != ""
  }

  /** An identifier a create may use: non-empty and not yet a key of the table. */
  predicate FreshId(store: Store, id: string) {
    id != "" && id !in store
  }

  /** The item stored under `id`, or `None` when the table has no such key. */
  function Load(store: Store, id: string): (r: Option<TaskItem>)
    ensures r.Some? <==> id in store
    ensures r.Some? ==> r.value == store[id]
    ensures WellFormed(store) && r.Some? ==> r.value.taskId == id
  {
    Get(store, id)
  }

  /** Stores `task` under its own key, overwriting any item already there. */
  function Save(store: Store, task: TaskItem): (s: Store)
    ensures s.Keys == store.Keys + {task.taskId}
    ensures s[task.taskId] == task
    ensures forall k :: k in store && k != task.taskId ==> s[k] == store[k]
    ensures task.taskId !in store ==> |s| == |store| + 1
    ensures WellFormed(store) && task.taskId != "" ==> WellFormed(s)
  {
    store[task.taskId := task]
  }

  /** No item occurs twice in `s`. */
  predicate Distinct<T(==)>(s: seq<T>) {
    forall i, j :: 0 <= i < j < |s| ==> s[i] != s[j]
  }

  /**
   An order in which a full scan may visit the table: every key exactly once.
   Which such order the backend picks is its own business.
   */
  predicate IsScanOrder(store: Store, order: seq<string>) {
    && (forall k :: k in order ==> k in store)
    && (forall k :: k in store ==> k in order)
    && Distinct(order)
  }

  /** The items under the keys of `order`, in that order. */
  function Scan(store: Store, order: seq<string>): (items: seq<TaskItem>)
    requires forall k :: k in order ==> k in store
    ensures |items| == |order|
    ensures forall i :: 0 <= i < |order| ==> items[i] == store[order[i]]
  {
    if order == [] then [] else [store[order[0]]] + Scan(store, order[1..])
  }

  /**
   `tasks` has one entry per key of `store` and holds every stored item and
   nothing else. Only on a well-formed table, where distinct keys hold
   distinct items, does this make each item appear exactly once.
   */
  predicate ListsEachTaskOnce(tasks: seq<TaskItem>, store: Store) {
    && |tasks| == |store|
    && (forall t :: t in tasks ==> t in store.Values)
    && (forall t :: t in store.Values ==> t in tasks)
  }

  /** A duplicate-free sequence has as many elements as its set of elements. */
  lemma {:induction false} DistinctCardinality<T>(s: seq<T>)
    requires Distinct(s)
    ensures |set x | x in s| == |s|
  {
    if s != [] {
      DistinctCardinality(s[1..]);
      assert (set x | x in s) == (set x | x in s[1..]) + {s[0]};
      assert s[0] !in s[1..] by {
        forall i | 0 <= i < |s[1..]| ensures s[1..][i] != s[0] {
          assert s[1..][i] == s[i + 1];
        }
      }
    }
  }

  /** A scan order visits exactly as many keys as the table holds. */
  lemma ScanOrderLength(store: Store, order: seq<string>)
    requires IsScanOrder(store, order)
    ensures |order| == |store|
  {
    DistinctCardinality(order);
    assert (set x | x in order) == store.Keys;
  }
}
